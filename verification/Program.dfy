/** The program that tasks_from_config_impl starts: the three tasks as objects over one
  database, one direction map and one queue. Every call of a method of a task is a step of
  Interleaving, so what is proved there of every run holds of these objects. */
module Program {
  import opened Database
  import opened InteractiveTasks
  import opened Interleaving
  import opened PriorityQ
  import opened PriorityQueueElements
  import opened SetUp
  import opened Tuning
  import opened Workflows
  import R = RescheduleRuns

  class Program {
    const db: DB
    const tuner: AutoTuner
    const queue: PQueue
    const functions: NetFunctions
    const sine: real -> real
    const engines: InteractiveTask
    const main: InteractiveTask
    const loop: InteractiveTask
    var stop: bool
    var enginesPlace: Place
    var mainPlace: Place
    var loopPlace: Place

    ghost predicate Valid()
      reads queue, queue.heap
    {
      && queue.Valid() && engines != main && main != loop && loop != engines
      && IsTask(engines, "Engines", null, AutoTune)
      && IsTask(main, "Engines", queue, NetFunction)
      && IsTask(loop, "PositionLoop", null, Noise)
    }

    ghost predicate IsTask(t: InteractiveTask, component: string, innerQueue: PQueue?, callback: Callback) {
      && t.component == component && t.innerQueue == innerQueue && t.callback == callback
      && t.db == db && t.tuner == tuner && t.functions == functions
    }

    function TaskFor(t: Task): InteractiveTask {
      match t
      case EnginesTask => engines
      case MainTask => main
      case LoopTask => loop
    }

    /** The state of Interleaving that the objects stand for. */
    ghost function State(): System<Element>
      reads this, db, tuner, queue, queue.heap, engines, main, loop
    {
      System(Component(db.mainDb, "Engines"), Component(db.mainDb, "PositionLoop"), tuner.incDec, queue.Abs(), stop,
             Local(enginesPlace, engines.data), Local(mainPlace, main.data), Local(loopPlace, loop.data))
    }

    constructor (db: DB, tuner: AutoTuner, queue: PQueue, functions: NetFunctions, sine: real -> real)
      requires queue.Valid()
      ensures Valid() && this.db == db && this.tuner == tuner && this.queue == queue
      ensures this.functions == functions && this.sine == sine && fresh(main)
      ensures var local := Local(AtTest, map[]);
              State() == System(Component(db.mainDb, "Engines"), Component(db.mainDb, "PositionLoop"), tuner.incDec,
                                queue.Abs(), false, local, local, local)
    {
      this.db, this.tuner, this.queue, this.functions, this.sine := db, tuner, queue, functions, sine;
      engines := new InteractiveTask("Engines", null, AutoTune, db, tuner, functions);
      main := new InteractiveTask("Engines", queue, NetFunction, db, tuner, functions);
      loop := new InteractiveTask("PositionLoop", null, Noise, db, tuner, functions);
      stop, enginesPlace, mainPlace, loopPlace := false, AtTest, AtTest, AtTest;
    }

    method SetPlace(t: Task, place: Place)
      modifies this
      ensures stop == old(stop)
      ensures State() == WithLocal(old(State()), t, LocalOf(old(State()), t).(place := place))
    {
      match t {
        case EnginesTask => enginesPlace := place;
        case MainTask => mainPlace := place;
        case LoopTask => loopPlace := place;
      }
    }

    method Stop()
      modifies this
      ensures State() == Apply(old(State()), Action.Stop, functions, sine)
    {
      stop := true;
    }

    method Test(t: Task)
      requires Enabled(State(), Action.Test(t))
      modifies this
      ensures State() == Apply(old(State()), Action.Test(t), functions, sine)
    {
      SetPlace(t, if stop then Ended else Asleep);
    }

    /** The read of a task, before its place moves on. */
    method ReadTask(t: Task, clock: nat -> int, ghost bound: int) returns (ghost drain: seq<R.Event<Element>>)
      requires Valid()
      requires t == MainTask ==> R.AllReadable(queue.Abs()) && Drainable(queue.Abs(), clock, bound)
      modifies TaskFor(t), queue, queue.Elements()
      ensures Valid() && DrainOf(old(State()), t, drain) && (t == MainTask ==> DrainRun(drain, clock))
      ensures State() == WithLocal(Drained(old(State()), t, drain), t,
                                   Local(LocalOf(old(State()), t).place, Snapshot(old(State()), t)))
    {
      var run := TaskFor(t).Read(clock, bound);
      drain := [];
      if t == MainTask {
        drain := run;
        DrainRunIsDrain(run, clock);
      }
    }

    method Read(t: Task, clock: nat -> int, ghost bound: int) returns (ghost drain: seq<R.Event<Element>>)
      requires Valid() && LocalOf(State(), t).place == Asleep
      requires t == MainTask ==> R.AllReadable(queue.Abs()) && Drainable(queue.Abs(), clock, bound)
      modifies this, TaskFor(t), queue, queue.Elements()
      ensures Valid() && Enabled(old(State()), Action.Read(t, drain)) && (t == MainTask ==> DrainRun(drain, clock))
      ensures State() == Apply(old(State()), Action.Read(t, drain), functions, sine)
    {
      drain := ReadTask(t, clock, bound);
      SetPlace(t, HasRead);
    }

    method ProcessTask(t: Task, noise: nat -> real) returns (ok: bool)
      requires Valid()
      modifies TaskFor(t), tuner
      ensures Valid() && (ok <==> NoThrow(old(State()), Action.Process(t, noise)))
      ensures ok ==>
                State() == WithLocal(HashTuned(old(State()), t), t,
                                     Local(LocalOf(old(State()), t).place,
                                           Processed(old(State()), t, noise, functions, sine)))
    {
      ok := TaskFor(t).Process(noise, sine);
    }

    method Process(t: Task, noise: nat -> real) returns (ok: bool)
      requires Valid() && Enabled(State(), Action.Process(t, noise))
      modifies this, TaskFor(t), tuner
      ensures Valid() && (ok <==> NoThrow(old(State()), Action.Process(t, noise)))
      ensures ok ==> State() == Apply(old(State()), Action.Process(t, noise), functions, sine)
    {
      ok := ProcessTask(t, noise);
      SetPlace(t, HasProcessed);
    }

    method WriteTask(t: Task)
      requires Valid()
      modifies db, db.smw
      ensures Valid()
      ensures var s := old(State()); var data := LocalOf(s, t).data;
              State() == if t == LoopTask then s.(loop := s.loop + data) else s.(engines := s.engines + data)
    {
      TaskFor(t).Write();
      assert "Engines" != "PositionLoop" by {
        assert |"Engines"| != |"PositionLoop"|;
      }
    }

    method Write(t: Task)
      requires Valid() && Enabled(State(), Action.Write(t))
      modifies this, db, db.smw
      ensures Valid() && State() == Apply(old(State()), Action.Write(t), functions, sine)
    {
      WriteTask(t);
      SetPlace(t, AtTest);
    }
  }

  ghost function Drained(s: System<Element>, t: Task, drain: seq<R.Event<Element>>): System<Element>
    requires DrainOf(s, t, drain)
  {
    if t == MainTask then s.(queue := R.After(s.queue, drain)) else s
  }

  ghost function HashTuned(s: System<Element>, t: Task): System<Element>
    requires t == EnginesTask ==> s.enginesLocal.data.Keys <= s.hash.Keys
  {
    if t == EnginesTask then s.(hash := TunedHash(s.hash, s.enginesLocal.data)) else s
  }

  lemma DrainRunIsDrain<E>(run: seq<R.Event<E>>, clock: nat -> int)
    requires DrainRun(run, clock)
    ensures R.IsDrain(run)
  {
    forall i | 0 <= i < |run| - 1 ensures run[i].Fire? {
      assert run[i] == run[..|run| - 1][i];
    }
  }

  /** What the objects stand for when the tasks start, for a configuration and a database
    without values: the state Interleaving starts from. The program is missing if an action
    is unknown. */
  method Start(config: seq<Entry>, db: DB, built: nat -> int, sine: real -> real)
    returns (p: Program?, ghost elems: seq<Element>)
    requires db.mainDb == map[]
    modifies db, db.smw
    ensures p == null <==> Wire(LoadedAll(config).netActions).UnknownAction?
    ensures p != null ==>
              && fresh(p) && fresh(p.queue) && fresh(p.queue.Elements()) && fresh(p.main)
              && p.Valid() && p.db == db && p.sine == sine && Wired(p.functions) == Wire(LoadedAll(config).netActions)
              && Configured(p.queue.Abs(), LoadedAll(config).tasks, built, elems)
              && p.State() == Initial(LoadedAll(config), p.queue.Abs())
  {
    var queue, wiring, tuner;
    queue, wiring, tuner, elems := TasksFromConfig(config, db, built);
    p := null;
    if wiring.Wired? {
      p := new Program(db, tuner, queue, wiring.functions, sine);
      StartValues(NewEngines(AllMotors(LoadedAll(config))));
    }
  }

  lemma StartValues(engines: Values)
    ensures var db := Written(Written(map[], "Engines", engines), "PositionLoop", map[1 := 1.0]);
            Component(db, "Engines") == engines && Component(db, "PositionLoop") == map[1 := 1.0]
  {
    assert |"Engines"| != |"PositionLoop"|;
    assert map[] + engines == engines;
  }

  /** From the file to the first read of the main task, if every entry that gives a task can
    be read: the read comes to an end, whatever the clock does, nothing is due at its last
    clock reading, and every element has fired as its entry asks. */
  method StartAndRead(config: seq<Entry>, db: DB, built: nat -> int, sine: real -> real, clock: nat -> int)
    returns (p: Program?, ghost q: R.Queue<Element>, ghost elems: seq<Element>, ghost drain: seq<R.Event<Element>>)
    requires db.mainDb == map[]
    requires forall j: nat :: GivesTask(config, j) ==> ReadableEntry(config[j])
    modifies db, db.smw
    ensures p == null <==> Wire(LoadedAll(config).netActions).UnknownAction?
    ensures p != null ==>
              && p.Valid() && Configured(q, LoadedAll(config).tasks, built, elems)
              && Runs(Initial(LoadedAll(config), q), [Action.Test(MainTask)] + [Action.Read(MainTask, drain)],
                      p.functions, p.sine)
              && p.State() == Reached(Initial(LoadedAll(config), q),
                                      [Action.Test(MainTask)] + [Action.Read(MainTask, drain)], p.functions, p.sine)
              && DrainRun(drain, clock) && R.Possible(q, drain) && AllFiredFor(config, q, built, elems, drain)
              && forall e :: e in p.queue.Abs() ==> !Passed(clock(|drain| - 1), p.queue.Abs()[e].next)
  {
    p, elems := Start(config, db, built, sine);
    q, drain := map[], [];
    if p != null {
      q := p.queue.Abs();
      ConfiguredQueueDrains(config, q, built, elems, clock, 0);
      p.Test(MainTask);
      drain := p.Read(MainTask, clock, 0);
      FirstRead(config, q, built, elems, drain, p.functions, p.sine);
    }
  }

  lemma FirstRead(config: seq<Entry>, q: R.Queue<Element>, built: nat -> int, elems: seq<Element>,
                  drain: seq<R.Event<Element>>, fs: NetFunctions, sine: real -> real)
    requires forall j: nat :: GivesTask(config, j) ==> ReadableEntry(config[j])
    requires var s := Initial(LoadedAll(config), q);
             Enabled(Apply(s, Action.Test(MainTask), fs, sine), Action.Read(MainTask, drain))
    ensures var s := Initial(LoadedAll(config), q);
            && Runs(s, [Action.Test(MainTask)] + [Action.Read(MainTask, drain)], fs, sine)
            && Reached(s, [Action.Test(MainTask)] + [Action.Read(MainTask, drain)], fs, sine) ==
               Apply(Apply(s, Action.Test(MainTask), fs, sine), Action.Read(MainTask, drain), fs, sine)
    ensures R.Possible(q, drain) && AllFiredFor(config, q, built, elems, drain)
    ensures forall e :: e in R.After(q, drain) ==> !Passed(drain[|drain| - 1].now, R.After(q, drain)[e].next)
  {
    R.DrainLeavesNothing(q, drain);
    TwoSteps(Initial(LoadedAll(config), q), Action.Test(MainTask), Action.Read(MainTask, drain), fs, sine);
    AllFire(config, q, built, elems, drain);
  }

  lemma TwoSteps<E>(s: System<E>, a: Action<E>, b: Action<E>, fs: NetFunctions, sine: real -> real)
    requires Enabled(s, a) && NoThrow(s, a)
    requires Enabled(Apply(s, a, fs, sine), b) && NoThrow(Apply(s, a, fs, sine), b)
    ensures Runs(s, [a] + [b], fs, sine)
    ensures Reached(s, [a] + [b], fs, sine) == Apply(Apply(s, a, fs, sine), b, fs, sine)
  {
    RunsFirst(s, a, [b], fs, sine);
    RunsFirst(Apply(s, a, fs, sine), b, [], fs, sine);
    assert [b] + [] == [b];
  }
}
