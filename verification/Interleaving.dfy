/** The three periodic tasks running side by side (thread_routine in
  app/utils/PeriodicTask.h, the tasks of app/TasksFromConfig.cpp), as a system of steps.
  Reading, processing and writing are one step each and interleave freely; in particular
  a read of a component is one step, although the code takes no lock for it. */
module Interleaving {
  import opened Database
  import opened InteractiveTasks
  import opened PriorityQueueElements
  import opened SetUp
  import opened Tuning
  import opened Workflows
  import R = RescheduleRuns

  datatype Task = EnginesTask | MainTask | LoopTask

  /** Where a task is in its loop: at the test of the stop flag, past it and asleep, after
    its read, after its process, or out of the loop. */
  datatype Place = AtTest | Asleep | HasRead | HasProcessed | Ended

  datatype Local = Local(place: Place, data: Values)

  /** E is what queued objects are known by. */
  datatype System<E> = System(
    engines: Values,
    loop: Values,
    hash: map<nat, bool>,
    queue: R.Queue<E>,
    stop: bool,
    enginesLocal: Local,
    mainLocal: Local,
    loopLocal: Local)

  function LocalOf<E>(s: System<E>, t: Task): Local {
    match t
    case EnginesTask => s.enginesLocal
    case MainTask => s.mainLocal
    case LoopTask => s.loopLocal
  }

  function WithLocal<E>(s: System<E>, t: Task, l: Local): (r: System<E>)
    ensures LocalOf(r, t) == l
    ensures forall u :: u != t ==> LocalOf(r, u) == LocalOf(s, u)
  {
    match t
    case EnginesTask => s.(enginesLocal := l)
    case MainTask => s.(mainLocal := l)
    case LoopTask => s.(loopLocal := l)
  }

  /** A read of the main task comes with the drain it does; noise is arbitrary. */
  datatype Action<E> =
    | Stop
    | Test(task: Task)
    | Read(task: Task, drain: seq<R.Event<E>>)
    | Process(task: Task, noise: nat -> real)
    | Write(task: Task)

  function Snapshot<E>(s: System<E>, t: Task): Values {
    if t == LoopTask then s.loop else s.engines
  }

  ghost predicate Enabled<E>(s: System<E>, a: Action<E>) {
    match a
    case Stop => true
    case Test(t) => LocalOf(s, t).place == AtTest
    case Read(t, drain) => LocalOf(s, t).place == Asleep && DrainOf(s, t, drain)
    case Process(t, _) => LocalOf(s, t).place == HasRead
    case Write(t) => LocalOf(s, t).place == HasProcessed
  }

  ghost predicate DrainOf<E>(s: System<E>, t: Task, drain: seq<R.Event<E>>) {
    if t == MainTask then R.Possible(s.queue, drain) && R.IsDrain(drain) else drain == []
  }

  /** The tuning callback may only be applied to engines in the map. */
  predicate NoThrow<E>(s: System<E>, a: Action<E>) {
    a.Process? && a.task == EnginesTask ==> s.enginesLocal.data.Keys <= s.hash.Keys
  }

  ghost function Processed<E>(s: System<E>, t: Task, noise: nat -> real, fs: NetFunctions, sine: real -> real): Values
    requires t == EnginesTask ==> s.enginesLocal.data.Keys <= s.hash.Keys
  {
    match t
    case EnginesTask => TunedValues(s.hash, s.enginesLocal.data)
    case MainTask => NetValues(fs, s.mainLocal.data, sine)
    case LoopTask => NoisyValues(noise, s.loopLocal.data)
  }

  ghost function Apply<E>(s: System<E>, a: Action<E>, fs: NetFunctions, sine: real -> real): System<E>
    requires Enabled(s, a) && NoThrow(s, a)
  {
    match a
    case Stop => s.(stop := true)
    case Test(t) => WithLocal(s, t, LocalOf(s, t).(place := if s.stop then Ended else Asleep))
    case Read(t, drain) =>
      var drained := if t == MainTask then s.(queue := R.After(s.queue, drain)) else s;
      WithLocal(drained, t, Local(HasRead, Snapshot(s, t)))
    case Process(t, noise) =>
      var tuned := if t == EnginesTask then s.(hash := TunedHash(s.hash, s.enginesLocal.data)) else s;
      WithLocal(tuned, t, Local(HasProcessed, Processed(s, t, noise, fs, sine)))
    case Write(t) =>
      var data := LocalOf(s, t).data;
      var written := if t == LoopTask then s.(loop := s.loop + data) else s.(engines := s.engines + data);
      WithLocal(written, t, LocalOf(s, t).(place := AtTest))
  }

  /** A run that never throws. */
  ghost predicate Runs<E>(s: System<E>, acts: seq<Action<E>>, fs: NetFunctions, sine: real -> real)
    decreases |acts|
  {
    acts == [] ||
    (Enabled(s, acts[0]) && NoThrow(s, acts[0]) && Runs(Apply(s, acts[0], fs, sine), acts[1..], fs, sine))
  }

  ghost function Reached<E>(s: System<E>, acts: seq<Action<E>>, fs: NetFunctions, sine: real -> real): System<E>
    requires Runs(s, acts, fs, sine)
    decreases |acts|
  {
    if acts == [] then s else Reached(Apply(s, acts[0], fs, sine), acts[1..], fs, sine)
  }

  /** The system that tasks_from_config_impl starts. */
  ghost function Initial<E>(l: Loaded, queue: R.Queue<E>): System<E> {
    var local := Local(AtTest, map[]);
    System(NewEngines(AllMotors(l)), map[1 := 1.0], (map m | m in AllMotors(l) :: true), queue, false,
           local, local, local)
  }

  // ---------- Key sets ----------

  ghost predicate TargetsAmong<E>(q: R.Queue<E>, motors: set<nat>) {
    forall e :: e in q ==> forall t :: t in q[e].targets ==> IsMotor(t, motors)
  }

  function KeysOf(t: Task, motors: set<nat>): set<nat> {
    if t == LoopTask then {1} else motors
  }

  /** The components, the direction map and every snapshot in use have the keys they were
    given, and the queued elements fire at engines. */
  ghost predicate KeysKept<E>(s: System<E>, motors: set<nat>) {
    && s.engines.Keys == motors && s.hash.Keys == motors && s.loop.Keys == {1}
    && TargetsAmong(s.queue, motors)
    && forall t :: SnapshotKept(s, t, motors)
  }

  ghost predicate SnapshotKept<E>(s: System<E>, t: Task, motors: set<nat>) {
    LocalOf(s, t).place in {HasRead, HasProcessed} ==> LocalOf(s, t).data.Keys == KeysOf(t, motors)
  }

  lemma {:induction false} DrainKeepsTargets<E>(q: R.Queue<E>, evs: seq<R.Event<E>>, motors: set<nat>)
    requires R.Possible(q, evs) && R.NoPush(evs) && TargetsAmong(q, motors)
    ensures TargetsAmong(R.After(q, evs), motors)
    decreases |evs|
  {
    if evs != [] {
      assert evs[0] in evs;
      DrainKeepsTargets(R.Apply(q, evs[0]), evs[1..], motors);
    }
  }

  /** A step that changes no component keeps the key sets if its own snapshot is right. */
  lemma LocalKeeps<E>(s: System<E>, t: Task, l: Local, motors: set<nat>)
    requires KeysKept(s, motors)
    requires l.place in {HasRead, HasProcessed} ==> l.data.Keys == KeysOf(t, motors)
    ensures KeysKept(WithLocal(s, t, l), motors)
  {
    var s' := WithLocal(s, t, l);
    forall u ensures SnapshotKept(s', u, motors) {
      assert SnapshotKept(s, u, motors);
    }
  }

  lemma ReadKeeps<E>(s: System<E>, t: Task, drain: seq<R.Event<E>>, motors: set<nat>, fs: NetFunctions,
                     sine: real -> real)
    requires KeysKept(s, motors) && Enabled(s, Read(t, drain))
    ensures KeysKept(Apply(s, Read(t, drain), fs, sine), motors)
  {
    var drained := s;
    if t == MainTask {
      DrainKeepsTargets(s.queue, drain, motors);
      drained := s.(queue := R.After(s.queue, drain));
      forall u ensures SnapshotKept(drained, u, motors) {
        assert SnapshotKept(s, u, motors);
      }
    }
    LocalKeeps(drained, t, Local(HasRead, Snapshot(s, t)), motors);
  }

  lemma ProcessKeeps<E>(s: System<E>, t: Task, noise: nat -> real, motors: set<nat>, fs: NetFunctions,
                        sine: real -> real)
    requires KeysKept(s, motors) && Enabled(s, Process(t, noise))
    ensures NoThrow(s, Process(t, noise))
    ensures KeysKept(Apply(s, Process(t, noise), fs, sine), motors)
  {
    assert SnapshotKept(s, t, motors);
    var tuned := if t == EnginesTask then s.(hash := TunedHash(s.hash, s.enginesLocal.data)) else s;
    forall u ensures SnapshotKept(tuned, u, motors) {
      assert SnapshotKept(s, u, motors);
    }
    LocalKeeps(tuned, t, Local(HasProcessed, Processed(s, t, noise, fs, sine)), motors);
  }

  lemma WriteKeeps<E>(s: System<E>, t: Task, motors: set<nat>, fs: NetFunctions, sine: real -> real)
    requires KeysKept(s, motors) && Enabled(s, Write(t))
    ensures KeysKept(Apply(s, Write(t), fs, sine), motors)
  {
    var data := LocalOf(s, t).data;
    assert SnapshotKept(s, t, motors);
    var written := if t == LoopTask then s.(loop := s.loop + data) else s.(engines := s.engines + data);
    forall u ensures SnapshotKept(written, u, motors) {
      assert SnapshotKept(s, u, motors);
    }
    LocalKeeps(written, t, LocalOf(s, t).(place := AtTest), motors);
  }

  lemma StepKeepsKeys<E>(s: System<E>, a: Action<E>, motors: set<nat>, fs: NetFunctions, sine: real -> real)
    requires KeysKept(s, motors) && Enabled(s, a)
    ensures NoThrow(s, a)
    ensures KeysKept(Apply(s, a, fs, sine), motors)
  {
    match a
    case Stop =>
      forall u ensures SnapshotKept(s.(stop := true), u, motors) {
        assert SnapshotKept(s, u, motors);
      }
    case Test(t) => LocalKeeps(s, t, LocalOf(s, t).(place := if s.stop then Ended else Asleep), motors);
    case Read(t, drain) => ReadKeeps(s, t, drain, motors, fs, sine);
    case Process(t, noise) => ProcessKeeps(s, t, noise, motors, fs, sine);
    case Write(t) => WriteKeeps(s, t, motors, fs, sine);
  }

  /** What the code could do, throwing included: the last action of a list may throw. */
  ghost predicate Attempt<E>(s: System<E>, acts: seq<Action<E>>, a: Action<E>, fs: NetFunctions, sine: real -> real) {
    Runs(s, acts, fs, sine) && Enabled(Reached(s, acts, fs, sine), a)
  }

  lemma {:induction false} RunKeepsKeys<E>(s: System<E>, acts: seq<Action<E>>, motors: set<nat>, fs: NetFunctions,
                                           sine: real -> real)
    requires KeysKept(s, motors) && Runs(s, acts, fs, sine)
    ensures KeysKept(Reached(s, acts, fs, sine), motors)
    decreases |acts|
  {
    if acts != [] {
      StepKeepsKeys(s, acts[0], motors, fs, sine);
      RunKeepsKeys(Apply(s, acts[0], fs, sine), acts[1..], motors, fs, sine);
    }
  }

  /** Under every interleaving of the tasks' steps the key sets stay what the configuration
    made them, and no step throws: the tuning map has every engine it is asked for. */
  lemma KeySetsAreKept<E>(l: Loaded, queue: R.Queue<E>, acts: seq<Action<E>>, a: Action<E>, fs: NetFunctions,
                          sine: real -> real)
    requires AllFit(queue, l)
    requires Attempt(Initial(l, queue), acts, a, fs, sine)
    ensures KeysKept(Reached(Initial(l, queue), acts, fs, sine), AllMotors(l))
    ensures NoThrow(Reached(Initial(l, queue), acts, fs, sine), a)
  {
    var s := Initial(l, queue);
    InitialKeeps(l, queue);
    RunKeepsKeys(s, acts, AllMotors(l), fs, sine);
    StepKeepsKeys(Reached(s, acts, fs, sine), a, AllMotors(l), fs, sine);
  }

  // ---------- The queue over a run ----------

  /** The drains of the main task's reads, one after the other. */
  function DrainsOf<E>(acts: seq<Action<E>>): seq<R.Event<E>>
    decreases |acts|
  {
    if acts == [] then []
    else (if acts[0].Read? && acts[0].task == MainTask then acts[0].drain else []) + DrainsOf(acts[1..])
  }

  lemma StepDrains<E>(s: System<E>, a: Action<E>, fs: NetFunctions, sine: real -> real)
    requires Enabled(s, a) && NoThrow(s, a)
    ensures if a.Read? && a.task == MainTask then
              && R.Possible(s.queue, a.drain) && R.NoPush(a.drain)
              && Apply(s, a, fs, sine).queue == R.After(s.queue, a.drain)
            else Apply(s, a, fs, sine).queue == s.queue
  {
  }

  /** Whatever the other tasks do in between, the drains of the main task are one run of the
    queue. */
  lemma {:induction false} DrainsAreOneRun<E>(s: System<E>, acts: seq<Action<E>>, fs: NetFunctions, sine: real -> real)
    requires Runs(s, acts, fs, sine)
    ensures R.Possible(s.queue, DrainsOf(acts)) && R.NoPush(DrainsOf(acts))
    ensures Reached(s, acts, fs, sine).queue == R.After(s.queue, DrainsOf(acts))
    decreases |acts|
  {
    if acts != [] {
      var a, rest := acts[0], DrainsOf(acts[1..]);
      StepDrains(s, a, fs, sine);
      DrainsAreOneRun(Apply(s, a, fs, sine), acts[1..], fs, sine);
      if a.Read? && a.task == MainTask {
        R.Concat(s.queue, a.drain, rest);
      } else {
        assert [] + rest == rest;
      }
    }
  }

  /** So over any run of the program every entry that gives a task fires as it asks: with its
    due times and values, at most as often as it says, and exactly that often when its
    element is gone. */
  lemma EveryRunFires<E>(config: seq<Entry>, q: R.Queue<E>, built: nat -> int, elems: seq<E>, acts: seq<Action<E>>,
                         fs: NetFunctions, sine: real -> real)
    requires forall j: nat :: GivesTask(config, j) ==> ReadableEntry(config[j])
    requires Configured(q, LoadedAll(config).tasks, built, elems)
    requires Runs(Initial(LoadedAll(config), q), acts, fs, sine)
    ensures R.Possible(q, DrainsOf(acts))
    ensures Reached(Initial(LoadedAll(config), q), acts, fs, sine).queue == R.After(q, DrainsOf(acts))
    ensures AllFiredFor(config, q, built, elems, DrainsOf(acts))
  {
    DrainsAreOneRun(Initial(LoadedAll(config), q), acts, fs, sine);
    AllFire(config, q, built, elems, DrainsOf(acts));
  }

  // ---------- Cycles ----------

  lemma {:induction false} RunsConcat<E>(s: System<E>, a: seq<Action<E>>, b: seq<Action<E>>, fs: NetFunctions,
                                         sine: real -> real)
    ensures Runs(s, a + b, fs, sine) <==> Runs(s, a, fs, sine) && Runs(Reached(s, a, fs, sine), b, fs, sine)
    ensures Runs(s, a + b, fs, sine) ==>
              Reached(s, a + b, fs, sine) == Reached(Reached(s, a, fs, sine), b, fs, sine)
    decreases |a|
  {
    if a == [] {
      assert a + b == b;
    } else {
      assert (a + b)[1..] == a[1..] + b;
      if Enabled(s, a[0]) && NoThrow(s, a[0]) {
        RunsConcat(Apply(s, a[0], fs, sine), a[1..], b, fs, sine);
      }
    }
  }

  lemma RunsFirst<E>(s: System<E>, a: Action<E>, rest: seq<Action<E>>, fs: NetFunctions, sine: real -> real)
    ensures Runs(s, [a] + rest, fs, sine) <==>
            Enabled(s, a) && NoThrow(s, a) && Runs(Apply(s, a, fs, sine), rest, fs, sine)
    ensures Runs(s, [a] + rest, fs, sine) ==>
              Reached(s, [a] + rest, fs, sine) == Reached(Apply(s, a, fs, sine), rest, fs, sine)
  {
    assert ([a] + rest)[1..] == rest;
  }

  /** One cycle of a task with nothing in between. */
  function TaskCycle<E>(t: Task, drain: seq<R.Event<E>>, noise: nat -> real): seq<Action<E>> {
    [Test(t)] + ([Read(t, drain)] + ([Process(t, noise)] + [Write(t)]))
  }

  function Tunings<E>(k: nat, noise: nat -> real): seq<Action<E>> {
    if k == 0 then [] else TaskCycle(EnginesTask, [], noise) + Tunings(k - 1, noise)
  }

  /** A whole cycle of a task, or a main cycle whose read comes before and whose write after
    some whole tuning cycles. */
  datatype Cycle<E> =
    | WholeCycle(task: Task, drain: seq<R.Event<E>>, noise: nat -> real)
    | MainAround(cycles: nat, drain: seq<R.Event<E>>, noise: nat -> real)

  function ActionsOf<E>(c: Cycle<E>): seq<Action<E>> {
    match c
    case WholeCycle(t, drain, noise) => TaskCycle(t, drain, noise)
    case MainAround(k, drain, noise) =>
      var end := [Process(MainTask, noise)] + [Write(MainTask)];
      [Test(MainTask)] + ([Read(MainTask, drain)] + (Tunings(k, noise) + end))
  }

  function AllActions<E>(cs: seq<Cycle<E>>): seq<Action<E>>
    decreases |cs|
  {
    if cs == [] then [] else ActionsOf(cs[0]) + AllActions(cs[1..])
  }

  /** The drain of a cycle is one its task can do in the state. */
  ghost predicate CanDo<E>(s: System<E>, c: Cycle<E>) {
    DrainOf(s, if c.WholeCycle? then c.task else MainTask, c.drain)
  }

  /** A task is at its test and has not been told to stop; tuning will not throw. */
  ghost predicate Ready<E>(s: System<E>, t: Task) {
    LocalOf(s, t).place == AtTest && !s.stop && s.engines.Keys <= s.hash.Keys
  }

  /** The state after a whole cycle, as the values of the component at its start give it. */
  ghost function AfterTask<E>(s: System<E>, t: Task, drain: seq<R.Event<E>>, noise: nat -> real, fs: NetFunctions,
                              sine: real -> real): System<E>
    requires Ready(s, t) && DrainOf(s, t, drain)
  {
    match t
    case EnginesTask =>
      var data := TunedValues(s.hash, s.engines);
      s.(hash := TunedHash(s.hash, s.engines), engines := s.engines + data, enginesLocal := Local(AtTest, data))
    case MainTask =>
      var data := NetValues(fs, s.engines, sine);
      s.(queue := R.After(s.queue, drain), engines := s.engines + data, mainLocal := Local(AtTest, data))
    case LoopTask =>
      var data := NoisyValues(noise, s.loop);
      s.(loop := s.loop + data, loopLocal := Local(AtTest, data))
  }

  lemma TaskCycleRuns<E>(s: System<E>, t: Task, drain: seq<R.Event<E>>, noise: nat -> real, fs: NetFunctions,
                         sine: real -> real)
    requires Ready(s, t)
    ensures Runs(s, TaskCycle(t, drain, noise), fs, sine) <==> DrainOf(s, t, drain)
    ensures DrainOf(s, t, drain) ==>
              Reached(s, TaskCycle(t, drain, noise), fs, sine) == AfterTask(s, t, drain, noise, fs, sine)
  {
    var s1 := Apply(s, Test(t), fs, sine);
    var rest := [Process(t, noise)] + [Write(t)];
    RunsFirst(s, Test(t), [Read(t, drain)] + rest, fs, sine);
    RunsFirst(s1, Read(t, drain), rest, fs, sine);
    if DrainOf(s, t, drain) {
      TaskCycleEnds(Apply(s1, Read(t, drain), fs, sine), t, noise, fs, sine);
    }
  }

  lemma TaskCycleEnds<E>(s: System<E>, t: Task, noise: nat -> real, fs: NetFunctions, sine: real -> real)
    requires LocalOf(s, t).place == HasRead && NoThrow(s, Process(t, noise))
    ensures var s1 := Apply(s, Process(t, noise), fs, sine);
            && Runs(s, [Process(t, noise)] + [Write(t)], fs, sine)
            && Enabled(s1, Write(t))
            && Reached(s, [Process(t, noise)] + [Write(t)], fs, sine) == Apply(s1, Write(t), fs, sine)
  {
    var s1 := Apply(s, Process(t, noise), fs, sine);
    var last: seq<Action<E>> := [Write(t)];
    RunsFirst(s, Process(t, noise), last, fs, sine);
    RunsFirst(s1, Write(t), [], fs, sine);
    assert last + [] == last;
  }

  ghost function TunedMany<E>(s: System<E>, k: nat): System<E>
    requires Ready(s, EnginesTask)
    decreases k
  {
    if k == 0 then s
    else
      var data := TunedValues(s.hash, s.engines);
      TunedMany(s.(hash := TunedHash(s.hash, s.engines), engines := s.engines + data,
                   enginesLocal := Local(AtTest, data)), k - 1)
  }

  lemma {:induction false} TuningsRun<E>(s: System<E>, k: nat, noise: nat -> real, fs: NetFunctions, sine: real -> real)
    requires Ready(s, EnginesTask)
    ensures Runs(s, Tunings(k, noise), fs, sine) && Reached(s, Tunings(k, noise), fs, sine) == TunedMany(s, k)
    decreases k
  {
    if k > 0 {
      TaskCycleRuns(s, EnginesTask, [], noise, fs, sine);
      TuningsRun(AfterTask(s, EnginesTask, [], noise, fs, sine), k - 1, noise, fs, sine);
      RunsConcat(s, TaskCycle(EnginesTask, [], noise), Tunings(k - 1, noise), fs, sine);
    }
  }

  function EngineOf<E>(s: System<E>, e: nat): Engine
    requires e in s.engines && e in s.hash
  {
    Engine(s.hash[e], s.engines[e])
  }

  lemma {:induction false} TunedManyFields<E>(s: System<E>, k: nat, motors: set<nat>)
    requires Ready(s, EnginesTask) && s.engines.Keys == s.hash.Keys == motors
    ensures var r := TunedMany(s, k);
            && r.engines.Keys == r.hash.Keys == motors && r.enginesLocal.place == AtTest
            && r == s.(engines := r.engines, hash := r.hash, enginesLocal := r.enginesLocal)
            && forall e :: e in motors ==> EngineOf(r, e) == TunedTimes(EngineOf(s, e), k)
    decreases k
  {
    if k > 0 {
      var data := TunedValues(s.hash, s.engines);
      var s1 := s.(hash := TunedHash(s.hash, s.engines), engines := s.engines + data,
                   enginesLocal := Local(AtTest, data));
      TunedManyFields(s1, k - 1, motors);
      forall e | e in motors ensures EngineOf(s1, e) == Tuned(EngineOf(s, e)) {
      }
    }
  }

  /** The state after a main cycle around some tuning cycles: it writes the values it has
    read before them. */
  ghost function AfterAround<E>(s: System<E>, k: nat, drain: seq<R.Event<E>>, fs: NetFunctions,
                                sine: real -> real): System<E>
    requires Ready(s, EnginesTask) && DrainOf(s, MainTask, drain)
  {
    var read := s.(queue := R.After(s.queue, drain), mainLocal := Local(HasRead, s.engines));
    var data := NetValues(fs, s.engines, sine);
    var tuned := TunedMany(read, k);
    tuned.(engines := tuned.engines + data, mainLocal := Local(AtTest, data))
  }

  lemma AroundRuns<E>(s: System<E>, k: nat, drain: seq<R.Event<E>>, noise: nat -> real, motors: set<nat>,
                      fs: NetFunctions, sine: real -> real)
    requires Ready(s, EnginesTask) && Ready(s, MainTask) && s.engines.Keys == s.hash.Keys == motors
    ensures var acts := ActionsOf(MainAround(k, drain, noise));
            && (Runs(s, acts, fs, sine) <==> DrainOf(s, MainTask, drain))
            && (DrainOf(s, MainTask, drain) ==> Reached(s, acts, fs, sine) == AfterAround(s, k, drain, fs, sine))
  {
    var s1 := Apply(s, Test(MainTask), fs, sine);
    var end := [Process(MainTask, noise)] + [Write(MainTask)];
    RunsFirst(s, Test(MainTask), [Read(MainTask, drain)] + (Tunings(k, noise) + end), fs, sine);
    RunsFirst(s1, Read(MainTask, drain), Tunings(k, noise) + end, fs, sine);
    if DrainOf(s, MainTask, drain) {
      var read := Apply(s1, Read(MainTask, drain), fs, sine);
      assert read == s.(queue := R.After(s.queue, drain), mainLocal := Local(HasRead, s.engines));
      TuningsRun(read, k, noise, fs, sine);
      TunedManyFields(read, k, motors);
      TaskCycleEnds(TunedMany(read, k), MainTask, noise, fs, sine);
      RunsConcat(read, Tunings(k, noise), end, fs, sine);
    }
  }

  // ---------- What a cycle does to an engine ----------

  /** The update of Tuning that a cycle is for one engine; what leaves the engines alone is
    written as a main cycle that applies nothing. */
  function UpdateOf<E>(c: Cycle<E>, kind: NetKind): Update {
    match c
    case WholeCycle(EnginesTask, _, _) => Tune
    case WholeCycle(MainTask, _, _) => Net(kind, 0)
    case WholeCycle(LoopTask, _, _) => Net(Leave, 0)
    case MainAround(k, _, _) => Net(kind, k)
  }

  /** No task is in the middle of a cycle, and none has been told to stop. */
  ghost predicate Quiet<E>(s: System<E>) {
    !s.stop && forall t :: LocalOf(s, t).place == AtTest
  }

  /** A cycle is possible exactly with a drain its task can do. A whole one updates every
    engine as its task says, and nothing else; a main cycle around k tuning cycles leaves
    the direction those give and what it makes of the value before them. */
  lemma CycleUpdates<E>(s: System<E>, c: Cycle<E>, motors: set<nat>, fs: NetFunctions, sine: real -> real)
    requires KeysKept(s, motors) && Quiet(s)
    ensures Runs(s, ActionsOf(c), fs, sine) <==> CanDo(s, c)
    ensures CanDo(s, c) ==>
              var r := Reached(s, ActionsOf(c), fs, sine);
              && KeysKept(r, motors) && Quiet(r)
              && forall e :: e in motors ==> EngineOf(r, e) == Updated(EngineOf(s, e), UpdateOf(c, KindOf(fs, e)), sine)
  {
    assert LocalOf(s, EnginesTask).place == LocalOf(s, MainTask).place == LocalOf(s, LoopTask).place == AtTest;
    match c
    case WholeCycle(t, drain, noise) =>
      TaskCycleRuns(s, t, drain, noise, fs, sine);
      if CanDo(s, c) {
        RunKeepsKeys(s, ActionsOf(c), motors, fs, sine);
        TaskEffect(s, t, drain, noise, motors, fs, sine);
      }
    case MainAround(k, drain, noise) =>
      AroundRuns(s, k, drain, noise, motors, fs, sine);
      if CanDo(s, c) {
        RunKeepsKeys(s, ActionsOf(c), motors, fs, sine);
        AroundEffect(s, k, drain, motors, fs, sine);
      }
  }

  lemma TaskEffect<E>(s: System<E>, t: Task, drain: seq<R.Event<E>>, noise: nat -> real, motors: set<nat>,
                      fs: NetFunctions, sine: real -> real)
    requires Quiet(s) && Ready(s, t) && DrainOf(s, t, drain) && s.engines.Keys == s.hash.Keys == motors
    ensures var r := AfterTask(s, t, drain, noise, fs, sine);
            && Quiet(r) && r.engines.Keys == r.hash.Keys == motors
            && forall e :: e in motors ==>
                 EngineOf(r, e) == Updated(EngineOf(s, e), UpdateOf(WholeCycle(t, drain, noise), KindOf(fs, e)), sine)
  {
    var r := AfterTask(s, t, drain, noise, fs, sine);
    forall u ensures LocalOf(r, u).place == AtTest {
      assert LocalOf(s, u).place == AtTest;
    }
    forall e | e in motors
      ensures EngineOf(r, e) == Updated(EngineOf(s, e), UpdateOf(WholeCycle(t, drain, noise), KindOf(fs, e)), sine)
    {
    }
  }

  lemma AroundEffect<E>(s: System<E>, k: nat, drain: seq<R.Event<E>>, motors: set<nat>, fs: NetFunctions,
                        sine: real -> real)
    requires Quiet(s) && Ready(s, EnginesTask) && DrainOf(s, MainTask, drain)
    requires s.engines.Keys == s.hash.Keys == motors
    ensures var r := AfterAround(s, k, drain, fs, sine);
            && Quiet(r) && r.engines.Keys == r.hash.Keys == motors
            && forall e :: e in motors ==>
                 EngineOf(r, e) == Overwritten(EngineOf(s, e), k, NetValue(fs, e, s.engines[e], sine))
  {
    var read := s.(queue := R.After(s.queue, drain), mainLocal := Local(HasRead, s.engines));
    var r := AfterAround(s, k, drain, fs, sine);
    TunedManyFields(read, k, motors);
    assert LocalOf(s, LoopTask).place == AtTest;
    forall u ensures LocalOf(r, u).place == AtTest {
    }
    forall e | e in motors
      ensures EngineOf(r, e) == Overwritten(EngineOf(s, e), k, NetValue(fs, e, s.engines[e], sine))
    {
      assert EngineOf(read, e) == EngineOf(s, e);
    }
  }

  function UpdatesOf<E>(cs: seq<Cycle<E>>, kind: NetKind): seq<Update> {
    seq(|cs|, i requires 0 <= i < |cs| => UpdateOf(cs[i], kind))
  }

  lemma UpdatesOfMore<E>(c: Cycle<E>, rest: seq<Cycle<E>>, kind: NetKind)
    ensures UpdatesOf([c] + rest, kind) == [UpdateOf(c, kind)] + UpdatesOf(rest, kind)
  {
  }

  lemma UpdatedFirst(e: Engine, u: Update, rest: seq<Update>, sine: real -> real)
    ensures AllUpdated(e, [u] + rest, sine) == AllUpdated(Updated(e, u, sine), rest, sine)
  {
    assert ([u] + rest)[1..] == rest;
  }

  lemma ActionsOfMore<E>(c: Cycle<E>, rest: seq<Cycle<E>>)
    ensures AllActions([c] + rest) == ActionsOf(c) + AllActions(rest)
  {
    assert ([c] + rest)[1..] == rest;
  }

  /** Any cycles, overlapping or not, do to an engine what Tuning says of the updates they
    are. */
  lemma {:induction false} CyclesUpdate<E>(s: System<E>, cs: seq<Cycle<E>>, motors: set<nat>, fs: NetFunctions,
                                           sine: real -> real, e: nat)
    requires KeysKept(s, motors) && Quiet(s) && Runs(s, AllActions(cs), fs, sine)
    ensures var r := Reached(s, AllActions(cs), fs, sine);
            && KeysKept(r, motors) && Quiet(r)
            && (e in motors ==>
                  EngineOf(r, e) == AllUpdated(EngineOf(s, e), UpdatesOf(cs, KindOf(fs, e)), sine))
    decreases |cs|
  {
    if cs != [] {
      var c, rest, kind := cs[0], cs[1..], KindOf(fs, e);
      assert [c] + rest == cs;
      UpdatesOfMore(c, rest, kind);
      ActionsOfMore(c, rest);
      RunsConcat(s, ActionsOf(c), AllActions(rest), fs, sine);
      CycleUpdates(s, c, motors, fs, sine);
      var r := Reached(s, ActionsOf(c), fs, sine);
      CyclesUpdate(r, rest, motors, fs, sine, e);
      if e in motors {
        UpdatedFirst(EngineOf(s, e), UpdateOf(c, kind), UpdatesOf(rest, kind), sine);
      }
    }
  }

  // ---------- The band and the sweep ----------

  ghost predicate AllInBand<E>(s: System<E>, motors: set<nat>)
    requires motors <= s.engines.Keys && motors <= s.hash.Keys
  {
    forall e :: e in motors ==> Band(EngineOf(s, e))
  }

  predicate AllWhole<E>(cs: seq<Cycle<E>>) {
    forall i :: 0 <= i < |cs| ==> cs[i].WholeCycle? || cs[i].cycles == 0
  }

  lemma HarmlessCycles<E>(cs: seq<Cycle<E>>, kind: NetKind)
    requires AllWhole(cs) || kind != Leave
    ensures AllHarmless(UpdatesOf(cs, kind))
  {
  }

  /** As long as cycles do not overlap, every engine stays in the band, whatever functions
    the configuration gives it and in whatever order the tasks come. */
  lemma CyclesKeepBand<E>(s: System<E>, cs: seq<Cycle<E>>, motors: set<nat>, fs: NetFunctions, sine: real -> real)
    requires KeysKept(s, motors) && Quiet(s) && Runs(s, AllActions(cs), fs, sine) && AllWhole(cs)
    requires SineBounds(sine) && AllInBand(s, motors)
    ensures var r := Reached(s, AllActions(cs), fs, sine);
            KeysKept(r, motors) && Quiet(r) && AllInBand(r, motors)
  {
    CyclesUpdate(s, cs, motors, fs, sine, 0);
    var r := Reached(s, AllActions(cs), fs, sine);
    forall e | e in motors ensures Band(EngineOf(r, e)) {
      CyclesUpdate(s, cs, motors, fs, sine, e);
      HarmlessCycles(cs, KindOf(fs, e));
      BandIsKept(EngineOf(s, e), UpdatesOf(cs, KindOf(fs, e)), sine);
    }
  }

  /** An engine with a net function stays in the band even where main cycles go around tuning
    cycles, any other where no cycles overlap; and then the sweep is lost exactly by a last
    net function that was a rotation at or below 0.1, and not had without one exactly if it
    was not had before. */
  lemma CyclesSweep<E>(s: System<E>, cs: seq<Cycle<E>>, motors: set<nat>, fs: NetFunctions, sine: real -> real, e: nat)
    requires KeysKept(s, motors) && Quiet(s) && Runs(s, AllActions(cs), fs, sine)
    requires SineBounds(sine) && e in motors && Band(EngineOf(s, e))
    requires AllWhole(cs) || KindOf(fs, e) != Leave
    ensures var r := Reached(s, AllActions(cs), fs, sine);
            && KeysKept(r, motors) && Quiet(r) && Band(EngineOf(r, e))
            && (Sweeps(EngineOf(r, e)) <==> SweepSurvives(EngineOf(s, e), UpdatesOf(cs, KindOf(fs, e)), sine))
  {
    CyclesUpdate(s, cs, motors, fs, sine, e);
    HarmlessCycles(cs, KindOf(fs, e));
    BandIsKept(EngineOf(s, e), UpdatesOf(cs, KindOf(fs, e)), sine);
    UpdatesSweep(EngineOf(s, e), UpdatesOf(cs, KindOf(fs, e)), sine);
  }

  /** What that means for an engine that is not rotated: from the start on it never stops
    sweeping. */
  lemma UnrotatedSweeps<E>(l: Loaded, queue: R.Queue<E>, cs: seq<Cycle<E>>, fs: NetFunctions, sine: real -> real,
                           e: nat)
    requires AllFit(queue, l) && Runs(Initial(l, queue), AllActions(cs), fs, sine) && SineBounds(sine)
    requires e in AllMotors(l) && KindOf(fs, e) != Rotate && (AllWhole(cs) || KindOf(fs, e) == Bend)
    ensures var r := Reached(Initial(l, queue), AllActions(cs), fs, sine);
            e in r.engines && e in r.hash && Sweeps(EngineOf(r, e))
  {
    InitialKeeps(l, queue);
    CyclesSweep(Initial(l, queue), cs, AllMotors(l), fs, sine, e);
    SweepsIfFree(FRESH);
  }

  // ---------- Which cycles there are ----------

  /** Every element can be read and none is endless, as in a configured queue whose entries
    have values and deltas enough. */
  ghost predicate Finite<E>(q: R.Queue<E>) {
    R.AllReadable(q) && forall e :: e in q ==> !Endless(q[e])
  }

  lemma {:induction false} DrainStaysFinite<E>(q: R.Queue<E>, evs: seq<R.Event<E>>)
    requires R.Possible(q, evs) && R.NoPush(evs) && Finite(q)
    ensures Finite(R.After(q, evs))
    decreases |evs|
  {
    if evs != [] {
      assert evs[0] in evs;
      DrainStaysFinite(R.Apply(q, evs[0]), evs[1..]);
    }
  }

  function WithKind(u: Update, kind: NetKind): Update {
    if u.Net? then u.(kind := kind) else u
  }

  function AllWithKind(us: seq<Update>, kind: NetKind): seq<Update> {
    seq(|us|, i requires 0 <= i < |us| => WithKind(us[i], kind))
  }

  /** The cycle is a tuning cycle or a main cycle around as many as the update says. */
  ghost predicate Does<E>(c: Cycle<E>, u: Update) {
    forall kind :: UpdateOf(c, kind) == WithKind(u, kind)
  }

  /** A cycle for the update can always be done next, whatever the clock shows when the main
    task reads. */
  lemma OneUpdate<E>(s: System<E>, u: Update, now: int, noise: nat -> real, motors: set<nat>, fs: NetFunctions,
                     sine: real -> real)
    returns (c: Cycle<E>)
    requires KeysKept(s, motors) && Quiet(s) && Finite(s.queue)
    ensures CanDo(s, c) && Does(c, u) && (c.MainAround? ==> R.DrainAt(c.drain, now))
    ensures Runs(s, ActionsOf(c), fs, sine)
    ensures var r := Reached(s, ActionsOf(c), fs, sine); KeysKept(r, motors) && Quiet(r) && Finite(r.queue)
  {
    assert LocalOf(s, EnginesTask).place == LocalOf(s, MainTask).place == AtTest;
    match u
    case Tune =>
      c := WholeCycle(EnginesTask, [], noise);
      CycleUpdates(s, c, motors, fs, sine);
      TaskCycleRuns(s, EnginesTask, [], noise, fs, sine);
    case Net(_, k) =>
      var drain := R.DrainExists(s.queue, now);
      c := MainAround(k, drain, noise);
      CycleUpdates(s, c, motors, fs, sine);
      AroundRuns(s, k, drain, noise, motors, fs, sine);
      DrainStaysFinite(s.queue, drain);
      TunedManyFields(s.(queue := R.After(s.queue, drain), mainLocal := Local(HasRead, s.engines)), k, motors);
  }

  /** The clock stands at the i-th reading during the drain of the i-th cycle, if that is a
    main cycle. */
  ghost predicate DrainsBy<E>(cs: seq<Cycle<E>>, clock: nat -> int) {
    forall i :: 0 <= i < |cs| && cs[i].MainAround? ==> R.DrainAt(cs[i].drain, clock(i))
  }

  lemma DrainsByMore<E>(c: Cycle<E>, rest: seq<Cycle<E>>, clock: nat -> int)
    requires c.MainAround? ==> R.DrainAt(c.drain, clock(0))
    requires DrainsBy(rest, (n: nat) => clock(n + 1))
    ensures DrainsBy([c] + rest, clock)
  {
    forall i | 0 < i <= |rest| && rest[i - 1].MainAround? ensures R.DrainAt(rest[i - 1].drain, clock(i)) {
      assert clock(i) == clock(i - 1 + 1);
    }
  }

  ghost predicate AllDo<E>(cs: seq<Cycle<E>>, us: seq<Update>) {
    |cs| == |us| && forall i :: 0 <= i < |cs| ==> Does(cs[i], us[i])
  }

  /** Every list of whole tuning cycles and main cycles around any number of them is a run,
    whatever the clock does. */
  lemma {:induction false} AnyUpdates<E>(s: System<E>, us: seq<Update>, clock: nat -> int, noise: nat -> real,
                                         motors: set<nat>, fs: NetFunctions, sine: real -> real)
    returns (cs: seq<Cycle<E>>)
    requires KeysKept(s, motors) && Quiet(s) && Finite(s.queue)
    ensures Runs(s, AllActions(cs), fs, sine) && AllDo(cs, us) && DrainsBy(cs, clock)
    decreases |us|
  {
    cs := [];
    if us != [] {
      var c := OneUpdate(s, us[0], clock(0), noise, motors, fs, sine);
      var r := Reached(s, ActionsOf(c), fs, sine);
      var rest := AnyUpdates(r, us[1..], (n: nat) => clock(n + 1), noise, motors, fs, sine);
      RunsConcat(s, ActionsOf(c), AllActions(rest), fs, sine);
      cs := [c] + rest;
      ActionsOfMore(c, rest);
      DrainsByMore(c, rest, clock);
    }
  }

  /** What the program starts from, with entries that can be read. */
  ghost predicate Start<E>(l: Loaded, queue: R.Queue<E>) {
    AllFit(queue, l) && R.AllReadable(queue)
  }

  /** The list of updates as a run of the program, on every engine at once. */
  ghost predicate RunFor<E>(l: Loaded, queue: R.Queue<E>, cs: seq<Cycle<E>>, us: seq<Update>, clock: nat -> int,
                            fs: NetFunctions, sine: real -> real)
  {
    Runs(Initial(l, queue), AllActions(cs), fs, sine) && AllDo(cs, us) && DrainsBy(cs, clock)
  }

  lemma RunForUpdates<E>(l: Loaded, queue: R.Queue<E>, us: seq<Update>, clock: nat -> int, noise: nat -> real,
                         fs: NetFunctions, sine: real -> real)
    returns (cs: seq<Cycle<E>>)
    requires Start(l, queue)
    ensures RunFor(l, queue, cs, us, clock, fs, sine)
    ensures var r := Reached(Initial(l, queue), AllActions(cs), fs, sine);
            && r.engines.Keys == r.hash.Keys == AllMotors(l)
            && forall e :: e in AllMotors(l) ==>
                 EngineOf(r, e) == AllUpdated(FRESH, AllWithKind(us, KindOf(fs, e)), sine)
  {
    var s, motors := Initial(l, queue), AllMotors(l);
    InitialKeeps(l, queue);
    assert forall e :: e in queue ==> FitsConfig(queue[e], l);
    cs := AnyUpdates(s, us, clock, noise, motors, fs, sine);
    RunKeepsKeys(s, AllActions(cs), motors, fs, sine);
    var r := Reached(s, AllActions(cs), fs, sine);
    forall e | e in motors ensures EngineOf(r, e) == AllUpdated(FRESH, AllWithKind(us, KindOf(fs, e)), sine) {
      CyclesUpdate(s, cs, motors, fs, sine, e);
      SameUpdates(cs, us, KindOf(fs, e));
      assert EngineOf(s, e) == FRESH;
    }
  }

  lemma SameUpdates<E>(cs: seq<Cycle<E>>, us: seq<Update>, kind: NetKind)
    requires AllDo(cs, us)
    ensures UpdatesOf(cs, kind) == AllWithKind(us, kind)
  {
    forall i | 0 <= i < |cs| ensures UpdatesOf(cs, kind)[i] == AllWithKind(us, kind)[i] {
      assert Does(cs[i], us[i]);
    }
  }

  lemma LeaveIsSame(us: seq<Update>)
    requires AllLeave(us)
    ensures AllWithKind(us, Leave) == us
  {
  }

  /** Overlapping cycles break the band at both ends, and no bound is left. From the state
    the program starts in, and whatever the clock does, some cycles take every engine
    without a net function above the bound, and some take every one below its negative. */
  lemma OverlapsEscape<E>(l: Loaded, queue: R.Queue<E>, clock: nat -> int, noise: nat -> real, fs: NetFunctions,
                          sine: real -> real, bound: real)
    returns (up: seq<Cycle<E>>, down: seq<Cycle<E>>)
    requires Start(l, queue)
    ensures Runs(Initial(l, queue), AllActions(up), fs, sine) && DrainsBy(up, clock)
    ensures Runs(Initial(l, queue), AllActions(down), fs, sine) && DrainsBy(down, clock)
    ensures forall e :: e in AllMotors(l) && KindOf(fs, e) == Leave ==>
              var r := Reached(Initial(l, queue), AllActions(up), fs, sine);
              e in r.engines && r.engines[e] > bound
    ensures forall e :: e in AllMotors(l) && KindOf(fs, e) == Leave ==>
              var r := Reached(Initial(l, queue), AllActions(down), fs, sine);
              e in r.engines && r.engines[e] < -bound
  {
    var highs, lows := Escapes(bound, sine);
    LeaveIsSame(highs);
    LeaveIsSame(lows);
    up := RunForUpdates(l, queue, highs, clock, noise, fs, sine);
    down := RunForUpdates(l, queue, lows, clock, noise, fs, sine);
  }

  lemma InterruptedKind(n: nat, kind: NetKind, k: nat, m: nat)
    ensures AllWithKind(Interrupted(n, Net(Leave, k), m), kind) == Interrupted(n, Net(kind, k), m)
  {
  }

  /** One lost turn is enough to end the sweep, at either end. From the state the program
    starts in, some tuning cycles and one overlap leave every engine without a net function
    at or above 0.99 for as many further cycles as one likes, and some leave it at or below
    0.01. */
  lemma OneOverlapEndsTheSweep<E>(l: Loaded, queue: R.Queue<E>, clock: nat -> int, noise: nat -> real,
                                  fs: NetFunctions, sine: real -> real, m: nat)
    returns (top: nat, high: seq<Cycle<E>>, bottom: nat, low: seq<Cycle<E>>)
    requires Start(l, queue)
    ensures RunFor(l, queue, high, Interrupted(top, Net(Leave, 1), m), clock, fs, sine)
    ensures RunFor(l, queue, low, Interrupted(bottom, Net(Leave, 1), m), clock, fs, sine)
    ensures forall e :: e in AllMotors(l) && KindOf(fs, e) == Leave ==>
              var r := Reached(Initial(l, queue), AllActions(high), fs, sine);
              e in r.engines && r.engines[e] >= 0.99
    ensures forall e :: e in AllMotors(l) && KindOf(fs, e) == Leave ==>
              var r := Reached(Initial(l, queue), AllActions(low), fs, sine);
              e in r.engines && r.engines[e] <= 0.01
  {
    top, bottom := SweepsForEver(FRESH, 0);
    LostTurnSticks(FRESH, top, m, sine);
    LostTurnSticks(FRESH, bottom, m, sine);
    InterruptedKind(top, Leave, 1, m);
    InterruptedKind(bottom, Leave, 1, m);
    high := RunForUpdates(l, queue, Interrupted(top, Net(Leave, 1), m), clock, noise, fs, sine);
    low := RunForUpdates(l, queue, Interrupted(bottom, Net(Leave, 1), m), clock, noise, fs, sine);
  }

  /** One rotation is enough too, without any overlap. From the state the program starts in,
    some tuning cycles and one whole main cycle leave every rotated engine at or above 0.99
    for as many further tuning cycles as one likes. */
  lemma OneRotationEndsTheSweep<E>(l: Loaded, queue: R.Queue<E>, clock: nat -> int, noise: nat -> real,
                                   fs: NetFunctions, sine: real -> real, m: nat)
    returns (n: nat, cs: seq<Cycle<E>>)
    requires Start(l, queue)
    ensures RunFor(l, queue, cs, Interrupted(n, Net(Leave, 0), m), clock, fs, sine) && AllWhole(cs)
    ensures forall e :: e in AllMotors(l) && KindOf(fs, e) == Rotate ==>
              var r := Reached(Initial(l, queue), AllActions(cs), fs, sine);
              e in r.engines && r.engines[e] >= 0.99
  {
    var top;
    top, n := SweepsForEver(FRESH, 0);
    RotationSticks(FRESH, n, m, sine);
    InterruptedKind(n, Rotate, 0, m);
    var us := Interrupted(n, Net(Leave, 0), m);
    cs := RunForUpdates(l, queue, us, clock, noise, fs, sine);
    forall i | 0 <= i < |cs| ensures cs[i].WholeCycle? || cs[i].cycles == 0 {
      assert Does(cs[i], us[i]) && UpdateOf(cs[i], Leave) == WithKind(us[i], Leave);
    }
  }

  lemma InitialKeeps<E>(l: Loaded, queue: R.Queue<E>)
    requires AllFit(queue, l)
    ensures KeysKept(Initial(l, queue), AllMotors(l)) && Quiet(Initial(l, queue))
    ensures forall e :: e in AllMotors(l) ==> EngineOf(Initial(l, queue), e) == FRESH
  {
    var s := Initial(l, queue);
    assert s.engines.Keys == AllMotors(l) && s.hash.Keys == AllMotors(l);
    forall e | e in queue ensures forall t :: t in queue[e].targets ==> IsMotor(t, AllMotors(l)) {
      assert FitsConfig(queue[e], l);
    }
    forall u ensures SnapshotKept(s, u, AllMotors(l)) && LocalOf(s, u).place == AtTest {
    }
  }

  // ---------- The other component ----------

  /** What the loop component is about to hold: only its own task writes it. */
  ghost predicate LoopReady<E>(s: System<E>) {
    && s.loop.Keys == {1}
    && (s.loopLocal.place == HasRead ==> s.loopLocal.data == s.loop)
    && (s.loopLocal.place == HasProcessed ==> s.loopLocal.data.Keys == {1})
  }

  function LoopValue<E>(s: System<E>): real
    requires LoopReady(s)
  {
    if s.loopLocal.place == HasProcessed then s.loopLocal.data[1] else s.loop[1]
  }

  function Noise<E>(a: Action<E>): real {
    if a.Process? && a.task == LoopTask then a.noise(1) else 0.0
  }

  function TotalNoise<E>(acts: seq<Action<E>>): real
    decreases |acts|
  {
    if acts == [] then 0.0 else Noise(acts[0]) + TotalNoise(acts[1..])
  }

  lemma OthersLeaveLoop<E>(s: System<E>, a: Action<E>, fs: NetFunctions, sine: real -> real)
    requires Enabled(s, a) && NoThrow(s, a) && (a.Stop? || a.task != LoopTask)
    ensures Apply(s, a, fs, sine).loop == s.loop && Apply(s, a, fs, sine).loopLocal == s.loopLocal
  {
  }

  lemma NoisyProcess<E>(s: System<E>, noise: nat -> real, fs: NetFunctions, sine: real -> real)
    requires LoopReady(s) && Enabled(s, Process(LoopTask, noise))
    ensures var r := Apply(s, Process(LoopTask, noise), fs, sine);
            LoopReady(r) && LoopValue(r) == LoopValue(s) + noise(1)
  {
  }

  lemma NoiseIsAdded<E>(s: System<E>, a: Action<E>, fs: NetFunctions, sine: real -> real)
    requires LoopReady(s) && Enabled(s, a) && NoThrow(s, a)
    ensures LoopReady(Apply(s, a, fs, sine))
    ensures LoopValue(Apply(s, a, fs, sine)) == LoopValue(s) + Noise(a)
  {
    if a.Stop? || a.task != LoopTask {
      OthersLeaveLoop(s, a, fs, sine);
    } else if a.Process? {
      NoisyProcess(s, a.noise, fs, sine);
    }
  }

  /** No noise is lost, whatever the interleaving: the value of the loop component is 1 and
    all the noise so far, unless the last of it is processed and not yet written. */
  lemma {:induction false} NoiseAddsUp<E>(s: System<E>, acts: seq<Action<E>>, fs: NetFunctions, sine: real -> real)
    requires LoopReady(s) && Runs(s, acts, fs, sine)
    ensures LoopReady(Reached(s, acts, fs, sine))
    ensures LoopValue(Reached(s, acts, fs, sine)) == LoopValue(s) + TotalNoise(acts)
    decreases |acts|
  {
    if acts != [] {
      NoiseIsAdded(s, acts[0], fs, sine);
      NoiseAddsUp(Apply(s, acts[0], fs, sine), acts[1..], fs, sine);
    }
  }

  lemma LoopHolds<E>(l: Loaded, queue: R.Queue<E>, acts: seq<Action<E>>, fs: NetFunctions, sine: real -> real)
    requires Runs(Initial(l, queue), acts, fs, sine)
    ensures var r := Reached(Initial(l, queue), acts, fs, sine);
            r.loopLocal.place != HasProcessed ==> r.loop == map[1 := 1.0 + TotalNoise(acts)]
  {
    NoiseAddsUp(Initial(l, queue), acts, fs, sine);
  }

  // ---------- Stopping ----------

  function StepsLeft(p: Place): nat {
    match p
    case AtTest => 1
    case Asleep => 4
    case HasRead => 3
    case HasProcessed => 2
    case Ended => 0
  }

  function AllStepsLeft<E>(s: System<E>): nat {
    StepsLeft(s.enginesLocal.place) + StepsLeft(s.mainLocal.place) + StepsLeft(s.loopLocal.place)
  }

  /** After the stop flag is set every task step brings the end nearer: a task finishes the
    cycle it is in, at most, and there are no more than twelve task steps in all. */
  lemma {:induction false} StopsSoon<E>(s: System<E>, acts: seq<Action<E>>, fs: NetFunctions, sine: real -> real)
    requires s.stop && Runs(s, acts, fs, sine) && forall a :: a in acts ==> !a.Stop?
    ensures |acts| + AllStepsLeft(Reached(s, acts, fs, sine)) == AllStepsLeft(s) <= 12
    decreases |acts|
  {
    if acts != [] {
      assert acts[0] in acts;
      OneStepNearer(s, acts[0], fs, sine);
      StopsSoon(Apply(s, acts[0], fs, sine), acts[1..], fs, sine);
    }
  }

  lemma PlaceChange<E>(s: System<E>, t: Task, l: Local)
    ensures AllStepsLeft(WithLocal(s, t, l)) ==
            AllStepsLeft(s) - StepsLeft(LocalOf(s, t).place) + StepsLeft(l.place)
  {
  }

  lemma OneStepNearer<E>(s: System<E>, a: Action<E>, fs: NetFunctions, sine: real -> real)
    requires s.stop && Enabled(s, a) && NoThrow(s, a) && !a.Stop?
    ensures Apply(s, a, fs, sine).stop
    ensures AllStepsLeft(Apply(s, a, fs, sine)) + 1 == AllStepsLeft(s)
  {
    match a
    case Test(t) => PlaceChange(s, t, LocalOf(s, t).(place := Ended));
    case Read(t, drain) => ReadNearer(s, t, drain, fs, sine);
    case Process(t, noise) => ProcessNearer(s, t, noise, fs, sine);
    case Write(t) => WriteNearer(s, t, fs, sine);
  }

  lemma ReadNearer<E>(s: System<E>, t: Task, drain: seq<R.Event<E>>, fs: NetFunctions, sine: real -> real)
    requires s.stop && Enabled(s, Read(t, drain))
    ensures Apply(s, Read(t, drain), fs, sine).stop
    ensures AllStepsLeft(Apply(s, Read(t, drain), fs, sine)) + 1 == AllStepsLeft(s)
  {
    var drained := if t == MainTask then s.(queue := R.After(s.queue, drain)) else s;
    PlaceChange(drained, t, Local(HasRead, Snapshot(s, t)));
  }

  lemma ProcessNearer<E>(s: System<E>, t: Task, noise: nat -> real, fs: NetFunctions, sine: real -> real)
    requires s.stop && Enabled(s, Process(t, noise)) && NoThrow(s, Process(t, noise))
    ensures Apply(s, Process(t, noise), fs, sine).stop
    ensures AllStepsLeft(Apply(s, Process(t, noise), fs, sine)) + 1 == AllStepsLeft(s)
  {
    var tuned := if t == EnginesTask then s.(hash := TunedHash(s.hash, s.enginesLocal.data)) else s;
    PlaceChange(tuned, t, Local(HasProcessed, Processed(s, t, noise, fs, sine)));
  }

  lemma WriteNearer<E>(s: System<E>, t: Task, fs: NetFunctions, sine: real -> real)
    requires s.stop && Enabled(s, Write(t))
    ensures Apply(s, Write(t), fs, sine).stop
    ensures AllStepsLeft(Apply(s, Write(t), fs, sine)) + 1 == AllStepsLeft(s)
  {
    var data := LocalOf(s, t).data;
    var written := if t == LoopTask then s.(loop := s.loop + data) else s.(engines := s.engines + data);
    PlaceChange(written, t, LocalOf(s, t).(place := AtTest));
  }
}
