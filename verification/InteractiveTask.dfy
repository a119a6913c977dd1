/** One periodic task: its read, process and write methods (app/InteractiveTask.h) over the
  shared database. */
module InteractiveTasks {
  import opened PriorityQueueElements
  import opened RescheduleRuns
  import opened PriorityQ
  import opened Database
  import opened Tuning
  import opened Workflows

  // ---------- The drain loop of read ----------

  /** try_pop and the get_value call on its result. */
  method FireNext(queue: PQueue, now: int) returns (elem: Element?, value: real, ghost ev: Event<Element>)
    requires queue.Valid() && AllReadable(queue.Abs())
    modifies queue, queue.Elements()
    ensures queue.Valid()
    ensures elem == null ==> ev == Idle(now)
    ensures elem != null ==> ev.Fire? && ev.e == elem && ev.now == now && ev.value == value
    ensures Enabled(old(queue.Abs()), ev) && queue.Abs() == Apply(old(queue.Abs()), ev)
  {
    ghost var q := queue.Abs();
    value := 0.0;
    ev := Idle(now);
    elem := queue.TryPop(now);
    if elem != null {
      assert elem.State() == AfterPop(q[elem]);
      value := TakeValue(queue.heap, elem);
      ev := Fire(elem, now, q[elem].next, value);
      AfterFire(q, ev);
    }
  }

  lemma AfterFire<E>(q: Queue<E>, ev: Event<E>)
    requires Enabled(q, ev) && ev.Fire?
    ensures Apply(q, ev) == if ev.e in Popped(q, ev.e) then Popped(q, ev.e)[ev.e := Fired(q[ev.e])]
                            else Popped(q, ev.e)
  {
  }

  /** Why the drain comes to an end: no queued element is endless, or none that is endless
    stands still and the clock stays below a bound while the drain lasts. */
  ghost predicate Drainable(q: Queue<Element>, clock: nat -> int, bound: int) {
    || (forall e :: e in q ==> !Endless(q[e]))
    || (NoSpin(q, bound) && forall n: nat :: TruncateToMillis(clock(n)) <= TruncateToMillis(bound))
  }

  /** Firings only, the n-th at the n-th clock reading. */
  ghost predicate FiresBy<E>(run: seq<Event<E>>, clock: nat -> int) {
    forall i :: 0 <= i < |run| ==> run[i].Fire? && run[i].now == clock(i)
  }

  /** A drain that reads the clock once per try_pop: firings, then nothing due. */
  ghost predicate DrainRun<E>(run: seq<Event<E>>, clock: nat -> int) {
    |run| > 0 && run[|run| - 1] == Idle(clock(|run| - 1)) && FiresBy(run[..|run| - 1], clock)
  }

  /** What the loop knows about the queue it began with and the queue it has. */
  ghost predicate Draining(q0: Queue<Element>, q: Queue<Element>, run: seq<Event<Element>>,
                           clock: nat -> int, bound: int)
  {
    && FiresBy(run, clock) && Possible(q0, run) && q == After(q0, run)
    && AllReadable(q) && q.Keys <= q0.Keys && Drainable(q, clock, bound)
  }

  lemma DrainStep(q0: Queue<Element>, q: Queue<Element>, run: seq<Event<Element>>, ev: Event<Element>,
                  clock: nat -> int, bound: int)
    requires Draining(q0, q, run, clock, bound) && Enabled(q, ev)
    requires ev == Idle(clock(|run|)) || (ev.Fire? && ev.now == clock(|run|))
    ensures Possible(q0, run + [ev]) && After(q0, run + [ev]) == Apply(q, ev)
    ensures ev.Idle? ==> DrainRun(run + [ev], clock)
    ensures ev.Fire? ==> Draining(q0, Apply(q, ev), run + [ev], clock, bound)
    ensures ev.Fire? ==> TotalWork(Apply(q, ev), bound) < TotalWork(q, bound)
  {
    Append(q0, run, ev);
    if ev.Idle? {
      assert (run + [ev])[..|run|] == run;
    } else {
      StaysDrainable(q, ev, clock, |run|, bound);
    }
  }

  /** The targets of the elements that fired. */
  ghost function FiredTargets(run: seq<Event<Element>>): set<int> {
    if run == [] then {}
    else
      var last := run[|run| - 1];
      FiredTargets(run[..|run| - 1]) + if last.Fire? then set m | m in last.e.targetMotors else {}
  }

  /** One round of the loop: the n-th try_pop reads clock(n). */
  method DrainOne(queue: PQueue, clock: nat -> int, n: nat, motors: set<int>, ghost q0: Queue<Element>,
                  ghost run: seq<Event<Element>>, ghost bound: int, ghost work: nat)
    returns (elem: Element?, more: set<int>, ghost longer: seq<Event<Element>>, ghost left: nat)
    requires queue.Valid() && Draining(q0, queue.Abs(), run, clock, bound) && n == |run|
    requires work == TotalWork(queue.Abs(), bound) && motors == FiredTargets(run)
    modifies queue, queue.Elements()
    ensures queue.Valid() && |longer| == n + 1 && more == FiredTargets(longer)
    ensures Possible(q0, longer) && queue.Abs() == After(q0, longer)
    ensures elem == null ==> DrainRun(longer, clock) && Enabled(queue.Abs(), Idle(clock(n)))
    ensures elem != null ==>
              && Draining(q0, queue.Abs(), longer, clock, bound)
              && left == TotalWork(queue.Abs(), bound) && left < work
  {
    ghost var before := queue.Abs();
    var value;
    ghost var ev;
    elem, value, ev := FireNext(queue, clock(n));
    DrainStep(q0, before, run, ev, clock, bound);
    longer := run + [ev];
    left := TotalWork(queue.Abs(), bound);
    assert longer[..n] == run;
    more := motors;
    if elem != null {
      more := InsertMotors(motors, elem.targetMotors);
    }
  }

  /** The loop of read over the inner queue. It is a drain of RescheduleRuns, and the motors
    it collects are the targets of what fired. */
  method Drain(queue: PQueue, clock: nat -> int, ghost bound: int)
    returns (motors: set<int>, ghost run: seq<Event<Element>>)
    requires queue.Valid() && AllReadable(queue.Abs())
    requires Drainable(queue.Abs(), clock, bound)
    modifies queue, queue.Elements()
    ensures queue.Valid()
    ensures DrainRun(run, clock) && Possible(old(queue.Abs()), run)
    ensures queue.Abs() == After(old(queue.Abs()), run)
    ensures forall e :: e in queue.Abs() ==> !Passed(clock(|run| - 1), queue.Abs()[e].next)
    ensures motors == FiredTargets(run)
  {
    motors, run := {}, [];
    ghost var q := queue.Abs();
    ghost var work := TotalWork(q, bound);
    var n := 0;
    while true
      invariant n == |run| && queue.Valid()
      invariant Draining(q, queue.Abs(), run, clock, bound)
      invariant motors == FiredTargets(run)
      invariant work == TotalWork(queue.Abs(), bound)
      decreases work
    {
      assert queue.Elements() == queue.Abs().Keys;
      var elem;
      elem, motors, run, work := DrainOne(queue, clock, n, motors, q, run, bound, work);
      n := n + 1;
      if elem == null {
        NothingPassed(queue.Abs(), clock(n - 1));
        return;
      }
    }
  }

  /** With a standing clock the loop's run is a drain of which DrainIsSortedMerge speaks. */
  lemma StandingClock(run: seq<Event<Element>>, clock: nat -> int, now: int)
    requires DrainRun(run, clock) && forall n :: clock(n) == now
    ensures DrainAt(run, now)
  {
  }

  method InsertMotors(motors: set<int>, targets: seq<int>) returns (r: set<int>)
    ensures r == motors + set m | m in targets
  {
    r := motors;
    for i := 0 to |targets|
      invariant r == motors + set m | m in targets[..i]
    {
      r := r + {targets[i]};
    }
    assert targets[..|targets|] == targets;
  }

  lemma StaysDrainable(q: Queue<Element>, ev: Event<Element>, clock: nat -> int, n: nat, bound: int)
    requires Enabled(q, ev) && ev.Fire? && ev.now == clock(n) && Drainable(q, clock, bound)
    ensures Drainable(Apply(q, ev), clock, bound)
    ensures TotalWork(Apply(q, ev), bound) < TotalWork(q, bound)
  {
    FireUsesWork(q, ev, bound);
    assert Endless(Fired(q[ev.e])) ==> Endless(q[ev.e]);
  }

  // ---------- What process does to the values ----------

  /** process_callback of the three tasks. */
  datatype Callback = AutoTune | NetFunction | Noise

  /** One pass of the tuning callback over a snapshot. */
  function TunedValues(hash: map<nat, bool>, data: Values): Values
    requires data.Keys <= hash.Keys
  {
    map k | k in data :: Tuned(Engine(hash[k], data[k])).value
  }

  function TunedHash(hash: map<nat, bool>, data: Values): map<nat, bool>
    requires data.Keys <= hash.Keys
  {
    map k | k in hash :: if k in data then Tuned(Engine(hash[k], data[k])).inc else hash[k]
  }

  function NetValues(fs: NetFunctions, data: Values, sine: real -> real): Values {
    map k | k in data :: NetValue(fs, k, data[k], sine)
  }

  /** execute_random_noise adds an arbitrary number. */
  function NoisyValues(noise: nat -> real, data: Values): Values {
    map k | k in data :: noise(k) + data[k]
  }

  // ---------- The task ----------

  class InteractiveTask {
    const component: string
    const innerQueue: PQueue?
    const callback: Callback
    const db: DB
    const tuner: AutoTuner
    const functions: NetFunctions
    var data: Values

    constructor (component: string, innerQueue: PQueue?, callback: Callback, db: DB,
                 tuner: AutoTuner, functions: NetFunctions)
      ensures this.component == component && this.innerQueue == innerQueue
      ensures this.callback == callback && this.db == db && this.tuner == tuner
      ensures this.functions == functions && data == map[]
    {
      this.component := component;
      this.innerQueue := innerQueue;
      this.callback := callback;
      this.db := db;
      this.tuner := tuner;
      this.functions := functions;
      data := map[];
    }

    /** Drains the inner queue, if there is one, and takes a snapshot of the component. */
    method Read(clock: nat -> int, ghost bound: int) returns (ghost run: seq<Event<Element>>)
      requires innerQueue != null ==>
                 && innerQueue.Valid() && AllReadable(innerQueue.Abs())
                 && Drainable(innerQueue.Abs(), clock, bound)
      modifies this, innerQueue, if innerQueue != null then innerQueue.Elements() else {}
      ensures data == Component(db.mainDb, component)
      ensures innerQueue != null ==>
                && innerQueue.Valid() && DrainRun(run, clock)
                && Possible(old(innerQueue.Abs()), run) && innerQueue.Abs() == After(old(innerQueue.Abs()), run)
    {
      run := [];
      if innerQueue != null {
        var motors;
        motors, run := Drain(innerQueue, clock, bound);
      }
      data := db.GetComponentDb(component);
    }

    /** Overwrites every value of the snapshot by its callback. `ok` is false when the
      tuning map misses an engine, which throws. */
    method Process(noise: nat -> real, sine: real -> real) returns (ok: bool)
      modifies this, tuner
      ensures ok <==> callback != AutoTune || old(data).Keys <= old(tuner.incDec).Keys
      ensures ok && callback == AutoTune ==>
                && data == TunedValues(old(tuner.incDec), old(data))
                && tuner.incDec == TunedHash(old(tuner.incDec), old(data))
      ensures callback == NetFunction ==> data == NetValues(functions, old(data), sine)
      ensures callback == Noise ==> data == NoisyValues(noise, old(data))
      ensures callback != AutoTune ==> tuner.incDec == old(tuner.incDec)
    {
      match callback {
        case AutoTune =>
          ok := ProcessTuning();
        case NetFunction =>
          ok := true;
          ProcessNet(sine);
        case Noise =>
          ok := true;
          ProcessNoise(noise);
      }
    }

    method ProcessNet(sine: real -> real)
      modifies this
      ensures data == NetValues(functions, old(data), sine)
    {
      ghost var was := data;
      var keys := data.Keys;
      while keys != {}
        invariant keys <= was.Keys && data.Keys == was.Keys
        invariant forall k :: k in was ==>
                    data[k] == if k in keys then was[k] else NetValue(functions, k, was[k], sine)
      {
        var k :| k in keys;
        var v := ExecuteNetFunction(functions, k, data[k], sine);
        data := data[k := v];
        keys := keys - {k};
      }
    }

    method ProcessNoise(noise: nat -> real)
      modifies this
      ensures data == NoisyValues(noise, old(data))
    {
      ghost var was := data;
      var keys := data.Keys;
      while keys != {}
        invariant keys <= was.Keys && data.Keys == was.Keys
        invariant forall k :: k in was ==> data[k] == if k in keys then was[k] else noise(k) + was[k]
      {
        var k :| k in keys;
        data := data[k := noise(k) + data[k]];
        keys := keys - {k};
      }
    }

    method ProcessTuning() returns (ok: bool)
      modifies this, tuner
      ensures ok <==> old(data).Keys <= old(tuner.incDec).Keys
      ensures ok ==> data == TunedValues(old(tuner.incDec), old(data))
      ensures ok ==> tuner.incDec == TunedHash(old(tuner.incDec), old(data))
    {
      ghost var hash, was := tuner.incDec, data;
      var keys := data.Keys;
      while keys != {}
        invariant keys <= was.Keys && data.Keys == was.Keys && was.Keys - keys <= hash.Keys
        invariant tuner.incDec.Keys == hash.Keys
        invariant forall k :: k in keys ==> data[k] == was[k]
        invariant forall k :: k in was && k !in keys ==> data[k] == Tuned(Engine(hash[k], was[k])).value
        invariant forall k :: k in hash ==>
                    tuner.incDec[k] == if k in was && k !in keys then Tuned(Engine(hash[k], was[k])).inc else hash[k]
      {
        var k :| k in keys;
        var r := tuner.Execute(k, data[k]);
        if r.OutOfRange? {
          return false;
        }
        data := data[k := r.value];
        keys := keys - {k};
      }
      return true;
    }

    method Write()
      modifies db`mainDb, db.smw
      ensures db.mainDb == Written(old(db.mainDb), component, data)
    {
      db.SetComponentDb(component, data);
    }
  }
}
