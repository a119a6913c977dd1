/** The set-up of the tasks (tasks_from_config_impl in app/TasksFromConfig.cpp). */
module SetUp {
  import opened Database
  import opened InteractiveTasks
  import opened NameOrder
  import opened PriorityQ
  import opened PriorityQueueElements
  import opened RescheduleRuns
  import opened Tuning
  import opened Uint32
  import opened Workflows

  // ---------- The targets of an element ----------

  ghost predicate IsLeast(m: nat, motors: set<nat>) {
    m in motors && forall n :: n in motors ==> m <= n
  }

  lemma {:induction false} LeastExists(motors: set<nat>)
    requires motors != {}
    ensures exists m :: IsLeast(m, motors)
    decreases |motors|
  {
    var m :| m in motors;
    var rest := motors - {m};
    if rest == {} {
      assert motors == {m};
      assert IsLeast(m, motors);
    } else {
      LeastExists(rest);
      var least :| IsLeast(least, rest);
      assert forall n :: n in motors ==> n == m || n in rest;
      assert IsLeast(if m <= least then m else least, motors);
    }
  }

  lemma LeastIsUnique(m: nat, n: nat, motors: set<nat>)
    requires IsLeast(m, motors) && IsLeast(n, motors)
    ensures m == n
  {
  }

  /** The motors in ascending order, each put into a list of int. */
  ghost function Targets(motors: set<nat>): seq<int>
    decreases |motors|
  {
    if motors == {} then []
    else
      LeastExists(motors);
      var m :| IsLeast(m, motors);
      [ToInt32(m)] + Targets(motors - {m})
  }

  lemma NextTarget(motors: set<nat>, m: nat)
    requires IsLeast(m, motors)
    ensures Targets(motors) == [ToInt32(m)] + Targets(motors - {m})
  {
    assert motors != {};
    var least :| IsLeast(least, motors) && Targets(motors) == [ToInt32(least)] + Targets(motors - {least});
    LeastIsUnique(least, m, motors);
  }

  method MotorList(motors: set<nat>) returns (list: seq<int>)
    ensures list == Targets(motors)
  {
    list := [];
    var rest := motors;
    while rest != {}
      invariant Targets(motors) == list + Targets(rest)
    {
      LeastExists(rest);
      var m :| m in rest && forall n :: n in rest ==> m <= n;
      NextTarget(rest, m);
      list := list + [ToInt32(m)];
      rest := rest - {m};
    }
  }

  /** The number of a motor, as an int. */
  ghost predicate IsMotor(target: int, motors: set<nat>) {
    exists m :: m in motors && target == ToInt32(m)
  }

  lemma {:induction false} TargetsAre(motors: set<nat>, target: int)
    ensures target in Targets(motors) <==> IsMotor(target, motors)
    decreases |motors|
  {
    if motors != {} {
      LeastExists(motors);
      var m :| IsLeast(m, motors);
      NextTarget(motors, m);
      TargetsAre(motors - {m}, target);
      assert IsMotor(target, motors) <==> target == ToInt32(m) || IsMotor(target, motors - {m});
    }
  }

  /** The list is in the order of the motor numbers, each once. */
  lemma {:induction false} TargetsAscend(motors: set<nat>) returns (ms: seq<nat>)
    ensures Targets(motors) == AsInts(ms) && Ascending(ms)
    ensures forall m :: m in ms <==> m in motors
    decreases |motors|
  {
    ms := [];
    if motors != {} {
      LeastExists(motors);
      var m :| IsLeast(m, motors);
      NextTarget(motors, m);
      var rest := TargetsAscend(motors - {m});
      ms := [m] + rest;
      AscendingMore(m, rest, motors);
      AsIntsMore(m, rest);
    }
  }

  function AsInts(ms: seq<nat>): (r: seq<int>)
    ensures |r| == |ms|
  {
    seq(|ms|, i requires 0 <= i < |ms| => ToInt32(ms[i]))
  }

  predicate Ascending(ms: seq<nat>) {
    forall i, j :: 0 <= i < j < |ms| ==> ms[i] < ms[j]
  }

  lemma AsIntsMore(m: nat, rest: seq<nat>)
    ensures AsInts([m] + rest) == [ToInt32(m)] + AsInts(rest)
  {
  }

  lemma AscendingMore(m: nat, rest: seq<nat>, motors: set<nat>)
    requires IsLeast(m, motors) && Ascending(rest) && forall n :: n in rest <==> n in motors - {m}
    ensures Ascending([m] + rest)
    ensures forall n :: n in [m] + rest <==> n in motors
  {
    forall j | 0 <= j < |rest| ensures m < rest[j] {
      assert rest[j] in rest;
    }
  }

  // ---------- The elements of a configuration ----------

  /** The element of one task, built when the clock reads `now`. */
  ghost function ElementOf(t: FunctionTask, now: int): ElementState {
    FromConfig(Targets(t.targets), t.times, t.delta, t.values, t.deltas, now)
  }

  method NewElement(t: FunctionTask, now: int) returns (elem: Element)
    ensures fresh(elem) && elem.State() == ElementOf(t, now)
  {
    var motors := MotorList(t.targets);
    elem := new Element(motors, t.times, t.values, t.deltas, t.delta, now);
  }

  ghost predicate Distinct<E>(s: seq<E>) {
    forall i, j :: 0 <= i < j < |s| ==> s[i] != s[j]
  }

  /** The i-th element is that of the i-th task, built at the i-th clock reading. */
  ghost predicate ElementAt<E>(q: Queue<E>, tasks: map<string, FunctionTask>, clock: nat -> int, elems: seq<E>,
                               keys: seq<string>, i: nat)
    requires i < |elems| == |keys|
  {
    elems[i] in q && keys[i] in tasks && q[elems[i]] == ElementOf(tasks[keys[i]], clock(i))
  }

  ghost predicate QueuedFor<E>(q: Queue<E>, tasks: map<string, FunctionTask>, clock: nat -> int, elems: seq<E>,
                               keys: seq<string>)
  {
    && |elems| == |keys| && Distinct(elems)
    && q.Keys == (set e | e in elems)
    && forall i :: 0 <= i < |elems| ==> ElementAt(q, tasks, clock, elems, keys, i)
  }

  /** The queue holds one element per task and nothing else; the tasks come in the order of
    their names, and the clock is read once for each. */
  ghost predicate Configured<E>(q: Queue<E>, tasks: map<string, FunctionTask>, clock: nat -> int, elems: seq<E>) {
    QueuedFor(q, tasks, clock, elems, InOrder(tasks.Keys))
  }

  lemma OneMoreQueued<E>(q: Queue<E>, tasks: map<string, FunctionTask>, clock: nat -> int, elems: seq<E>,
                         keys: seq<string>, e: E, key: string)
    requires QueuedFor(q, tasks, clock, elems, keys) && e !in q && key in tasks
    ensures QueuedFor(q[e := ElementOf(tasks[key], clock(|elems|))], tasks, clock, elems + [e], keys + [key])
  {
    var q' := q[e := ElementOf(tasks[key], clock(|elems|))];
    forall i | 0 <= i < |elems| + 1 ensures ElementAt(q', tasks, clock, elems + [e], keys + [key], i) {
      assert i < |elems| ==> ElementAt(q, tasks, clock, elems, keys, i);
    }
  }

  /** The loop over the tasks has done some keys and has the rest to do. */
  ghost predicate Setting(q: Queue<Element>, tasks: map<string, FunctionTask>, clock: nat -> int,
                          elems: seq<Element>, done: seq<string>, rest: set<string>)
  {
    rest <= tasks.Keys && QueuedFor(q, tasks, clock, elems, done) && InOrder(tasks.Keys) == done + InOrder(rest)
  }

  lemma AllSet(q: Queue<Element>, tasks: map<string, FunctionTask>, clock: nat -> int, elems: seq<Element>,
               done: seq<string>)
    requires Setting(q, tasks, clock, elems, done, {})
    ensures Configured(q, tasks, clock, elems)
  {
    assert done + [] == done;
  }

  lemma SettingMore(q: Queue<Element>, tasks: map<string, FunctionTask>, clock: nat -> int, elems: seq<Element>,
                    done: seq<string>, rest: set<string>, elem: Element, key: string)
    requires Setting(q, tasks, clock, elems, done, rest) && IsFirst(key, rest) && elem !in q
    ensures key in tasks
    ensures Setting(q[elem := ElementOf(tasks[key], clock(|elems|))], tasks, clock, elems + [elem],
                    done + [key], rest - {key})
  {
    OneMoreQueued(q, tasks, clock, elems, done, elem, key);
    NextInOrder(rest, key);
    assert done + ([key] + InOrder(rest - {key})) == (done + [key]) + InOrder(rest - {key});
  }

  /** One round of the loop over the tasks. */
  method QueueOne(queue: PQueue, tasks: map<string, FunctionTask>, key: string, clock: nat -> int, n: nat,
                  ghost elems: seq<Element>, ghost done: seq<string>, ghost rest: set<string>)
    returns (elem: Element)
    requires queue.Valid() && n == |elems| && IsFirst(key, rest)
    requires Setting(queue.Abs(), tasks, clock, elems, done, rest)
    modifies queue
    ensures queue.Valid() && fresh(elem) && queue.Elements() == old(queue.Elements()) + {elem}
    ensures Setting(queue.Abs(), tasks, clock, elems + [elem], done + [key], rest - {key})
  {
    elem := NewElement(tasks[key], clock(n));
    assert queue.Elements() == queue.Abs().Keys;
    SettingMore(queue.Abs(), tasks, clock, elems, done, rest, elem, key);
    queue.Push(elem);
    assert queue.Elements() == queue.Abs().Keys;
  }

  method QueueTasks(tasks: map<string, FunctionTask>, clock: nat -> int)
    returns (queue: PQueue, ghost elems: seq<Element>)
    ensures fresh(queue) && queue.Valid() && fresh(queue.Elements())
    ensures Configured(queue.Abs(), tasks, clock, elems)
  {
    queue := new PQueue();
    elems := [];
    var rest, n := tasks.Keys, 0;
    ghost var done := [];
    while rest != {}
      invariant n == |elems| && fresh(queue) && queue.Valid() && fresh(queue.Elements())
      invariant Setting(queue.Abs(), tasks, clock, elems, done, rest)
      decreases |rest|
    {
      var key := FirstName(rest);
      var elem := QueueOne(queue, tasks, key, clock, n, elems, done, rest);
      elems, done := elems + [elem], done + [key];
      rest, n := rest - {key}, n + 1;
    }
    AllSet(queue.Abs(), tasks, clock, elems, done);
  }

  // ---------- From an entry to its element ----------

  /** The entry at j gives a task, and no later one replaces it. */
  ghost predicate GivesTask(es: seq<Entry>, j: nat) {
    j < |es| && IsTaskOf(es, es[j].key, j)
  }

  ghost predicate IsNth(names: seq<string>, i: nat, name: string) {
    i < |names| && names[i] == name
  }

  /** The i-th element comes from the entry at j. */
  ghost predicate ComesFrom<E>(es: seq<Entry>, q: Queue<E>, clock: nat -> int, elems: seq<E>, i: nat, j: nat) {
    && GivesTask(es, j) && i < |elems|
    && IsNth(InOrder(LoadedAll(es).tasks.Keys), i, es[j].key)
    && elems[i] in q && q[elems[i]] == ElementOf(TaskOf(es, j), clock(i))
  }

  lemma EntryOf<E>(es: seq<Entry>, q: Queue<E>, clock: nat -> int, elems: seq<E>, i: nat) returns (j: nat)
    requires Configured(q, LoadedAll(es).tasks, clock, elems) && i < |elems|
    ensures ComesFrom(es, q, clock, elems, i, j)
  {
    var tasks := LoadedAll(es).tasks;
    var keys := InOrder(tasks.Keys);
    NamesInOrder(tasks.Keys);
    assert ElementAt(q, tasks, clock, elems, keys, i);
    j := TaskExists(es, keys[i]);
    TaskIs(es, keys[i], j);
  }

  lemma ElementFor<E>(es: seq<Entry>, q: Queue<E>, clock: nat -> int, elems: seq<E>, j: nat) returns (i: nat)
    requires Configured(q, LoadedAll(es).tasks, clock, elems) && GivesTask(es, j)
    ensures ComesFrom(es, q, clock, elems, i, j)
  {
    var tasks := LoadedAll(es).tasks;
    var keys := InOrder(tasks.Keys);
    NamesInOrder(tasks.Keys);
    TaskIs(es, es[j].key, j);
    i :| 0 <= i < |keys| && keys[i] == es[j].key;
    assert ElementAt(q, tasks, clock, elems, keys, i);
  }

  // ---------- What a configured queue is like ----------

  /** An element is finite and fires at known engines. */
  ghost predicate FitsConfig(s: ElementState, l: Loaded) {
    !Endless(s) && forall t :: t in s.targets ==> IsMotor(t, AllMotors(l))
  }

  ghost predicate AllFit<E>(q: Queue<E>, l: Loaded) {
    forall e :: e in q ==> FitsConfig(q[e], l)
  }

  ghost predicate TargetsKnown(l: Loaded) {
    forall key :: key in l.tasks ==> l.tasks[key].targets <= l.gpMotors
  }

  lemma KnownAfterOne(l: Loaded, e: Entry)
    requires TargetsKnown(l)
    ensures TargetsKnown(LoadedOne(l, e))
  {
    var l' := LoadedOne(l, e);
    forall key | key in l'.tasks ensures l'.tasks[key].targets <= l'.gpMotors {
      if !IsNetAction(e) && key == e.key {
        assert l'.tasks[key].targets == l'.gpMotors;
      } else {
        assert key in l.tasks && l'.tasks[key] == l.tasks[key];
      }
    }
  }

  /** A task only targets motors of the configuration. */
  lemma {:induction false} TargetsWithin(es: seq<Entry>)
    ensures TargetsKnown(LoadedAll(es))
    decreases |es|
  {
    if es != [] {
      TargetsWithin(es[..|es| - 1]);
      KnownAfterOne(LoadedAll(es[..|es| - 1]), es[|es| - 1]);
    }
  }

  /** No configured element is endless, and all fire at motors of the configuration; so the
    queue drains whatever the clock does, if its elements can be read. */
  lemma ConfiguredQueueDrains(es: seq<Entry>, q: Queue<Element>, built: nat -> int, elems: seq<Element>,
                              clock: nat -> int, bound: int)
    requires Configured(q, LoadedAll(es).tasks, built, elems)
    ensures AllFit(q, LoadedAll(es)) && Drainable(q, clock, bound)
    ensures AllReadable(q) <==> forall j: nat :: GivesTask(es, j) ==> ReadableEntry(es[j])
  {
    ConfiguredFits(es, q, built, elems);
    assert forall e :: e in q ==> FitsConfig(q[e], LoadedAll(es));
    ConfiguredReadable(es, q, built, elems);
  }

  lemma ConfiguredFits<E>(es: seq<Entry>, q: Queue<E>, clock: nat -> int, elems: seq<E>)
    requires Configured(q, LoadedAll(es).tasks, clock, elems)
    ensures AllFit(q, LoadedAll(es))
  {
    var l := LoadedAll(es);
    TargetsWithin(es);
    forall e | e in q ensures FitsConfig(q[e], l) {
      var i :| 0 <= i < |elems| && elems[i] == e;
      var j := EntryOf(es, q, clock, elems, i);
      var motors := TaskOf(es, j).targets;
      TaskIs(es, es[j].key, j);
      assert motors <= AllMotors(l);
      forall t | t in q[e].targets ensures IsMotor(t, AllMotors(l)) {
        TargetsAre(motors, t);
        var m :| m in motors && t == ToInt32(m);
      }
    }
  }

  /** An entry has values, and deltas for all of them or none. */
  predicate ReadableEntry(e: Entry) {
    e.values != [] && (e.deltas == [] || |e.values| <= |e.deltas|)
  }

  lemma ConfiguredReadable<E>(es: seq<Entry>, q: Queue<E>, clock: nat -> int, elems: seq<E>)
    requires Configured(q, LoadedAll(es).tasks, clock, elems)
    ensures AllReadable(q) <==> forall j: nat :: GivesTask(es, j) ==> ReadableEntry(es[j])
  {
    if AllReadable(q) {
      forall j: nat | GivesTask(es, j) ensures ReadableEntry(es[j]) {
        var i := ElementFor(es, q, clock, elems, j);
        assert Readable(q[elems[i]]);
      }
    }
    if forall j: nat :: GivesTask(es, j) ==> ReadableEntry(es[j]) {
      forall e | e in q ensures Readable(q[e]) {
        var i :| 0 <= i < |elems| && elems[i] == e;
        var j := EntryOf(es, q, clock, elems, i);
        assert ReadableEntry(es[j]);
      }
    }
  }

  // ---------- What an entry stands for over a run ----------

  /** How often the entry is to fire; `times: 0` is marked as infinite. */
  function FiringsFor(e: Entry): nat {
    if e.times == 0 then 1 else e.times
  }

  /** The n-th value of the entry, from 1. */
  function ValueFor(e: Entry, n: nat): real
    requires ReadableEntry(e) && n > 0
  {
    var i := (n - 1) % |e.values|;
    e.values[i] + if e.deltas == [] then 0.0 else n as real * e.deltas[i]
  }

  /** The n-th due time of the entry, from 1, if its element was built at `built`. */
  function DueFor(e: Entry, built: int, n: nat): int {
    built + n * (ToInt32(e.delta) * NANOS_PER_MILLI)
  }

  /** The n-th firing, from 1, that the entry asks for. */
  ghost predicate IsFiringFor<E>(e: Entry, built: int, n: nat, ev: Event<E>)
    requires ReadableEntry(e) && n > 0
  {
    ev.Fire? && ev.due == DueFor(e, built, n) && ev.value == ValueFor(e, n)
  }

  /** Firings as the entry asks for them, in full exactly when the element has gone. */
  ghost predicate FiredFor<E>(e: Entry, built: int, fs: seq<Event<E>>, gone: bool) {
    && ReadableEntry(e) && |fs| <= FiringsFor(e) && (gone <==> |fs| == FiringsFor(e))
    && forall k :: 0 <= k < |fs| ==> IsFiringFor(e, built, k + 1, fs[k])
  }

  lemma NthOfEntry<E>(t: FunctionTask, e: Entry, built: int, k: nat, ev: Event<E>)
    requires ReadableEntry(e) && ev.Fire?
    requires t.times == e.times && t.delta == e.delta && t.values == e.values && t.deltas == e.deltas
    requires IsNthFiring(ElementOf(t, built), k, ev)
    ensures IsFiringFor(e, built, k + 1, ev)
  {
    var s := ElementOf(t, built);
    ValueClosedForm(s, k + 1);
    assert (k + 1) * Period(s) == k * Period(s) + Period(s);
  }

  /** From the file to the firings. Over any run of a configured queue, whatever the clock
    does, each entry that gives a task has one element, which fires as the entry asks:
    an entry marked as infinite once, any other at most as often as it says, exactly that
    often when it has left the queue. */
  lemma ConfiguredFirings<E>(es: seq<Entry>, q: Queue<E>, clock: nat -> int, elems: seq<E>, evs: seq<Event<E>>,
                             i: nat, j: nat)
    requires ComesFrom(es, q, clock, elems, i, j) && ReadableEntry(es[j])
    requires Possible(q, evs) && NotPushed(evs, elems[i])
    ensures FiredFor(es[j], clock(i), FiringsOf(evs, elems[i]), elems[i] !in After(q, evs))
  {
    var e := elems[i];
    var fs := FiringsOf(evs, e);
    Trajectory(q, evs, e);
    FiringConservation(q, evs, e);
    forall k | 0 <= k < |fs| ensures IsFiringFor(es[j], clock(i), k + 1, fs[k]) {
      assert IsNthFiring(q[e], k, fs[k]);
      NthOfEntry(TaskOf(es, j), es[j], clock(i), k, fs[k]);
    }
  }

  /** With a standing clock the drain fires of each entry exactly the occurrences it has
    whose due times have passed, all of them at once if the delta makes no period. */
  lemma ConfiguredDrain<E>(es: seq<Entry>, q: Queue<E>, clock: nat -> int, elems: seq<E>, evs: seq<Event<E>>,
                           now: int, i: nat, j: nat, k: nat)
    requires Configured(q, LoadedAll(es).tasks, clock, elems) && ComesFrom(es, q, clock, elems, i, j)
    requires AllReadable(q) && Possible(q, evs) && DrainAt(evs, now)
    ensures k < |FiringsOf(evs, elems[i])| <==>
            && k < FiringsFor(es[j]) && Passed(now, DueFor(es[j], clock(i), 1))
            && Passed(now, DueFor(es[j], clock(i), k + 1))
  {
    var s := q[elems[i]];
    ConfiguredFits(es, q, clock, elems);
    assert forall e :: e in q ==> FitsConfig(q[e], LoadedAll(es));
    DrainIsSortedMerge(q, evs, now);
    assert k < |FiringsOf(evs, elems[i])| <==> ToFire(s, now, k);
    assert (k + 1) * Period(s) == k * Period(s) + Period(s);
  }

  // ---------- The set-up ----------

  function NewEngines(motors: set<nat>): Values {
    map m | m in motors :: 0.5
  }

  method InitialEngines(motors: set<nat>) returns (engines: Values)
    ensures engines == NewEngines(motors)
  {
    engines := map[];
    var rest := motors;
    while rest != {}
      invariant rest <= motors && engines == NewEngines(motors - rest)
    {
      var m :| m in rest;
      engines := engines[m := 0.5];
      rest := rest - {m};
    }
  }

  /** tasks_from_config_impl up to the start of the tasks. An action of an unknown name
    throws before the components are written. */
  method TasksFromConfig(config: seq<Entry>, db: DB, clock: nat -> int)
    returns (queue: PQueue, wiring: Wiring, tuner: AutoTuner, ghost elems: seq<Element>)
    modifies db, db.smw
    ensures fresh(queue) && queue.Valid() && fresh(queue.Elements()) && fresh(tuner)
    ensures var l := LoadedAll(config);
            && Configured(queue.Abs(), l.tasks, clock, elems)
            && wiring == Wire(l.netActions)
            && tuner.incDec == (map m | m in AllMotors(l) :: true)
            && (wiring.UnknownAction? ==> db.mainDb == old(db.mainDb))
            && (wiring.Wired? ==>
                  db.mainDb == Written(Written(old(db.mainDb), "Engines", NewEngines(AllMotors(l))),
                                       "PositionLoop", map[1 := 1.0]))
  {
    if db.sharing {
      var ok := db.InitSm("db_shared_memory");
    }
    var motors;
    queue, wiring, tuner, motors, elems := FromEntries(config, clock);
    if wiring.Wired? {
      SetComponents(db, motors);
    }
  }

  method FromEntries(config: seq<Entry>, clock: nat -> int)
    returns (queue: PQueue, wiring: Wiring, tuner: AutoTuner, motors: set<nat>, ghost elems: seq<Element>)
    ensures fresh(queue) && queue.Valid() && fresh(queue.Elements())
    ensures Configured(queue.Abs(), LoadedAll(config).tasks, clock, elems)
    ensures wiring == Wire(LoadedAll(config).netActions)
    ensures fresh(tuner) && tuner.incDec == map m | m in motors :: true
    ensures motors == AllMotors(LoadedAll(config))
  {
    var workflow := new Workflow();
    var ok := workflow.LoadWork(config);
    var tasks, actions := workflow.tasks, workflow.netActions;
    motors := workflow.gpMotors + workflow.netFuncMotors;
    queue, elems := QueueTasks(tasks, clock);
    tuner := new AutoTuner(motors);
    wiring := WireActions(actions);
  }

  method SetComponents(db: DB, motors: set<nat>)
    modifies db, db.smw
    ensures db.mainDb == Written(Written(old(db.mainDb), "Engines", NewEngines(motors)),
                                 "PositionLoop", map[1 := 1.0])
  {
    var engines := InitialEngines(motors);
    db.SetComponentDb("Engines", engines);
    db.SetComponentDb("PositionLoop", map[1 := 1.0]);
  }

  /** Every task of the configuration has fired as its entry asks. */
  ghost predicate AllFiredFor<E>(es: seq<Entry>, q: Queue<E>, clock: nat -> int, elems: seq<E>, evs: seq<Event<E>>)
    requires Possible(q, evs)
  {
    forall i: nat, j: nat :: ComesFrom(es, q, clock, elems, i, j) ==>
      FiredFor(es[j], clock(i), FiringsOf(evs, elems[i]), elems[i] !in After(q, evs))
  }

  lemma AllFire<E>(es: seq<Entry>, q: Queue<E>, clock: nat -> int, elems: seq<E>, evs: seq<Event<E>>)
    requires forall j: nat :: GivesTask(es, j) ==> ReadableEntry(es[j])
    requires Possible(q, evs) && NoPush(evs)
    ensures AllFiredFor(es, q, clock, elems, evs)
  {
    forall i: nat, j: nat | ComesFrom(es, q, clock, elems, i, j)
      ensures FiredFor(es[j], clock(i), FiringsOf(evs, elems[i]), elems[i] !in After(q, evs))
    {
      ConfiguredFirings(es, q, clock, elems, evs, i, j);
    }
  }
}
