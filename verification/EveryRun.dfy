/** What holds of an engine under every interleaving of the three tasks, whatever their cycles
  look like (app/InteractiveTask.h, the tasks of app/TasksFromConfig.cpp). */
module EveryRun {
  import opened Database
  import opened InteractiveTasks
  import opened Interleaving
  import opened SetUp
  import opened Tuning
  import opened Workflows
  import R = RescheduleRuns

  // ---------- One engine in the midst of the tasks ----------

  /** Between its read and its write. */
  predicate Busy(l: Local) {
    l.place == HasRead || l.place == HasProcessed
  }

  predicate Known<E>(s: System<E>, e: nat) {
    && e in s.engines && e in s.hash
    && (Busy(s.enginesLocal) ==> e in s.enginesLocal.data) && (Busy(s.mainLocal) ==> e in s.mainLocal.data)
  }

  lemma KeysKnow<E>(s: System<E>, motors: set<nat>, e: nat)
    requires KeysKept(s, motors) && e in motors
    ensures Known(s, e)
  {
    assert SnapshotKept(s, EnginesTask, motors) && SnapshotKept(s, MainTask, motors);
  }

  /** What a task holds of the engine: nothing outside its read and write, then the value it
    read, then what it made of that. */
  datatype Hold = Nothing | Taken(v: real) | Made(v: real)

  datatype Cell = Cell(inc: bool, value: real, tuning: Hold, main: Hold)

  function HoldOf(l: Local, e: nat): Hold
    requires Busy(l) ==> e in l.data
  {
    match l.place
    case HasRead => Taken(l.data[e])
    case HasProcessed => Made(l.data[e])
    case _ => Nothing
  }

  function CellOf<E>(s: System<E>, e: nat): Cell
    requires Known(s, e)
  {
    Cell(s.hash[e], s.engines[e], HoldOf(s.enginesLocal, e), HoldOf(s.mainLocal, e))
  }

  /** The steps that concern an engine. */
  datatype Deed = TuningRead | TuningProcess | TuningWrite | MainRead | MainProcess | MainWrite | Other

  function DeedOf<E>(a: Action<E>): Deed {
    match a
    case Read(EnginesTask, _) => TuningRead
    case Process(EnginesTask, _) => TuningProcess
    case Write(EnginesTask) => TuningWrite
    case Read(MainTask, _) => MainRead
    case Process(MainTask, _) => MainProcess
    case Write(MainTask) => MainWrite
    case _ => Other
  }

  predicate CanDeed(c: Cell, d: Deed) {
    match d
    case TuningRead => c.tuning.Nothing?
    case TuningProcess => c.tuning.Taken?
    case TuningWrite => c.tuning.Made?
    case MainRead => c.main.Nothing?
    case MainProcess => c.main.Taken?
    case MainWrite => c.main.Made?
    case Other => true
  }

  function Done(c: Cell, d: Deed, kind: NetKind, sine: real -> real): Cell
    requires CanDeed(c, d)
  {
    match d
    case TuningRead => c.(tuning := Taken(c.value))
    case TuningProcess =>
      var t := Tuned(Engine(c.inc, c.tuning.v));
      c.(inc := t.inc, tuning := Made(t.value))
    case TuningWrite => c.(value := c.tuning.v, tuning := Nothing)
    case MainRead => c.(main := Taken(c.value))
    case MainProcess => c.(main := Made(NetResult(kind, c.main.v, sine)))
    case MainWrite => c.(value := c.main.v, main := Nothing)
    case Other => c
  }

  /** Every step of the system, in any order, is such a deed for each engine. */
  lemma CellStep<E>(s: System<E>, a: Action<E>, fs: NetFunctions, sine: real -> real, e: nat)
    requires Enabled(s, a) && NoThrow(s, a) && Known(s, e) && Known(Apply(s, a, fs, sine), e)
    ensures CanDeed(CellOf(s, e), DeedOf(a))
    ensures CellOf(Apply(s, a, fs, sine), e) == Done(CellOf(s, e), DeedOf(a), KindOf(fs, e), sine)
  {
    match a
    case Stop =>
    case Test(_) =>
    case Read(_, _) =>
    case Process(t, noise) => ProcessCell(s, t, noise, fs, sine, e);
    case Write(t) => WriteCell(s, t, fs, sine, e);
  }

  lemma ProcessCell<E>(s: System<E>, t: Task, noise: nat -> real, fs: NetFunctions, sine: real -> real, e: nat)
    requires Enabled(s, Process(t, noise)) && NoThrow(s, Process(t, noise))
    requires Known(s, e) && Known(Apply(s, Process(t, noise), fs, sine), e)
    ensures var d := DeedOf(Action<E>.Process(t, noise));
            && CanDeed(CellOf(s, e), d)
            && CellOf(Apply(s, Process(t, noise), fs, sine), e) == Done(CellOf(s, e), d, KindOf(fs, e), sine)
  {
  }

  lemma WriteCell<E>(s: System<E>, t: Task, fs: NetFunctions, sine: real -> real, e: nat)
    requires Enabled(s, Write(t)) && Known(s, e) && Known(Apply(s, Write(t), fs, sine), e)
    ensures var d := DeedOf(Action<E>.Write(t));
            && CanDeed(CellOf(s, e), d)
            && CellOf(Apply(s, Write(t), fs, sine), e) == Done(CellOf(s, e), d, KindOf(fs, e), sine)
  {
  }

  // ---------- Runs of one engine ----------

  ghost predicate DeedAt(cells: seq<Cell>, deeds: seq<Deed>, i: nat, kind: NetKind, sine: real -> real)
    requires i < |deeds| && i + 1 < |cells|
  {
    CanDeed(cells[i], deeds[i]) && cells[i + 1] == Done(cells[i], deeds[i], kind, sine)
  }

  /** What the engine goes through, from a moment when no task holds anything of it. */
  ghost predicate Life(cells: seq<Cell>, deeds: seq<Deed>, kind: NetKind, sine: real -> real) {
    && |cells| == |deeds| + 1 && cells[0].tuning.Nothing? && cells[0].main.Nothing?
    && forall i :: 0 <= i < |deeds| ==> DeedAt(cells, deeds, i, kind, sine)
  }

  function DeedsOf<E>(acts: seq<Action<E>>): seq<Deed> {
    seq(|acts|, i requires 0 <= i < |acts| => DeedOf(acts[i]))
  }

  /** Every run of the system is such a life for each engine. */
  lemma {:induction false} LifeOf<E>(s: System<E>, acts: seq<Action<E>>, motors: set<nat>, fs: NetFunctions,
                                     sine: real -> real, e: nat)
    returns (cells: seq<Cell>)
    requires KeysKept(s, motors) && e in motors && Runs(s, acts, fs, sine)
    ensures |cells| == |acts| + 1
    ensures forall i :: 0 <= i < |acts| ==> DeedAt(cells, DeedsOf(acts), i, KindOf(fs, e), sine)
    ensures Known(s, e) && cells[0] == CellOf(s, e)
    ensures Known(Reached(s, acts, fs, sine), e) && cells[|acts|] == CellOf(Reached(s, acts, fs, sine), e)
    decreases |acts|
  {
    KeysKnow(s, motors, e);
    if acts == [] {
      cells := [CellOf(s, e)];
    } else {
      StepKeepsKeys(s, acts[0], motors, fs, sine);
      var s1 := Apply(s, acts[0], fs, sine);
      KeysKnow(s1, motors, e);
      CellStep(s, acts[0], fs, sine, e);
      var rest := LifeOf(s1, acts[1..], motors, fs, sine, e);
      cells := [CellOf(s, e)] + rest;
      LaterDeeds(CellOf(s, e), acts, rest, KindOf(fs, e), sine);
    }
  }

  lemma LaterDeeds<E>(c: Cell, acts: seq<Action<E>>, rest: seq<Cell>, kind: NetKind, sine: real -> real)
    requires |rest| == |acts| > 0
    requires CanDeed(c, DeedOf(acts[0])) && rest[0] == Done(c, DeedOf(acts[0]), kind, sine)
    requires forall i :: 0 <= i < |acts| - 1 ==> DeedAt(rest, DeedsOf(acts[1..]), i, kind, sine)
    ensures forall i :: 0 <= i < |acts| ==> DeedAt([c] + rest, DeedsOf(acts), i, kind, sine)
  {
    forall i | 0 <= i < |acts| ensures DeedAt([c] + rest, DeedsOf(acts), i, kind, sine) {
      if i > 0 {
        assert DeedAt(rest, DeedsOf(acts[1..]), i - 1, kind, sine);
      }
    }
  }

  // ---------- What decides the sweep ----------

  /** The direction, and the value tuning goes on with: its own copy while it has one. */
  function Seen(c: Cell): Engine {
    Engine(c.inc, if c.tuning.Nothing? then c.value else c.tuning.v)
  }

  /** A write of the main task that no tuning cycle is about to overwrite. */
  predicate LandsAt(cells: seq<Cell>, deeds: seq<Deed>, i: nat)
    requires i < |deeds| < |cells|
  {
    deeds[i] == MainWrite && cells[i].tuning.Nothing?
  }

  /** In any order of steps a tuning step tunes the engine, a main write that lands replaces
    its value, and nothing else changes it. */
  lemma SeenStep(cells: seq<Cell>, deeds: seq<Deed>, i: nat, kind: NetKind, sine: real -> real)
    requires Life(cells, deeds, kind, sine) && i < |deeds|
    ensures LandsAt(cells, deeds, i) ==> cells[i].main.Made?
    ensures Seen(cells[i + 1]) ==
            if deeds[i] == TuningProcess then Tuned(Seen(cells[i]))
            else if LandsAt(cells, deeds, i) then Engine(cells[i].inc, cells[i].main.v)
            else Seen(cells[i])
  {
    assert DeedAt(cells, deeds, i, kind, sine);
  }

  predicate NoLanding(cells: seq<Cell>, deeds: seq<Deed>, i: nat, n: nat)
    requires n <= |deeds| < |cells|
  {
    forall j: nat :: i <= j < n ==> !LandsAt(cells, deeds, j)
  }

  /** The last main write that lands. */
  predicate LastLanding(cells: seq<Cell>, deeds: seq<Deed>, i: nat)
    requires |deeds| < |cells|
  {
    i < |deeds| && LandsAt(cells, deeds, i) && NoLanding(cells, deeds, i + 1, |deeds|)
  }

  lemma {:induction false} SweepSince(cells: seq<Cell>, deeds: seq<Deed>, i: nat, n: nat, kind: NetKind,
                                      sine: real -> real)
    requires Life(cells, deeds, kind, sine) && i <= n <= |deeds| && NoLanding(cells, deeds, i, n)
    ensures Sweeps(Seen(cells[n])) <==> Sweeps(Seen(cells[i]))
    decreases n
  {
    if i < n {
      SweepSince(cells, deeds, i, n - 1, kind, sine);
      assert !LandsAt(cells, deeds, n - 1);
      SeenStep(cells, deeds, n - 1, kind, sine);
      TuningDecidesNothing(Seen(cells[n - 1]));
    }
  }

  lemma TuningDecidesNothing(e: Engine)
    ensures Sweeps(Tuned(e)) <==> Sweeps(e)
  {
    SweepsIfFree(e);
    SweepsIfFree(Tuned(e));
  }

  /** Of the first n steps, the one at r is the last read of the main task. */
  predicate MainReadAt(deeds: seq<Deed>, n: nat, r: nat)
    requires n <= |deeds|
  {
    r < n && deeds[r] == MainRead && forall j :: r < j < n ==> deeds[j] != MainRead
  }

  /** While the main task is busy it holds the value of its last read, or what the net
    function made of it. */
  lemma {:induction false} MainHolds(cells: seq<Cell>, deeds: seq<Deed>, n: nat, kind: NetKind, sine: real -> real)
    returns (r: nat)
    requires Life(cells, deeds, kind, sine) && n <= |deeds| && !cells[n].main.Nothing?
    ensures MainReadAt(deeds, n, r)
    ensures cells[n].main == if cells[n].main.Taken? then Taken(cells[r].value)
                             else Made(NetResult(kind, cells[r].value, sine))
    decreases n
  {
    assert DeedAt(cells, deeds, n - 1, kind, sine);
    if deeds[n - 1] == MainRead {
      r := n - 1;
    } else {
      r := MainHolds(cells, deeds, n - 1, kind, sine);
    }
  }

  /** The last main write that lands decides, for an engine of any kind and under every
    interleaving: the engine sweeps exactly if it would from the direction it had then and
    what the net function made of the value that the main task had read. */
  lemma LandingDecides(cells: seq<Cell>, deeds: seq<Deed>, i: nat, kind: NetKind, sine: real -> real)
    returns (r: nat)
    requires Life(cells, deeds, kind, sine) && LastLanding(cells, deeds, i)
    ensures MainReadAt(deeds, i, r)
    ensures Sweeps(Seen(cells[|deeds|])) <==> Sweeps(Engine(cells[i].inc, NetResult(kind, cells[r].value, sine)))
  {
    assert LandsAt(cells, deeds, i) && DeedAt(cells, deeds, i, kind, sine);
    r := MainHolds(cells, deeds, i, kind, sine);
    SeenStep(cells, deeds, i, kind, sine);
    SweepSince(cells, deeds, i + 1, |deeds|, kind, sine);
  }

  lemma {:induction false} LandingOrNone(cells: seq<Cell>, deeds: seq<Deed>, n: nat)
    requires n <= |deeds| < |cells| && NoLanding(cells, deeds, n, |deeds|)
    requires !exists i: nat :: LastLanding(cells, deeds, i)
    ensures NoLanding(cells, deeds, 0, |deeds|)
    decreases n
  {
    if n > 0 {
      assert !LastLanding(cells, deeds, n - 1);
      LandingOrNone(cells, deeds, n - 1);
    }
  }

  // ---------- The band ----------

  /** The values are in the band, also those on the way, and the engine that tuning works on
    is. */
  predicate InBand(c: Cell) {
    && 0.0099 < c.value <= 1.01 && Band(Seen(c))
    && (c.main.Taken? ==> 0.0099 < c.main.v <= 1.01)
    && (c.main.Made? ==> 0.01 < c.main.v <= 1.0)
  }

  lemma {:induction false} BandAt(cells: seq<Cell>, deeds: seq<Deed>, n: nat, kind: NetKind, sine: real -> real)
    requires Life(cells, deeds, kind, sine) && n <= |deeds| && kind != Leave && SineBounds(sine) && InBand(cells[0])
    ensures InBand(cells[n])
    decreases n
  {
    if n > 0 {
      BandAt(cells, deeds, n - 1, kind, sine);
      assert DeedAt(cells, deeds, n - 1, kind, sine);
    }
  }

  lemma LifeFromStart<E>(l: Loaded, queue: R.Queue<E>, acts: seq<Action<E>>, fs: NetFunctions, sine: real -> real,
                         e: nat)
    returns (cells: seq<Cell>)
    requires AllFit(queue, l) && Runs(Initial(l, queue), acts, fs, sine) && e in AllMotors(l)
    ensures Life(cells, DeedsOf(acts), KindOf(fs, e), sine) && Seen(cells[0]) == FRESH && InBand(cells[0])
    ensures var r := Reached(Initial(l, queue), acts, fs, sine); Known(r, e) && cells[|acts|] == CellOf(r, e)
  {
    InitialKeeps(l, queue);
    cells := LifeOf(Initial(l, queue), acts, AllMotors(l), fs, sine, e);
  }

  predicate ValueInBand<E>(s: System<E>, e: nat) {
    e in s.engines && 0.0099 < s.engines[e] <= 1.01
  }

  /** The band holds under every interleaving exactly for the engines that have a net
    function. */
  lemma BandExactlyWithNetFunction<E>(l: Loaded, queue: R.Queue<E>, fs: NetFunctions, sine: real -> real, e: nat)
    requires Start(l, queue) && SineBounds(sine) && e in AllMotors(l)
    ensures KindOf(fs, e) != Leave <==>
            forall acts :: Runs(Initial(l, queue), acts, fs, sine) ==>
              ValueInBand(Reached(Initial(l, queue), acts, fs, sine), e)
  {
    if KindOf(fs, e) == Leave {
      var up, down := OverlapsEscape(l, queue, n => 0, n => 0.0, fs, sine, 1.01);
      var acts := AllActions(up);
      assert Runs(Initial(l, queue), acts, fs, sine);
      assert !ValueInBand(Reached(Initial(l, queue), acts, fs, sine), e);
    } else {
      forall acts | Runs(Initial(l, queue), acts, fs, sine)
        ensures ValueInBand(Reached(Initial(l, queue), acts, fs, sine), e)
      {
        var cells := LifeFromStart(l, queue, acts, fs, sine, e);
        BandAt(cells, DeedsOf(acts), |acts|, KindOf(fs, e), sine);
      }
    }
  }

  // ---------- The sweep ----------

  /** The main write that is the last to land, if there is one, was no rotation of a value at
    or below 0.1. */
  ghost predicate NoLowRotation(cells: seq<Cell>, deeds: seq<Deed>, kind: NetKind)
    requires |deeds| < |cells|
  {
    forall i: nat, r: nat :: LastLanding(cells, deeds, i) && MainReadAt(deeds, i, r) ==>
      kind == Bend || cells[r].value > 0.1
  }

  lemma NetSweeps(kind: NetKind, inc: bool, v: real, sine: real -> real)
    requires kind != Leave && 0.0099 < v <= 1.01 && SineBounds(sine)
    ensures Sweeps(Engine(inc, NetResult(kind, v, sine))) <==> kind == Bend || v > 0.1
  {
    SweepsIfFree(Engine(inc, NetResult(kind, v, sine)));
  }

  lemma OnlyOne(cells: seq<Cell>, deeds: seq<Deed>, i: nat, r: nat)
    requires |deeds| < |cells| && LastLanding(cells, deeds, i) && MainReadAt(deeds, i, r)
    ensures forall j: nat, q: nat :: LastLanding(cells, deeds, j) && MainReadAt(deeds, j, q) ==> j == i && q == r
  {
  }

  lemma LifeSweeps(cells: seq<Cell>, deeds: seq<Deed>, kind: NetKind, sine: real -> real)
    requires Life(cells, deeds, kind, sine) && InBand(cells[0]) && Sweeps(Seen(cells[0]))
    requires kind != Leave && SineBounds(sine)
    ensures Sweeps(Seen(cells[|deeds|])) <==> NoLowRotation(cells, deeds, kind)
  {
    if i: nat :| LastLanding(cells, deeds, i) {
      var r := LandingDecides(cells, deeds, i, kind, sine);
      BandAt(cells, deeds, r, kind, sine);
      NetSweeps(kind, cells[i].inc, cells[r].value, sine);
      OnlyOne(cells, deeds, i, r);
    } else {
      LandingOrNone(cells, deeds, |deeds|);
      SweepSince(cells, deeds, 0, |deeds|, kind, sine);
    }
  }

  /** Under every interleaving from the start an engine with a net function sweeps exactly
    unless the last main write that landed was a rotation of a value at or below 0.1. */
  lemma EveryRunSweeps<E>(l: Loaded, queue: R.Queue<E>, acts: seq<Action<E>>, fs: NetFunctions, sine: real -> real,
                          e: nat)
    returns (cells: seq<Cell>)
    requires AllFit(queue, l) && Runs(Initial(l, queue), acts, fs, sine)
    requires e in AllMotors(l) && KindOf(fs, e) != Leave && SineBounds(sine)
    ensures Life(cells, DeedsOf(acts), KindOf(fs, e), sine)
    ensures var r := Reached(Initial(l, queue), acts, fs, sine);
            && Known(r, e) && cells[|acts|] == CellOf(r, e)
            && (Sweeps(Seen(CellOf(r, e))) <==> NoLowRotation(cells, DeedsOf(acts), KindOf(fs, e)))
  {
    cells := LifeFromStart(l, queue, acts, fs, sine, e);
    SweepsIfFree(FRESH);
    LifeSweeps(cells, DeedsOf(acts), KindOf(fs, e), sine);
  }

  /** So an engine that is bent sweeps at every moment of every interleaving. */
  lemma BentAlwaysSweeps<E>(l: Loaded, queue: R.Queue<E>, acts: seq<Action<E>>, fs: NetFunctions, sine: real -> real,
                            e: nat)
    requires AllFit(queue, l) && Runs(Initial(l, queue), acts, fs, sine)
    requires e in AllMotors(l) && KindOf(fs, e) == Bend && SineBounds(sine)
    ensures var r := Reached(Initial(l, queue), acts, fs, sine); Known(r, e) && Sweeps(Seen(CellOf(r, e)))
  {
    var cells := EveryRunSweeps(l, queue, acts, fs, sine, e);
  }

  // ---------- Net results that do not land ----------

  /** A tuning cycle whose read comes before, and whose write after, a whole main cycle. */
  function AroundMain<E>(drain: seq<R.Event<E>>, noise: nat -> real): seq<Action<E>> {
    var end := [Process(EnginesTask, noise)] + [Write(EnginesTask)];
    [Test(EnginesTask)] + ([Read(EnginesTask, [])] + (TaskCycle(MainTask, drain, noise) + end))
  }

  /** The state it ends in: the main write comes first and the tuning write over it. */
  ghost function AfterAroundMain<E>(s: System<E>, drain: seq<R.Event<E>>, fs: NetFunctions,
                                    sine: real -> real): System<E>
    requires Ready(s, EnginesTask) && DrainOf(s, MainTask, drain)
  {
    var net, tuned := NetValues(fs, s.engines, sine), TunedValues(s.hash, s.engines);
    s.(queue := R.After(s.queue, drain), engines := s.engines + net + tuned, hash := TunedHash(s.hash, s.engines),
       enginesLocal := Local(AtTest, tuned), mainLocal := Local(AtTest, net))
  }

  lemma AroundMainRuns<E>(s: System<E>, drain: seq<R.Event<E>>, noise: nat -> real, fs: NetFunctions,
                          sine: real -> real)
    requires Ready(s, EnginesTask) && Ready(s, MainTask) && DrainOf(s, MainTask, drain)
    ensures Runs(s, AroundMain(drain, noise), fs, sine)
    ensures Reached(s, AroundMain(drain, noise), fs, sine) == AfterAroundMain(s, drain, fs, sine)
  {
    var main, end := TaskCycle(MainTask, drain, noise), [Process(EnginesTask, noise)] + [Write(EnginesTask)];
    var s1 := Apply(s, Test(EnginesTask), fs, sine);
    var s2 := Apply(s1, Read(EnginesTask, []), fs, sine);
    RunsFirst(s, Test(EnginesTask), [Read(EnginesTask, [])] + (main + end), fs, sine);
    RunsFirst(s1, Read(EnginesTask, []), main + end, fs, sine);
    TaskCycleRuns(s2, MainTask, drain, noise, fs, sine);
    RunsConcat(s2, main, end, fs, sine);
    TaskCycleEnds(AfterTask(s2, MainTask, drain, noise, fs, sine), EnginesTask, noise, fs, sine);
  }

  /** It does to every engine what the tuning cycle alone would have done: the main write does
    not land. */
  lemma AroundMainTunes<E>(s: System<E>, drain: seq<R.Event<E>>, noise: nat -> real, motors: set<nat>,
                           fs: NetFunctions, sine: real -> real)
    requires KeysKept(s, motors) && Quiet(s) && DrainOf(s, MainTask, drain)
    ensures Runs(s, AroundMain(drain, noise), fs, sine)
    ensures var r := Reached(s, AroundMain(drain, noise), fs, sine);
            KeysKept(r, motors) && forall e :: e in motors ==> EngineOf(r, e) == Tuned(EngineOf(s, e))
  {
    assert LocalOf(s, EnginesTask).place == LocalOf(s, MainTask).place == AtTest;
    AroundMainRuns(s, drain, noise, fs, sine);
    RunKeepsKeys(s, AroundMain(drain, noise), motors, fs, sine);
  }

  lemma QueueStaysFinite<E>(l: Loaded, queue: R.Queue<E>, acts: seq<Action<E>>, fs: NetFunctions, sine: real -> real)
    requires Start(l, queue) && Runs(Initial(l, queue), acts, fs, sine)
    ensures Finite(Reached(Initial(l, queue), acts, fs, sine).queue)
  {
    assert forall e :: e in queue ==> FitsConfig(queue[e], l);
    DrainsAreOneRun(Initial(l, queue), acts, fs, sine);
    DrainStaysFinite(queue, DrainsOf(acts));
  }

  /** Some updates from the start, then a tuning cycle around a main cycle, whatever the clock
    shows when the main task reads. */
  lemma UpdatesThenAroundMain<E>(l: Loaded, queue: R.Queue<E>, us: seq<Update>, clock: nat -> int, now: int,
                                 noise: nat -> real, fs: NetFunctions, sine: real -> real)
    returns (acts: seq<Action<E>>, drain: seq<R.Event<E>>)
    requires Start(l, queue)
    ensures R.DrainAt(drain, now) && Runs(Initial(l, queue), acts, fs, sine)
    ensures Runs(Initial(l, queue), acts + AroundMain(drain, noise), fs, sine)
    ensures var before := Reached(Initial(l, queue), acts, fs, sine);
            var after := Reached(Initial(l, queue), acts + AroundMain(drain, noise), fs, sine);
            && before.engines.Keys == before.hash.Keys == after.engines.Keys == after.hash.Keys == AllMotors(l)
            && forall e :: e in AllMotors(l) ==>
                 && EngineOf(before, e) == AllUpdated(FRESH, AllWithKind(us, KindOf(fs, e)), sine)
                 && EngineOf(after, e) == Tuned(EngineOf(before, e))
  {
    var s := Initial(l, queue);
    var cs := RunForUpdates(l, queue, us, clock, noise, fs, sine);
    acts := AllActions(cs);
    InitialKeeps(l, queue);
    CyclesUpdate(s, cs, AllMotors(l), fs, sine, 0);
    QueueStaysFinite(l, queue, acts, fs, sine);
    var before := Reached(s, acts, fs, sine);
    drain := R.DrainExists(before.queue, now);
    AroundMainTunes(before, drain, noise, AllMotors(l), fs, sine);
    RunsConcat(s, acts, AroundMain(drain, noise), fs, sine);
  }

  /** Why landing is what counts. From the start, and whatever the clock does, some run ends
    with a rotation of a value above 0.1 and every rotated engine has stopped sweeping; and
    some run ends with a rotation of a value at or below 0.1 and every one sweeps. The
    rotation is in a tuning cycle around a main cycle, and does not land. */
  lemma RotationsNotLanded<E>(l: Loaded, queue: R.Queue<E>, clock: nat -> int, now: int, noise: nat -> real,
                              fs: NetFunctions, sine: real -> real)
    returns (high: seq<Action<E>>, low: seq<Action<E>>, dh: seq<R.Event<E>>, dl: seq<R.Event<E>>)
    requires Start(l, queue)
    ensures Runs(Initial(l, queue), high, fs, sine) && Runs(Initial(l, queue), high + AroundMain(dh, noise), fs, sine)
    ensures Runs(Initial(l, queue), low, fs, sine) && Runs(Initial(l, queue), low + AroundMain(dl, noise), fs, sine)
    ensures forall e :: e in AllMotors(l) && KindOf(fs, e) == Rotate ==>
              var before := Reached(Initial(l, queue), high, fs, sine);
              var after := Reached(Initial(l, queue), high + AroundMain(dh, noise), fs, sine);
              e in before.engines && before.engines[e] > 0.1 && SweepLost(after, e)
    ensures forall e :: e in AllMotors(l) && KindOf(fs, e) == Rotate ==>
              var before := Reached(Initial(l, queue), low, fs, sine);
              var after := Reached(Initial(l, queue), low + AroundMain(dl, noise), fs, sine);
              e in before.engines && before.engines[e] <= 0.1 && SweepHad(after, e)
  {
    var top, n := SweepsForEver(FRESH, 0);
    high, dh := UpdatesThenAroundMain(l, queue, Interrupted(n, Net(Leave, 0), 0), clock, now, noise, fs, sine);
    low, dl := UpdatesThenAroundMain(l, queue, Tunes(n), clock, now, noise, fs, sine);
    InterruptedKind(n, Rotate, 0, 0);
    InterruptedIs(FRESH, n, Net(Rotate, 0), 0, sine);
    assert AllWithKind(Tunes(n), Rotate) == Tunes(n);
    TunesTune(FRESH, n, sine);
    TuningKeepsFree(FRESH, n);
    SweepsIfFree(Tuned(Engine(false, 1.0)));
    SweepsIfFree(Tuned(TunedTimes(FRESH, n)));
  }

  ghost predicate SweepHad<E>(s: System<E>, e: nat) {
    e in s.engines && e in s.hash && Sweeps(EngineOf(s, e))
  }

  ghost predicate SweepLost<E>(s: System<E>, e: nat) {
    e in s.engines && e in s.hash && !Sweeps(EngineOf(s, e))
  }
}
