/** The control loop that tunes the engines (execute_auto_tune_function in
  app/TasksFromConfig.cpp, Bend and Rotate in app/NetFunctionFactory.h). Floats are reals;
  the sine is any function with the bounds stated below. */
module Tuning {

  /** One engine: the direction in inc_dec_hash and the value in the database. */
  datatype Engine = Engine(inc: bool, value: real)

  function Tuned(e: Engine): Engine {
    if e.value < 0.99 && e.value > 0.01 then
      e.(value := if e.inc then e.value * 1.01 else e.value * 0.99)
    else Engine(!e.inc, if e.inc then e.value - 0.01 else e.value + 0.01)
  }

  function Bent(f: real): real {
    if f < 0.9 then f * 1.05 else f / 2.0
  }

  function Rotated(f: real, sine: real -> real): real {
    if f > 0.1 then sine(f) else 1.0
  }

  /** Bounds of the sine on the part of the band where Rotate uses it. */
  ghost predicate SineBounds(sine: real -> real) {
    forall x :: 0.1 < x <= 1.01 ==> 0.0998 < sine(x) < 0.99
  }

  /** What the net functions make of a value; an engine may have none. */
  datatype NetKind = Leave | Bend | Rotate

  function NetResult(kind: NetKind, v: real, sine: real -> real): real {
    match kind
    case Leave => v
    case Bend => Bent(v)
    case Rotate => Rotated(v, sine)
  }

  function TunedTimes(e: Engine, n: nat): Engine
    decreases n
  {
    if n == 0 then e else TunedTimes(Tuned(e), n - 1)
  }

  /** Another task reads the value before k tuning cycles and writes `written` after them:
    the cycles keep their effect on the direction and lose the one on the value. */
  function Overwritten(e: Engine, k: nat, written: real): Engine {
    Engine(TunedTimes(e, k).inc, written)
  }

  /** A whole tuning cycle, or a cycle of the main task around some tuning cycles; around
    none, it is a whole cycle too. */
  datatype Update = Tune | Net(kind: NetKind, around: nat)

  function Updated(e: Engine, u: Update, sine: real -> real): Engine {
    match u
    case Tune => Tuned(e)
    case Net(kind, k) => Overwritten(e, k, NetResult(kind, e.value, sine))
  }

  function AllUpdated(e: Engine, us: seq<Update>, sine: real -> real): Engine
    decreases |us|
  {
    if us == [] then e else AllUpdated(Updated(e, us[0], sine), us[1..], sine)
  }

  lemma {:induction false} AllUpdatedAppend(e: Engine, us: seq<Update>, more: seq<Update>, sine: real -> real)
    ensures AllUpdated(e, us + more, sine) == AllUpdated(AllUpdated(e, us, sine), more, sine)
    decreases |us|
  {
    if us == [] {
      assert us + more == more;
    } else {
      assert (us + more)[1..] == us[1..] + more;
      AllUpdatedAppend(Updated(e, us[0], sine), us[1..], more, sine);
    }
  }

  lemma LastUpdated(e: Engine, us: seq<Update>, u: Update, sine: real -> real)
    ensures AllUpdated(e, us + [u], sine) == Updated(AllUpdated(e, us, sine), u, sine)
  {
    AllUpdatedAppend(e, us, [u], sine);
    assert [u][1..] == [];
  }

  const FRESH := Engine(true, 0.5)

  // ---------- The band ----------

  predicate Band(e: Engine) {
    && 0.0099 < e.value <= 1.01
    && (e.inc ==> e.value > 0.01)
    && (!e.inc ==> e.value <= 1.0)
  }

  /** The tighter band of an engine that is never rotated. */
  predicate NarrowBand(e: Engine) {
    Band(e) && e.value < if e.inc then 0.9999 else 0.99
  }

  /** The update does not write back an old value as it is. */
  predicate Harmless(u: Update) {
    u.Net? && u.kind == Leave ==> u.around == 0
  }

  predicate AllHarmless(us: seq<Update>) {
    forall i :: 0 <= i < |us| ==> Harmless(us[i])
  }

  /** Whole updates, and those around tuning cycles that have a function to apply, keep an
    engine in the band, in any order and number. */
  lemma {:induction false} BandIsKept(e: Engine, us: seq<Update>, sine: real -> real)
    requires Band(e) && SineBounds(sine) && AllHarmless(us)
    ensures Band(AllUpdated(e, us, sine))
    decreases |us|
  {
    if us != [] {
      assert Harmless(us[0]);
      BandIsKept(Updated(e, us[0], sine), us[1..], sine);
    }
  }

  lemma {:induction false} NarrowBandIsKept(e: Engine, us: seq<Update>, sine: real -> real)
    requires NarrowBand(e) && AllHarmless(us)
    requires forall i :: 0 <= i < |us| && us[i].Net? ==> us[i].kind != Rotate
    ensures NarrowBand(AllUpdated(e, us, sine))
    decreases |us|
  {
    if us != [] {
      assert Harmless(us[0]);
      NarrowBandIsKept(Updated(e, us[0], sine), us[1..], sine);
    }
  }

  // ---------- The sweep ----------

  function Pow(b: real, n: nat): real {
    if n == 0 then 1.0 else b * Pow(b, n - 1)
  }

  lemma {:induction false} PowAdd(b: real, m: nat, n: nat)
    ensures Pow(b, m + n) == Pow(b, m) * Pow(b, n)
  {
    if m > 0 {
      PowAdd(b, m - 1, n);
      assert b * (Pow(b, m - 1) * Pow(b, n)) == (b * Pow(b, m - 1)) * Pow(b, n);
    }
  }

  /** Twice as many factors, or one more than that, in numbers. */
  function Square(b: real, odd: bool, x: real): real {
    if odd then x * x * b else x * x
  }

  lemma PowSquare(b: real, n: nat, m: nat)
    requires m == 2 * n || m == 2 * n + 1
    ensures Pow(b, m) == Square(b, m == 2 * n + 1, Pow(b, n))
  {
    PowAdd(b, n, n);
    var p := Pow(b, n);
    assert b * (p * p) == p * p * b;
  }

  lemma SquareMono(b: real, odd: bool, x: real, y: real)
    requires 0.0 <= x <= y && b > 0.0
    ensures 0.0 <= Square(b, odd, x) <= Square(b, odd, y)
  {
    assert x * x <= x * y <= y * y;
    assert x * x * b <= y * y * b;
  }

  lemma AtLeast(b: real, n: nat, m: nat, x: real, y: real)
    requires b > 0.0 && x > 0.0 && Pow(b, n) >= x
    requires m == 2 * n || m == 2 * n + 1
    requires y <= Square(b, m == 2 * n + 1, x)
    ensures Pow(b, m) >= y
  {
    PowSquare(b, n, m);
    SquareMono(b, m == 2 * n + 1, x, Pow(b, n));
  }

  lemma AtMost(b: real, n: nat, m: nat, x: real, y: real)
    requires b > 0.0 && 0.0 <= Pow(b, n) <= x
    requires m == 2 * n || m == 2 * n + 1
    requires Square(b, m == 2 * n + 1, x) <= y
    ensures 0.0 <= Pow(b, m) <= y
  {
    PowSquare(b, n, m);
    SquareMono(b, m == 2 * n + 1, Pow(b, n), x);
  }

  lemma PowOne(b: real)
    ensures Pow(b, 1) == b
  {
    assert Pow(b, 1) == b * Pow(b, 0);
  }

  lemma GrowthFactor()
    ensures Pow(1.01, 462) >= 99.0
  {
    PowOne(1.01);
    AtLeast(1.01, 1, 3, 1.01, 1.030301);
    AtLeast(1.01, 3, 7, 1.030301, 1.07213535);
    AtLeast(1.01, 7, 14, 1.07213535, 1.14947420);
    AtLeast(1.01, 14, 28, 1.14947420, 1.32129093);
    AtLeast(1.01, 28, 57, 1.32129093, 1.76326781);
    AtLeast(1.01, 57, 115, 1.76326781, 3.14020450);
    AtLeast(1.01, 115, 231, 3.14020450, 9.95949314);
    AtLeast(1.01, 231, 462, 9.95949314, 99.0);
  }

  lemma DecayFactor()
    ensures 0.0 <= Pow(0.99, 459) <= 0.01
  {
    PowOne(0.99);
    AtMost(0.99, 1, 3, 0.99, 0.970299);
    AtMost(0.99, 3, 7, 0.970299, 0.93206535);
    AtMost(0.99, 7, 14, 0.93206535, 0.86874582);
    AtMost(0.99, 14, 28, 0.86874582, 0.75471930);
    AtMost(0.99, 28, 57, 0.75471930, 0.56390521);
    AtMost(0.99, 57, 114, 0.56390521, 0.31798909);
    AtMost(0.99, 114, 229, 0.31798909, 0.10010590);
    AtMost(0.99, 229, 459, 0.10010590, 0.01);
  }

  lemma SlowGrowth()
    ensures 0.0 <= Pow(1.01, 390) <= 48.5
  {
    PowOne(1.01);
    AtMost(1.01, 1, 3, 1.01, 1.030301);
    AtMost(1.01, 3, 6, 1.030301, 1.06152016);
    AtMost(1.01, 6, 12, 1.06152016, 1.12682506);
    AtMost(1.01, 12, 24, 1.12682506, 1.26973472);
    AtMost(1.01, 24, 48, 1.26973472, 1.61222626);
    AtMost(1.01, 48, 97, 1.61222626, 2.62526625);
    AtMost(1.01, 97, 195, 2.62526625, 6.96094312);
    AtMost(1.01, 195, 390, 6.96094312, 48.5);
  }

  lemma SlowDecay()
    ensures Pow(0.99, 390) >= 0.019
  {
    PowOne(0.99);
    AtLeast(0.99, 1, 3, 0.99, 0.970299);
    AtLeast(0.99, 3, 6, 0.970299, 0.94148014);
    AtLeast(0.99, 6, 12, 0.94148014, 0.88638485);
    AtLeast(0.99, 12, 24, 0.88638485, 0.7856781);
    AtLeast(0.99, 24, 48, 0.7856781, 0.61729007);
    AtLeast(0.99, 48, 97, 0.61729007, 0.37723656);
    AtLeast(0.99, 97, 195, 0.37723656, 0.14088434);
    AtLeast(0.99, 195, 390, 0.14088434, 0.019);
  }

  ghost predicate SameDirection(e: Engine, n: nat) {
    forall i: nat :: i <= n ==> TunedTimes(e, i).inc == e.inc
  }

  lemma SameDirectionMore(e: Engine, n: nat)
    requires Tuned(e).inc == e.inc && SameDirection(Tuned(e), n)
    ensures SameDirection(e, n + 1)
  {
    forall i: nat | i <= n + 1 ensures TunedTimes(e, i).inc == e.inc {
      assert i > 0 ==> TunedTimes(e, i) == TunedTimes(Tuned(e), i - 1);
    }
  }

  /** For n cycles the direction of tuning is still the first one; by then the value has come
    to the end of the band on that side, and the next cycle turns. */
  ghost predicate AtTheEnd(e: Engine, n: nat) {
    var last := TunedTimes(e, n);
    && SameDirection(e, n)
    && (if e.inc then last.value >= 0.99 else last.value <= 0.01)
    && Tuned(last).inc != e.inc
  }

  lemma {:induction false} Climb(e: Engine, k: nat) returns (n: nat)
    requires e.inc && e.value > 0.01 && e.value * Pow(1.01, k) >= 0.99
    ensures n <= k && AtTheEnd(e, n)
    decreases k
  {
    if e.value >= 0.99 {
      n := 0;
    } else {
      assert e.value * Pow(1.01, k) == Tuned(e).value * Pow(1.01, k - 1);
      n := Climb(Tuned(e), k - 1);
      SameDirectionMore(e, n);
      n := n + 1;
    }
  }

  lemma {:induction false} Fall(e: Engine, k: nat) returns (n: nat)
    requires !e.inc && 0.0 < e.value < 0.99 && e.value * Pow(0.99, k) <= 0.01
    ensures n <= k && AtTheEnd(e, n)
    decreases k
  {
    if e.value <= 0.01 {
      n := 0;
    } else {
      assert e.value * Pow(0.99, k) == Tuned(e).value * Pow(0.99, k - 1);
      n := Fall(Tuned(e), k - 1);
      SameDirectionMore(e, n);
      n := n + 1;
    }
  }

  /** An engine that is not stuck: neither at or below the bottom of the band going the
    wrong way, nor at or above its top. */
  predicate Free(e: Engine) {
    if e.inc then 0.01 < e.value < 1.0 else 0.0 < e.value < 0.99
  }

  /** From every free state, in the band or not, the engine comes to the end of the band on
    its side and turns within 463 cycles, within 460 when it goes down. */
  lemma TurnsInTime(e: Engine) returns (n: nat)
    requires Free(e)
    ensures n <= (if e.inc then 462 else 459) && AtTheEnd(e, n)
  {
    if e.inc {
      GrowthFactor();
      ProductLow(e.value, Pow(1.01, 462));
      n := Climb(e, 462);
    } else {
      DecayFactor();
      ProductHigh(e.value, Pow(0.99, 459));
      n := Fall(e, 459);
    }
  }

  lemma ProductLow(v: real, p: real)
    requires v > 0.01 && p >= 99.0
    ensures v * p >= 0.99
  {
    assert v * p >= v * 99.0;
  }

  lemma ProductHigh(v: real, p: real)
    requires 0.0 < v < 1.0 && 0.0 <= p <= 0.01
    ensures v * p <= 0.01
  {
    assert v * p <= 1.0 * p;
  }

  lemma {:induction false} TunedTimesAdd(e: Engine, m: nat, n: nat)
    ensures TunedTimes(e, m + n) == TunedTimes(TunedTimes(e, m), n)
    decreases m
  {
    if m > 0 {
      TunedTimesAdd(Tuned(e), m - 1, n);
    }
  }

  lemma {:induction false} TuningKeepsFree(e: Engine, n: nat)
    requires Free(e)
    ensures Free(TunedTimes(e, n))
    decreases n
  {
    if n > 0 {
      TuningKeepsFree(Tuned(e), n - 1);
    }
  }

  ghost predicate TopAt(e: Engine, n: nat) {
    TunedTimes(e, n).inc && TunedTimes(e, n).value >= 0.99
  }

  ghost predicate BottomAt(e: Engine, n: nat) {
    !TunedTimes(e, n).inc && TunedTimes(e, n).value <= 0.01
  }

  /** The sweep goes on for ever: at whatever cycle one looks, the top of the band is
    reached within 923 further cycles, and so is the bottom. */
  lemma SweepsForEver(e: Engine, m: nat) returns (top: nat, bottom: nat)
    requires Free(e)
    ensures m <= top <= m + 923 && TopAt(e, top)
    ensures m <= bottom <= m + 923 && BottomAt(e, bottom)
  {
    var now := TunedTimes(e, m);
    TuningKeepsFree(e, m);
    var n := TurnsInTime(now);
    TunedTimesAdd(e, m, n);
    TuningKeepsFree(now, n + 1);
    TunedTimesAdd(now, n, 1);
    var turned := Tuned(TunedTimes(now, n));
    assert TunedTimes(TunedTimes(now, n), 1) == turned;
    var k := TurnsInTime(turned);
    TunedTimesAdd(e, m, n + 1);
    TunedTimesAdd(e, m + n + 1, k);
    if now.inc {
      top, bottom := m + n, m + n + 1 + k;
    } else {
      bottom, top := m + n, m + n + 1 + k;
    }
  }

  /** An engine that is not free only steps to and fro. */
  lemma {:induction false} StuckForEver(e: Engine, n: nat)
    requires !Free(e)
    ensures TunedTimes(e, n) == if n % 2 == 0 then e else Tuned(e)
    ensures if e.value <= 0.01 then TunedTimes(e, n).value <= 0.01 else TunedTimes(e, n).value >= 0.99
    decreases n
  {
    if n > 0 {
      StuckForEver(Tuned(e), n - 1);
    }
  }

  /** The top of the band is still to come, and so is the bottom. */
  ghost predicate SweepsAfter(e: Engine, m: nat) {
    && (exists n :: m <= n && TopAt(e, n))
    && (exists n :: m <= n && BottomAt(e, n))
  }

  ghost predicate Sweeps(e: Engine) {
    forall m: nat :: SweepsAfter(e, m)
  }

  lemma SweepsIfFree(e: Engine)
    ensures Sweeps(e) <==> Free(e)
  {
    if Free(e) {
      forall m: nat ensures SweepsAfter(e, m) {
        var top, bottom := SweepsForEver(e, m);
      }
    } else if Sweeps(e) {
      assert SweepsAfter(e, 0);
      var top: nat :| TopAt(e, top);
      var bottom: nat :| BottomAt(e, bottom);
      StuckForEver(e, top);
      StuckForEver(e, bottom);
    }
  }

  /** What one update does to the sweep of an engine in the band. Bending brings it back or
    keeps it; rotating keeps it exactly above 0.1, also without any overlap, since a
    smaller value becomes 1, the top of the band. */
  lemma UpdateSweeps(e: Engine, u: Update, sine: real -> real)
    requires Band(e) && SineBounds(sine) && Harmless(u)
    ensures Band(Updated(e, u, sine))
    ensures Sweeps(Updated(e, u, sine)) <==>
            if u.Tune? || u.kind == Leave then Sweeps(e) else u.kind == Bend || e.value > 0.1
  {
    SweepsIfFree(e);
    SweepsIfFree(Updated(e, u, sine));
  }

  /** The last update that applies a net function. */
  predicate LastNet(us: seq<Update>, i: nat) {
    i < |us| && Applies(us[i]) && forall j :: i < j < |us| ==> !Applies(us[j])
  }

  predicate Applies(u: Update) {
    u.Net? && u.kind != Leave
  }

  /** The last net function was not a rotation at or below 0.1; without any, the engine swept
    at the start. */
  ghost predicate SweepSurvives(e: Engine, us: seq<Update>, sine: real -> real) {
    && (forall i: nat :: LastNet(us, i) ==> us[i].kind == Bend || AllUpdated(e, us[..i], sine).value > 0.1)
    && ((forall i :: 0 <= i < |us| ==> !Applies(us[i])) ==> Sweeps(e))
  }

  /** The sweep over any number of updates. */
  lemma {:induction false} UpdatesSweep(e: Engine, us: seq<Update>, sine: real -> real)
    requires Band(e) && SineBounds(sine) && AllHarmless(us)
    ensures Sweeps(AllUpdated(e, us, sine)) <==> SweepSurvives(e, us, sine)
    decreases |us|
  {
    if us != [] {
      var n := |us| - 1;
      var init, u := us[..n], us[n];
      assert us == init + [u] && Harmless(u);
      LastUpdated(e, init, u, sine);
      BandIsKept(e, init, sine);
      UpdateSweeps(AllUpdated(e, init, sine), u, sine);
      if Applies(u) {
        assert forall i: nat :: LastNet(us, i) <==> i == n;
      } else {
        UpdatesSweep(e, init, sine);
        SurvivesMore(e, init, u, sine);
      }
    }
  }

  lemma SurvivesMore(e: Engine, init: seq<Update>, u: Update, sine: real -> real)
    requires !Applies(u)
    ensures SweepSurvives(e, init + [u], sine) <==> SweepSurvives(e, init, sine)
  {
    var us := init + [u];
    assert us[|init|] == u && forall j :: 0 <= j < |init| ==> us[j] == init[j];
    forall i: nat ensures LastNet(us, i) <==> LastNet(init, i) {
    }
    forall i: nat | i < |init| ensures us[..i] == init[..i] && us[i] == init[i] {
    }
    assert (forall i :: 0 <= i < |us| ==> !Applies(us[i])) <==> forall i :: 0 <= i < |init| ==> !Applies(init[i]);
  }

  // ---------- Orbits in numbers ----------

  /** The first sweep up: from 0.5 by 1.01 a cycle, to the first value at or above 0.99, then a
    hundredth down and on by 0.99 a cycle. */
  lemma FirstClimb(n: nat)
    ensures n <= 69 ==> TunedTimes(FRESH, n) == Engine(true, 0.5 * Pow(1.01, n))
    ensures n < 69 ==> 0.5 * Pow(1.01, n) < 0.99
    ensures var top := 0.5 * Pow(1.01, 69);
            && top >= 0.99
            && TunedTimes(FRESH, 70) == Engine(false, top - 0.01)
            && TunedTimes(FRESH, 71) == Engine(false, 0.99 * (top - 0.01))
  {
    ClimbFactor();
    if n <= 69 {
      ClimbsFromHalf(n);
    }
    if n < 69 {
      PowMono(n, 68);
    }
    ClimbsFromHalf(69);
    TunedLast(FRESH, 69);
    TunedLast(FRESH, 70);
  }

  lemma ClimbsFromHalf(n: nat)
    requires n <= 69 && Pow(1.01, 68) < 1.98
    ensures TunedTimes(FRESH, n) == Engine(true, 0.5 * Pow(1.01, n))
  {
    ScaledIs(0.5, 1.01, 68);
    Climbs(FRESH, n, 68);
    ScaledIs(0.5, 1.01, n);
  }

  lemma TunedLast(e: Engine, n: nat)
    ensures TunedTimes(e, n + 1) == Tuned(TunedTimes(e, n))
  {
    TunedTimesAdd(e, n, 1);
    assert TunedTimes(TunedTimes(e, n), 1) == TunedTimes(Tuned(TunedTimes(e, n)), 0);
  }

  lemma ClimbFactor()
    ensures Pow(1.01, 68) < 1.98 <= Pow(1.01, 69) < 2.0
  {
    PowOne(1.01);
    AtMost(1.01, 1, 2, 1.01, 1.0201);
    AtMost(1.01, 2, 4, 1.0201, 1.0406041);
    AtMost(1.01, 4, 8, 1.0406041, 1.0828569);
    AtMost(1.01, 8, 17, 1.0828569, 1.1843049);
    AtMost(1.01, 17, 34, 1.1843049, 1.4025781);
    AtMost(1.01, 34, 68, 1.4025781, 1.9672254);
    AtMost(1.01, 34, 69, 1.4025781, 1.9868977);
    AtLeast(1.01, 1, 2, 1.01, 1.0201);
    AtLeast(1.01, 2, 4, 1.0201, 1.040604);
    AtLeast(1.01, 4, 8, 1.040604, 1.0828566);
    AtLeast(1.01, 8, 17, 1.0828566, 1.184304);
    AtLeast(1.01, 17, 34, 1.184304, 1.4025759);
    AtLeast(1.01, 34, 69, 1.4025759, 1.98);
  }

  lemma {:induction false} PowMono(m: nat, n: nat)
    requires m <= n
    ensures 1.0 <= Pow(1.01, m) && (n > m ==> Pow(1.01, m) < Pow(1.01, n))
    decreases n
  {
    if m < n {
      PowMono(m, n - 1);
    } else if m > 0 {
      PowMono(m - 1, m - 1);
    }
  }

  lemma {:induction false} Climbs(e: Engine, n: nat, k: nat)
    requires e.inc && e.value > 0.01 && Scaled(e.value, 1.01, k) < 0.99 && n <= k + 1
    ensures TunedTimes(e, n) == Engine(true, Scaled(e.value, 1.01, n))
    decreases n
  {
    ScaledMoves(e.value, k);
    if n == 1 {
      assert TunedTimes(e, 1) == TunedTimes(Tuned(e), 0);
      assert Scaled(e.value, 1.01, 1) == Scaled(e.value * 1.01, 1.01, 0);
    } else if n > 1 {
      Climbs(Tuned(e), n - 1, k - 1);
    }
  }

  function BentTimes(v: real, n: nat): real {
    if n == 0 then v else Bent(BentTimes(v, n - 1))
  }

  function Grown(v: real, n: nat): real {
    v * Pow(1.05, n)
  }

  lemma GrowsMore(v: real, n: nat)
    requires v > 0.0
    ensures 0.0 < Grown(v, n) && Grown(v, n + 1) == Grown(v, n) * 1.05 && Grown(v, 0) == v
  {
    GrowsUpTo(n, n);
    var p := Pow(1.05, n);
    assert v * (1.05 * p) == v * p * 1.05 && v * p > 0.0;
    assert Pow(1.05, 0) == 1.0;
  }

  /** As long as a positive value is below 0.9 each bend makes it grow by 1.05; the first one
    that finds it at or above 0.9 halves it. */
  lemma {:induction false} BendOrbit(v: real, n: nat)
    requires v > 0.0 && (n > 0 ==> Grown(v, n - 1) < 0.9)
    ensures BentTimes(v, n) == Grown(v, n)
    ensures BentTimes(v, n + 1) == if Grown(v, n) < 0.9 then Grown(v, n + 1) else Grown(v, n) / 2.0
  {
    if n > 0 {
      if n > 1 {
        GrowsMore(v, n - 2);
      }
      BendOrbit(v, n - 1);
    }
    GrowsMore(v, n);
  }

  /** From 0.5 there are thirteen such bends before the one that halves the value. */
  lemma BendsFromHalf()
    ensures 0.5 * Pow(1.05, 12) < 0.9 <= 0.5 * Pow(1.05, 13)
    ensures BentTimes(0.5, 13) == 0.5 * Pow(1.05, 13) && BentTimes(0.5, 14) == 0.25 * Pow(1.05, 13)
  {
    BendFactor();
    BendOrbit(0.5, 13);
  }

  lemma BendFactor()
    ensures Pow(1.05, 12) < 1.8 <= Pow(1.05, 13)
  {
    PowOne(1.05);
    AtMost(1.05, 1, 3, 1.05, 1.157625);
    AtMost(1.05, 3, 6, 1.157625, 1.3400957);
    AtMost(1.05, 6, 12, 1.3400957, 1.7958565);
    AtLeast(1.05, 1, 3, 1.05, 1.157625);
    AtLeast(1.05, 3, 6, 1.157625, 1.3400956);
    AtLeast(1.05, 6, 13, 1.3400956, 1.8);
  }

  lemma {:induction false} GrowsUpTo(m: nat, n: nat)
    requires m <= n
    ensures 1.0 <= Pow(1.05, m) <= Pow(1.05, n)
    decreases n
  {
    if m < n {
      GrowsUpTo(m, n - 1);
    } else if m > 0 {
      GrowsUpTo(m - 1, m - 1);
    }
  }

  /** A rotation takes the sine of the engine's own value: for two values above 0.1 the results
    agree for every sine only if the values do. Any other value becomes 1. */
  lemma RotationReadsValue(v: real, w: real)
    requires v > 0.1 && w > 0.1
    ensures (forall sine :: SineBounds(sine) ==> Rotated(v, sine) == Rotated(w, sine)) <==> v == w
    ensures forall u, sine :: u <= 0.1 ==> Rotated(u, sine) == 1.0
  {
    var apart := (x: real) => if x == v then 0.5 else 0.6;
    assert SineBounds(apart);
    assert v != w ==> Rotated(v, apart) != Rotated(w, apart);
  }

  // ---------- Lost updates ----------

  /** The value comes back as it was read, around one tuning cycle. The engine stays in the
    band exactly when it was not turned down above 1 or up at or below 0.01. It goes on
    sweeping exactly when the cycle did not turn it, or freed it by turning it: an engine
    that swept before loses the sweep at every lost turn. */
  lemma LostUpdate(e: Engine)
    ensures var r, v := Overwritten(e, 1, e.value), e.value;
            && (Band(e) ==> (Band(r) <==> if e.inc then v <= 1.0 else v > 0.01))
            && (Sweeps(r) <==> 0.01 < v < 0.99 || (if e.inc then 0.0 < v <= 0.01 else 0.99 <= v < 1.0))
            && (Sweeps(e) ==> (Sweeps(r) <==> Tuned(e).inc == e.inc))
  {
    assert TunedTimes(e, 1) == TunedTimes(Tuned(e), 0);
    SweepsIfFree(e);
    SweepsIfFree(Overwritten(e, 1, e.value));
  }

  predicate Inside(e: Engine) {
    0.01 < e.value < 0.99
  }

  /** How many of the next k cycles find the value at an end. */
  function Turns(e: Engine, k: nat): nat
    decreases k
  {
    if k == 0 then 0 else (if Inside(e) then 0 else 1) + Turns(Tuned(e), k - 1)
  }

  lemma {:induction false} TurnsTurn(e: Engine, k: nat)
    ensures TunedTimes(e, k).inc == if Turns(e, k) % 2 == 0 then e.inc else !e.inc
    decreases k
  {
    if k > 0 {
      TurnsTurn(Tuned(e), k - 1);
    }
  }

  /** The same around any number of cycles: what counts is whether the cycles turned the
    engine an odd number of times. */
  lemma LostUpdates(e: Engine, k: nat)
    ensures var r, v, turned := Overwritten(e, k, e.value), e.value, Turns(e, k) % 2 == 1;
            && (Band(e) ==> (Band(r) <==> if v > 1.0 then k % 2 == 0 else v > 0.01 || !turned))
            && (Sweeps(e) ==> (Sweeps(r) <==> !turned || Inside(e)))
            && (!Sweeps(e) ==> (Sweeps(r) <==>
                                k % 2 == 1 && if e.inc then 0.0 < v <= 0.01 else 0.99 <= v < 1.0))
  {
    SweepsIfFree(e);
    SweepsIfFree(Overwritten(e, k, e.value));
    TurnsTurn(e, k);
    if !Free(e) {
      StuckForEver(e, k);
    }
  }

  /** How long that lasts for an engine that sweeps: read at an end of the band, it has
    turned after one cycle, and the next turn comes 390 to 462 cycles after that. Around
    any number of cycles up to there the sweep is lost, around one more it is not. */
  lemma LostFor(e: Engine) returns (n: nat)
    requires Sweeps(e) && !Inside(e)
    ensures 390 <= n <= 462
    ensures forall k :: 1 <= k <= n + 1 ==> !Sweeps(Overwritten(e, k, e.value))
    ensures Sweeps(Overwritten(e, n + 2, e.value))
  {
    SweepsIfFree(e);
    var t := Tuned(e);
    n := TurnsInTime(t);
    NotBefore(t, n);
    forall k | 1 <= k <= n + 2
      ensures Sweeps(Overwritten(e, k, e.value)) <==> TunedTimes(e, k).inc == e.inc
    {
      LostUpdates(e, k);
      TurnsTurn(e, k);
    }
    forall k | 1 <= k <= n + 1 ensures TunedTimes(e, k).inc != e.inc {
      assert TunedTimes(e, k) == TunedTimes(t, k - 1);
    }
    TunedTimesAdd(t, n, 1);
    assert TunedTimes(TunedTimes(t, n), 1) == TunedTimes(Tuned(TunedTimes(t, n)), 0);
    assert TunedTimes(e, n + 2) == TunedTimes(t, n + 1);
  }

  /** Just turned at one end, an engine takes 390 cycles to the other. */
  lemma NotBefore(e: Engine, n: nat)
    requires if e.inc then 0.01 < e.value <= 0.02 else 0.98 <= e.value < 0.99
    requires AtTheEnd(e, n)
    ensures n >= 390
  {
    if n < 390 {
      if e.inc {
        SlowGrowth();
        ScaledBelow(e.value, 1.01, 390);
        StillClimbing(e, 390, n);
      } else {
        SlowDecay();
        ScaledAbove(e.value, 0.99, 390);
        StillFalling(e, 390, n);
      }
    }
  }

  /** The value after k factors. */
  function Scaled(v: real, b: real, k: nat): real
    decreases k
  {
    if k == 0 then v else Scaled(v * b, b, k - 1)
  }

  lemma {:induction false} ScaledIs(v: real, b: real, k: nat)
    ensures Scaled(v, b, k) == v * Pow(b, k)
    decreases k
  {
    if k > 0 {
      ScaledIs(v * b, b, k - 1);
      var p := Pow(b, k - 1);
      assert v * (b * p) == (v * b) * p;
    }
  }

  lemma ScaledBelow(v: real, b: real, k: nat)
    requires 0.0 < v <= 0.02 && 0.0 <= Pow(b, k) <= 48.5
    ensures Scaled(v, b, k) < 0.99
  {
    ScaledIs(v, b, k);
    assert v * Pow(b, k) <= 0.02 * Pow(b, k);
  }

  lemma ScaledAbove(v: real, b: real, k: nat)
    requires v >= 0.98 && Pow(b, k) >= 0.019
    ensures Scaled(v, b, k) > 0.01
  {
    ScaledIs(v, b, k);
    assert v * Pow(b, k) >= 0.98 * Pow(b, k);
  }

  lemma {:induction false} ScaledMoves(v: real, k: nat)
    requires v > 0.0
    ensures Scaled(v, 1.01, k) >= v && 0.0 < Scaled(v, 0.99, k) <= v
    decreases k
  {
    if k > 0 {
      ScaledMoves(v * 1.01, k - 1);
      ScaledMoves(v * 0.99, k - 1);
    }
  }

  lemma {:induction false} StillClimbing(e: Engine, k: nat, n: nat)
    requires e.inc && e.value > 0.01 && Scaled(e.value, 1.01, k) < 0.99 && n <= k
    ensures TunedTimes(e, n).value < 0.99
    decreases n
  {
    ScaledMoves(e.value, k);
    if n > 0 {
      StillClimbing(Tuned(e), k - 1, n - 1);
    }
  }

  lemma {:induction false} StillFalling(e: Engine, k: nat, n: nat)
    requires !e.inc && 0.0 < e.value < 0.99 && Scaled(e.value, 0.99, k) > 0.01 && n <= k
    ensures TunedTimes(e, n).value > 0.01
    decreases n
  {
    ScaledMoves(e.value, k);
    if n > 0 {
      StillFalling(Tuned(e), k - 1, n - 1);
    }
  }

  // ---------- Ways out of the sweep ----------

  function Tunes(n: nat): seq<Update> {
    seq(n, i => Tune)
  }

  lemma {:induction false} TunesTune(e: Engine, n: nat, sine: real -> real)
    ensures AllUpdated(e, Tunes(n), sine) == TunedTimes(e, n)
    decreases n
  {
    if n > 0 {
      assert Tunes(n)[1..] == Tunes(n - 1);
      TunesTune(Tuned(e), n - 1, sine);
    }
  }

  /** n whole cycles, an update, m whole cycles. */
  function Interrupted(n: nat, u: Update, m: nat): seq<Update> {
    Tunes(n) + [u] + Tunes(m)
  }

  lemma InterruptedIs(e: Engine, n: nat, u: Update, m: nat, sine: real -> real)
    ensures AllUpdated(e, Interrupted(n, u, m), sine) == TunedTimes(Updated(TunedTimes(e, n), u, sine), m)
  {
    TunesTune(e, n, sine);
    LastUpdated(e, Tunes(n), u, sine);
    AllUpdatedAppend(e, Tunes(n) + [u], Tunes(m), sine);
    TunesTune(Updated(TunedTimes(e, n), u, sine), m, sine);
  }

  /** A lost turn sticks at its end. */
  lemma LostTurnSticks(e: Engine, n: nat, m: nat, sine: real -> real)
    ensures TopAt(e, n) ==> AllUpdated(e, Interrupted(n, Net(Leave, 1), m), sine).value >= 0.99
    ensures BottomAt(e, n) ==> AllUpdated(e, Interrupted(n, Net(Leave, 1), m), sine).value <= 0.01
  {
    var turning := TunedTimes(e, n);
    assert TunedTimes(turning, 1) == TunedTimes(Tuned(turning), 0);
    InterruptedIs(e, n, Net(Leave, 1), m, sine);
    if TopAt(e, n) || BottomAt(e, n) {
      StuckForEver(Overwritten(turning, 1, turning.value), m);
    }
  }

  /** A whole rotation at the bottom of the sweep sticks at the top. */
  lemma RotationSticks(e: Engine, n: nat, m: nat, sine: real -> real)
    requires BottomAt(e, n)
    ensures !Sweeps(Updated(TunedTimes(e, n), Net(Rotate, 0), sine))
    ensures AllUpdated(e, Interrupted(n, Net(Rotate, 0), m), sine).value >= 0.99
  {
    var rotated := Engine(false, 1.0);
    assert Updated(TunedTimes(e, n), Net(Rotate, 0), sine) == rotated;
    SweepsIfFree(rotated);
    InterruptedIs(e, n, Net(Rotate, 0), m, sine);
    StuckForEver(rotated, m);
  }

  /** An overlap and a whole cycle, n times over. */
  function Rounds(n: nat): seq<Update> {
    if n == 0 then [] else [Net(Leave, 1)] + ([Tune] + Rounds(n - 1))
  }

  function Hundredths(n: nat): real {
    0.01 * n as real
  }

  /** At the end of the band every such round takes the value another hundredth outwards:
    upwards at the top, downwards at the bottom. */
  lemma {:induction false} RoundsDrift(e: Engine, n: nat, sine: real -> real)
    requires if e.inc then e.value >= 0.99 else e.value <= 0.01
    ensures AllUpdated(e, Rounds(n), sine) ==
            e.(value := if e.inc then e.value + Hundredths(n) else e.value - Hundredths(n))
    decreases n
  {
    if n > 0 {
      var overlapped := Updated(e, Net(Leave, 1), sine);
      assert TunedTimes(e, 1) == TunedTimes(Tuned(e), 0);
      assert Rounds(n)[1..] == [Tune] + Rounds(n - 1);
      assert ([Tune] + Rounds(n - 1))[1..] == Rounds(n - 1);
      RoundsDrift(Tuned(overlapped), n - 1, sine);
      assert n as real == (n - 1) as real + 1.0;
    }
  }

  /** Overlaps take a value out of every bound, upwards and downwards. */
  lemma Escapes(bound: real, sine: real -> real) returns (up: seq<Update>, down: seq<Update>)
    ensures AllLeave(up) && AllUpdated(FRESH, up, sine).value > bound
    ensures AllLeave(down) && AllUpdated(FRESH, down, sine).value < -bound
  {
    var top, bottom := SweepsForEver(FRESH, 0);
    var n := Exceeds(bound);
    up, down := Tunes(top) + Rounds(n), Tunes(bottom) + Rounds(n);
    RoundsLeave(n);
    TunesTune(FRESH, top, sine);
    TunesTune(FRESH, bottom, sine);
    AllUpdatedAppend(FRESH, Tunes(top), Rounds(n), sine);
    AllUpdatedAppend(FRESH, Tunes(bottom), Rounds(n), sine);
    RoundsDrift(TunedTimes(FRESH, top), n, sine);
    RoundsDrift(TunedTimes(FRESH, bottom), n, sine);
  }

  /** The updates of an engine without a net function. */
  predicate AllLeave(us: seq<Update>) {
    forall i :: 0 <= i < |us| && us[i].Net? ==> us[i].kind == Leave
  }

  lemma {:induction false} RoundsLeave(n: nat)
    ensures AllLeave(Rounds(n))
  {
    if n > 0 {
      RoundsLeave(n - 1);
    }
  }

  lemma Exceeds(bound: real) returns (n: nat)
    ensures Hundredths(n) > bound + 0.01
  {
    n := if bound < 0.0 then 2 else 100 * (bound.Floor + 2);
  }

  // ---------- The callback ----------

  datatype Result = Returned(value: real) | OutOfRange

  /** execute_auto_tune_function with the map it shares; `at` throws for a missing engine. */
  class AutoTuner {
    var incDec: map<nat, bool>

    constructor (engines: set<nat>)
      ensures incDec == map e | e in engines :: true
    {
      incDec := map e | e in engines :: true;
    }

    method Execute(engine: nat, value: real) returns (r: Result)
      modifies this
      ensures r.OutOfRange? <==> engine !in old(incDec)
      ensures r.OutOfRange? ==> incDec == old(incDec)
      ensures r.Returned? ==>
                var e := Tuned(Engine(old(incDec)[engine], value));
                r.value == e.value && incDec == old(incDec)[engine := e.inc]
    {
      if engine !in incDec {
        return OutOfRange;
      }
      if value < 0.99 && value > 0.01 {
        if incDec[engine] {
          r := Returned(value * 1.01);
        } else {
          r := Returned(value * 0.99);
        }
        assert incDec[engine := incDec[engine]] == incDec;
      } else {
        if incDec[engine] {
          r := Returned(value - 0.01);
        } else {
          r := Returned(value + 0.01);
        }
        incDec := incDec[engine := !incDec[engine]];
      }
    }
  }
}
