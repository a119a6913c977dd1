/** The element of the rescheduling queue (app/utils/PriorityQueueElement.h).

  An element is a shared object updated in place, so it is a class. ElementState is the
  value of its fields at one moment; the functions on it specify the class's methods,
  and the lemmas say what any number of firings does to an element.
  Times are nanoseconds of the steady clock; values are reals. */
module PriorityQueueElements {
  import opened Uint32

  datatype ElementState = ElementState(
    targets: seq<int>,
    occurrences: int,
    values: seq<real>,
    deltas: seq<real>,
    invokationDelta: nat,
    idx: nat,
    next: int)

  const NANOS_PER_MILLI := 1_000_000

  // ---------- The clock ----------

  /** static_cast<int> on an unsigned 64-bit count: the low 32 bits, two's complement. */
  function ToInt32(x: nat): (r: int)
    ensures -0x8000_0000 <= r < 0x8000_0000 && (x - r) % TWO_32 == 0
    ensures r == x <==> x < 0x8000_0000
    ensures r <= 0 <==> x % TWO_32 == 0 || x % TWO_32 >= 0x8000_0000
  {
    var low := x % TWO_32;
    if low < 0x8000_0000 then low else low - TWO_32
  }

  /** The clock cast to milliseconds. Durations are cast by division, which rounds
    towards zero, so a reading from before the clock's epoch moves forward. */
  function TruncateToMillis(now: int): (ns: int)
    ensures ns % NANOS_PER_MILLI == 0
    ensures 0 <= now ==> now - NANOS_PER_MILLI < ns <= now
    ensures now <= 0 ==> now <= ns < now + NANOS_PER_MILLI
  {
    if 0 <= now then now / NANOS_PER_MILLI * NANOS_PER_MILLI
    else -((-now) / NANOS_PER_MILLI * NANOS_PER_MILLI)
  }

  /** The guard that lets an element leave the queue. */
  predicate Due(now: int, next: int) {
    TruncateToMillis(now) > next
  }

  /** The m-th whole millisecond of the clock. */
  function Milli(m: int): int {
    m * 1_000_000
  }

  /** A whole millisecond lies after `at` and has come: it is not after the reading or, before
    the epoch, is the next one after it. */
  ghost predicate Passed(now: int, at: int) {
    exists m :: at < Milli(m) && (if now >= 0 then Milli(m) <= now else Milli(m) < now + 1_000_000)
  }

  /** On time: an element leaves the queue exactly when a whole millisecond after its due time
    has come, so after the epoch it waits less than a millisecond longer than it must. */
  lemma OnTime(now: int, next: int)
    ensures Due(now, next) <==> Passed(now, next)
    ensures 0 <= now && next + 1_000_000 <= now ==> Due(now, next)
  {
    var ns := TruncateToMillis(now);
    var m := ns / 1_000_000;
    assert ns == Milli(m);
    if Passed(now, next) {
      var k :| next < Milli(k) && (if now >= 0 then Milli(k) <= now else Milli(k) < now + 1_000_000);
      assert k <= m;
    }
  }

  /** An element leaves the queue early for some clock reading exactly when it is due
    before the epoch and not on a millisecond; a clock that started at its epoch is
    therefore never early. */
  lemma NeverEarly(next: int)
    ensures (forall now :: Due(now, next) ==> now > next)
            <==> (next >= 0 || next % NANOS_PER_MILLI == 0)
    ensures forall now :: 0 <= now && Due(now, next) ==> now > next
  {
    assert Due(next, next) <==> next < 0 && next % NANOS_PER_MILLI != 0;
    if next < 0 && next % NANOS_PER_MILLI == 0 {
      forall now | Due(now, next) ensures now > next {
        var a, b := TruncateToMillis(now) / NANOS_PER_MILLI, next / NANOS_PER_MILLI;
        assert next == b * NANOS_PER_MILLI && a >= b + 1;
      }
    }
  }

  // ---------- What one firing does to the fields ----------

  /** The step of the time grid in nanoseconds. */
  function Period(s: ElementState): int {
    ToInt32(s.invokationDelta) * NANOS_PER_MILLI
  }

  predicate Endless(s: ElementState) {
    s.occurrences == -1
  }

  /** The guard of get_rescheduled_item_if_any, its decrement included. */
  predicate Kept(s: ElementState) {
    Endless(s) || s.occurrences > 1
  }

  /** The fields after get_rescheduled_item_if_any. */
  function AfterPop(s: ElementState): ElementState {
    var left := if s.occurrences > 0 then s.occurrences - 1 else s.occurrences;
    if Kept(s) then s.(occurrences := left, next := s.next + Period(s))
    else s.(occurrences := left)
  }

  /** get_value indexes `values` at idx and `deltas` at every index of `values`. */
  predicate Readable(s: ElementState) {
    s.idx < |s.values| && (s.deltas == [] || |s.values| <= |s.deltas|)
  }

  /** `values` after the deltas are added, if there are any. */
  function Shifted(values: seq<real>, deltas: seq<real>): (r: seq<real>)
    requires deltas == [] || |values| <= |deltas|
    ensures |r| == |values|
  {
    if deltas == [] then values
    else seq(|values|, i requires 0 <= i < |values| => values[i] + deltas[i])
  }

  /** get_value returns through a reference into `values`, so the deltas show in it. */
  function ValueOf(s: ElementState): real
    requires Readable(s)
  {
    Shifted(s.values, s.deltas)[s.idx]
  }

  function AfterValue(s: ElementState): (r: ElementState)
    requires Readable(s)
    ensures Readable(r)
  {
    s.(values := Shifted(s.values, s.deltas),
       idx := if s.idx + 1 == |s.values| then 0 else s.idx + 1)
  }

  /** One firing: the pop, then the value taken by the caller. */
  function Fired(s: ElementState): (r: ElementState)
    requires Readable(s)
    ensures Readable(r)
  {
    AfterValue(AfterPop(s))
  }

  function Nth(s: ElementState, k: nat): (r: ElementState)
    requires Readable(s)
    ensures Readable(r)
  {
    if k == 0 then s else Fired(Nth(s, k - 1))
  }

  lemma {:induction false} NthShift(s: ElementState, k: nat)
    requires Readable(s)
    ensures Nth(Fired(s), k) == Nth(s, k + 1)
  {
    if k != 0 {
      NthShift(s, k - 1);
    }
  }

  // ---------- Any number of firings ----------

  /** How often an element that is not endless fires: a count of 0 still fires once. */
  function Firings(s: ElementState): nat {
    if s.occurrences < 1 then 1 else s.occurrences
  }

  /** An element is still queued after k firings. */
  predicate Live(s: ElementState, k: nat) {
    Endless(s) || k < Firings(s)
  }

  /** What one firing does to the time and the count of an element that stays queued. */
  lemma GridStep(s: ElementState)
    requires Readable(s) && Kept(s)
    ensures var f := Fired(s);
            && f.next == s.next + Period(s) && Period(f) == Period(s)
            && (Endless(f) <==> Endless(s))
            && (!Endless(s) ==> Firings(f) == Firings(s) - 1)
            && (Kept(f) <==> Endless(s) || Firings(s) > 2)
  {
  }

  /** The time grid does not drift: while the element is queued, its due time is the
    first one plus whole periods, and its count has gone down by one per firing. */
  lemma {:induction false} OnTheGrid(s: ElementState, k: nat)
    requires Readable(s) && Live(s, k)
    ensures Nth(s, k).next == s.next + k * Period(s)
    ensures Endless(Nth(s, k)) <==> Endless(s)
    ensures !Endless(s) ==> Firings(Nth(s, k)) == Firings(s) - k
    ensures Kept(Nth(s, k)) <==> Live(s, k + 1)
    ensures Period(Nth(s, k)) == Period(s)
  {
    if k != 0 {
      OnTheGrid(s, k - 1);
      GridStep(Nth(s, k - 1));
      assert k * Period(s) == (k - 1) * Period(s) + Period(s);
    }
  }

  /** `k` additions of the delta of position i, none when there are no deltas. */
  function Drifted(s: ElementState, i: nat, k: nat): real
    requires Readable(s) && i < |s.values|
  {
    s.values[i] + if s.deltas == [] then 0.0 else k as real * s.deltas[i]
  }

  lemma DriftStep(s: ElementState, i: nat, k: nat)
    requires Readable(s) && i < |s.values| && k > 0
    ensures Drifted(s, i, k) ==
            Drifted(s, i, k - 1) + if s.deltas == [] then 0.0 else s.deltas[i]
  {
    if s.deltas != [] {
      var d, j := s.deltas[i], (k - 1) as real;
      assert (j + 1.0) * d == j * d + d;
    }
  }

  lemma {:induction false} NthValues(s: ElementState, k: nat)
    requires Readable(s)
    ensures Nth(s, k).deltas == s.deltas && |Nth(s, k).values| == |s.values|
    ensures Nth(s, k).idx == (s.idx + k) % |s.values|
    ensures forall i :: 0 <= i < |s.values| ==> Nth(s, k).values[i] == Drifted(s, i, k)
  {
    if k == 0 {
      ModUnique(s.idx, |s.values|, 0, s.idx);
    } else {
      NthValues(s, k - 1);
      NextIndex(s.idx + k - 1, |s.values|);
      var p := Nth(s, k - 1);
      forall i | 0 <= i < |s.values| ensures Nth(s, k).values[i] == Drifted(s, i, k) {
        assert p.values[i] == Drifted(s, i, k - 1);
        DriftStep(s, i, k);
      }
    }
  }

  /** The wrap-around step of idx is addition modulo the number of values. */
  lemma NextIndex(m: nat, n: nat)
    requires n > 0
    ensures (m + 1) % n == if m % n + 1 == n then 0 else m % n + 1
  {
    var q, r := m / n, m % n;
    assert m == q * n + r;
    if r + 1 == n {
      assert m + 1 == (q + 1) * n;
      ModUnique(m + 1, n, q + 1, 0);
    } else {
      ModUnique(m + 1, n, q, r + 1);
    }
  }

  lemma ModUnique(m: nat, n: nat, q: nat, r: nat)
    requires n > 0 && m == q * n + r && r < n
    ensures m % n == r
  {
    var d := m / n - q;
    assert d * n == r - m % n;
    assert d > 0 ==> d * n >= n;
    assert d < 0 ==> d * n <= -1 * n;
  }

  /** The j-th value taken from a new element: the values in turn, each moved by its own
    delta once for every call so far, this one included. */
  lemma ValueClosedForm(s: ElementState, j: nat)
    requires Readable(s) && s.idx == 0 && j >= 1
    ensures var i := (j - 1) % |s.values|;
            ValueOf(Nth(s, j - 1)) ==
            s.values[i] + if s.deltas == [] then 0.0 else j as real * s.deltas[i]
  {
    NthValues(s, j - 1);
    var p, i := Nth(s, j - 1), (j - 1) % |s.values|;
    assert p.idx == i;
    assert p.values[i] == Drifted(s, i, j - 1);
    if s.deltas != [] {
      assert j as real == (j - 1) as real + 1.0;
      assert ValueOf(p) == p.values[i] + s.deltas[i];
    }
  }

  // ---------- The class ----------

  class Element {
    const targetMotors: seq<int>
    var occurrences: int
    var values: seq<real>
    const deltas: seq<real>
    const invokationDelta: nat
    var idx: nat
    var nextInvokation: int

    function State(): (s: ElementState)
      reads this
    {
      ElementState(targetMotors, occurrences, values, deltas, invokationDelta, idx, nextInvokation)
    }

    /** `now` is the clock read by the constructor. */
    constructor (targets: seq<int>, occurrences: int, values: seq<real>, deltas: seq<real>,
                 invokationDelta: nat, now: int)
      ensures State() == ElementState(targets, occurrences, values, deltas, invokationDelta, 0,
                                      now + ToInt32(invokationDelta) * NANOS_PER_MILLI)
    {
      this.targetMotors := targets;
      this.occurrences := occurrences;
      this.values := values;
      this.deltas := deltas;
      this.invokationDelta := invokationDelta;
      this.idx := 0;
      this.nextInvokation := now + ToInt32(invokationDelta) * NANOS_PER_MILLI;
    }

    method GetRescheduledItemIfAny() returns (again: Element?)
      modifies this
      ensures State() == AfterPop(old(State()))
      ensures again == if Kept(old(State())) then this else null
    {
      again := null;
      if occurrences != -1 && occurrences > 0 {
        occurrences := occurrences - 1;
        if occurrences != 0 {
          again := this;
        }
      } else if occurrences == -1 {
        again := this;
      }
      if again != null {
        nextInvokation := nextInvokation + ToInt32(invokationDelta) * NANOS_PER_MILLI;
      }
    }

    method GetValue() returns (value: real)
      requires Readable(State())
      modifies this
      ensures State() == AfterValue(old(State()))
      ensures value == ValueOf(old(State()))
    {
      var at := idx;
      ghost var was := values;
      if |deltas| != 0 {
        for i := 0 to |values|
          invariant nextInvokation == old(nextInvokation) && occurrences == old(occurrences)
          invariant idx == old(idx) && |values| == |was|
          invariant forall k :: 0 <= k < i ==> values[k] == was[k] + deltas[k]
          invariant forall k :: i <= k < |was| ==> values[k] == was[k]
        {
          values := values[i := values[i] + deltas[i]];
        }
        assert values == Shifted(was, deltas);
      }
      idx := idx + 1;
      if idx == |values| {
        idx := 0;
      }
      value := values[at];
    }
  }

  // ---------- Elements built from the configuration ----------

  /** The element tasks_from_config_impl queues for one entry, with the clock reading of its
    construction. The 32-bit `times` becomes the 64-bit count of occurrences, and a
    missing list arrives as an empty one. */
  function FromConfig(motors: seq<int>, times: uint32, delta: uint32, values: seq<real>,
                      deltas: seq<real>, now: int): ElementState
  {
    ElementState(motors, times, values, deltas, delta, 0, now + ToInt32(delta) * NANOS_PER_MILLI)
  }
}
