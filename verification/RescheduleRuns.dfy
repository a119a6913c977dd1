/** Runs of the rescheduling queue, over every order of events and every choice among
  elements that are due at the same time (app/utils/PriorityQ.h, the drain loop of
  app/InteractiveTask.h).

  A queue maps each queued object to its fields. A run is a list of events; `Possible`
  says that the code could do them in that order. */
module RescheduleRuns {
  import opened PriorityQueueElements
  import opened Uint32

  type Queue<E> = map<E, ElementState>

  /** `now` is the clock reading of the try_pop call. Fire is a successful try_pop and the
    get_value call that follows it; Idle is a try_pop that returns nothing. */
  datatype Event<E> =
    | Push(e: E, state: ElementState)
    | Fire(e: E, now: int, due: int, value: real)
    | Idle(now: int)

  ghost predicate Enabled<E>(q: Queue<E>, ev: Event<E>) {
    match ev
    case Push(e, _) => e !in q
    case Fire(e, now, due, value) =>
      && e in q && Readable(q[e])
      && due == q[e].next && Due(now, due)
      && (forall f :: f in q ==> due <= q[f].next)
      && value == ValueOf(q[e])
    case Idle(now) => forall f :: f in q ==> !Due(now, q[f].next)
  }

  ghost function Apply<E>(q: Queue<E>, ev: Event<E>): Queue<E>
    requires Enabled(q, ev)
  {
    match ev
    case Push(e, s) => q[e := s]
    case Fire(e, _, _, _) => if Kept(q[e]) then q[e := Fired(q[e])] else q - {e}
    case Idle(_) => q
  }

  ghost predicate Possible<E>(q: Queue<E>, evs: seq<Event<E>>)
    decreases |evs|
  {
    evs == [] || (Enabled(q, evs[0]) && Possible(Apply(q, evs[0]), evs[1..]))
  }

  ghost function After<E>(q: Queue<E>, evs: seq<Event<E>>): Queue<E>
    requires Possible(q, evs)
    decreases |evs|
  {
    if evs == [] then q else After(Apply(q, evs[0]), evs[1..])
  }

  lemma {:induction false} Append<E>(q: Queue<E>, evs: seq<Event<E>>, ev: Event<E>)
    requires Possible(q, evs) && Enabled(After(q, evs), ev)
    ensures Possible(q, evs + [ev]) && After(q, evs + [ev]) == Apply(After(q, evs), ev)
    decreases |evs|
  {
    if evs == [] {
      assert evs + [ev] == [ev] && [ev][1..] == evs;
    } else {
      Append(Apply(q, evs[0]), evs[1..], ev);
      assert (evs + [ev])[1..] == evs[1..] + [ev];
    }
  }

  lemma {:induction false} Concat<E>(q: Queue<E>, evs: seq<Event<E>>, more: seq<Event<E>>)
    requires Possible(q, evs) && Possible(After(q, evs), more)
    ensures Possible(q, evs + more) && After(q, evs + more) == After(After(q, evs), more)
    decreases |evs|
  {
    if evs == [] {
      assert evs + more == more;
    } else {
      assert (evs + more)[1..] == evs[1..] + more;
      Concat(Apply(q, evs[0]), evs[1..], more);
    }
  }

  /** The firings of one object, in order. */
  ghost function FiringsOf<E>(evs: seq<Event<E>>, e: E): (r: seq<Event<E>>)
    ensures forall i :: 0 <= i < |r| ==> r[i].Fire? && r[i] in evs
  {
    if evs == [] then []
    else (if evs[0].Fire? && evs[0].e == e then [evs[0]] else []) + FiringsOf(evs[1..], e)
  }

  ghost predicate NotPushed<E>(evs: seq<Event<E>>, e: E) {
    forall ev :: ev in evs && ev.Push? ==> ev.e != e
  }

  // ---------- What a run does to one element ----------

  /** The firing finds an element that began as s in the state after i firings: it is due
    on the time grid and carries the value of ValueClosedForm. */
  ghost predicate IsNthFiring<E>(s: ElementState, i: nat, ev: Event<E>)
    requires Readable(s) && ev.Fire?
  {
    && Live(s, i)
    && ev.due == s.next + i * Period(s)
    && ev.value == ValueOf(Nth(s, i))
  }

  /** A retired object never reappears unless it is pushed again. */
  lemma {:induction false} StaysAway<E>(q: Queue<E>, evs: seq<Event<E>>, e: E)
    requires Possible(q, evs) && e !in q && NotPushed(evs, e)
    ensures FiringsOf(evs, e) == [] && e !in After(q, evs)
    decreases |evs|
  {
    if evs != [] {
      assert evs[0] in evs;
      StaysAway(Apply(q, evs[0]), evs[1..], e);
    }
  }

  /** Every firing is the one its place calls for; while firings are left the element is
    still queued, in the state after those it has had; when they are used up it is gone. */
  ghost predicate Lived<E>(s: ElementState, firings: seq<Event<E>>, q: Queue<E>, e: E)
    requires Readable(s)
  {
    && (forall i :: 0 <= i < |firings| ==> firings[i].Fire? && IsNthFiring(s, i, firings[i]))
    && (Live(s, |firings|) ==> e in q && q[e] == Nth(s, |firings|))
    && (!Live(s, |firings|) ==> e !in q && |firings| == Firings(s))
  }

  lemma ShiftByOne<E>(s: ElementState, i: nat, ev: Event<E>)
    requires Readable(s) && Kept(s) && ev.Fire? && IsNthFiring(Fired(s), i, ev)
    ensures IsNthFiring(s, i + 1, ev)
  {
    NthShift(s, i);
    LiveShift(s, i);
    assert Fired(s).next == s.next + Period(s) && Period(Fired(s)) == Period(s);
    assert (i + 1) * Period(s) == i * Period(s) + Period(s);
  }

  lemma LiveShift(s: ElementState, k: nat)
    requires Readable(s) && Kept(s)
    ensures Live(Fired(s), k) <==> Live(s, k + 1)
    ensures Endless(Fired(s)) <==> Endless(s)
    ensures !Endless(s) ==> Firings(Fired(s)) + 1 == Firings(s)
  {
  }

  /** The states after the first firing are the states of the fired element, one later. */
  lemma LivedShift<E>(s: ElementState, first: Event<E>, rest: seq<Event<E>>, q: Queue<E>, e: E)
    requires Readable(s) && Kept(s) && first.Fire? && IsNthFiring(s, 0, first)
    requires Lived(Fired(s), rest, q, e)
    ensures Lived(s, [first] + rest, q, e)
  {
    var all := [first] + rest;
    forall i | 0 <= i < |all| ensures all[i].Fire? && IsNthFiring(s, i, all[i]) {
      if i > 0 {
        ShiftByOne(s, i - 1, all[i]);
      }
    }
    NthShift(s, |rest|);
    LiveShift(s, |rest|);
  }

  /** The life of a queued element over any run, whatever the clock does and whatever else
    is queued. */
  lemma {:induction false} Trajectory<E>(q: Queue<E>, evs: seq<Event<E>>, e: E)
    requires Possible(q, evs) && e in q && Readable(q[e]) && NotPushed(evs, e)
    ensures Lived(q[e], FiringsOf(evs, e), After(q, evs), e)
    decreases |evs|
  {
    if evs != [] {
      var q', rest := Apply(q, evs[0]), evs[1..];
      assert NotPushed(rest, e) by {
        assert forall ev :: ev in rest ==> ev in evs;
      }
      if evs[0].Fire? && evs[0].e == e {
        FirstFiring(q, evs[0]);
        if Kept(q[e]) {
          Trajectory(q', rest, e);
          LivedShift(q[e], evs[0], FiringsOf(rest, e), After(q', rest), e);
        } else {
          StaysAway(q', rest, e);
          LivedOnce(q[e], evs[0], After(q', rest), e);
        }
      } else {
        OtherEvent(q, evs[0], e);
        Trajectory(q', rest, e);
      }
    }
  }

  lemma OtherEvent<E>(q: Queue<E>, ev: Event<E>, e: E)
    requires Enabled(q, ev) && e in q && !(ev.Fire? && ev.e == e)
    ensures e in Apply(q, ev) && Apply(q, ev)[e] == q[e]
  {
  }

  lemma LivedOnce<E>(s: ElementState, only: Event<E>, q: Queue<E>, e: E)
    requires Readable(s) && !Kept(s) && only.Fire? && IsNthFiring(s, 0, only) && e !in q
    ensures Lived(s, [only] + [], q, e)
  {
    assert !Live(s, 1) && Firings(s) == 1;
  }

  lemma FirstFiring<E>(q: Queue<E>, ev: Event<E>)
    requires Enabled(q, ev) && ev.Fire?
    ensures IsNthFiring(q[ev.e], 0, ev)
  {
  }

  lemma {:induction false} FiringsAreDue<E>(q: Queue<E>, evs: seq<Event<E>>, e: E)
    requires Possible(q, evs)
    ensures forall f :: f in FiringsOf(evs, e) ==> f.Fire? && f.e == e && Due(f.now, f.due)
    decreases |evs|
  {
    if evs != [] {
      FiringsAreDue(Apply(q, evs[0]), evs[1..], e);
    }
  }

  /** No drift, never early: however late the pops come, the k-th firing of an element
    built at `built` is due k periods later, and it happens after that moment although
    the clock is truncated. */
  lemma NoDriftNeverEarly<E>(q: Queue<E>, evs: seq<Event<E>>, e: E, built: int)
    requires Possible(q, evs) && e in q && Readable(q[e]) && NotPushed(evs, e)
    requires q[e].next == built + Period(q[e])
    requires forall ev :: ev in evs && ev.Fire? ==> 0 <= ev.now
    ensures var fs := FiringsOf(evs, e);
            forall i :: 0 <= i < |fs| ==>
              fs[i].due == built + (i + 1) * Period(q[e]) && fs[i].now > fs[i].due
  {
    Trajectory(q, evs, e);
    FiringsAreDue(q, evs, e);
    var fs := FiringsOf(evs, e);
    forall i | 0 <= i < |fs|
      ensures fs[i].due == built + (i + 1) * Period(q[e]) && fs[i].now > fs[i].due
    {
      assert fs[i] in fs && IsNthFiring(q[e], i, fs[i]);
      assert (i + 1) * Period(q[e]) == i * Period(q[e]) + Period(q[e]);
    }
  }

  /** Conservation: the firings an element has had and those it has left add up to its
    count, 0 counting as 1, and it is queued exactly while some are left; an endless
    element is never lost. */
  lemma FiringConservation<E>(q: Queue<E>, evs: seq<Event<E>>, e: E)
    requires Possible(q, evs) && e in q && Readable(q[e]) && NotPushed(evs, e)
    ensures Endless(q[e]) ==> e in After(q, evs)
    ensures !Endless(q[e]) ==>
              |FiringsOf(evs, e)| +
              (if e in After(q, evs) then Firings(After(q, evs)[e]) else 0) == Firings(q[e])
  {
    Trajectory(q, evs, e);
    var k := |FiringsOf(evs, e)|;
    if Live(q[e], k) {
      OnTheGrid(q[e], k);
    }
  }

  /** Firings after which the element was not put back. */
  ghost function Retired<E>(q: Queue<E>, evs: seq<Event<E>>): nat
    requires Possible(q, evs)
    decreases |evs|
  {
    if evs == [] then 0
    else (if evs[0].Fire? && !Kept(q[evs[0].e]) then 1 else 0) + Retired(Apply(q, evs[0]), evs[1..])
  }

  ghost function Pushes<E>(evs: seq<Event<E>>): nat {
    if evs == [] then 0 else (if evs[0].Push? then 1 else 0) + Pushes(evs[1..])
  }

  lemma {:induction false} SizeConservation<E>(q: Queue<E>, evs: seq<Event<E>>)
    requires Possible(q, evs)
    ensures |After(q, evs)| == |q| + Pushes(evs) - Retired(q, evs)
    decreases |evs|
  {
    if evs != [] {
      var ev := evs[0];
      if ev.Fire? && !Kept(q[ev.e]) {
        assert (q - {ev.e}).Keys == q.Keys - {ev.e};
        assert |q.Keys - {ev.e}| == |q.Keys| - 1;
      } else if ev.Fire? {
        assert q[ev.e := Fired(q[ev.e])].Keys == q.Keys;
      }
      SizeConservation(Apply(q, ev), evs[1..]);
    }
  }

  // ---------- Order ----------

  /** No element that is due now would be put back at an earlier time. */
  ghost predicate ForwardDue<E>(q: Queue<E>, now: int) {
    forall e :: e in q && Due(now, q[e].next) && Kept(q[e]) ==> 0 <= Period(q[e])
  }

  ghost predicate NoPush<E>(evs: seq<Event<E>>) {
    forall ev :: ev in evs ==> !ev.Push?
  }

  /** The firings happen at clock readings up to `now`. */
  ghost predicate FiresUpTo<E>(evs: seq<Event<E>>, now: int) {
    forall ev :: ev in evs && ev.Fire? ==> TruncateToMillis(ev.now) <= TruncateToMillis(now)
  }

  ghost predicate DuesFrom<E>(evs: seq<Event<E>>, low: int) {
    forall i :: 0 <= i < |evs| && evs[i].Fire? ==> low <= evs[i].due
  }

  ghost predicate DuesSorted<E>(evs: seq<Event<E>>) {
    forall i, j :: 0 <= i < j < |evs| && evs[i].Fire? && evs[j].Fire? ==> evs[i].due <= evs[j].due
  }

  lemma FireKeepsForward<E>(q: Queue<E>, ev: Event<E>, now: int)
    requires Enabled(q, ev) && !ev.Push? && ForwardDue(q, now)
    requires ev.Fire? ==> TruncateToMillis(ev.now) <= TruncateToMillis(now)
    ensures ForwardDue(Apply(q, ev), now)
    ensures ev.Fire? ==> forall e :: e in Apply(q, ev) ==> ev.due <= Apply(q, ev)[e].next
  {
  }

  lemma {:induction false} DuesForward<E>(q: Queue<E>, evs: seq<Event<E>>, low: int, now: int)
    requires Possible(q, evs) && NoPush(evs) && FiresUpTo(evs, now) && ForwardDue(q, now)
    requires forall e :: e in q ==> low <= q[e].next
    ensures DuesFrom(evs, low) && DuesSorted(evs)
    decreases |evs|
  {
    if evs != [] {
      var ev, rest := evs[0], evs[1..];
      assert ev in evs && forall x :: x in rest ==> x in evs;
      FireKeepsForward(q, ev, now);
      DuesForward(Apply(q, ev), rest, if ev.Fire? then ev.due else low, now);
      forall i | 0 < i < |evs| && evs[i].Fire?
        ensures (ev.Fire? ==> ev.due <= evs[i].due) && low <= evs[i].due
      {
        assert evs[i] == rest[i - 1];
      }
      forall i, j | 0 < i < j < |evs| && evs[i].Fire? && evs[j].Fire?
        ensures evs[i].due <= evs[j].due
      {
        assert evs[i] == rest[i - 1] && evs[j] == rest[j - 1];
      }
    }
  }

  ghost predicate ForwardPeriods<E>(q: Queue<E>) {
    forall e :: e in q && Kept(q[e]) ==> 0 <= Period(q[e])
  }

  /** Without pushes the due times of a whole run never go back, for any clock readings,
    monotone or not, if no period of an element that is put back is negative. */
  lemma DuesNeverGoBack<E>(q: Queue<E>, evs: seq<Event<E>>)
    requires Possible(q, evs) && NoPush(evs) && ForwardPeriods(q)
    ensures DuesSorted(evs)
  {
    var now := LastReading(evs);
    var low := LowestDue(q);
    DuesForward(q, evs, low, now);
  }

  lemma LastReading<E>(evs: seq<Event<E>>) returns (now: int)
    ensures FiresUpTo(evs, now)
  {
    now := 0;
    for i := 0 to |evs|
      invariant FiresUpTo(evs[..i], now)
    {
      if evs[i].Fire? && TruncateToMillis(now) < TruncateToMillis(evs[i].now) {
        now := evs[i].now;
      }
      assert evs[..i + 1] == evs[..i] + [evs[i]];
    }
    assert evs[..|evs|] == evs;
  }

  lemma LowestDue<E>(q: Queue<E>) returns (low: int)
    ensures forall e :: e in q ==> low <= q[e].next
  {
    low := 0;
    if e :| e in q {
      low := MinOf(q, e);
    }
  }

  // ---------- The drain ----------

  /** The events of one drain with the clock standing still: firings, then one try_pop
    that finds nothing due. */
  ghost predicate DrainAt<E>(evs: seq<Event<E>>, now: int) {
    && |evs| > 0 && evs[|evs| - 1] == Idle(now)
    && forall i :: 0 <= i < |evs| - 1 ==> evs[i].Fire? && evs[i].now == now
  }

  /** Firings at any clock readings, then a try_pop that finds nothing due. */
  ghost predicate IsDrain<E>(evs: seq<Event<E>>) {
    && |evs| > 0 && evs[|evs| - 1].Idle?
    && forall i :: 0 <= i < |evs| - 1 ==> evs[i].Fire?
  }

  /** A drain at a standing clock comes to an end of this element: not so if it is endless,
    due, and does not move on. */
  predicate Drains(s: ElementState, now: int) {
    Endless(s) && Due(now, s.next) ==> Period(s) > 0
  }

  /** How often an element fires in a drain: if it is due, as often as the due times next,
    next + d, next + 2d, ... are below the truncated clock, capped at the firings it has
    left; an element that does not move on fires all it has left. */
  function DueCount(s: ElementState, now: int): nat
    requires Drains(s, now)
  {
    if !Due(now, s.next) then 0
    else if Period(s) <= 0 then Firings(s)
    else
      var n := (TruncateToMillis(now) - s.next + Period(s) - 1) / Period(s);
      if Endless(s) || n < Firings(s) then n else Firings(s)
  }

  lemma DueCountCounts(s: ElementState, now: int, i: nat)
    requires Drains(s, now)
    ensures i < DueCount(s, now) <==> Live(s, i) && Due(now, s.next) && Due(now, s.next + i * Period(s))
  {
    var p, late := Period(s), TruncateToMillis(now) - s.next;
    if late > 0 && p > 0 {
      var n := (late + p - 1) / p;
      CeilingBelow(late, p, n, i);
    } else if late > 0 {
      assert i * p <= 0;
    }
  }

  lemma DueCountIs(s: ElementState, now: int, k: nat)
    requires Drains(s, now)
    requires k > 0 ==> Live(s, k - 1) && Due(now, s.next) && Due(now, s.next + (k - 1) * Period(s))
    requires Live(s, k) ==> !Due(now, s.next + k * Period(s))
    ensures k == DueCount(s, now)
  {
    DueCountCounts(s, now, k);
    if k > 0 {
      DueCountCounts(s, now, k - 1);
    }
  }

  lemma CeilingBelow(late: nat, p: nat, n: nat, i: nat)
    requires p > 0 && late > 0 && n == (late + p - 1) / p
    ensures i < n <==> i * p < late
  {
    var m := late + p - 1;
    assert m == n * p + m % p;
    if i < n {
      MulMono(i + 1, n, p);
      assert (i + 1) * p == i * p + p;
    } else {
      MulMono(n, i, p);
    }
  }

  lemma MulMono(a: nat, b: nat, p: nat)
    requires a <= b
    ensures a * p <= b * p
  {
    assert b * p == a * p + (b - a) * p;
  }

  /** The i-th firing, from 0, belongs into a drain at this reading: it is left, and the first
    due time and its own have passed. */
  ghost predicate ToFire(s: ElementState, now: int, i: nat) {
    Live(s, i) && Passed(now, s.next) && Passed(now, s.next + i * Period(s))
  }

  lemma CountIsOnTime(s: ElementState, now: int)
    requires Drains(s, now)
    ensures forall i: nat :: i < DueCount(s, now) <==> ToFire(s, now, i)
  {
    forall i: nat ensures i < DueCount(s, now) <==> ToFire(s, now, i) {
      DueCountCounts(s, now, i);
      OnTime(now, s.next);
      OnTime(now, s.next + i * Period(s));
    }
  }

  /** The part of a drain that belongs to one element: an arithmetic progression of due
    times, each with the value that belongs to its place. */
  ghost function Progression<E>(s: ElementState, e: E, now: int): (r: seq<Event<E>>)
    requires Readable(s) && Drains(s, now)
    ensures |r| == DueCount(s, now)
  {
    seq(DueCount(s, now), i requires 0 <= i => Fire(e, now, s.next + i * Period(s), ValueOf(Nth(s, i))))
  }

  /** No endless element due at the truncated clock stands still or moves back. */
  ghost predicate NoSpin<E>(q: Queue<E>, now: int) {
    forall e :: e in q ==> Drains(q[e], now)
  }

  ghost predicate AllReadable<E>(q: Queue<E>) {
    forall e :: e in q ==> Readable(q[e])
  }

  /** An endless element that is due and stands still is due for ever. */
  lemma StaysDue(s: ElementState, k: nat, now: int)
    requires Readable(s) && !Drains(s, now)
    ensures Due(now, Nth(s, k).next)
  {
    OnTheGrid(s, k);
    assert k * Period(s) <= 0;
  }

  lemma EndedDrainDidNotSpin<E>(q: Queue<E>, evs: seq<Event<E>>, now: int)
    requires Possible(q, evs) && DrainAt(evs, now) && AllReadable(q)
    ensures NoSpin(q, now)
  {
    EndsIdle(q, evs);
    forall e | e in q ensures Drains(q[e], now) {
      if !Drains(q[e], now) {
        Trajectory(q, evs, e);
        StaysDue(q[e], |FiringsOf(evs, e)|, now);
      }
    }
  }

  /** The drain is a merge of arithmetic progressions. With a standing clock every drain
    that ends fires of each element exactly its due times below the truncated clock, and
    leaves nothing due; it fires in nondecreasing due order exactly when no due element
    that is put back has a negative period. */
  lemma DrainIsSortedMerge<E>(q: Queue<E>, evs: seq<Event<E>>, now: int)
    requires Possible(q, evs) && DrainAt(evs, now) && AllReadable(q)
    ensures NoSpin(q, now)
    ensures forall e :: e in q ==> FiringsOf(evs, e) == Progression(q[e], e, now)
    ensures forall e, i: nat :: e in q ==> (i < |FiringsOf(evs, e)| <==> ToFire(q[e], now, i))
    ensures forall e :: e in After(q, evs) ==> !Passed(now, After(q, evs)[e].next)
    ensures DuesSorted(evs) <==> ForwardDue(q, now)
  {
    EndedDrainDidNotSpin(q, evs, now);
    EndsIdle(q, evs);
    forall e | e in q ensures FiringsOf(evs, e) == Progression(q[e], e, now) {
      Trajectory(q, evs, e);
      FiringsAreDue(q, evs, e);
      LivedUntilIdle(q[e], FiringsOf(evs, e), After(q, evs), e, now);
    }
    forall e, i: nat | e in q ensures i < |FiringsOf(evs, e)| <==> ToFire(q[e], now, i) {
      CountIsOnTime(q[e], now);
    }
    NothingPassed(After(q, evs), now);
    if ForwardDue(q, now) {
      var low := LowestDue(q);
      DuesForward(q, evs, low, now);
    } else {
      var e :| e in q && Due(now, q[e].next) && Kept(q[e]) && Period(q[e]) < 0;
      GoesBack(q[e], evs, e, now);
    }
  }

  /** A try_pop that returns nothing leaves nothing whose time has passed, and after the epoch
    nothing that has been due for a millisecond. */
  lemma NothingPassed<E>(q: Queue<E>, now: int)
    ensures Enabled(q, Idle(now)) <==> forall e :: e in q ==> !Passed(now, q[e].next)
    ensures Enabled(q, Idle(now)) && 0 <= now ==> forall e :: e in q ==> now < q[e].next + 1_000_000
  {
    forall e | e in q ensures Due(now, q[e].next) <==> Passed(now, q[e].next) {
      OnTime(now, q[e].next);
    }
    forall e | e in q && !Due(now, q[e].next) && 0 <= now ensures now < q[e].next + 1_000_000 {
      OnTime(now, q[e].next);
    }
  }

  lemma GoesBack<E>(s: ElementState, evs: seq<Event<E>>, e: E, now: int)
    requires Readable(s) && Drains(s, now) && Due(now, s.next) && Kept(s) && Period(s) < 0
    requires FiringsOf(evs, e) == Progression(s, e, now)
    ensures !DuesSorted(evs)
  {
    var p := Progression(s, e, now);
    assert p[1].due == s.next + Period(s) < p[0].due;
    if DuesSorted(evs) {
      FiringsInOrder(evs, e);
    }
  }

  lemma {:induction false} FiringsInOrder<E>(evs: seq<Event<E>>, e: E)
    requires DuesSorted(evs)
    ensures DuesSorted(FiringsOf(evs, e))
    decreases |evs|
  {
    if evs != [] {
      var rest := evs[1..];
      assert forall i :: 0 <= i < |rest| ==> rest[i] == evs[i + 1];
      FiringsInOrder(rest, e);
      forall f | f in FiringsOf(rest, e) && evs[0].Fire? ensures evs[0].due <= f.due {
        var i :| 0 <= i < |rest| && rest[i] == f;
        assert evs[i + 1] == f;
      }
    }
  }

  lemma LivedUntilIdle<E>(s: ElementState, fs: seq<Event<E>>, q: Queue<E>, e: E, now: int)
    requires Readable(s) && Drains(s, now) && Lived(s, fs, q, e)
    requires forall f :: f in fs ==> f.Fire? && f.e == e && f.now == now && Due(now, f.due)
    requires Enabled(q, Idle(now))
    ensures fs == Progression(s, e, now)
  {
    if |fs| > 0 {
      assert fs[0] in fs && IsNthFiring(s, 0, fs[0]);
      assert fs[|fs| - 1] in fs && IsNthFiring(s, |fs| - 1, fs[|fs| - 1]);
    }
    if Live(s, |fs|) {
      OnTheGrid(s, |fs|);
    }
    DueCountIs(s, now, |fs|);
    forall i | 0 <= i < |fs| ensures fs[i] == Progression(s, e, now)[i] {
      assert fs[i] in fs && IsNthFiring(s, i, fs[i]);
    }
  }

  /** A finite element that is due and does not move on, as one with a delta of 0 or of 2^31
    ms and more, fires all it has left in one drain, and is gone. */
  lemma StandingElementBurns<E>(q: Queue<E>, evs: seq<Event<E>>, now: int, e: E)
    requires Possible(q, evs) && DrainAt(evs, now) && AllReadable(q)
    requires e in q && !Endless(q[e]) && Due(now, q[e].next)
    requires q[e].invokationDelta % TWO_32 == 0 || q[e].invokationDelta % TWO_32 >= 0x8000_0000
    ensures |FiringsOf(evs, e)| == Firings(q[e]) && e !in After(q, evs)
  {
    DrainIsSortedMerge(q, evs, now);
    assert Period(q[e]) <= 0;
    assert FiringsOf(evs, e) == Progression(q[e], e, now);
    FiringConservation(q, evs, e);
  }

  /** The final queue and the firings of each element do not depend on how ties were
    broken. */
  lemma DrainIsConfluent<E>(q: Queue<E>, evs1: seq<Event<E>>, evs2: seq<Event<E>>, now: int)
    requires Possible(q, evs1) && DrainAt(evs1, now) && Possible(q, evs2) && DrainAt(evs2, now)
    requires AllReadable(q)
    ensures After(q, evs1) == After(q, evs2)
    ensures forall e :: e in q ==> FiringsOf(evs1, e) == FiringsOf(evs2, e)
  {
    DrainFirings(q, evs1, now);
    DrainFirings(q, evs2, now);
    forall e
      ensures SameAt(After(q, evs1), After(q, evs2), e)
    {
      DrainDecides(q, evs1, evs2, e);
    }
    SameMaps(After(q, evs1), After(q, evs2));
  }

  lemma DrainFirings<E>(q: Queue<E>, evs: seq<Event<E>>, now: int)
    requires Possible(q, evs) && DrainAt(evs, now) && AllReadable(q)
    ensures NoPush(evs) && NoSpin(q, now)
    ensures forall e :: e in q ==> FiringsOf(evs, e) == Progression(q[e], e, now)
  {
    DrainIsSortedMerge(q, evs, now);
  }

  ghost predicate SameAt<E>(q1: Queue<E>, q2: Queue<E>, e: E) {
    (e in q1 <==> e in q2) && (e in q1 ==> q1[e] == q2[e])
  }

  lemma SameMaps<E>(q1: Queue<E>, q2: Queue<E>)
    requires forall e :: e in q1 || e in q2 ==> SameAt(q1, q2, e)
    ensures q1 == q2
  {
    assert forall e :: e in q1 <==> e in q2;
  }

  lemma DrainDecides<E>(q: Queue<E>, evs1: seq<Event<E>>, evs2: seq<Event<E>>, e: E)
    requires Possible(q, evs1) && NoPush(evs1) && Possible(q, evs2) && NoPush(evs2)
    requires e in q ==> Readable(q[e]) && FiringsOf(evs1, e) == FiringsOf(evs2, e)
    ensures SameAt(After(q, evs1), After(q, evs2), e)
  {
    if e in q {
      Trajectory(q, evs1, e);
      Trajectory(q, evs2, e);
    } else {
      StaysAway(q, evs1, e);
      StaysAway(q, evs2, e);
    }
  }

  lemma {:induction false} MinOf<E>(q: Queue<E>, e: E) returns (low: int)
    requires e in q
    ensures forall f :: f in q ==> low <= q[f].next
    ensures exists f :: f in q && low == q[f].next
    decreases |q|
  {
    var rest := q - {e};
    if rest == map[] {
      assert forall f :: f in q ==> f == e by {
        assert forall f :: f in q && f != e ==> f in rest;
      }
      low := q[e].next;
    } else {
      var f :| f in rest;
      assert rest.Keys == q.Keys - {e};
      var m := MinOf(rest, f);
      low := if m < q[e].next then m else q[e].next;
      assert forall g :: g in q && g != e ==> g in rest;
    }
  }

  lemma {:induction false} EndsIdle<E>(q: Queue<E>, evs: seq<Event<E>>)
    requires Possible(q, evs) && IsDrain(evs)
    ensures Enabled(After(q, evs), evs[|evs| - 1])
    decreases |evs|
  {
    if |evs| == 1 {
      assert evs[1..] == [];
    } else {
      EndsIdle(Apply(q, evs[0]), evs[1..]);
    }
  }

  /** On time over any drain, the clock moving as it will: at its end nothing is left whose
    time has passed at its last reading. */
  lemma DrainLeavesNothing<E>(q: Queue<E>, evs: seq<Event<E>>)
    requires Possible(q, evs) && IsDrain(evs)
    ensures var now := evs[|evs| - 1].now;
            && (forall e :: e in After(q, evs) ==> !Passed(now, After(q, evs)[e].next))
            && (0 <= now ==> forall e :: e in After(q, evs) ==> now < After(q, evs)[e].next + 1_000_000)
  {
    EndsIdle(q, evs);
    NothingPassed(After(q, evs), evs[|evs| - 1].now);
  }

  // ---------- When a drain ends ----------

  /** Firings left before the clock stands at `now`: the due ones for an endless element,
    all of them for a finite one. */
  function Work(s: ElementState, now: int): nat {
    if !Endless(s) then Firings(s) else if Period(s) > 0 then DueCount(s, now) else 0
  }

  ghost function TotalWork<E>(q: Queue<E>, now: int): nat
    decreases |q|
  {
    if q == map[] then 0
    else
      var e :| e in q;
      assert (q - {e}).Keys == q.Keys - {e};
      Work(q[e], now) + TotalWork(q - {e}, now)
  }

  lemma {:induction false} TotalWorkWithout<E>(q: Queue<E>, now: int, e: E)
    requires e in q
    ensures TotalWork(q, now) == Work(q[e], now) + TotalWork(q - {e}, now)
    decreases |q|
  {
    var f :| f in q && TotalWork(q, now) == Work(q[f], now) + TotalWork(q - {f}, now);
    if f != e {
      assert (q - {f}).Keys == q.Keys - {f};
      assert (q - {e}).Keys == q.Keys - {e};
      TotalWorkWithout(q - {f}, now, e);
      TotalWorkWithout(q - {e}, now, f);
      assert q - {f} - {e} == q - {e} - {f};
    }
  }

  lemma DueCountDown(s: ElementState, now: int)
    requires Readable(s) && Endless(s) && Period(s) > 0 && Due(now, s.next)
    ensures DueCount(Fired(s), now) < DueCount(s, now)
  {
    var n, f := DueCount(s, now), Fired(s);
    assert f.next == s.next + Period(s) && Period(f) == Period(s) && Endless(f);
    DueCountCounts(s, now, 0);
    DueCountCounts(s, now, n);
    DueCountCounts(f, now, n - 1);
    assert n * Period(s) == (n - 1) * Period(s) + Period(s);
  }

  /** Every firing uses up work. The clock reading of the firing may be any one up to
    `now`, and does not matter at all when no queued element is endless. */
  lemma FireUsesWork<E>(q: Queue<E>, ev: Event<E>, now: int)
    requires Enabled(q, ev) && ev.Fire? && NoSpin(q, now)
    requires Endless(q[ev.e]) ==> TruncateToMillis(ev.now) <= TruncateToMillis(now)
    ensures TotalWork(Apply(q, ev), now) < TotalWork(q, now)
    ensures NoSpin(Apply(q, ev), now)
  {
    var e, s, q' := ev.e, q[ev.e], Apply(q, ev);
    TotalWorkWithout(q, now, e);
    if Kept(s) {
      TotalWorkWithout(q', now, e);
      assert q' - {e} == q - {e};
      if Endless(s) {
        DueCountDown(s, now);
      } else {
        LiveShift(s, 0);
      }
    }
  }

  /** A drain at a standing clock that does not spin takes at most TotalWork firings. */
  lemma {:induction false} DrainEnds<E>(q: Queue<E>, evs: seq<Event<E>>, now: int)
    requires Possible(q, evs) && NoSpin(q, now)
    requires forall i :: 0 <= i < |evs| ==> evs[i].Fire? && evs[i].now == now
    ensures |evs| <= TotalWork(q, now)
    decreases |evs|
  {
    if evs != [] {
      FireUsesWork(q, evs[0], now);
      DrainEnds(Apply(q, evs[0]), evs[1..], now);
    }
  }

  /** The other half: if an endless element is due and its period is not positive, as
    happens when the unsigned delta wraps to a negative int, the drain can go on for any
    number of firings. */
  lemma {:induction false} DrainSpins<E>(q: Queue<E>, now: int, n: nat)
    returns (evs: seq<Event<E>>)
    requires !NoSpin(q, now) && AllReadable(q)
    ensures |evs| == n && Possible(q, evs)
    ensures forall i :: 0 <= i < n ==> evs[i].Fire? && evs[i].now == now
  {
    evs := [];
    if n > 0 {
      var e :| e in q && Endless(q[e]) && Due(now, q[e].next) && Period(q[e]) <= 0;
      var low := MinOf(q, e);
      var f :| f in q && q[f].next == low;
      var ev := Fire(f, now, low, ValueOf(q[f]));
      var q' := Apply(q, ev);
      assert e in q' && Endless(q'[e]) && Due(now, q'[e].next) && Period(q'[e]) <= 0;
      var rest := DrainSpins(q', now, n - 1);
      evs := [ev] + rest;
      assert evs[1..] == rest;
    }
  }

  /** A drain at a standing clock can come to its end exactly when no due endless element
    stands still. */
  lemma DrainCanEnd<E>(q: Queue<E>, now: int)
    requires AllReadable(q)
    ensures NoSpin(q, now) <==> exists evs :: Possible(q, evs) && DrainAt(evs, now)
  {
    if NoSpin(q, now) {
      var evs := DrainExists(q, now);
    }
    if evs :| Possible(q, evs) && DrainAt(evs, now) {
      EndedDrainDidNotSpin(q, evs, now);
    }
  }

  lemma {:induction false} DrainExists<E>(q: Queue<E>, now: int) returns (evs: seq<Event<E>>)
    requires AllReadable(q) && NoSpin(q, now)
    ensures Possible(q, evs) && DrainAt(evs, now)
    decreases TotalWork(q, now)
  {
    if Enabled(q, Idle(now)) {
      evs := [Idle(now)];
    } else {
      var e :| e in q && Due(now, q[e].next);
      var low := MinOf(q, e);
      var f :| f in q && q[f].next == low;
      var ev := Fire(f, now, low, ValueOf(q[f]));
      FireUsesWork(q, ev, now);
      var rest := DrainExists(Apply(q, ev), now);
      evs := [ev] + rest;
      assert evs[1..] == rest;
    }
  }
}
