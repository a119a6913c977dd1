/** The blocking queue shared by threads (app/utils/thread_safe_queue.h), as a system of
  steps. One step is what a thread does while it holds the mutex: the mutex makes it
  atomic, and waiting on the condition variable releases it. */
module ThreadsafeQueue {

  datatype Option<T> = None | Some(value: T)

  // ---------- The queue itself ----------

  class Queue<T> {
    var dataQueue: seq<T>

    constructor ()
      ensures dataQueue == []
    {
      dataQueue := [];
    }

    method Push(newValue: T)
      modifies this
      ensures dataQueue == old(dataQueue) + [newValue]
    {
      dataQueue := dataQueue + [newValue];
    }

    /** The body of try_pop, and of wait_and_pop once its predicate holds. */
    method TryPop() returns (value: Option<T>)
      modifies this
      ensures value == Front(old(dataQueue)) && dataQueue == Rest(old(dataQueue))
    {
      if |dataQueue| == 0 {
        return None;
      }
      value := Some(dataQueue[0]);
      dataQueue := dataQueue[1..];
    }

    method Empty() returns (empty: bool)
      ensures empty <==> dataQueue == []
    {
      empty := |dataQueue| == 0;
    }
  }

  function Front<T>(q: seq<T>): (v: Option<T>)
    ensures v.None? <==> q == []
  {
    if q == [] then None else Some(q[0])
  }

  function Rest<T>(q: seq<T>): (r: seq<T>)
    ensures q != [] ==> q == [Front(q).value] + r
  {
    if q == [] then [] else q[1..]
  }

  // ---------- Threads ----------

  /** Active: not in wait_and_pop. Waiting: blocked on the condition variable. Notified: woken,
    but not yet past the predicate. */
  datatype Phase = Active | Waiting | Notified

  /** `pushed` and `popped` record the values in lock order, each pop with its thread. */
  datatype State<T> = State(queue: seq<T>, phase: map<nat, Phase>, pushed: seq<T>, popped: seq<(nat, T)>)

  /** A push says which waiting thread notify_one wakes, if there is one to wake. */
  datatype Event<T> =
    | Push(thread: nat, value: T, woken: Option<nat>)
    | TryPop(thread: nat)
    | WaitAndPop(thread: nat)
    | Resume(thread: nat)
    | SpuriousWake(thread: nat)

  predicate Is<T>(s: State<T>, t: nat, p: Phase) {
    t in s.phase && s.phase[t] == p
  }

  function In<T>(s: State<T>, p: Phase): set<nat> {
    set t | t in s.phase && s.phase[t] == p
  }

  predicate Enabled<T>(s: State<T>, ev: Event<T>) {
    match ev
    case Push(t, _, woken) =>
      Is(s, t, Active) && (match woken
                           case None => In(s, Waiting) == {}
                           case Some(w) => w in In(s, Waiting))
    case TryPop(t) => Is(s, t, Active)
    case WaitAndPop(t) => Is(s, t, Active)
    case Resume(t) => Is(s, t, Notified)
    case SpuriousWake(t) => Is(s, t, Waiting)
  }

  function Pop<T>(s: State<T>, t: nat): State<T> {
    match Front(s.queue)
    case None => s
    case Some(v) => s.(queue := Rest(s.queue), popped := s.popped + [(t, v)])
  }

  /** The loop of wait: pop if there is something, wait otherwise. */
  function CheckPredicate<T>(s: State<T>, t: nat): State<T> {
    if s.queue == [] then s.(phase := s.phase[t := Waiting])
    else Pop(s, t).(phase := s.phase[t := Active])
  }

  function Apply<T>(s: State<T>, ev: Event<T>): State<T> {
    match ev
    case Push(_, v, woken) =>
      s.(queue := s.queue + [v], pushed := s.pushed + [v],
         phase := if woken.Some? then s.phase[woken.value := Notified] else s.phase)
    case TryPop(t) => Pop(s, t)
    case WaitAndPop(t) => CheckPredicate(s, t)
    case Resume(t) => CheckPredicate(s, t)
    case SpuriousWake(t) => s.(phase := s.phase[t := Notified])
  }

  predicate Possible<T>(s: State<T>, evs: seq<Event<T>>)
    decreases |evs|
  {
    evs == [] || (Enabled(s, evs[0]) && Possible(Apply(s, evs[0]), evs[1..]))
  }

  function After<T>(s: State<T>, evs: seq<Event<T>>): State<T>
    decreases |evs|
  {
    if evs == [] then s else After(Apply(s, evs[0]), evs[1..])
  }

  function Start<T>(threads: set<nat>): State<T> {
    State([], map t | t in threads :: Active, [], [])
  }

  // ---------- What the steps do to the values ----------

  /** The values of the pushes of a run, in order. */
  function PushedIn<T>(evs: seq<Event<T>>): seq<T> {
    if evs == [] then []
    else (if evs[0].Push? then [evs[0].value] else []) + PushedIn(evs[1..])
  }

  /** Every push of a run arrives: the record holds their values, in the order of the lock. */
  lemma {:induction false} PushesArrive<T>(s: State<T>, evs: seq<Event<T>>)
    ensures After(s, evs).pushed == s.pushed + PushedIn(evs)
    decreases |evs|
  {
    if evs != [] {
      PushesArrive(Apply(s, evs[0]), evs[1..]);
    }
  }

  predicate Pops<T>(ev: Event<T>) {
    ev.TryPop? || ev.WaitAndPop? || ev.Resume?
  }

  /** A push puts its value at the back. A thread that pops takes the first item if there is
    one, and is then out of wait_and_pop; if there is none, try_pop does nothing and the
    others wait. Nobody else is touched but the thread a push wakes. */
  lemma StepMoves<T>(s: State<T>, ev: Event<T>)
    requires Enabled(s, ev)
    ensures var r := Apply(s, ev);
            && (ev.Push? ==>
                  r == s.(queue := s.queue + [ev.value], pushed := s.pushed + [ev.value], phase := r.phase))
            && (Pops(ev) && s.queue != [] ==>
                  && s.queue == [s.queue[0]] + r.queue && r.popped == s.popped + [(ev.thread, s.queue[0])]
                  && r.pushed == s.pushed && r.phase == s.phase[ev.thread := Active])
            && (Pops(ev) && s.queue == [] ==>
                  r == if ev.TryPop? then s else s.(phase := s.phase[ev.thread := Waiting]))
            && (ev.Push? ==> r.phase == if ev.woken.Some? then s.phase[ev.woken.value := Notified] else s.phase)
            && (ev.SpuriousWake? ==> r == s.(phase := s.phase[ev.thread := Notified]))
  {
    if ev.TryPop? {
      assert s.phase[ev.thread := Active] == s.phase;
    }
  }

  /** The popped values of a run are a first part of the pushed ones, the queue the rest. */
  lemma RunMoves<T>(threads: set<nat>, evs: seq<Event<T>>)
    requires Possible(Start(threads), evs)
    ensures var s := After(Start(threads), evs);
            PushedIn(evs) == Values(s.popped) + s.queue
  {
    var s0: State<T> := Start(threads);
    assert Fifo(s0) && Served(s0);
    PushesArrive(s0, evs);
    assert [] + PushedIn(evs) == PushedIn(evs);
    EveryRunIsSafe(s0, evs);
  }

  /** The methods of the class are the steps, on the queue under the lock. */
  method PushStep<T>(q: Queue<T>, ghost s: State<T>, t: nat, v: T, ghost woken: Option<nat>)
    requires q.dataQueue == s.queue && Enabled(s, Push(t, v, woken))
    modifies q
    ensures q.dataQueue == Apply(s, Push(t, v, woken)).queue
  {
    q.Push(v);
  }

  /** `ev` is a pop of any kind. */
  method PopStep<T>(q: Queue<T>, ghost s: State<T>, ghost ev: Event<T>) returns (value: Option<T>)
    requires q.dataQueue == s.queue && Pops(ev) && Enabled(s, ev)
    modifies q
    ensures q.dataQueue == Apply(s, ev).queue
    ensures Apply(s, ev).popped == if value.Some? then s.popped + [(ev.thread, value.value)] else s.popped
  {
    StepMoves(s, ev);
    value := q.TryPop();
  }

  // ---------- Safety of every run ----------

  function Values<T>(popped: seq<(nat, T)>): (vs: seq<T>)
    ensures |vs| == |popped|
  {
    seq(|popped|, i requires 0 <= i < |popped| => popped[i].1)
  }

  ghost predicate Fifo<T>(s: State<T>) {
    s.pushed == Values(s.popped) + s.queue
  }

  /** While some thread waits unnotified, there are notified threads for all queued items. */
  ghost predicate Served<T>(s: State<T>) {
    In(s, Waiting) != {} ==> |s.queue| <= |In(s, Notified)|
  }

  lemma PhaseChange<T>(s: State<T>, s': State<T>, t: nat, p: Phase)
    requires t in s.phase && s'.phase == s.phase[t := p]
    ensures forall x: Phase :: In(s', x) == if x == p then In(s, x) + {t} else In(s, x) - {t}
  {
  }

  lemma PopKeepsFifo<T>(s: State<T>, t: nat)
    requires Fifo(s)
    ensures Fifo(Pop(s, t))
  {
    if s.queue != [] {
      var v := s.queue[0];
      assert s.queue == [v] + Rest(s.queue);
      assert Values(s.popped + [(t, v)]) == Values(s.popped) + [v];
    }
  }

  lemma CheckKeeps<T>(s: State<T>, t: nat)
    requires Fifo(s) && Served(s) && t in s.phase && s.phase[t] != Waiting
    ensures Fifo(CheckPredicate(s, t)) && Served(CheckPredicate(s, t))
  {
    PopKeepsFifo(s, t);
    var s' := CheckPredicate(s, t);
    PhaseChange(s, s', t, if s.queue == [] then Waiting else Active);
    assert In(s', Notified) == In(s, Notified) - {t};
  }

  lemma StepKeeps<T>(s: State<T>, ev: Event<T>)
    requires Enabled(s, ev) && Fifo(s) && Served(s)
    ensures Fifo(Apply(s, ev)) && Served(Apply(s, ev))
  {
    var s' := Apply(s, ev);
    match ev
    case Push(_, v, woken) =>
      assert Values(s.popped) + s.queue + [v] == Values(s.popped) + (s.queue + [v]);
      if woken.Some? {
        PhaseChange(s, s', woken.value, Notified);
        assert |In(s', Notified)| == |In(s, Notified)| + 1;
      }
    case TryPop(t) =>
      PopKeepsFifo(s, t);
    case WaitAndPop(t) =>
      CheckKeeps(s, t);
    case Resume(t) =>
      CheckKeeps(s, t);
    case SpuriousWake(t) =>
      PhaseChange(s, s', t, Notified);
  }

  /** First in, first out, and no wakeup is lost: in every state of every run, with any
    number of pushers, waiters and try-poppers, the values popped so far followed by the
    queue are the values pushed, and the waiters are served. */
  lemma {:induction false} EveryRunIsSafe<T>(s: State<T>, evs: seq<Event<T>>)
    requires Possible(s, evs) && Fifo(s) && Served(s)
    ensures Fifo(After(s, evs)) && Served(After(s, evs))
    decreases |evs|
  {
    if evs != [] {
      StepKeeps(s, evs[0]);
      EveryRunIsSafe(Apply(s, evs[0]), evs[1..]);
    }
  }

  /** What that means for a waiting thread: whenever there is an item for it, some thread
    has been woken, and the first such thread to get the mutex takes the first item. */
  lemma WaitingIsWorkedFor<T>(threads: set<nat>, evs: seq<Event<T>>)
    requires Possible(Start(threads), evs)
    ensures var s := After(Start(threads), evs);
            In(s, Waiting) != {} && s.queue != [] ==>
              && In(s, Notified) != {}
              && forall t :: t in In(s, Notified) ==>
                   Enabled(s, Resume(t)) && Apply(s, Resume(t)).popped == s.popped + [(t, s.queue[0])]
  {
    var s0: State<T> := Start(threads);
    assert Fifo(s0) && Served(s0);
    EveryRunIsSafe(s0, evs);
  }

  /** Left alone, the woken threads settle: resuming them takes no more steps than there
    are woken threads, and when none is left, no thread waits beside a queued item. */
  lemma {:induction false} WokenThreadsSettle<T>(s: State<T>, evs: seq<Event<T>>)
    requires Possible(s, evs) && Fifo(s) && Served(s)
    requires forall ev :: ev in evs ==> ev.Resume?
    ensures |evs| + |In(After(s, evs), Notified)| == |In(s, Notified)|
    ensures In(After(s, evs), Notified) == {} ==>
              In(After(s, evs), Waiting) == {} || After(s, evs).queue == []
    decreases |evs|
  {
    if evs != [] {
      var t, s' := evs[0].thread, Apply(s, evs[0]);
      assert evs[0] in evs;
      StepKeeps(s, evs[0]);
      PhaseChange(s, s', t, if s.queue == [] then Waiting else Active);
      assert In(s', Notified) == In(s, Notified) - {t} && t in In(s, Notified);
      WokenThreadsSettle(s', evs[1..]);
    }
  }
}
