/** The clang-tidy worker pool (run_tidy and main in tools/run-clang-tidy.py), as a system
  of steps: a main thread that fills a bounded queue and joins it, and one worker thread
  for each unit of max_task. Workers raise no exception. */
module TidyPool {

  /** `running` lists the busy workers with their files, `exiting` the workers that have
    recorded their result and not yet called task_done. `unfinished` is the counter of
    the Python queue. `ran` records each finished run with its return code. */
  datatype Pool = Pool(
    toPut: seq<string>,
    queue: seq<string>,
    running: seq<(nat, string)>,
    exiting: seq<nat>,
    unfinished: int,
    failed: seq<string>,
    joined: bool,
    ran: seq<(string, int)>)

  datatype Event =
    | Put
    | Take(worker: nat)
    | Exit(worker: nat, code: int)
    | TaskDone(worker: nat)
    | Join

  predicate Runs(running: seq<(nat, string)>, w: nat) {
    exists i :: 0 <= i < |running| && running[i].0 == w
  }

  predicate Idle(s: Pool, w: nat) {
    w !in s.exiting && !Runs(s.running, w)
  }

  /** A queue whose size limit is not positive is unbounded; a range that is not positive
    starts no worker. */
  predicate Enabled(s: Pool, ev: Event, maxTask: int) {
    match ev
    case Put => s.toPut != [] && (maxTask <= 0 || |s.queue| < maxTask)
    case Take(w) => w < maxTask && Idle(s, w) && s.queue != []
    case Exit(w, _) => Runs(s.running, w)
    case TaskDone(w) => w in s.exiting
    case Join => s.toPut == [] && s.unfinished == 0 && !s.joined
  }

  function Without<T>(s: seq<T>, i: nat): (r: seq<T>)
    requires i < |s|
    ensures |r| == |s| - 1
  {
    s[..i] + s[i + 1..]
  }

  /** Where a busy worker stands in the list. */
  function SlotOf(running: seq<(nat, string)>, w: nat): (i: nat)
    requires Runs(running, w)
    ensures i < |running| && running[i].0 == w
  {
    if running[0].0 == w then 0 else 1 + SlotOf(running[1..], w)
  }

  function PlaceOf(exiting: seq<nat>, w: nat): (i: nat)
    requires w in exiting
    ensures i < |exiting| && exiting[i] == w
  {
    if exiting[0] == w then 0 else 1 + PlaceOf(exiting[1..], w)
  }

  function Apply(s: Pool, ev: Event, maxTask: int): Pool
    requires Enabled(s, ev, maxTask)
  {
    match ev
    case Put => s.(toPut := s.toPut[1..], queue := s.queue + [s.toPut[0]], unfinished := s.unfinished + 1)
    case Take(w) => s.(queue := s.queue[1..], running := s.running + [(w, s.queue[0])])
    case Exit(w, code) =>
      var slot := SlotOf(s.running, w);
      var name := s.running[slot].1;
      s.(running := Without(s.running, slot), exiting := s.exiting + [w],
         failed := if code != 0 then s.failed + [name] else s.failed,
         ran := s.ran + [(name, code)])
    case TaskDone(w) => s.(exiting := Without(s.exiting, PlaceOf(s.exiting, w)), unfinished := s.unfinished - 1)
    case Join => s.(joined := true)
  }

  predicate Possible(s: Pool, evs: seq<Event>, maxTask: int)
    decreases |evs|
  {
    evs == [] || (Enabled(s, evs[0], maxTask) && Possible(Apply(s, evs[0], maxTask), evs[1..], maxTask))
  }

  function After(s: Pool, evs: seq<Event>, maxTask: int): Pool
    requires Possible(s, evs, maxTask)
    decreases |evs|
  {
    if evs == [] then s else After(Apply(s, evs[0], maxTask), evs[1..], maxTask)
  }

  function Start(files: seq<string>): Pool {
    Pool(files, [], [], [], 0, [], false, [])
  }

  function ReturnCode(s: Pool): int {
    if |s.failed| != 0 then 1 else 0
  }

  // ---------- Conservation ----------

  function Files(running: seq<(nat, string)>): (fs: seq<string>)
    ensures |fs| == |running|
  {
    seq(|running|, i requires 0 <= i < |running| => running[i].1)
  }

  function Names(ran: seq<(string, int)>): (ns: seq<string>)
    ensures |ns| == |ran|
  {
    seq(|ran|, i requires 0 <= i < |ran| => ran[i].0)
  }

  function Failures(ran: seq<(string, int)>): seq<string> {
    if ran == [] then []
    else
      var last := ran[|ran| - 1];
      Failures(ran[..|ran| - 1]) + if last.1 != 0 then [last.0] else []
  }

  /** Every file is in one place, the counter counts what is queued or in a worker's hands,
    the list of failures is exact, and the main thread is past join only when all is done. */
  ghost predicate Inv(files: seq<string>, s: Pool) {
    && multiset(files) == multiset(s.toPut) + multiset(s.queue) + multiset(Files(s.running)) + multiset(Names(s.ran))
    && s.unfinished == |s.queue| + |s.running| + |s.exiting|
    && s.failed == Failures(s.ran)
    && (s.joined ==> s.toPut == [] && s.unfinished == 0)
  }

  lemma FirstOut<T>(s: seq<T>)
    requires s != []
    ensures multiset(s) == multiset{s[0]} + multiset(s[1..])
  {
    assert s == [s[0]] + s[1..];
  }

  lemma SlotOut(running: seq<(nat, string)>, i: nat)
    requires i < |running|
    ensures multiset(Files(running)) == multiset{running[i].1} + multiset(Files(Without(running, i)))
  {
    var fs := Files(running);
    assert fs == fs[..i] + [fs[i]] + fs[i + 1..];
    assert Files(Without(running, i)) == fs[..i] + fs[i + 1..];
  }

  lemma ExitKeeps(files: seq<string>, s: Pool, w: nat, code: int, maxTask: int)
    requires Inv(files, s) && Runs(s.running, w)
    ensures Inv(files, Apply(s, Exit(w, code), maxTask))
  {
    var slot := SlotOf(s.running, w);
    SlotOut(s.running, slot);
    var name := s.running[slot].1;
    var ran := s.ran + [(name, code)];
    assert Names(ran) == Names(s.ran) + [name];
    assert ran[..|ran| - 1] == s.ran;
  }

  lemma StepKeeps(files: seq<string>, s: Pool, ev: Event, maxTask: int)
    requires Inv(files, s) && Enabled(s, ev, maxTask)
    ensures Inv(files, Apply(s, ev, maxTask))
  {
    match ev
    case Put => FirstOut(s.toPut);
    case Take(w) =>
      FirstOut(s.queue);
      assert Files(s.running + [(w, s.queue[0])]) == Files(s.running) + [s.queue[0]];
    case Exit(w, code) =>
      ExitKeeps(files, s, w, code, maxTask);
    case TaskDone(_) =>
    case Join =>
  }

  // ---------- What a run has done, by its events alone ----------

  function Takes(evs: seq<Event>): nat {
    if evs == [] then 0
    else Takes(evs[..|evs| - 1]) + if evs[|evs| - 1].Take? then 1 else 0
  }

  function Puts(evs: seq<Event>): nat {
    if evs == [] then 0
    else Puts(evs[..|evs| - 1]) + if evs[|evs| - 1].Put? then 1 else 0
  }

  /** The worker's last take was this one of all takes. */
  ghost predicate Took(evs: seq<Event>, w: nat, k: nat) {
    evs != [] &&
    (if evs[|evs| - 1] == Take(w) then k == Takes(evs[..|evs| - 1]) else Took(evs[..|evs| - 1], w, k))
  }

  /** The record of the i-th run: its code, and the file of its worker, the k-th take having
    got the k-th file. */
  ghost predicate RecordOf(files: seq<string>, evs: seq<Event>, at: nat, entry: (string, int)) {
    && at < |evs| && evs[at].Exit? && entry.1 == evs[at].code
    && exists k: nat :: Took(evs[..at], evs[at].worker, k) && k < |files| && entry.0 == files[k]
  }

  /** The exits among the events, in order. */
  function Exits(evs: seq<Event>): (ats: seq<nat>)
    ensures forall i :: 0 <= i < |ats| ==> ats[i] < |evs| && evs[ats[i]].Exit?
  {
    if evs == [] then []
    else
      var n := |evs| - 1;
      var init := Exits(evs[..n]);
      if evs[n].Exit? then init + [n] else init
  }

  ghost predicate Recorded(files: seq<string>, evs: seq<Event>, ran: seq<(string, int)>) {
    && |ran| == |Exits(evs)|
    && forall i :: 0 <= i < |ran| ==> RecordOf(files, evs, Exits(evs)[i], ran[i])
  }

  /** Files are put and taken in the order given; a busy worker holds the file it took; and
    every exit is recorded, with its code and its worker's file. */
  ghost predicate History(files: seq<string>, evs: seq<Event>, s: Pool) {
    && Takes(evs) <= Puts(evs) <= |files|
    && s.toPut == files[Puts(evs)..] && s.queue == files[Takes(evs)..Puts(evs)]
    && (forall i :: 0 <= i < |s.running| ==> HoldsTaken(files, evs, s.running[i]))
    && Recorded(files, evs, s.ran)
  }

  ghost predicate HoldsTaken(files: seq<string>, evs: seq<Event>, busy: (nat, string)) {
    exists k: nat :: Took(evs, busy.0, k) && k < |files| && busy.1 == files[k]
  }

  lemma {:induction false} AfterLast(s: Pool, evs: seq<Event>, ev: Event, maxTask: int)
    requires Possible(s, evs + [ev], maxTask)
    ensures Possible(s, evs, maxTask) && Enabled(After(s, evs, maxTask), ev, maxTask)
    ensures After(s, evs + [ev], maxTask) == Apply(After(s, evs, maxTask), ev, maxTask)
    decreases |evs|
  {
    if evs == [] {
      assert [ev][1..] == [] && evs + [ev] == [ev];
    } else {
      assert (evs + [ev])[1..] == evs[1..] + [ev];
      AfterLast(Apply(s, evs[0], maxTask), evs[1..], ev, maxTask);
    }
  }

  lemma RecordedMore(files: seq<string>, evs: seq<Event>, ev: Event, ran: seq<(string, int)>)
    requires Recorded(files, evs, ran) && !ev.Exit?
    ensures Recorded(files, evs + [ev], ran)
  {
    var more := evs + [ev];
    assert more[..|evs|] == evs;
    forall i | 0 <= i < |ran| ensures RecordOf(files, more, Exits(more)[i], ran[i]) {
      var at := Exits(evs)[i];
      assert RecordOf(files, evs, at, ran[i]) && more[..at] == evs[..at];
    }
  }

  lemma RecordedExit(files: seq<string>, evs: seq<Event>, w: nat, name: string, code: int, ran: seq<(string, int)>)
    requires Recorded(files, evs, ran) && HoldsTaken(files, evs, (w, name))
    ensures Recorded(files, evs + [Exit(w, code)], ran + [(name, code)])
  {
    var more, all := evs + [Exit(w, code)], ran + [(name, code)];
    assert more[..|evs|] == evs;
    forall i | 0 <= i < |all| ensures RecordOf(files, more, Exits(more)[i], all[i]) {
      if i < |ran| {
        var at := Exits(evs)[i];
        assert RecordOf(files, evs, at, ran[i]) && more[..at] == evs[..at];
      }
    }
  }

  lemma StillHolds(files: seq<string>, evs: seq<Event>, ev: Event, busy: (nat, string))
    requires HoldsTaken(files, evs, busy) && ev != Take(busy.0)
    ensures HoldsTaken(files, evs + [ev], busy)
  {
    var k: nat :| Took(evs, busy.0, k) && k < |files| && busy.1 == files[k];
    assert (evs + [ev])[..|evs|] == evs;
    assert Took(evs + [ev], busy.0, k);
  }

  lemma RunningMore(files: seq<string>, evs: seq<Event>, s: Pool, ev: Event, maxTask: int)
    requires History(files, evs, s) && Enabled(s, ev, maxTask)
    ensures forall i :: 0 <= i < |Apply(s, ev, maxTask).running| ==>
              HoldsTaken(files, evs + [ev], Apply(s, ev, maxTask).running[i])
  {
    var more, running := evs + [ev], Apply(s, ev, maxTask).running;
    assert more[..|evs|] == evs;
    if ev.Take? {
      assert Took(more, ev.worker, Takes(evs));
      assert HoldsTaken(files, more, (ev.worker, s.queue[0]));
    }
    forall i | 0 <= i < |running| && running[i] in s.running ensures HoldsTaken(files, more, running[i]) {
      var was :| 0 <= was < |s.running| && running[i] == s.running[was];
      StillHolds(files, evs, ev, s.running[was]);
    }
  }

  lemma HistoryMore(files: seq<string>, evs: seq<Event>, s: Pool, ev: Event, maxTask: int)
    requires History(files, evs, s) && Enabled(s, ev, maxTask)
    ensures History(files, evs + [ev], Apply(s, ev, maxTask))
  {
    assert (evs + [ev])[..|evs|] == evs;
    RunningMore(files, evs, s, ev, maxTask);
    if ev.Exit? {
      var slot := SlotOf(s.running, ev.worker);
      assert HoldsTaken(files, evs, s.running[slot]);
      RecordedExit(files, evs, ev.worker, s.running[slot].1, ev.code, s.ran);
    } else {
      RecordedMore(files, evs, ev, s.ran);
    }
  }

  lemma {:induction false} HistoryOf(files: seq<string>, evs: seq<Event>, maxTask: int)
    requires Possible(Start(files), evs, maxTask)
    ensures History(files, evs, After(Start(files), evs, maxTask))
    decreases |evs|
  {
    if evs != [] {
      var init, ev := evs[..|evs| - 1], evs[|evs| - 1];
      assert evs == init + [ev];
      AfterLast(Start(files), init, ev, maxTask);
      HistoryOf(files, init, maxTask);
      HistoryMore(files, init, After(Start(files), init, maxTask), ev, maxTask);
    }
  }

  // ---------- Progress ----------

  /** Until join has returned some step is possible, if there is a worker at all. */
  lemma SomeStep(files: seq<string>, s: Pool, maxTask: int) returns (ev: Event)
    requires Inv(files, s) && !s.joined && maxTask >= 1
    ensures Enabled(s, ev, maxTask)
  {
    if s.exiting != [] {
      ev := TaskDone(s.exiting[0]);
    } else if s.running != [] {
      assert Runs(s.running, s.running[0].0);
      ev := Exit(s.running[0].0, 0);
    } else if s.queue != [] {
      ev := Take(0);
    } else if s.toPut != [] {
      ev := Put;
    } else {
      ev := Join;
    }
  }

  function StepsLeft(s: Pool): nat {
    4 * |s.toPut| + 3 * |s.queue| + 2 * |s.running| + |s.exiting| + if s.joined then 0 else 1
  }

  lemma {:induction false} RunsAreBounded(s: Pool, evs: seq<Event>, maxTask: int)
    requires Possible(s, evs, maxTask)
    ensures |evs| + StepsLeft(After(s, evs, maxTask)) == StepsLeft(s)
    decreases |evs|
  {
    if evs != [] {
      RunsAreBounded(Apply(s, evs[0], maxTask), evs[1..], maxTask);
    }
  }

  /** The queue never holds more than its limit, if it has one. */
  lemma {:induction false} QueueIsBounded(s: Pool, evs: seq<Event>, maxTask: int)
    requires Possible(s, evs, maxTask) && maxTask > 0 && |s.queue| <= maxTask
    ensures |After(s, evs, maxTask).queue| <= maxTask
    decreases |evs|
  {
    if evs != [] {
      QueueIsBounded(Apply(s, evs[0], maxTask), evs[1..], maxTask);
    }
  }

  // ---------- The theorems ----------

  lemma {:induction false} RunKeeps(files: seq<string>, s: Pool, evs: seq<Event>, maxTask: int)
    requires Possible(s, evs, maxTask) && Inv(files, s)
    ensures Inv(files, After(s, evs, maxTask))
    decreases |evs|
  {
    if evs != [] {
      StepKeeps(files, s, evs[0], maxTask);
      RunKeeps(files, Apply(s, evs[0], maxTask), evs[1..], maxTask);
    }
  }

  lemma {:induction false} FailuresEmpty(ran: seq<(string, int)>)
    ensures Failures(ran) == [] <==> forall r :: r in ran ==> r.1 == 0
  {
    if ran != [] {
      var init, last := ran[..|ran| - 1], ran[|ran| - 1];
      assert ran == init + [last];
      FailuresEmpty(init);
      assert forall r :: r in ran <==> r in init || r == last;
    }
  }

  /** When join returns, whatever the order of steps was, each selected file has been run
    exactly once, by the worker that took it, and the return code is 1 exactly when some
    process exited with a code that is not 0, and 0 otherwise. */
  lemma WhenJoined(files: seq<string>, evs: seq<Event>, maxTask: int)
    requires Possible(Start(files), evs, maxTask) && After(Start(files), evs, maxTask).joined
    ensures var s := After(Start(files), evs, maxTask);
            && multiset(Names(s.ran)) == multiset(files) && Recorded(files, evs, s.ran)
            && (ReturnCode(s) == 1 <==> SomeFailed(evs)) && (ReturnCode(s) == 0 <==> !SomeFailed(evs))
  {
    RunKeeps(files, Start(files), evs, maxTask);
    HistoryOf(files, evs, maxTask);
    var ran := After(Start(files), evs, maxTask).ran;
    FailuresEmpty(ran);
    if SomeFailed(evs) {
      var at: nat :| at < |evs| && evs[at].Exit? && evs[at].code != 0;
      ExitIsListed(evs, at);
      var i :| 0 <= i < |Exits(evs)| && Exits(evs)[i] == at;
      assert RecordOf(files, evs, at, ran[i]) && ran[i] in ran;
    }
    if r :| r in ran && r.1 != 0 {
      var i :| 0 <= i < |ran| && ran[i] == r;
      assert RecordOf(files, evs, Exits(evs)[i], r);
    }
  }

  /** Some clang-tidy process of the run exited with a code that is not 0. */
  predicate SomeFailed(evs: seq<Event>) {
    exists at: nat :: at < |evs| && evs[at].Exit? && evs[at].code != 0
  }

  lemma {:induction false} ExitIsListed(evs: seq<Event>, at: nat)
    requires at < |evs| && evs[at].Exit?
    ensures at in Exits(evs)
    decreases |evs|
  {
    if at < |evs| - 1 {
      ExitIsListed(evs[..|evs| - 1], at);
    }
  }

  /** With at least one worker no run is stuck before join returns, and every run is over
    after at most four steps per file and one more. */
  lemma NeverStuck(files: seq<string>, evs: seq<Event>, maxTask: int)
    requires maxTask >= 1 && Possible(Start(files), evs, maxTask)
    ensures |evs| <= 4 * |files| + 1
    ensures !After(Start(files), evs, maxTask).joined ==>
              exists ev :: Enabled(After(Start(files), evs, maxTask), ev, maxTask)
  {
    RunKeeps(files, Start(files), evs, maxTask);
    RunsAreBounded(Start(files), evs, maxTask);
    var s := After(Start(files), evs, maxTask);
    if !s.joined {
      var ev := SomeStep(files, s, maxTask);
    }
  }

  /** Without a worker, as a negative -j asks for, join returns only if no file was
    selected: nothing ever leaves the queue. */
  lemma {:induction false} NoWorkerNoJoin(s: Pool, evs: seq<Event>, maxTask: int)
    requires maxTask < 1 && Possible(s, evs, maxTask)
    requires s.running == [] && s.exiting == [] && s.unfinished == |s.queue| && !s.joined
    requires |s.toPut| + |s.queue| > 0
    ensures !After(s, evs, maxTask).joined
    decreases |evs|
  {
    if evs != [] {
      NoWorkerNoJoin(Apply(s, evs[0], maxTask), evs[1..], maxTask);
    }
  }

  ghost predicate Joins(s: Pool, evs: seq<Event>, maxTask: int) {
    Possible(s, evs, maxTask) && After(s, evs, maxTask).joined
  }

  /** The pool can come to its end exactly when there is a worker or nothing to do. */
  lemma CanFinish(files: seq<string>, maxTask: int)
    ensures (exists evs :: Joins(Start(files), evs, maxTask))
            <==> maxTask >= 1 || files == []
  {
    if maxTask >= 1 {
      var evs := Finish(files, Start(files), maxTask);
    } else if files == [] {
      var evs := [Join];
      assert evs[1..] == [];
      assert Joins(Start(files), evs, maxTask);
    } else {
      forall evs | Possible(Start(files), evs, maxTask) ensures !Joins(Start(files), evs, maxTask) {
        NoWorkerNoJoin(Start(files), evs, maxTask);
      }
    }
  }

  lemma {:induction false} Finish(files: seq<string>, s: Pool, maxTask: int) returns (evs: seq<Event>)
    requires Inv(files, s) && maxTask >= 1
    ensures Joins(s, evs, maxTask)
    decreases StepsLeft(s)
  {
    if s.joined {
      evs := [];
    } else {
      var ev := SomeStep(files, s, maxTask);
      StepKeeps(files, s, ev, maxTask);
      var rest := Finish(files, Apply(s, ev, maxTask), maxTask);
      evs := [ev] + rest;
      assert evs[1..] == rest;
    }
  }
}
