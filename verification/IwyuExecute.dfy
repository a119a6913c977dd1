/** Running the IWYU processes (execute in tools/iwyu_tool.py): a bounded parallel job
  loop, and the sequential loop it has to agree with. What a process prints (after
  formatting) and its return code are properties of the process; when it ends and what
  the machine's load is are inputs, arbitrary in every round. */
module IwyuExecute {

  datatype Process = Process(id: nat, output: string, code: int)

  function Max(a: int, b: int): int {
    if a < b then b else a
  }

  function MaxCode(ps: seq<Process>): (m: int)
    ensures m >= 0
  {
    if ps == [] then 0 else Max(MaxCode(ps[..|ps| - 1]), ps[|ps| - 1].code)
  }

  function Outputs(ps: seq<Process>): (out: seq<string>)
    ensures |out| == |ps| && forall i :: 0 <= i < |ps| ==> out[i] == ps[i].output
  {
    seq(|ps|, i requires 0 <= i < |ps| => ps[i].output)
  }

  // ---------- One round ----------

  /** The locals of the loop. `printed` lists the processes whose output has been printed. */
  datatype Jobs = Jobs(unstarted: seq<Process>, pending: seq<Process>, printed: seq<Process>, exitCode: int)

  function Start(ps: seq<Process>): Jobs {
    Jobs(ps, [], [], 0)
  }

  /** The processes whose poll gives a return code. */
  function Completed(pending: seq<Process>, ended: set<nat>): seq<Process> {
    if pending == [] then []
    else (if pending[0].id in ended then [pending[0]] else []) + Completed(pending[1..], ended)
  }

  lemma {:induction false} CompletedArePending(pending: seq<Process>, ended: set<nat>)
    ensures multiset(Completed(pending, ended)) <= multiset(pending)
    ensures forall p :: p in Completed(pending, ended) <==> p in pending && p.id in ended
  {
    if pending != [] {
      CompletedArePending(pending[1..], ended);
      assert pending == [pending[0]] + pending[1..];
    }
  }

  /** list.remove: the first equal element goes. */
  function Remove(ps: seq<Process>, p: Process): seq<Process>
    requires p in ps
  {
    if ps[0] == p then ps[1..] else [ps[0]] + Remove(ps[1..], p)
  }

  lemma {:induction false} RemoveTakesOne(ps: seq<Process>, p: Process)
    requires p in ps
    ensures multiset(Remove(ps, p)) == multiset(ps) - multiset{p}
    ensures |Remove(ps, p)| == |ps| - 1
  {
    assert ps == [ps[0]] + ps[1..];
    if ps[0] != p {
      RemoveTakesOne(ps[1..], p);
    }
  }

  function CollectOne(st: Jobs, p: Process): Jobs
    requires p in st.pending
  {
    st.(pending := Remove(st.pending, p), printed := st.printed + [p],
        exitCode := Max(st.exitCode, p.code))
  }

  lemma HeadIsPending(done: seq<Process>, pending: seq<Process>)
    requires done != [] && multiset(done) <= multiset(pending)
    ensures done[0] in pending
    ensures multiset(done) == multiset{done[0]} + multiset(done[1..])
    ensures multiset(done[1..]) <= multiset(pending) - multiset{done[0]}
  {
    assert done == [done[0]] + done[1..];
    assert done[0] in multiset(done);
  }

  function Collect(st: Jobs, done: seq<Process>): Jobs
    requires multiset(done) <= multiset(st.pending)
    decreases |done|
  {
    if done == [] then st
    else
      HeadIsPending(done, st.pending);
      RemoveTakesOne(st.pending, done[0]);
      Collect(CollectOne(st, done[0]), done[1..])
  }

  /** How many processes may start, given how many run. A positive limit on the load
    average reduces it to what the load leaves, but to no less than one if none runs. */
  function Capacity(jobs: int, running: nat, maxLoad: real, load: real): int {
    var capacity := jobs - running;
    if maxLoad > 0.0 then
      var free := if maxLoad - load < 0.0 then 0.0 else maxLoad - load;
      if free < capacity as real then
        (if free.Floor == 0 && running == 0 then 1 else free.Floor)
      else capacity
    else capacity
  }

  /** The index at which a Python slice with the bound c cuts a list of n elements. */
  function Cut(n: nat, c: int): (i: nat)
    ensures i <= n
  {
    if c >= n then n else if c >= 0 then c else if n + c >= 0 then n + c else 0
  }

  function Launch(st: Jobs, capacity: int): Jobs {
    var cut := Cut(|st.unstarted|, capacity);
    st.(pending := st.pending + st.unstarted[..cut], unstarted := st.unstarted[cut..])
  }

  /** One iteration: collect what has ended, then start what there is room for. */
  function Round(st: Jobs, ended: set<nat>, jobs: int, maxLoad: real, load: real): Jobs {
    CompletedArePending(st.pending, ended);
    var c := Collect(st, Completed(st.pending, ended));
    Launch(c, Capacity(jobs, |c.pending|, maxLoad, load))
  }

  // ---------- What every round keeps ----------

  /** Every process is in exactly one place, those not started are the last of the input
    in their order, the exit code is that of the printed ones, and no more than `jobs`
    run at once. */
  ghost predicate Inv(ps: seq<Process>, jobs: int, st: Jobs) {
    && multiset(ps) == multiset(st.printed) + multiset(st.pending) + multiset(st.unstarted)
    && |st.unstarted| <= |ps| && st.unstarted == ps[|ps| - |st.unstarted|..]
    && st.exitCode == MaxCode(st.printed)
    && |st.pending| <= jobs
  }

  lemma {:induction false} CollectKeeps(ps: seq<Process>, jobs: int, st: Jobs, done: seq<Process>)
    requires Inv(ps, jobs, st) && multiset(done) <= multiset(st.pending)
    ensures Inv(ps, jobs, Collect(st, done))
    ensures multiset(Collect(st, done).pending) == multiset(st.pending) - multiset(done)
    ensures Collect(st, done).unstarted == st.unstarted
    decreases |done|
  {
    if done != [] {
      HeadIsPending(done, st.pending);
      RemoveTakesOne(st.pending, done[0]);
      CollectOneKeeps(ps, jobs, st, done[0]);
      CollectKeeps(ps, jobs, CollectOne(st, done[0]), done[1..]);
    }
  }

  lemma CollectOneKeeps(ps: seq<Process>, jobs: int, st: Jobs, p: Process)
    requires Inv(ps, jobs, st) && p in st.pending
    ensures Inv(ps, jobs, CollectOne(st, p))
  {
    RemoveTakesOne(st.pending, p);
    var printed := st.printed + [p];
    assert printed[..|printed| - 1] == st.printed;
  }

  lemma CapacityFits(jobs: int, running: nat, maxLoad: real, load: real)
    requires jobs >= 1 && running <= jobs
    ensures 0 <= Capacity(jobs, running, maxLoad, load) <= jobs - running
    ensures running == 0 ==> Capacity(jobs, running, maxLoad, load) >= 1
  {
  }

  lemma LaunchKeeps(ps: seq<Process>, jobs: int, st: Jobs, capacity: int)
    requires Inv(ps, jobs, st) && 0 <= capacity <= jobs - |st.pending|
    ensures Inv(ps, jobs, Launch(st, capacity))
  {
    var u, cut := st.unstarted, Cut(|st.unstarted|, capacity);
    assert u == u[..cut] + u[cut..];
    assert multiset(u) == multiset(u[..cut]) + multiset(u[cut..]);
  }

  lemma RoundKeeps(ps: seq<Process>, jobs: int, st: Jobs, ended: set<nat>, maxLoad: real, load: real)
    requires jobs >= 1 && Inv(ps, jobs, st)
    ensures Inv(ps, jobs, Round(st, ended, jobs, maxLoad, load))
  {
    var done := Completed(st.pending, ended);
    CompletedArePending(st.pending, ended);
    CollectKeeps(ps, jobs, st, done);
    var c := Collect(st, done);
    CapacityFits(jobs, |c.pending|, maxLoad, load);
    LaunchKeeps(ps, jobs, c, Capacity(jobs, |c.pending|, maxLoad, load));
  }

  /** A round in which everything pending has ended starts a process if one is left: the
    load limit cannot stop the last runner. */
  lemma RoundStarts(ps: seq<Process>, jobs: int, st: Jobs, ended: set<nat>, maxLoad: real, load: real)
    requires jobs >= 1 && Inv(ps, jobs, st)
    requires forall p :: p in st.pending ==> p.id in ended
    ensures var r := Round(st, ended, jobs, maxLoad, load);
            if st.unstarted == [] then r.pending == [] && r.unstarted == []
            else |r.unstarted| < |st.unstarted|
  {
    var done := Completed(st.pending, ended);
    CompletedArePending(st.pending, ended);
    AllCompleted(st.pending, ended);
    CollectKeeps(ps, jobs, st, done);
    var c := Collect(st, done);
    assert |c.pending| == |multiset(c.pending)| == 0;
    CapacityFits(jobs, 0, maxLoad, load);
  }

  lemma {:induction false} AllCompleted(pending: seq<Process>, ended: set<nat>)
    requires forall p :: p in pending ==> p.id in ended
    ensures Completed(pending, ended) == pending
  {
    if pending != [] {
      AllCompleted(pending[1..], ended);
    }
  }

  /** With less than one job the loop can never finish: while processes are left to start,
    every round leaves at least one. */
  lemma NoJobsNoEnd(st: Jobs, ended: set<nat>, jobs: int, maxLoad: real, load: real)
    requires jobs < 1 && st.unstarted != []
    ensures Round(st, ended, jobs, maxLoad, load).unstarted != []
  {
    CompletedArePending(st.pending, ended);
    CollectPrints(st, Completed(st.pending, ended));
  }

  // ---------- What a round does, exactly ----------

  predicate Counts(p: Process, ended: set<nat>, has: bool) {
    p.id in ended <==> has
  }

  function Count(pending: seq<Process>, ended: set<nat>, has: bool): (n: nat)
    ensures n <= |pending|
  {
    if pending == [] then 0
    else (if Counts(pending[0], ended, has) then 1 else 0) + Count(pending[1..], ended, has)
  }

  /** Each pending process that has ended, or each that has not, stands behind as many as
    there are such before it, and nothing else is there. */
  ghost predicate PartOf(part: seq<Process>, pending: seq<Process>, ended: set<nat>, has: bool) {
    && |part| == Count(pending, ended, has)
    && forall k: nat :: k < |pending| && Counts(pending[k], ended, has) ==> StandsAt(part, pending, ended, has, k)
  }

  ghost predicate StandsAt(part: seq<Process>, pending: seq<Process>, ended: set<nat>, has: bool, k: nat)
    requires k < |pending|
  {
    var before := Count(pending[..k], ended, has);
    before < |part| && part[before] == pending[k]
  }

  function StillRunning(pending: seq<Process>, ended: set<nat>): seq<Process> {
    if pending == [] then []
    else (if pending[0].id in ended then [] else [pending[0]]) + StillRunning(pending[1..], ended)
  }

  function Select(pending: seq<Process>, ended: set<nat>, has: bool): seq<Process> {
    if has then Completed(pending, ended) else StillRunning(pending, ended)
  }

  lemma StandsLater(part: seq<Process>, pending: seq<Process>, ended: set<nat>, has: bool, k: nat)
    requires 0 < k < |pending| && StandsAt(part, pending[1..], ended, has, k - 1)
    ensures StandsAt((if Counts(pending[0], ended, has) then [pending[0]] else []) + part, pending, ended, has, k)
  {
    assert pending[..k][1..] == pending[1..][..k - 1];
  }

  lemma {:induction false} SelectIsPart(pending: seq<Process>, ended: set<nat>, has: bool)
    ensures PartOf(Select(pending, ended, has), pending, ended, has)
    decreases |pending|
  {
    if pending != [] {
      SelectIsPart(pending[1..], ended, has);
      var part := Select(pending[1..], ended, has);
      forall k: nat | 0 < k < |pending| && Counts(pending[k], ended, has)
        ensures StandsAt(Select(pending, ended, has), pending, ended, has, k)
      {
        assert Counts(pending[1..][k - 1], ended, has);
        StandsLater(part, pending, ended, has, k);
      }
    }
  }

  lemma {:induction false} CollectPrints(st: Jobs, done: seq<Process>)
    requires multiset(done) <= multiset(st.pending)
    ensures Collect(st, done).printed == st.printed + done && Collect(st, done).unstarted == st.unstarted
    decreases |done|
  {
    if done == [] {
      assert st.printed + done == st.printed;
    } else {
      HeadIsPending(done, st.pending);
      RemoveTakesOne(st.pending, done[0]);
      CollectPrints(CollectOne(st, done[0]), done[1..]);
      assert st.printed + [done[0]] + done[1..] == st.printed + done;
    }
  }

  /** A process at the front that is not collected stays there. */
  lemma {:induction false} FrontStays(st: Jobs, p: Process, tail: seq<Process>, done: seq<Process>)
    requires st.pending == [p] + tail && p !in done && multiset(done) <= multiset(tail)
    ensures multiset(done) <= multiset(st.pending)
    ensures Collect(st, done).pending == [p] + Collect(st.(pending := tail), done).pending
    decreases |done|
  {
    assert multiset(st.pending) == multiset{p} + multiset(tail);
    if done != [] {
      var d := done[0];
      HeadIsPending(done, tail);
      HeadIsPending(done, st.pending);
      RemoveTakesOne(tail, d);
      RemoveTakesOne(st.pending, d);
      assert d != p && st.pending[1..] == tail;
      FrontStays(CollectOne(st, d), p, Remove(tail, d), done[1..]);
    }
  }

  /** One that is collected first goes. */
  lemma FrontGoes(st: Jobs, p: Process, tail: seq<Process>, done: seq<Process>)
    requires st.pending == [p] + tail && multiset(done) <= multiset(tail)
    ensures multiset([p] + done) <= multiset(st.pending)
    ensures CollectOne(st, p).pending == tail && Collect(st, [p] + done) == Collect(CollectOne(st, p), done)
  {
    assert multiset([p] + done) == multiset{p} + multiset(done);
    assert multiset(st.pending) == multiset{p} + multiset(tail);
    assert st.pending[1..] == tail && ([p] + done)[1..] == done;
  }

  lemma {:induction false} CollectLeaves(st: Jobs, ended: set<nat>)
    ensures multiset(Completed(st.pending, ended)) <= multiset(st.pending)
    ensures Collect(st, Completed(st.pending, ended)).pending == StillRunning(st.pending, ended)
    decreases |st.pending|
  {
    CompletedArePending(st.pending, ended);
    if st.pending != [] {
      var p, tail := st.pending[0], st.pending[1..];
      assert st.pending == [p] + tail;
      CompletedArePending(tail, ended);
      var done := Completed(tail, ended);
      if p.id in ended {
        FrontGoes(st, p, tail, done);
        CollectLeaves(CollectOne(st, p), ended);
      } else {
        assert [] + done == done;
        CollectLeaves(st.(pending := tail), ended);
        FrontStays(st, p, tail, done);
      }
    }
  }

  /** So many processes fit: they are there, there is room for them, and the load leaves it. */
  predicate Fits(n: nat, left: nat, room: int, maxLoad: real, load: real) {
    n <= left && n <= room && (maxLoad > 0.0 && n > 0 ==> n as real <= maxLoad - load)
  }

  /** The greatest number that fits starts, or one if none fits by the load alone while
    nothing runs. With less than no room the slice takes all but the last so many. */
  ghost predicate Starts(n: nat, left: nat, room: int, running: nat, maxLoad: real, load: real) {
    if room < 0 then n == if left + room < 0 then 0 else left + room
    else if running == 0 && room >= 1 && left >= 1 && !Fits(1, left, room, maxLoad, load) then n == 1
    else Fits(n, left, room, maxLoad, load) && forall m: nat :: Fits(m, left, room, maxLoad, load) ==> m <= n
  }

  lemma CapacityStarts(left: nat, jobs: int, running: nat, maxLoad: real, load: real)
    ensures Starts(Cut(left, Capacity(jobs, running, maxLoad, load)), left, jobs - running, running, maxLoad, load)
  {
    var n, room := Cut(left, Capacity(jobs, running, maxLoad, load)), jobs - running;
    if room >= 0 {
      forall m: nat | Fits(m, left, room, maxLoad, load) ensures m <= n {
        assert (m as real).Floor == m;
      }
    }
  }

  /** A round, for any polls, load and number of jobs: the pending processes that have ended
    are printed in pending order and leave, and of the unstarted ones the first so many
    start as Starts says. */
  lemma RoundIs(st: Jobs, ended: set<nat>, jobs: int, maxLoad: real, load: real)
    returns (printed: seq<Process>, stay: seq<Process>, n: nat)
    ensures PartOf(printed, st.pending, ended, true) && PartOf(stay, st.pending, ended, false)
    ensures n <= |st.unstarted| && Starts(n, |st.unstarted|, jobs - |stay|, |stay|, maxLoad, load)
    ensures var r := Round(st, ended, jobs, maxLoad, load);
            && r.printed == st.printed + printed
            && r.pending == stay + st.unstarted[..n] && r.unstarted == st.unstarted[n..]
  {
    printed, stay := Completed(st.pending, ended), StillRunning(st.pending, ended);
    SelectIsPart(st.pending, ended, true);
    SelectIsPart(st.pending, ended, false);
    CollectLeaves(st, ended);
    CollectPrints(st, printed);
    n := Cut(|st.unstarted|, Capacity(jobs, |stay|, maxLoad, load));
    CapacityStarts(|st.unstarted|, jobs, |stay|, maxLoad, load);
  }

  /** The load limit: a round starts nothing while others run and the load is at the limit,
    and one process at most if none runs; below the limit it starts no more than the
    load leaves room for, and without a limit all there is room for. */
  lemma LoadLimit(st: Jobs, ended: set<nat>, jobs: int, maxLoad: real, load: real)
    requires jobs >= 1 && |st.pending| <= jobs
    ensures var r := Round(st, ended, jobs, maxLoad, load);
            var started := |st.unstarted| - |r.unstarted|;
            var running := |r.pending| - started;
            var room := jobs - running;
            && (maxLoad > 0.0 && load >= maxLoad ==> started <= if running == 0 then 1 else 0)
            && (maxLoad > 0.0 && load < maxLoad && started > 1 ==> started as real <= maxLoad - load)
            && (maxLoad <= 0.0 ==> started == if |st.unstarted| <= room then |st.unstarted| else room)
  {
    var printed, stay, n := RoundIs(st, ended, jobs, maxLoad, load);
    var room := jobs - |stay|;
    var most := if |st.unstarted| <= room then |st.unstarted| else room;
    assert maxLoad <= 0.0 ==> Fits(most, |st.unstarted|, room, maxLoad, load);
  }

  // ---------- Any run ----------

  datatype Weather = Weather(ended: set<nat>, load: real)

  function Rounds(st: Jobs, run: seq<Weather>, jobs: int, maxLoad: real): Jobs
    decreases |run|
  {
    if run == [] then st
    else Rounds(Round(st, run[0].ended, jobs, maxLoad, run[0].load), run[1..], jobs, maxLoad)
  }

  /** Execute needs its precondition: without jobs no run at all gets to the end. */
  lemma {:induction false} NoJobsNeverOver(st: Jobs, run: seq<Weather>, jobs: int, maxLoad: real)
    requires jobs < 1 && st.unstarted != []
    ensures Rounds(st, run, jobs, maxLoad).unstarted != []
    decreases |run|
  {
    if run != [] {
      NoJobsNoEnd(st, run[0].ended, jobs, maxLoad, run[0].load);
      NoJobsNeverOver(Round(st, run[0].ended, jobs, maxLoad, run[0].load), run[1..], jobs, maxLoad);
    }
  }

  /** The parallel loop refines the sequential one. After any number of rounds, with any
    polls and loads, the invariant holds; and if the loop is over then what it printed is
    up to order what the sequential branch of Execute prints, and so is its exit code. */
  lemma ParallelRefinesSequential(ps: seq<Process>, run: seq<Weather>, jobs: int, maxLoad: real)
    requires jobs >= 1
    ensures var st := Rounds(Start(ps), run, jobs, maxLoad);
            && Inv(ps, jobs, st)
            && (st.unstarted == [] && st.pending == [] ==>
                  multiset(Outputs(st.printed)) == multiset(Outputs(ps)) && st.exitCode == MaxCode(ps))
  {
    assert ps[0..] == ps;
    RoundsKeep(ps, Start(ps), run, jobs, maxLoad);
    var st := Rounds(Start(ps), run, jobs, maxLoad);
    if st.unstarted == [] && st.pending == [] {
      SameResults(st.printed, ps);
    }
  }

  lemma {:induction false} RoundsKeep(ps: seq<Process>, st: Jobs, run: seq<Weather>, jobs: int, maxLoad: real)
    requires jobs >= 1 && Inv(ps, jobs, st)
    ensures Inv(ps, jobs, Rounds(st, run, jobs, maxLoad))
    decreases |run|
  {
    if run != [] {
      RoundKeeps(ps, jobs, st, run[0].ended, maxLoad, run[0].load);
      RoundsKeep(ps, Round(st, run[0].ended, jobs, maxLoad, run[0].load), run[1..], jobs, maxLoad);
    }
  }

  lemma SameResults(a: seq<Process>, b: seq<Process>)
    requires multiset(a) == multiset(b)
    ensures multiset(Outputs(a)) == multiset(Outputs(b))
    ensures MaxCode(a) == MaxCode(b)
  {
    SameOutputs(a, b);
    MaxCodeIsMax(a);
    MaxCodeIsMax(b);
    assert forall p :: p in a <==> p in multiset(a);
    assert forall p :: p in b <==> p in multiset(b);
  }

  lemma {:induction false} MaxCodeIsMax(ps: seq<Process>)
    ensures forall p :: p in ps ==> p.code <= MaxCode(ps)
    ensures MaxCode(ps) == 0 || exists p :: p in ps && p.code == MaxCode(ps)
  {
    if ps != [] {
      var init, last := ps[..|ps| - 1], ps[|ps| - 1];
      assert ps == init + [last];
      MaxCodeIsMax(init);
      if MaxCode(ps) == last.code {
        assert last in ps;
      } else if MaxCode(init) != 0 {
        var p :| p in init && p.code == MaxCode(init);
        assert p in ps;
      }
    }
  }

  lemma OutputsFirst(ps: seq<Process>)
    requires ps != []
    ensures multiset(Outputs(ps)) == multiset{ps[0].output} + multiset(Outputs(ps[1..]))
    ensures multiset(ps) == multiset{ps[0]} + multiset(ps[1..])
  {
    assert ps == [ps[0]] + ps[1..];
    assert Outputs(ps) == [ps[0].output] + Outputs(ps[1..]);
  }

  lemma {:induction false} SameOutputs(a: seq<Process>, b: seq<Process>)
    requires multiset(a) == multiset(b)
    ensures multiset(Outputs(a)) == multiset(Outputs(b))
    decreases |a|
  {
    assert |a| == |multiset(a)| == |multiset(b)| == |b|;
    if a != [] {
      OutputsFirst(a);
      assert a[0] in multiset(b);
      RemoveTakesOne(b, a[0]);
      SameOutputs(a[1..], Remove(b, a[0]));
      OutputsWithout(b, a[0]);
    }
  }

  lemma {:induction false} OutputsWithout(ps: seq<Process>, p: Process)
    requires p in ps
    ensures multiset(Outputs(ps)) == multiset(Outputs(Remove(ps, p))) + multiset{p.output}
  {
    OutputsFirst(ps);
    RemoveTakesOne(ps, p);
    if ps[0] != p {
      OutputsWithout(ps[1..], p);
      var r := Remove(ps, p);
      OutputsFirst(r);
      assert r[1..] == Remove(ps[1..], p);
    }
  }

  // ---------- The loops ----------

  method Execute(ps: seq<Process>, jobs: int, maxLoad: real, endsBy: nat -> nat, load: nat -> real)
    returns (printed: seq<string>, exitCode: int)
    requires jobs >= 1 || ps == []
    ensures exitCode == MaxCode(ps)
    ensures multiset(printed) == multiset(Outputs(ps))
    ensures jobs == 1 ==> printed == Outputs(ps)
  {
    exitCode, printed := 0, [];
    if jobs == 1 {
      for i := 0 to |ps|
        invariant printed == Outputs(ps[..i]) && exitCode == MaxCode(ps[..i])
      {
        printed := printed + [ps[i].output];
        exitCode := Max(exitCode, ps[i].code);
        assert ps[..i + 1][..i] == ps[..i];
      }
      assert ps[..|ps|] == ps;
      return;
    }
    var st := Start(ps);
    var round := 0;
    ghost var last := LastEnd(ps, endsBy);
    assert ps[0..] == ps;
    while st.unstarted != [] || st.pending != []
      invariant ps != [] ==> Inv(ps, jobs, st)
      invariant ps == [] ==> st == Start(ps)
      decreases if round < last then last - round else 0, |st.unstarted|, |st.pending|
    {
      var ended := Ended(st.pending, endsBy, round);
      RoundKeeps(ps, jobs, st, ended, maxLoad, load(round));
      if round >= last {
        forall p | p in st.pending ensures p.id in ended {
          assert p in multiset(st.pending);
          assert p in multiset(ps);
          assert p in ps;
        }
        RoundStarts(ps, jobs, st, ended, maxLoad, load(round));
      }
      st := RunRound(st, ended, jobs, maxLoad, load(round));
      round := round + 1;
    }
    assert multiset(st.printed) == multiset(ps);
    SameResults(st.printed, ps);
    printed, exitCode := Outputs(st.printed), st.exitCode;
  }

  /** The polls of one round. */
  function Ended(pending: seq<Process>, endsBy: nat -> nat, round: nat): (ended: set<nat>)
    ensures forall p :: p in pending ==> (p.id in ended <==> endsBy(p.id) <= round)
  {
    set p | p in pending && endsBy(p.id) <= round :: p.id
  }

  lemma LastEnd(ps: seq<Process>, endsBy: nat -> nat) returns (last: nat)
    ensures forall p :: p in ps ==> endsBy(p.id) <= last
  {
    last := 0;
    for i := 0 to |ps|
      invariant last >= 0 && forall j :: 0 <= j < i ==> endsBy(ps[j].id) <= last
    {
      last := Max(last, endsBy(ps[i].id));
    }
  }

  /** The body of the loop. */
  method RunRound(st: Jobs, ended: set<nat>, jobs: int, maxLoad: real, load: real) returns (r: Jobs)
    ensures r == Round(st, ended, jobs, maxLoad, load)
  {
    CompletedArePending(st.pending, ended);
    r := CollectAll(st, Completed(st.pending, ended));
    var capacity := jobs - |r.pending|;
    if maxLoad > 0.0 {
      var loadCapacity := maxLoad - load;
      if loadCapacity < 0.0 {
        loadCapacity := 0.0;
      }
      if loadCapacity < capacity as real {
        capacity := loadCapacity.Floor;
        if capacity == 0 && |r.pending| == 0 {
          capacity := 1;
        }
      }
    }
    r := Launch(r, capacity);
  }

  method CollectAll(st: Jobs, complete: seq<Process>) returns (r: Jobs)
    requires multiset(complete) <= multiset(st.pending)
    ensures r == Collect(st, complete)
  {
    r := st;
    for i := 0 to |complete|
      invariant multiset(complete[i..]) <= multiset(r.pending)
      invariant Collect(r, complete[i..]) == Collect(st, complete)
    {
      var proc := complete[i];
      HeadIsPending(complete[i..], r.pending);
      RemoveTakesOne(r.pending, proc);
      assert complete[i..][1..] == complete[i + 1..];
      r := r.(pending := Remove(r.pending, proc), printed := r.printed + [proc],
              exitCode := Max(r.exitCode, proc.code));
    }
  }
}
