/** Several tasks writing at once to the database and its mirror (set_component_db in
  app/utils/DB.h, get_all_values and update_sm in app/utils/DB.cpp). A write is three
  things: the values go in under the lock of their component, then the components are
  copied one by one, each under its lock, then the copy replaces the mirror. Other tasks
  may come in between. */
module Publishing {
  import opened Database
  import opened NameOrder

  /** Where a task is in set_component_db: outside, past the write, or copying, with the
    components it has still to copy and the copy so far. */
  datatype Phase = Outside | Wrote | Copying(todo: set<string>, view: Table)

  datatype State = State(db: Table, mirror: Table, phases: map<nat, Phase>)

  datatype Step =
    | Write(task: nat, comp: string, vals: Values)
    | Begin(task: nat)
    | Copy(task: nat, comp: string)
    | Publish(task: nat)

  function PhaseOf(s: State, t: nat): Phase {
    if t in s.phases then s.phases[t] else Outside
  }

  /** The components exist before the tasks start. */
  predicate Enabled(s: State, a: Step) {
    match a
    case Write(t, comp, _) => PhaseOf(s, t) == Outside && comp in s.db
    case Begin(t) => PhaseOf(s, t) == Wrote
    case Copy(t, comp) => PhaseOf(s, t).Copying? && comp in PhaseOf(s, t).todo && comp in s.db
    case Publish(t) => PhaseOf(s, t).Copying? && PhaseOf(s, t).todo == {}
  }

  /** The first component of a name cut at its NUL, as insert keeps it. */
  ghost function MirrorOf(view: Table): (mirror: Table)
    ensures Mirrors(view, mirror)
  {
    var names := set comp | comp in view :: CStr(comp);
    assert forall comp :: comp in view ==> CStr(comp) in names;
    map name | name in names :: view[FirstLike(view, name)]
  }

  ghost function FirstLike(view: Table, name: string): (comp: string)
    requires exists comp :: comp in view && CStr(comp) == name
    ensures IsFirst(comp, NamedLike(view, name)) && comp in view
  {
    var some :| some in view && CStr(some) == name;
    assert some in NamedLike(view, name);
    FirstExists(NamedLike(view, name));
    var comp :| IsFirst(comp, NamedLike(view, name));
    comp
  }

  ghost function Apply(s: State, a: Step): State
    requires Enabled(s, a)
  {
    match a
    case Write(t, comp, vals) => s.(db := Written(s.db, comp, vals), phases := s.phases[t := Wrote])
    case Begin(t) => s.(phases := s.phases[t := Copying(s.db.Keys, map[])])
    case Copy(t, comp) =>
      var p := PhaseOf(s, t);
      s.(phases := s.phases[t := Copying(p.todo - {comp}, p.view[comp := s.db[comp]])])
    case Publish(t) =>
      s.(mirror := MirrorOf(Published(PhaseOf(s, t).view)), phases := s.phases[t := Outside])
  }

  ghost predicate StepAt(trace: seq<State>, acts: seq<Step>, i: nat)
    requires i < |acts| && i + 1 < |trace|
  {
    Enabled(trace[i], acts[i]) && trace[i + 1] == Apply(trace[i], acts[i])
  }

  /** The states a run goes through, from one with no task in set_component_db. */
  ghost predicate IsRun(trace: seq<State>, acts: seq<Step>) {
    && |trace| == |acts| + 1 && Quiet(trace[0])
    && forall i :: 0 <= i < |acts| ==> StepAt(trace, acts, i)
  }

  ghost predicate Quiet(s: State) {
    forall t :: PhaseOf(s, t) == Outside
  }

  /** Of the first n steps, the one at i is the task's last copy of the component, and
    belongs to its last round of copying. */
  predicate CopiedAt(acts: seq<Step>, n: nat, t: nat, comp: string, i: nat)
    requires n <= |acts|
  {
    i < n && acts[i] == Copy(t, comp) && forall j :: i < j < n ==> acts[j] != Copy(t, comp) && acts[j] != Begin(t)
  }

  // ---------- What a task has copied ----------

  /** That copy found these values. */
  ghost predicate HasCopy(trace: seq<State>, acts: seq<Step>, n: nat, t: nat, comp: string, vals: Values)
    requires IsRun(trace, acts) && n <= |acts|
  {
    exists i: nat :: CopiedAt(acts, n, t, comp, i) && vals == Component(trace[i].db, comp)
  }

  /** What a task holds of each component it has done is what its last copy found. */
  ghost predicate Holds(trace: seq<State>, acts: seq<Step>, n: nat, t: nat)
    requires IsRun(trace, acts) && n <= |acts|
  {
    var p := PhaseOf(trace[n], t);
    p.Copying? ==>
      && p.todo <= trace[n].db.Keys && p.view.Keys == trace[n].db.Keys - p.todo
      && forall comp :: comp in p.view ==> HasCopy(trace, acts, n, t, comp, p.view[comp])
  }

  lemma {:induction false} KeysStay(trace: seq<State>, acts: seq<Step>, n: nat)
    requires IsRun(trace, acts) && n <= |acts|
    ensures trace[n].db.Keys == trace[0].db.Keys
    decreases n
  {
    if n > 0 {
      KeysStay(trace, acts, n - 1);
      assert StepAt(trace, acts, n - 1);
    }
  }

  lemma CopyStays(trace: seq<State>, acts: seq<Step>, n: nat, t: nat, comp: string, vals: Values)
    requires IsRun(trace, acts) && n < |acts| && HasCopy(trace, acts, n, t, comp, vals)
    requires acts[n] != Copy(t, comp) && acts[n] != Begin(t)
    ensures HasCopy(trace, acts, n + 1, t, comp, vals)
  {
    var i: nat :| CopiedAt(acts, n, t, comp, i) && vals == Component(trace[i].db, comp);
    assert CopiedAt(acts, n + 1, t, comp, i);
  }

  lemma HoldsMore(trace: seq<State>, acts: seq<Step>, n: nat, t: nat)
    requires IsRun(trace, acts) && n < |acts| && Holds(trace, acts, n, t)
    ensures Holds(trace, acts, n + 1, t)
  {
    assert StepAt(trace, acts, n);
    var a, before, after := acts[n], PhaseOf(trace[n], t), PhaseOf(trace[n + 1], t);
    if after.Copying? && a != Begin(t) {
      forall comp | comp in after.view ensures HasCopy(trace, acts, n + 1, t, comp, after.view[comp]) {
        if a == Copy(t, comp) {
          assert CopiedAt(acts, n + 1, t, comp, n);
        } else {
          CopyStays(trace, acts, n, t, comp, after.view[comp]);
        }
      }
    }
  }

  lemma {:induction false} CopiesHold(trace: seq<State>, acts: seq<Step>, n: nat, t: nat)
    requires IsRun(trace, acts) && n <= |acts|
    ensures Holds(trace, acts, n, t)
    decreases n
  {
    if n == 0 {
      assert PhaseOf(trace[0], t) == Outside;
    } else {
      CopiesHold(trace, acts, n - 1, t);
      HoldsMore(trace, acts, n - 1, t);
    }
  }

  // ---------- The mirror ----------

  predicate LastPublish(acts: seq<Step>, p: nat) {
    p < |acts| && acts[p].Publish? && forall j :: p < j < |acts| ==> !acts[j].Publish?
  }

  /** The components as the publisher at p found them. */
  ghost predicate FoundBy(trace: seq<State>, acts: seq<Step>, p: nat, view: Table)
    requires IsRun(trace, acts) && p < |acts|
  {
    && view.Keys == trace[0].db.Keys
    && forall comp :: comp in view ==> HasCopy(trace, acts, p, acts[p].task, comp, view[comp])
  }

  lemma {:induction false} NothingSince(trace: seq<State>, acts: seq<Step>, i: nat, n: nat)
    requires IsRun(trace, acts) && i <= n <= |acts|
    ensures (forall j :: i <= j < n ==> !acts[j].Publish?) ==> trace[n].mirror == trace[i].mirror
    ensures (forall j :: i <= j < n ==> !acts[j].Write?) ==> trace[n].db == trace[i].db
    decreases n
  {
    if i < n {
      NothingSince(trace, acts, i, n - 1);
      assert StepAt(trace, acts, n - 1);
    }
  }

  /** The mirror always shows what the last publisher copied, each component as it was when
    its copy was made. */
  lemma MirrorShows(trace: seq<State>, acts: seq<Step>, p: nat) returns (view: Table)
    requires IsRun(trace, acts) && LastPublish(acts, p)
    ensures FoundBy(trace, acts, p, view) && trace[|acts|].mirror == MirrorOf(Published(view))
  {
    CopiesHold(trace, acts, p, acts[p].task);
    KeysStay(trace, acts, p);
    assert StepAt(trace, acts, p);
    NothingSince(trace, acts, p + 1, |acts|);
    view := PhaseOf(trace[p], acts[p].task).view;
  }

  /** The component holds at the end what the last publisher found in it. */
  ghost predicate NothingNewIn(trace: seq<State>, acts: seq<Step>, p: nat, comp: string)
    requires IsRun(trace, acts) && p < |acts|
  {
    forall i: nat :: CopiedAt(acts, p, acts[p].task, comp, i) ==>
      Component(trace[i].db, comp) == Component(trace[|acts|].db, comp)
  }

  ghost predicate NothingNew(trace: seq<State>, acts: seq<Step>, p: nat)
    requires IsRun(trace, acts) && p < |acts|
  {
    forall comp :: comp in trace[0].db ==> NothingNewIn(trace, acts, p, comp)
  }

  /** Under every interleaving of writers a reader of the mirror sees the database exactly
    when each component holds what the last publisher found in it. What is written between
    that copy and its publication may be missing until somebody publishes again. */
  lemma MirrorIsCurrent(trace: seq<State>, acts: seq<Step>, p: nat)
    requires IsRun(trace, acts) && LastPublish(acts, p) && NulFree(trace[0].db)
    ensures Published(trace[|acts|].mirror) == Published(trace[|acts|].db) <==> NothingNew(trace, acts, p)
  {
    var view := MirrorShows(trace, acts, p);
    KeysStay(trace, acts, |acts|);
    MirrorAgrees(view, trace[|acts|].mirror);
    SamePublished(view, trace[|acts|].db);
    SameAsFound(trace, acts, p, view);
  }

  lemma SameAsFound(trace: seq<State>, acts: seq<Step>, p: nat, view: Table)
    requires IsRun(trace, acts) && p < |acts| && FoundBy(trace, acts, p, view)
    requires trace[|acts|].db.Keys == trace[0].db.Keys
    ensures view == trace[|acts|].db <==> NothingNew(trace, acts, p)
  {
    var db := trace[|acts|].db;
    forall comp | comp in view ensures view[comp] == db[comp] <==> NothingNewIn(trace, acts, p, comp) {
      assert HasCopy(trace, acts, p, acts[p].task, comp, view[comp]);
      OneFound(trace, acts, p, comp, view[comp]);
    }
  }

  lemma OneFound(trace: seq<State>, acts: seq<Step>, p: nat, comp: string, vals: Values)
    requires IsRun(trace, acts) && p < |acts| && HasCopy(trace, acts, p, acts[p].task, comp, vals)
    ensures vals == Component(trace[|acts|].db, comp) <==> NothingNewIn(trace, acts, p, comp)
  {
    var t := acts[p].task;
    var k: nat :| CopiedAt(acts, p, t, comp, k) && vals == Component(trace[k].db, comp);
    forall i: nat | CopiedAt(acts, p, t, comp, i) ensures i == k {
    }
  }

  lemma SamePublished(a: Table, b: Table)
    requires a.Keys == b.Keys
    ensures Published(a) == Published(b) <==> a == b
  {
    if Published(a) == Published(b) {
      forall comp | comp in a ensures a[comp] == b[comp] {
        assert comp in Published(a) <==> comp in Published(b);
      }
    }
  }

  /** In particular when no write came after the last publisher began to copy. */
  lemma UndisturbedIsCurrent(trace: seq<State>, acts: seq<Step>, b: nat, p: nat)
    requires IsRun(trace, acts) && LastPublish(acts, p) && NulFree(trace[0].db)
    requires b < p && acts[b] == Begin(acts[p].task) && forall j :: b < j < |acts| ==> !acts[j].Write?
    ensures Published(trace[|acts|].mirror) == Published(trace[|acts|].db)
  {
    MirrorIsCurrent(trace, acts, p);
    forall comp | comp in trace[0].db ensures NothingNewIn(trace, acts, p, comp) {
      forall i: nat | CopiedAt(acts, p, acts[p].task, comp, i)
        ensures Component(trace[i].db, comp) == Component(trace[|acts|].db, comp)
      {
        assert i > b;
        NothingSince(trace, acts, i, |acts|);
      }
    }
  }

  /** A write is always followed by the writer's own copying, and copying by publishing. */
  lemma {:induction false} StillWrote(trace: seq<State>, acts: seq<Step>, j: nat, n: nat)
    requires IsRun(trace, acts) && j < n <= |acts| && acts[j].Write?
    requires forall i :: j < i < n ==> acts[i] != Begin(acts[j].task)
    ensures PhaseOf(trace[n], acts[j].task) == Wrote
    decreases n
  {
    assert StepAt(trace, acts, n - 1);
    if j < n - 1 {
      StillWrote(trace, acts, j, n - 1);
    }
  }

  lemma {:induction false} StillCopying(trace: seq<State>, acts: seq<Step>, b: nat, n: nat)
    requires IsRun(trace, acts) && b < n <= |acts| && acts[b].Begin?
    requires forall i :: b < i < n ==> acts[i] != Publish(acts[b].task)
    ensures PhaseOf(trace[n], acts[b].task).Copying?
    decreases n
  {
    assert StepAt(trace, acts, n - 1);
    if b < n - 1 {
      StillCopying(trace, acts, b, n - 1);
    }
  }

  predicate LastBegin(acts: seq<Step>, b: nat) {
    b < |acts| && acts[b].Begin? && forall j :: b < j < |acts| ==> !acts[j].Begin?
  }

  /** When all writers are done the mirror is current if the task that began to copy last is
    also the one that published last. */
  lemma LastCopyLastPublish(trace: seq<State>, acts: seq<Step>, b: nat, p: nat)
    requires IsRun(trace, acts) && Quiet(trace[|acts|]) && NulFree(trace[0].db)
    requires LastBegin(acts, b) && LastPublish(acts, p) && acts[b].task == acts[p].task
    ensures Published(trace[|acts|].mirror) == Published(trace[|acts|].db)
  {
    forall j | b < j < |acts| ensures !acts[j].Write? {
      if acts[j].Write? {
        StillWrote(trace, acts, j, |acts|);
      }
    }
    if p < b {
      StillCopying(trace, acts, b, |acts|);
    }
    UndisturbedIsCurrent(trace, acts, b, p);
  }

  // ---------- One task's write ----------

  lemma RunMore(trace: seq<State>, acts: seq<Step>, a: Step)
    requires IsRun(trace, acts) && Enabled(trace[|acts|], a)
    ensures IsRun(trace + [Apply(trace[|acts|], a)], acts + [a])
  {
    var more, all := trace + [Apply(trace[|acts|], a)], acts + [a];
    forall i | 0 <= i < |all| ensures StepAt(more, all, i) {
      assert i < |acts| ==> StepAt(trace, acts, i);
    }
  }

  lemma TwoMore(trace: seq<State>, acts: seq<Step>, a: Step, b: Step, s1: State, r: State)
    requires IsRun(trace, acts) && Enabled(trace[|acts|], a) && s1 == Apply(trace[|acts|], a)
    requires Enabled(s1, b) && r == Apply(s1, b)
    ensures IsRun(trace + [s1, r], acts + [a, b])
  {
    RunMore(trace, acts, a);
    RunMore(trace + [s1], acts + [a], b);
    assert trace + [s1] + [r] == trace + [s1, r] && acts + [a] + [b] == acts + [a, b];
  }

  /** The copies a task makes of the components, in the order of their names. */
  function Copies(t: nat, names: seq<string>): (r: seq<Step>)
    ensures |r| == |names|
  {
    seq(|names|, i requires 0 <= i < |names| => Copy(t, names[i]))
  }

  ghost function WriteCopy(t: nat, comp: string, vals: Values, names: set<string>): seq<Step> {
    [Write(t, comp, vals), Begin(t)] + Copies(t, InOrder(names))
  }

  function Part(db: Table, names: set<string>): Table
    requires names <= db.Keys
  {
    map comp | comp in names :: db[comp]
  }

  lemma {:induction false} CopyAll(trace: seq<State>, acts: seq<Step>, t: nat, todo: set<string>, view: Table)
    returns (more: seq<State>)
    requires IsRun(trace, acts) && PhaseOf(trace[|acts|], t) == Copying(todo, view)
    requires todo <= trace[|acts|].db.Keys
    ensures IsRun(more, acts + Copies(t, InOrder(todo))) && trace <= more
    ensures var s := trace[|acts|];
            more[|more| - 1] == s.(phases := s.phases[t := Copying({}, view + Part(s.db, todo))])
    decreases |todo|
  {
    var s := trace[|acts|];
    if todo == {} {
      more := trace;
      assert acts + Copies(t, InOrder(todo)) == acts && view + Part(s.db, todo) == view;
      assert s.phases[t := Copying({}, view)] == s.phases;
    } else {
      FirstExists(todo);
      var comp :| IsFirst(comp, todo);
      NextInOrder(todo, comp);
      var s1 := Apply(s, Copy(t, comp));
      RunMore(trace, acts, Copy(t, comp));
      more := CopyAll(trace + [s1], acts + [Copy(t, comp)], t, todo - {comp}, view[comp := s.db[comp]]);
      CopiesMore(t, comp, InOrder(todo - {comp}), acts);
      PartMore(view, s.db, todo, comp);
    }
  }

  lemma CopiesMore(t: nat, comp: string, names: seq<string>, acts: seq<Step>)
    ensures acts + [Copy(t, comp)] + Copies(t, names) == acts + Copies(t, [comp] + names)
  {
    assert Copies(t, [comp] + names) == [Copy(t, comp)] + Copies(t, names);
  }

  lemma PartMore(view: Table, db: Table, todo: set<string>, comp: string)
    requires comp in todo && todo <= db.Keys
    ensures view[comp := db[comp]] + Part(db, todo - {comp}) == view + Part(db, todo)
  {
  }

  lemma WriteThenBegin(s: State, t: nat, comp: string, vals: Values) returns (s1: State, s2: State)
    requires PhaseOf(s, t) == Outside && comp in s.db
    ensures Enabled(s, Write(t, comp, vals)) && s1 == Apply(s, Write(t, comp, vals))
    ensures Enabled(s1, Begin(t)) && s2 == Apply(s1, Begin(t))
    ensures var db := Written(s.db, comp, vals);
            && db.Keys == s.db.Keys && PhaseOf(s2, t) == Copying(db.Keys, map[])
            && s2.(phases := s2.phases[t := Copying({}, db)]) == s.(db := db, phases := s.phases[t := Copying({}, db)])
            && s2.db == db && map[] + Part(db, db.Keys) == db
  {
    s1 := Apply(s, Write(t, comp, vals));
    s2 := Apply(s1, Begin(t));
    assert s1.db.Keys == s.db.Keys;
    assert s2.phases[t := Copying({}, s1.db)] == s.phases[t := Copying({}, s1.db)];
  }

  /** A write and its copies, with nothing in between. */
  lemma WriteAndCopy(trace: seq<State>, acts: seq<Step>, t: nat, comp: string, vals: Values)
    returns (more: seq<State>)
    requires IsRun(trace, acts) && PhaseOf(trace[|acts|], t) == Outside && comp in trace[|acts|].db
    ensures IsRun(more, acts + WriteCopy(t, comp, vals, trace[|acts|].db.Keys)) && trace <= more
    ensures var s := trace[|acts|]; var db := Written(s.db, comp, vals);
            db.Keys == s.db.Keys && more[|more| - 1] == s.(db := db, phases := s.phases[t := Copying({}, db)])
  {
    var keys, begun := trace[|acts|].db.Keys, acts + [Write(t, comp, vals), Begin(t)];
    var s1, s2 := WriteThenBegin(trace[|acts|], t, comp, vals);
    TwoMore(trace, acts, Write(t, comp, vals), Begin(t), s1, s2);
    more := CopyAll(trace + [s1, s2], begun, t, keys, map[]);
    assert begun + Copies(t, InOrder(keys)) == acts + WriteCopy(t, comp, vals, keys);
  }

  // ---------- set_component_db as steps ----------

  ghost function WholeWrite(t: nat, comp: string, vals: Values, names: set<string>): seq<Step> {
    WriteCopy(t, comp, vals, names) + [Publish(t)]
  }

  /** One task's steps with nothing in between make the mirror show the new table. */
  lemma WholeWriteRuns(s: State, t: nat, comp: string, vals: Values) returns (trace: seq<State>)
    requires Quiet(s) && comp in s.db
    ensures IsRun(trace, WholeWrite(t, comp, vals, s.db.Keys)) && trace[0] == s
    ensures var r := trace[|trace| - 1];
            Quiet(r) && r.db == Written(s.db, comp, vals) && r.mirror == MirrorOf(Published(r.db))
  {
    assert PhaseOf(s, t) == Outside;
    var copied := WriteAndCopy([s], [], t, comp, vals);
    var acts := WriteCopy(t, comp, vals, s.db.Keys);
    assert [] + acts == acts;
    var last := copied[|acts|];
    RunMore(copied, acts, Publish(t));
    var r := Apply(last, Publish(t));
    trace := copied + [r];
    forall u ensures PhaseOf(r, u) == Outside {
      assert PhaseOf(s, u) == Outside;
    }
  }

  /** The state that a database stands for while no task is in set_component_db. */
  ghost function StateOf(db: DB): State
    reads db, db.smw
  {
    State(db.mainDb, db.smw.Content(db.smw.segment, db.smw.objectName), map[])
  }

  /** A call of set_component_db with sharing on is the steps of one task; it ends with the
    table and the mirror that these steps end with. */
  method SetInSteps(db: DB, t: nat, comp: string, vals: Values) returns (ghost trace: seq<State>)
    requires db.sharing && db.smDevLocation != "" && comp in db.mainDb
    modifies db`mainDb, db.smw
    ensures IsRun(trace, WholeWrite(t, comp, vals, old(db.mainDb.Keys))) && trace[0] == old(StateOf(db))
    ensures trace[|trace| - 1].(phases := map[]) == StateOf(db) && Quiet(trace[|trace| - 1])
  {
    trace := WholeWriteRuns(StateOf(db), t, comp, vals);
    db.SetComponentDb(comp, vals);
    MirrorIsUnique(Published(db.mainDb), StateOf(db).mirror, MirrorOf(Published(db.mainDb)));
  }

  // ---------- A stale mirror ----------

  /** Two writers; the first publishes last what it copied before the second wrote. */
  ghost function LateCopy(comp: string, first: Values, second: Values, names: set<string>): seq<Step> {
    WriteCopy(1, comp, first, names) + WriteCopy(2, comp, second, names) + [Publish(2), Publish(1)]
  }

  lemma LateMirror(copied: Table, s: State)
    requires NulFree(copied) && s.db.Keys == copied.Keys && s.mirror == MirrorOf(Published(copied))
    ensures Published(s.mirror) == Published(s.db) <==> copied == s.db
  {
    MirrorAgrees(copied, s.mirror);
    SamePublished(copied, s.db);
  }

  /** Task 1 holds the stale copy, task 2 a newer one, and no other task is at work. */
  ghost predicate BothCopied(s: State, stale: Table) {
    && PhaseOf(s, 1) == Copying({}, stale) && PhaseOf(s, 2).Copying? && PhaseOf(s, 2).todo == {}
    && (forall t :: t != 1 && t != 2 ==> PhaseOf(s, t) == Outside)
    && NulFree(stale) && s.db.Keys == stale.Keys
  }

  lemma SecondThenFirst(s: State, stale: Table) returns (s1: State, r: State)
    requires BothCopied(s, stale)
    ensures Enabled(s, Publish(2)) && s1 == Apply(s, Publish(2))
    ensures Enabled(s1, Publish(1)) && r == Apply(s1, Publish(1))
    ensures Quiet(r) && r.db == s.db && (Published(r.mirror) == Published(r.db) <==> stale == r.db)
  {
    s1 := Apply(s, Publish(2));
    r := Apply(s1, Publish(1));
    LateMirror(stale, r);
    forall t ensures PhaseOf(r, t) == Outside {
      assert t != 1 && t != 2 ==> PhaseOf(s, t) == Outside;
    }
  }

  lemma BothCopy(s: State, comp: string, first: Values, second: Values) returns (trace: seq<State>)
    requires Quiet(s) && comp in s.db && NulFree(s.db)
    ensures IsRun(trace, WriteCopy(1, comp, first, s.db.Keys) + WriteCopy(2, comp, second, s.db.Keys))
    ensures trace[0] == s
    ensures var stale, last := Written(s.db, comp, first), trace[|trace| - 1];
            last.db == Written(stale, comp, second) && BothCopied(last, stale)
  {
    assert PhaseOf(s, 1) == Outside && PhaseOf(s, 2) == Outside;
    var one := WriteAndCopy([s], [], 1, comp, first);
    var acts := WriteCopy(1, comp, first, s.db.Keys);
    assert [] + acts == acts;
    trace := WriteAndCopy(one, acts, 2, comp, second);
    var last := trace[|trace| - 1];
    forall t | t != 1 && t != 2 ensures PhaseOf(last, t) == Outside {
      assert PhaseOf(s, t) == Outside;
    }
  }

  /** Both are done, and the mirror lacks the second write exactly when that changed
    something. */
  lemma LateCopyIsStale(s: State, comp: string, first: Values, second: Values) returns (trace: seq<State>)
    requires Quiet(s) && comp in s.db && NulFree(s.db)
    ensures IsRun(trace, LateCopy(comp, first, second, s.db.Keys)) && trace[0] == s
    ensures var stale, r := Written(s.db, comp, first), trace[|trace| - 1];
            && Quiet(r) && r.db == Written(stale, comp, second)
            && (Published(r.mirror) == Published(r.db) <==> stale == r.db)
  {
    var both := BothCopy(s, comp, first, second);
    var acts := WriteCopy(1, comp, first, s.db.Keys) + WriteCopy(2, comp, second, s.db.Keys);
    var s1, r := SecondThenFirst(both[|acts|], Written(s.db, comp, first));
    TwoMore(both, acts, Publish(2), Publish(1), s1, r);
    trace := both + [s1, r];
  }
}
