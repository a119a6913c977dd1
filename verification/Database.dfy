/** The component database and its shared-memory mirror (app/utils/DB.h, app/utils/DB.cpp,
  app/utils/SharedMemoryWrapper.cpp). A read or write of one component is one atomic step;
  the code itself reads without a lock. */
module Database {
  import opened NameOrder

  type Values = map<nat, real>
  type Table = map<string, Values>

  function Component(db: Table, comp: string): Values {
    if comp in db then db[comp] else map[]
  }

  /** The entries of a map that a loop over its keys has done. */
  ghost function Done<K, V>(vals: map<K, V>, todo: set<K>): map<K, V> {
    map k | k in vals && k !in todo :: vals[k]
  }

  lemma DoneNoneAll<K, V>(vals: map<K, V>)
    ensures Done(vals, vals.Keys) == map[] && Done(vals, {}) == vals
  {
  }

  lemma DoneMore<K, V>(vals: map<K, V>, todo: set<K>, k: K)
    requires k in todo && k in vals
    ensures k !in Done(vals, todo)
    ensures Done(vals, todo - {k}) == Done(vals, todo)[k := vals[k]]
  {
  }

  // ---------- Writes ----------

  /** The table after set_component_db: the component exists, and new values win. */
  function Written(db: Table, comp: string, newVals: Values): Table {
    db[comp := Component(db, comp) + newVals]
  }

  lemma WrittenMore(db: Table, comp: string, vals: Values, k: nat, v: real)
    ensures Written(db, comp, map[]) == db[comp := Component(db, comp)]
    ensures var w := Written(db, comp, vals);
            var c: Values := w[comp][k := v];
            Written(db, comp, vals[k := v]) == w[comp := c]
  {
    var c := Component(db, comp);
    assert c + map[] == c;
    assert c + vals[k := v] == (c + vals)[k := v];
  }

  function AllWritten(db: Table, writes: seq<(string, Values)>): Table
    decreases |writes|
  {
    if writes == [] then db
    else AllWritten(Written(db, writes[0].0, writes[0].1), writes[1..])
  }

  /** `at` is the last of the writes that gives a value to the key of the component. */
  ghost predicate LastWrite(writes: seq<(string, Values)>, comp: string, k: nat, at: nat) {
    && at < |writes| && writes[at].0 == comp && k in writes[at].1
    && forall i :: at < i < |writes| && writes[i].0 == comp ==> k !in writes[i].1
  }

  /** A table that started empty holds, for every component and key, the value of the last
    write that gave one, and nothing else. */
  lemma HoldsLastWrites(writes: seq<(string, Values)>, comp: string, k: nat)
    ensures k in Component(AllWritten(map[], writes), comp) <==>
            exists at: nat :: LastWrite(writes, comp, k, at)
    ensures forall at: nat :: LastWrite(writes, comp, k, at) ==>
              k in Component(AllWritten(map[], writes), comp) &&
              Component(AllWritten(map[], writes), comp)[k] == writes[at].1[k]
  {
    HoldsLastWritesFrom(map[], writes, comp, k);
  }

  lemma {:induction false} HoldsLastWritesFrom(db: Table, writes: seq<(string, Values)>, comp: string, k: nat)
    ensures k in Component(AllWritten(db, writes), comp) <==>
            k in Component(db, comp) || exists at: nat :: LastWrite(writes, comp, k, at)
    ensures forall at: nat :: LastWrite(writes, comp, k, at) ==>
              k in Component(AllWritten(db, writes), comp) &&
              Component(AllWritten(db, writes), comp)[k] == writes[at].1[k]
    ensures k in Component(db, comp) && !(exists at: nat :: LastWrite(writes, comp, k, at)) ==>
              k in Component(AllWritten(db, writes), comp) &&
              Component(AllWritten(db, writes), comp)[k] == Component(db, comp)[k]
    decreases |writes|
  {
    if writes != [] {
      var rest := writes[1..];
      HoldsLastWritesFrom(Written(db, writes[0].0, writes[0].1), rest, comp, k);
      forall at: nat | LastWrite(rest, comp, k, at) ensures LastWrite(writes, comp, k, at + 1) {
        assert forall i :: at + 1 < i < |writes| ==> writes[i] == rest[i - 1];
      }
      forall at: nat | LastWrite(writes, comp, k, at)
        ensures at > 0 ==> LastWrite(rest, comp, k, at - 1)
        ensures at == 0 ==> forall b: nat :: !LastWrite(rest, comp, k, b)
      {
        assert forall i :: 0 <= i < |rest| ==> rest[i] == writes[i + 1];
      }
      if writes[0].0 == comp && k in writes[0].1 && !exists at: nat :: LastWrite(rest, comp, k, at) {
        NoLaterWrite(rest, comp, k);
        assert forall i :: 0 < i < |writes| ==> writes[i] == rest[i - 1];
        assert LastWrite(writes, comp, k, 0);
      }
    }
  }

  lemma NoLaterWrite(writes: seq<(string, Values)>, comp: string, k: nat)
    requires forall at: nat :: !LastWrite(writes, comp, k, at)
    ensures forall i :: 0 <= i < |writes| && writes[i].0 == comp ==> k !in writes[i].1
  {
    var i := |writes|;
    while i > 0
      invariant 0 <= i <= |writes|
      invariant forall j :: i <= j < |writes| && writes[j].0 == comp ==> k !in writes[j].1
    {
      i := i - 1;
      assert !LastWrite(writes, comp, k, i);
    }
  }

  // ---------- The published view ----------

  /** get_all_values: what there is to publish; components without values are left out. */
  function Published(db: Table): Table {
    map comp | comp in db && db[comp] != map[] :: db[comp]
  }

  lemma PublishedMore(db: Table, comp: string, vals: Values)
    requires comp !in db
    ensures comp !in Published(db)
    ensures Published(db[comp := vals]) ==
            if vals == map[] then Published(db) else Published(db)[comp := vals]
  {
  }

  /** c_str() as the other side reads it: the part before the first NUL. */
  function CStr(s: string): (r: string)
    ensures r <= s && '\0' !in r
    ensures r == s <==> '\0' !in s
    ensures r != s ==> s[|r|] == '\0'
  {
    if s == [] || s[0] == '\0' then []
    else [s[0]] + CStr(s[1..])
  }

  function NamedLike(db: Table, name: string): set<string> {
    set comp | comp in db && CStr(comp) == name
  }

  /** What update leaves in shared memory: every name cut at its first NUL, each with the
    values of the first component so named (insert keeps what it finds). */
  ghost predicate Mirrors(db: Table, shared: Table) {
    && (forall comp :: comp in db ==> CStr(comp) in shared)
    && (forall name :: name in shared ==> MirroredAs(db, name, shared[name]))
  }

  ghost predicate MirroredAs(db: Table, name: string, vals: Values) {
    exists comp :: IsFirst(comp, NamedLike(db, name)) && vals == db[comp]
  }

  /** There is one mirror for every table. */
  lemma MirrorIsUnique(db: Table, shared: Table, other: Table)
    requires Mirrors(db, shared) && Mirrors(db, other)
    ensures shared == other
  {
    forall name | name in shared ensures name in other && shared[name] == other[name] {
      assert MirroredAs(db, name, shared[name]);
      var comp :| IsFirst(comp, NamedLike(db, name)) && shared[name] == db[comp];
      assert comp in db;
      assert MirroredAs(db, name, other[name]);
      var comp' :| IsFirst(comp', NamedLike(db, name)) && other[name] == db[comp'];
      BeforeIsTotal(comp, comp');
    }
    forall name | name in other ensures name in shared {
      assert MirroredAs(db, name, other[name]);
      var comp :| IsFirst(comp, NamedLike(db, name)) && other[name] == db[comp];
      assert CStr(comp) == name;
    }
  }

  /** A name without a NUL keeps its own values in the mirror, whatever longer names with
    a NUL there are. */
  lemma PlainNamesAreMirrored(db: Table, shared: Table, comp: string)
    requires Mirrors(db, shared) && comp in db && '\0' !in comp
    ensures comp in shared && shared[comp] == db[comp]
  {
    assert CStr(comp) == comp;
    assert MirroredAs(db, comp, shared[comp]);
    var first :| IsFirst(first, NamedLike(db, comp)) && shared[comp] == db[first];
    assert comp in NamedLike(db, comp);
    if first != comp {
      PrefixIsBefore(comp, first);
      BeforeIsTotal(comp, first);
    }
  }

  /** The mirror reads back as the published view exactly when no published component
    has a NUL in its name. */
  lemma MirrorAgrees(db: Table, shared: Table)
    requires Mirrors(Published(db), shared)
    ensures Published(shared) == shared
    ensures Published(shared) == Published(db) <==>
            NulFree(Published(db))
  {
  }

  /** What a reader of the mirror sees of a database that began empty, if no name has a NUL:
    for every component and key the value of the last write that gave one, and nothing
    else. */
  lemma MirrorHoldsLastWrites(writes: seq<(string, Values)>, shared: Table, comp: string, k: nat)
    requires Mirrors(Published(AllWritten(map[], writes)), shared)
    requires forall i :: 0 <= i < |writes| ==> '\0' !in writes[i].0
    ensures k in Component(Published(shared), comp) <==> exists at: nat :: LastWrite(writes, comp, k, at)
    ensures forall at: nat :: LastWrite(writes, comp, k, at) ==>
              k in Component(Published(shared), comp) &&
              Component(Published(shared), comp)[k] == writes[at].1[k]
  {
    NamesOfWrites(map[], writes);
    ReadsBack(AllWritten(map[], writes), shared, comp);
    HoldsLastWrites(writes, comp, k);
  }

  lemma ReadsBack(db: Table, shared: Table, comp: string)
    requires Mirrors(Published(db), shared) && NulFree(db)
    ensures Component(Published(shared), comp) == Component(db, comp)
  {
    MirrorAgrees(db, shared);
  }

  ghost predicate NulFree(db: Table) {
    forall comp :: comp in db ==> '\0' !in comp
  }

  lemma {:induction false} NamesOfWrites(db: Table, writes: seq<(string, Values)>)
    requires NulFree(db) && forall i :: 0 <= i < |writes| ==> '\0' !in writes[i].0
    ensures NulFree(AllWritten(db, writes))
    decreases |writes|
  {
    if writes != [] {
      NamesOfWrites(Written(db, writes[0].0, writes[0].1), writes[1..]);
    }
  }

  // ---------- Copies ----------

  /** operator= and the copy constructor insert with emplace, which keeps a value that is
    already there. */
  function Merged(mine: Table, other: Table): Table {
    map comp | comp in mine.Keys + other.Keys ::
      if comp in other then other[comp] + Component(mine, comp) else mine[comp]
  }

  /** Key by key: what either holds, the target's own value winning. */
  lemma MergedHolds(mine: Table, other: Table, comp: string, k: nat)
    ensures comp in Merged(mine, other) <==> comp in mine || comp in other
    ensures k in Component(Merged(mine, other), comp) <==> k in Component(mine, comp) || k in Component(other, comp)
    ensures k in Component(mine, comp) ==> Component(Merged(mine, other), comp)[k] == mine[comp][k]
    ensures k in Component(other, comp) && k !in Component(mine, comp) ==>
              Component(Merged(mine, other), comp)[k] == other[comp][k]
  {
  }

  lemma MergedMore(mine: Table, other: Table, comp: string, vals: Values)
    ensures Merged(mine, map[]) == mine
    ensures comp !in other ==>
              Merged(mine, other[comp := vals]) ==
              Merged(mine, other)[comp := vals + Component(mine, comp)]
              && Component(Merged(mine, other), comp) == Component(mine, comp)
  {
  }

  ghost predicate SubTable(mine: Table, other: Table) {
    forall comp :: comp in mine ==>
      comp in other && forall k :: k in mine[comp] ==> k in other[comp] && other[comp][k] == mine[comp][k]
  }

  /** Assignment makes the target equal to its source exactly when the target held nothing
    that the source does not hold; the copy constructor starts from nothing. */
  lemma AssignmentCopies(mine: Table, other: Table)
    ensures Merged(mine, other) == other <==> SubTable(mine, other)
    ensures Merged(map[], other) == other
  {
    if Merged(mine, other) == other {
      CopyMeansSub(mine, other);
    }
    if SubTable(mine, other) {
      SubMeansCopy(mine, other);
    }
    SubMeansCopy(map[], other);
  }

  lemma CopyMeansSub(mine: Table, other: Table)
    requires Merged(mine, other) == other
    ensures SubTable(mine, other)
  {
    forall comp | comp in mine
      ensures comp in other && forall k :: k in mine[comp] ==> k in other[comp] && other[comp][k] == mine[comp][k]
    {
      assert comp in Merged(mine, other);
      assert other[comp] + mine[comp] == other[comp];
    }
  }

  lemma SubMeansCopy(mine: Table, other: Table)
    requires SubTable(mine, other)
    ensures Merged(mine, other) == other
  {
    forall comp | comp in other ensures other[comp] + Component(mine, comp) == other[comp] {
    }
  }

  // ---------- The shared memory ----------

  /** The process-wide state of SharedMemoryWrapper: the segment opened by init, and the
    name under which update finds the map, which retrieve overwrites. Contents of
    segments are by segment name and object name. */
  class SharedMemory {
    var contents: map<(string, string), Table>
    var segment: string
    var objectName: string

    function Content(seg: string, name: string): Table
      reads this
    {
      if (seg, name) in contents then contents[(seg, name)] else map[]
    }

    constructor (found: map<(string, string), Table>)
      ensures contents == found
    {
      contents := found;
      segment, objectName := "", "";
    }

    method Init(id: string)
      modifies this
      ensures segment == id && objectName == id && contents == old(contents)
    {
      segment := id;
      objectName := id;
    }

    method Update(db: Table)
      modifies this
      ensures segment == old(segment) && objectName == old(objectName)
      ensures Mirrors(db, Content(segment, objectName))
      ensures contents == old(contents)[(segment, objectName) := Content(segment, objectName)]
    {
      var shared: Table := map[];
      var rest := db.Keys;
      while rest != {}
        invariant rest <= db.Keys
        invariant forall comp :: comp in db && comp !in rest ==> CStr(comp) in shared
        invariant forall name :: name in shared ==> MirroredAs(db, name, shared[name])
        modifies {}
      {
        var comp := FirstName(rest);
        if CStr(comp) !in shared {
          assert IsFirst(comp, NamedLike(db, CStr(comp)));
          shared := shared[CStr(comp) := db[comp]];
        }
        rest := rest - {comp};
      }
      contents := contents[(segment, objectName) := shared];
    }

    method Retrieve(id: string) returns (api: Table)
      modifies this
      ensures api == Published(old(Content(id, id)))
      ensures objectName == id && segment == old(segment)
      ensures contents == old(contents)[(id, id) := old(Content(id, id))]
    {
      objectName := id;
      var shared := Content(id, id);
      contents := contents[(id, id) := shared];
      api := CopyNonEmpty(shared);
    }
  }

  /** The nested loops of get_all_values and retrieve: a component appears in the result
    when its first value is inserted. */
  method CopyNonEmpty(db: Table) returns (ret: Table)
    ensures ret == Published(db)
  {
    ret := map[];
    var comps := db.Keys;
    DoneNoneAll(db);
    while comps != {}
      invariant comps <= db.Keys
      invariant ret == Published(Done(db, comps))
    {
      var comp :| comp in comps;
      DoneMore(db, comps, comp);
      PublishedMore(Done(db, comps), comp, db[comp]);
      ret := CopyComponent(ret, comp, db[comp]);
      comps := comps - {comp};
    }
    DoneNoneAll(db);
  }

  method CopyComponent(into: Table, comp: string, vals: Values) returns (ret: Table)
    requires comp !in into
    ensures ret == if vals == map[] then into else into[comp := vals]
  {
    ret := into;
    var keys := vals.Keys;
    DoneNoneAll(vals);
    while keys != {}
      invariant keys <= vals.Keys
      invariant ret == if Done(vals, keys) == map[] then into else into[comp := Done(vals, keys)]
    {
      var k :| k in keys;
      DoneMore(vals, keys, k);
      ret := Emplaced(ret, comp, k, vals[k]);
      keys := keys - {k};
    }
    DoneNoneAll(vals);
  }

  /** main_db[comp].emplace(k, v): creates the component, keeps a value already there. */
  function Emplaced(db: Table, comp: string, k: nat, v: real): Table {
    var c := Component(db, comp);
    db[comp := if k in c then c else c[k := v]]
  }

  // ---------- The database ----------

  class DB {
    var mainDb: Table
    var smDevLocation: string
    const sharing: bool
    const smw: SharedMemory

    constructor (sharing: bool, smw: SharedMemory)
      ensures mainDb == map[] && smDevLocation == "" && this.sharing == sharing && this.smw == smw
    {
      mainDb := map[];
      smDevLocation := "";
      this.sharing := sharing;
      this.smw := smw;
    }

    /** Sharing is on, init_sm has run, and no retrieve under another name came since. */
    ghost predicate Connected()
      reads this, smw
    {
      sharing && smDevLocation != "" && smw.segment == smDevLocation && smw.objectName == smDevLocation
    }

    method GetComponentDb(comp: string) returns (ret: Values)
      ensures ret == Component(mainDb, comp)
    {
      ret := map[];
      if comp in mainDb {
        var keys := mainDb[comp].Keys;
        while keys != {}
          invariant keys <= mainDb[comp].Keys
          invariant ret == Done(mainDb[comp], keys)
        {
          var k :| k in keys;
          DoneMore(mainDb[comp], keys, k);
          ret := ret[k := mainDb[comp][k]];
          keys := keys - {k};
        }
        DoneNoneAll(mainDb[comp]);
      }
    }

    method SetComponentDb(comp: string, newVals: Values)
      modifies this`mainDb, smw
      ensures mainDb == Written(old(mainDb), comp, newVals)
      ensures smw.segment == old(smw.segment) && smw.objectName == old(smw.objectName)
      ensures sharing && smDevLocation != "" ==>
                && Mirrors(Published(mainDb), smw.Content(smw.segment, smw.objectName))
                && smw.contents == old(smw.contents)[(smw.segment, smw.objectName) :=
                                                     smw.Content(smw.segment, smw.objectName)]
      ensures !sharing || smDevLocation == "" ==> smw.contents == old(smw.contents)
    {
      mainDb := mainDb[comp := Component(mainDb, comp)];
      var keys := newVals.Keys;
      DoneNoneAll(newVals);
      WrittenMore(mainDb, comp, map[], 0, 0.0);
      WrittenMore(old(mainDb), comp, map[], 0, 0.0);
      while keys != {}
        invariant keys <= newVals.Keys
        invariant mainDb == Written(old(mainDb), comp, Done(newVals, keys))
        modifies this`mainDb
      {
        var k :| k in keys;
        DoneMore(newVals, keys, k);
        WrittenMore(old(mainDb), comp, Done(newVals, keys), k, newVals[k]);
        mainDb := mainDb[comp := mainDb[comp][k := newVals[k]]];
        keys := keys - {k};
      }
      DoneNoneAll(newVals);
      if sharing && |smDevLocation| != 0 {
        UpdateSm();
      }
    }

    method GetAllValues() returns (ret: Table)
      ensures ret == Published(mainDb)
    {
      ret := CopyNonEmpty(mainDb);
    }

    method UpdateSm()
      modifies smw
      ensures smw.segment == old(smw.segment) && smw.objectName == old(smw.objectName)
      ensures Mirrors(Published(mainDb), smw.Content(smw.segment, smw.objectName))
      ensures smw.contents == old(smw.contents)[(smw.segment, smw.objectName) :=
                                                smw.Content(smw.segment, smw.objectName)]
    {
      var all := GetAllValues();
      smw.Update(all);
    }

    /** A call after a location was set keeps that location. */
    method InitSm(id: string) returns (ok: bool)
      modifies this`smDevLocation, smw
      ensures ok <==> old(smDevLocation) == ""
      ensures ok ==> smDevLocation == id && smw.segment == id && smw.objectName == id
      ensures ok && sharing && id != "" ==> Connected()
      ensures !ok ==> smDevLocation == old(smDevLocation) &&
                      smw.segment == old(smw.segment) && smw.objectName == old(smw.objectName)
      ensures smw.contents == old(smw.contents)
    {
      if |smDevLocation| != 0 {
        return false;
      }
      smw.Init(id);
      smDevLocation := id;
      return true;
    }

    /** One round of the mirror's life: a write through the database, then a read from the
      other side. The read gives the published view of all writes so far exactly when its
      names have no NUL, and leaves the database connected for the next round. */
    method WriteThenRead(comp: string, newVals: Values) returns (api: Table)
      requires Connected()
      modifies this`mainDb, smw
      ensures mainDb == Written(old(mainDb), comp, newVals)
      ensures Mirrors(Published(mainDb), api)
      ensures api == Published(mainDb) <==> NulFree(Published(mainDb))
      ensures Connected()
    {
      SetComponentDb(comp, newVals);
      ghost var shared := smw.Content(smDevLocation, smDevLocation);
      api := smw.Retrieve(smDevLocation);
      MirrorAgrees(mainDb, shared);
    }

    /** What Connected guards against: retrieve overwrites the name that update writes to.
      After a read under another name the next write does not reach the mirror, and the
      reader of the database's own location gets what was there before. */
    method WriteAfterForeignRead(id: string, comp: string, newVals: Values) returns (api: Table)
      requires Connected() && id != smDevLocation
      modifies this`mainDb, smw
      ensures mainDb == Written(old(mainDb), comp, newVals)
      ensures api == Published(old(smw.Content(smDevLocation, smDevLocation)))
    {
      var foreign := smw.Retrieve(id);
      SetComponentDb(comp, newVals);
      api := smw.Retrieve(smDevLocation);
    }

    /** operator=. */
    method Assign(other: DB)
      modifies this`mainDb
      ensures mainDb == if this == other then old(mainDb) else Merged(old(mainDb), other.mainDb)
    {
      if this != other {
        mainDb := InsertAll(mainDb, other.mainDb);
      }
    }
  }

  /** The nested emplace loops shared by operator= and the copy constructor. */
  method InsertAll(mine: Table, other: Table) returns (ret: Table)
    ensures ret == Merged(mine, other)
  {
    ret := mine;
    var comps := other.Keys;
    DoneNoneAll(other);
    MergedMore(mine, map[], "", map[]);
    while comps != {}
      invariant comps <= other.Keys
      invariant ret == Merged(mine, Done(other, comps))
    {
      var comp :| comp in comps;
      DoneMore(other, comps, comp);
      MergedMore(mine, Done(other, comps), comp, other[comp]);
      var c := InsertInto(Component(ret, comp), other[comp]);
      ret := ret[comp := c];
      comps := comps - {comp};
    }
    DoneNoneAll(other);
  }

  method InsertInto(mine: Values, other: Values) returns (ret: Values)
    ensures ret == other + mine
  {
    ret := mine;
    var keys := other.Keys;
    DoneNoneAll(other);
    while keys != {}
      invariant keys <= other.Keys
      invariant ret == Done(other, keys) + mine
    {
      var k :| k in keys;
      DoneMore(other, keys, k);
      if k !in ret {
        ret := ret[k := other[k]];
      }
      keys := keys - {k};
    }
    DoneNoneAll(other);
  }

  method CopyOf(other: DB) returns (copy: DB)
    ensures fresh(copy) && copy.mainDb == other.mainDb && copy.smDevLocation == ""
  {
    copy := new DB(other.sharing, other.smw);
    copy.mainDb := InsertAll(map[], other.mainDb);
    AssignmentCopies(map[], other.mainDb);
  }
}
