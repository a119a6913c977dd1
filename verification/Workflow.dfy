/** The configuration (load_work and constract_net_action in src/yaml_api/yaml_api.cpp,
  from parsed entries on) and the net functions it sets up (app/NetFunctionFactory.h, the
  wiring in app/TasksFromConfig.cpp). */
module Workflows {
  import opened Tuning
  import opened Uint32

  /** One parsed entry of the file, in file order. A net action uses `action`, any other
    entry uses the last three fields; a list that is missing in the file is empty. */
  datatype Entry = Entry(key: string, motors: seq<nat>, times: uint32, action: string,
                         delta: uint32, values: seq<real>, deltas: seq<real>)

  datatype FunctionTask = FunctionTask(name: string, targets: set<nat>, times: uint32, delta: uint32,
                                       values: seq<real>, deltas: seq<real>)

  datatype NetAction = NetAction(motors: set<nat>, times: uint32, action: string)

  // ---------- Which entries are net actions ----------

  const NET_ACTION := "net_action"

  predicate Contains(s: string, word: string) {
    exists i :: 0 <= i <= |s| && word <= s[i..]
  }

  /** A key contains the word exactly if it is the word with something around it. */
  lemma ContainsIs(s: string, word: string)
    ensures Contains(s, word) <==> exists before: string, after: string :: s == before + word + after
  {
    if i :| 0 <= i <= |s| && word <= s[i..] {
      var before, after := s[..i], s[i + |word|..];
      assert s[i..] == word + after && s == before + word + after;
    }
    if before: string, after: string :| s == before + word + after {
      assert s[|before|..] == word + after;
    }
  }

  predicate IsNetAction(e: Entry) {
    Contains(e.key, NET_ACTION)
  }

  function Motors(e: Entry): (ms: set<nat>)
    ensures forall m :: m in ms <==> m in e.motors
  {
    set m | m in e.motors
  }

  // ---------- What load_work leaves ----------

  datatype Loaded = Loaded(gpMotors: set<nat>, netFuncMotors: set<nat>,
                           tasks: map<string, FunctionTask>, netActions: map<string, NetAction>)

  /** One entry. The motor sets grow from entry to entry, and the whole set so far goes
    into the new task or action. A task replaces an earlier one of the same key, an action
    does not. */
  function LoadedOne(l: Loaded, e: Entry): Loaded {
    if IsNetAction(e) then
      var ms := l.netFuncMotors + Motors(e);
      l.(netFuncMotors := ms,
         netActions := if e.key in l.netActions then l.netActions
                       else l.netActions[e.key := NetAction(ms, e.times, e.action)])
    else
      var ms := l.gpMotors + Motors(e);
      l.(gpMotors := ms,
         tasks := l.tasks[e.key := FunctionTask(e.key, ms, e.times, e.delta, e.values, e.deltas)])
  }

  function LoadedFrom(l: Loaded, es: seq<Entry>): Loaded {
    if es == [] then l
    else LoadedOne(LoadedFrom(l, es[..|es| - 1]), es[|es| - 1])
  }

  function LoadedAll(es: seq<Entry>): Loaded {
    LoadedFrom(Loaded({}, {}, map[], map[]), es)
  }

  function AllMotors(l: Loaded): set<nat> {
    l.gpMotors + l.netFuncMotors
  }

  class Workflow {
    var gpMotors: set<nat>
    var netFuncMotors: set<nat>
    var tasks: map<string, FunctionTask>
    var netActions: map<string, NetAction>

    function State(): Loaded
      reads this
    {
      Loaded(gpMotors, netFuncMotors, tasks, netActions)
    }

    constructor ()
      ensures State() == LoadedAll([])
    {
      gpMotors, netFuncMotors, tasks, netActions := {}, {}, map[], map[];
    }

    method ConstructNetAction(e: Entry)
      requires IsNetAction(e)
      modifies this
      ensures State() == LoadedOne(old(State()), e)
    {
      for i := 0 to |e.motors|
        invariant netFuncMotors == old(netFuncMotors) + set j | 0 <= j < i :: e.motors[j]
        invariant gpMotors == old(gpMotors) && tasks == old(tasks) && netActions == old(netActions)
      {
        netFuncMotors := netFuncMotors + {e.motors[i]};
      }
      assert Motors(e) == set j | 0 <= j < |e.motors| :: e.motors[j];
      if e.key !in netActions {
        netActions := netActions[e.key := NetAction(netFuncMotors, e.times, e.action)];
      }
    }

    method LoadWork(config: seq<Entry>) returns (ok: bool)
      modifies this
      ensures ok && State() == LoadedFrom(old(State()), config)
    {
      for n := 0 to |config|
        invariant State() == LoadedFrom(old(State()), config[..n])
      {
        var e := config[n];
        assert config[..n + 1][..n] == config[..n];
        if IsNetAction(e) {
          ConstructNetAction(e);
          continue;
        }
        ghost var before := State();
        for i := 0 to |e.motors|
          invariant gpMotors == before.gpMotors + set j | 0 <= j < i :: e.motors[j]
          invariant State() == before.(gpMotors := gpMotors)
        {
          gpMotors := gpMotors + {e.motors[i]};
        }
        assert Motors(e) == set j | 0 <= j < |e.motors| :: e.motors[j];
        tasks := tasks[e.key := FunctionTask(e.key, gpMotors, e.times, e.delta, e.values, e.deltas)];
      }
      assert config[..|config|] == config;
      return true;
    }
  }

  // ---------- Motor sets ----------

  /** The entry at i puts its motors into the set that the entry at j gets. */
  predicate Reaches(es: seq<Entry>, i: nat, j: nat, motor: nat) {
    i <= j < |es| && IsNetAction(es[i]) == IsNetAction(es[j]) && motor in es[i].motors
  }

  lemma {:induction false} SetsOfLoaded(es: seq<Entry>, motor: nat)
    ensures motor in LoadedAll(es).gpMotors <==>
            exists i :: 0 <= i < |es| && !IsNetAction(es[i]) && motor in es[i].motors
    ensures motor in LoadedAll(es).netFuncMotors <==>
            exists i :: 0 <= i < |es| && IsNetAction(es[i]) && motor in es[i].motors
    decreases |es|
  {
    if es != [] {
      var init := es[..|es| - 1];
      SetsOfLoaded(init, motor);
      assert forall i :: 0 <= i < |init| ==> init[i] == es[i];
    }
  }

  /** The entry at j is the one the task of the key comes from. */
  ghost predicate IsTaskOf(es: seq<Entry>, key: string, j: nat) {
    && j < |es| && es[j].key == key && !IsNetAction(es[j])
    && forall i :: j < i < |es| && !IsNetAction(es[i]) ==> es[i].key != key
  }

  /** The entry at j is the one the action of the key comes from. */
  ghost predicate IsActionOf(es: seq<Entry>, key: string, j: nat) {
    && j < |es| && es[j].key == key && IsNetAction(es[j])
    && forall i :: 0 <= i < j && IsNetAction(es[i]) ==> es[i].key != key
  }

  /** The task that the entry at j gives. */
  function TaskOf(es: seq<Entry>, j: nat): FunctionTask
    requires j < |es|
  {
    var e := es[j];
    FunctionTask(e.key, LoadedAll(es[..j + 1]).gpMotors, e.times, e.delta, e.values, e.deltas)
  }

  lemma {:induction false} TaskIs(es: seq<Entry>, key: string, j: nat)
    requires IsTaskOf(es, key, j)
    ensures key in LoadedAll(es).tasks && LoadedAll(es).tasks[key] == TaskOf(es, j)
    decreases |es|
  {
    var n := |es| - 1;
    if j == n {
      assert es[..j + 1] == es;
    } else {
      assert es[..n][..j + 1] == es[..j + 1];
      TaskIs(es[..n], key, j);
    }
  }

  lemma {:induction false} TaskExists(es: seq<Entry>, key: string) returns (j: nat)
    requires key in LoadedAll(es).tasks
    ensures IsTaskOf(es, key, j)
    decreases |es|
  {
    var n := |es| - 1;
    if !IsNetAction(es[n]) && es[n].key == key {
      j := n;
    } else {
      j := TaskExists(es[..n], key);
    }
  }

  lemma {:induction false} ActionIs(es: seq<Entry>, key: string, j: nat)
    requires IsActionOf(es, key, j)
    ensures key in LoadedAll(es).netActions
    ensures LoadedAll(es).netActions[key] ==
            NetAction(LoadedAll(es[..j + 1]).netFuncMotors, es[j].times, es[j].action)
    decreases |es|
  {
    var n := |es| - 1;
    if j == n {
      assert es[..j + 1] == es;
      if key in LoadedAll(es[..n]).netActions {
        var i := ActionExists(es[..n], key);
      }
    } else {
      assert es[..n][..j + 1] == es[..j + 1];
      ActionIs(es[..n], key, j);
    }
  }

  lemma {:induction false} ActionExists(es: seq<Entry>, key: string) returns (j: nat)
    requires key in LoadedAll(es).netActions
    ensures IsActionOf(es, key, j)
    decreases |es|
  {
    var n := |es| - 1;
    if key in LoadedAll(es[..n]).netActions {
      j := ActionExists(es[..n], key);
    } else {
      j := n;
      if i :| 0 <= i < n && IsNetAction(es[i]) && es[i].key == key {
        KeyStays(es[..n], i);
      }
    }
  }

  lemma {:induction false} KeyStays(es: seq<Entry>, i: nat)
    requires i < |es| && IsNetAction(es[i])
    ensures es[i].key in LoadedAll(es).netActions
    decreases |es|
  {
    if i < |es| - 1 {
      KeyStays(es[..|es| - 1], i);
    }
  }

  /** The targets of a task are the motors of every function entry up to the last one with
    its key: entries above it in the file lend it theirs. */
  lemma TaskTargets(es: seq<Entry>, key: string, j: nat, motor: nat)
    requires IsTaskOf(es, key, j)
    ensures key in LoadedAll(es).tasks
    ensures motor in LoadedAll(es).tasks[key].targets <==> exists i: nat :: Reaches(es, i, j, motor)
  {
    TaskIs(es, key, j);
    var upTo := es[..j + 1];
    SetsOfLoaded(upTo, motor);
    if i :| 0 <= i < |upTo| && !IsNetAction(upTo[i]) && motor in upTo[i].motors {
      assert Reaches(es, i, j, motor);
    }
    if i: nat :| Reaches(es, i, j, motor) {
      assert upTo[i] == es[i];
    }
  }

  /** The same for the motors of a net action, up to the first entry with its key. */
  lemma ActionMotors(es: seq<Entry>, key: string, j: nat, motor: nat)
    requires IsActionOf(es, key, j)
    ensures key in LoadedAll(es).netActions && LoadedAll(es).netActions[key].action == es[j].action
    ensures motor in LoadedAll(es).netActions[key].motors <==> exists i: nat :: Reaches(es, i, j, motor)
  {
    ActionIs(es, key, j);
    var upTo := es[..j + 1];
    SetsOfLoaded(upTo, motor);
    if i :| 0 <= i < |upTo| && IsNetAction(upTo[i]) && motor in upTo[i].motors {
      assert Reaches(es, i, j, motor);
    }
    if i: nat :| Reaches(es, i, j, motor) {
      assert upTo[i] == es[i];
    }
  }

  // ---------- Net functions ----------

  /** The active functions and their motors; their names come in the order of the map. */
  type NetFunctions = map<string, set<nat>>

  const NAMES: seq<string> := ["bend", "dashboard", "rotate"]

  datatype Wiring = Wired(functions: NetFunctions) | UnknownAction

  function MotorsFor(actions: map<string, NetAction>, name: string): (ms: set<nat>)
    ensures forall m :: m in ms <==>
              exists key :: key in actions && actions[key].action == name && m in actions[key].motors
  {
    set key, m | key in actions && actions[key].action == name && m in actions[key].motors :: m
  }

  function ActionNames(actions: map<string, NetAction>): set<string> {
    set key | key in actions :: actions[key].action
  }

  /** supportNetFunction ignores a name it does not know, but the look-up that follows
    throws for it; each action adds its motors to the function it names. */
  function Wire(actions: map<string, NetAction>): Wiring {
    if exists name :: name in ActionNames(actions) && name !in NAMES then UnknownAction
    else Wired(map name | name in ActionNames(actions) :: MotorsFor(actions, name))
  }

  /** The first loop over the actions: every function of a known name becomes active. */
  method SupportAll(actions: map<string, NetAction>) returns (functions: NetFunctions)
    ensures functions == map name | name in ActionNames(actions) && name in NAMES :: {}
  {
    functions := map[];
    var rest := actions.Keys;
    while rest != {}
      invariant rest <= actions.Keys
      invariant forall name :: name in functions <==>
                  name in NAMES && exists key :: key in actions && key !in rest && actions[key].action == name
      invariant forall name :: name in functions ==> functions[name] == {}
    {
      var key :| key in rest;
      if actions[key].action in NAMES && actions[key].action !in functions {
        functions := functions[actions[key].action := {}];
      }
      rest := rest - {key};
    }
  }

  /** The motors of the actions for the name that a loop over the actions has done. */
  ghost predicate GivenSoFar(actions: map<string, NetAction>, todo: set<string>, name: string, motor: nat) {
    exists key :: key in actions && key !in todo && actions[key].action == name && motor in actions[key].motors
  }

  /** The second loop: each action's function is looked up, which throws if it is not
    active, and gets the action's motors. */
  method WireActions(actions: map<string, NetAction>) returns (w: Wiring)
    ensures w == Wire(actions)
  {
    var functions := SupportAll(actions);
    ghost var names := functions.Keys;
    var rest := actions.Keys;
    while rest != {}
      invariant rest <= actions.Keys && functions.Keys == names
      invariant forall key :: key in actions && key !in rest ==> actions[key].action in names
      invariant forall name, m :: name in names ==> (m in functions[name] <==> GivenSoFar(actions, rest, name, m))
    {
      var key :| key in rest;
      var name := actions[key].action;
      if name !in functions {
        assert name in ActionNames(actions) && name !in NAMES;
        return UnknownAction;
      }
      GivenMore(actions, rest, key);
      functions := functions[name := functions[name] + actions[key].motors];
      rest := rest - {key};
    }
    forall name | name in functions ensures functions[name] == MotorsFor(actions, name) {
      assert forall m :: m in functions[name] <==> GivenSoFar(actions, {}, name, m);
    }
    assert functions.Keys == ActionNames(actions);
    w := Wired(functions);
  }

  lemma GivenMore(actions: map<string, NetAction>, todo: set<string>, key: string)
    requires key in todo && key in actions
    ensures forall name, m :: GivenSoFar(actions, todo - {key}, name, m) <==>
              GivenSoFar(actions, todo, name, m) || (name == actions[key].action && m in actions[key].motors)
  {
  }

  predicate Acts(fs: NetFunctions, name: string, engine: nat) {
    name in fs && engine in fs[name]
  }

  /** The function that decides for an engine, bend before rotate. */
  function KindOf(fs: NetFunctions, engine: nat): NetKind {
    if Acts(fs, "bend", engine) then Bend
    else if Acts(fs, "rotate", engine) then Rotate
    else Leave
  }

  function NetValue(fs: NetFunctions, engine: nat, value: real, sine: real -> real): real {
    NetResult(KindOf(fs, engine), value, sine)
  }

  /** execute_net_function: the first function in name order that has the engine; the
    dashboard only draws. */
  method ExecuteNetFunction(fs: NetFunctions, engine: nat, value: real, sine: real -> real) returns (r: real)
    ensures r == NetValue(fs, engine, value, sine)
  {
    for i := 0 to |NAMES|
      invariant 1 <= i ==> !Acts(fs, "bend", engine)
      invariant 3 <= i ==> !Acts(fs, "rotate", engine)
    {
      if NAMES[i] in fs && NAMES[i] != "dashboard" {
        var motors := fs[NAMES[i]];
        while motors != {}
          invariant engine in motors <==> engine in fs[NAMES[i]]
        {
          var motor :| motor in motors;
          if motor == engine {
            return if NAMES[i] == "bend" then Bent(value) else Rotated(value, sine);
          }
          motors := motors - {motor};
        }
      }
    }
    return value;
  }

  // ---------- Which function an engine gets ----------

  /** The entry at j is the one its action comes from, for the function. */
  ghost predicate GivesAction(es: seq<Entry>, name: string, j: nat) {
    j < |es| && IsActionOf(es, es[j].key, j) && es[j].action == name
  }

  /** The motor is in a net action at or above such an entry. */
  ghost predicate InheritsAt(es: seq<Entry>, motor: nat, name: string, j: nat) {
    GivesAction(es, name, j) && exists i: nat :: Reaches(es, i, j, motor)
  }

  /** Because the motor set accumulates, a function acts on every motor of a net action at
    or above one of its own entries in the file, whatever that action was for. */
  lemma FunctionMotors(es: seq<Entry>, name: string, motor: nat)
    requires Wire(LoadedAll(es).netActions).Wired?
    ensures Acts(Wire(LoadedAll(es).netActions).functions, name, motor) <==>
            exists j: nat :: InheritsAt(es, motor, name, j)
  {
    var actions := LoadedAll(es).netActions;
    if key :| key in actions && actions[key].action == name && motor in actions[key].motors {
      var j := ActionExists(es, key);
      ActionMotors(es, key, j, motor);
      assert InheritsAt(es, motor, name, j);
    }
    if j: nat :| InheritsAt(es, motor, name, j) {
      ActionMotors(es, es[j].key, j, motor);
      assert name in ActionNames(actions) && motor in MotorsFor(actions, name);
    }
  }

  ghost predicate FollowedBy(es: seq<Entry>, at: nat, name: string) {
    exists j: nat :: at <= j && GivesAction(es, name, j)
  }

  /** The entry at `at` is the first net action that names the motor. */
  ghost predicate FirstNamedAt(es: seq<Entry>, motor: nat, at: nat) {
    && at < |es| && IsNetAction(es[at]) && motor in es[at].motors
    && forall i :: 0 <= i < at && IsNetAction(es[i]) ==> motor !in es[i].motors
  }

  /** The wiring fails exactly when an entry that gives an action names no function. */
  lemma UnknownIs(es: seq<Entry>)
    ensures Wire(LoadedAll(es).netActions).UnknownAction? <==>
            exists j: nat :: j < |es| && IsActionOf(es, es[j].key, j) &&
                             es[j].action != "bend" && es[j].action != "dashboard" && es[j].action != "rotate"
  {
    var actions := LoadedAll(es).netActions;
    assert NAMES[0] == "bend" && NAMES[1] == "dashboard" && NAMES[2] == "rotate";
    if name :| name in ActionNames(actions) && name !in NAMES {
      var key :| key in actions && actions[key].action == name;
      var j := ActionExists(es, key);
      ActionIs(es, key, j);
    }
    if j: nat :| j < |es| && IsActionOf(es, es[j].key, j) &&
                 es[j].action != "bend" && es[j].action != "dashboard" && es[j].action != "rotate" {
      ActionIs(es, es[j].key, j);
      assert es[j].action in ActionNames(actions);
    }
  }

  /** What an engine gets depends on the entries from its first one on: it is bent if one
    of them gives a bend, else rotated if one of them gives a rotation, else left alone,
    whatever its own entry asks for. */
  lemma RotateOnlyIfNoBendFollows(es: seq<Entry>, at: nat, motor: nat, value: real, sine: real -> real)
    requires Wire(LoadedAll(es).netActions).Wired? && FirstNamedAt(es, motor, at)
    ensures NetValue(Wire(LoadedAll(es).netActions).functions, motor, value, sine) ==
            if FollowedBy(es, at, "bend") then Bent(value)
            else if FollowedBy(es, at, "rotate") then Rotated(value, sine)
            else value
  {
    FunctionMotors(es, "bend", motor);
    FunctionMotors(es, "rotate", motor);
    FirstEntryReaches(es, at, motor, "bend");
    FirstEntryReaches(es, at, motor, "rotate");
  }

  lemma FirstEntryReaches(es: seq<Entry>, at: nat, motor: nat, name: string)
    requires FirstNamedAt(es, motor, at)
    ensures (exists j: nat :: InheritsAt(es, motor, name, j)) <==> FollowedBy(es, at, name)
  {
    if j: nat :| at <= j && GivesAction(es, name, j) {
      assert Reaches(es, at, j, motor);
      assert InheritsAt(es, motor, name, j);
    }
  }

  // ---------- The configuration in the repository ----------

  /** configured/tasks.yaml. */
  const CONFIGURED: seq<Entry> := [
    Entry("net_function_1", [1, 2], 4, "", 200, [0.5, 0.4], [-0.01, 0.02]),
    Entry("net_function_2", [3], 0, "", 1000, [0.5, 0.4, 0.3, 0.6], []),
    Entry("net_action_1", [4], 0, "rotate", 0, [], []),
    Entry("net_action_2", [5], 0, "bend", 0, [], []),
    Entry("net_action_3", [], 0, "dashboard", 0, [], [])]

  lemma KeyWithoutA(key: string)
    requires 'a' !in key
    ensures !Contains(key, NET_ACTION)
  {
    assert NET_ACTION[4] == 'a';
    forall j | 0 <= j <= |key| ensures !(NET_ACTION <= key[j..]) {
      assert |key| >= j + 5 ==> key[j..][4] == key[j + 4];
    }
  }

  lemma KeyInFront(key: string)
    requires NET_ACTION <= key
    ensures Contains(key, NET_ACTION)
  {
    assert key[0..] == key;
  }

  lemma ConfiguredKinds()
    ensures forall i :: 0 <= i < |CONFIGURED| ==> (IsNetAction(CONFIGURED[i]) <==> i >= 2)
  {
    KeyWithoutA("net_function_1");
    KeyWithoutA("net_function_2");
    KeyInFront("net_action_1");
    KeyInFront("net_action_2");
    KeyInFront("net_action_3");
  }

  lemma ConfiguredIsWired()
    ensures Wire(LoadedAll(CONFIGURED).netActions).Wired?
  {
    var actions := LoadedAll(CONFIGURED).netActions;
    ConfiguredKinds();
    assert NAMES[0] == "bend" && NAMES[1] == "dashboard" && NAMES[2] == "rotate";
    forall name | name in ActionNames(actions) ensures name in NAMES {
      var key :| key in actions && actions[key].action == name;
      var j := ActionExists(CONFIGURED, key);
      ActionIs(CONFIGURED, key, j);
      assert j == 2 || j == 3 || j == 4;
    }
  }

  /** What this means for the configuration in the repository: engine 4 is
    configured to rotate and is bent. */
  lemma ConfiguredEngineFourIsBent(value: real, sine: real -> real)
    ensures Wire(LoadedAll(CONFIGURED).netActions).Wired?
    ensures NetValue(Wire(LoadedAll(CONFIGURED).netActions).functions, 4, value, sine) == Bent(value)
  {
    ConfiguredKinds();
    ConfiguredIsWired();
    RotateOnlyIfNoBendFollows(CONFIGURED, 2, 4, value, sine);
    assert CONFIGURED[2].key[11] == '1' && CONFIGURED[3].key[11] == '2';
    assert GivesAction(CONFIGURED, "bend", 3);
  }

  /** The second function is configured for engine 3 and also targets those of the first. */
  lemma ConfiguredTargets(m: nat)
    ensures "net_function_2" in LoadedAll(CONFIGURED).tasks
    ensures m in LoadedAll(CONFIGURED).tasks["net_function_2"].targets <==> m in {1, 2, 3}
  {
    ConfiguredKinds();
    assert IsTaskOf(CONFIGURED, "net_function_2", 1);
    TaskTargets(CONFIGURED, "net_function_2", 1, m);
    assert Reaches(CONFIGURED, 0, 1, m) <==> m in [1, 2];
    assert Reaches(CONFIGURED, 1, 1, m) <==> m in [3];
  }
}
