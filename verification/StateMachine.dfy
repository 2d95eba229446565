/** The state machine of a `Thing`: `set_state` with callbacks that may set the state again, and the
    change events of the `state` property. */
module StateMachines {
  import opened ChangeEvents
  import opened Wrappers

  type StateName = string

  /** A callback: what it does next may depend on the current state and on whether a `set_state` raised; running
      into the interpreter's recursion limit is an exception like any other. */
  datatype Script =
    | Done
    | Fail                                             // raises
    | ReadState(next: Script)                          // reads the `state` property
    | IfState(state: StateName, same: Script, other: Script)
    | SetState(value: StateName, push: bool, skip: bool, ok: Script, error: Script)

  datatype Machine = Machine(
    states: seq<StateName>,
    initial: StateName,
    pushEnabled: bool,
    onEnter: map<StateName, seq<Script>>,
    onExit: map<StateName, seq<Script>>)

  /** `state` is `_state_machine_state`, `observed` the value remembered by the change event of the property,
      `events` what was pushed to the bus, `visited` every state that was ever assigned; `cut` says that some call
      ran into the recursion limit. */
  datatype Machined = Machined(state: Option<StateName>, observed: Option<StateName>, bus: bool,
                               events: seq<StateName>, visited: seq<StateName>, cut: bool)

  datatype Outcome = Fine | Raised

  function Current(m: Machine, o: Machined): StateName {
    if o.state.Some? then o.state.value else m.initial
  }

  /** Reading the `state` property: `Property.__get__` and `push_change_event` without a comparator. */
  function AfterRead(m: Machine, o: Machined): Machined {
    var (observed, events) := AfterPush(ByInequality(), o.bus, o.observed, o.events, Current(m, o));
    o.(observed := observed, events := events)
  }

  /** The assignment in `set_state`, and the event it triggers. */
  function Entered(m: Machine, o: Machined, value: StateName, push: bool): Machined {
    var o1 := o.(state := Some(value), visited := o.visited + [value]);
    if push && m.pushEnabled then AfterRead(m, o1) else o1
  }

  function Callbacks(table: map<StateName, seq<Script>>, s: StateName): seq<Script> {
    if s in table then table[s] else []
  }

  /** `set_state`, with `depth` calls left before the recursion limit. */
  function AfterSetState(m: Machine, o: Machined, value: StateName, push: bool, skip: bool, depth: nat)
    : (Machined, Outcome)
    decreases depth, 0
  {
    if value !in m.states then (o, Raised)
    else if value == Current(m, o) then (o, Fine)
    else
      var o1 := Entered(m, o, value, push);
      if skip then (o1, Fine)
      else if depth == 0 then (o1.(cut := true), Raised)
      else AfterScripts(m, o1, Callbacks(m.onExit, Current(m, o)) + Callbacks(m.onEnter, value), depth - 1)
  }

  function AfterScripts(m: Machine, o: Machined, scripts: seq<Script>, depth: nat): (Machined, Outcome)
    decreases depth, 2, scripts
  {
    if scripts == [] then (o, Fine)
    else
      var (o1, r) := AfterScript(m, o, scripts[0], depth);
      if r == Fine then AfterScripts(m, o1, scripts[1..], depth) else (o1, r)
  }

  function AfterScript(m: Machine, o: Machined, script: Script, depth: nat): (Machined, Outcome)
    decreases depth, 1, script
  {
    match script
    case Done => (o, Fine)
    case Fail => (o, Raised)
    case ReadState(next) => AfterScript(m, AfterRead(m, o), next, depth)
    case IfState(s, same, other) => AfterScript(m, o, if Current(m, o) == s then same else other, depth)
    case SetState(v, push, skip, ok, error) =>
      var (o1, r) := AfterSetState(m, o, v, push, skip, depth);
      AfterScript(m, o1, if r == Fine then ok else error, depth)
  }

  // ----- The path a machine takes ------------------------------------------------------------

  ghost predicate NoRepeat(s: seq<StateName>) {
    forall i :: 0 <= i < |s| - 1 ==> s[i] != s[i + 1]
  }

  ghost function Last(s: seq<StateName>): Option<StateName> {
    if s == [] then None else Some(s[|s| - 1])
  }

  /** The current state is where the path ends; every state on it is declared, and each differs from the one
      before, the initial state included. */
  ghost predicate OnPath(m: Machine, o: Machined) {
    && m.initial in m.states
    && o.state == Last(o.visited)
    && (forall s :: s in o.visited ==> s in m.states)
    && NoRepeat([m.initial] + o.visited)
  }

  /** No two events in a row are equal, and the last one is the value last observed. */
  ghost predicate EventsDiffer(o: Machined) {
    o.observed == Last(o.events) && NoRepeat(o.events)
  }

  /** The pushed events are the states visited, in order, after the initial state if that was read first. */
  ghost predicate Faithful(m: Machine, o: Machined) {
    o.bus && (o.events == o.visited || o.events == [m.initial] + o.visited)
  }

  predicate AlwaysPushes(script: Script) {
    match script
    case Done => true
    case Fail => true
    case ReadState(next) => AlwaysPushes(next)
    case IfState(_, same, other) => AlwaysPushes(same) && AlwaysPushes(other)
    case SetState(_, push, _, ok, error) => push && AlwaysPushes(ok) && AlwaysPushes(error)
  }

  ghost predicate Pushing(m: Machine) {
    && m.pushEnabled
    && (forall s, k :: s in m.onEnter && 0 <= k < |m.onEnter[s]| ==> AlwaysPushes(m.onEnter[s][k]))
    && (forall s, k :: s in m.onExit && 0 <= k < |m.onExit[s]| ==> AlwaysPushes(m.onExit[s][k]))
  }

  /** `all` says that every change of state is to be pushed. */
  ghost predicate Sound(m: Machine, o: Machined, all: bool) {
    OnPath(m, o) && EventsDiffer(o) && (all ==> Pushing(m) && Faithful(m, o))
  }

  /** Nothing visited is forgotten, and once a state was visited no event goes unmatched. */
  ghost predicate Goes(m: Machine, o: Machined, o': Machined, all: bool) {
    && Sound(m, o', all)
    && |o.visited| <= |o'.visited|
    && (all && o.visited != [] ==> |o'.events| - |o'.visited| == |o.events| - |o.visited|)
  }

  lemma ReadKeepsSound(m: Machine, o: Machined, all: bool)
    requires Sound(m, o, all)
    ensures Goes(m, o, AfterRead(m, o), all)
    ensures all && o.visited == [] ==> AfterRead(m, o).visited == [] && |AfterRead(m, o).events| == 1
  {
    if o.bus && o.observed != Some(Current(m, o)) {
      var events := o.events + [Current(m, o)];
      if all {
        assert o.events == [] && o.visited == [];
        assert events == [m.initial] + o.visited;
      }
    }
  }

  lemma EnterKeepsSound(m: Machine, o: Machined, value: StateName, push: bool, all: bool)
    requires Sound(m, o, all) && value in m.states && value != Current(m, o) && (all ==> push)
    ensures Goes(m, o, Entered(m, o, value, push), all) && Entered(m, o, value, push).visited != []
    ensures all ==> |Entered(m, o, value, push).events| == |o.events| + 1
    ensures |Entered(m, o, value, push).visited| == |o.visited| + 1
  {
    var path := [m.initial] + o.visited;
    var o1 := o.(state := Some(value), visited := o.visited + [value]);
    assert [m.initial] + o1.visited == path + [value];
    assert path[|path| - 1] == Current(m, o);
    if all && o.events == path {
      assert o.events + [value] == [m.initial] + o1.visited;
    }
  }

  /** Re-entrant callbacks of any nesting keep all of it, even when they raise or run into the recursion limit. */
  lemma {:induction false} SetStateKeepsSound(m: Machine, o: Machined, value: StateName, push: bool, skip: bool,
                                              depth: nat, all: bool)
    requires Sound(m, o, all) && (all ==> push)
    ensures Goes(m, o, AfterSetState(m, o, value, push, skip, depth).0, all)
    ensures all ==> var o' := AfterSetState(m, o, value, push, skip, depth).0;
      |o'.events| - |o'.visited| == |o.events| - |o.visited|
    decreases depth, 0
  {
    if value in m.states && value != Current(m, o) {
      EnterKeepsSound(m, o, value, push, all);
      if !skip && depth > 0 {
        var scripts := Callbacks(m.onExit, Current(m, o)) + Callbacks(m.onEnter, value);
        ScriptsKeepSound(m, Entered(m, o, value, push), scripts, depth - 1, all);
      }
    }
  }

  lemma {:induction false} ScriptsKeepSound(m: Machine, o: Machined, scripts: seq<Script>, depth: nat, all: bool)
    requires Sound(m, o, all) && (all ==> forall k :: 0 <= k < |scripts| ==> AlwaysPushes(scripts[k]))
    ensures Goes(m, o, AfterScripts(m, o, scripts, depth).0, all)
    decreases depth, 2, scripts
  {
    if scripts != [] {
      ScriptKeepsSound(m, o, scripts[0], depth, all);
      ScriptsKeepSound(m, AfterScript(m, o, scripts[0], depth).0, scripts[1..], depth, all);
    }
  }

  lemma {:induction false} ScriptKeepsSound(m: Machine, o: Machined, script: Script, depth: nat, all: bool)
    requires Sound(m, o, all) && (all ==> AlwaysPushes(script))
    ensures Goes(m, o, AfterScript(m, o, script, depth).0, all)
    decreases depth, 1, script
  {
    match script
    case Done =>
    case Fail =>
    case ReadState(next) =>
      ReadKeepsSound(m, o, all);
      ScriptKeepsSound(m, AfterRead(m, o), next, depth, all);
    case IfState(s, same, other) =>
      ScriptKeepsSound(m, o, if Current(m, o) == s then same else other, depth, all);
    case SetState(v, push, skip, ok, error) =>
      SetStateKeepsSound(m, o, v, push, skip, depth, all);
      var (o1, r) := AfterSetState(m, o, v, push, skip, depth);
      ScriptKeepsSound(m, o1, if r == Fine then ok else error, depth, all);
  }

  // ----- What one call does, in order ----------------------------------------------------------

  /** These callbacks were started one after the other, each in the state that the one before left, up to the first
      that raised. */
  ghost predicate InTurn(m: Machine, o: Machined, callbacks: seq<Script>, depth: nat, states: seq<Machined>,
                         o': Machined, r: Outcome)
  {
    && 0 < |states| <= |callbacks| + 1
    && states[0] == o && states[|states| - 1] == o'
    && (forall k :: 0 <= k < |states| - 1 ==>
          AfterScript(m, states[k], callbacks[k], depth) == (states[k + 1], if k + 2 < |states| then Fine else r))
    && (r == Fine ==> |states| == |callbacks| + 1)
    && (|states| == 1 ==> r == Fine)
  }

  lemma StartsEarlier(m: Machine, o: Machined, scripts: seq<Script>, depth: nat, states: seq<Machined>,
                      o': Machined, r: Outcome)
    requires scripts != [] && AfterScript(m, o, scripts[0], depth).1 == Fine
    requires InTurn(m, AfterScript(m, o, scripts[0], depth).0, scripts[1..], depth, states, o', r)
    ensures InTurn(m, o, scripts, depth, [o] + states, o', r)
  {
    var more := [o] + states;
    forall k | 0 <= k < |more| - 1
      ensures AfterScript(m, more[k], scripts[k], depth) == (more[k + 1], if k + 2 < |more| then Fine else r)
    {
      if k > 0 {
        assert more[k] == states[k - 1] && more[k + 1] == states[k] && scripts[k] == scripts[1..][k - 1];
      }
    }
  }

  lemma {:induction false} ScriptsInTurn(m: Machine, o: Machined, scripts: seq<Script>, depth: nat)
    returns (states: seq<Machined>)
    ensures var (o', r) := AfterScripts(m, o, scripts, depth); InTurn(m, o, scripts, depth, states, o', r)
    decreases scripts
  {
    states := [o];
    if scripts != [] {
      var (o1, r) := AfterScript(m, o, scripts[0], depth);
      if r == Fine {
        var (o', r') := AfterScripts(m, o1, scripts[1..], depth);
        states := ScriptsInTurn(m, o1, scripts[1..], depth);
        StartsEarlier(m, o, scripts, depth, states, o', r');
        states := [o] + states;
      } else {
        states := [o, o1];
      }
    }
  }

  ghost predicate RunInTurn(m: Machine, o: Machined, callbacks: seq<Script>, depth: nat, o': Machined, r: Outcome) {
    exists states :: InTurn(m, o, callbacks, depth, states, o', r)
  }

  /** What one `set_state` does: nothing for an undeclared state or the current one; otherwise the assignment
      with its event comes first, then one by one the callbacks for leaving the old state and those for entering
      the new one. All of them are started if none raises, and none after the first that does. */
  ghost predicate SetsState(m: Machine, o: Machined, value: StateName, push: bool, skip: bool, depth: nat,
                            o': Machined, r: Outcome)
  {
    var current := if o.state.Some? then o.state.value else m.initial;
    if value !in m.states then o' == o && r == Raised
    else if value == current then o' == o && r == Fine
    else
      var pushes := push && m.pushEnabled && o.bus;
      var o1 := Machined(Some(value), if pushes then Some(value) else o.observed, o.bus,
                         if pushes && o.observed != Some(value) then o.events + [value] else o.events,
                         o.visited + [value], o.cut);
      if skip then o' == o1 && r == Fine
      else if depth == 0 then o' == o1.(cut := true) && r == Raised
      else
        var leaving := if current in m.onExit then m.onExit[current] else [];
        var entering := if value in m.onEnter then m.onEnter[value] else [];
        RunInTurn(m, o1, leaving + entering, depth - 1, o', r)
  }

  lemma SetStateInOrder(m: Machine, o: Machined, value: StateName, push: bool, skip: bool, depth: nat)
    ensures var (o', r) := AfterSetState(m, o, value, push, skip, depth);
      SetsState(m, o, value, push, skip, depth, o', r)
  {
    if value in m.states && value != Current(m, o) && !skip && depth > 0 {
      var leaving := if Current(m, o) in m.onExit then m.onExit[Current(m, o)] else [];
      var entering := if value in m.onEnter then m.onEnter[value] else [];
      var _ := ScriptsInTurn(m, Entered(m, o, value, push), leaving + entering, depth - 1);
    }
  }

  /** What a callback does: it ends or raises, goes on after reading the state, depends on the state it finds, or
      sets the state and goes on in one way or, catching the exception, in the other. */
  lemma CallbackMeans(m: Machine, o: Machined, s: StateName, push: bool, skip: bool, a: Script, b: Script, depth: nat)
    ensures AfterScript(m, o, Done, depth) == (o, Fine) && AfterScript(m, o, Fail, depth) == (o, Raised)
    ensures var current := if o.state.Some? then o.state.value else m.initial;
      AfterScript(m, o, IfState(s, a, b), depth) == AfterScript(m, o, if current == s then a else b, depth)
    ensures var current := if o.state.Some? then o.state.value else m.initial;
      var seen := if o.bus && o.observed != Some(current) then o.events + [current] else o.events;
      var o1 := o.(observed := if o.bus then Some(current) else o.observed, events := seen);
      AfterScript(m, o, ReadState(a), depth) == AfterScript(m, o1, a, depth)
    ensures var (o1, r) := AfterSetState(m, o, s, push, skip, depth);
      AfterScript(m, o, SetState(s, push, skip, a, b), depth) ==
        AfterScript(m, o1, if r == Fine then a else b, depth)
  {
  }

  /** A callback for entering B that sets C: the machine ends in C, and clients have seen both. */
  lemma EnteringSetsAgain(push: bool)
    ensures var m := Machine(["A", "B", "C"], "A", true, map["B" := [SetState("C", push, false, Done, Done)]], map[]);
      var (o, r) := AfterSetState(m, Fresh(true), "B", true, false, 10);
      && r == Fine && o.state == Some("C") && o.visited == ["B", "C"]
      && o.events == (if push then ["B", "C"] else ["B"])
  {
    var second := SetState("C", push, false, Done, Done);
    var m := Machine(["A", "B", "C"], "A", true, map["B" := [second]], map[]);
    var o1 := Entered(m, Fresh(true), "B", true);
    var o2 := Entered(m, o1, "C", push);
    assert Callbacks(m.onExit, "A") + Callbacks(m.onEnter, "B") == [second];
    assert Callbacks(m.onExit, "B") + Callbacks(m.onEnter, "C") == [];
    assert o2.visited == ["B", "C"];
    assert AfterSetState(m, o1, "C", push, false, 9) == (o2, Fine);
    assert AfterScript(m, o1, second, 9) == (o2, Fine);
  }

  // ----- Whole runs --------------------------------------------------------------------------

  datatype ClientOp =
    | Set(value: StateName, push: bool, skip: bool, depth: nat)
    | Read
    | AttachBus
    | DetachBus

  function AfterOp(m: Machine, o: Machined, op: ClientOp): Machined {
    match op
    case Set(v, push, skip, depth) => AfterSetState(m, o, v, push, skip, depth).0
    case Read => AfterRead(m, o)
    case AttachBus => o.(bus := true)
    case DetachBus => o.(bus := false)
  }

  function AfterOps(m: Machine, o: Machined, ops: seq<ClientOp>): Machined {
    if ops == [] then o else AfterOp(m, AfterOps(m, o, ops[..|ops| - 1]), ops[|ops| - 1])
  }

  function Fresh(bus: bool): Machined {
    Machined(None, None, bus, [], [], false)
  }

  lemma {:induction false} OpsKeepSound(m: Machine, bus: bool, ops: seq<ClientOp>, all: bool)
    requires m.initial in m.states
    requires all ==> bus && Pushing(m) && forall op :: op in ops ==> op.Read? || (op.Set? && op.push)
    ensures Sound(m, AfterOps(m, Fresh(bus), ops), all)
  {
    if ops != [] {
      var init, last := ops[..|ops| - 1], ops[|ops| - 1];
      OpsKeepSound(m, bus, init, all);
      var o := AfterOps(m, Fresh(bus), init);
      match last
      case Set(v, push, skip, depth) => SetStateKeepsSound(m, o, v, push, skip, depth, all);
      case Read => ReadKeepsSound(m, o, all);
      case _ =>
    }
  }

  /** Whatever clients and callbacks do, the current state is a declared one. */
  lemma AlwaysDeclared(m: Machine, bus: bool, ops: seq<ClientOp>)
    requires m.initial in m.states
    ensures Current(m, AfterOps(m, Fresh(bus), ops)) in m.states
  {
    OpsKeepSound(m, bus, ops, false);
    var o := AfterOps(m, Fresh(bus), ops);
    assert o.state.Some? ==> o.state.value in o.visited;
  }

  /** The k-th thing clients do is to read the state before it ever changed. */
  ghost predicate ReadsInitialAt(m: Machine, ops: seq<ClientOp>, k: nat)
    requires k < |ops|
  {
    ops[k].Read? && AfterOps(m, Fresh(true), ops[..k]).visited == []
  }

  /** With the bus there from the start and every change pushed, clients see exactly the states visited,
      preceded by the initial state if and only if it was read before the first change. */
  lemma EventsAreThePath(m: Machine, ops: seq<ClientOp>)
    requires m.initial in m.states && Pushing(m)
    requires forall op :: op in ops ==> op.Read? || (op.Set? && op.push)
    ensures var o := AfterOps(m, Fresh(true), ops);
      o.events == o.visited || o.events == [m.initial] + o.visited
    ensures var o := AfterOps(m, Fresh(true), ops);
      |o.events| > |o.visited| <==>
        exists k :: 0 <= k < |ops| && ReadsInitialAt(m, ops, k)
  {
    OpsKeepSound(m, true, ops, true);
    ReadFirst(m, ops);
  }

  lemma {:induction false} ReadFirst(m: Machine, ops: seq<ClientOp>)
    requires m.initial in m.states && Pushing(m)
    requires forall op :: op in ops ==> op.Read? || (op.Set? && op.push)
    ensures var o := AfterOps(m, Fresh(true), ops);
      |o.events| > |o.visited| <==> exists k :: 0 <= k < |ops| && ReadsInitialAt(m, ops, k)
  {
    if ops != [] {
      var init, last := ops[..|ops| - 1], ops[|ops| - 1];
      ReadFirst(m, init);
      OpsKeepSound(m, true, init, true);
      var o := AfterOps(m, Fresh(true), init);
      forall k | 0 <= k < |init| ensures ReadsInitialAt(m, ops, k) == ReadsInitialAt(m, init, k) {
        assert init[..k] == ops[..k];
      }
      assert last in ops;
      match last
      case Set(v, push, skip, depth) =>
        SetStateKeepsSound(m, o, v, push, skip, depth, true);
        assert !ReadsInitialAt(m, ops, |init|);
      case Read =>
        ReadKeepsSound(m, o, true);
        assert ReadsInitialAt(m, ops, |init|) <==> o.visited == [];
    }
  }

  /** Whether pushed or not, what clients see never repeats itself, and the path never does. */
  lemma NothingRepeats(m: Machine, bus: bool, ops: seq<ClientOp>)
    requires m.initial in m.states
    ensures var o := AfterOps(m, Fresh(bus), ops);
      NoRepeat(o.events) && o.observed == Last(o.events) && NoRepeat([m.initial] + o.visited)
  {
    OpsKeepSound(m, bus, ops, false);
  }

  // ----- The recursion limit only cuts off -------------------------------------------------------

  /** That some call was cut off is not forgotten. */
  lemma {:induction false} SetStateStaysCut(m: Machine, o: Machined, value: StateName, push: bool, skip: bool,
                                            depth: nat)
    requires o.cut
    ensures AfterSetState(m, o, value, push, skip, depth).0.cut
    decreases depth, 0
  {
    if value in m.states && value != Current(m, o) && !skip && depth > 0 {
      var scripts := Callbacks(m.onExit, Current(m, o)) + Callbacks(m.onEnter, value);
      ScriptsStayCut(m, Entered(m, o, value, push), scripts, depth - 1);
    }
  }

  lemma {:induction false} ScriptsStayCut(m: Machine, o: Machined, scripts: seq<Script>, depth: nat)
    requires o.cut
    ensures AfterScripts(m, o, scripts, depth).0.cut
    decreases depth, 2, scripts
  {
    if scripts != [] {
      ScriptStaysCut(m, o, scripts[0], depth);
      ScriptsStayCut(m, AfterScript(m, o, scripts[0], depth).0, scripts[1..], depth);
    }
  }

  lemma {:induction false} ScriptStaysCut(m: Machine, o: Machined, script: Script, depth: nat)
    requires o.cut
    ensures AfterScript(m, o, script, depth).0.cut
    decreases depth, 1, script
  {
    match script
    case Done =>
    case Fail =>
    case ReadState(next) => ScriptStaysCut(m, AfterRead(m, o), next, depth);
    case IfState(s, same, other) => ScriptStaysCut(m, o, if Current(m, o) == s then same else other, depth);
    case SetState(v, push, skip, ok, error) =>
      SetStateStaysCut(m, o, v, push, skip, depth);
      var (o1, r) := AfterSetState(m, o, v, push, skip, depth);
      ScriptStaysCut(m, o1, if r == Fine then ok else error, depth);
  }

  /** A call in which nothing runs into the recursion limit, not even something that is caught, does the same under
      any higher limit. */
  lemma {:induction false} DeeperSetState(m: Machine, o: Machined, value: StateName, push: bool, skip: bool,
                                          depth: nat, deeper: nat)
    requires depth <= deeper && !AfterSetState(m, o, value, push, skip, depth).0.cut
    ensures AfterSetState(m, o, value, push, skip, deeper) == AfterSetState(m, o, value, push, skip, depth)
    decreases depth, 0
  {
    if value in m.states && value != Current(m, o) && !skip {
      var scripts := Callbacks(m.onExit, Current(m, o)) + Callbacks(m.onEnter, value);
      DeeperScripts(m, Entered(m, o, value, push), scripts, depth - 1, deeper - 1);
    }
  }

  lemma {:induction false} DeeperScripts(m: Machine, o: Machined, scripts: seq<Script>, depth: nat, deeper: nat)
    requires depth <= deeper && !AfterScripts(m, o, scripts, depth).0.cut
    ensures AfterScripts(m, o, scripts, deeper) == AfterScripts(m, o, scripts, depth)
    decreases depth, 2, scripts
  {
    if scripts != [] {
      var (o1, r) := AfterScript(m, o, scripts[0], depth);
      if o1.cut {
        ScriptsStayCut(m, o1, scripts[1..], depth);
      }
      DeeperScript(m, o, scripts[0], depth, deeper);
      if r == Fine {
        DeeperScripts(m, o1, scripts[1..], depth, deeper);
      }
    }
  }

  lemma {:induction false} DeeperScript(m: Machine, o: Machined, script: Script, depth: nat, deeper: nat)
    requires depth <= deeper && !AfterScript(m, o, script, depth).0.cut
    ensures AfterScript(m, o, script, deeper) == AfterScript(m, o, script, depth)
    decreases depth, 1, script
  {
    match script
    case Done =>
    case Fail =>
    case ReadState(next) => DeeperScript(m, AfterRead(m, o), next, depth, deeper);
    case IfState(s, same, other) =>
      DeeperScript(m, o, if Current(m, o) == s then same else other, depth, deeper);
    case SetState(v, push, skip, ok, error) =>
      var (o1, r) := AfterSetState(m, o, v, push, skip, depth);
      if o1.cut {
        ScriptStaysCut(m, o1, if r == Fine then ok else error, depth);
      }
      DeeperSetState(m, o, v, push, skip, depth, deeper);
      DeeperScript(m, o1, if r == Fine then ok else error, depth, deeper);
  }

  // ----- The object itself -----------------------------------------------------------------------

  class BoundFSM {
    const machine: Machine
    var state: Option<StateName>
    var observed: Option<StateName>
    var bus: bool
    var events: seq<StateName>
    ghost var visited: seq<StateName>
    ghost var cut: bool

    ghost function View(): Machined
      reads this
    {
      Machined(state, observed, bus, events, visited, cut)
    }

    constructor (machine: Machine, bus: bool)
      ensures this.machine == machine && View() == Fresh(bus)
    {
      this.machine, this.bus := machine, bus;
      state, observed, events, visited, cut := None, None, [], [], false;
    }

    /** The state entered last, or the initial one; on a sound path it is a declared one. */
    method GetState() returns (s: StateName)
      ensures s == Current(machine, View())
      ensures OnPath(machine, View()) ==> Some(s) == Last([machine.initial] + visited) && s in machine.states
    {
      if state.Some? {
        return state.value;
      }
      return machine.initial;
    }

    method ReadStateProperty() returns (s: StateName)
      modifies this
      ensures View() == AfterRead(machine, old(View())) && s == Current(machine, View())
      ensures s == if state.Some? then state.value else machine.initial
      ensures events == old(events) + if bus && old(observed) != Some(s) then [s] else []
    {
      s := GetState();
      if bus {
        var before := observed;
        observed := Some(s);
        if before == Some(s) {
          return;
        }
        events := events + [s];
      }
    }

    method SetCurrentState(value: StateName, push: bool, skip: bool, depth: nat) returns (r: Outcome)
      modifies this
      ensures (View(), r) == AfterSetState(machine, old(View()), value, push, skip, depth)
      ensures SetsState(machine, old(View()), value, push, skip, depth, View(), r)
      decreases depth, 0
    {
      ghost var o := View();
      var previous := GetState();
      if value !in machine.states {
        r := Raised;
      } else if value == previous {
        r := Fine;
      } else {
        EnterState(value, push);
        if skip {
          r := Fine;
        } else if depth == 0 {
          cut := true;
          r := Raised;  // RecursionError
        } else {
          CallbacksInTwo(machine, o, value, push, depth);
          r := Fine;
          if previous in machine.onExit {
            r := RunCallbacks(machine.onExit[previous], depth - 1);
          }
          if r == Fine && value in machine.onEnter {
            r := RunCallbacks(machine.onEnter[value], depth - 1);
          }
        }
      }
      assert (View(), r) == AfterSetState(machine, o, value, push, skip, depth);
      SetStateInOrder(machine, o, value, push, skip, depth);
    }

    /** The assignment, and the access to `state` that triggers its event. */
    method EnterState(value: StateName, push: bool)
      modifies this
      ensures View() == Entered(machine, old(View()), value, push)
    {
      state := Some(value);
      visited := visited + [value];
      if push && machine.pushEnabled {
        var _ := ReadStateProperty();
      }
    }

    method RunCallbacks(functions: seq<Script>, depth: nat) returns (r: Outcome)
      modifies this
      ensures (View(), r) == AfterScripts(machine, old(View()), functions, depth)
      decreases depth, 2
    {
      var i := 0;
      while i < |functions|
        invariant 0 <= i <= |functions|
        invariant AfterScripts(machine, View(), functions[i..], depth) ==
          AfterScripts(machine, old(View()), functions, depth)
      {
        assert functions[i..][0] == functions[i] && functions[i..][1..] == functions[i + 1..];
        r := RunCallback(functions[i], depth);
        if r != Fine {
          return;
        }
        i := i + 1;
      }
      r := Fine;
    }

    method RunCallback(script: Script, depth: nat) returns (r: Outcome)
      modifies this
      ensures (View(), r) == AfterScript(machine, old(View()), script, depth)
      decreases depth, 1, script
    {
      match script
      case Done => return Fine;
      case Fail => return Raised;
      case ReadState(next) =>
        var _ := ReadStateProperty();
        r := RunCallback(next, depth);
      case IfState(s, same, other) =>
        var now := GetState();
        if now == s {
          r := RunCallback(same, depth);
        } else {
          r := RunCallback(other, depth);
        }
      case SetState(v, push, skip, ok, error) =>
        r := SetCurrentState(v, push, skip, depth);
        if r == Fine {
          r := RunCallback(ok, depth);
        } else {
          r := RunCallback(error, depth);
        }
    }
  }

  lemma CallbacksInTwo(m: Machine, o: Machined, value: StateName, push: bool, depth: nat)
    requires value in m.states && value != Current(m, o) && depth > 0
    ensures var s, o1 := Current(m, o), Entered(m, o, value, push);
      var (o2, left) := if s in m.onExit then AfterScripts(m, o1, m.onExit[s], depth - 1) else (o1, Fine);
      AfterSetState(m, o, value, push, false, depth) ==
        if left == Fine && value in m.onEnter then AfterScripts(m, o2, m.onEnter[value], depth - 1) else (o2, left)
  {
    var exits, enters := Callbacks(m.onExit, Current(m, o)), Callbacks(m.onEnter, value);
    ScriptsInTwo(m, Entered(m, o, value, push), exits, enters, depth - 1);
  }

  /** Leaving callbacks first, then entering ones, unless a leaving one raised. */
  lemma {:induction false} ScriptsInTwo(m: Machine, o: Machined, first: seq<Script>, second: seq<Script>, depth: nat)
    ensures AfterScripts(m, o, first + second, depth) ==
      var (o1, r) := AfterScripts(m, o, first, depth);
      if r == Fine then AfterScripts(m, o1, second, depth) else (o1, r)
    decreases first
  {
    if first == [] {
      assert first + second == second;
    } else {
      assert (first + second)[1..] == first[1..] + second;
      ScriptsInTwo(m, AfterScript(m, o, first[0], depth).0, first[1..], second, depth);
    }
  }
}
