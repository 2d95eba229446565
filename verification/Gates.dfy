/** `StateMachine.validate` and the gates it sets up: in which states an action may be executed, or a property
    written, from outside. */
module Gates {
  import opened Sequences
  import opened Wrappers

  type StateName = string

  /** What a machine may list; only actions and properties of the owner are accepted. */
  datatype Resource = Action(name: string) | Property(name: string) | Foreign(name: string)

  /** The machine specification, in the order of its keyword arguments. */
  type Table = seq<(StateName, seq<Resource>)>

  /** The `state` attribute of each action and property of the owner. */
  type GateMap = map<Resource, Option<seq<StateName>>>

  predicate Acceptable(r: Resource, owned: set<Resource>) {
    !r.Foreign? && r in owned
  }

  function Opened(gates: GateMap, r: Resource, s: StateName): GateMap
    requires r in gates
  {
    match gates[r]
    case None => gates[r := Some([s])]
    case Some(already) => if s in already then gates else gates[r := Some(already + [s])]
  }

  /** One state of the machine: its resources in turn, up to the first that is not acceptable. */
  function AfterRow(gates: GateMap, owned: set<Resource>, s: StateName, resources: seq<Resource>): (GateMap, bool)
    requires owned <= gates.Keys
  {
    if resources == [] then (gates, true)
    else if !Acceptable(resources[0], owned) then (gates, false)
    else AfterRow(Opened(gates, resources[0], s), owned, s, resources[1..])
  }

  function AfterTable(gates: GateMap, owned: set<Resource>, states: seq<StateName>, table: Table): (GateMap, bool)
    requires owned <= gates.Keys
  {
    if table == [] then (gates, true)
    else if table[0].0 !in states then (gates, false)
    else
      var (g, ok) := AfterRow(gates, owned, table[0].0, table[0].1);
      if ok then RowKeepsKeys(gates, owned, table[0].0, table[0].1); AfterTable(g, owned, states, table[1..])
      else (g, false)
  }

  lemma {:induction false} RowKeepsKeys(gates: GateMap, owned: set<Resource>, s: StateName, resources: seq<Resource>)
    requires owned <= gates.Keys
    ensures AfterRow(gates, owned, s, resources).0.Keys == gates.Keys
    decreases resources
  {
    if resources != [] && Acceptable(resources[0], owned) {
      RowKeepsKeys(Opened(gates, resources[0], s), owned, s, resources[1..]);
    }
  }

  // ----- The gates a valid machine leaves behind ----------------------------------------------

  /** The gate in `Property.external_set` and `BoundAction.validate_call`. */
  predicate IsOpen(gate: Option<seq<StateName>>, current: StateName) {
    gate.None? || current in gate.value
  }

  predicate Permits(gates: GateMap, r: Resource, current: StateName)
    requires r in gates
  {
    IsOpen(gates[r], current)
  }

  predicate Listed(table: Table, r: Resource, s: StateName) {
    exists k :: 0 <= k < |table| && table[k].0 == s && r in table[k].1
  }

  predicate ListedSomewhere(table: Table, r: Resource) {
    exists k :: 0 <= k < |table| && r in table[k].1
  }

  ghost predicate Wellformed(table: Table, owned: set<Resource>, states: seq<StateName>) {
    forall k :: 0 <= k < |table| ==>
      table[k].0 in states && forall r :: r in table[k].1 ==> Acceptable(r, owned)
  }

  /** How one gate opens up for state `s`. */
  ghost predicate Widened(before: Option<seq<StateName>>, after: Option<seq<StateName>>, s: StateName, listed: bool) {
    && (listed ==> after.Some?)
    && (!listed ==> after == before)
    && (after.Some? ==> forall x :: x in after.value <==> (before.Some? && x in before.value) || (listed && x == s))
    && (before.None? && after.Some? ==> NoDuplicates(after.value))
    && (before.Some? && NoDuplicates(before.value) ==> after.Some? && NoDuplicates(after.value))
  }

  lemma {:induction false} RowWidens(gates: GateMap, owned: set<Resource>, s: StateName, resources: seq<Resource>,
                                     r: Resource)
    requires owned <= gates.Keys && r in gates
    requires forall x :: x in resources ==> Acceptable(x, owned)
    ensures var (g, ok) := AfterRow(gates, owned, s, resources);
      ok && r in g && Widened(gates[r], g[r], s, r in resources)
    decreases resources
  {
    if resources != [] {
      assert Acceptable(resources[0], owned);
      var g := Opened(gates, resources[0], s);
      RowWidens(g, owned, s, resources[1..], r);
      assert resources == [resources[0]] + resources[1..];
    }
  }

  /** What one gate is after all rows. */
  ghost predicate Gated(before: Option<seq<StateName>>, after: Option<seq<StateName>>, table: Table, r: Resource) {
    && (after.Some? <==> before.Some? || ListedSomewhere(table, r))
    && (after.Some? ==> forall x :: x in after.value <==> (before.Some? && x in before.value) || Listed(table, r, x))
    && ((before.Some? ==> NoDuplicates(before.value)) && after.Some? ==> NoDuplicates(after.value))
  }

  lemma {:induction false} TableGates(gates: GateMap, owned: set<Resource>, states: seq<StateName>, table: Table,
                                      r: Resource)
    requires owned <= gates.Keys && r in gates && Wellformed(table, owned, states)
    ensures var (g, ok) := AfterTable(gates, owned, states, table);
      ok && r in g && Gated(gates[r], g[r], table, r)
    decreases table
  {
    if table != [] {
      RowWidens(gates, owned, table[0].0, table[0].1, r);
      RowKeepsKeys(gates, owned, table[0].0, table[0].1);
      var g := AfterRow(gates, owned, table[0].0, table[0].1).0;
      forall k | 0 <= k < |table[1..]|
        ensures table[1..][k].0 in states && forall x :: x in table[1..][k].1 ==> Acceptable(x, owned)
      {
        assert table[1..][k] == table[k + 1];
      }
      TableGates(g, owned, states, table[1..], r);
      forall x ensures Listed(table, r, x) <==> (x == table[0].0 && r in table[0].1) || Listed(table[1..], r, x) {
        Tail(table, r, x);
      }
      Tail(table, r, table[0].0);
    }
  }

  lemma Tail(table: Table, r: Resource, x: StateName)
    requires table != []
    ensures Listed(table, r, x) <==> (x == table[0].0 && r in table[0].1) || Listed(table[1..], r, x)
    ensures ListedSomewhere(table, r) <==> r in table[0].1 || ListedSomewhere(table[1..], r)
  {
    assert forall k :: 0 <= k < |table| - 1 ==> table[1..][k] == table[k + 1];
    if Listed(table, r, x) {
      var k :| 0 <= k < |table| && table[k].0 == x && r in table[k].1;
      assert k == 0 || table[1..][k - 1] == table[k];
    }
    if ListedSomewhere(table, r) {
      var k :| 0 <= k < |table| && r in table[k].1;
      assert k == 0 || table[1..][k - 1] == table[k];
    }
  }

  /** Validation succeeds exactly for tables that list nothing but declared states and the owner's own actions and
      properties. */
  lemma SucceedsExactly(gates: GateMap, owned: set<Resource>, states: seq<StateName>, table: Table)
    requires owned <= gates.Keys
    ensures AfterTable(gates, owned, states, table).1 <==>
      && (forall k :: 0 <= k < |table| ==> table[k].0 in states)
      && (forall k, r :: 0 <= k < |table| && r in table[k].1 ==> (r.Action? || r.Property?) && r in owned)
  {
    TableSucceeds(gates, owned, states, table);
    if Wellformed(table, owned, states) {
      forall k, r | 0 <= k < |table| && r in table[k].1 ensures (r.Action? || r.Property?) && r in owned {
        assert Acceptable(r, owned);
      }
    } else {
      var k :| 0 <= k < |table| && !(table[k].0 in states && forall r :: r in table[k].1 ==> Acceptable(r, owned));
      if table[k].0 in states {
        var r :| r in table[k].1 && !Acceptable(r, owned);
        assert r in table[k].1 && !((r.Action? || r.Property?) && r in owned);
      }
    }
  }

  lemma {:induction false} TableSucceeds(gates: GateMap, owned: set<Resource>, states: seq<StateName>, table: Table)
    requires owned <= gates.Keys
    ensures AfterTable(gates, owned, states, table).1 <==> Wellformed(table, owned, states)
    decreases table
  {
    if table != [] && table[0].0 in states {
      RowSucceedsExactly(gates, owned, table[0].0, table[0].1);
      RowKeepsKeys(gates, owned, table[0].0, table[0].1);
      TableSucceeds(AfterRow(gates, owned, table[0].0, table[0].1).0, owned, states, table[1..]);
      assert forall k :: 0 <= k < |table| - 1 ==> table[1..][k] == table[k + 1];
    }
  }

  lemma {:induction false} RowSucceedsExactly(gates: GateMap, owned: set<Resource>, s: StateName,
                                              resources: seq<Resource>)
    requires owned <= gates.Keys
    ensures AfterRow(gates, owned, s, resources).1 <==> forall r :: r in resources ==> Acceptable(r, owned)
    decreases resources
  {
    if resources != [] {
      assert resources[0] in resources;
      if Acceptable(resources[0], owned) {
        RowSucceedsExactly(Opened(gates, resources[0], s), owned, s, resources[1..]);
        assert resources == [resources[0]] + resources[1..];
      }
    }
  }

  /** Gate equals table: after validation a resource may be used in state `s` exactly when it is listed under
      `s`, or `s` was among its own declared states, or it has no declared states and is listed nowhere. */
  lemma GateEqualsTable(gates: GateMap, owned: set<Resource>, states: seq<StateName>, table: Table,
                        r: Resource, s: StateName)
    requires owned <= gates.Keys && r in gates && AfterTable(gates, owned, states, table).1
    ensures r in AfterTable(gates, owned, states, table).0
    ensures Permits(AfterTable(gates, owned, states, table).0, r, s) <==>
      || Listed(table, r, s)
      || (gates[r].Some? && s in gates[r].value)
      || (gates[r].None? && !ListedSomewhere(table, r))
  {
    TableSucceeds(gates, owned, states, table);
    TableGates(gates, owned, states, table, r);
  }

  lemma {:induction false} RowAlreadyOpen(gates: GateMap, owned: set<Resource>, s: StateName, resources: seq<Resource>)
    requires owned <= gates.Keys
    requires forall r :: r in resources ==> Acceptable(r, owned) && gates[r].Some? && s in gates[r].value
    ensures AfterRow(gates, owned, s, resources) == (gates, true)
    decreases resources
  {
    if resources != [] {
      assert resources[0] in resources;
      RowAlreadyOpen(gates, owned, s, resources[1..]);
    }
  }

  lemma {:induction false} TableAlreadyOpen(gates: GateMap, owned: set<Resource>, states: seq<StateName>, table: Table)
    requires owned <= gates.Keys && Wellformed(table, owned, states)
    requires forall k, r :: 0 <= k < |table| && r in table[k].1 ==>
      r in gates && gates[r].Some? && table[k].0 in gates[r].value
    ensures AfterTable(gates, owned, states, table) == (gates, true)
    decreases table
  {
    if table != [] {
      RowAlreadyOpen(gates, owned, table[0].0, table[0].1);
      assert forall k :: 0 <= k < |table| - 1 ==> table[1..][k] == table[k + 1];
      TableAlreadyOpen(gates, owned, states, table[1..]);
    }
  }

  /** Validating again changes nothing, and no gate lists a state twice unless it was declared twice. */
  lemma ValidatingAgain(gates: GateMap, owned: set<Resource>, states: seq<StateName>, table: Table)
    requires owned <= gates.Keys && AfterTable(gates, owned, states, table).1
    ensures var g := AfterTable(gates, owned, states, table).0;
      && owned <= g.Keys && AfterTable(g, owned, states, table) == (g, true)
      && forall r :: r in gates && (gates[r].Some? ==> NoDuplicates(gates[r].value)) ==>
           r in g && (g[r].Some? ==> NoDuplicates(g[r].value))
  {
    TableSucceeds(gates, owned, states, table);
    var g := AfterTable(gates, owned, states, table).0;
    forall r | r in gates ensures r in g && Gated(gates[r], g[r], table, r) {
      TableGates(gates, owned, states, table, r);
    }
    forall k, r | 0 <= k < |table| && r in table[k].1
      ensures r in g && g[r].Some? && table[k].0 in g[r].value
    {
      assert Acceptable(r, owned);
      assert Listed(table, r, table[k].0);
    }
    TableAlreadyOpen(g, owned, states, table);
  }

  /** With no declared states, `contains_object` holds exactly for the resources that validation restricts. */
  lemma ContainsMeansRestricted(gates: GateMap, owned: set<Resource>, states: seq<StateName>, table: Table, r: Resource)
    requires owned <= gates.Keys && r in gates && gates[r].None? && AfterTable(gates, owned, states, table).1
    ensures r in AfterTable(gates, owned, states, table).0
    ensures ListedSomewhere(table, r) <==> AfterTable(gates, owned, states, table).0[r].Some?
  {
    TableSucceeds(gates, owned, states, table);
    TableGates(gates, owned, states, table, r);
  }

  // ----- The callbacks ---------------------------------------------------------------------------

  /** What is given as a callback: a function, or something else. */
  datatype Callback = Function(id: int) | NotAFunction(id: int)

  /** The callbacks of one state, as they were given: only a tuple is frozen. */
  datatype Callbacks = Single(callback: Callback) | AsList(callbacks: seq<Callback>) | AsTuple(callbacks: seq<Callback>)
  {
    function All(): seq<Callback> {
      if Single? then [callback] else callbacks
    }

    predicate Callable() {
      forall i :: 0 <= i < |All()| ==> All()[i].Function?
    }
  }

  type CallbackTable = seq<(StateName, Callbacks)>

  /** Each entry in turn is frozen, then checked. */
  function Frozen(table: CallbackTable): (CallbackTable, bool) {
    if table == [] then ([], true)
    else
      var first := (table[0].0, AsTuple(table[0].1.All()));
      if !table[0].1.Callable() then ([first] + table[1..], false)
      else
        var (rest, ok) := Frozen(table[1..]);
        ([first] + rest, ok)
  }

  lemma FrozenNext(done: CallbackTable, table: CallbackTable)
    requires table != []
    ensures var next := done + [(table[0].0, AsTuple(table[0].1.All()))];
      done + Frozen(table).0 == next + if table[0].1.Callable() then Frozen(table[1..]).0 else table[1..]
  {
    var first := (table[0].0, AsTuple(table[0].1.All()));
    var rest := if table[0].1.Callable() then Frozen(table[1..]).0 else table[1..];
    assert Frozen(table).0 == [first] + rest;
    assert done + ([first] + rest) == done + [first] + rest;
  }

  /** What freezing makes of one entry. */
  lemma FrozenEntries(table: CallbackTable, i: nat)
    requires Frozen(table).1 && i < |table|
    ensures |Frozen(table).0| == |table| && Frozen(table).0[i].0 == table[i].0
    ensures match table[i].1
      case Single(c) => c.Function? && Frozen(table).0[i].1 == AsTuple([c])
      case AsList(cs) => (forall j :: 0 <= j < |cs| ==> cs[j].Function?) && Frozen(table).0[i].1 == AsTuple(cs)
      case AsTuple(cs) => (forall j :: 0 <= j < |cs| ==> cs[j].Function?) && Frozen(table).0[i].1 == table[i].1
  {
    FreezingKeepsCallbacks(table);
    assert table[i].1.Callable() && Frozen(table).0[i].1.AsTuple?;
    assert Frozen(table).0[i].1.All() == table[i].1.All();
    if table[i].1.Single? {
      assert table[i].1.All()[0] == table[i].1.callback;
    }
  }

  /** A table of functions is frozen without an error. */
  lemma FunctionsAreFrozen(table: CallbackTable)
    requires forall i :: 0 <= i < |table| ==>
      match table[i].1
      case Single(c) => c.Function?
      case AsList(cs) => forall j :: 0 <= j < |cs| ==> cs[j].Function?
      case AsTuple(cs) => forall j :: 0 <= j < |cs| ==> cs[j].Function?
    ensures Frozen(table).1
  {
    FreezingKeepsCallbacks(table);
    forall i | 0 <= i < |table| ensures table[i].1.Callable() {
      assert match table[i].1
        case Single(c) => c.Function?
        case AsList(cs) => forall j :: 0 <= j < |cs| ==> cs[j].Function?
        case AsTuple(cs) => forall j :: 0 <= j < |cs| ==> cs[j].Function?;
    }
  }

  /** Freezing succeeds exactly if all callbacks are functions. Either way every state keeps its callbacks in
      order; after success all are frozen, and freezing again changes nothing. */
  lemma {:induction false} FreezingKeepsCallbacks(table: CallbackTable)
    ensures var (frozen, ok) := Frozen(table);
      && (ok <==> forall i :: 0 <= i < |table| ==> table[i].1.Callable())
      && |frozen| == |table|
      && (forall i :: 0 <= i < |table| ==> frozen[i].0 == table[i].0 && frozen[i].1.All() == table[i].1.All())
      && (ok ==> Frozen(frozen) == (frozen, true) && forall i :: 0 <= i < |table| ==> frozen[i].1.AsTuple?)
  {
    if table != [] {
      FreezingKeepsCallbacks(table[1..]);
      var (frozen, _) := Frozen(table);
      assert forall i :: 1 <= i < |table| ==> table[i] == table[1..][i - 1];
      assert frozen[1..] == if table[0].1.Callable() then Frozen(table[1..]).0 else table[1..];
      assert forall i :: 1 <= i < |frozen| ==> frozen[i] == frozen[1..][i - 1];
    }
  }

  // ----- The descriptor ------------------------------------------------------------------------

  datatype Verdict = Unused | Valid | InitialNotDeclared | StatesMissing | Rejected | NotCallable

  class StateMachine {
    const states: Option<seq<StateName>>
    const initial: Option<StateName>
    const machine: Table
    var onEnter: CallbackTable
    var onExit: CallbackTable
    var gates: GateMap
    var valid: bool

    constructor (states: Option<seq<StateName>>, initial: Option<StateName>, machine: Table, onEnter: CallbackTable,
                 onExit: CallbackTable, gates: GateMap)
      ensures this.states == states && this.initial == initial && this.machine == machine
      ensures this.gates == gates && !valid
      ensures this.onEnter == onEnter && this.onExit == onExit
    {
      this.states, this.initial, this.machine, this.gates, valid := states, initial, machine, gates, false;
      this.onEnter, this.onExit := onEnter, onExit;
    }

    /** A machine that is rejected half way leaves the gates opened so far, and the callbacks frozen so far. */
    method Validate(owned: set<Resource>) returns (v: Verdict)
      requires owned <= gates.Keys
      modifies this
      ensures v == Unused <==> states.None? && initial.None?
      ensures v == StatesMissing <==> states.None? && initial.Some?
      ensures v == InitialNotDeclared <==> states.Some? && (initial.None? || initial.value !in states.value)
      ensures v == Valid || v == Rejected || v == NotCallable ==>
        states.Some? && (gates, v != Rejected) == AfterTable(old(gates), owned, states.value, machine)
      ensures v == Valid || v == NotCallable ==>
        onEnter == Frozen(old(onEnter)).0 && (v == Valid <==> Frozen(old(onEnter)).1 && Frozen(old(onExit)).1)
      ensures onExit ==
        if (v == Valid || v == NotCallable) && Frozen(old(onEnter)).1 then Frozen(old(onExit)).0 else old(onExit)
      ensures v != Valid && v != Rejected && v != NotCallable ==> gates == old(gates)
      ensures v != Valid && v != NotCallable ==> onEnter == old(onEnter)
      ensures valid == if v == Valid then true else if v == Unused then false else old(valid)
    {
      if states.None? && initial.None? {
        valid := false;
        return Unused;
      }
      if states.None? {
        return StatesMissing;
      }
      if initial.None? || initial.value !in states.value {
        return InitialNotDeclared;
      }
      var ok := OpenGates(owned, states.value);
      if !ok {
        return Rejected;
      }
      onEnter, ok := Freeze(onEnter);
      if !ok {
        return NotCallable;
      }
      onExit, ok := Freeze(onExit);
      if !ok {
        return NotCallable;
      }
      valid := true;
      v := Valid;
    }

    /** The loop over the machine. */
    method OpenGates(owned: set<Resource>, states: seq<StateName>) returns (ok: bool)
      requires owned <= gates.Keys
      modifies this`gates
      ensures (gates, ok) == AfterTable(old(gates), owned, states, machine)
    {
      ghost var all := AfterTable(gates, owned, states, machine);
      var i := 0;
      while i < |machine|
        invariant 0 <= i <= |machine| && owned <= gates.Keys
        invariant AfterTable(gates, owned, states, machine[i..]) == all
      {
        var (state, objects) := machine[i];
        assert machine[i..][0] == machine[i] && machine[i..][1..] == machine[i + 1..];
        if state !in states {
          return false;
        }
        ghost var row := AfterRow(gates, owned, state, objects);
        RowKeepsKeys(gates, owned, state, objects);
        var j := 0;
        while j < |objects|
          invariant 0 <= j <= |objects| && owned <= gates.Keys
          invariant AfterRow(gates, owned, state, objects[j..]) == row
        {
          assert objects[j..][0] == objects[j] && objects[j..][1..] == objects[j + 1..];
          var resource := objects[j];
          if resource.Foreign? || resource !in owned {
            return false;
          }
          if gates[resource].None? {
            gates := gates[resource := Some([state])];
          } else if state !in gates[resource].value {
            gates := gates[resource := Some(gates[resource].value + [state])];
          }
          j := j + 1;
        }
        i := i + 1;
      }
      ok := true;
    }

    /** The loop over the callbacks for entering or leaving states. */
    static method Freeze(table: CallbackTable) returns (frozen: CallbackTable, ok: bool)
      ensures (frozen, ok) == Frozen(table)
    {
      frozen := [];
      assert table[0..] == table;
      for i := 0 to |table|
        invariant Frozen(table).0 == frozen + Frozen(table[i..]).0 && Frozen(table).1 == Frozen(table[i..]).1
      {
        assert table[i..][1..] == table[i + 1..];
        var (state, callbacks) := table[i];
        FrozenNext(frozen, table[i..]);
        frozen := frozen + [(state, AsTuple(callbacks.All()))];
        if !callbacks.Callable() {
          return frozen + table[i + 1..], false;
        }
      }
      assert frozen + Frozen(table[|table|..]).0 == frozen;
      ok := true;
    }

    method ContainsObject(r: Resource) returns (found: bool)
      ensures found <==> ListedSomewhere(machine, r)
    {
      for i := 0 to |machine|
        invariant forall k :: 0 <= k < i ==> r !in machine[k].1
      {
        if r in machine[i].1 {
          return true;
        }
      }
      return false;
    }
  }
}
