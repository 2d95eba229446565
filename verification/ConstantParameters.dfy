/** Constant parameters, and the blocks in which `edit_constant` lets them be changed. */
module ConstantParameters {
  import opened Wrappers

  type Name = string

  /** A parameter without a setter of its own; `adapt` is `validate_and_adapt`. */
  datatype Parameter = Parameter(default: Value, readonly: bool, adapt: Value -> Option<Value>)

  type Parameters = map<Name, Parameter>

  /** `constant` are the flags of the descriptors, `values` the instance dictionary, `accepted` the writes that
      went through so far, each with the flag its parameter had at that moment. */
  datatype Object = Object(constant: map<Name, bool>, values: map<Name, Value>, accepted: seq<(Name, bool)>)

  /** What `edit_constant` is given: the object, or one parameter. */
  datatype Scope = Everything | Only(name: Name)

  datatype Statement =
    | Write(name: Name, value: Value)
    | Raise
    | Try(body: seq<Statement>)                  // goes on after an exception
    | Edit(scope: Scope, block: seq<Statement>)  // with edit_constant(scope)

  /** Whether `Parameter.__set__` lets the write through. */
  predicate Accepts(params: Parameters, o: Object, n: Name, v: Value) {
    && n in params && n in o.constant && !params[n].readonly && params[n].adapt(v).Some?
    && (o.constant[n] ==> n !in o.values && params[n].default == Null)
  }

  function InScope(params: Parameters, scope: Scope): set<Name> {
    match scope
    case Everything => params.Keys
    case Only(n) => {n} * params.Keys
  }

  function Cleared(flags: map<Name, bool>, names: set<Name>): map<Name, bool> {
    map n | n in flags :: if n in names then false else flags[n]
  }

  /** The `finally`: every flag in scope gets the value it had before. */
  function Restored(flags: map<Name, bool>, saved: map<Name, bool>, names: set<Name>): map<Name, bool> {
    map n | n in flags :: if n in names && n in saved then saved[n] else flags[n]
  }

  lemma RestoredOneMore(flags: map<Name, bool>, saved: map<Name, bool>, names: set<Name>, todo: set<Name>, n: Name)
    requires n in todo && todo <= names
    ensures var before := Restored(flags, saved, names - todo);
      Restored(flags, saved, names - (todo - {n})) ==
        if n in before && n in saved then before[n := saved[n]] else before
  {
  }

  /** A statement, and whether it ended normally. */
  function After(params: Parameters, o: Object, s: Statement): (Object, bool)
    decreases s, 0
  {
    match s
    case Write(n, v) =>
      if Accepts(params, o, n, v) then
        (o.(values := o.values[n := params[n].adapt(v).value], accepted := o.accepted + [(n, o.constant[n])]), true)
      else (o, false)
    case Raise => (o, false)
    case Try(body) => (AfterAll(params, o, body).0, true)
    case Edit(scope, block) =>
      var names := InScope(params, scope);
      var (o1, ok) := AfterAll(params, o.(constant := Cleared(o.constant, names)), block);
      (o1.(constant := Restored(o1.constant, o.constant, names)), ok)
  }

  /** Statements one after the other, up to the first that raises. */
  function AfterAll(params: Parameters, o: Object, body: seq<Statement>): (Object, bool)
    decreases body, 1
  {
    if body == [] then (o, true)
    else
      var (o1, ok) := After(params, o, body[0]);
      if ok then AfterAll(params, o1, body[1..]) else (o1, false)
  }

  /** Properly nested blocks restore every flag, however they end. */
  lemma {:induction false} FlagsAreRestored(params: Parameters, o: Object, s: Statement)
    ensures After(params, o, s).0.constant == o.constant
    decreases s, 0
  {
    match s
    case Write(_, _) =>
    case Raise =>
    case Try(body) => AllFlagsAreRestored(params, o, body);
    case Edit(scope, block) =>
      var names := InScope(params, scope);
      AllFlagsAreRestored(params, o.(constant := Cleared(o.constant, names)), block);
  }

  lemma {:induction false} AllFlagsAreRestored(params: Parameters, o: Object, body: seq<Statement>)
    ensures AfterAll(params, o, body).0.constant == o.constant
    decreases body, 1
  {
    if body != [] {
      FlagsAreRestored(params, o, body[0]);
      AllFlagsAreRestored(params, After(params, o, body[0]).0, body[1..]);
    }
  }

  /** Writes of `n` that went through while it was constant. */
  function WhileConstant(accepted: seq<(Name, bool)>, n: Name): nat {
    if accepted == [] then 0
    else WhileConstant(accepted[..|accepted| - 1], n) + if accepted[|accepted| - 1] == (n, true) then 1 else 0
  }

  /** A constant parameter with a default takes no write, one without takes its first value only. */
  ghost predicate Once(params: Parameters, o: Object, n: Name) {
    && WhileConstant(o.accepted, n) <= 1
    && (n in params && params[n].default != Null ==> WhileConstant(o.accepted, n) == 0)
    && (n !in o.values ==> WhileConstant(o.accepted, n) == 0)
  }

  lemma {:induction false} KeepsOnce(params: Parameters, o: Object, s: Statement, n: Name)
    requires Once(params, o, n)
    ensures Once(params, After(params, o, s).0, n)
    ensures n in o.values ==> n in After(params, o, s).0.values
    decreases s, 0
  {
    match s
    case Write(m, v) =>
      var o1 := After(params, o, s).0;
      if Accepts(params, o, m, v) {
        assert o1.accepted[..|o1.accepted| - 1] == o.accepted;
      }
    case Raise =>
    case Try(body) => AllKeepOnce(params, o, body, n);
    case Edit(scope, block) =>
      AllKeepOnce(params, o.(constant := Cleared(o.constant, InScope(params, scope))), block, n);
  }

  lemma {:induction false} AllKeepOnce(params: Parameters, o: Object, body: seq<Statement>, n: Name)
    requires Once(params, o, n)
    ensures Once(params, AfterAll(params, o, body).0, n)
    ensures n in o.values ==> n in AfterAll(params, o, body).0.values
    decreases body, 1
  {
    if body != [] {
      KeepsOnce(params, o, body[0], n);
      AllKeepOnce(params, After(params, o, body[0]).0, body[1..], n);
    }
  }

  /** Over any program, with blocks nested in any way and exceptions anywhere: a parameter that is constant takes
      at most one write outside the blocks that open it, and none at all unless its default is None. */
  lemma ConstantsAreWrittenOnce(params: Parameters, flags: map<Name, bool>, values: map<Name, Value>,
                                program: seq<Statement>, n: Name)
    ensures var o := AfterAll(params, Object(flags, values, []), program).0;
      && o.constant == flags
      && WhileConstant(o.accepted, n) <= 1
      && (n in values || (n in params && params[n].default != Null) ==> WhileConstant(o.accepted, n) == 0)
  {
    AllFlagsAreRestored(params, Object(flags, values, []), program);
    AllKeepOnce(params, Object(flags, values, []), program, n);
    if n in values {
      AllKeepShut(params, Object(flags, values, []), program, n);
    }
  }

  lemma {:induction false} KeepsShut(params: Parameters, o: Object, s: Statement, n: Name)
    requires n in o.values && WhileConstant(o.accepted, n) == 0
    ensures n in After(params, o, s).0.values && WhileConstant(After(params, o, s).0.accepted, n) == 0
    decreases s, 0
  {
    match s
    case Write(m, v) =>
      var o1 := After(params, o, s).0;
      if Accepts(params, o, m, v) {
        assert o1.accepted[..|o1.accepted| - 1] == o.accepted;
      }
    case Raise =>
    case Try(body) => AllKeepShut(params, o, body, n);
    case Edit(scope, block) =>
      AllKeepShut(params, o.(constant := Cleared(o.constant, InScope(params, scope))), block, n);
  }

  lemma {:induction false} AllKeepShut(params: Parameters, o: Object, body: seq<Statement>, n: Name)
    requires n in o.values && WhileConstant(o.accepted, n) == 0
    ensures n in AfterAll(params, o, body).0.values && WhileConstant(AfterAll(params, o, body).0.accepted, n) == 0
    decreases body, 1
  {
    if body != [] {
      KeepsShut(params, o, body[0], n);
      AllKeepShut(params, After(params, o, body[0]).0, body[1..], n);
    }
  }

  // ----- What the blocks open, and what they do not ---------------------------------------------------

  ghost predicate Valid(params: Parameters, o: Object, n: Name, v: Value) {
    n in params && n in o.constant && !params[n].readonly && params[n].adapt(v).Some?
  }

  /** Inside a block, after whatever went well there before, a parameter in scope takes every valid value, constant
      or not; the value is still there after the block, and the parameter as constant as it was. */
  lemma BlockOpens(params: Parameters, o: Object, scope: Scope, before: seq<Statement>, n: Name, v: Value)
    requires Valid(params, o, n, v) && (scope == Everything || scope == Only(n))
    requires After(params, o, Edit(scope, before)).1
    ensures var (o', ok) := After(params, o, Edit(scope, before + [Write(n, v)]));
      ok && n in o'.values && Some(o'.values[n]) == params[n].adapt(v) && o'.constant == o.constant
  {
    var o1 := o.(constant := Cleared(o.constant, InScope(params, scope)));
    AllFlagsAreRestored(params, o1, before);
    OneMore(params, o1, before, Write(n, v));
    FlagsAreRestored(params, o, Edit(scope, before + [Write(n, v)]));
  }

  lemma {:induction false} OneMore(params: Parameters, o: Object, body: seq<Statement>, s: Statement)
    requires AfterAll(params, o, body).1
    ensures AfterAll(params, o, body + [s]) == After(params, AfterAll(params, o, body).0, s)
    decreases body
  {
    if body == [] {
      assert body + [s] == [s];
    } else {
      assert (body + [s])[1..] == body[1..] + [s];
      OneMore(params, After(params, o, body[0]).0, body[1..], s);
    }
  }

  /** No block in the statement opens the parameter. */
  ghost predicate NeverOpens(s: Statement, n: Name) {
    match s
    case Write(_, _) => true
    case Raise => true
    case Try(body) => forall k :: 0 <= k < |body| ==> NeverOpens(body[k], n)
    case Edit(scope, block) =>
      scope.Only? && scope.name != n && forall k :: 0 <= k < |block| ==> NeverOpens(block[k], n)
  }

  /** What a name holds, if anything. */
  function ValueOf(o: Object, n: Name): Option<Value> {
    if n in o.values then Some(o.values[n]) else None
  }

  /** Constant, and no longer to be given its first value. */
  ghost predicate Shut(params: Parameters, o: Object, n: Name) {
    n in o.constant && o.constant[n] && (n in o.values || (n in params && params[n].default != Null))
  }

  /** Blocks for other parameters do not open it: outside its own, nothing changes what a constant holds. */
  lemma {:induction false} ShutStaysShut(params: Parameters, o: Object, s: Statement, n: Name)
    requires Shut(params, o, n) && NeverOpens(s, n)
    ensures ValueOf(After(params, o, s).0, n) == ValueOf(o, n)
    decreases s, 0
  {
    match s
    case Write(_, _) =>
    case Raise =>
    case Try(body) => AllStaysShut(params, o, body, n);
    case Edit(scope, block) =>
      AllStaysShut(params, o.(constant := Cleared(o.constant, InScope(params, scope))), block, n);
  }

  lemma {:induction false} AllStaysShut(params: Parameters, o: Object, body: seq<Statement>, n: Name)
    requires Shut(params, o, n) && forall k :: 0 <= k < |body| ==> NeverOpens(body[k], n)
    ensures ValueOf(AfterAll(params, o, body).0, n) == ValueOf(o, n)
    decreases body, 1
  {
    if body != [] {
      ShutStaysShut(params, o, body[0], n);
      FlagsAreRestored(params, o, body[0]);
      AllStaysShut(params, After(params, o, body[0]).0, body[1..], n);
    }
  }

  // ----- The object itself -----------------------------------------------------------------------

  class Parameterized {
    const params: Parameters
    var constant: map<Name, bool>
    var values: map<Name, Value>
    ghost var accepted: seq<(Name, bool)>

    ghost function View(): Object
      reads this
    {
      Object(constant, values, accepted)
    }

    constructor (params: Parameters, constant: map<Name, bool>, values: map<Name, Value>)
      ensures this.params == params && View() == Object(constant, values, [])
    {
      this.params, this.constant, this.values, accepted := params, constant, values, [];
    }

    /** `Parameter.__set__`. */
    method SetAttr(n: Name, v: Value) returns (ok: bool)
      modifies this
      ensures (View(), ok) == After(params, old(View()), Write(n, v))
      ensures ok <==>
        && n in params && n in constant && !params[n].readonly && params[n].adapt(v).Some?
        && (constant[n] ==> n !in old(values) && params[n].default == Null)
      ensures constant == old(constant)
      ensures values == if ok then old(values)[n := params[n].adapt(v).value] else old(values)
    {
      if n !in params || n !in constant || params[n].readonly {
        return false;
      }
      var adapted := params[n].adapt(v);
      if adapted.None? {
        return false;
      }
      if constant[n] {
        if n in values || params[n].default != Null {
          return false;
        }
      }
      values, accepted := values[n := adapted.value], accepted + [(n, constant[n])];
      ok := true;
    }

    method ClearFlags(names: set<Name>)
      modifies this
      ensures View() == old(View()).(constant := Cleared(old(constant), names))
    {
      var todo := names;
      assert Cleared(constant, {}) == constant;
      while todo != {}
        invariant todo <= names && constant == Cleared(old(constant), names - todo)
        invariant values == old(values) && accepted == old(accepted)
      {
        var n :| n in todo;
        todo := todo - {n};
        if n in constant {
          constant := constant[n := false];
        }
      }
      assert names - todo == names;
    }

    method RestoreFlags(saved: map<Name, bool>, names: set<Name>)
      modifies this
      ensures View() == old(View()).(constant := Restored(old(constant), saved, names))
    {
      var todo := names;
      assert Restored(constant, saved, {}) == constant;
      while todo != {}
        invariant todo <= names && constant == Restored(old(constant), saved, names - todo)
        invariant values == old(values) && accepted == old(accepted)
      {
        var n :| n in todo;
        RestoredOneMore(old(constant), saved, names, todo, n);
        todo := todo - {n};
        if n in constant && n in saved {
          constant := constant[n := saved[n]];
        }
      }
      assert names - todo == names;
    }

    /** One statement; `edit_constant` puts the flags back whatever happens in its block. */
    method Execute(s: Statement) returns (ok: bool)
      modifies this
      ensures (View(), ok) == After(params, old(View()), s)
      decreases s, 0
    {
      match s
      case Write(n, v) => ok := SetAttr(n, v);
      case Raise => ok := false;
      case Try(body) =>
        var _ := ExecuteAll(body);
        ok := true;
      case Edit(scope, block) =>
        var names := InScope(params, scope);
        var saved := constant;
        ClearFlags(names);
        ok := ExecuteAll(block);
        RestoreFlags(saved, names);
    }

    method ExecuteAll(body: seq<Statement>) returns (ok: bool)
      modifies this
      ensures (View(), ok) == AfterAll(params, old(View()), body)
      decreases body, 1
    {
      if body == [] {
        return true;
      }
      ok := Execute(body[0]);
      if ok {
        ok := ExecuteAll(body[1..]);
      }
    }
  }
}
