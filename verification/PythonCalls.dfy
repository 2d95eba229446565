/** How Python binds the arguments of a call to the parameters of a function. */
module PythonCalls {
  import opened Sequences
  import opened Wrappers

  datatype Kind = PositionalOnly | PositionalOrKeyword | VarPositional | KeywordOnly | VarKeyword
  {
    function Rank(): nat {
      match this
      case PositionalOnly => 0
      case PositionalOrKeyword => 1
      case VarPositional => 2
      case KeywordOnly => 3
      case VarKeyword => 4
    }

    predicate IsPositional() { PositionalOnly? || PositionalOrKeyword? }

    predicate IsVariadic() { VarPositional? || VarKeyword? }

    /** Can be named in a call. */
    predicate IsNamed() { PositionalOrKeyword? || KeywordOnly? }
  }

  datatype Parameter = Parameter(name: string, kind: Kind, hasDefault: bool)

  /** What a function definition may look like. */
  ghost predicate Definable(params: seq<Parameter>) {
    && (forall i, j :: 0 <= i < j < |params| ==> params[i].name != params[j].name)
    && (forall i, j :: 0 <= i < j < |params| ==>
         params[i].kind.Rank() <= params[j].kind.Rank()
         && (params[i].kind.IsVariadic() ==> params[i].kind != params[j].kind))
  }

  /** How many parameters can take positional arguments; they come first. */
  function Positionals(params: seq<Parameter>): (n: nat)
    ensures n <= |params|
    ensures forall i :: 0 <= i < n ==> params[i].kind.IsPositional()
    ensures n < |params| ==> !params[n].kind.IsPositional()
  {
    if params == [] || !params[0].kind.IsPositional() then 0 else 1 + Positionals(params[1..])
  }

  predicate Takes(params: seq<Parameter>, kind: Kind) {
    exists i :: 0 <= i < |params| && params[i].kind == kind
  }

  function Named(params: seq<Parameter>): set<string> {
    set i | 0 <= i < |params| && params[i].kind.IsNamed() :: params[i].name
  }

  /** `slots` are the parameters given a value by the call, `rest` and `extra` what *args and **kwargs collect. */
  datatype Bound = Bound(slots: map<string, Value>, rest: seq<Value>, extra: map<string, Value>)

  function Min(a: nat, b: nat): nat { if a < b then a else b }

  function Names(params: seq<Parameter>): (r: seq<string>)
    ensures |r| == |params|
    ensures forall i :: 0 <= i < |params| ==> r[i] == params[i].name
  {
    seq(|params|, i requires 0 <= i < |params| => params[i].name)
  }

  /** Names paired with values, as many as there are of both. */
  function Zip(names: seq<string>, values: seq<Value>): map<string, Value> {
    if names == [] || values == [] then map[]
    else Zip(names[1..], values[1..])[names[0] := values[0]]
  }

  function Only(m: map<string, Value>, keys: set<string>): map<string, Value> {
    map k | k in m && k in keys :: m[k]
  }

  predicate Mandatory(p: Parameter) {
    !p.kind.IsVariadic() && !p.hasDefault
  }

  predicate AllFilled(params: seq<Parameter>, slots: map<string, Value>) {
    forall i :: 0 <= i < |params| && Mandatory(params[i]) ==> params[i].name in slots
  }

  /** Section 6.3.4 of the Python Language Reference: positional arguments fill parameters from the left, the
      rest goes to *args; keywords fill the parameters they name, the rest goes to **kwargs; every parameter
      without a default must be filled, and none twice. No result stands for a TypeError. */
  function Bind(params: seq<Parameter>, args: seq<Value>, kwargs: map<string, Value>): Option<Bound> {
    var n := Min(|args|, Positionals(params));
    var byPosition := Zip(Names(params)[..n], args[..n]);
    var named := Named(params);
    if |args| > n && !Takes(params, VarPositional) then None
    else if exists k :: k in kwargs && k in named && k in byPosition then None
    else if (exists k :: k in kwargs && k !in named) && !Takes(params, VarKeyword) then None
    else
      var slots := byPosition + Only(kwargs, named);
      if !AllFilled(params, slots) then None
      else Some(Bound(slots, args[n..], kwargs - named))
  }

  lemma NamedAt(params: seq<Parameter>, i: nat)
    requires i < |params| && params[i].kind.IsNamed()
    ensures params[i].name in Named(params)
  {
  }

  lemma {:induction false} ZipAt(names: seq<string>, values: seq<Value>)
    requires |names| == |values| && NoDuplicates(names)
    ensures forall i :: 0 <= i < |names| ==> names[i] in Zip(names, values) && Zip(names, values)[names[i]] == values[i]
    ensures forall k :: k in Zip(names, values) <==> k in names
  {
    if names != [] {
      ZipAt(names[1..], values[1..]);
      assert names == [names[0]] + names[1..];
      forall i | 0 <= i < |names|
        ensures names[i] in Zip(names, values) && Zip(names, values)[names[i]] == values[i]
      {
        assert i > 0 ==> names[1..][i - 1] == names[i];
      }
    }
  }

  lemma {:induction false} PositionalsReach(params: seq<Parameter>, m: nat)
    requires m <= |params| && forall i :: 0 <= i < m ==> params[i].kind.IsPositional()
    ensures m <= Positionals(params)
  {
    if m > 0 {
      PositionalsReach(params[1..], m - 1);
    }
  }

  /** The call fits the parameters: no argument too many, none twice, and every parameter that must be filled is. */
  ghost predicate Fits(params: seq<Parameter>, args: seq<Value>, kwargs: map<string, Value>) {
    && |args| <= Positionals(params)
    && var given := Zip(Names(params)[..|args|], args);
       && (forall k :: k in kwargs ==> k in Named(params) && k !in given)
       && (forall i :: 0 <= i < |params| && Mandatory(params[i]) ==>
            params[i].name in given || params[i].name in kwargs)
  }

  /** Exactly the calls that fit bind with nothing left for *args and **kwargs. */
  lemma BindsExactly(params: seq<Parameter>, args: seq<Value>, kwargs: map<string, Value>)
    ensures var b := Bind(params, args, kwargs);
      && (b.Some? && b.value.rest == [] && b.value.extra == map[] <==> Fits(params, args, kwargs))
      && (Fits(params, args, kwargs) ==> b.value.slots == Zip(Names(params)[..|args|], args) + kwargs)
  {
    if Fits(params, args, kwargs) {
      FittingCallBinds(params, args, kwargs);
    }
    var b := Bind(params, args, kwargs);
    if b.Some? && b.value.rest == [] && b.value.extra == map[] {
      BoundMeansFilled(params, args, kwargs);
      forall k | k in kwargs ensures k in Named(params) && k !in Zip(Names(params)[..|args|], args) {
        assert k !in Named(params) ==> k in kwargs - Named(params);
        assert args[..|args|] == args;
      }
    }
  }

  lemma AllNamed(kwargs: map<string, Value>, named: set<string>)
    requires forall k :: k in kwargs ==> k in named
    ensures Only(kwargs, named) == kwargs && kwargs - named == map[]
  {
  }

  lemma FittingCallBinds(params: seq<Parameter>, args: seq<Value>, kwargs: map<string, Value>)
    requires Fits(params, args, kwargs)
    ensures Bind(params, args, kwargs) == Some(Bound(Zip(Names(params)[..|args|], args) + kwargs, [], map[]))
  {
    var given := Zip(Names(params)[..|args|], args);
    assert args[..|args|] == args && args[|args|..] == [];
    AllNamed(kwargs, Named(params));
    assert AllFilled(params, given + kwargs);
  }

  lemma DistinctParts(a: seq<string>, b: seq<string>)
    requires NoDuplicates(a + b)
    ensures NoDuplicates(b) && forall i :: 0 <= i < |a| ==> a[i] !in b
  {
    forall i, j | 0 <= i < j < |b| ensures b[i] != b[j] {
      assert (a + b)[|a| + i] != (a + b)[|a| + j];
    }
    forall i, j | 0 <= i < |a| && 0 <= j < |b| ensures a[i] != b[j] {
      assert (a + b)[i] != (a + b)[|a| + j];
    }
  }

  lemma {:induction false} ZipConcat(a: seq<string>, b: seq<string>, x: seq<Value>, y: seq<Value>)
    requires |a| == |x| && |b| == |y| && NoDuplicates(a + b)
    ensures Zip(a + b, x + y) == Zip(a, x) + Zip(b, y)
  {
    if a == [] {
      assert a + b == b && x + y == y;
    } else {
      assert (a + b)[1..] == a[1..] + b && (x + y)[1..] == x[1..] + y;
      ZipConcat(a[1..], b, x[1..], y);
      assert a[0] !in Zip(b, y) by {
        DistinctParts(a, b);
        ZipAt(b, y);
      }
    }
  }

  /** From position `at` on, the names are those in `fields`. */
  ghost predicate Follow(names: seq<string>, at: nat, fields: seq<string>) {
    at + |fields| <= |names| && names[at..at + |fields|] == fields
  }

  lemma UnionIsAssociative(a: map<string, Value>, b: map<string, Value>, c: map<string, Value>)
    ensures a + b + c == a + (b + c)
  {
  }

  /** The first names take `first`, the fields that follow them take `args` one by one. */
  lemma ZipLeading(names: seq<string>, first: seq<Value>, fields: seq<string>, args: seq<Value>)
    requires NoDuplicates(names) && |args| <= |fields| && Follow(names, |first|, fields)
    ensures NoDuplicates(fields)
    ensures forall i :: 0 <= i < |first| ==> names[i] !in fields
    ensures Zip(names[..|first| + |args|], first + args) == Zip(names[..|first|], first) + Zip(fields[..|args|], args)
  {
    assert forall i :: 0 <= i < |fields| ==> names[|first| + i] == fields[i];
    forall i, j | 0 <= i < j < |fields| ensures fields[i] != fields[j] {
      assert names[|first| + i] != names[|first| + j];
    }
    assert names[..|first| + |args|] == names[..|first|] + fields[..|args|];
    ZipConcat(names[..|first|], fields[..|args|], first, args);
  }

  /** A call that gives only `own` by position; keywords that name no parameter go to **kwargs. */
  lemma BindsByKeyword(params: seq<Parameter>, args: seq<Value>, kwargs: map<string, Value>, own: map<string, Value>)
    requires |args| <= Positionals(params) && own == Zip(Names(params)[..|args|], args)
    requires forall k :: k in kwargs ==> if k in Named(params) then k !in own else Takes(params, VarKeyword)
    requires forall i :: 0 <= i < |params| && Mandatory(params[i]) ==>
      params[i].name in own || (params[i].name in kwargs && params[i].name in Named(params))
    ensures Bind(params, args, kwargs) ==
      Some(Bound(own + Only(kwargs, Named(params)), [], kwargs - Named(params)))
  {
    assert args[..|args|] == args && args[|args|..] == [];
  }

  /** A keyword for a parameter that is filled already, or for none, is refused. */
  lemma KeywordRefused(params: seq<Parameter>, args: seq<Value>, kwargs: map<string, Value>, own: map<string, Value>,
                       k: string)
    requires |args| <= Positionals(params) && own == Zip(Names(params)[..|args|], args)
    requires k in kwargs && if k in Named(params) then k in own else !Takes(params, VarKeyword)
    ensures Bind(params, args, kwargs).None?
  {
    assert args[..|args|] == args;
  }

  /** A call that binds and leaves nothing over fits the parameters, and fills each that must be filled. */
  lemma BoundMeansFilled(params: seq<Parameter>, args: seq<Value>, kwargs: map<string, Value>)
    requires Bind(params, args, kwargs).Some? && Bind(params, args, kwargs).value.rest == []
    ensures |args| <= Positionals(params)
    ensures forall i :: 0 <= i < |params| && Mandatory(params[i]) ==>
      || params[i].name in Zip(Names(params)[..|args|], args)
      || (params[i].name in kwargs && params[i].name in Named(params))
  {
    var n := Min(|args|, Positionals(params));
    assert args[n..] == [];
    assert args[..n] == args;
  }

  /** A call by position alone that leaves nothing over. */
  lemma BindsByPosition(params: seq<Parameter>, args: seq<Value>)
    requires Bind(params, args, map[]).Some? && Bind(params, args, map[]).value.rest == []
    ensures |args| <= Positionals(params)
    ensures Bind(params, args, map[]) == Some(Bound(Zip(Names(params)[..|args|], args), [], map[]))
  {
    BoundMeansFilled(params, args, map[]);
    var own := Zip(Names(params)[..|args|], args);
    BindsByKeyword(params, args, map[], own);
    var none: map<string, Value> := map[];
    assert own + Only(none, Named(params)) == own && none - Named(params) == none;
  }

  /** A call leaves no parameter out that must be filled. */
  lemma BoundIsFilled(params: seq<Parameter>, args: seq<Value>, kwargs: map<string, Value>, i: nat)
    requires Bind(params, args, kwargs).Some? && i < |params| && Mandatory(params[i])
    ensures var n := Min(|args|, Positionals(params));
      params[i].name in Zip(Names(params)[..n], args[..n]) || params[i].name in kwargs
  {
  }

  /** A call by position alone. */
  lemma PositionalCall(params: seq<Parameter>, args: seq<Value>)
    ensures var n := Min(|args|, Positionals(params));
      var slots := Zip(Names(params)[..n], args[..n]);
      Bind(params, args, map[]) ==
        if (|args| > n && !Takes(params, VarPositional)) || !AllFilled(params, slots) then None
        else Some(Bound(slots, args[n..], map[]))
  {
    var n := Min(|args|, Positionals(params));
    var slots, none: map<string, Value> := Zip(Names(params)[..n], args[..n]), map[];
    assert slots + Only(none, Named(params)) == slots && none - Named(params) == none;
  }

  /** A call with one keyword, to a function without **kwargs. */
  lemma KeywordCall(params: seq<Parameter>, args: seq<Value>, k: string, v: Value)
    requires |args| <= Positionals(params) && !Takes(params, VarKeyword)
    ensures var own, b := Zip(Names(params)[..|args|], args), Bind(params, args, map[k := v]);
      && (b.Some? <==> k in Named(params) && k !in own && AllFilled(params, own[k := v]))
      && (b.Some? ==> b.value == Bound(own + map[k := v], [], map[]))
  {
    var own, kwargs: map<string, Value> := Zip(Names(params)[..|args|], args), map[k := v];
    assert args[..|args|] == args && args[|args|..] == [] && k in kwargs;
    if k in Named(params) {
      AllNamed(kwargs, Named(params));
      assert own + kwargs == own[k := v];
    }
  }

  lemma {:induction false} ZipOneMore(names: seq<string>, values: seq<Value>, i: nat)
    requires i < |names| && i < |values| && NoDuplicates(names)
    ensures Zip(names[..i + 1], values[..i + 1]) == Zip(names[..i], values[..i])[names[i] := values[i]]
  {
    if i > 0 {
      assert names[..i + 1][1..] == names[1..][..i] && values[..i + 1][1..] == values[1..][..i];
      assert names[..i][1..] == names[1..][..i - 1] && values[..i][1..] == values[1..][..i - 1];
      ZipOneMore(names[1..], values[1..], i - 1);
    }
  }

  /** Names are used up one by one. */
  lemma ZipFresh(names: seq<string>, values: seq<Value>, i: nat)
    requires i < |names| && i <= |values| && NoDuplicates(names)
    ensures names[i] !in Zip(names[..i], values[..i])
  {
    ZipAt(names[..i], values[..i]);
  }
}
