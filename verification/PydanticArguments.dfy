/** The arguments of an action call laid out as the fields of a pydantic model. */
module PydanticArguments {
  import opened Wrappers
  import opened PythonCalls
  import opened Sequences

  datatype FieldKind = Ordinary | VarArgs | VarKwargs

  datatype Field = Field(name: string, kind: FieldKind, isList: bool)

  /** What a field of the model is given. */
  datatype Slot =
    | One(value: Value)
    | Many(values: seq<Value>, asList: bool)
    | Extras(extras: map<string, Value>)

  type Layout = map<string, Slot>

  datatype LayoutError = TooManyPositional | MultipleValues | UnexpectedKeyword

  function FieldNames(fields: seq<Field>): (r: seq<string>)
    ensures |r| == |fields| && forall i :: 0 <= i < |fields| ==> r[i] == fields[i].name
  {
    seq(|fields|, i requires 0 <= i < |fields| => fields[i].name)
  }

  /** Field names are the keys of a dictionary. */
  ghost predicate Wellformed(fields: seq<Field>) {
    forall i, j :: 0 <= i < j < |fields| ==> fields[i].name != fields[j].name
  }

  /** Where the *args field is, or the number of fields. */
  function VarArgsAt(fields: seq<Field>): (n: nat)
    ensures n <= |fields| && (n < |fields| ==> fields[n].kind == VarArgs)
    ensures forall i :: 0 <= i < n ==> fields[i].kind != VarArgs
  {
    if fields == [] || fields[0].kind == VarArgs then 0 else 1 + VarArgsAt(fields[1..])
  }

  function VarKwargsAt(fields: seq<Field>): (n: nat)
    ensures n <= |fields| && (n < |fields| ==> fields[n].kind == VarKwargs)
    ensures forall i :: 0 <= i < n ==> fields[i].kind != VarKwargs
  {
    if fields == [] || fields[0].kind == VarKwargs then 0 else 1 + VarKwargsAt(fields[1..])
  }

  function Ones(m: map<string, Value>): Layout {
    map k | k in m :: One(m[k])
  }

  /** The fields given by position, unless there are too many arguments. */
  function ByPosition(fields: seq<Field>, args: seq<Value>): Option<Layout> {
    var names, a := FieldNames(fields), VarArgsAt(fields);
    if |args| <= a then Some(Ones(Zip(names[..|args|], args)))
    else if a == |fields| then None
    else Some(Ones(Zip(names[..a], args[..a]))[names[a] := Many(args[a..], fields[a].isList)])
  }

  function Unnamed(fields: seq<Field>, kwargs: map<string, Value>): map<string, Value> {
    map k | k in kwargs && k !in FieldNames(fields) :: kwargs[k]
  }

  function Naming(fields: seq<Field>, kwargs: map<string, Value>): map<string, Value> {
    map k | k in kwargs && k in FieldNames(fields) :: kwargs[k]
  }

  /** What `pydantic_validate_args_kwargs` hands to the model. */
  function Laid(fields: seq<Field>, args: seq<Value>, kwargs: map<string, Value>): Result<Layout, LayoutError> {
    var given := ByPosition(fields, args);
    if given.None? then Err(TooManyPositional)
    else if exists k :: k in kwargs && k in given.value then Err(MultipleValues)
    else
      var data := given.value + Ones(Naming(fields, kwargs));
      var extra := Unnamed(fields, kwargs);
      var e := VarKwargsAt(fields);
      if extra == map[] || fields == [] then Ok(data)
      else if e == |fields| then Err(UnexpectedKeyword)
      else Ok(data[fields[e].name := Extras(extra)])
  }

  method LayOut(fields: seq<Field>, args: seq<Value>, kwargs: map<string, Value>)
    returns (r: Result<Layout, LayoutError>)
    requires Wellformed(fields)
    ensures r == Laid(fields, args, kwargs)
  {
    var given := AssignPositional(fields, args);
    if given.None? {
      return Err(TooManyPositional);
    }
    var ok, data, extra := AssignKeywords(fields, given.value, kwargs);
    if !ok {
      return Err(MultipleValues);
    }
    if extra != map[] {
      r := AssignExtra(fields, data, extra);
    } else {
      r := Ok(data);
    }
  }

  /** The first loop: positional arguments, the *args field taking all from its own on. */
  method AssignPositional(fields: seq<Field>, args: seq<Value>) returns (r: Option<Layout>)
    requires Wellformed(fields)
    ensures r == ByPosition(fields, args)
  {
    var names := FieldNames(fields);
    var data: Layout := map[];
    for i := 0 to |args|
      invariant i <= VarArgsAt(fields)
      invariant data == Ones(Zip(names[..i], args[..i]))
    {
      if i >= |names| {
        return None;
      }
      if fields[i].kind == VarArgs {
        return Some(data[names[i] := Many(args[i..], fields[i].isList)]);
      }
      ZipFresh(names, args, i);
      if names[i] in data {
        assert false;  // MultipleValues cannot happen here
      }
      OnesOneMore(names, args, i);
      data := data[names[i] := One(args[i])];
    }
    assert args[..|args|] == args;
    r := Some(data);
  }

  /** The second loop: keywords, in any order. */
  method AssignKeywords(fields: seq<Field>, given: Layout, kwargs: map<string, Value>)
    returns (ok: bool, data: Layout, extra: map<string, Value>)
    ensures ok <==> forall k :: k in kwargs ==> k !in given
    ensures ok ==> data == given + Ones(Naming(fields, kwargs)) && extra == Unnamed(fields, kwargs)
  {
    var names := FieldNames(fields);
    data, extra := given, map[];
    var todo := kwargs.Keys;
    assert kwargs - todo == map[];
    while todo != {}
      invariant todo <= kwargs.Keys
      invariant data == given + Ones(Naming(fields, kwargs - todo))
      invariant extra == Unnamed(fields, kwargs - todo)
      invariant forall k :: k in kwargs && k !in todo ==> k !in given
    {
      var key :| key in todo;
      OneMoreKeyword(fields, given, kwargs, todo, key);
      todo := todo - {key};
      if key in data || key in extra {
        assert key in given;
        ok := false;
        return;
      }
      if key in names {
        data := data[key := One(kwargs[key])];
      } else {
        extra := extra[key := kwargs[key]];
      }
    }
    assert kwargs - todo == kwargs;
    ok := true;
  }

  lemma OneMoreKeyword(fields: seq<Field>, given: Layout, kwargs: map<string, Value>, todo: set<string>, key: string)
    requires key in todo && key in kwargs
    ensures var before, after := kwargs - todo, kwargs - (todo - {key});
      if key in FieldNames(fields) then
        && given + Ones(Naming(fields, after)) == (given + Ones(Naming(fields, before)))[key := One(kwargs[key])]
        && Unnamed(fields, after) == Unnamed(fields, before)
      else
        && given + Ones(Naming(fields, after)) == given + Ones(Naming(fields, before))
        && Unnamed(fields, after) == Unnamed(fields, before)[key := kwargs[key]]
  {
    var before, after := kwargs - todo, kwargs - (todo - {key});
    assert after == before[key := kwargs[key]];
    OneMoreNaming(fields, before, key, kwargs[key]);
  }

  lemma OneMoreNaming(fields: seq<Field>, before: map<string, Value>, key: string, v: Value)
    requires key !in before
    ensures var after := before[key := v];
      if key in FieldNames(fields) then
        && Ones(Naming(fields, after)) == Ones(Naming(fields, before))[key := One(v)]
        && Unnamed(fields, after) == Unnamed(fields, before)
      else
        && Naming(fields, after) == Naming(fields, before)
        && Unnamed(fields, after) == Unnamed(fields, before)[key := v]
  {
    var after := before[key := v];
    if key in FieldNames(fields) {
      assert Naming(fields, after) == Naming(fields, before)[key := v];
    }
  }

  /** The third loop looks for the **kwargs field, and gives up at the last field; without fields it does nothing. */
  method AssignExtra(fields: seq<Field>, data: Layout, extra: map<string, Value>)
    returns (r: Result<Layout, LayoutError>)
    ensures r == var e := VarKwargsAt(fields);
      if fields == [] then Ok(data)
      else if e == |fields| then Err(UnexpectedKeyword)
      else Ok(data[fields[e].name := Extras(extra)])
  {
    for j := 0 to |fields|
      invariant j <= VarKwargsAt(fields)
      invariant fields != [] ==> j < |fields|
    {
      if fields[j].kind == VarKwargs {
        return Ok(data[fields[j].name := Extras(extra)]);
      } else if j == |fields| - 1 {
        return Err(UnexpectedKeyword);
      }
    }
    r := Ok(data);
  }

  lemma OnesOneMore(names: seq<string>, args: seq<Value>, i: nat)
    requires i < |names| && i < |args| && NoDuplicates(names)
    ensures Ones(Zip(names[..i + 1], args[..i + 1])) == Ones(Zip(names[..i], args[..i]))[names[i] := One(args[i])]
  {
    ZipOneMore(names, args, i);
  }

  // ----- Where each argument goes --------------------------------------------------------------------

  datatype Argument = AtPosition(index: nat) | ByKeyword(key: string)

  datatype Place = InField(name: string) | InVarArgs(index: nat) | InVarKwargs(key: string)

  ghost predicate IsGiven(args: seq<Value>, kwargs: map<string, Value>, a: Argument) {
    match a
    case AtPosition(i) => i < |args|
    case ByKeyword(k) => k in kwargs
  }

  ghost function ValueOf(args: seq<Value>, kwargs: map<string, Value>, a: Argument): Value
    requires IsGiven(args, kwargs, a)
  {
    match a
    case AtPosition(i) => args[i]
    case ByKeyword(k) => kwargs[k]
  }

  /** The one place an argument belongs to: positional ones to the fields in order, those from the *args field on
      to it, keywords to the field they name, the others to the **kwargs field. */
  ghost function PlaceOf(fields: seq<Field>, a: Argument): Place {
    match a
    case AtPosition(i) => if i < VarArgsAt(fields) then InField(fields[i].name) else InVarArgs(i - VarArgsAt(fields))
    case ByKeyword(k) => if k in FieldNames(fields) then InField(k) else InVarKwargs(k)
  }

  ghost function Held(fields: seq<Field>, data: Layout, p: Place): Option<Value> {
    match p
    case InField(n) => if n in data && data[n].One? then Some(data[n].value) else None
    case InVarArgs(j) =>
      var at := VarArgsAt(fields);
      if at < |fields| && fields[at].name in data && data[fields[at].name].Many?
        && j < |data[fields[at].name].values| then Some(data[fields[at].name].values[j])
      else None
    case InVarKwargs(k) =>
      var at := VarKwargsAt(fields);
      if at < |fields| && fields[at].name in data && data[fields[at].name].Extras?
        && k in data[fields[at].name].extras then Some(data[fields[at].name].extras[k])
      else None
  }

  // ----- Conservation ----------------------------------------------------------------------------------

  /** Every argument is where it belongs. */
  ghost predicate Conserved(fields: seq<Field>, args: seq<Value>, kwargs: map<string, Value>, data: Layout) {
    forall a :: IsGiven(args, kwargs, a) ==> Held(fields, data, PlaceOf(fields, a)) == Some(ValueOf(args, kwargs, a))
  }

  lemma OnesAt(fields: seq<Field>, args: seq<Value>, n: nat)
    requires Wellformed(fields) && n <= |fields| && n <= |args|
    ensures var m := Ones(Zip(FieldNames(fields)[..n], args[..n]));
      && (forall i :: 0 <= i < n ==> fields[i].name in m && m[fields[i].name] == One(args[i]))
      && (forall k :: k in m ==> exists i :: 0 <= i < n && fields[i].name == k)
  {
    var names := FieldNames(fields)[..n];
    ZipAt(names, args[..n]);
    forall i | 0 <= i < n
      ensures fields[i].name in Zip(names, args[..n]) && Zip(names, args[..n])[fields[i].name] == args[i]
    {
      assert names[i] == fields[i].name && args[..n][i] == args[i];
    }
    forall k | k in Zip(names, args[..n]) ensures exists i :: 0 <= i < n && fields[i].name == k {
      var i :| 0 <= i < |names| && names[i] == k;
      assert fields[i].name == k;
    }
  }

  lemma GivenAt(fields: seq<Field>, args: seq<Value>, i: nat)
    requires Wellformed(fields) && ByPosition(fields, args).Some? && i < |args|
    ensures var given, a := ByPosition(fields, args).value, VarArgsAt(fields);
      if i < a then i < |fields| && fields[i].name in given && given[fields[i].name] == One(args[i])
      else a < |fields| && fields[a].name in given && given[fields[a].name] == Many(args[a..], fields[a].isList)
  {
    if i < VarArgsAt(fields) {
      OrdinaryAt(fields, args, i);
    }
  }

  lemma OrdinaryAt(fields: seq<Field>, args: seq<Value>, i: nat)
    requires Wellformed(fields) && ByPosition(fields, args).Some? && i < |args| && i < VarArgsAt(fields)
    ensures var given := ByPosition(fields, args).value;
      fields[i].name in given && given[fields[i].name] == One(args[i])
  {
    var a := VarArgsAt(fields);
    if |args| <= a {
      OnesAt(fields, args, |args|);
      assert args[..|args|] == args;
    } else {
      OnesAt(fields, args, a);
      assert fields[i].name != fields[a].name;
    }
  }

  lemma GivenFrom(fields: seq<Field>, args: seq<Value>, n: string) returns (i: nat)
    requires Wellformed(fields) && ByPosition(fields, args).Some? && n in ByPosition(fields, args).value
    ensures i <= VarArgsAt(fields) && i < |args| && i < |fields| && fields[i].name == n
  {
    var a := VarArgsAt(fields);
    assert args[..|args|] == args;
    if |args| > a && n == fields[a].name {
      i := a;
    } else {
      OnesAt(fields, args, Min(|args|, a));
      i :| 0 <= i < Min(|args|, a) && fields[i].name == n;
    }
  }

  /** Two arguments of a call that is not rejected never share a place. */
  lemma PlacesDiffer(fields: seq<Field>, args: seq<Value>, kwargs: map<string, Value>, a: Argument, b: Argument)
    requires Wellformed(fields) && Laid(fields, args, kwargs).Ok?
    requires IsGiven(args, kwargs, a) && IsGiven(args, kwargs, b) && PlaceOf(fields, a) == PlaceOf(fields, b)
    ensures a == b
  {
    if a.AtPosition? {
      GivenAt(fields, args, a.index);
    }
    if b.AtPosition? {
      GivenAt(fields, args, b.index);
    }
  }

  /** The keywords that name no field have nowhere to go, or the **kwargs field is already taken. */
  ghost predicate Spills(fields: seq<Field>, args: seq<Value>, kwargs: map<string, Value>) {
    && Unnamed(fields, kwargs) != map[]
    && var e := VarKwargsAt(fields);
       || e == |fields|
       || fields[e].name in kwargs
       || e < Min(|args|, VarArgsAt(fields))
  }

  /** One slot of an accepted call. */
  lemma LaidAt(fields: seq<Field>, args: seq<Value>, kwargs: map<string, Value>, n: string)
    requires Laid(fields, args, kwargs).Ok?
    ensures ByPosition(fields, args).Some?
    ensures var data, given, e := Laid(fields, args, kwargs).value, ByPosition(fields, args).value, VarKwargsAt(fields);
      if Unnamed(fields, kwargs) != map[] && fields != [] && e < |fields| && n == fields[e].name then
        n in data && data[n] == Extras(Unnamed(fields, kwargs))
      else
        && (n in data <==> n in given || n in Naming(fields, kwargs))
        && (n in given ==> data[n] == given[n])
        && (n !in given && n in data ==> data[n] == One(kwargs[n]))
  {
  }

  lemma PositionsConserved(fields: seq<Field>, args: seq<Value>, kwargs: map<string, Value>, i: nat)
    requires Wellformed(fields) && Laid(fields, args, kwargs).Ok? && i < |args| && !Spills(fields, args, kwargs)
    ensures Held(fields, Laid(fields, args, kwargs).value, PlaceOf(fields, AtPosition(i))) == Some(args[i])
  {
    var at := VarArgsAt(fields);
    GivenAt(fields, args, i);
    if i < at {
      LaidAt(fields, args, kwargs, fields[i].name);
    } else {
      LaidAt(fields, args, kwargs, fields[at].name);
      assert args[at..][i - at] == args[i];
    }
  }

  lemma KeywordsConserved(fields: seq<Field>, args: seq<Value>, kwargs: map<string, Value>, k: string)
    requires Wellformed(fields) && Laid(fields, args, kwargs).Ok? && k in kwargs && !Spills(fields, args, kwargs)
    ensures Held(fields, Laid(fields, args, kwargs).value, PlaceOf(fields, ByKeyword(k))) == Some(kwargs[k])
  {
    if k in FieldNames(fields) {
      LaidAt(fields, args, kwargs, k);
      assert k in Naming(fields, kwargs);
    } else {
      assert k in Unnamed(fields, kwargs);
      LaidAt(fields, args, kwargs, fields[VarKwargsAt(fields)].name);
    }
  }

  /** Conservation: a call that is not rejected puts every argument where it belongs exactly unless it has
      keywords that name no field while there is no **kwargs field (then the model has no field at all) or that
      field is already given a value, by name or by position; then something is lost. */
  lemma ConservedExactly(fields: seq<Field>, args: seq<Value>, kwargs: map<string, Value>)
    requires Wellformed(fields) && Laid(fields, args, kwargs).Ok?
    ensures Conserved(fields, args, kwargs, Laid(fields, args, kwargs).value) <==> !Spills(fields, args, kwargs)
  {
    var data := Laid(fields, args, kwargs).value;
    if !Spills(fields, args, kwargs) {
      forall a | IsGiven(args, kwargs, a)
        ensures Held(fields, data, PlaceOf(fields, a)) == Some(ValueOf(args, kwargs, a))
      {
        match a
        case AtPosition(i) => PositionsConserved(fields, args, kwargs, i);
        case ByKeyword(k) => KeywordsConserved(fields, args, kwargs, k);
      }
    } else {
      var a := SpilledArgument(fields, args, kwargs);
      assert !Conserved(fields, args, kwargs, data);
    }
  }

  /** A keyword with the name of the **kwargs field is lost when another keyword is collected there. */
  lemma NamedKwargsLost(v: Value, speed: Value)
    ensures var fields, kwargs := [Field("kwargs", VarKwargs, false)], map["kwargs" := v, "speed" := speed];
      && Wellformed(fields) && Laid(fields, [], kwargs).Ok? && Spills(fields, [], kwargs)
      && !Conserved(fields, [], kwargs, Laid(fields, [], kwargs).value)
      && Held(fields, Laid(fields, [], kwargs).value, PlaceOf(fields, ByKeyword("kwargs"))).None?
  {
    var fields, kwargs := [Field("kwargs", VarKwargs, false)], map["kwargs" := v, "speed" := speed];
    assert FieldNames(fields) == ["kwargs"] && fields[0].name in kwargs;
    assert "speed" in Unnamed(fields, kwargs) && VarKwargsAt(fields) == 0;
    assert ByPosition(fields, []) == Some(map[]) by {
      assert FieldNames(fields)[..0] == [];
    }
    ConservedExactly(fields, [], kwargs);
    LaidAt(fields, [], kwargs, "kwargs");
  }

  /** An argument that is lost. */
  lemma SpilledArgument(fields: seq<Field>, args: seq<Value>, kwargs: map<string, Value>) returns (a: Argument)
    requires Wellformed(fields) && Laid(fields, args, kwargs).Ok? && Spills(fields, args, kwargs)
    ensures IsGiven(args, kwargs, a)
    ensures Held(fields, Laid(fields, args, kwargs).value, PlaceOf(fields, a)).None?
  {
    var e := VarKwargsAt(fields);
    var k :| k in Unnamed(fields, kwargs);
    if e == |fields| {
      a := ByKeyword(k);
    } else if fields[e].name in kwargs {
      a := ByKeyword(fields[e].name);
      assert FieldNames(fields)[e] in FieldNames(fields);
    } else {
      a := AtPosition(e);
    }
  }

  /** ... and no slot of the layout holds anything that was not given. */
  lemma NothingInvented(fields: seq<Field>, args: seq<Value>, kwargs: map<string, Value>, p: Place)
    requires Wellformed(fields) && Laid(fields, args, kwargs).Ok?
    requires Held(fields, Laid(fields, args, kwargs).value, p).Some?
    ensures exists a :: IsGiven(args, kwargs, a) && PlaceOf(fields, a) == p
  {
    var at := VarArgsAt(fields);
    match p
    case InField(n) =>
      LaidAt(fields, args, kwargs, n);
      if n in ByPosition(fields, args).value {
        var i := GivenFrom(fields, args, n);
        if i == at {
          GivenAt(fields, args, i);
        }
        assert IsGiven(args, kwargs, AtPosition(i)) && PlaceOf(fields, AtPosition(i)) == p;
      } else {
        assert IsGiven(args, kwargs, ByKeyword(n)) && PlaceOf(fields, ByKeyword(n)) == p;
      }
    case InVarArgs(j) =>
      LaidAt(fields, args, kwargs, fields[at].name);
      var i := GivenFrom(fields, args, fields[at].name);
      GivenAt(fields, args, i);
      assert IsGiven(args, kwargs, AtPosition(at + j)) && PlaceOf(fields, AtPosition(at + j)) == p;
    case InVarKwargs(k) =>
      NotExtras(fields, args, kwargs, fields[VarKwargsAt(fields)].name);
      assert IsGiven(args, kwargs, ByKeyword(k)) && PlaceOf(fields, ByKeyword(k)) == p;
  }

  /** Only keywords that name no field are collected. */
  lemma NotExtras(fields: seq<Field>, args: seq<Value>, kwargs: map<string, Value>, n: string)
    requires Wellformed(fields) && Laid(fields, args, kwargs).Ok? && n in Laid(fields, args, kwargs).value
    requires Laid(fields, args, kwargs).value[n].Extras?
    ensures Laid(fields, args, kwargs).value[n].extras == Unnamed(fields, kwargs)
  {
    LaidAt(fields, args, kwargs, n);
    if n in ByPosition(fields, args).value {
      var i := GivenFrom(fields, args, n);
      GivenAt(fields, args, i);
    }
  }

  /** A call is rejected before validation exactly for too many positional arguments, a keyword for a field that
      has a positional argument already, or a keyword that names no field when no field
      is the **kwargs one; a model without any field takes such keywords. */
  lemma RejectsExactly(fields: seq<Field>, args: seq<Value>, kwargs: map<string, Value>)
    requires Wellformed(fields)
    ensures var tooMany := |args| > |fields| && VarArgsAt(fields) == |fields|;
      var twice := exists i :: 0 <= i < |args| && i < |fields| && i <= VarArgsAt(fields) && fields[i].name in kwargs;
      var unknown := fields != [] && VarKwargsAt(fields) == |fields|
        && exists k :: k in kwargs && k !in FieldNames(fields);
      if tooMany then Laid(fields, args, kwargs) == Err(TooManyPositional)
      else if twice then Laid(fields, args, kwargs) == Err(MultipleValues)
      else if unknown then Laid(fields, args, kwargs) == Err(UnexpectedKeyword)
      else Laid(fields, args, kwargs).Ok?
  {
    if ByPosition(fields, args).Some? {
      var given := ByPosition(fields, args).value;
      forall i | 0 <= i < |args| && i < |fields| && i <= VarArgsAt(fields) ensures fields[i].name in given {
        GivenAt(fields, args, i);
      }
      if k :| k in kwargs && k in given {
        var i := GivenFrom(fields, args, k);
        assert fields[i].name in kwargs;
      }
      UnnamedKeys(fields, kwargs);
    }
  }

  lemma UnnamedKeys(fields: seq<Field>, kwargs: map<string, Value>)
    ensures Unnamed(fields, kwargs) != map[] <==> exists k :: k in kwargs && k !in FieldNames(fields)
  {
    if k :| k in kwargs && k !in FieldNames(fields) {
      assert k in Unnamed(fields, kwargs);
    }
    if Unnamed(fields, kwargs) != map[] {
      var k :| k in Unnamed(fields, kwargs).Keys;
    }
  }

  /** A model without fields takes any keywords, and drops them. */
  lemma NoFieldsDropKeywords(kwargs: map<string, Value>)
    ensures Laid([], [], kwargs) == Ok(map[])
  {
  }
}
