/** The arguments of an action call: checked against a JSON schema, then passed to the handler as they are. */
module JsonArguments {
  import opened Wrappers
  import opened PythonCalls
  import opened Sequences
  import Gates

  type Arguments = map<string, Value>

  datatype Additional = Unspecified | Forbidden | Permitted(check: (string, Value) -> bool)

  /** A DataSchema. Of an object schema the keywords of section 6.5 of JSON Schema Validation draft-07 that
      matter for binding are spelled out, the others are in `wholeOk`; `singleOk` is for any other schema. */
  datatype Schema = Schema(
    typeIsObject: bool,
    properties: Option<seq<string>>,
    required: seq<string>,
    additional: Additional,
    valueOk: (string, Value) -> bool,
    wholeOk: Arguments -> bool,
    singleOk: Value -> bool)
  {
    predicate IsObject() { typeIsObject || properties.Some? }

    function Fields(): seq<string> { if properties.Some? then properties.value else [] }

    /** The properties are the keys of a dictionary. */
    ghost predicate Wellformed() {
      NoDuplicates(Fields())
    }
  }

  predicate Accepts(schema: Schema, m: Arguments) {
    && (forall i :: 0 <= i < |schema.required| ==> schema.required[i] in m)
    && (forall k :: k in m && k in schema.Fields() ==> schema.valueOk(k, m[k]))
    && (forall k :: k in m && k !in schema.Fields() ==>
         !schema.additional.Forbidden? && (schema.additional.Permitted? ==> schema.additional.check(k, m[k])))
    && schema.wholeOk(m)
  }

  // ----- json_schema_merge_args_to_kwargs ------------------------------------------------------

  datatype MergeError = NotAnObject | TooManyPositional | MultipleValues

  /** Positional arguments are for the properties in order, keywords for whatever they name. */
  function Merged(schema: Schema, args: seq<Value>, kwargs: Arguments): Result<Arguments, MergeError> {
    var fields := schema.Fields();
    if !schema.IsObject() then Err(NotAnObject)
    else if |args| > |fields| then Err(TooManyPositional)
    else
      var byPosition := Zip(fields[..|args|], args);
      if exists k :: k in kwargs && k in byPosition then Err(MultipleValues)
      else Ok(byPosition + kwargs)
  }

  method MergeArgsToKwargs(schema: Schema, args: seq<Value>, kwargs: Arguments)
    returns (r: Result<Arguments, MergeError>)
    requires schema.Wellformed()
    ensures r == Merged(schema, args, kwargs)
  {
    if !schema.IsObject() {
      return Err(NotAnObject);
    }
    var fieldNames := schema.Fields();
    var given := AssignPositional(fieldNames, args);
    if given.None? {
      return Err(TooManyPositional);
    }
    var ok, data, extra := AssignKeywords(fieldNames, given.value, kwargs);
    if !ok {
      return Err(MultipleValues);
    }
    ExtraLast(given.value, kwargs, set k | k in fieldNames);
    r := Ok(data + extra);
  }

  lemma ExtraLast(given: Arguments, kwargs: Arguments, fields: set<string>)
    ensures given + Only(kwargs, fields) + (kwargs - fields) == given + kwargs
  {
  }

  /** The first loop. */
  method AssignPositional(fieldNames: seq<string>, args: seq<Value>) returns (data: Option<Arguments>)
    requires NoDuplicates(fieldNames)
    ensures data == if |args| > |fieldNames| then None else Some(Zip(fieldNames[..|args|], args))
  {
    var d: Arguments := map[];
    for i := 0 to |args|
      invariant i <= |fieldNames| && d == Zip(fieldNames[..i], args[..i])
    {
      if i >= |fieldNames| {
        return None;
      }
      ZipFresh(fieldNames, args, i);
      if fieldNames[i] in d {
        assert false;  // MultipleValues cannot happen here
      }
      ZipOneMore(fieldNames, args, i);
      d := d[fieldNames[i] := args[i]];
    }
    assert args[..|args|] == args;
    data := Some(d);
  }

  /** The second loop, taking the keywords in any order. */
  method AssignKeywords(fieldNames: seq<string>, given: Arguments, kwargs: Arguments)
    returns (ok: bool, data: Arguments, extra: Arguments)
    ensures ok <==> forall k :: k in kwargs ==> k !in given
    ensures ok ==> var fields := set k | k in fieldNames;
      data == given + Only(kwargs, fields) && extra == kwargs - fields
  {
    ghost var fields := set k | k in fieldNames;
    data, extra := given, map[];
    var todo := kwargs.Keys;
    assert kwargs - todo == map[];
    while todo != {}
      invariant todo <= kwargs.Keys
      invariant data == given + Only(kwargs - todo, fields) && extra == kwargs - todo - fields
      invariant forall k :: k in kwargs && k !in todo ==> k !in given
    {
      var key :| key in todo;
      OneMoreKeyword(given, kwargs, todo, fields, key);
      todo := todo - {key};
      if key in data || key in extra {
        assert key in given;
        ok := false;
        return;
      }
      if key in fieldNames {
        data := data[key := kwargs[key]];
      } else {
        extra := extra[key := kwargs[key]];
      }
    }
    assert kwargs - todo == kwargs;
    ok := true;
  }

  lemma OneMoreKeyword(given: Arguments, kwargs: Arguments, todo: set<string>, fields: set<string>, key: string)
    requires key in todo && key in kwargs
    ensures var before, after := kwargs - todo, kwargs - (todo - {key});
      if key in fields then
        && given + Only(after, fields) == (given + Only(before, fields))[key := kwargs[key]]
        && after - fields == before - fields
      else
        && given + Only(after, fields) == given + Only(before, fields)
        && after - fields == (before - fields)[key := kwargs[key]]
  {
    var before, after := kwargs - todo, kwargs - (todo - {key});
    assert after == before[key := kwargs[key]];
    if key in fields {
      assert Only(after, fields) == Only(before, fields)[key := kwargs[key]];
    } else {
      assert Only(after, fields) == Only(before, fields);
    }
  }

  // ----- validate_method_call --------------------------------------------------------------------

  /** Whether `JSONSchemaValidator.validate_method_call` lets the call through. */
  predicate CallAccepted(schema: Schema, args: seq<Value>, kwargs: Arguments) {
    if !schema.IsObject() then
      |args| + |kwargs| == 1
      && (|args| == 1 ==> schema.singleOk(args[0]))
      && (|args| == 0 ==> forall k :: k in kwargs ==> schema.singleOk(kwargs[k]))
    else if |args| > 0 then
      Merged(schema, args, kwargs).Ok? && Accepts(schema, Merged(schema, args, kwargs).value)
    else Accepts(schema, kwargs)
  }

  /** What the validator saw of an accepted call is always the merged mapping. */
  lemma AcceptedIsMerged(schema: Schema, args: seq<Value>, kwargs: Arguments)
    requires schema.IsObject() && CallAccepted(schema, args, kwargs)
    ensures Merged(schema, args, kwargs).Ok? && Accepts(schema, Merged(schema, args, kwargs).value)
  {
    if args == [] {
      assert schema.Fields()[..0] == [] && map[] + kwargs == kwargs;
    }
  }

  /** The mapping that a call gives to an object schema: properties by position, keys by name. */
  ghost predicate Denotes(fields: seq<string>, args: seq<Value>, kwargs: Arguments, m: Arguments) {
    && |args| <= |fields|
    && (forall i :: 0 <= i < |args| ==> fields[i] !in kwargs && fields[i] in m && m[fields[i]] == args[i])
    && (forall k :: k in kwargs ==> k in m && m[k] == kwargs[k])
    && (forall k :: k in m ==> k in kwargs || k in fields[..|args|])
  }

  /** Merging fails exactly for a schema that is not an object's, too many arguments, or a property given twice;
      else it gives the mapping that the call denotes. */
  lemma MergedMeans(schema: Schema, args: seq<Value>, kwargs: Arguments)
    requires schema.Wellformed()
    ensures var r, fields := Merged(schema, args, kwargs), schema.Fields();
      var takesKeys := schema.typeIsObject || schema.properties.Some?;
      var twice := exists i :: 0 <= i < |args| && i < |fields| && fields[i] in kwargs;
      && (r == Err(NotAnObject) <==> !takesKeys)
      && (r == Err(TooManyPositional) <==> takesKeys && |args| > |fields|)
      && (r == Err(MultipleValues) <==> takesKeys && |args| <= |fields| && twice)
      && (r.Ok? ==> Denotes(fields, args, kwargs, r.value))
  {
    var fields := schema.Fields();
    if |args| <= |fields| {
      ZipAt(fields[..|args|], args);
      var byPosition := Zip(fields[..|args|], args);
      assert forall i :: 0 <= i < |args| ==> fields[..|args|][i] == fields[i];
      if k :| k in kwargs && k in byPosition {
        var i :| 0 <= i < |args| && fields[..|args|][i] == k;
        assert fields[i] in kwargs;
      }
    }
  }

  /** An object is accepted exactly if it has the required keys, its properties are good, additional keys are
      allowed and good, and nothing else is against it. */
  lemma ObjectAccepted(schema: Schema, args: seq<Value>, kwargs: Arguments, m: Arguments)
    requires schema.Wellformed() && (schema.typeIsObject || schema.properties.Some?)
    requires Denotes(schema.Fields(), args, kwargs, m)
    ensures CallAccepted(schema, args, kwargs) <==>
      && (forall i :: 0 <= i < |schema.required| ==> schema.required[i] in m)
      && (forall k :: k in m && k in schema.Fields() ==> schema.valueOk(k, m[k]))
      && (forall k :: k in m && k !in schema.Fields() ==>
           match schema.additional
           case Unspecified => true
           case Forbidden => false
           case Permitted(check) => check(k, m[k]))
      && schema.wholeOk(m)
  {
    MergedMeans(schema, args, kwargs);
    var merged := Merged(schema, args, kwargs).value;
    SameDenotation(schema.Fields(), args, kwargs, m, merged);
    if args == [] {
      MergedAlone(schema, kwargs);
    }
  }

  lemma SameDenotation(fields: seq<string>, args: seq<Value>, kwargs: Arguments, m: Arguments, n: Arguments)
    requires Denotes(fields, args, kwargs, m) && Denotes(fields, args, kwargs, n)
    ensures m == n
  {
    assert forall i :: 0 <= i < |args| ==> fields[..|args|][i] == fields[i];
    forall k | k in m || k in n ensures k in m && k in n && m[k] == n[k] {
      if k !in kwargs {
        var i :| 0 <= i < |args| && fields[..|args|][i] == k;
      }
    }
  }

  /** Any other schema takes a single value, by position or under any name. */
  lemma SingleAccepted(schema: Schema, args: seq<Value>, kwargs: Arguments)
    requires !schema.typeIsObject && schema.properties.None?
    ensures CallAccepted(schema, args, kwargs) <==>
      || (|args| == 1 && kwargs == map[] && schema.singleOk(args[0]))
      || (args == [] && |kwargs| == 1 && forall k :: k in kwargs ==> schema.singleOk(kwargs[k]))
  {
    assert |kwargs| == 0 <==> kwargs == map[];
  }

  // ----- check_input_signature -------------------------------------------------------------------

  datatype Mismatch =
    | SingleValueArity
    | PositionalOnlyParameter(name: string)
    | RequiredNotInInput(name: string)
    | PropertyNotAParameter(name: string)
    | AdditionalNeedsKwargs

  /** The handler of an action: a method takes the object as its first parameter, a delegate's does not. */
  datatype Handler = Handler(params: seq<Parameter>, isMethod: bool)
  {
    ghost predicate Wellformed() {
      Definable(params) && (isMethod ==> params != [] && params[0].kind.IsPositional())
    }

    /** The parameters a caller sees. */
    function Own(): seq<Parameter> {
      if isMethod && params != [] then params[1..] else params
    }
  }

  /** Part of the input, for the check: everything but a keyword-only `request`. */
  predicate Checked(p: Parameter) {
    !(p.kind == KeywordOnly && p.name == "request")
  }

  function CheckedParameters(params: seq<Parameter>): seq<Parameter> {
    if params == [] then []
    else (if Checked(params[0]) then [params[0]] else []) + CheckedParameters(params[1..])
  }

  /** The mismatches `check_input_signature` reports; it passes when there are none. */
  function Mismatches(handler: Handler, schema: Schema): set<Mismatch> {
    var params := CheckedParameters(handler.Own());
    if !schema.IsObject() then
      if |params| != 1 || !(params[0].kind.IsPositional() || params[0].kind == VarPositional) then {SingleValueArity}
      else {}
    else
      var fields := schema.Fields();
      var takesKwargs := Takes(params, VarKeyword);
      var keywords := Named(params);
      (set p | p in params && p.kind == PositionalOnly :: PositionalOnlyParameter(p.name))
      + (set p | p in params && p.name in keywords && !p.hasDefault && p.name !in fields :: RequiredNotInInput(p.name))
      + (if takesKwargs then {}
         else (set n | n in fields && n !in keywords :: PropertyNotAParameter(n))
              + (set n | n in schema.required && n !in keywords :: PropertyNotAParameter(n)))
      + (if schema.additional.Permitted? && !takesKwargs then {AdditionalNeedsKwargs} else {})
  }

  // ----- What the handler receives ---------------------------------------------------------------

  /** `BoundSyncAction.__call__`: the arguments go on as they came, after the object for a method. But the call
      is to a method of Python itself, `__call__(self, *args, **kwargs)`, which has no room for a keyword `self`. */
  function CallHandler(handler: Handler, thing: Value, args: seq<Value>, kwargs: Arguments): Option<Bound> {
    if "self" in kwargs then None
    else Bind(handler.params, (if handler.isMethod then [thing] else []) + args, kwargs)
  }

  const SELF := Parameter("self", PositionalOrKeyword, false)

  /** The signature of `external_call` and of `__call__`. */
  const WRAPPER := [SELF, Parameter("args", VarPositional, false), Parameter("kwargs", VarKeyword, false)]

  lemma WrapperParameters()
    ensures Positionals(WRAPPER) == 1 && Named(WRAPPER) == {"self"} && Names(WRAPPER)[..1] == ["self"]
    ensures Takes(WRAPPER, VarPositional) && Takes(WRAPPER, VarKeyword)
    ensures forall slots :: "self" in slots ==> AllFilled(WRAPPER, slots)
  {
    assert Positionals(WRAPPER[1..]) == 0;
    assert WRAPPER[1].kind == VarPositional && WRAPPER[2].kind == VarKeyword;
    NamedAt(WRAPPER, 0);
  }

  /** What Python makes of such a call. */
  lemma WrapperTakesAllButSelf(action: Value, args: seq<Value>, kwargs: Arguments)
    ensures Bind(WRAPPER, [action] + args, kwargs) ==
      if "self" in kwargs then None else Some(Bound(map["self" := action], args, kwargs))
  {
    WrapperParameters();
    var all, own: Arguments := [action] + args, map["self" := action];
    assert all[..1] == [action] && all[1..] == args && Min(|all|, 1) == 1;
    assert ["self"][1..] == [];
    assert Zip(["self"], [action]) == own;
    if "self" !in kwargs {
      assert Only(kwargs, {"self"}) == map[] && kwargs - {"self"} == kwargs;
      assert own + Only(kwargs, {"self"}) == own;
    }
  }

  /** The arguments a handler finds under its parameters and in **kwargs, without the object. */
  function Received(handler: Handler, b: Bound): Arguments {
    (if handler.isMethod && handler.params != [] then b.slots - {handler.params[0].name} else b.slots) + b.extra
  }

  /** The handler gets exactly the mapping that was validated, and nothing else. */
  predicate Agrees(handler: Handler, schema: Schema, thing: Value, args: seq<Value>, kwargs: Arguments) {
    var b := CallHandler(handler, thing, args, kwargs);
    && b.Some? && b.value.rest == []
    && Merged(schema, args, kwargs) == Ok(Received(handler, b.value))
  }

  /** The properties, in order, are the leading parameters, each of which can be given either way. */
  ghost predicate Leading(handler: Handler, schema: Schema) {
    && |schema.Fields()| <= |handler.Own()|
    && forall i :: 0 <= i < |schema.Fields()| ==>
         handler.Own()[i].kind == PositionalOrKeyword && handler.Own()[i].name == schema.Fields()[i]
  }

  /** The schema requires every parameter that has no default. */
  ghost predicate Covers(handler: Handler, schema: Schema) {
    forall i :: 0 <= i < |handler.Own()| && Mandatory(handler.Own()[i]) ==>
      handler.Own()[i].name in schema.required
  }

  function Before(handler: Handler, thing: Value): seq<Value> {
    if handler.isMethod then [thing] else []
  }

  lemma LeadingAt(handler: Handler, schema: Schema, thing: Value, i: nat)
    requires handler.Wellformed() && Leading(handler, schema) && i < |schema.Fields()|
    ensures var at := |Before(handler, thing)| + i;
      && at < |handler.params| && handler.params[at].kind == PositionalOrKeyword
      && handler.params[at].name == schema.Fields()[i]
  {
    assert handler.params[|Before(handler, thing)| + i] == handler.Own()[i];
  }

  /** What `Leading` says in terms of all parameters of the handler: the properties follow the object ... */
  lemma LeadingParameters(handler: Handler, schema: Schema, thing: Value)
    requires handler.Wellformed() && Leading(handler, schema)
    ensures |Before(handler, thing)| + |schema.Fields()| <= Positionals(handler.params)
    ensures Follow(Names(handler.params), |Before(handler, thing)|, schema.Fields())
  {
    var off, fields, params := |Before(handler, thing)|, schema.Fields(), handler.params;
    forall i | 0 <= i < |fields|
      ensures params[off + i].kind == PositionalOrKeyword && params[off + i].name == fields[i]
    {
      LeadingAt(handler, schema, thing, i);
    }
    PositionalsReach(params, off + |fields|);
  }

  /** ... can all be named, and have other names than the object's own parameter. */
  lemma LeadingAreNamed(handler: Handler, schema: Schema, thing: Value, k: string)
    requires handler.Wellformed() && Leading(handler, schema) && k in schema.Fields()
    ensures k in Named(handler.params) && (handler.isMethod ==> k != handler.params[0].name)
  {
    var i :| 0 <= i < |schema.Fields()| && schema.Fields()[i] == k;
    LeadingAt(handler, schema, thing, i);
    NamedAt(handler.params, |Before(handler, thing)| + i);
  }

  lemma OwnParameters(handler: Handler, thing: Value, i: nat)
    requires i < |handler.params| && handler.Wellformed()
    ensures |Before(handler, thing)| <= i ==> handler.params[i] in handler.Own()
    ensures i < |Before(handler, thing)| ==> i == 0 && handler.isMethod
  {
    if handler.isMethod && i > 0 {
      assert handler.Own()[i - 1] == handler.params[i];
    }
  }

  /** A call whose keywords are further properties, and that leaves out no parameter without a default;
      `given` is what it gives by position. */
  ghost predicate Complete(handler: Handler, fields: seq<string>, given: Arguments, kwargs: Arguments) {
    && (forall k :: k in kwargs ==> k in fields && k !in given)
    && (forall p :: p in handler.Own() && Mandatory(p) ==> p.name in given || p.name in kwargs)
  }

  /** The object itself, under the name of its parameter. */
  function OwnSlot(handler: Handler, thing: Value): Arguments {
    if handler.isMethod && handler.params != [] then map[handler.params[0].name := thing] else map[]
  }

  lemma OwnSlotIsFirst(handler: Handler, thing: Value)
    requires handler.isMethod ==> handler.params != []
    ensures Zip(Names(handler.params)[..|Before(handler, thing)|], Before(handler, thing)) == OwnSlot(handler, thing)
  {
    if handler.isMethod {
      assert Names(handler.params)[..1][1..] == [];
      assert Zip(Names(handler.params)[..1], [thing]) == map[][handler.params[0].name := thing];
    }
  }

  /** What a call fills by position. */
  lemma PositionsFilled(handler: Handler, schema: Schema, thing: Value, args: seq<Value>, given: Arguments)
    requires handler.Wellformed() && Leading(handler, schema) && |args| <= |schema.Fields()|
    requires given == Zip(schema.Fields()[..|args|], args)
    ensures var all := Before(handler, thing) + args;
      && |all| <= Positionals(handler.params)
      && Zip(Names(handler.params)[..|all|], all) == OwnSlot(handler, thing) + given
  {
    LeadingParameters(handler, schema, thing);
    OwnSlotIsFirst(handler, thing);
    NamesAreDistinct(handler);
    ZipLeading(Names(handler.params), Before(handler, thing), schema.Fields(), args);
  }

  lemma CompleteCallsBind(handler: Handler, schema: Schema, thing: Value, args: seq<Value>, given: Arguments,
                          kwargs: Arguments)
    requires handler.Wellformed() && Leading(handler, schema) && |args| <= |schema.Fields()|
    requires given == Zip(schema.Fields()[..|args|], args)
    requires Complete(handler, schema.Fields(), given, kwargs) && "self" !in kwargs
    ensures CallHandler(handler, thing, args, kwargs) ==
      Some(Bound(OwnSlot(handler, thing) + given + kwargs, [], map[]))
    ensures handler.isMethod ==> handler.params[0].name !in schema.Fields()
  {
    var params, own := handler.params, OwnSlot(handler, thing);
    PositionsFilled(handler, schema, thing, args, given);
    forall k | k in schema.Fields() ensures k in Named(params) && (handler.isMethod ==> k != params[0].name) {
      LeadingAreNamed(handler, schema, thing, k);
    }
    forall i | 0 <= i < |params| && Mandatory(params[i])
      ensures params[i].name in own || params[i].name in given || params[i].name in kwargs
    {
      OwnParameters(handler, thing, i);
    }
    FittingCallBinds(params, Before(handler, thing) + args, kwargs);
  }

  lemma AcceptedIsComplete(handler: Handler, schema: Schema, args: seq<Value>, given: Arguments, kwargs: Arguments)
    requires schema.Wellformed() && schema.IsObject() && schema.additional.Forbidden? && Covers(handler, schema)
    requires CallAccepted(schema, args, kwargs)
    requires |args| <= |schema.Fields()| && given == Zip(schema.Fields()[..|args|], args)
    ensures Complete(handler, schema.Fields(), given, kwargs)
    ensures Merged(schema, args, kwargs) == Ok(given + kwargs)
  {
    AcceptedIsMerged(schema, args, kwargs);
    var m := Merged(schema, args, kwargs).value;
    forall k | k in kwargs ensures k in schema.Fields() && k !in given {
      assert k in m;
    }
    forall p | p in handler.Own() && Mandatory(p) ensures p.name in given || p.name in kwargs {
      assert p.name in m;
    }
  }

  lemma GivenAreFields(schema: Schema, args: seq<Value>)
    requires schema.Wellformed() && |args| <= |schema.Fields()|
    ensures forall k :: k in Zip(schema.Fields()[..|args|], args) ==> k in schema.Fields()
  {
    ZipAt(schema.Fields()[..|args|], args);
  }

  /** End-to-end agreement: when the properties in order are the leading parameters, the schema requires every
      parameter without a default and forbids other keys, an accepted call binds to the handler, which then finds
      exactly the mapping that was validated, unless the call has a keyword `self`. */
  lemma AcceptedCallsAgree(handler: Handler, schema: Schema, thing: Value, args: seq<Value>, kwargs: Arguments)
    requires handler.Wellformed() && schema.Wellformed() && schema.IsObject() && schema.additional.Forbidden?
    requires Leading(handler, schema) && Covers(handler, schema)
    requires CallAccepted(schema, args, kwargs)
    ensures Agrees(handler, schema, thing, args, kwargs) <==> "self" !in kwargs
  {
    AcceptedIsMerged(schema, args, kwargs);
    var given, own := Zip(schema.Fields()[..|args|], args), OwnSlot(handler, thing);
    AcceptedIsComplete(handler, schema, args, given, kwargs);
    if "self" !in kwargs {
      CompleteCallsBind(handler, schema, thing, args, given, kwargs);
      UnionIsAssociative(own, given, kwargs);
      GivenAreFields(schema, args);
      OnlyOwnIsDropped(handler, thing, given + kwargs);
    }
  }

  /** No other keywords than properties are accepted. */
  lemma KeywordsAreFields(schema: Schema, args: seq<Value>, kwargs: Arguments)
    requires schema.IsObject() && schema.additional.Forbidden? && CallAccepted(schema, args, kwargs)
    ensures forall k :: k in kwargs ==> k in schema.Fields()
  {
    AcceptedIsMerged(schema, args, kwargs);
    forall k | k in kwargs ensures k in schema.Fields() {
      assert k in Merged(schema, args, kwargs).value;
    }
  }

  lemma OnlyOwnIsDropped(handler: Handler, thing: Value, m: Arguments)
    requires handler.isMethod && handler.params != [] ==> handler.params[0].name !in m
    ensures Received(handler, Bound(OwnSlot(handler, thing) + m, [], map[])) == m
  {
  }

  // ----- The conditions are exact ------------------------------------------------------------------

  lemma {:induction false} CheckedMembers(params: seq<Parameter>)
    ensures forall p :: p in CheckedParameters(params) <==> p in params && Checked(p)
  {
    if params != [] {
      CheckedMembers(params[1..]);
      assert params == [params[0]] + params[1..];
    }
  }

  /** The schema says nothing about values, requires only its own properties and forbids other keys. */
  ghost predicate OnlyNames(schema: Schema) {
    && schema.Wellformed() && schema.IsObject() && schema.additional.Forbidden?
    && (forall i :: 0 <= i < |schema.required| ==> schema.required[i] in schema.Fields())
    && (forall k, v :: schema.valueOk(k, v))
    && (forall m :: schema.wholeOk(m))
  }

  ghost predicate AllDifferent(values: seq<Value>) {
    forall i, j :: 0 <= i < j < |values| ==> values[i] != values[j]
  }

  /** What the schema says about values leaves enough calls to tell parameters apart: `args`, which all differ, are
      accepted for its properties, and a property it does not require can be left out, as in `without`. */
  ghost predicate Discerning(schema: Schema, args: seq<Value>, without: string -> Arguments) {
    && schema.Wellformed() && schema.IsObject() && schema.additional.Forbidden?
    && |args| == |schema.Fields()| && AllDifferent(args) && CallAccepted(schema, args, map[])
    && (forall f :: f in schema.Fields() && f !in schema.required ==>
         f !in without(f) && CallAccepted(schema, [], without(f)))
  }

  ghost predicate AllAgree(handler: Handler, schema: Schema, thing: Value) {
    forall args, kwargs :: CallAccepted(schema, args, kwargs) ==> Agrees(handler, schema, thing, args, kwargs)
  }

  lemma MandatoryIsNeeded(handler: Handler, thing: Value, kwargs: Arguments, i: nat)
    requires handler.Wellformed() && i < |handler.Own()| && Mandatory(handler.Own()[i])
    requires handler.Own()[i].name !in kwargs
    ensures CallHandler(handler, thing, [], kwargs).None?
  {
    var params, own := handler.params, Before(handler, thing);
    var at := if handler.isMethod then i + 1 else i;
    assert handler.Own()[i] == params[at];
    assert own + [] == own && own[..|own|] == own;
    if handler.isMethod {
      PositionalsReach(params, 1);
    }
    OwnSlotIsFirst(handler, thing);
    if Bind(params, own, kwargs).Some? {
      BoundIsFilled(params, own, kwargs, at);
      assert false;
    }
  }

  lemma AgreementNeedsCovers(handler: Handler, schema: Schema, thing: Value, args: seq<Value>,
                             without: string -> Arguments)
    requires handler.Wellformed() && Discerning(schema, args, without) && AllAgree(handler, schema, thing)
    ensures Covers(handler, schema)
  {
    forall i | 0 <= i < |handler.Own()| && Mandatory(handler.Own()[i])
      ensures handler.Own()[i].name in schema.required
    {
      var name := handler.Own()[i].name;
      if name !in schema.required {
        var kwargs := CallWithout(schema, name, args, without);
        assert Agrees(handler, schema, thing, [], kwargs);
        MandatoryIsNeeded(handler, thing, kwargs, i);
        assert false;
      }
    }
  }

  lemma CallWithout(schema: Schema, name: string, args: seq<Value>, without: string -> Arguments)
    returns (kwargs: Arguments)
    requires Discerning(schema, args, without) && name !in schema.required
    ensures CallAccepted(schema, [], kwargs) && name !in kwargs
  {
    if name in schema.Fields() {
      kwargs := without(name);
    } else {
      AllByName(schema, args);
      kwargs := Zip(schema.Fields(), args);
      ZipKeysOnly(schema.Fields(), args);
    }
  }

  /** A value for each property, by position or by name, makes the same mapping. */
  lemma AllByName(schema: Schema, args: seq<Value>)
    requires schema.Wellformed() && schema.IsObject() && |args| == |schema.Fields()|
    ensures Merged(schema, args, map[]) == Ok(Zip(schema.Fields(), args))
    ensures CallAccepted(schema, args, map[]) <==> CallAccepted(schema, [], Zip(schema.Fields(), args))
  {
    var fields := schema.Fields();
    var none: Arguments := map[];
    assert fields[..|args|] == fields;
    assert Zip(fields, args) + none == Zip(fields, args);
    assert args == [] ==> Zip(fields, args) == none;
  }

  lemma SameZipSameName(a: seq<string>, b: seq<string>, values: seq<Value>, i: nat)
    requires |a| == |b| == |values| && NoDuplicates(a) && NoDuplicates(b) && Zip(a, values) == Zip(b, values)
    requires AllDifferent(values) && i < |a|
    ensures a[i] == b[i]
  {
    var m := Zip(a, values);
    assert a[i] in m && m[a[i]] == values[i] by { ZipAt(a, values); }
    var j: nat :| j < |b| && b[j] == a[i] by { ZipAt(b, values); assert a[i] in b; }
    assert m[b[j]] == values[j] by { ZipAt(b, values); }
  }

  function Numbered(n: nat): (r: seq<Value>)
    ensures |r| == n && forall i :: 0 <= i < n ==> r[i] == Datum(i)
  {
    seq(n, i => Datum(i))
  }

  lemma NamesAreDistinct(handler: Handler)
    requires handler.Wellformed()
    ensures NoDuplicates(Names(handler.params))
  {
  }

  lemma OwnNamesFollow(handler: Handler, thing: Value, k: nat)
    requires handler.Wellformed() && k <= |handler.Own()|
    ensures var off, names := |Before(handler, thing)|, Names(handler.params);
      off + k <= |names| && names[..off + k] == names[..off] + Names(handler.Own())[..k]
  {
    var off, names, own := |Before(handler, thing)|, Names(handler.params), Names(handler.Own())[..k];
    assert forall i :: 0 <= i < k ==> own[i] == names[off + i];
  }

  lemma PrefixesAreDistinct(names: seq<string>, n: nat)
    requires NoDuplicates(names) && n <= |names|
    ensures NoDuplicates(names[..n])
  {
  }

  /** The names of all parameters, in terms of those a caller sees. */
  lemma OwnNames(handler: Handler, thing: Value, k: nat)
    requires handler.Wellformed() && k <= |handler.Own()|
    ensures var off, names, own := |Before(handler, thing)|, Names(handler.params), Names(handler.Own())[..k];
      && off + k <= |names| && names[..off + k] == names[..off] + own
      && NoDuplicates(names[..off] + own) && NoDuplicates(own)
      && (handler.isMethod ==> handler.params[0].name !in own)
  {
    var off, names, own := |Before(handler, thing)|, Names(handler.params), Names(handler.Own())[..k];
    NamesAreDistinct(handler);
    OwnNamesFollow(handler, thing, k);
    PrefixesAreDistinct(names, off + k);
    DistinctParts(names[..off], own);
    assert handler.isMethod ==> names[..off][0] == handler.params[0].name;
  }

  /** What a handler finds when a value is passed for each property by position. */
  lemma AllByPosition(handler: Handler, thing: Value, args: seq<Value>)
    requires handler.Wellformed()
    requires CallHandler(handler, thing, args, map[]).Some? && CallHandler(handler, thing, args, map[]).value.rest == []
    ensures |args| <= |handler.Own()|
    ensures forall i :: 0 <= i < |args| ==> handler.Own()[i].kind.IsPositional()
    ensures NoDuplicates(Names(handler.Own())[..|args|])
    ensures Received(handler, CallHandler(handler, thing, args, map[]).value) ==
      Zip(Names(handler.Own())[..|args|], args)
  {
    BindsByPosition(handler.params, Before(handler, thing) + args);
    OwnKinds(handler, thing, |args|);
    OwnNames(handler, thing, |args|);
    PositionalPart(handler, thing, args);
    ReceivedByPosition(handler, thing, args);
  }

  lemma OwnKinds(handler: Handler, thing: Value, k: nat)
    requires handler.Wellformed() && |Before(handler, thing)| + k <= Positionals(handler.params)
    ensures k <= |handler.Own()| && forall i :: 0 <= i < k ==> handler.Own()[i].kind.IsPositional()
  {
    forall i | 0 <= i < k ensures handler.Own()[i].kind.IsPositional() {
      assert handler.Own()[i] == handler.params[|Before(handler, thing)| + i];
    }
  }

  lemma ReceivedByPosition(handler: Handler, thing: Value, args: seq<Value>)
    requires |args| <= |handler.Own()| && (handler.isMethod ==> handler.params != [])
    requires NoDuplicates(Names(handler.Own())[..|args|])
    requires handler.isMethod ==> handler.params[0].name !in Names(handler.Own())[..|args|]
    ensures var given := Zip(Names(handler.Own())[..|args|], args);
      Received(handler, Bound(OwnSlot(handler, thing) + given, [], map[])) == given
  {
    ZipKeysOnly(Names(handler.Own())[..|args|], args);
    OnlyOwnIsDropped(handler, thing, Zip(Names(handler.Own())[..|args|], args));
  }

  lemma PositionalPart(handler: Handler, thing: Value, args: seq<Value>)
    requires handler.Wellformed() && |args| <= |handler.Own()|
    ensures var all := Before(handler, thing) + args;
      && |all| <= |handler.params|
      && Zip(Names(handler.params)[..|all|], all) ==
           OwnSlot(handler, thing) + Zip(Names(handler.Own())[..|args|], args)
  {
    OwnNames(handler, thing, |args|);
    ZipInTwo(Names(handler.params), Names(handler.Own())[..|args|], Before(handler, thing), args);
    OwnSlotIsFirst(handler, thing);
  }

  lemma ZipInTwo(names: seq<string>, own: seq<string>, first: seq<Value>, args: seq<Value>)
    requires |own| == |args| && |first| + |args| <= |names|
    requires names[..|first| + |args|] == names[..|first|] + own && NoDuplicates(names[..|first|] + own)
    ensures Zip(names[..|first + args|], first + args) == Zip(names[..|first|], first) + Zip(own, args)
  {
    ZipConcat(names[..|first|], own, first, args);
  }

  lemma ZipKeysOnly(names: seq<string>, values: seq<Value>)
    requires |names| == |values| && NoDuplicates(names)
    ensures forall k :: k in Zip(names, values) ==> k in names
  {
    ZipAt(names, values);
  }

  /** A handler that agrees on one call with a different value for each property has them in the same order. */
  lemma AgreementNeedsOrder(handler: Handler, schema: Schema, thing: Value, args: seq<Value>)
    requires handler.Wellformed() && schema.Wellformed() && |args| == |schema.Fields()| && AllDifferent(args)
    requires Merged(schema, args, map[]) == Ok(Zip(schema.Fields(), args))
    requires Agrees(handler, schema, thing, args, map[])
    ensures |args| <= |handler.Own()| && Names(handler.Own())[..|args|] == schema.Fields()
    ensures forall i :: 0 <= i < |args| ==> handler.Own()[i].kind.IsPositional()
  {
    AllByPosition(handler, thing, args);
    var own, fields := Names(handler.Own())[..|args|], schema.Fields();
    forall i | 0 <= i < |fields| ensures own[i] == fields[i] {
      SameZipSameName(fields, own, args, i);
    }
  }

  lemma AgreementNeedsLeading(handler: Handler, schema: Schema, thing: Value, args: seq<Value>,
                              without: string -> Arguments)
    requires handler.Wellformed() && Discerning(schema, args, without) && AllAgree(handler, schema, thing)
    requires !Takes(handler.Own(), PositionalOnly)
    ensures Leading(handler, schema)
  {
    assert Agrees(handler, schema, thing, args, map[]);
    AllByName(schema, args);
    AgreementNeedsOrder(handler, schema, thing, args);
    SameOrderLeads(handler, schema);
  }

  lemma AgreementNeedsNoSelf(handler: Handler, schema: Schema, thing: Value, args: seq<Value>,
                             without: string -> Arguments)
    requires Discerning(schema, args, without) && AllAgree(handler, schema, thing)
    ensures "self" !in schema.Fields()
  {
    var named := Zip(schema.Fields(), args);
    AllByName(schema, args);
    ZipAt(schema.Fields(), args);
    assert Agrees(handler, schema, thing, [], named);
    assert "self" !in named;
  }

  lemma SameOrderLeads(handler: Handler, schema: Schema)
    requires !Takes(handler.Own(), PositionalOnly)
    requires |schema.Fields()| <= |handler.Own()| && Names(handler.Own())[..|schema.Fields()|] == schema.Fields()
    requires forall i :: 0 <= i < |schema.Fields()| ==> handler.Own()[i].kind.IsPositional()
    ensures Leading(handler, schema)
  {
    forall i | 0 <= i < |schema.Fields()|
      ensures handler.Own()[i].kind == PositionalOrKeyword && handler.Own()[i].name == schema.Fields()[i]
    {
      assert Names(handler.Own())[..|schema.Fields()|][i] == handler.Own()[i].name;
    }
  }

  lemma NoPositionalOnly(handler: Handler, schema: Schema, p: Parameter)
    requires p in handler.Own() && schema.IsObject() && Mismatches(handler, schema) == {}
    ensures p.kind != PositionalOnly
  {
    CheckedMembers(handler.Own());
    assert p.kind == PositionalOnly ==> PositionalOnlyParameter(p.name) in Mismatches(handler, schema);
  }

  /** Values for all properties but one. */
  function AllBut(schema: Schema): string -> Arguments {
    (f: string) => map k | k in schema.Fields() && k != f :: Null
  }

  lemma AllButIsAccepted(schema: Schema, f: string)
    requires OnlyNames(schema) && f !in schema.required
    ensures f !in AllBut(schema)(f) && CallAccepted(schema, [], AllBut(schema)(f))
  {
  }

  lemma AllByPositionIsAccepted(schema: Schema, args: seq<Value>)
    requires OnlyNames(schema) && |args| == |schema.Fields()|
    ensures CallAccepted(schema, args, map[])
  {
    AllByName(schema, args);
    ZipAt(schema.Fields(), args);
    assert CallAccepted(schema, [], Zip(schema.Fields(), args));
  }

  /** A schema that only names its properties is discerning. */
  lemma NamesAloneDiscern(schema: Schema)
    requires OnlyNames(schema)
    ensures Discerning(schema, Numbered(|schema.Fields()|), AllBut(schema))
  {
    AllByPositionIsAccepted(schema, Numbered(|schema.Fields()|));
    forall f | f in schema.Fields() && f !in schema.required
      ensures f !in AllBut(schema)(f) && CallAccepted(schema, [], AllBut(schema)(f))
    {
      AllButIsAccepted(schema, f);
    }
  }

  /** For a handler without positional-only parameters and a schema that forbids other keys and can tell its
      properties apart, all accepted calls agree exactly when the properties in order are the leading parameters,
      the schema requires every parameter without a default, and no property is called `self`. */
  lemma AgreementExactly(handler: Handler, schema: Schema, thing: Value, args: seq<Value>, without: string -> Arguments)
    requires handler.Wellformed() && Discerning(schema, args, without) && !Takes(handler.Own(), PositionalOnly)
    ensures AllAgree(handler, schema, thing) <==>
      Leading(handler, schema) && Covers(handler, schema) && "self" !in schema.Fields()
  {
    if AllAgree(handler, schema, thing) {
      AgreementNeedsCovers(handler, schema, thing, args, without);
      AgreementNeedsLeading(handler, schema, thing, args, without);
      AgreementNeedsNoSelf(handler, schema, thing, args, without);
    }
    if Leading(handler, schema) && Covers(handler, schema) && "self" !in schema.Fields() {
      forall given, named | CallAccepted(schema, given, named)
        ensures Agrees(handler, schema, thing, given, named)
      {
        AcceptedCallsAgree(handler, schema, thing, given, named);
        KeywordsAreFields(schema, given, named);
      }
    }
  }

  /** Handlers that pass `check_input_signature` are among them, so these are the conditions it should look at. */
  lemma PassedTakesNoPositionalOnly(handler: Handler, schema: Schema)
    requires schema.IsObject() && Mismatches(handler, schema) == {}
    ensures !Takes(handler.Own(), PositionalOnly)
  {
    forall i | 0 <= i < |handler.Own()| ensures handler.Own()[i].kind != PositionalOnly {
      NoPositionalOnly(handler, schema, handler.Own()[i]);
    }
  }

  function TwoParameters(): Handler {
    Handler([SELF, Parameter("a", PositionalOrKeyword, false), Parameter("b", PositionalOrKeyword, false)], true)
  }

  /** An object schema that only names its properties. */
  function Naming(properties: seq<string>, required: seq<string>): Schema {
    Schema(true, Some(properties), required, Forbidden,
           (k: string, v: Value) => true, (m: Arguments) => true, (v: Value) => true)
  }

  lemma TwoOwnParameters()
    ensures TwoParameters().Wellformed()
    ensures var own := TwoParameters().Own();
      && CheckedParameters(own) == own && |own| == 2 && own[0].name == "a" && own[1].name == "b"
      && (forall i :: 0 <= i < |own| ==> Mandatory(own[i]) && own[i].kind == PositionalOrKeyword)
  {
    var a, b := Parameter("a", PositionalOrKeyword, false), Parameter("b", PositionalOrKeyword, false);
    assert TwoParameters().Own() == [a, b] && [a, b][1..] == [b];
    assert [b][1..] == [];
    assert CheckedParameters([b]) == [b];
    assert CheckedParameters([a, b]) == [a, b];
  }

  lemma TwoNamed()
    ensures Named(TwoParameters().Own()) == {"a", "b"}
  {
    TwoOwnParameters();
    NamedAt(TwoParameters().Own(), 0);
    NamedAt(TwoParameters().Own(), 1);
  }

  lemma OnlyNamesProperties(properties: seq<string>, required: seq<string>)
    requires NoDuplicates(properties) && forall i :: 0 <= i < |required| ==> required[i] in properties
    ensures OnlyNames(Naming(properties, required))
  {
  }

  lemma PassesTheCheck(schema: Schema)
    requires schema.IsObject() && schema.additional.Forbidden?
    requires "a" in schema.Fields() && "b" in schema.Fields()
    requires forall n :: n in schema.Fields() || n in schema.required ==> n == "a" || n == "b"
    ensures Mismatches(TwoParameters(), schema) == {}
  {
    TwoOwnParameters();
    TwoNamed();
  }

  /** The check lets through a schema with the properties in another order ... */
  lemma OrderIsNotChecked(thing: Value)
    ensures var schema := Naming(["b", "a"], ["a", "b"]);
      && TwoParameters().Wellformed() && OnlyNames(schema) && Mismatches(TwoParameters(), schema) == {}
      && !AllAgree(TwoParameters(), schema, thing)
  {
    var schema := Naming(["b", "a"], ["a", "b"]);
    TwoOwnParameters();
    OnlyNamesProperties(["b", "a"], ["a", "b"]);
    PassesTheCheck(schema);
    NamesAloneDiscern(schema);
    PassedTakesNoPositionalOnly(TwoParameters(), schema);
    AgreementExactly(TwoParameters(), schema, thing, Numbered(2), AllBut(schema));
    assert TwoParameters().Own()[0].name == "a" && schema.Fields()[0] == "b";
  }

  /** ... and one that does not require them; either way some accepted call does not reach the handler as it was
      validated. */
  lemma RequiredIsNotChecked(thing: Value)
    ensures var schema := Naming(["a", "b"], []);
      && TwoParameters().Wellformed() && OnlyNames(schema) && Mismatches(TwoParameters(), schema) == {}
      && !AllAgree(TwoParameters(), schema, thing)
  {
    var schema := Naming(["a", "b"], []);
    TwoOwnParameters();
    OnlyNamesProperties(["a", "b"], []);
    PassesTheCheck(schema);
    NamesAloneDiscern(schema);
    PassedTakesNoPositionalOnly(TwoParameters(), schema);
    AgreementExactly(TwoParameters(), schema, thing, Numbered(2), AllBut(schema));
    assert Mandatory(TwoParameters().Own()[0]) && TwoParameters().Own()[0].name !in schema.required;
  }

  /** The parameter of the object itself, if it can be named in a call. */
  ghost predicate NamesTheObject(handler: Handler, k: string) {
    handler.isMethod && handler.params != [] && handler.params[0].kind.IsNamed() && handler.params[0].name == k
  }

  /** Calls by keyword need no order. Once the schema requires every parameter without a default, an accepted one
      agrees exactly if no key is `self` or names the object, and each names a parameter if there is no **kwargs;
      and a schema that says anything about additional properties sees to the last by itself. */
  lemma KeywordCallsAgree(handler: Handler, schema: Schema, thing: Value, kwargs: Arguments)
    requires handler.Wellformed() && schema.Wellformed() && schema.IsObject()
    requires Mismatches(handler, schema) == {} && Covers(handler, schema)
    requires CallAccepted(schema, [], kwargs)
    ensures Agrees(handler, schema, thing, [], kwargs) <==>
      && "self" !in kwargs && (forall k :: k in kwargs ==> !NamesTheObject(handler, k))
      && (forall k :: k in kwargs ==> k in Named(handler.params) || Takes(handler.params, VarKeyword))
    ensures !schema.additional.Unspecified? ==>
      forall k :: k in kwargs ==> k in Named(handler.params) || Takes(handler.params, VarKeyword)
  {
    if !schema.additional.Unspecified? {
      forall k | k in kwargs ensures k in Named(handler.params) || Takes(handler.params, VarKeyword) {
        KeyIsTaken(handler, schema, kwargs, k);
      }
    }
    MergedAlone(schema, kwargs);
    if "self" !in kwargs {
      KeywordsBind(handler, schema, thing, kwargs);
      if CallHandler(handler, thing, [], kwargs).Some? {
        SplitIsWhole(handler, thing, kwargs, Named(handler.params));
      }
    }
  }

  lemma KeyIsTaken(handler: Handler, schema: Schema, kwargs: Arguments, k: string)
    requires schema.IsObject() && Mismatches(handler, schema) == {} && !schema.additional.Unspecified?
    requires CallAccepted(schema, [], kwargs) && k in kwargs
    ensures k in Named(handler.params) || Takes(handler.params, VarKeyword)
  {
    if k in schema.Fields() {
      PropertyIsTaken(handler, schema, k);
    } else {
      assert AdditionalNeedsKwargs !in Mismatches(handler, schema);
      CheckedTakeKeywords(handler);
    }
  }

  lemma CheckedTakeKeywords(handler: Handler)
    ensures Takes(CheckedParameters(handler.Own()), VarKeyword) ==> Takes(handler.params, VarKeyword)
  {
    var checked := CheckedParameters(handler.Own());
    CheckedMembers(handler.Own());
    assert forall p :: p in checked ==> p in handler.params;
    if Takes(checked, VarKeyword) {
      var j :| 0 <= j < |checked| && checked[j].kind == VarKeyword;
      assert checked[j] in handler.params;
    }
  }

  lemma MergedAlone(schema: Schema, kwargs: Arguments)
    requires schema.IsObject()
    ensures Merged(schema, [], kwargs) == Ok(kwargs)
  {
    assert schema.Fields()[..0] == [] && map[] + kwargs == kwargs;
  }

  lemma KeywordsBind(handler: Handler, schema: Schema, thing: Value, kwargs: Arguments)
    requires handler.Wellformed() && schema.IsObject() && Mismatches(handler, schema) == {}
    requires Covers(handler, schema) && forall i :: 0 <= i < |schema.required| ==> schema.required[i] in kwargs
    requires "self" !in kwargs
    ensures var named := Named(handler.params);
      CallHandler(handler, thing, [], kwargs) ==
        if forall k :: k in kwargs ==>
             !NamesTheObject(handler, k) && (k in named || Takes(handler.params, VarKeyword))
        then Some(Bound(OwnSlot(handler, thing) + Only(kwargs, named), [], kwargs - named))
        else None
  {
    var params, own := handler.params, OwnSlot(handler, thing);
    OwnNameTaken(handler, thing);
    OwnFillsFirst(handler, thing);
    forall i | 0 <= i < |params| && Mandatory(params[i])
      ensures params[i].name in own || (params[i].name in kwargs && params[i].name in Named(params))
    {
      OwnParameters(handler, thing, i);
      if params[i] in handler.Own() {
        NoPositionalOnly(handler, schema, params[i]);
        NamedAt(params, i);
      }
    }
    assert Before(handler, thing) + [] == Before(handler, thing);
    if forall k :: k in kwargs ==> !NamesTheObject(handler, k) && (k in Named(params) || Takes(params, VarKeyword)) {
      BindsByKeyword(params, Before(handler, thing), kwargs, own);
    } else {
      var k :| k in kwargs && (NamesTheObject(handler, k) || !(k in Named(params) || Takes(params, VarKeyword)));
      KeywordRefused(params, Before(handler, thing), kwargs, own, k);
    }
  }

  lemma OwnNameTaken(handler: Handler, thing: Value)
    requires handler.Wellformed()
    ensures forall k :: NamesTheObject(handler, k) <==> k in OwnSlot(handler, thing) && k in Named(handler.params)
  {
    if handler.isMethod && handler.params[0].kind.IsNamed() {
      NamedAt(handler.params, 0);
    }
  }

  lemma OwnFillsFirst(handler: Handler, thing: Value)
    requires handler.Wellformed()
    ensures |Before(handler, thing)| <= Positionals(handler.params)
    ensures OwnSlot(handler, thing) == Zip(Names(handler.params)[..|Before(handler, thing)|], Before(handler, thing))
  {
    if handler.isMethod {
      PositionalsReach(handler.params, 1);
    }
    OwnSlotIsFirst(handler, thing);
  }

  lemma SplitIsWhole(handler: Handler, thing: Value, kwargs: Arguments, named: set<string>)
    requires handler.isMethod && handler.params != [] && handler.params[0].name in kwargs ==>
      handler.params[0].name !in named
    ensures Received(handler, Bound(OwnSlot(handler, thing) + Only(kwargs, named), [], kwargs - named)) == kwargs
  {
  }

  lemma PropertyIsTaken(handler: Handler, schema: Schema, k: string)
    requires schema.IsObject() && Mismatches(handler, schema) == {} && k in schema.Fields()
    ensures k in Named(handler.params) || Takes(handler.params, VarKeyword)
  {
    var checked := CheckedParameters(handler.Own());
    CheckedMembers(handler.Own());
    assert forall p :: p in checked ==> p in handler.params;
    if k in Named(checked) {
      var j :| 0 <= j < |checked| && checked[j].kind.IsNamed() && checked[j].name == k;
      assert checked[j] in handler.params;
    } else {
      assert PropertyNotAParameter(k) !in Mismatches(handler, schema);
      assert Takes(checked, VarKeyword);
      var j :| 0 <= j < |checked| && checked[j].kind == VarKeyword;
      assert checked[j] in handler.params;
    }
  }

  /** A parameter a key can be for: not the keyword-only `request`. */
  ghost predicate ForKey(p: Parameter, n: string) {
    p.name == n && (p.kind == PositionalOrKeyword || (p.kind == KeywordOnly && n != "request"))
  }

  lemma CheckedNamed(handler: Handler)
    ensures forall n :: n in Named(CheckedParameters(handler.Own())) <==> exists p :: p in handler.Own() && ForKey(p, n)
  {
    var checked := CheckedParameters(handler.Own());
    CheckedMembers(handler.Own());
    forall n ensures n in Named(checked) <==> exists p :: p in handler.Own() && ForKey(p, n) {
      if n in Named(checked) {
        var j :| 0 <= j < |checked| && checked[j].kind.IsNamed() && checked[j].name == n;
        assert checked[j] in checked;
        assert ForKey(checked[j], n);
      }
      if p :| p in handler.Own() && ForKey(p, n) {
        var j :| 0 <= j < |checked| && checked[j] == p;
        NamedAt(checked, j);
      }
    }
  }

  lemma CheckedTakesAll(handler: Handler)
    ensures Takes(CheckedParameters(handler.Own()), VarKeyword) <==>
      exists p :: p in handler.Own() && p.kind == VarKeyword
  {
    var checked := CheckedParameters(handler.Own());
    CheckedMembers(handler.Own());
    if p :| p in handler.Own() && p.kind == VarKeyword {
      assert p in checked;
    }
  }

  /** What each mismatch is about. */
  lemma FoundMeans(handler: Handler, schema: Schema, m: Mismatch)
    requires schema.IsObject()
    ensures var checked := CheckedParameters(handler.Own());
      m in Mismatches(handler, schema) <==>
        match m
        case SingleValueArity => false
        case PositionalOnlyParameter(n) => exists p :: p in checked && p.kind == PositionalOnly && p.name == n
        case RequiredNotInInput(n) =>
          n in Named(checked) && n !in schema.Fields() && exists p :: p in checked && p.name == n && !p.hasDefault
        case PropertyNotAParameter(n) =>
          !Takes(checked, VarKeyword) && n !in Named(checked) && (n in schema.Fields() || n in schema.required)
        case AdditionalNeedsKwargs => schema.additional.Permitted? && !Takes(checked, VarKeyword)
  {
  }

  /** What the check asks of a handler for an object schema, in terms of the parameters that can be keys. */
  ghost predicate Suits(handler: Handler, schema: Schema) {
    var checked := CheckedParameters(handler.Own());
    && (forall p :: p in checked ==> p.kind != PositionalOnly)
    && (forall p :: p in checked && p.name in Named(checked) && !p.hasDefault ==> p.name in schema.Fields())
    && (Takes(checked, VarKeyword) ||
         forall n :: n in schema.Fields() || n in schema.required ==> n in Named(checked))
    && (schema.additional.Permitted? ==> Takes(checked, VarKeyword))
  }

  lemma SuitsExactly(handler: Handler, schema: Schema)
    requires schema.IsObject()
    ensures Mismatches(handler, schema) == {} <==> Suits(handler, schema)
  {
    var checked := CheckedParameters(handler.Own());
    if Suits(handler, schema) {
      if m :| m in Mismatches(handler, schema) {
        FoundMeans(handler, schema, m);
      }
    } else if p :| p in checked && p.kind == PositionalOnly {
      FoundMeans(handler, schema, PositionalOnlyParameter(p.name));
    } else if p :| p in checked && p.name in Named(checked) && !p.hasDefault && p.name !in schema.Fields() {
      FoundMeans(handler, schema, RequiredNotInInput(p.name));
    } else if schema.additional.Permitted? && !Takes(checked, VarKeyword) {
      FoundMeans(handler, schema, AdditionalNeedsKwargs);
    } else {
      var n :| (n in schema.Fields() || n in schema.required) && n !in Named(checked);
      FoundMeans(handler, schema, PropertyNotAParameter(n));
    }
  }

  /** In the handler's own terms: no positional-only parameter, all that are mandatory among the properties, a
      parameter for each key or **kwargs, and **kwargs for additional keys. */
  lemma PassesExactly(handler: Handler, schema: Schema)
    requires handler.Wellformed() && (schema.typeIsObject || schema.properties.Some?)
    ensures var all := exists p :: p in handler.Own() && p.kind == VarKeyword;
      var isKey := (n: string) => exists p :: p in handler.Own() && ForKey(p, n);
      Mismatches(handler, schema) == {} <==>
        && (forall p :: p in handler.Own() ==> p.kind != PositionalOnly)
        && (forall p :: p in handler.Own() && ForKey(p, p.name) && !p.hasDefault ==> p.name in schema.Fields())
        && (all || forall n :: n in schema.Fields() || n in schema.required ==> isKey(n))
        && (schema.additional.Permitted? ==> all)
  {
    CheckedMembers(handler.Own());
    CheckedNamed(handler);
    CheckedTakesAll(handler);
    forall p, q | p in handler.Own() && q in handler.Own() && p.name == q.name ensures p == q {
      OwnIsOrdered(handler);
    }
    SuitsExactly(handler, schema);
  }

  /** A handler that passes can be called with all properties by name, unless that insists on a `request` or a
      property is called `self` or like the object's own parameter. */
  lemma PassedCanBeCalled(handler: Handler, schema: Schema, thing: Value, kwargs: Arguments)
    requires handler.Wellformed() && schema.IsObject() && Mismatches(handler, schema) == {}
    requires kwargs.Keys == set f | f in schema.Fields()
    requires "self" !in kwargs && !NeedsRequest(handler) && forall k :: k in kwargs ==> !NamesTheObject(handler, k)
    ensures CallHandler(handler, thing, [], kwargs).Some?
  {
    var params, own := handler.params, OwnSlot(handler, thing);
    OwnNameTaken(handler, thing);
    OwnFillsFirst(handler, thing);
    forall k | k in kwargs ensures k in Named(params) || Takes(params, VarKeyword) {
      PropertyIsTaken(handler, schema, k);
    }
    forall i | 0 <= i < |params| && Mandatory(params[i])
      ensures params[i].name in own || (params[i].name in kwargs && params[i].name in Named(params))
    {
      OwnParameters(handler, thing, i);
      if params[i] in handler.Own() {
        MandatoryIsProperty(handler, schema, params[i]);
        NamedAt(params, i);
      }
    }
    assert Before(handler, thing) + [] == Before(handler, thing);
    BindsByKeyword(params, Before(handler, thing), kwargs, own);
  }

  lemma MandatoryIsProperty(handler: Handler, schema: Schema, p: Parameter)
    requires schema.IsObject() && Mismatches(handler, schema) == {} && !NeedsRequest(handler)
    requires p in handler.Own() && Mandatory(p)
    ensures p.kind.IsNamed() && p.name in schema.Fields()
  {
    var checked := CheckedParameters(handler.Own());
    CheckedMembers(handler.Own());
    NoPositionalOnly(handler, schema, p);
    assert Checked(p);
    var j :| 0 <= j < |checked| && checked[j] == p;
    NamedAt(checked, j);
    assert RequiredNotInInput(p.name) !in Mismatches(handler, schema);
  }

  // ----- Inputs that are a single value ----------------------------------------------------------------

  /** A keyword-only `request`, which the check passes over. */
  ghost predicate TakesRequest(handler: Handler) {
    exists r :: r in handler.Own() && !Checked(r)
  }

  ghost predicate NeedsRequest(handler: Handler) {
    exists r :: r in handler.Own() && !Checked(r) && Mandatory(r)
  }

  /** For any other schema one value is let through, by position or under any keyword. By position it reaches
      the handler unless that insists on a `request`; by keyword only if the keyword names the parameter, and that
      can be named and is not called `self`, or if it is `request` and the parameter itself may be left out. */
  lemma SingleValueBinds(handler: Handler, schema: Schema, thing: Value, p: Parameter, args: seq<Value>,
                         kwargs: Arguments)
    requires handler.Wellformed() && CheckedParameters(handler.Own()) == [p]
    requires !schema.IsObject() && Mismatches(handler, schema) == {}
    requires CallAccepted(schema, args, kwargs)
    ensures CallHandler(handler, thing, args, kwargs).Some? <==>
      if |args| == 1 then !NeedsRequest(handler)
      else if "request" in kwargs && TakesRequest(handler) then !Mandatory(p)
      else p.kind == PositionalOrKeyword && p.name != "self" && p.name in kwargs && !NeedsRequest(handler)
    ensures |args| == 0 && CallHandler(handler, thing, args, kwargs).Some? ==>
      var b := CallHandler(handler, thing, args, kwargs).value;
      b.rest == [] && Received(handler, b) == kwargs
    ensures |args| == 1 && !NeedsRequest(handler) ==>
      var b := CallHandler(handler, thing, args, kwargs).value;
      if p.kind == VarPositional then b.rest == args else Received(handler, b) == map[p.name := args[0]]
  {
    var r := SingleShape(handler, schema, p);
    if |args| == 1 {
      assert kwargs == map[];
      assert args == [args[0]];
      SingleByPosition(handler, thing, p, r, args[0]);
    } else {
      assert args == [] && |kwargs| == 1;
      var k :| k in kwargs;
      assert |kwargs.Keys - {k}| == 0;
      assert kwargs == map[k := kwargs[k]];
      SingleByKeyword(handler, thing, p, r, k, kwargs[k]);
      if CallHandler(handler, thing, args, kwargs).Some? {
        SingleKeywordArrives(handler, thing, p, r, k, kwargs[k]);
      }
    }
  }

  /** The parameters of such a handler: the one that is checked, and perhaps a `request`. */
  ghost predicate SingleOwn(handler: Handler, p: Parameter, r: Option<Parameter>) {
    && handler.Wellformed()
    && (p.kind.IsPositional() || p.kind == VarPositional)
    && handler.Own() == [p] + (if r.Some? then [r.value] else [])
    && (r.Some? ==> !Checked(r.value))
  }

  lemma SingleShape(handler: Handler, schema: Schema, p: Parameter) returns (r: Option<Parameter>)
    requires handler.Wellformed() && CheckedParameters(handler.Own()) == [p]
    requires !schema.IsObject() && Mismatches(handler, schema) == {}
    ensures SingleOwn(handler, p, r)
    ensures NeedsRequest(handler) <==> r.Some? && Mandatory(r.value)
    ensures TakesRequest(handler) <==> r.Some?
  {
    assert SingleValueArity !in Mismatches(handler, schema);
    OwnIsOrdered(handler);
    FirstIsChecked(handler.Own(), p);
    AtMostOneMore(handler.Own());
    r := if |handler.Own()| > 1 then Some(handler.Own()[1]) else None;
  }

  /** Of parameters with different names, only one can be a `request`. */
  lemma AtMostOneMore(own: seq<Parameter>)
    requires own != [] && CheckedParameters(own[1..]) == []
    requires forall i, j :: 0 <= i < j < |own| ==> own[i].name != own[j].name
    ensures |own| <= 2 && (|own| == 2 ==> !Checked(own[1]))
  {
    NoneChecked(own[1..]);
    if |own| > 1 {
      assert own[1..][0] == own[1] && own[1..][|own| - 2] == own[|own| - 1];
    }
  }

  lemma OwnIsOrdered(handler: Handler)
    requires handler.Wellformed()
    ensures var own := handler.Own(); forall i, j :: 0 <= i < j < |own| ==>
      own[i].name != own[j].name && own[i].kind.Rank() <= own[j].kind.Rank()
  {
  }

  /** A `request` cannot come before the parameter that is checked. */
  lemma FirstIsChecked(own: seq<Parameter>, p: Parameter)
    requires CheckedParameters(own) == [p] && (p.kind.IsPositional() || p.kind == VarPositional)
    requires forall i, j :: 0 <= i < j < |own| ==> own[i].kind.Rank() <= own[j].kind.Rank()
    ensures own != [] && own[0] == p && CheckedParameters(own[1..]) == []
  {
    CheckedMembers(own);
    assert p in CheckedParameters(own);
    var i :| 0 <= i < |own| && own[i] == p;
    assert own[0].kind.Rank() <= own[i].kind.Rank();
  }

  lemma NoneChecked(params: seq<Parameter>)
    requires CheckedParameters(params) == []
    ensures forall i :: 0 <= i < |params| ==> !Checked(params[i])
  {
    CheckedMembers(params);
  }

  /** All parameters of such a handler, in terms of these. */
  lemma SingleParameters(handler: Handler, thing: Value, p: Parameter, r: Option<Parameter>)
    requires SingleOwn(handler, p, r)
    ensures var params, off := handler.params, |Before(handler, thing)|;
      && off < |params| == off + |handler.Own()|
      && params[off] == p && (r.Some? ==> params[off + 1] == r.value)
      && p.name !in OwnSlot(handler, thing)
      && (r.Some? ==> r.value.name == "request" && "request" !in OwnSlot(handler, thing) && p.name != "request")
  {
    var params, off := handler.params, |Before(handler, thing)|;
    assert handler.Own()[0] == params[off];
    assert r.Some? ==> handler.Own()[1] == params[off + 1];
  }

  lemma SingleTakes(handler: Handler, thing: Value, p: Parameter, r: Option<Parameter>)
    requires SingleOwn(handler, p, r)
    ensures var params, off := handler.params, |Before(handler, thing)|;
      && Positionals(params) == (if p.kind.IsPositional() then off + 1 else off)
      && (Takes(params, VarPositional) <==> p.kind == VarPositional) && !Takes(params, VarKeyword)
  {
    SingleParameters(handler, thing, p, r);
    var params, off := handler.params, |Before(handler, thing)|;
    PositionalsReach(params, if p.kind.IsPositional() then off + 1 else off);
    assert params[off].kind == p.kind;
  }

  lemma SingleNamed(handler: Handler, thing: Value, p: Parameter, r: Option<Parameter>, k: string)
    requires SingleOwn(handler, p, r) && k !in OwnSlot(handler, thing)
    ensures k in Named(handler.params) <==>
      (p.kind == PositionalOrKeyword && k == p.name) || (r.Some? && k == "request")
  {
    SingleParameters(handler, thing, p, r);
  }

  lemma SingleFilled(handler: Handler, thing: Value, p: Parameter, r: Option<Parameter>, slots: Arguments)
    requires SingleOwn(handler, p, r) && OwnSlot(handler, thing).Keys <= slots.Keys
    ensures AllFilled(handler.params, slots) <==>
      (Mandatory(p) ==> p.name in slots) && (r.Some? && Mandatory(r.value) ==> "request" in slots)
  {
    SingleParameters(handler, thing, p, r);
  }

  lemma SingleByPosition(handler: Handler, thing: Value, p: Parameter, r: Option<Parameter>, v: Value)
    requires SingleOwn(handler, p, r)
    ensures CallHandler(handler, thing, [v], map[]).Some? <==> r.None? || !Mandatory(r.value)
    ensures CallHandler(handler, thing, [v], map[]).Some? ==>
      var b := CallHandler(handler, thing, [v], map[]).value;
      if p.kind == VarPositional then b.rest == [v] else Received(handler, b) == map[p.name := v]
  {
    SingleParameters(handler, thing, p, r);
    SingleTakes(handler, thing, p, r);
    var all, off := Before(handler, thing) + [v], |Before(handler, thing)|;
    PositionalCall(handler.params, all);
    if p.kind.IsPositional() {
      var given: Arguments := map[p.name := v];
      assert all[..off + 1] == all && all[off + 1..] == [];
      SinglePart(handler, thing, p, v);
      SingleFilled(handler, thing, p, r, OwnSlot(handler, thing) + given);
      OnlyOwnIsDropped(handler, thing, given);
    } else {
      assert all[..off] == Before(handler, thing) && all[off..] == [v];
      OwnSlotIsFirst(handler, thing);
      SingleFilled(handler, thing, p, r, OwnSlot(handler, thing));
    }
  }

  lemma SinglePart(handler: Handler, thing: Value, p: Parameter, v: Value)
    requires handler.Wellformed() && handler.Own() != [] && handler.Own()[0] == p
    ensures var all := Before(handler, thing) + [v];
      && |all| <= |handler.params|
      && Zip(Names(handler.params)[..|all|], all) == OwnSlot(handler, thing) + map[p.name := v]
  {
    PositionalPart(handler, thing, [v]);
    var names := Names(handler.Own())[..1];
    assert names == [p.name];
    assert names[1..] == [];
    assert Zip(names, [v]) == map[p.name := v];
  }

  lemma SingleByKeyword(handler: Handler, thing: Value, p: Parameter, r: Option<Parameter>, k: string, v: Value)
    requires SingleOwn(handler, p, r)
    ensures CallHandler(handler, thing, [], map[k := v]).Some? <==>
      if k == "request" && r.Some? then !Mandatory(p)
      else p.kind == PositionalOrKeyword && k == p.name && k != "self" && (r.None? || !Mandatory(r.value))
  {
    SingleParameters(handler, thing, p, r);
    SingleKeywordCall(handler, thing, p, r, k, v);
    var own := OwnSlot(handler, thing);
    if k !in own {
      SingleNamed(handler, thing, p, r, k);
      SingleFilled(handler, thing, p, r, own[k := v]);
    }
  }

  lemma KeywordToHandler(handler: Handler, thing: Value, k: string, v: Value)
    requires k != "self"
    ensures CallHandler(handler, thing, [], map[k := v]) == Bind(handler.params, Before(handler, thing), map[k := v])
  {
    assert Before(handler, thing) + [] == Before(handler, thing);
  }

  lemma SingleKeywordCall(handler: Handler, thing: Value, p: Parameter, r: Option<Parameter>, k: string, v: Value)
    requires SingleOwn(handler, p, r)
    ensures var own, b := OwnSlot(handler, thing), CallHandler(handler, thing, [], map[k := v]);
      && (b.Some? <==>
            k != "self" && k in Named(handler.params) && k !in own && AllFilled(handler.params, own[k := v]))
      && (b.Some? ==> b.value == Bound(own + map[k := v], [], map[]))
  {
    if k != "self" {
      SingleTakes(handler, thing, p, r);
      OwnSlotIsFirst(handler, thing);
      KeywordCall(handler.params, Before(handler, thing), k, v);
      KeywordToHandler(handler, thing, k, v);
    }
  }

  lemma SingleKeywordArrives(handler: Handler, thing: Value, p: Parameter, r: Option<Parameter>, k: string, v: Value)
    requires SingleOwn(handler, p, r) && CallHandler(handler, thing, [], map[k := v]).Some?
    ensures var b := CallHandler(handler, thing, [], map[k := v]).value;
      b.rest == [] && Received(handler, b) == map[k := v]
  {
    SingleKeywordCall(handler, thing, p, r, k, v);
    OnlyOwnIsDropped(handler, thing, map[k := v]);
  }

  const ANY_VALUE := Schema(false, None, [], Unspecified,
                            (k: string, v: Value) => true, (m: Arguments) => true, (v: Value) => true)

  const VALUE := Parameter("value", PositionalOrKeyword, false)

  const REQUEST := Parameter("request", KeywordOnly, false)

  /** The check lets a handler through that does not get a value under a keyword that is not its parameter's ... */
  lemma KeywordLost(thing: Value, v: Value)
    ensures var handler := Handler([SELF, VALUE], true);
      && handler.Wellformed() && Mismatches(handler, ANY_VALUE) == {}
      && CallAccepted(ANY_VALUE, [], map["other" := v]) && CallHandler(handler, thing, [], map["other" := v]).None?
  {
    var handler := Handler([SELF, VALUE], true);
    assert handler.Own() == [VALUE] && [VALUE][1..] == [];
    assert CheckedParameters([VALUE]) == [VALUE];
    SingleByKeyword(handler, thing, VALUE, None, "other", v);
  }

  const ASKING := Handler([SELF, VALUE, REQUEST], true)

  lemma AskingIsChecked()
    ensures ASKING.Wellformed() && ASKING.Own() == [VALUE, REQUEST] && Mismatches(ASKING, ANY_VALUE) == {}
  {
    assert ASKING.Own() == [VALUE, REQUEST];
    assert [VALUE, REQUEST][1..] == [REQUEST];
    assert [REQUEST][1..] == [];
    assert CheckedParameters([REQUEST]) == [];
    assert CheckedParameters([VALUE, REQUEST]) == [VALUE];
  }

  /** ... and one that gets no value at all, as it insists on a `request`. */
  lemma RequestMissing(thing: Value, v: Value)
    ensures ASKING.Wellformed() && Mismatches(ASKING, ANY_VALUE) == {}
    ensures CallAccepted(ANY_VALUE, [v], map[]) && CallHandler(ASKING, thing, [v], map[]).None?
  {
    AskingIsChecked();
    SingleByPosition(ASKING, thing, VALUE, Some(REQUEST), v);
  }

  // ----- Calls from outside ------------------------------------------------------------------------------

  datatype CallError = PositionalToParameterized | WrongState | BadPayload | TypeError

  datatype BoundAction = BoundAction(
    handler: Handler,
    isParameterized: bool,
    hasInstance: bool,
    gate: Option<seq<string>>,
    schema: Option<Schema>)

  /** `BoundAction.validate_call`; nothing but the first test applies to an action called on the class. */
  function Refusal(a: BoundAction, current: string, args: seq<Value>, kwargs: Arguments): Option<CallError> {
    if a.isParameterized && args != [] then Some(PositionalToParameterized)
    else if !a.hasInstance then None
    else if !Gates.IsOpen(a.gate, current) then Some(WrongState)
    else if a.schema.Some? && !CallAccepted(a.schema.value, args, kwargs) then Some(BadPayload)
    else None
  }

  /** `BoundSyncAction.external_call`, up to the point where the handler runs. It is a method itself, so a client's
      `self` is refused before anything is validated. */
  function ExternalCall(a: BoundAction, current: string, thing: Value, args: seq<Value>, kwargs: Arguments)
    : Result<Bound, CallError>
  {
    if "self" in kwargs then Err(TypeError)
    else if Refusal(a, current, args, kwargs).Some? then Err(Refusal(a, current, args, kwargs).value)
    else if CallHandler(a.handler, thing, args, kwargs).None? then Err(TypeError)
    else Ok(CallHandler(a.handler, thing, args, kwargs).value)
  }

  /** What stands against a call, in the order in which it is found; an action called on the class knows no state
      and no schema. */
  lemma AnswersInOrder(a: BoundAction, current: string, thing: Value, args: seq<Value>, kwargs: Arguments)
    ensures var r := ExternalCall(a, current, thing, args, kwargs);
      var positional := a.isParameterized && args != [];
      var shut := a.hasInstance && a.gate.Some? && current !in a.gate.value;
      var bad := a.hasInstance && a.schema.Some? && !CallAccepted(a.schema.value, args, kwargs);
      var called := CallHandler(a.handler, thing, args, kwargs);
      && (r == Err(PositionalToParameterized) <==> "self" !in kwargs && positional)
      && (r == Err(WrongState) <==> "self" !in kwargs && !positional && shut)
      && (r == Err(BadPayload) <==> "self" !in kwargs && !positional && !shut && bad)
      && (r == Err(TypeError) <==> "self" in kwargs || (!positional && !shut && !bad && called.None?))
      && (r.Ok? <==> "self" !in kwargs && !positional && !shut && !bad && called.Some?)
      && (r.Ok? ==> called == Some(r.value))
  {
  }

  /** A client's call of an action set up like this runs the handler exactly if it has no key `self`, no positional
      arguments where these are not allowed, comes in a permitted state, and is accepted by the schema; the handler
      then gets the validated mapping. A TypeError is seen exactly for a key `self`. */
  lemma ExternalCallsAreSafe(a: BoundAction, current: string, thing: Value, args: seq<Value>, kwargs: Arguments)
    requires a.hasInstance && a.schema.Some? && a.schema.value.Wellformed() && a.schema.value.IsObject()
    requires a.schema.value.additional.Forbidden? && a.handler.Wellformed()
    requires Leading(a.handler, a.schema.value) && Covers(a.handler, a.schema.value)
    ensures var r := ExternalCall(a, current, thing, args, kwargs);
      && (r.Ok? <==>
            && "self" !in kwargs && (a.isParameterized ==> args == [])
            && (a.gate.Some? ==> current in a.gate.value)
            && CallAccepted(a.schema.value, args, kwargs))
      && (r == Err(TypeError) <==> "self" in kwargs)
      && (r.Ok? ==>
            && Merged(a.schema.value, args, kwargs) == Ok(Received(a.handler, r.value))
            && Accepts(a.schema.value, Received(a.handler, r.value)))
  {
    AnswersInOrder(a, current, thing, args, kwargs);
    if CallAccepted(a.schema.value, args, kwargs) {
      AcceptedCallsAgree(a.handler, a.schema.value, thing, args, kwargs);
      AcceptedIsMerged(a.schema.value, args, kwargs);
    }
  }

  /** After the state machine was validated, such a call runs in a state exactly if the action is listed under it,
      or had the state by itself, or has none and is listed nowhere. */
  lemma ValidatedActionsRun(a: BoundAction, current: string, thing: Value, args: seq<Value>, kwargs: Arguments,
                            gates: Gates.GateMap, owned: set<Gates.Resource>, states: seq<string>, table: Gates.Table,
                            r: Gates.Resource)
    requires a.hasInstance && a.schema.Some? && a.schema.value.Wellformed() && a.schema.value.IsObject()
    requires a.schema.value.additional.Forbidden? && a.handler.Wellformed()
    requires Leading(a.handler, a.schema.value) && Covers(a.handler, a.schema.value)
    requires owned <= gates.Keys && r in gates && Gates.AfterTable(gates, owned, states, table).1
    requires r in Gates.AfterTable(gates, owned, states, table).0
    requires a.gate == Gates.AfterTable(gates, owned, states, table).0[r]
    requires "self" !in kwargs && (a.isParameterized ==> args == []) && CallAccepted(a.schema.value, args, kwargs)
    ensures ExternalCall(a, current, thing, args, kwargs).Ok? <==>
      || Gates.Listed(table, r, current)
      || (gates[r].Some? && current in gates[r].value)
      || (gates[r].None? && !Gates.ListedSomewhere(table, r))
  {
    ExternalCallsAreSafe(a, current, thing, args, kwargs);
    Gates.GateEqualsTable(gates, owned, states, table, r, current);
  }

  /** A property called `self` passes the check and meets the other conditions; its value is accepted by the schema
      and raises a TypeError all the same. */
  lemma SelfIsRefused(thing: Value, current: string, v: Value)
    ensures var handler := Handler([Parameter("this", PositionalOrKeyword, false), SELF], true);
      var schema := Naming(["self"], ["self"]);
      && handler.Wellformed() && Mismatches(handler, schema) == {}
      && Leading(handler, schema) && Covers(handler, schema) && CallAccepted(schema, [], map["self" := v])
      && ExternalCall(BoundAction(handler, false, true, None, Some(schema)), current, thing, [], map["self" := v])
           == Err(TypeError)
  {
    var handler := Handler([Parameter("this", PositionalOrKeyword, false), SELF], true);
    assert handler.Own() == [SELF] && [SELF][1..] == [];
    assert CheckedParameters([SELF]) == [SELF];
    NamedAt([SELF], 0);
  }
}
