/** The properties of a `Thing` over any number of restarts: written by its constructor and its users, stored
    in the JSON file while a storage engine is attached, and loaded back after construction. */
module PropertyLives {
  import opened Wrappers
  import opened JsonStorages
  import opened Sequences
  import opened StoredEntries

  /** A property descriptor. `adapt` is `validate_and_adapt`, without a result where that raises; `deviceTakes`
      says which values a custom setter accepts. Custom getters and setters act on the device. */
  datatype Property = Property(
    default: Value,
    readonly: bool,
    constant: bool,
    deepcopyDefault: bool,
    customGet: bool,
    customSet: bool,
    dbInit: bool,
    dbPersist: bool,
    dbCommit: bool,
    adapt: Value -> Option<Value>,
    deviceTakes: Value -> bool)
  {
    /** Loaded after construction. */
    predicate Loads() { dbInit || dbPersist }

    /** Stored on every write. */
    predicate Stores() { dbPersist || dbCommit }
  }

  type Schema = map<Name, Property>

  datatype SetError = ReadOnly | Invalid | ConstantParameter | DeviceRefused | NoSuchProperty | NotSaved

  /** `values` is the instance dictionary, `device` what custom accessors reach, `db` the dictionary of the
      storage and `disk` what a fresh load of its file gives; without a storage `db` is the same as `disk`. */
  datatype World = World(values: Data, device: Data, attached: bool, db: Data, disk: Data)

  /** A getter of the property's own raises when the device has no answer. */
  predicate CanRead(w: World, n: Name, p: Property) {
    !p.customGet || n in w.device
  }

  /** `Property.__get__`, where it does not raise. */
  function Current(w: World, n: Name, p: Property): Value {
    if p.customGet then (if n in w.device then w.device[n] else Null)
    else if n in w.values then w.values[n]
    else p.default
  }

  /** The value a write of `v` puts in place, if no check on the way raises. */
  function Adapted(w: World, n: Name, p: Property, v: Value, editing: bool): Result<Value, SetError> {
    if p.readonly then Err(ReadOnly)
    else if p.adapt(v).None? then Err(Invalid)
    else if p.constant && !editing && (n in w.values || p.default != Null) then Err(ConstantParameter)
    else if p.customSet && !p.deviceTakes(p.adapt(v).value) then Err(DeviceRefused)
    else Ok(p.adapt(v).value)
  }

  /** `Property._post_value_set`: a value that is stored is in memory, and, if the store can be encoded, in the
      file. */
  function AfterStore(z: Serializer, w: World, n: Name, p: Property, v: Value): World {
    if p.Stores() && w.attached then
      var db := w.db[n := v];
      w.(db := db, disk := if z.Encodes(db) then db else w.disk)
    else w
  }

  /** Where a value that passed the checks lands. */
  function Placed(z: Serializer, w: World, n: Name, p: Property, v: Value): World {
    AfterStore(z, if p.customSet then w.(device := w.device[n := v]) else w.(values := w.values[n := v]), n, p, v)
  }

  /** `Parameter.__set__` followed by `Property._post_value_set`. */
  function AfterSet(schema: Schema, z: Serializer, w: World, n: Name, v: Value, editing: bool): World {
    if n !in schema then w
    else
      match Adapted(w, n, schema[n], v, editing)
      case Ok(a) => Placed(z, w, n, schema[n], a)
      case Err(_) => w
  }

  /** What a write answers: it raises after everything else is done if the store cannot be saved. */
  function SetAnswer(schema: Schema, z: Serializer, w: World, n: Name, v: Value, editing: bool)
    : Result<Value, SetError>
  {
    if n !in schema then Err(NoSuchProperty)
    else
      match Adapted(w, n, schema[n], v, editing)
      case Ok(a) => if schema[n].Stores() && w.attached && !z.Encodes(w.db[n := a]) then Err(NotSaved) else Ok(a)
      case Err(e) => Err(e)
  }

  /** The checks of a write, in their order; one that refuses leaves everything as it was. */
  lemma RefusedInOrder(schema: Schema, z: Serializer, w: World, n: Name, v: Value, editing: bool)
    requires n in schema
    ensures var p, r := schema[n], SetAnswer(schema, z, w, n, v, editing);
      var held := n in w.values || p.default != Null;
      && (r == Err(ReadOnly) <==> p.readonly)
      && (r == Err(Invalid) <==> !p.readonly && p.adapt(v).None?)
      && (r == Err(ConstantParameter) <==>
            !p.readonly && p.adapt(v).Some? && p.constant && !editing && held)
      && (r == Err(DeviceRefused) <==>
            && !p.readonly && p.adapt(v).Some? && !(p.constant && !editing && held)
            && p.customSet && !p.deviceTakes(p.adapt(v).value))
      && r != Err(NoSuchProperty)
      && (r.Err? && r.error != NotSaved ==> AfterSet(schema, z, w, n, v, editing) == w)
  {
  }

  /** A write that is not refused puts the adapted value in its place ... */
  lemma AcceptedLands(schema: Schema, z: Serializer, w: World, n: Name, v: Value, editing: bool)
    requires n in schema
    requires SetAnswer(schema, z, w, n, v, editing).Ok? || SetAnswer(schema, z, w, n, v, editing) == Err(NotSaved)
    ensures schema[n].adapt(v).Some?
    ensures var p, a, w' := schema[n], schema[n].adapt(v).value, AfterSet(schema, z, w, n, v, editing);
      && w'.attached == w.attached
      && w'.values == (if p.customSet then w.values else w.values[n := a])
      && w'.device == (if p.customSet then w.device[n := a] else w.device)
  {
  }

  /** ... and in the store, if there is one and the property has one of the flags; it raises only if the store cannot
      be saved. */
  lemma AcceptedIsStored(schema: Schema, z: Serializer, w: World, n: Name, v: Value, editing: bool)
    requires n in schema
    requires SetAnswer(schema, z, w, n, v, editing).Ok? || SetAnswer(schema, z, w, n, v, editing) == Err(NotSaved)
    ensures schema[n].adapt(v).Some?
    ensures var a, w', r := schema[n].adapt(v).value, AfterSet(schema, z, w, n, v, editing),
                            SetAnswer(schema, z, w, n, v, editing);
      if w.attached && (schema[n].dbPersist || schema[n].dbCommit) then
        && w'.db == w.db[n := a]
        && (if z.dumps(w'.db).Some? then w'.disk == w'.db && r == Ok(a) else w'.disk == w.disk && r == Err(NotSaved))
      else w'.db == w.db && w'.disk == w.disk && r == Ok(a)
  {
  }

  /** What `create_missing_properties` adds, as far as it can be read. */
  function Created(schema: Schema, w: World): Data {
    map n | n in schema && schema[n].Loads() && n !in w.db && CanRead(w, n, schema[n]) :: Current(w, n, schema[n])
  }

  predicate AllRead(schema: Schema, w: World) {
    forall n :: n in schema && schema[n].Loads() && n !in w.db ==> CanRead(w, n, schema[n])
  }

  /** What loading writes back into the properties: entries that were stored before, and pass all checks. */
  function LoadedValues(schema: Schema, w: World): Data {
    map n | n in w.db && n in schema && schema[n].Loads() && Adapted(w, n, schema[n], w.db[n], true).Ok?
      :: Adapted(w, n, schema[n], w.db[n], true).value
  }

  function Selected(loaded: Data, which: set<Name>): Data {
    loaded - (loaded.Keys - which)
  }

  function CustomSet(schema: Schema): set<Name> {
    set n | n in schema && schema[n].customSet
  }

  function Storing(schema: Schema): set<Name> {
    set n | n in schema && schema[n].Stores()
  }

  /** `loaded` written into the properties, and again into the store if the property stores. */
  function Landed(schema: Schema, w: World, loaded: Data): World {
    w.(values := w.values + Selected(loaded, schema.Keys - CustomSet(schema)),
       device := w.device + Selected(loaded, CustomSet(schema)),
       db := if w.attached then w.db + Selected(loaded, Storing(schema)) else w.db)
  }

  function WithCreated(schema: Schema, w: World): World {
    w.(db := w.db + Created(schema, w))
  }

  /** Everything that is missing can be created and saved. */
  predicate GetsThrough(schema: Schema, z: Serializer, w: World) {
    AllRead(schema, w) && z.Encodes(WithCreated(schema, w).db)
  }

  /** The store when only the entries in `names` have been written back. */
  function Rewritten(created: Data, loaded: Data, storing: set<Name>, names: set<Name>): Data {
    created + Selected(loaded, storing * names)
  }

  /** What is in the file after the last save that could be encoded. */
  function LastSaved(z: Serializer, created: Data, earlier: Data, end: Data): Data {
    if z.Encodes(end) then end else if z.Encodes(earlier) then earlier else created
  }

  /** `load_from_DB`. It ends at the first getter that raises, when the entries in `done` have been created in
      memory, and after creating all if these cannot be saved. Otherwise each entry is written back and saved in
      turn; if the last of these saves fails, the file is as after an earlier one, when only `done` had been written
      back. Which these are depends on the order of the entries, and on the encoder. */
  function AfterLoad(schema: Schema, z: Serializer, w: World, done: set<Name>): World {
    var created := WithCreated(schema, w);
    if !w.attached then w
    else if !AllRead(schema, w) then w.(db := w.db + Selected(Created(schema, w), done))
    else if !z.Encodes(created.db) then created
    else
      var loaded := LoadedValues(schema, w);
      var end := Landed(schema, created, loaded);
      end.(disk := LastSaved(z, created.db, Rewritten(created.db, loaded, Storing(schema), done), end.db))
  }

  /** The instance dictionary of a new object. */
  function Newborn(schema: Schema): Data {
    map n | n in schema && schema[n].deepcopyDefault && n != "name" :: schema[n].default
  }

  datatype Op =
    | Birth                       // a new process, a new object; the file stays
    | Write(name: Name, value: Value)
    | Attach                      // prepare_object_storage
    | PostInit(done: set<Name>)   // load_from_DB
    | Drift(device: Data)         // the device changes by itself
  {
    /** What is in memory of the store is forgotten for what is in the file. */
    predicate Reloads() { Birth? || Attach? }
  }

  const VOID := World(map[], map[], false, map[], map[])

  function Step(schema: Schema, z: Serializer, w: World, op: Op): World {
    match op
    case Birth => World(Newborn(schema), w.device, false, w.disk, w.disk)
    case Write(n, v) => AfterSet(schema, z, w, n, v, false)
    case Attach => w.(attached := true, db := w.disk)
    case PostInit(done) => AfterLoad(schema, z, w, done)
    case Drift(device) => w.(device := device)
  }

  function Exec(schema: Schema, z: Serializer, ops: seq<Op>): World {
    if ops == [] then VOID
    else Step(schema, z, Exec(schema, z, ops[..|ops| - 1]), ops[|ops| - 1])
  }

  function Entry(d: Data, n: Name): Option<Value> {
    if n in d then Some(d[n]) else None
  }

  // ----- One entry ----------------------------------------------------------------------------

  /** The value an operation stores for `n` because `n` was written while a store was attached. */
  function Stored(schema: Schema, w: World, op: Op, n: Name): Option<Value> {
    if op.Write? && op.name == n && n in schema && schema[n].Stores() && w.attached then
      match Adapted(w, n, schema[n], op.value, false)
      case Ok(a) => Some(a)
      case Err(_) => None
    else None
  }

  /** The operation saves the store, and succeeds. */
  predicate Flushes(schema: Schema, z: Serializer, w: World, op: Op) {
    && w.attached
    && match op
       case Write(m, _) => Stored(schema, w, op, m).Some? && z.Encodes(w.db[m := Stored(schema, w, op, m).value])
       case PostInit(_) => GetsThrough(schema, z, w)
       case _ => false
  }

  /** Adapting an adapted value changes nothing, and the default is adapted already. */
  ghost predicate Idempotent(p: Property) {
    && (forall v :: p.adapt(v).Some? ==> p.adapt(p.adapt(v).value) == p.adapt(v))
    && p.adapt(p.default) == Some(p.default)
  }

  /** Only adapted values can come out of the property. */
  ghost predicate Tame(schema: Schema, n: Name) {
    n in schema && !schema[n].customGet && Idempotent(schema[n])
  }

  /** A writable, persisted property without a getter or setter of its own. */
  ghost predicate Plain(schema: Schema, n: Name) {
    Tame(schema, n) && schema[n].dbPersist && !schema[n].readonly && !schema[n].customSet
  }

  ghost predicate AdaptedEntry(p: Property, e: Option<Value>) {
    e.Some? ==> p.adapt(e.value) == Some(e.value)
  }

  /** What holds of the values of a tame property at every moment: adapting them changes nothing. */
  ghost predicate Settled(p: Property, w: World, n: Name) {
    AdaptedEntry(p, Entry(w.values, n)) && AdaptedEntry(p, Entry(w.db, n)) && AdaptedEntry(p, Entry(w.disk, n))
  }

  /** Loading gets as far as creating the entry of `n`, if it is missing. */
  predicate Creates(schema: Schema, w: World, op: Op, n: Name) {
    && op.PostInit? && w.attached && n in schema && schema[n].Loads() && CanRead(w, n, schema[n])
    && (AllRead(schema, w) || n in op.done)
  }

  /** The entry of `n` in memory after an operation: a store of the property, else what the file has if that is
      loaded again, else its old entry, else its value when loading finds it missing. */
  ghost function Tracked(schema: Schema, w: World, op: Op, n: Name): Option<Value>
    requires n in schema
  {
    if Stored(schema, w, op, n).Some? then Stored(schema, w, op, n)
    else if op.Reloads() then Entry(w.disk, n)
    else if n in w.db then Some(w.db[n])
    else if Creates(schema, w, op, n) then Some(Current(w, n, schema[n]))
    else None
  }

  /** The entry in memory is tracked, and the entry in the file is the same after a save, or as before. */
  ghost predicate Follows(schema: Schema, z: Serializer, w: World, op: Op, w': World, n: Name)
    requires n in schema
  {
    && Entry(w'.db, n) == Tracked(schema, w, op, n)
    && Entry(w'.disk, n) == if Flushes(schema, z, w, op) then Entry(w'.db, n) else Entry(w.disk, n)
  }

  lemma PlacedEntry(z: Serializer, w: World, m: Name, p: Property, a: Value, n: Name)
    ensures var w', stores := Placed(z, w, m, p, a), p.Stores() && w.attached;
      && Entry(w'.db, n) == (if stores && m == n then Some(a) else Entry(w.db, n))
      && Entry(w'.disk, n) == (if stores && z.Encodes(w.db[m := a]) then Entry(w'.db, n) else Entry(w.disk, n))
      && (Entry(w'.values, n) == Entry(w.values, n) || (m == n && Entry(w'.values, n) == Some(a)))
  {
  }

  lemma WriteFollows(schema: Schema, z: Serializer, w: World, m: Name, v: Value, n: Name)
    requires n in schema
    ensures Follows(schema, z, w, Write(m, v), AfterSet(schema, z, w, m, v, false), n)
  {
    if m in schema && Adapted(w, m, schema[m], v, false).Ok? {
      PlacedEntry(z, w, m, schema[m], Adapted(w, m, schema[m], v, false).value, n);
    }
  }

  /** Loading rewrites the entry of `n`, if at all, to what it is already. */
  ghost predicate LoadsAsIs(loaded: Data, storing: set<Name>, created: Data, n: Name) {
    n in loaded && n in storing ==> n in created && loaded[n] == created[n]
  }

  lemma LoadedEntry(z: Serializer, loaded: Data, storing: set<Name>, created: Data, names: set<Name>, n: Name)
    requires LoadsAsIs(loaded, storing, created, n)
    ensures var end := created + Selected(loaded, storing);
      && Entry(end, n) == Entry(created, n)
      && Entry(LastSaved(z, created, Rewritten(created, loaded, storing, names), end), n) == Entry(created, n)
  {
  }

  lemma SelectedEntry(base: Data, loaded: Data, which: set<Name>, n: Name)
    ensures Entry(base + Selected(loaded, which), n) ==
      if n in loaded && n in which then Some(loaded[n]) else Entry(base, n)
  {
  }

  lemma CreatedEntry(schema: Schema, w: World, n: Name)
    requires n in schema
    ensures Entry(WithCreated(schema, w).db, n) ==
      if n in w.db then Some(w.db[n])
      else if schema[n].Loads() && CanRead(w, n, schema[n]) then Some(Current(w, n, schema[n]))
      else None
  {
  }

  lemma PartlyCreated(schema: Schema, z: Serializer, w: World, done: set<Name>, n: Name)
    requires n in schema && w.attached && !AllRead(schema, w)
    ensures Follows(schema, z, w, PostInit(done), AfterLoad(schema, z, w, done), n)
  {
    SelectedEntry(w.db, Created(schema, w), done, n);
  }

  lemma FullyCreated(schema: Schema, z: Serializer, w: World, done: set<Name>, n: Name)
    requires n in schema && w.attached && AllRead(schema, w)
    requires LoadsAsIs(LoadedValues(schema, w), Storing(schema), WithCreated(schema, w).db, n)
    ensures Follows(schema, z, w, PostInit(done), AfterLoad(schema, z, w, done), n)
  {
    CreatedEntry(schema, w, n);
    LoadedEntry(z, LoadedValues(schema, w), Storing(schema), WithCreated(schema, w).db, done, n);
  }

  lemma LoadFollows(schema: Schema, z: Serializer, w: World, done: set<Name>, n: Name)
    requires n in schema && LoadsAsIs(LoadedValues(schema, w), Storing(schema), WithCreated(schema, w).db, n)
    ensures Follows(schema, z, w, PostInit(done), AfterLoad(schema, z, w, done), n)
  {
    if w.attached {
      if AllRead(schema, w) {
        FullyCreated(schema, z, w, done, n);
      } else {
        PartlyCreated(schema, z, w, done, n);
      }
    }
  }

  /** What loading writes back for `n` is its entry, adapted. */
  lemma LoadedIsAdapted(schema: Schema, w: World, n: Name)
    requires n in LoadedValues(schema, w)
    ensures n in w.db && n in schema && Some(LoadedValues(schema, w)[n]) == schema[n].adapt(w.db[n])
  {
  }

  lemma AdaptedLoadsAsIs(schema: Schema, w: World, n: Name)
    requires n in schema && AdaptedEntry(schema[n], Entry(w.db, n))
    ensures LoadsAsIs(LoadedValues(schema, w), Storing(schema), WithCreated(schema, w).db, n)
  {
    CreatedEntry(schema, w, n);
    if n in LoadedValues(schema, w) {
      LoadedIsAdapted(schema, w, n);
    }
  }

  lemma LandedValue(schema: Schema, z: Serializer, w: World, done: set<Name>, n: Name)
    requires n in schema
    ensures Entry(AfterLoad(schema, z, w, done).values, n) ==
      if w.attached && GetsThrough(schema, z, w) && !schema[n].customSet && n in LoadedValues(schema, w)
      then Some(LoadedValues(schema, w)[n]) else Entry(w.values, n)
  {
    SelectedEntry(w.values, LoadedValues(schema, w), schema.Keys - CustomSet(schema), n);
    WhatLands(schema, z, w, done);
  }

  /** Only a load that gets through changes the object or the device. */
  lemma WhatLands(schema: Schema, z: Serializer, w: World, done: set<Name>)
    ensures var w', loaded, custom := AfterLoad(schema, z, w, done), LoadedValues(schema, w), CustomSet(schema);
      if w.attached && GetsThrough(schema, z, w) then
        && w'.values == w.values + Selected(loaded, schema.Keys - custom)
        && w'.device == w.device + Selected(loaded, custom)
      else w'.values == w.values && w'.device == w.device
  {
  }

  lemma LandedDevice(schema: Schema, z: Serializer, w: World, done: set<Name>, n: Name)
    requires n in schema
    ensures Entry(AfterLoad(schema, z, w, done).device, n) ==
      if w.attached && GetsThrough(schema, z, w) && schema[n].customSet && n in LoadedValues(schema, w)
      then Some(LoadedValues(schema, w)[n]) else Entry(w.device, n)
  {
    SelectedEntry(w.device, LoadedValues(schema, w), CustomSet(schema), n);
    WhatLands(schema, z, w, done);
  }

  lemma TameLoad(schema: Schema, z: Serializer, w: World, done: set<Name>, n: Name)
    requires Tame(schema, n) && Settled(schema[n], w, n)
    ensures Follows(schema, z, w, PostInit(done), AfterLoad(schema, z, w, done), n)
    ensures Settled(schema[n], AfterLoad(schema, z, w, done), n)
  {
    AdaptedLoadsAsIs(schema, w, n);
    LoadFollows(schema, z, w, done, n);
    LandedValue(schema, z, w, done, n);
    if n in LoadedValues(schema, w) {
      LoadedIsAdapted(schema, w, n);
    }
    StaySettled(schema, z, w, PostInit(done), AfterLoad(schema, z, w, done), n);
  }

  /** Adapted values go in, so adapted values come out. */
  lemma StaySettled(schema: Schema, z: Serializer, w: World, op: Op, w': World, n: Name)
    requires Tame(schema, n) && Settled(schema[n], w, n) && Follows(schema, z, w, op, w', n)
    requires Stored(schema, w, op, n).Some? ==> AdaptedEntry(schema[n], Stored(schema, w, op, n))
    requires AdaptedEntry(schema[n], Entry(w'.values, n))
    ensures Settled(schema[n], w', n)
  {
  }

  lemma TameWrite(schema: Schema, z: Serializer, w: World, m: Name, v: Value, n: Name)
    requires Tame(schema, n) && Settled(schema[n], w, n)
    ensures Follows(schema, z, w, Write(m, v), AfterSet(schema, z, w, m, v, false), n)
    ensures Settled(schema[n], AfterSet(schema, z, w, m, v, false), n)
  {
    WriteFollows(schema, z, w, m, v, n);
    if m in schema && Adapted(w, m, schema[m], v, false).Ok? {
      PlacedEntry(z, w, m, schema[m], Adapted(w, m, schema[m], v, false).value, n);
    }
    StaySettled(schema, z, w, Write(m, v), AfterSet(schema, z, w, m, v, false), n);
  }

  /** One step of the stored entry of a property without a getter of its own, in memory and in the file. */
  lemma TameStep(schema: Schema, z: Serializer, w: World, op: Op, n: Name)
    requires Tame(schema, n) && Settled(schema[n], w, n)
    ensures Follows(schema, z, w, op, Step(schema, z, w, op), n) && Settled(schema[n], Step(schema, z, w, op), n)
  {
    match op
    case Write(m, v) => TameWrite(schema, z, w, m, v, n);
    case PostInit(done) => TameLoad(schema, z, w, done, n);
    case _ =>
  }

  lemma {:induction false} TameRun(schema: Schema, z: Serializer, ops: seq<Op>, n: Name)
    requires Tame(schema, n)
    ensures Settled(schema[n], Exec(schema, z, ops), n)
  {
    if ops != [] {
      TameRun(schema, z, ops[..|ops| - 1], n);
      TameStep(schema, z, Exec(schema, z, ops[..|ops| - 1]), ops[|ops| - 1], n);
    }
  }

  /** After a load that gets through, the property has what is stored. */
  lemma PlainLoad(schema: Schema, z: Serializer, w: World, done: set<Name>, n: Name)
    requires Plain(schema, n) && Settled(schema[n], w, n) && w.attached
    requires GetsThrough(schema, z, w)
    ensures var w' := AfterLoad(schema, z, w, done);
      Some(Current(w', n, schema[n])) == Entry(w'.db, n)
  {
    TameLoad(schema, z, w, done, n);
    LandedValue(schema, z, w, done, n);
    PlainIsLoaded(schema, w, n);
  }

  lemma PlainIsLoaded(schema: Schema, w: World, n: Name)
    requires Plain(schema, n) && Settled(schema[n], w, n)
    ensures n in LoadedValues(schema, w) <==> n in w.db
    ensures n in w.db ==> LoadedValues(schema, w)[n] == w.db[n]
  {
  }

  // ----- Restarts ---------------------------------------------------------------------------

  /** The value stored for `n` by the i-th operation. */
  ghost function StoredAt(schema: Schema, z: Serializer, ops: seq<Op>, i: nat, n: Name): Option<Value>
    requires i < |ops|
  {
    Stored(schema, Exec(schema, z, ops[..i]), ops[i], n)
  }

  ghost predicate FlushesAt(schema: Schema, z: Serializer, ops: seq<Op>, i: nat)
    requires i < |ops|
  {
    Flushes(schema, z, Exec(schema, z, ops[..i]), ops[i])
  }

  /** Between the i-th and the k-th operation the store is saved. */
  ghost predicate FlushedDuring(schema: Schema, z: Serializer, ops: seq<Op>, i: nat, k: nat) {
    exists t: nat :: i <= t < k && t < |ops| && FlushesAt(schema, z, ops, t)
  }

  /** Nothing is stored for `n` from the i-th operation on. */
  ghost predicate Unwritten(schema: Schema, z: Serializer, ops: seq<Op>, i: nat, n: Name) {
    forall j: nat :: i <= j < |ops| ==> StoredAt(schema, z, ops, j, n).None?
  }

  /** From the i-th operation on, up to the k-th, the file is not loaded anew. */
  ghost predicate SameLife(ops: seq<Op>, i: nat, k: nat) {
    forall j: nat :: i <= j < k && j < |ops| ==> !ops[j].Reloads()
  }

  /** The i-th operation creates the setting `n` if it is missing, whether it can be saved or not. */
  ghost predicate CreatesAt(schema: Schema, z: Serializer, ops: seq<Op>, i: nat, n: Name)
    requires i < |ops|
  {
    Creates(schema, Exec(schema, z, ops[..i]), ops[i], n)
  }

  ghost function EventAt(schema: Schema, z: Serializer, ops: seq<Op>, i: nat, n: Name): Event
    requires i < |ops|
  {
    Event(StoredAt(schema, z, ops, i, n), ops[i].Reloads(),
          CreatesAt(schema, z, ops, i, n), FlushesAt(schema, z, ops, i))
  }

  /** What a run does to the entry of `n`. */
  ghost function HistoryOf(schema: Schema, z: Serializer, ops: seq<Op>, n: Name): History {
    History(seq(|ops|, i requires 0 <= i < |ops| => EventAt(schema, z, ops, i, n)),
            seq(|ops| + 1, i requires 0 <= i < |ops| + 1 => Entry(Exec(schema, z, ops[..i]).db, n)),
            seq(|ops| + 1, i requires 0 <= i < |ops| + 1 => Entry(Exec(schema, z, ops[..i]).disk, n)))
  }

  /** The conditions of a run, in terms of the history. */
  lemma HistoryMeans(schema: Schema, z: Serializer, ops: seq<Op>, n: Name, i: nat, k: nat)
    ensures var h := HistoryOf(schema, z, ops, n);
      && |h.events| == |ops|
      && (Unwritten(schema, z, ops, i, n) ==> h.Unwritten(i, |ops|))
      && (SameLife(ops, i, k) ==> h.NoReload(i, k))
      && (i < |ops| ==> h.events[i] == EventAt(schema, z, ops, i, n))
      && (i <= |ops| ==> h.memory[i] == Entry(Exec(schema, z, ops[..i]).db, n))
      && (i <= |ops| ==> h.file[i] == Entry(Exec(schema, z, ops[..i]).disk, n))
      && h.memory[|ops|] == Entry(Exec(schema, z, ops).db, n) && h.file[|ops|] == Entry(Exec(schema, z, ops).disk, n)
  {
    assert ops[..|ops|] == ops;
  }

  /** A run in which each step follows the rules makes a lawful history. */
  lemma FollowingIsLawful(schema: Schema, z: Serializer, ops: seq<Op>, n: Name)
    requires n in schema
    requires forall t: nat :: t < |ops| ==>
      Follows(schema, z, Exec(schema, z, ops[..t]), ops[t], Exec(schema, z, ops[..t + 1]), n)
    ensures HistoryOf(schema, z, ops, n).Lawful()
  {
    var h := HistoryOf(schema, z, ops, n);
    forall t: nat | t < |h.events| ensures h.StepOk(t) {
      assert Follows(schema, z, Exec(schema, z, ops[..t]), ops[t], Exec(schema, z, ops[..t + 1]), n);
    }
  }

  lemma ExecNext(schema: Schema, z: Serializer, ops: seq<Op>, t: nat)
    requires t < |ops|
    ensures Exec(schema, z, ops[..t + 1]) == Step(schema, z, Exec(schema, z, ops[..t]), ops[t])
  {
    assert ops[..t + 1][..t] == ops[..t];
  }

  lemma TameHistory(schema: Schema, z: Serializer, ops: seq<Op>, n: Name)
    requires Tame(schema, n)
    ensures HistoryOf(schema, z, ops, n).Lawful()
  {
    forall t: nat | t < |ops|
      ensures Follows(schema, z, Exec(schema, z, ops[..t]), ops[t], Exec(schema, z, ops[..t + 1]), n)
    {
      TameRun(schema, z, ops[..t], n);
      TameStep(schema, z, Exec(schema, z, ops[..t]), ops[t], n);
      ExecNext(schema, z, ops, t);
    }
    FollowingIsLawful(schema, z, ops, n);
  }

  /** A value that is in the entry of a property after the i-th operation, and is saved by the k-th before the
      file is loaded anew, stays there, in memory and in the file, until the property is stored again, over any
      number of lives. */
  lemma EntryStays(schema: Schema, z: Serializer, ops: seq<Op>, n: Name, i: nat, k: nat, v: Value)
    requires Tame(schema, n)
    requires i <= k < |ops| && Entry(Exec(schema, z, ops[..i + 1]).db, n) == Some(v)
    requires Unwritten(schema, z, ops, i + 1, n) && SameLife(ops, i + 1, k + 1) && FlushesAt(schema, z, ops, k)
    ensures Entry(Exec(schema, z, ops).db, n) == Some(v) && Entry(Exec(schema, z, ops).disk, n) == Some(v)
  {
    TameHistory(schema, z, ops, n);
    HistoryMeans(schema, z, ops, n, i + 1, k + 1);
    HistoryMeans(schema, z, ops, n, k, k);
    SavedStays(HistoryOf(schema, z, ops, n), i + 1, k);
  }

  /** Exactly when the last write of a life outlives it: it was saved before the end, by itself or together with
      a later write, or the file had the value already. */
  lemma WriteSurvivesExactly(schema: Schema, z: Serializer, ops: seq<Op>, n: Name, i: nat)
    requires Tame(schema, n)
    requires i < |ops| - 1 && StoredAt(schema, z, ops, i, n).Some? && Unwritten(schema, z, ops, i + 1, n)
    requires SameLife(ops, i + 1, |ops| - 1) && ops[|ops| - 1].Reloads()
    ensures Entry(Exec(schema, z, ops).db, n) == StoredAt(schema, z, ops, i, n) <==>
      || FlushedDuring(schema, z, ops, i, |ops| - 1)
      || Entry(Exec(schema, z, ops[..i]).disk, n) == StoredAt(schema, z, ops, i, n)
  {
    var h := HistoryOf(schema, z, ops, n);
    TameHistory(schema, z, ops, n);
    LifeEvents(schema, z, ops, n, i, h);
    LifeEntries(schema, z, ops, n, i, h);
    SurvivesExactly(h, i);
  }

  /** The events of a life that ends with the last operation ... */
  lemma LifeEvents(schema: Schema, z: Serializer, ops: seq<Op>, n: Name, i: nat, h: History)
    requires h == HistoryOf(schema, z, ops, n)
    requires i < |ops| - 1 && Unwritten(schema, z, ops, i + 1, n)
    requires SameLife(ops, i + 1, |ops| - 1) && ops[|ops| - 1].Reloads()
    ensures |h.events| == |ops| && h.events[|h.events| - 1].reloads
    ensures h.Unwritten(i + 1, |h.events|) && h.NoReload(i + 1, |h.events| - 1)
  {
    HistoryMeans(schema, z, ops, n, i + 1, |ops| - 1);
    HistoryMeans(schema, z, ops, n, |ops| - 1, 0);
  }

  /** ... and the entry at its begin and end. */
  lemma LifeEntries(schema: Schema, z: Serializer, ops: seq<Op>, n: Name, i: nat, h: History)
    requires h == HistoryOf(schema, z, ops, n) && i < |ops|
    ensures |h.events| == |ops| && |h.memory| == |h.file| == |ops| + 1
    ensures h.events[i].stored == StoredAt(schema, z, ops, i, n)
    ensures h.memory[|ops|] == Entry(Exec(schema, z, ops).db, n)
    ensures h.file[i] == Entry(Exec(schema, z, ops[..i]).disk, n)
    ensures h.NoFlush(i, |ops| - 1) <==> !FlushedDuring(schema, z, ops, i, |ops| - 1)
  {
    HistoryMeans(schema, z, ops, n, i, i);
    FlushesMean(schema, z, ops, n, i, |ops| - 1);
  }

  lemma FlushesMean(schema: Schema, z: Serializer, ops: seq<Op>, n: Name, i: nat, k: nat)
    requires k <= |ops|
    ensures HistoryOf(schema, z, ops, n).NoFlush(i, k) <==> !FlushedDuring(schema, z, ops, i, k)
  {
    var h := HistoryOf(schema, z, ops, n);
    assert forall t: nat :: t < k ==> h.events[t].flushes == FlushesAt(schema, z, ops, t);
  }

  lemma WriteIsInMemory(schema: Schema, z: Serializer, ops: seq<Op>, n: Name, i: nat)
    requires Tame(schema, n) && i < |ops| && StoredAt(schema, z, ops, i, n).Some?
    ensures Entry(Exec(schema, z, ops[..i + 1]).db, n) == StoredAt(schema, z, ops, i, n)
  {
    TameHistory(schema, z, ops, n);
    HistoryMeans(schema, z, ops, n, i, i);
    HistoryMeans(schema, z, ops, n, i + 1, i);
    assert HistoryOf(schema, z, ops, n).StepOk(i);
  }

  /** The i-th operation loads the settings, and gets past creating the missing ones. */
  ghost predicate LoadsAt(schema: Schema, z: Serializer, ops: seq<Op>, i: nat)
    requires i < |ops|
  {
    ops[i].PostInit? && FlushesAt(schema, z, ops, i)
  }

  lemma LoadedIsCurrent(schema: Schema, z: Serializer, ops: seq<Op>, n: Name)
    requires Plain(schema, n) && ops != [] && LoadsAt(schema, z, ops, |ops| - 1)
    ensures Some(Current(Exec(schema, z, ops), n, schema[n])) == Entry(Exec(schema, z, ops).db, n)
  {
    TameRun(schema, z, ops[..|ops| - 1], n);
    PlainLoad(schema, z, Exec(schema, z, ops[..|ops| - 1]), ops[|ops| - 1].done, n);
  }

  /** Restart preserves settings. Over any number of lives, after an object has loaded its settings, a plain
      property holds the last value written while a store was attached, in this life or an earlier one, once
      that was saved before its life ended; a constructor keyword, set before the store is attached, is not such
      a write and does not override it. */
  lemma RestartRestoresLastWrite(schema: Schema, z: Serializer, ops: seq<Op>, n: Name, i: nat, k: nat)
    requires Plain(schema, n)
    requires i <= k < |ops| && StoredAt(schema, z, ops, i, n).Some? && Unwritten(schema, z, ops, i + 1, n)
    requires SameLife(ops, i + 1, k + 1) && FlushesAt(schema, z, ops, k)
    requires LoadsAt(schema, z, ops, |ops| - 1)
    ensures Some(Current(Exec(schema, z, ops), n, schema[n])) == StoredAt(schema, z, ops, i, n)
  {
    WriteIsInMemory(schema, z, ops, n, i);
    EntryStays(schema, z, ops, n, i, k, StoredAt(schema, z, ops, i, n).value);
    LoadedIsCurrent(schema, z, ops, n);
  }

  /** A write that passes the checks while a store is attached is stored, and saved if anything can be encoded. */
  lemma WriteIsStored(schema: Schema, z: Serializer, w: World, n: Name, v: Value)
    requires Plain(schema, n) && w.attached && forall d :: z.Encodes(d)
    requires schema[n].constant ==> n !in w.values && schema[n].default == Null
    ensures Stored(schema, w, Write(n, v), n) == schema[n].adapt(v)
    ensures schema[n].adapt(v).Some? ==> Flushes(schema, z, w, Write(n, v))
  {
  }

  lemma LoadIsFlushed(schema: Schema, z: Serializer, w: World, done: set<Name>)
    requires w.attached && forall d :: z.Encodes(d)
    requires forall m :: m in schema && schema[m].customGet ==> m in w.device
    ensures Flushes(schema, z, w, PostInit(done))
  {
  }

  /** Not a write to `n` that is stored: of another property, refused, or without a store. */
  ghost predicate LeavesAlone(schema: Schema, w: World, op: Op, n: Name)
    requires n in schema
  {
    op.Write? && op.name == n ==>
      || !w.attached || schema[n].adapt(op.value).None?
      || (schema[n].constant && (n in w.values || schema[n].default != Null))
  }

  lemma OtherOpsStoreNothing(schema: Schema, w: World, op: Op, n: Name)
    requires n in schema && LeavesAlone(schema, w, op, n)
    ensures Stored(schema, w, op, n).None?
  {
  }

  /** With a store that can always be encoded and getters that answer, the last value that was written with the
      store attached, adapted, is what the property holds after loading, over any number of lives. */
  lemma RestartRestoresEveryWrite(schema: Schema, z: Serializer, ops: seq<Op>, n: Name, i: nat)
    requires Plain(schema, n) && forall d :: z.Encodes(d)
    requires i < |ops| && ops[i].Write? && ops[i].name == n && schema[n].adapt(ops[i].value).Some?
    requires Exec(schema, z, ops[..i]).attached
    requires schema[n].constant ==> n !in Exec(schema, z, ops[..i]).values && schema[n].default == Null
    requires forall j: nat :: i < j < |ops| ==> LeavesAlone(schema, Exec(schema, z, ops[..j]), ops[j], n)
    requires ops[|ops| - 1].PostInit? && Exec(schema, z, ops[..|ops| - 1]).attached
    requires forall m :: m in schema && schema[m].customGet ==> m in Exec(schema, z, ops[..|ops| - 1]).device
    ensures Some(Current(Exec(schema, z, ops), n, schema[n])) == schema[n].adapt(ops[i].value)
  {
    WriteIsStored(schema, z, Exec(schema, z, ops[..i]), n, ops[i].value);
    LoadIsFlushed(schema, z, Exec(schema, z, ops[..|ops| - 1]), ops[|ops| - 1].done);
    forall j: nat | i + 1 <= j < |ops| ensures StoredAt(schema, z, ops, j, n).None? {
      OtherOpsStoreNothing(schema, Exec(schema, z, ops[..j]), ops[j], n);
    }
    RestartRestoresLastWrite(schema, z, ops, n, i, i);
  }

  /** With no write stored there is no entry before the first load ... */
  lemma NoEntryBeforeLoading(schema: Schema, z: Serializer, ops: seq<Op>, n: Name, i: nat)
    requires Tame(schema, n) && Unwritten(schema, z, ops, 0, n)
    requires i <= |ops| && forall j: nat :: j < i ==> !CreatesAt(schema, z, ops, j, n)
    ensures n !in Exec(schema, z, ops[..i]).db && n !in Exec(schema, z, ops[..i]).disk
  {
    TameHistory(schema, z, ops, n);
    HistoryMeans(schema, z, ops, n, 0, 0);
    HistoryMeans(schema, z, ops, n, i, 0);
    var h := HistoryOf(schema, z, ops, n);
    assert h.NoCreation(0, i);
    NothingAppears(h, i);
  }

  /** ... and from then on, once that was saved, it is what the property held at that moment. */
  lemma EntryIsFirstCreation(schema: Schema, z: Serializer, ops: seq<Op>, n: Name, i: nat, k: nat)
    requires Tame(schema, n) && Unwritten(schema, z, ops, 0, n)
    requires i <= k < |ops| && CreatesAt(schema, z, ops, i, n)
    requires forall j: nat :: j < i ==> !CreatesAt(schema, z, ops, j, n)
    requires SameLife(ops, i + 1, k + 1) && FlushesAt(schema, z, ops, k)
    ensures var end, created := Exec(schema, z, ops), Some(Current(Exec(schema, z, ops[..i]), n, schema[n]));
      Entry(end.db, n) == created && Entry(end.disk, n) == created
  {
    var w := Exec(schema, z, ops[..i]);
    NoEntryBeforeLoading(schema, z, ops, n, i);
    TameRun(schema, z, ops[..i], n);
    TameStep(schema, z, w, ops[i], n);
    ExecNext(schema, z, ops, i);
    EntryStays(schema, z, ops, n, i, k, Current(w, n, schema[n]));
  }

  /** A plain property never written while a store was attached holds the value of its first creation, once that
      was saved. */
  lemma RestartRestoresCreation(schema: Schema, z: Serializer, ops: seq<Op>, n: Name, i: nat, k: nat)
    requires Plain(schema, n) && Unwritten(schema, z, ops, 0, n)
    requires i <= k < |ops| && CreatesAt(schema, z, ops, i, n)
    requires forall j: nat :: j < i ==> !CreatesAt(schema, z, ops, j, n)
    requires SameLife(ops, i + 1, k + 1) && FlushesAt(schema, z, ops, k)
    requires LoadsAt(schema, z, ops, |ops| - 1)
    ensures Current(Exec(schema, z, ops), n, schema[n]) == Current(Exec(schema, z, ops[..i]), n, schema[n])
  {
    EntryIsFirstCreation(schema, z, ops, n, i, k);
    LoadedIsCurrent(schema, z, ops, n);
  }

  lemma ExecAll(schema: Schema, z: Serializer, ops: seq<Op>, last: Op)
    ensures Exec(schema, z, ops + [last]) == Step(schema, z, Exec(schema, z, ops), last)
  {
    assert (ops + [last])[..|ops|] == ops;
  }

  const SETTING := Property(Null, false, false, false, false, false, false, true, false, v => Some(v), v => true)

  lemma SettingIsPlain(schema: Schema, n: Name)
    requires n in schema && schema[n] == SETTING
    ensures Plain(schema, n)
  {
  }

  lemma UnsavedRun(schema: Schema, z: Serializer, bad: Value, good: Value)
    requires "a" in schema && "b" in schema && schema["a"] == schema["b"] == SETTING && NeverEncoded(z, "a", bad)
    ensures var w := Exec(schema, z, [Attach, Write("a", bad), Write("b", good)]);
      w.disk == map[] && Current(w, "b", SETTING) == good
  {
    ExecAll(schema, z, [], Attach);
    ExecAll(schema, z, [Attach], Write("a", bad));
    ExecAll(schema, z, [Attach] + [Write("a", bad)], Write("b", good));
    assert [] + [Attach] == [Attach];
    assert [Attach] + [Write("a", bad)] + [Write("b", good)] == [Attach, Write("a", bad), Write("b", good)];
    TwoUnsavedWrites(schema, z, Exec(schema, z, [Attach]), bad, good);
  }

  /** The smallest loss: a value for "a" that cannot be encoded is written, then a good one for "b". The second is
      in memory, and gone after a restart. */
  lemma LostTogether(schema: Schema, good: Value)
    requires "a" in schema && "b" in schema && schema["a"] == schema["b"] == SETTING
    ensures Plain(schema, "b")
    ensures var ops := [Attach, Write("a", Datum(0)), Write("b", good)];
      && Current(Exec(schema, PICKY, ops), "b", SETTING) == good
      && Exec(schema, PICKY, ops + [Birth]).db == map[]
  {
    SettingIsPlain(schema, "b");
    assert NeverEncoded(PICKY, "a", Datum(0));
    UnsavedRun(schema, PICKY, Datum(0), good);
    ExecAll(schema, PICKY, [Attach, Write("a", Datum(0)), Write("b", good)], Birth);
  }

  lemma TwoUnsavedWrites(schema: Schema, z: Serializer, w: World, bad: Value, good: Value)
    requires "a" in schema && "b" in schema && schema["a"] == schema["b"] == SETTING && w.attached
    requires NeverEncoded(z, "a", bad)
    ensures var w' := AfterSet(schema, z, AfterSet(schema, z, w, "a", bad, false), "b", good, false);
      w'.disk == w.disk && Current(w', "b", SETTING) == good
  {
    UnsavedWrite(schema, z, w, "a", bad);
    var w1 := w.(values := w.values["a" := bad], db := w.db["a" := bad]);
    assert w1.db["b" := good]["a"] == bad;
    UnsavedWrite(schema, z, w1, "b", good);
  }

  lemma UnsavedWrite(schema: Schema, z: Serializer, w: World, n: Name, v: Value)
    requires n in schema && schema[n] == SETTING && w.attached && !z.Encodes(w.db[n := v])
    ensures AfterSet(schema, z, w, n, v, false) == w.(values := w.values[n := v], db := w.db[n := v])
  {
  }

  // ----- Read-only and constant properties ------------------------------------------------------

  ghost predicate HoldsDefault(schema: Schema, w: World, n: Name)
    requires n in schema
  {
    n in w.values ==> w.values[n] == schema[n].default
  }

  lemma RefusedOrLands(schema: Schema, z: Serializer, w: World, n: Name, v: Value)
    requires n in schema
    ensures var w' := AfterSet(schema, z, w, n, v, false);
      || w' == w
      || (!schema[n].readonly && schema[n].adapt(v).Some? && w'.values ==
            if schema[n].customSet then w.values else w.values[n := schema[n].adapt(v).value])
  {
    RefusedInOrder(schema, z, w, n, v, false);
    if SetAnswer(schema, z, w, n, v, false).Ok? || SetAnswer(schema, z, w, n, v, false) == Err(NotSaved) {
      AcceptedLands(schema, z, w, n, v, false);
    }
  }

  lemma ReadOnlyStep(schema: Schema, z: Serializer, w: World, op: Op, n: Name)
    requires n in schema && schema[n].readonly && HoldsDefault(schema, w, n)
    ensures HoldsDefault(schema, Step(schema, z, w, op), n)
  {
    match op
    case Write(m, v) =>
      if m in schema {
        RefusedOrLands(schema, z, w, m, v);
      }
    case PostInit(done) => LandedValue(schema, z, w, done, n);
    case _ =>
  }

  /** Whatever is written and loaded, a read-only property without a getter of its own reads as its default. */
  lemma {:induction false} ReadOnlyReadsDefault(schema: Schema, z: Serializer, ops: seq<Op>, n: Name)
    requires n in schema && schema[n].readonly && !schema[n].customGet
    ensures HoldsDefault(schema, Exec(schema, z, ops), n)
    ensures Current(Exec(schema, z, ops), n, schema[n]) == schema[n].default
  {
    if ops != [] {
      ReadOnlyReadsDefault(schema, z, ops[..|ops| - 1], n);
      ReadOnlyStep(schema, z, Exec(schema, z, ops[..|ops| - 1]), ops[|ops| - 1], n);
    }
  }

  ghost predicate SameObject(ops: seq<Op>, i: nat, k: nat) {
    forall j: nat :: i <= j < k && j < |ops| ==> !ops[j].Birth?
  }

  lemma ValueStays(schema: Schema, z: Serializer, w: World, op: Op, n: Name)
    requires n in schema && n in w.values && !op.Birth?
    ensures n in Step(schema, z, w, op).values
  {
    match op
    case Write(m, v) =>
      if m in schema {
        RefusedOrLands(schema, z, w, m, v);
      }
    case PostInit(done) => LandedValue(schema, z, w, done, n);
    case _ =>
  }

  lemma {:induction false} ValuesStay(schema: Schema, z: Serializer, ops: seq<Op>, n: Name, i: nat, k: nat)
    requires n in schema && i <= k <= |ops| && n in Exec(schema, z, ops[..i]).values && SameObject(ops, i, k)
    ensures n in Exec(schema, z, ops[..k]).values
    decreases k
  {
    if i < k {
      ValuesStay(schema, z, ops, n, i, k - 1);
      ValueStays(schema, z, Exec(schema, z, ops[..k - 1]), ops[k - 1], n);
      ExecNext(schema, z, ops, k - 1);
    }
  }

  /** Of two writes to a constant property in one life, at least one changes nothing at all; with a default, both.
      If the property has a setter of its own, it must hold a value, like a copied default, before the first. */
  lemma ConstantTakesOneWrite(schema: Schema, z: Serializer, ops: seq<Op>, n: Name, i: nat, j: nat)
    requires n in schema && schema[n].constant
    requires i < j < |ops| && ops[i].Write? && ops[j].Write? && ops[i].name == ops[j].name == n
    requires SameObject(ops, i, j)
    requires schema[n].customSet ==> schema[n].default != Null || n in Exec(schema, z, ops[..i]).values
    ensures var first := Exec(schema, z, ops[..i + 1]) == Exec(schema, z, ops[..i]);
      var second := Exec(schema, z, ops[..j + 1]) == Exec(schema, z, ops[..j]);
      (first || second) && (schema[n].default != Null ==> first && second)
  {
    ConstantWrite(schema, z, ops, n, i);
    ConstantWrite(schema, z, ops, n, j);
    if n in Exec(schema, z, ops[..i + 1]).values {
      ValuesStay(schema, z, ops, n, i + 1, j);
    }
  }

  /** Else it never holds one: no write in that life is refused because the property is constant. */
  lemma {:induction false} OwnSetterStaysOpen(schema: Schema, z: Serializer, ops: seq<Op>, n: Name, i: nat, j: nat,
                                              v: Value)
    requires n in schema && schema[n].customSet && schema[n].default == Null
    requires i <= j <= |ops| && SameObject(ops, i, j) && n !in Exec(schema, z, ops[..i]).values
    ensures n !in Exec(schema, z, ops[..j]).values
    ensures SetAnswer(schema, z, Exec(schema, z, ops[..j]), n, v, false) != Err(ConstantParameter)
    decreases j
  {
    if i < j {
      OwnSetterStaysOpen(schema, z, ops, n, i, j - 1, v);
      ExecNext(schema, z, ops, j - 1);
      NothingInValues(schema, z, Exec(schema, z, ops[..j - 1]), ops[j - 1], n);
    }
    RefusedInOrder(schema, z, Exec(schema, z, ops[..j]), n, v, false);
  }

  lemma NothingInValues(schema: Schema, z: Serializer, w: World, op: Op, n: Name)
    requires n in schema && schema[n].customSet && n !in w.values && !op.Birth?
    ensures n !in Step(schema, z, w, op).values
  {
    match op
    case Write(m, v) =>
      if m in schema {
        RefusedOrLands(schema, z, w, m, v);
      }
    case PostInit(done) => LandedValue(schema, z, w, done, n);
    case _ =>
  }

  /** A constant written twice. */
  lemma ConstantIsRewritten(z: Serializer)
    ensures var gain := Property(Null, false, true, false, false, true, false, false, false, v => Some(v), v => true);
      var ops := [Write("gain", Datum(1)), Write("gain", Datum(2))];
      Exec(map["gain" := gain], z, ops).device == map["gain" := Datum(2)]
  {
    var gain := Property(Null, false, true, false, false, true, false, false, false, v => Some(v), v => true);
    var schema := map["gain" := gain];
    var ops := [Write("gain", Datum(1)), Write("gain", Datum(2))];
    var w1 := VOID.(device := map["gain" := Datum(1)]);
    assert ops[..0] == [] && ops[..1][..0] == [] && ops[..2] == ops;
    AcceptedLands(schema, z, VOID, "gain", Datum(1), false);
    AcceptedIsStored(schema, z, VOID, "gain", Datum(1), false);
    ExecNext(schema, z, ops, 0);
    assert Exec(schema, z, ops[..1]) == w1;
    AcceptedLands(schema, z, w1, "gain", Datum(2), false);
    ExecNext(schema, z, ops, 1);
  }

  lemma ConstantWrite(schema: Schema, z: Serializer, ops: seq<Op>, n: Name, i: nat)
    requires n in schema && schema[n].constant && i < |ops| && ops[i].Write? && ops[i].name == n
    ensures var w, w' := Exec(schema, z, ops[..i]), Exec(schema, z, ops[..i + 1]);
      && (w' == w || schema[n].customSet || n in w'.values)
      && (n in w.values || schema[n].default != Null ==> w' == w)
  {
    var w := Exec(schema, z, ops[..i]);
    ExecNext(schema, z, ops, i);
    RefusedInOrder(schema, z, w, n, ops[i].value, false);
    RefusedOrLands(schema, z, w, n, ops[i].value);
  }

  // ----- The other flags ---------------------------------------------------------------------

  /** Over any run, loading never changes an entry that was there before, if no getter of the property's own
      feeds the store and adapting is idempotent; whatever the flags of the property. */
  lemma LoadingChangesNothing(schema: Schema, z: Serializer, ops: seq<Op>, done: set<Name>, n: Name)
    requires Tame(schema, n)
    requires n in Exec(schema, z, ops).db
    ensures Entry(AfterLoad(schema, z, Exec(schema, z, ops), done).db, n) == Entry(Exec(schema, z, ops).db, n)
  {
    TameRun(schema, z, ops, n);
    TameLoad(schema, z, Exec(schema, z, ops), done, n);
  }

  lemma RewrittenEntry(schema: Schema, w: World, n: Name)
    requires n in w.db
    ensures var loaded := LoadedValues(schema, w);
      Entry(WithCreated(schema, w).db + Selected(loaded, Storing(schema)), n) ==
        Some(if n in loaded && n in Storing(schema) then loaded[n] else w.db[n])
  {
  }

  /** Loading puts each stored entry back, adapted, into the property or the device that it belongs to; an entry
      that a write would refuse, even while constants are open, changes neither. */
  lemma LoadingPutsBack(schema: Schema, z: Serializer, w: World, done: set<Name>, n: Name)
    requires n in schema && w.attached && n in w.db && forall d :: z.Encodes(d)
    requires forall m :: m in schema && schema[m].customGet ==> m in w.device
    ensures var p, w', a := schema[n], AfterLoad(schema, z, w, done), schema[n].adapt(w.db[n]);
      if (p.dbInit || p.dbPersist) && !p.readonly && a.Some? && (p.customSet ==> p.deviceTakes(a.value)) then
        && Entry(w'.values, n) == (if p.customSet then Entry(w.values, n) else a)
        && Entry(w'.device, n) == (if p.customSet then a else Entry(w.device, n))
      else
        Entry(w'.values, n) == Entry(w.values, n) && Entry(w'.device, n) == Entry(w.device, n)
  {
    LoadIsFlushed(schema, z, w, done);
    LandedValue(schema, z, w, done, n);
    LandedDevice(schema, z, w, done, n);
    TakenFromEntry(schema, w, n);
  }

  lemma TakenFromEntry(schema: Schema, w: World, n: Name)
    requires n in schema && n in w.db
    ensures var p, a := schema[n], schema[n].adapt(w.db[n]);
      Entry(LoadedValues(schema, w), n) ==
        if (p.dbInit || p.dbPersist) && !p.readonly && a.Some? && (p.customSet ==> p.deviceTakes(a.value)) then a
        else None
  {
    LoadedMeans(schema, w, n);
  }

  /** In general an entry that was there before is changed exactly if the load gets through, the property is
      loaded and stored, nothing on the way refuses the entry, and adapting changes it. */
  lemma LoadingRewrites(schema: Schema, z: Serializer, w: World, done: set<Name>, n: Name)
    requires w.attached && n in w.db
    ensures n in AfterLoad(schema, z, w, done).db
    ensures AfterLoad(schema, z, w, done).db[n] != w.db[n] <==>
      && GetsThrough(schema, z, w)
      && n in schema && schema[n].Loads() && schema[n].Stores()
      && Adapted(w, n, schema[n], w.db[n], true).Ok? && Adapted(w, n, schema[n], w.db[n], true).value != w.db[n]
  {
    if GetsThrough(schema, z, w) {
      RewrittenEntry(schema, w, n);
      FinishedLoad(schema, z, w, done);
      LoadedMeans(schema, w, n);
    } else {
      UnfinishedLoad(schema, z, w, done, n);
    }
    assert Entry(AfterLoad(schema, z, w, done).db, n).Some?;
  }

  lemma FinishedLoad(schema: Schema, z: Serializer, w: World, done: set<Name>)
    requires w.attached && GetsThrough(schema, z, w)
    ensures AfterLoad(schema, z, w, done).db ==
      WithCreated(schema, w).db + Selected(LoadedValues(schema, w), Storing(schema))
  {
  }

  /** A load that does not get through keeps what is stored. */
  lemma UnfinishedLoad(schema: Schema, z: Serializer, w: World, done: set<Name>, n: Name)
    requires w.attached && n in w.db && !GetsThrough(schema, z, w)
    ensures Entry(AfterLoad(schema, z, w, done).db, n) == Some(w.db[n])
  {
    SelectedEntry(w.db, Created(schema, w), done, n);
  }

  lemma LoadedMeans(schema: Schema, w: World, n: Name)
    requires n in w.db
    ensures n in LoadedValues(schema, w) <==>
      n in schema && schema[n].Loads() && Adapted(w, n, schema[n], w.db[n], true).Ok?
    ensures n in LoadedValues(schema, w) ==>
      LoadedValues(schema, w)[n] == Adapted(w, n, schema[n], w.db[n], true).value
    ensures n in Storing(schema) <==> n in schema && schema[n].Stores()
  {
  }

  /** A getter that reads 7 from the device, where adapting allows no more than 5. */
  function Clamped(v: Value): Option<Value> {
    if v.Datum? && v.content > 5 then Some(Datum(5)) else Some(v)
  }

  const GAUGE := Property(Datum(0), false, false, true, true, false, false, true, false, Clamped, v => true)

  /** With a getter of its own the store gets what the getter reads ... */
  lemma GaugeIsStored(schema: Schema, z: Serializer, w: World, done: set<Name>)
    requires schema == map["gauge" := GAUGE] && forall d :: z.Encodes(d)
    requires w.attached && "gauge" !in w.db && Entry(w.device, "gauge") == Some(Datum(7))
    ensures Entry(AfterLoad(schema, z, w, done).disk, "gauge") == Some(Datum(7))
  {
    CreatedEntry(schema, w, "gauge");
    assert "gauge" !in LoadedValues(schema, w);
    LoadFollows(schema, z, w, done, "gauge");
  }

  /** ... and the next load changes it. */
  lemma GaugeIsRewritten(schema: Schema, z: Serializer, w: World, done: set<Name>)
    requires schema == map["gauge" := GAUGE] && forall d :: z.Encodes(d)
    requires w.attached && Entry(w.db, "gauge") == Some(Datum(7))
    ensures Entry(AfterLoad(schema, z, w, done).db, "gauge") == Some(Datum(5))
  {
    GaugeIsClamped(schema, w);
    LoadedIsRewritten(schema, z, w, done, "gauge");
  }

  lemma GaugeIsClamped(schema: Schema, w: World)
    requires schema == map["gauge" := GAUGE] && Entry(w.db, "gauge") == Some(Datum(7))
    ensures Entry(LoadedValues(schema, w), "gauge") == Some(Datum(5))
  {
  }

  lemma LoadedIsRewritten(schema: Schema, z: Serializer, w: World, done: set<Name>, n: Name)
    requires n in schema && schema[n].Stores() && n in w.db && n in LoadedValues(schema, w)
    requires w.attached && GetsThrough(schema, z, w)
    ensures Entry(AfterLoad(schema, z, w, done).db, n) == Some(LoadedValues(schema, w)[n])
  {
    RewrittenEntry(schema, w, n);
  }

  lemma ReloadedEntry(schema: Schema, z: Serializer, ops: seq<Op>, n: Name)
    ensures var w := Exec(schema, z, ops + [Birth, Attach]);
      w.attached && Entry(w.db, n) == Entry(Exec(schema, z, ops).disk, n)
  {
    ExecAll(schema, z, ops, Birth);
    ExecAll(schema, z, ops + [Birth], Attach);
    assert ops + [Birth] + [Attach] == ops + [Birth, Attach];
  }

  lemma GaugeRun(schema: Schema, z: Serializer, device: Data)
    requires schema == map["gauge" := GAUGE] && forall d :: z.Encodes(d)
    requires Entry(device, "gauge") == Some(Datum(7))
    ensures Entry(Exec(schema, z, [Drift(device), Attach, PostInit({})]).disk, "gauge") == Some(Datum(7))
  {
    ExecAll(schema, z, [], Drift(device));
    ExecAll(schema, z, [Drift(device)], Attach);
    ExecAll(schema, z, [Drift(device), Attach], PostInit({}));
    assert [] + [Drift(device)] == [Drift(device)] && [Drift(device)] + [Attach] == [Drift(device), Attach];
    assert [Drift(device), Attach] + [PostInit({})] == [Drift(device), Attach, PostInit({})];
    GaugeIsStored(schema, z, Exec(schema, z, [Drift(device), Attach]), {});
  }

  /** A run, with idempotent adapting, in which loading changes an entry. */
  lemma GetterIsRewritten(schema: Schema, z: Serializer, device: Data)
    requires schema == map["gauge" := GAUGE] && forall d :: z.Encodes(d)
    requires Entry(device, "gauge") == Some(Datum(7))
    ensures Idempotent(GAUGE)
    ensures var w := Exec(schema, z, [Drift(device), Attach, PostInit({})] + [Birth, Attach]);
      && Entry(w.db, "gauge") == Some(Datum(7))
      && Entry(AfterLoad(schema, z, w, {}).db, "gauge") == Some(Datum(5))
  {
    var first := [Drift(device), Attach, PostInit({})];
    GaugeRun(schema, z, device);
    ReloadedEntry(schema, z, first, "gauge");
    GaugeIsRewritten(schema, z, Exec(schema, z, first + [Birth, Attach]), {});
  }

  lemma InitOnlyHistory(schema: Schema, z: Serializer, ops: seq<Op>, n: Name)
    requires n in schema && schema[n].dbInit && !schema[n].Stores()
    ensures var h := HistoryOf(schema, z, ops, n);
      h.Lawful() && h.Unwritten(0, |ops|) && h.file[0].None?
  {
    forall t: nat | t < |ops|
      ensures Follows(schema, z, Exec(schema, z, ops[..t]), ops[t], Exec(schema, z, ops[..t + 1]), n)
    {
      InitOnlyStep(schema, z, Exec(schema, z, ops[..t]), ops[t], n);
      ExecNext(schema, z, ops, t);
    }
    FollowingIsLawful(schema, z, ops, n);
  }

  lemma InitOnlyStep(schema: Schema, z: Serializer, w: World, op: Op, n: Name)
    requires n in schema && schema[n].dbInit && !schema[n].Stores()
    ensures Follows(schema, z, w, op, Step(schema, z, w, op), n)
  {
    match op
    case Write(m, v) => WriteFollows(schema, z, w, m, v, n);
    case PostInit(done) => LoadFollows(schema, z, w, done, n);
    case _ =>
  }

  /** An entry that is only initialised from the file never changes once it got there. */
  lemma InitOnlyNeverChanges(schema: Schema, z: Serializer, ops: seq<Op>, n: Name, k: nat)
    requires n in schema && schema[n].dbInit && !schema[n].Stores()
    requires k <= |ops| && n in Exec(schema, z, ops[..k]).disk
    ensures var mid, end := Exec(schema, z, ops[..k]), Exec(schema, z, ops);
      Entry(end.db, n) == Entry(end.disk, n) == Entry(mid.disk, n)
  {
    var h := HistoryOf(schema, z, ops, n);
    InitOnlyHistory(schema, z, ops, n);
    HistoryMeans(schema, z, ops, n, k, k);
    FileIsMemory(h, k);
    BothStay(h, k, |ops|);
  }

  lemma CommitOnlyStep(schema: Schema, z: Serializer, w: World, op: Op, n: Name)
    requires n in schema && schema[n].dbCommit && !schema[n].Loads()
    ensures Follows(schema, z, w, op, Step(schema, z, w, op), n)
  {
    match op
    case Write(m, v) => WriteFollows(schema, z, w, m, v, n);
    case PostInit(done) =>
      assert n !in LoadedValues(schema, w);
      LoadFollows(schema, z, w, done, n);
    case _ =>
  }

  lemma CommitOnlyHistory(schema: Schema, z: Serializer, ops: seq<Op>, n: Name)
    requires n in schema && schema[n].dbCommit && !schema[n].Loads()
    ensures HistoryOf(schema, z, ops, n).Lawful()
  {
    forall t: nat | t < |ops|
      ensures Follows(schema, z, Exec(schema, z, ops[..t]), ops[t], Exec(schema, z, ops[..t + 1]), n)
    {
      CommitOnlyStep(schema, z, Exec(schema, z, ops[..t]), ops[t], n);
      ExecNext(schema, z, ops, t);
    }
    FollowingIsLawful(schema, z, ops, n);
  }

  /** An entry that is only committed holds the last write that was stored: in memory until the file is loaded
      anew, and for good once the k-th operation saved it before that ... */
  lemma CommitOnlyFollowsWrites(schema: Schema, z: Serializer, ops: seq<Op>, n: Name, i: nat, k: nat)
    requires n in schema && schema[n].dbCommit && !schema[n].Loads()
    requires i <= k < |ops| && StoredAt(schema, z, ops, i, n).Some? && Unwritten(schema, z, ops, i + 1, n)
    requires SameLife(ops, i + 1, k + 1)
    ensures var end, v := Exec(schema, z, ops), StoredAt(schema, z, ops, i, n);
      && Entry(Exec(schema, z, ops[..k + 1]).db, n) == v
      && (FlushesAt(schema, z, ops, k) ==> Entry(end.db, n) == v && Entry(end.disk, n) == v)
  {
    CommitOnlyHistory(schema, z, ops, n);
    HistoryMeans(schema, z, ops, n, i, 0);
    HistoryMeans(schema, z, ops, n, i + 1, k + 1);
    HistoryMeans(schema, z, ops, n, k, 0);
    HistoryMeans(schema, z, ops, n, k + 1, 0);
    StoredStays(HistoryOf(schema, z, ops, n), i, k);
  }

  /** ... exists only if there was one ... */
  lemma CommitOnlyNeedsAWrite(schema: Schema, z: Serializer, ops: seq<Op>, n: Name)
    requires n in schema && schema[n].dbCommit && !schema[n].Loads()
    requires Unwritten(schema, z, ops, 0, n)
    ensures n !in Exec(schema, z, ops).db && n !in Exec(schema, z, ops).disk
  {
    CommitOnlyHistory(schema, z, ops, n);
    HistoryMeans(schema, z, ops, n, 0, 0);
    var h := HistoryOf(schema, z, ops, n);
    assert h.NoCreation(0, |ops|);
    NothingAppears(h, |ops|);
  }

  /** ... and loading never puts it back into the property. */
  lemma CommitOnlyIsNeverLoaded(schema: Schema, z: Serializer, w: World, done: set<Name>, n: Name)
    requires n in schema && schema[n].dbCommit && !schema[n].Loads()
    ensures Current(AfterLoad(schema, z, w, done), n, schema[n]) == Current(w, n, schema[n])
  {
    LandedValue(schema, z, w, done, n);
    LandedDevice(schema, z, w, done, n);
    assert n !in LoadedValues(schema, w);
  }
}
