/** A `Thing` with its properties, as an object: what its methods do is what `PropertyLives` says of values. */
module Things {
  import opened Wrappers
  import opened JsonStorages
  import opened PropertyLives
  import opened Sequences

  // ----- Loading one entry at a time ----------------------------------------------------------------

  ghost predicate SameMemory(a: World, b: World) {
    a.values == b.values && a.device == b.device && a.attached == b.attached && a.db == b.db
  }

  lemma SelectOneMore(base: Data, loaded: Data, which: set<Name>, n: Name, v: Value)
    ensures base + Selected(loaded[n := v], which) ==
      if n in which then (base + Selected(loaded, which))[n := v]
      else base + Selected(loaded - {n}, which)
  {
    assert forall x :: x in loaded[n := v] <==> x in loaded || x == n;
    assert n in which ==> Selected(loaded[n := v], which) == Selected(loaded, which)[n := v];
    assert n !in which ==> Selected(loaded[n := v], which) == Selected(loaded - {n}, which);
  }

  lemma LandOneMore(schema: Schema, z: Serializer, w: World, loaded: Data, n: Name, v: Value)
    requires n in schema && n !in loaded
    ensures SameMemory(Landed(schema, w, loaded[n := v]), Placed(z, Landed(schema, w, loaded), n, schema[n], v))
  {
    assert loaded - {n} == loaded;
    SelectOneMore(w.values, loaded, schema.Keys - CustomSet(schema), n, v);
    SelectOneMore(w.device, loaded, CustomSet(schema), n, v);
    SelectOneMore(w.db, loaded, Storing(schema), n, v);
  }

  /** What a write does in memory does not depend on the file. */
  lemma PlacedAlike(z: Serializer, a: World, b: World, n: Name, p: Property, v: Value)
    requires SameMemory(a, b)
    ensures SameMemory(Placed(z, a, n, p, v), Placed(z, b, n, p, v))
  {
  }

  /** The part of loading that has the names in `todo` still to come. */
  ghost function Part(schema: Schema, w: World, todo: set<Name>): World {
    Landed(schema, WithCreated(schema, w), LoadedValues(schema, w) - todo)
  }

  lemma PartAtStart(schema: Schema, w: World, todo: set<Name>)
    requires w.db.Keys <= todo
    ensures Part(schema, w, todo) == WithCreated(schema, w)
  {
    assert LoadedValues(schema, w) - todo == map[];
    assert Selected(map[], schema.Keys - CustomSet(schema)) == map[];
  }

  lemma OneLessToDo(all: Data, todo: set<Name>, n: Name)
    requires n in todo
    ensures all - (todo - {n}) == if n in all then (all - todo)[n := all[n]] else all - todo
  {
  }

  /** While constants are open, nothing that is already there counts against a write. */
  lemma EditingLooksAtNothing(w: World, w': World, n: Name, p: Property, v: Value)
    ensures Adapted(w, n, p, v, true) == Adapted(w', n, p, v, true)
  {
  }

  lemma PartTaken(schema: Schema, z: Serializer, w: World, now: World, todo: set<Name>, n: Name)
    requires n in todo && n in LoadedValues(schema, w) && SameMemory(now, Part(schema, w, todo))
    ensures SameMemory(AfterSet(schema, z, now, n, w.db[n], true), Part(schema, w, todo - {n}))
  {
    var all := LoadedValues(schema, w);
    OneLessToDo(all, todo, n);
    LandOneMore(schema, z, WithCreated(schema, w), all - todo, n, all[n]);
    EditingLooksAtNothing(w, now, n, schema[n], w.db[n]);
    PlacedAlike(z, now, Part(schema, w, todo), n, schema[n], all[n]);
  }

  lemma PartSkipped(schema: Schema, z: Serializer, w: World, now: World, todo: set<Name>, n: Name)
    requires n in todo && n !in LoadedValues(schema, w)
    ensures Part(schema, w, todo - {n}) == Part(schema, w, todo)
    ensures n in w.db && n in schema && schema[n].Loads() ==> AfterSet(schema, z, now, n, w.db[n], true) == now
  {
    OneLessToDo(LoadedValues(schema, w), todo, n);
    if n in w.db && n in schema && schema[n].Loads() {
      EditingLooksAtNothing(w, now, n, schema[n], w.db[n]);
    }
  }

  /** The next entry of the loop: `now` is the object with `todo` to come. */
  lemma PartOneMore(schema: Schema, z: Serializer, w: World, now: World, todo: set<Name>, n: Name)
    requires n in todo && SameMemory(now, Part(schema, w, todo))
    ensures SameMemory(
      if n in w.db && n in schema && schema[n].Loads() then AfterSet(schema, z, now, n, w.db[n], true) else now,
      Part(schema, w, todo - {n}))
  {
    if n in LoadedValues(schema, w) {
      PartTaken(schema, z, w, now, todo, n);
    } else {
      PartSkipped(schema, z, w, now, todo, n);
    }
  }

  /** What the file may hold on the way: the store with some of the entries written back, and the latest store
      if that can be encoded. */
  ghost predicate FileOnTheWay(schema: Schema, z: Serializer, w: World, now: World, saved: set<Name>) {
    && now.disk == Rewritten(WithCreated(schema, w).db, LoadedValues(schema, w), Storing(schema), saved)
    && z.Encodes(now.disk)
    && (z.Encodes(now.db) ==> now.disk == now.db)
  }

  lemma FileAtStart(schema: Schema, z: Serializer, w: World, now: World)
    requires now == WithCreated(schema, w).(disk := WithCreated(schema, w).db) && z.Encodes(now.db)
    ensures FileOnTheWay(schema, z, w, now, {})
  {
    assert Selected(LoadedValues(schema, w), {}) == map[];
  }

  lemma SelectTheOthers(loaded: Data, storing: set<Name>, all: set<Name>, todo: set<Name>)
    requires loaded.Keys <= all
    ensures Selected(loaded - todo, storing) == Selected(loaded, storing * (all - todo))
  {
  }

  /** The store with `todo` to come is the store with the others written back. */
  lemma PartIsRewritten(schema: Schema, w: World, all: set<Name>, todo: set<Name>)
    requires LoadedValues(schema, w).Keys <= all && w.attached
    ensures Part(schema, w, todo).db ==
      Rewritten(WithCreated(schema, w).db, LoadedValues(schema, w), Storing(schema), all - todo)
  {
    SelectTheOthers(LoadedValues(schema, w), Storing(schema), all, todo);
  }

  /** A write either leaves file and store alone, or tries to save the store. */
  lemma SetSaves(schema: Schema, z: Serializer, now: World, n: Name, v: Value)
    requires now.attached
    ensures var next := AfterSet(schema, z, now, n, v, true);
      || (next.disk == now.disk && (next.db == now.db || !z.Encodes(next.db)))
      || (next.disk == next.db && z.Encodes(next.db))
  {
  }

  lemma FileMovesOn(schema: Schema, z: Serializer, w: World, now: World, saved: set<Name>, n: Name, v: Value,
                    all: set<Name>, todo: set<Name>) returns (saved': set<Name>)
    requires FileOnTheWay(schema, z, w, now, saved) && LoadedValues(schema, w).Keys <= all && w.attached && now.attached
    requires SameMemory(AfterSet(schema, z, now, n, v, true), Part(schema, w, todo))
    ensures FileOnTheWay(schema, z, w, AfterSet(schema, z, now, n, v, true), saved')
  {
    SetSaves(schema, z, now, n, v);
    PartIsRewritten(schema, w, all, todo);
    var next := AfterSet(schema, z, now, n, v, true);
    saved' := if next.disk == now.disk then saved else all - todo;
  }

  lemma NothingToDo(m: Data)
    ensures m - {} == m
  {
  }

  lemma LoadIsDone(schema: Schema, z: Serializer, w: World, now: World, saved: set<Name>)
    requires w.attached && GetsThrough(schema, z, w)
    requires SameMemory(now, Part(schema, w, {})) && FileOnTheWay(schema, z, w, now, saved)
    ensures now == AfterLoad(schema, z, w, saved)
  {
    NothingToDo(LoadedValues(schema, w));
  }

  /** The getters, as `create_missing_properties` finds them. */
  ghost predicate Reads(schema: Schema, w: World, read: Name -> Option<Value>) {
    forall n :: n in schema ==>
      read(n) == if CanRead(w, n, schema[n]) then Some(Current(w, n, schema[n])) else None
  }

  /** What `create_missing_properties` creates, in terms of the properties ... */
  lemma CreatedAreMissing(schema: Schema, w: World, names: seq<Name>, read: Name -> Option<Value>)
    requires forall n :: n in names <==> n in schema && schema[n].Loads()
    requires Reads(schema, w, read)
    ensures AllReadable(w.db, names, read) <==> AllRead(schema, w)
    ensures forall n :: n in Missing(w.db, names, read) ==> n in Created(schema, w)
    ensures AllRead(schema, w) ==> forall n :: n in Created(schema, w) ==> n in Missing(w.db, names, read)
  {
    MissingMeaning(w.db, names, read);
    if AllReadable(w.db, names, read) {
      forall n | n in schema && schema[n].Loads() && n !in w.db ensures CanRead(w, n, schema[n]) {
        var i :| 0 <= i < |names| && names[i] == n;
      }
    }
  }

  /** ... and what it leaves behind. */
  lemma CreatedIsFilled(schema: Schema, w: World, created: seq<Name>, read: Name -> Option<Value>)
    requires forall n :: n in created ==> n in Created(schema, w)
    requires Reads(schema, w, read)
    ensures Filled(w.db, created, read) == w.db + Selected(Created(schema, w), set n | n in created)
  {
    assert forall n :: n in created <==> n in Selected(Created(schema, w), set n | n in created);
  }

  lemma AllCreated(schema: Schema, w: World, created: seq<Name>)
    requires forall n :: n in Created(schema, w) ==> n in created
    ensures w.db + Selected(Created(schema, w), set n | n in created) == WithCreated(schema, w).db
  {
    assert Created(schema, w).Keys - (set n | n in created) == {};
    NothingToDo(Created(schema, w));
  }

  lemma MissingAreCreated(schema: Schema, w: World, names: seq<Name>, read: Name -> Option<Value>)
    requires forall n :: n in names <==> n in schema && schema[n].Loads()
    requires Reads(schema, w, read)
    ensures var created := Missing(w.db, names, read);
      && Filled(w.db, created, read) == w.db + Selected(Created(schema, w), set n | n in created)
      && (AllReadable(w.db, names, read) <==> AllRead(schema, w))
      && (AllRead(schema, w) ==> Filled(w.db, created, read) == WithCreated(schema, w).db)
      && (AllRead(schema, w) ==> forall n :: n in created <==> n in Created(schema, w))
  {
    var created := Missing(w.db, names, read);
    CreatedAreMissing(schema, w, names, read);
    CreatedIsFilled(schema, w, created, read);
    if AllRead(schema, w) {
      AllCreated(schema, w, created);
    }
  }

  function OnDisk(s: Store): Data {
    if s.disk.Some? then s.disk.value else map[]
  }

  class Thing {
    const schema: Schema
    const order: seq<Name>  // the order of the descriptors
    const serializer: Serializer
    var values: Data
    var device: Data
    var engine: JSONFileStorage?

    function View(): World
      reads this, engine, if engine != null then {engine.file} else {}
    {
      if engine == null then World(values, device, false, map[], map[])
      else World(values, device, true, engine.data, OnDisk(engine.View()))
    }

    /** The engine was opened on a file that can be read, and uses the serializer of the object. */
    ghost predicate Valid()
      reads this, engine, if engine != null then {engine.file} else {}
    {
      && (forall n :: n in order <==> n in schema) && NoDuplicates(order)
      && serializer.RoundTrips()
      && (engine != null ==> engine.serializer == serializer && engine.View().disk.Some?)
    }

    ghost function Footprint(): set<object>
      reads this
    {
      if engine == null then {this} else {this, engine, engine.file}
    }

    /** A new object, before any keyword is set. */
    constructor Born(schema: Schema, order: seq<Name>, serializer: Serializer, device: Data)
      requires NoDuplicates(order) && forall n :: n in order <==> n in schema
      requires serializer.RoundTrips()
      ensures Valid() && this.schema == schema && this.serializer == serializer && engine == null
      ensures View() == World(Newborn(schema), device, false, map[], map[])
      ensures forall n :: n in values <==> n in schema && schema[n].deepcopyDefault && n != "name"
      ensures forall n :: n in values ==> values[n] == schema[n].default
    {
      this.schema, this.order, this.serializer, this.device := schema, order, serializer, device;
      values, engine := Newborn(schema), null;
    }

    /** `prepare_object_storage`: the storage was just opened. */
    method Attach(storage: JSONFileStorage)
      requires Valid() && storage.serializer == serializer && storage.Synced()
      modifies this
      ensures Valid() && engine == storage
      ensures View() == old(View()).(attached := true, db := storage.data, disk := storage.data)
    {
      engine := storage;
    }

    method SetAttr(n: Name, v: Value, editing: bool) returns (r: Result<Value, SetError>)
      requires Valid()
      modifies Footprint()
      ensures Valid() && engine == old(engine)
      ensures View() == AfterSet(schema, serializer, old(View()), n, v, editing)
      ensures r == SetAnswer(schema, serializer, old(View()), n, v, editing)
      ensures n !in schema ==> r == Err(NoSuchProperty)
      ensures n in schema ==> (r == Err(ReadOnly) <==> schema[n].readonly)
      ensures n in schema ==> (r == Err(Invalid) <==> !schema[n].readonly && schema[n].adapt(v).None?)
      ensures n in schema ==> (r == Err(ConstantParameter) <==>
        && !schema[n].readonly && schema[n].adapt(v).Some?
        && schema[n].constant && !editing && (n in old(values) || schema[n].default != Null))
      ensures r.Err? && r.error != NotSaved ==> View() == old(View())
    {
      if n in schema {
        RefusedInOrder(schema, serializer, View(), n, v, editing);
      }
      if n !in schema {
        return Err(NoSuchProperty);
      }
      var p := schema[n];
      if p.readonly {
        return Err(ReadOnly);
      }
      var adapted := p.adapt(v);
      if adapted.None? {
        return Err(Invalid);
      }
      if p.constant && !editing {
        if n in values || p.default != Null {
          return Err(ConstantParameter);
        }
      }
      if p.customSet && !p.deviceTakes(adapted.value) {
        return Err(DeviceRefused);
      }
      if p.customSet {
        device := device[n := adapted.value];
      } else {
        values := values[n := adapted.value];
      }
      var saved := PostValueSet(n, p, adapted.value);
      r := if saved then Ok(adapted.value) else Err(NotSaved);
    }

    /** `_post_value_set`: the value goes to the store, if the property stores and there is one. */
    method PostValueSet(n: Name, p: Property, v: Value) returns (saved: bool)
      requires Valid()
      modifies engine, if engine != null then {engine.file} else {}
      ensures Valid() && engine == old(engine)
      ensures View() == AfterStore(serializer, old(View()), n, p, v)
      ensures saved <==> !(p.Stores() && engine != null) || serializer.Encodes(View().db)
    {
      saved := true;
      if (p.dbPersist || p.dbCommit) && engine != null {
        saved := engine.SetProperty(n, v);
      }
    }

    method DbInitObjects() returns (names: seq<Name>)
      requires Valid()
      ensures forall n :: n in names <==> n in schema && schema[n].Loads()
      ensures NoDuplicates(names)
    {
      names := [];
      for i := 0 to |order|
        invariant forall n :: n in names <==> n in order[..i] && schema[n].Loads()
        invariant NoDuplicates(names)
      {
        if schema[order[i]].Loads() {
          names := names + [order[i]];
        }
      }
      assert order[..|order|] == order;
    }

    /** `load_from_DB`, taking the stored entries in any order. It raises if what is missing cannot be read or saved;
        an entry that cannot be written back or saved is passed over. */
    method LoadFromDB() returns (ok: bool, ghost done: set<Name>)
      requires Valid()
      modifies Footprint()
      ensures Valid() && engine == old(engine)
      ensures View() == AfterLoad(schema, serializer, old(View()), done)
      ensures ok <==> engine == null || GetsThrough(schema, serializer, old(View()))
    {
      ok, done := true, {};
      if engine == null {
        return;
      }
      var w := View();
      var names := DbInitObjects();
      var read := (n: Name) =>
        if n in schema && CanRead(w, n, schema[n]) then Some(Current(w, n, schema[n])) else None;
      ghost var created := Missing(w.db, names, read);
      MissingAreCreated(schema, w, names, read);
      var missing := engine.CreateMissingProperties(names, read);
      if missing.Err? {
        return false, set n | n in created;
      }
      done := WriteBack(w, missing.value);
    }

    /** The loop over the stored entries; `w` is the object as it was before the missing ones were created. */
    method WriteBack(ghost w: World, missing: seq<Name>) returns (ghost done: set<Name>)
      requires Valid() && engine != null && w.attached && GetsThrough(schema, serializer, w)
      requires View() == WithCreated(schema, w).(disk := WithCreated(schema, w).db)
      requires forall n :: n in missing <==> n in Created(schema, w)
      modifies Footprint()
      ensures Valid() && engine == old(engine)
      ensures View() == AfterLoad(schema, serializer, w, done)
    {
      var stored := engine.data;
      var todo := stored.Keys;
      done := {};
      PartAtStart(schema, w, todo);
      FileAtStart(schema, serializer, w, View());
      while todo != {}
        invariant Valid() && engine == old(engine) && todo <= stored.Keys
        invariant SameMemory(View(), Part(schema, w, todo)) && FileOnTheWay(schema, serializer, w, View(), done)
        decreases todo
      {
        var n :| n in todo;
        PartOneMore(schema, serializer, w, View(), todo, n);
        todo := todo - {n};
        if n in schema && (schema[n].dbInit || schema[n].dbPersist) && n !in missing {
          ghost var done' := FileMovesOn(schema, serializer, w, View(), done, n, stored[n], stored.Keys, todo);
          var r := SetAttr(n, stored[n], true);
          done := done';
        }
      }
      LoadIsDone(schema, serializer, w, View(), done);
    }
  }
}
