/** The JSON file behind a `Thing`'s settings: a dictionary in memory, written to the file after each change. */
module JsonStorages {
  import opened Sequences
  import opened Wrappers

  newtype byte = x: int | 0 <= x < 256

  type Name = string

  type Data = map<Name, Value>

  /** `dumps` has no answer for data that cannot be written as JSON, `loads` none for bytes that are not. */
  datatype Serializer = Serializer(dumps: Data -> Option<seq<byte>>, loads: seq<byte> -> Option<Data>)
  {
    ghost predicate RoundTrips() {
      forall d :: Encodes(d) ==> dumps(d).value != [] && loads(dumps(d).value) == Some(d)
    }

    predicate Encodes(d: Data) { dumps(d).Some? }
  }

  datatype StorageError = NotSerializable | NotDecodable | NotFound | GetterFailed

  class File {
    var present: bool
    var bytes: seq<byte>

    constructor ()
      ensures !present
    {
      present, bytes := false, [];
    }
  }

  /** What `_load` makes of the file; an empty or absent file is an empty dictionary, a broken one is an error. */
  function LoadOf(s: Serializer, f: File): Option<Data>
    reads f
  {
    if !f.present || f.bytes == [] then Some(map[]) else s.loads(f.bytes)
  }

  /** The values `create_missing_properties` stores, in the order it gets to them: up to the first getter
      that fails, for the names not stored before. */
  function Missing(data: Data, names: seq<Name>, read: Name -> Option<Value>): (r: seq<Name>) {
    if names == [] then []
    else if names[0] in data then Missing(data, names[1..], read)
    else if read(names[0]).None? then []
    else [names[0]] + Missing(data, names[1..], read)
  }

  lemma MissingNext(data: Data, names: seq<Name>, read: Name -> Option<Value>, i: nat)
    requires i < |names|
    ensures Missing(data, names[i..], read) ==
      if names[i] in data then Missing(data, names[i + 1..], read)
      else if read(names[i]).None? then []
      else [names[i]] + Missing(data, names[i + 1..], read)
  {
    assert names[i..][1..] == names[i + 1..];
  }

  predicate AllReadable(data: Data, names: seq<Name>, read: Name -> Option<Value>) {
    forall i :: 0 <= i < |names| && names[i] !in data ==> read(names[i]).Some?
  }

  /** Stored entries stay; each missing name gets the value read for it. */
  function Filled(data: Data, created: seq<Name>, read: Name -> Option<Value>): Data {
    map n | n in data.Keys + (set c | c in created) ::
      if n !in data && read(n).Some? then read(n).value else if n in data then data[n] else Null
  }

  lemma FillOneMore(data: Data, created: seq<Name>, n: Name, read: Name -> Option<Value>)
    requires n !in data && read(n).Some?
    ensures Filled(data, created + [n], read) == Filled(data, created, read)[n := read(n).value]
  {
    assert forall c :: c in created + [n] <==> c in created || c == n;
  }

  function Updated(data: Data, properties: seq<(Name, Value)>): Data {
    if properties == [] then data
    else
      var last := properties[|properties| - 1];
      Updated(data, properties[..|properties| - 1])[last.0 := last.1]
  }

  // ----- One change -------------------------------------------------------------------------------

  /** What a storage holds in memory, and what a fresh load of its file would give. */
  datatype Store = Store(data: Data, disk: Option<Data>)
  {
    predicate Synced() { disk == Some(data) }

    function Get(n: Name): Result<Value, StorageError> {
      if n in data then Ok(data[n]) else Err(NotFound)
    }
  }

  datatype Change =
    | Put(name: Name, value: Value)
    | PutAll(properties: seq<(Name, Value)>)
    | Create(names: seq<Name>, read: Name -> Option<Value>)
    | Reopened                                              // a new storage over the same file

  /** Whether the change gets as far as saving: one that fails to read a missing property does not. */
  predicate Saves(s: Store, c: Change) {
    match c
    case Create(names, read) => AllReadable(s.data, names, read)
    case Reopened => false
    case _ => true
  }

  function DataAfter(s: Store, c: Change): Data {
    match c
    case Put(n, v) => s.data[n := v]
    case PutAll(properties) => Updated(s.data, properties)
    case Create(names, read) => Filled(s.data, Missing(s.data, names, read), read)
    case Reopened => if s.disk.Some? then s.disk.value else s.data
  }

  /** Data that cannot be encoded stays in memory and leaves the file alone. */
  function After(z: Serializer, s: Store, c: Change): Store {
    var data := DataAfter(s, c);
    Store(data, if Saves(s, c) && z.Encodes(data) then Some(data) else s.disk)
  }

  class JSONFileStorage {
    const file: File
    const serializer: Serializer
    var data: Data

    /** Write-through: a storage opened afresh on the file would hold what this one holds. */
    predicate Synced()
      reads this, file
    {
      View().Synced()
    }

    function View(): Store
      reads this, file
    {
      Store(data, LoadOf(serializer, file))
    }

    constructor Over(file: File, serializer: Serializer, data: Data)
      ensures this.file == file && this.serializer == serializer && this.data == data
    {
      this.file, this.serializer, this.data := file, serializer, data;
    }

    static method Open(file: File, serializer: Serializer) returns (r: Result<JSONFileStorage, StorageError>)
      ensures r.Ok? <==> LoadOf(serializer, file).Some?
      ensures r.Ok? ==> fresh(r.value) && r.value.file == file && r.value.serializer == serializer && r.value.Synced()
      ensures !file.present || file.bytes == [] ==> r.Ok? && r.value.data == map[]
      ensures file.present && file.bytes != [] ==>
        match serializer.loads(file.bytes)
        case Some(d) => r.Ok? && r.value.data == d
        case None => r == Err(NotDecodable)
    {
      var loaded := LoadOf(serializer, file);
      if loaded.None? {
        return Err(NotDecodable);
      }
      var storage := new JSONFileStorage.Over(file, serializer, loaded.value);
      r := Ok(storage);
    }

    /** Nothing is written when the data cannot be encoded. */
    method Save() returns (ok: bool)
      requires serializer.RoundTrips()
      modifies file
      ensures ok == serializer.Encodes(data)
      ensures ok ==> Synced() && file.present && file.bytes == serializer.dumps(data).value
      ensures !ok ==> file.present == old(file.present) && file.bytes == old(file.bytes)
    {
      var encoded := serializer.dumps(data);
      ok := encoded.Some?;
      if ok {
        file.present, file.bytes := true, encoded.value;
      }
    }

    /** A write that cannot be encoded raises, but stays in memory: the file lags behind, unless it holds the
        same data already. */
    method SetProperty(name: Name, value: Value) returns (ok: bool)
      requires serializer.RoundTrips()
      modifies this, file
      ensures View() == After(serializer, old(View()), Put(name, value)) && View().Get(name) == Ok(value)
      ensures data == old(data)[name := value]
      ensures ok == serializer.Encodes(data)
      ensures Synced() <==> ok || old(View()).disk == Some(data)
    {
      data := data[name := value];
      ok := Save();
    }

    method SetProperties(properties: seq<(Name, Value)>) returns (ok: bool)
      requires serializer.RoundTrips()
      modifies this, file
      ensures View() == After(serializer, old(View()), PutAll(properties))
      ensures ok == serializer.Encodes(data)
      ensures Synced() <==> ok || old(View()).disk == Some(data)
    {
      for i := 0 to |properties|
        invariant data == Updated(old(data), properties[..i])
        invariant file.present == old(file.present) && file.bytes == old(file.bytes)
      {
        assert properties[..i + 1][..i] == properties[..i];
        data := data[properties[i].0 := properties[i].1];
      }
      assert properties[..|properties|] == properties;
      ok := Save();
    }

    method GetProperty(name: Name) returns (r: Result<Value, StorageError>)
      ensures r == View().Get(name)
    {
      if name !in data {
        return Err(NotFound);
      }
      r := Ok(data[name]);
    }

    /** A name that is not stored reads as None here. */
    method GetProperties(names: seq<Name>) returns (r: Data)
      ensures r.Keys == set n | n in names
      ensures forall n :: n in names ==>
        View().Get(n) == Ok(r[n]) || (View().Get(n) == Err(NotFound) && r[n] == Null)
    {
      r := map n | n in names :: if n in data then data[n] else Null;
    }

    /** A getter that fails ends the call with what it created so far in memory only. */
    method CreateMissingProperties(names: seq<Name>, read: Name -> Option<Value>)
      returns (r: Result<seq<Name>, StorageError>)
      requires serializer.RoundTrips()
      modifies this, file
      ensures View() == After(serializer, old(View()), Create(names, read))
      ensures r == if !AllReadable(old(data), names, read) then Err(GetterFailed)
                   else if !serializer.Encodes(data) then Err(NotSerializable)
                   else Ok(Missing(old(data), names, read))
      ensures Synced() <==> r.Ok? || old(View()).disk == Some(data)
    {
      var ok, missing := ReadMissing(names, read);
      if !ok {
        return Err(GetterFailed);
      }
      var saved := Save();
      r := if saved then Ok(missing) else Err(NotSerializable);
    }

    /** The loop over the properties. */
    method ReadMissing(names: seq<Name>, read: Name -> Option<Value>) returns (ok: bool, missing: seq<Name>)
      modifies this`data
      ensures data == Filled(old(data), Missing(old(data), names, read), read)
      ensures ok == AllReadable(old(data), names, read)
      ensures missing == Missing(old(data), names, read)
    {
      var existing := data;
      missing := [];
      for i := 0 to |names|
        invariant data == Filled(existing, missing, read)
        invariant missing + Missing(existing, names[i..], read) == Missing(existing, names, read)
        invariant forall k :: 0 <= k < i && names[k] !in existing ==> read(names[k]).Some?
      {
        MissingNext(existing, names, read, i);
        if names[i] !in existing {
          var v := read(names[i]);
          if v.None? {
            return false, missing;
          }
          FillOneMore(existing, missing, names[i], read);
          data := data[names[i] := v.value];
          missing := missing + [names[i]];
        }
      }
      ok := true;
    }
  }

  /** A storage opened on the file of a synced one holds the same data: the next life starts where this one ended. */
  method Reopen(storage: JSONFileStorage) returns (next: JSONFileStorage)
    requires storage.Synced()
    ensures fresh(next) && next.file == storage.file && next.serializer == storage.serializer
    ensures next.data == storage.data && next.Synced()
  {
    var r := JSONFileStorage.Open(storage.file, storage.serializer);
    next := r.value;
  }

  /** `set_properties` leaves each given name with the last value given for it ... */
  lemma {:induction false} LastGivenWins(data: Data, properties: seq<(Name, Value)>, k: nat)
    requires k < |properties|
    requires forall j :: k < j < |properties| ==> properties[j].0 != properties[k].0
    ensures properties[k].0 in Updated(data, properties)
    ensures Updated(data, properties)[properties[k].0] == properties[k].1
  {
    if k < |properties| - 1 {
      LastGivenWins(data, properties[..|properties| - 1], k);
    }
  }

  /** ... and every other name as it was. */
  lemma {:induction false} OthersStay(data: Data, properties: seq<(Name, Value)>, n: Name)
    requires forall j :: 0 <= j < |properties| ==> properties[j].0 != n
    ensures n in Updated(data, properties) <==> n in data
    ensures n in data ==> Updated(data, properties)[n] == data[n]
  {
    if properties != [] {
      OthersStay(data, properties[..|properties| - 1], n);
    }
  }

  /** Two lives on a new file: what the first one writes is what the second one finds. */
  method FirstLives(serializer: Serializer, name: Name, value: Value) returns (found: Data)
    requires serializer.RoundTrips() && serializer.dumps(map[name := value]).Some?
    ensures found == map[name := value]
  {
    var file := new File();
    var first := JSONFileStorage.Open(file, serializer);
    var ok := first.value.SetProperty(name, value);
    assert first.value.data == map[name := value];
    var second := JSONFileStorage.Open(file, serializer);
    found := second.value.data;
  }

  // ----- Whole runs ---------------------------------------------------------------------------------

  function Exec(z: Serializer, start: Store, changes: seq<Change>): Store {
    if changes == [] then start
    else After(z, Exec(z, start, changes[..|changes| - 1]), changes[|changes| - 1])
  }

  /** The k-th change is written to the file. */
  ghost predicate ReachesFile(z: Serializer, start: Store, changes: seq<Change>, k: nat)
    requires k < |changes|
  {
    var before := Exec(z, start, changes[..k]);
    Saves(before, changes[k]) && z.Encodes(DataAfter(before, changes[k]))
  }

  /** The file always holds the data as they were after the last change that could be encoded; so after any
      writes memory and file agree exactly if the data can be encoded or are what the file got last. */
  lemma {:induction false} FileHoldsLastEncoded(z: Serializer, start: Store, changes: seq<Change>, k: nat)
    requires start.Synced() && k <= |changes|
    requires k > 0 ==> ReachesFile(z, start, changes, k - 1)
    requires forall j :: k <= j < |changes| ==> !ReachesFile(z, start, changes, j)
    ensures var end := Exec(z, start, changes);
      && end.disk == Some(Exec(z, start, changes[..k]).data)
      && (changes != [] && (changes[|changes| - 1].Put? || changes[|changes| - 1].PutAll?) ==>
            (end.Synced() <==> z.Encodes(end.data) || end.data == Exec(z, start, changes[..k]).data))
  {
    if changes == [] {
      assert changes[..k] == changes;
    } else {
      var n := |changes| - 1;
      var init := changes[..n];
      if k == |changes| {
        assert changes[..k] == changes;
        assert ReachesFile(z, start, changes, n);
      } else {
        forall j | 0 <= j < n ensures ReachesFile(z, start, init, j) == ReachesFile(z, start, changes, j) {
          assert init[..j] == changes[..j];
        }
        assert init[..k] == changes[..k];
        FileHoldsLastEncoded(z, start, init, k);
        assert !ReachesFile(z, start, changes, n);
      }
    }
  }

  /** The change sets the entry of `n`, whatever it was. */
  predicate Sets(c: Change, n: Name) {
    || (c.Put? && c.name == n)
    || (c.PutAll? && exists j :: 0 <= j < |c.properties| && c.properties[j].0 == n)
  }

  lemma UntouchedEntry(s: Store, c: Change, n: Name)
    requires n in s.data && !Sets(c, n) && !c.Reopened?
    ensures n in DataAfter(s, c) && DataAfter(s, c)[n] == s.data[n]
  {
    if c.PutAll? {
      OthersStay(s.data, c.properties, n);
    }
  }

  /** What was set last is read, whether it could be saved or not, until the file is opened anew. */
  lemma {:induction false} LastSetIsRead(z: Serializer, start: Store, changes: seq<Change>, n: Name, v: Value)
    requires start.Get(n) == Ok(v)
    requires forall c :: c in changes ==> !Sets(c, n) && !c.Reopened?
    ensures Exec(z, start, changes).Get(n) == Ok(v)
  {
    if changes != [] {
      LastSetIsRead(z, start, changes[..|changes| - 1], n, v);
      UntouchedEntry(Exec(z, start, changes[..|changes| - 1]), changes[|changes| - 1], n);
    }
  }

  /** A value that no dictionary can be encoded with. */
  ghost predicate NeverEncoded(z: Serializer, n: Name, v: Value) {
    forall d: Data :: n in d && d[n] == v ==> !z.Encodes(d)
  }

  /** One such entry keeps everything from the file: until it is set again or the file is opened anew, each
      change fails, of whatever name, and a change that makes the data encodable writes all of them at once. */
  lemma {:induction false} OneEntryBlocksAll(z: Serializer, start: Store, changes: seq<Change>, n: Name, v: Value)
    requires start.Get(n) == Ok(v) && NeverEncoded(z, n, v)
    requires forall c :: c in changes ==> !Sets(c, n) && !c.Reopened?
    ensures var end := Exec(z, start, changes);
      && end.disk == start.disk && !z.Encodes(end.data)
      && (forall v' :: z.Encodes(end.data[n := v']) ==> After(z, end, Put(n, v')).Synced())
  {
    LastSetIsRead(z, start, changes, n, v);
    if changes != [] {
      OneEntryBlocksAll(z, start, changes[..|changes| - 1], n, v);
    }
  }

  /** Encodes the empty dictionary and the one that has 1 under "b". */
  const PICKY := Serializer(
    (d: Data) => if d == map[] then Some([0]) else if d == map["b" := Datum(1)] then Some([1]) else None,
    (bytes: seq<byte>) =>
      if bytes == [0] then Some(map[]) else if bytes == [1] then Some(map["b" := Datum(1)]) else None)

  /** The smallest case: a value for "a" that cannot be encoded makes a good write to "b" fail, which succeeds
      on its own. */
  lemma GoodWriteFails()
    ensures PICKY.RoundTrips()
    ensures var empty, b := Store(map[], Some(map[])), Put("b", Datum(1));
      && After(PICKY, empty, b).Synced()
      && var end := Exec(PICKY, empty, [Put("a", Datum(0)), b]);
         end.disk == Some(map[]) && end.data == map["a" := Datum(0), "b" := Datum(1)] && !PICKY.Encodes(end.data)
  {
    var empty, a, b := Store(map[], Some(map[])), Put("a", Datum(0)), Put("b", Datum(1));
    assert [a, b][..1] == [a] && [a][..0] == [];
    var data: Data := map["a" := Datum(0)];
    assert "a" in data && "a" in data["b" := Datum(1)];
    assert Exec(PICKY, empty, [a]) == After(PICKY, empty, a) == Store(data, Some(map[]));
    assert data["b" := Datum(1)] == map["a" := Datum(0), "b" := Datum(1)];
  }

  /** What is created is exactly what was missing and could be read; when all can be read, nothing is left out. */
  lemma {:induction false} MissingMeaning(data: Data, names: seq<Name>, read: Name -> Option<Value>)
    ensures forall n :: n in Missing(data, names, read) ==> n in names && n !in data && read(n).Some?
    ensures AllReadable(data, names, read) ==>
      forall n :: n in names && n !in data ==> n in Missing(data, names, read)
  {
    if names != [] {
      MissingMeaning(data, names[1..], read);
      assert names == [names[0]] + names[1..];
      if AllReadable(data, names, read) {
        forall i | 0 <= i < |names[1..]| && names[1..][i] !in data ensures read(names[1..][i]).Some? {
          assert names[i + 1] == names[1..][i];
        }
      }
    }
  }

  /** Stored entries stay as they were, and each created one has the value that was read for it. */
  lemma FilledMeans(data: Data, names: seq<Name>, read: Name -> Option<Value>)
    ensures var created, filled := Missing(data, names, read), Filled(data, Missing(data, names, read), read);
      && filled.Keys == data.Keys + (set n | n in created)
      && (forall n :: n in data ==> filled[n] == data[n])
      && (forall n :: n in created ==> read(n) == Some(filled[n]))
  {
    MissingMeaning(data, names, read);
  }

  ghost predicate Precedes(s: seq<Name>, m: Name, n: Name) {
    exists a, b :: 0 <= a < b < |s| && s[a] == m && s[b] == n
  }

  /** The names are created in the order in which they are given. */
  lemma {:induction false} MissingInOrder(data: Data, names: seq<Name>, read: Name -> Option<Value>, i: nat, j: nat)
    requires i < j < |names| && NoDuplicates(names)
    requires names[i] in Missing(data, names, read) && names[j] in Missing(data, names, read)
    ensures Precedes(Missing(data, names, read), names[i], names[j])
  {
    var missing, rest := Missing(data, names, read), Missing(data, names[1..], read);
    MissingMeaning(data, names[1..], read);
    if i == 0 {
      var b :| 0 <= b < |missing| && missing[b] == names[j];
      assert missing[0] == names[0] && names[0] != names[j];
    } else {
      assert names[1..][i - 1] == names[i] && names[1..][j - 1] == names[j];
      assert names[i] != names[0] && names[j] != names[0];
      MissingInOrder(data, names[1..], read, i - 1, j - 1);
      var a, b :| 0 <= a < b < |rest| && rest[a] == names[i] && rest[b] == names[j];
      assert missing == rest || missing == [names[0]] + rest;
      if missing != rest {
        assert missing[a + 1] == names[i] && missing[b + 1] == names[j];
      }
    }
  }
}
