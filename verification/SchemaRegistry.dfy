/** Which validator handles a schema: the registry of validators with its predicates, in registration order. */
module SchemaRegistries {
  import opened Wrappers

  type Schema = int

  type Predicate = Schema -> bool

  datatype Entry = Entry(name: string, accepts: Predicate)

  /** A dictionary in insertion order: no name twice. */
  ghost predicate Distinct(entries: seq<Entry>) {
    forall i, j :: 0 <= i < j < |entries| ==> entries[i].name != entries[j].name
  }

  function Without(entries: seq<Entry>, name: string): seq<Entry> {
    if entries == [] then []
    else if entries[0].name == name then Without(entries[1..], name)
    else [entries[0]] + Without(entries[1..], name)
  }

  /** Popping the name first puts it at the end again. */
  function Registered(entries: seq<Entry>, e: Entry): seq<Entry> {
    Without(entries, e.name) + [e]
  }

  function AllRegistered(entries: seq<Entry>, calls: seq<Entry>): seq<Entry> {
    if calls == [] then entries
    else Registered(AllRegistered(entries, calls[..|calls| - 1]), calls[|calls| - 1])
  }

  /** `reversed(predicates)`: the first that accepts, from the end. */
  function NameFor(entries: seq<Entry>, schema: Schema): Option<string> {
    if entries == [] then None
    else
      var last := entries[|entries| - 1];
      if last.accepts(schema) then Some(last.name) else NameFor(entries[..|entries| - 1], schema)
  }

  class SchemaValidators {
    const pristine: seq<Entry>          // as on import
    var predicates: seq<Entry>
    var modules: set<string>
    const pristineModules: set<string>
    var installed: set<string>
    var attributes: set<string>         // names served from the class itself, without a lookup

    ghost predicate Valid()
      reads this
    {
      Distinct(predicates) && Distinct(pristine) && installed == attributes
    }

    constructor (pristine: seq<Entry>, modules: set<string>)
      requires Distinct(pristine)
      ensures Valid() && this.pristine == predicates == pristine && pristineModules == this.modules == modules
      ensures installed == attributes == {}
    {
      this.pristine, predicates := pristine, pristine;
      pristineModules, this.modules := modules, modules;
      installed, attributes := {}, {};
    }

    method Register(name: string, accepts: Predicate)
      requires Valid()
      modifies this
      ensures Valid() && predicates == Registered(old(predicates), Entry(name, accepts))
      ensures installed == old(installed) + {name} && attributes == old(attributes) + {name}
      ensures modules == old(modules)
    {
      attributes, installed := attributes + {name}, installed + {name};
      WithoutKeepsOthers(predicates, name);
      var kept := Pop(predicates, name);
      predicates := kept + [Entry(name, accepts)];
    }

    /** `dict.pop(name, None)`. */
    static method Pop(entries: seq<Entry>, name: string) returns (kept: seq<Entry>)
      ensures kept == Without(entries, name)
    {
      kept := [];
      for i := 0 to |entries|
        invariant kept + Without(entries[i..], name) == Without(entries, name)
      {
        assert entries[i..][0] == entries[i] && entries[i..][1..] == entries[i + 1..];
        if entries[i].name != name {
          kept := kept + [entries[i]];
        }
      }
    }

    method NameForSchema(schema: Schema) returns (r: Option<string>)
      ensures r == NameFor(predicates, schema)
    {
      var i := |predicates|;
      assert predicates[..i] == predicates;
      while i > 0
        invariant 0 <= i <= |predicates| && NameFor(predicates[..i], schema) == NameFor(predicates, schema)
      {
        i := i - 1;
        assert predicates[..i + 1][..i] == predicates[..i];
        if predicates[i].accepts(schema) {
          return Some(predicates[i].name);
        }
      }
      return None;
    }

    /** `reset`, that is `forget_adapters`. */
    method Reset()
      requires Valid()
      modifies this
      ensures Valid() && predicates == pristine && modules == pristineModules
      ensures installed == attributes == {}
    {
      attributes := attributes - (installed + modules);
      installed := {};
      predicates, modules := pristine, pristineModules;
    }
  }

  lemma {:induction false} WithoutKeepsOthers(entries: seq<Entry>, name: string)
    requires Distinct(entries)
    ensures Distinct(Without(entries, name))
    ensures forall e :: e in Without(entries, name) <==> e in entries && e.name != name
    ensures forall i :: 0 <= i < |Without(entries, name)| ==> Without(entries, name)[i].name != name
  {
    if entries != [] {
      WithoutKeepsOthers(entries[1..], name);
      assert entries == [entries[0]] + entries[1..];
      if entries[0].name != name {
        var rest := Without(entries[1..], name);
        forall j | 0 <= j < |rest| ensures rest[j].name != entries[0].name {
          assert rest[j] in entries[1..];
        }
      }
    }
  }

  // ----- Which registration wins ---------------------------------------------------------------------

  /** The k-th registration is the last one for its name. */
  ghost predicate Latest(calls: seq<Entry>, k: nat)
    requires k < |calls|
  {
    forall j :: k < j < |calls| ==> calls[j].name != calls[k].name
  }

  function Excluding(entries: seq<Entry>, names: set<string>): seq<Entry> {
    if entries == [] then []
    else
      var rest := Excluding(entries[..|entries| - 1], names);
      var last := entries[|entries| - 1];
      if last.name in names then rest else rest + [last]
  }

  lemma {:induction false} ExcludingWithout(entries: seq<Entry>, name: string, names: set<string>)
    ensures Excluding(Without(entries, name), names) == Excluding(entries, names + {name})
  {
    if entries != [] {
      var init, last := entries[..|entries| - 1], entries[|entries| - 1];
      ExcludingWithout(init, name, names);
      WithoutSnoc(init, last, name);
      assert entries == init + [last];
      assert Without(init, name) + [] == Without(init, name);
      if last.name != name {
        assert (Without(init, name) + [last])[..|Without(init, name)|] == Without(init, name);
      }
    }
  }

  lemma {:induction false} WithoutSnoc(entries: seq<Entry>, e: Entry, name: string)
    ensures Without(entries + [e], name) == Without(entries, name) + if e.name == name then [] else [e]
  {
    if entries == [] {
      assert ([e])[1..] == [];
    } else {
      assert (entries + [e])[1..] == entries[1..] + [e];
      WithoutSnoc(entries[1..], e, name);
    }
  }

  /** The registrations from the last to the first, without the names seen later. */
  ghost function Search(calls: seq<Entry>, seen: set<string>, schema: Schema): Option<string> {
    if calls == [] then None
    else
      var init, last := calls[..|calls| - 1], calls[|calls| - 1];
      if last.name in seen then Search(init, seen, schema)
      else if last.accepts(schema) then Some(last.name)
      else Search(init, seen + {last.name}, schema)
  }

  lemma NameForSnoc(entries: seq<Entry>, e: Entry, schema: Schema)
    ensures NameFor(entries + [e], schema) == if e.accepts(schema) then Some(e.name) else NameFor(entries, schema)
  {
    assert (entries + [e])[..|entries|] == entries;
  }

  lemma ExcludingSnoc(entries: seq<Entry>, e: Entry, names: set<string>)
    ensures Excluding(entries + [e], names) == Excluding(entries, names) + if e.name in names then [] else [e]
  {
    assert (entries + [e])[..|entries|] == entries;
  }

  /** The last registration, in terms of those before it. */
  lemma ExcludingRegistered(entries: seq<Entry>, e: Entry, seen: set<string>)
    ensures Excluding(Registered(entries, e), seen) ==
      Excluding(entries, seen + {e.name}) + if e.name in seen then [] else [e]
  {
    ExcludingSnoc(Without(entries, e.name), e, seen);
    ExcludingWithout(entries, e.name, seen);
  }

  lemma {:induction false} RegistryIsSearch(calls: seq<Entry>, seen: set<string>, schema: Schema)
    ensures NameFor(Excluding(AllRegistered([], calls), seen), schema) == Search(calls, seen, schema)
  {
    if calls != [] {
      var init, last := calls[..|calls| - 1], calls[|calls| - 1];
      ExcludingRegistered(AllRegistered([], init), last, seen);
      RegistryIsSearch(init, seen + {last.name}, schema);
      if last.name in seen {
        assert seen + {last.name} == seen;
        assert Excluding(AllRegistered([], init), seen) + [] == Excluding(AllRegistered([], init), seen);
      } else {
        NameForSnoc(Excluding(AllRegistered([], init), seen + {last.name}), last, schema);
      }
    }
  }

  lemma {:induction false} ExcludingNone(entries: seq<Entry>)
    ensures Excluding(entries, {}) == entries
  {
    if entries != [] {
      ExcludingNone(entries[..|entries| - 1]);
    }
  }

  /** The k-th registration is in force for a name not in `seen`, and accepts the schema. */
  ghost predicate Takes(calls: seq<Entry>, k: nat, seen: set<string>, schema: Schema) {
    k < |calls| && Latest(calls, k) && calls[k].name !in seen && calls[k].accepts(schema)
  }

  /** The most recent of the registrations that take the schema, if any does. */
  ghost predicate Wins(calls: seq<Entry>, k: nat, seen: set<string>, schema: Schema) {
    Takes(calls, k, seen, schema) && forall j: nat :: Takes(calls, j, seen, schema) ==> j <= k
  }

  lemma TakesBefore(calls: seq<Entry>, k: nat, seen: set<string>, schema: Schema)
    requires calls != [] && k < |calls| - 1
    ensures Takes(calls, k, seen, schema) <==>
      Takes(calls[..|calls| - 1], k, seen + {calls[|calls| - 1].name}, schema)
  {
    var init := calls[..|calls| - 1];
    assert Latest(calls, k) <==> Latest(init, k) && calls[|calls| - 1].name != calls[k].name;
  }

  lemma {:induction false} SearchFindsTheWinner(calls: seq<Entry>, seen: set<string>, schema: Schema)
    ensures match Search(calls, seen, schema)
      case None => forall k: nat :: !Takes(calls, k, seen, schema)
      case Some(name) => exists k: nat :: Wins(calls, k, seen, schema) && calls[k].name == name
  {
    if calls != [] {
      var n := |calls| - 1;
      var init, last := calls[..n], calls[n];
      forall k: nat | k < n
        ensures Takes(calls, k, seen, schema) <==> Takes(init, k, seen + {last.name}, schema)
      {
        TakesBefore(calls, k, seen, schema);
      }
      if last.name !in seen && last.accepts(schema) {
        assert Takes(calls, n, seen, schema);
        assert Wins(calls, n, seen, schema);
      } else {
        assert last.name in seen ==> seen + {last.name} == seen;
        SearchFindsTheWinner(init, seen + {last.name}, schema);
        if Search(init, seen + {last.name}, schema).Some? {
          var k: nat :| Wins(init, k, seen + {last.name}, schema)
            && init[k].name == Search(init, seen + {last.name}, schema).value;
          assert Wins(calls, k, seen, schema);
        }
      }
    }
  }

  /** After any registrations, those on import being the first, the schema goes to the name whose latest
      registration is the most recent among the names whose latest predicate accepts it. */
  lemma MostRecentWins(calls: seq<Entry>, schema: Schema)
    ensures match NameFor(AllRegistered([], calls), schema)
      case None => forall k: nat :: !Takes(calls, k, {}, schema)
      case Some(name) => exists k: nat :: Wins(calls, k, {}, schema) && calls[k].name == name
  {
    RegistryIsSearch(calls, {}, schema);
    ExcludingNone(AllRegistered([], calls));
    SearchFindsTheWinner(calls, {}, schema);
  }

  /** The entries there on import count as registrations in their order. */
  lemma {:induction false} ImportIsRegistration(pristine: seq<Entry>)
    requires Distinct(pristine)
    ensures AllRegistered([], pristine) == pristine
  {
    if pristine != [] {
      var n := |pristine| - 1;
      ImportIsRegistration(pristine[..n]);
      NothingToPop(pristine[..n], pristine[n].name);
    }
  }

  lemma {:induction false} ImportThenCalls(pristine: seq<Entry>, calls: seq<Entry>)
    requires Distinct(pristine)
    ensures AllRegistered(pristine, calls) == AllRegistered([], pristine + calls)
  {
    if calls == [] {
      ImportIsRegistration(pristine);
      assert pristine + [] == pristine;
    } else {
      ImportThenCalls(pristine, calls[..|calls| - 1]);
      assert (pristine + calls)[..|pristine + calls| - 1] == pristine + calls[..|calls| - 1];
    }
  }

  lemma {:induction false} NothingToPop(entries: seq<Entry>, name: string)
    requires forall i :: 0 <= i < |entries| ==> entries[i].name != name
    ensures Without(entries, name) == entries
  {
    if entries != [] {
      NothingToPop(entries[1..], name);
    }
  }
}
