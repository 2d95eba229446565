/** Deep comparison of values, as used to decide whether a parameter changed. */
module Comparators {

  /** Keys that Python finds equal are the same key here. A dictionary keeps its entries in insertion order. */
  type Key = string

  datatype Entry = Entry(key: Key, value: PyValue)

  datatype PyValue =
    | Number(number: real)
    | Text(text: string)
    | Bytes(bytes: seq<int>)
    | NoneValue
    | ListOf(items: seq<PyValue>)
    | TupleOf(items: seq<PyValue>)
    | DictOf(entries: seq<Entry>)

  /** The keys of every dictionary inside are different from each other. */
  predicate Wellformed(v: PyValue) {
    match v
    case ListOf(items) => forall i :: 0 <= i < |items| ==> Wellformed(items[i])
    case TupleOf(items) => forall i :: 0 <= i < |items| ==> Wellformed(items[i])
    case DictOf(entries) =>
      && (forall i, j :: 0 <= i < j < |entries| ==> entries[i].key != entries[j].key)
      && (forall i :: 0 <= i < |entries| ==> Wellformed(entries[i].value))
    case _ => true
  }

  /** `Comparator.is_equal`: scalars of one kind by value, containers of one type item by item. */
  predicate IsEqual(a: PyValue, b: PyValue)
    decreases a, 2
  {
    match b
    case Number(y) => a.Number? && a.number == y
    case Text(y) => a.Text? && a.text == y
    case Bytes(y) => a.Bytes? && a.bytes == y
    case NoneValue => a.NoneValue?
    case ListOf(y) => a.ListOf? && CompareIterator(a, a.items, y)
    case TupleOf(y) => a.TupleOf? && CompareIterator(a, a.items, y)
    case DictOf(y) => a.DictOf? && CompareMapping(a, a.entries, y)
  }

  predicate CompareIterator(ghost whole: PyValue, x: seq<PyValue>, y: seq<PyValue>)
    requires (whole.ListOf? || whole.TupleOf?) && whole.items == x
    decreases whole, 1
  {
    |x| == |y| && forall i :: 0 <= i < |x| ==> IsEqual(x[i], y[i])
  }

  predicate CompareMapping(ghost whole: PyValue, x: seq<Entry>, y: seq<Entry>)
    requires whole.DictOf? && whole.entries == x
    decreases whole, 1
  {
    |x| == |y| && forall i :: 0 <= i < |x| ==> HasEqual(whole, x, i, y)
  }

  /** `k in obj2 and is_equal(obj1[k], obj2[k])` for the i-th key of `x`. */
  predicate HasEqual(ghost whole: PyValue, x: seq<Entry>, i: nat, y: seq<Entry>)
    requires whole.DictOf? && whole.entries == x && i < |x|
    decreases whole, 0
  {
    exists j :: 0 <= j < |y| && y[j].key == x[i].key && IsEqual(x[i].value, y[j].value)
  }

  // ----- What equality means -------------------------------------------------------------------------

  /** A value without the accidents of its representation: a dictionary is a map. */
  datatype Meaning =
    | Scalar(value: PyValue)
    | ListMeaning(items: seq<Meaning>)
    | TupleMeaning(items: seq<Meaning>)
    | DictMeaning(entries: map<Key, Meaning>)

  function Keys(x: seq<Entry>): set<Key> {
    set i | 0 <= i < |x| :: x[i].key
  }

  function IndexOf(x: seq<Entry>, k: Key): (i: nat)
    requires k in Keys(x)
    ensures i < |x| && x[i].key == k
  {
    if x[|x| - 1].key == k then |x| - 1
    else
      assert forall i :: 0 <= i < |x| - 1 ==> x[..|x| - 1][i] == x[i];
      IndexOf(x[..|x| - 1], k)
  }

  function MeaningOf(v: PyValue): Meaning {
    match v
    case ListOf(x) => ListMeaning(seq(|x|, i requires 0 <= i < |x| => MeaningOf(x[i])))
    case TupleOf(x) => TupleMeaning(seq(|x|, i requires 0 <= i < |x| => MeaningOf(x[i])))
    case DictOf(x) => DictMeaning(map k | k in Keys(x) :: MeaningOf(x[IndexOf(x, k)].value))
    case _ => Scalar(v)
  }

  lemma {:induction false} KeyCount(x: seq<Entry>)
    requires forall i, j :: 0 <= i < j < |x| ==> x[i].key != x[j].key
    ensures |Keys(x)| == |x|
  {
    if x != [] {
      var n := |x| - 1;
      KeyCount(x[..n]);
      assert Keys(x) == Keys(x[..n]) + {x[n].key};
      assert x[n].key !in Keys(x[..n]);
    }
  }

  lemma SameSizeSubset(s: set<Key>, t: set<Key>)
    requires s <= t && |s| == |t|
    ensures s == t
  {
    assert |t - s| == 0;
    assert t == s + (t - s);
  }

  lemma {:induction false} SequencesByMeaning(whole: PyValue, x: seq<PyValue>, y: seq<PyValue>)
    requires (whole.ListOf? || whole.TupleOf?) && whole.items == x
    requires Wellformed(whole) && forall i :: 0 <= i < |y| ==> Wellformed(y[i])
    ensures CompareIterator(whole, x, y) <==>
      seq(|x|, i requires 0 <= i < |x| => MeaningOf(x[i])) == seq(|y|, i requires 0 <= i < |y| => MeaningOf(y[i]))
    decreases whole, 1
  {
    var mx := seq(|x|, i requires 0 <= i < |x| => MeaningOf(x[i]));
    var my := seq(|y|, i requires 0 <= i < |y| => MeaningOf(y[i]));
    if |x| == |y| {
      forall i | 0 <= i < |x| ensures IsEqual(x[i], y[i]) <==> mx[i] == my[i] {
        EqualityIsMeaning(x[i], y[i]);
      }
    } else {
      assert |mx| != |my|;
    }
  }

  /** One entry of a dictionary against another dictionary. */
  lemma {:induction false} EntryByMeaning(a: PyValue, i: nat, b: PyValue)
    requires a.DictOf? && b.DictOf? && Wellformed(a) && Wellformed(b) && i < |a.entries|
    ensures var k := a.entries[i].key;
      && k in MeaningOf(a).entries
      && (HasEqual(a, a.entries, i, b.entries) <==>
           k in MeaningOf(b).entries && MeaningOf(a).entries[k] == MeaningOf(b).entries[k])
    decreases a, 0
  {
    var k := a.entries[i].key;
    assert k in Keys(a.entries);
    assert IndexOf(a.entries, k) == i;
    if k in Keys(b.entries) {
      var j := IndexOf(b.entries, k);
      assert b.entries[j].key == k;
      EqualityIsMeaning(a.entries[i].value, b.entries[j].value);
    } else {
      forall j | 0 <= j < |b.entries| ensures b.entries[j].key != k {
        assert b.entries[j].key in Keys(b.entries);
      }
    }
  }

  lemma {:induction false} EqualEntriesMeanTheSame(a: PyValue, b: PyValue)
    requires a.DictOf? && b.DictOf? && Wellformed(a) && Wellformed(b)
    requires CompareMapping(a, a.entries, b.entries)
    ensures MeaningOf(a).entries == MeaningOf(b).entries
    decreases a, 2
  {
    var mx, my := MeaningOf(a).entries, MeaningOf(b).entries;
    forall k | k in mx ensures k in my && mx[k] == my[k] {
      EqualEntryMeansTheSame(a, b, k);
    }
    MeaningHasKeys(a);
    MeaningHasKeys(b);
    SameMap(mx, my);
  }

  lemma MeaningHasKeys(a: PyValue)
    requires a.DictOf? && Wellformed(a)
    ensures MeaningOf(a).entries.Keys == Keys(a.entries) && |MeaningOf(a).entries.Keys| == |a.entries|
  {
    KeyCount(a.entries);
  }

  lemma SameMap(m: map<Key, Meaning>, n: map<Key, Meaning>)
    requires |m.Keys| == |n.Keys| && forall k :: k in m ==> k in n && m[k] == n[k]
    ensures m == n
  {
    SameSizeSubset(m.Keys, n.Keys);
  }

  lemma {:induction false} EqualEntryMeansTheSame(a: PyValue, b: PyValue, k: Key)
    requires a.DictOf? && b.DictOf? && Wellformed(a) && Wellformed(b)
    requires CompareMapping(a, a.entries, b.entries) && k in MeaningOf(a).entries
    ensures k in MeaningOf(b).entries && MeaningOf(a).entries[k] == MeaningOf(b).entries[k]
    decreases a, 1
  {
    var i := IndexOf(a.entries, k);
    assert HasEqual(a, a.entries, i, b.entries);
    EntryByMeaning(a, i, b);
  }

  lemma {:induction false} SameMeaningEqualEntries(a: PyValue, b: PyValue)
    requires a.DictOf? && b.DictOf? && Wellformed(a) && Wellformed(b)
    requires MeaningOf(a).entries == MeaningOf(b).entries
    ensures CompareMapping(a, a.entries, b.entries)
    decreases a, 1
  {
    MeaningHasKeys(a);
    MeaningHasKeys(b);
    forall i | 0 <= i < |a.entries| ensures HasEqual(a, a.entries, i, b.entries) {
      EntryByMeaning(a, i, b);
    }
  }

  /** Two values are equal for the comparator exactly when they mean the same. */
  lemma {:induction false} EqualityIsMeaning(a: PyValue, b: PyValue)
    requires Wellformed(a) && Wellformed(b)
    ensures IsEqual(a, b) <==> MeaningOf(a) == MeaningOf(b)
    decreases a, 3
  {
    if a.ListOf? && b.ListOf? {
      SequencesByMeaning(a, a.items, b.items);
    } else if a.TupleOf? && b.TupleOf? {
      SequencesByMeaning(a, a.items, b.items);
    } else if a.DictOf? && b.DictOf? {
      if CompareMapping(a, a.entries, b.entries) {
        EqualEntriesMeanTheSame(a, b);
      }
      if MeaningOf(a).entries == MeaningOf(b).entries {
        SameMeaningEqualEntries(a, b);
      }
    }
  }

  /** So equality is reflexive, symmetric and transitive. */
  lemma EqualityIsEquivalence(a: PyValue, b: PyValue, c: PyValue)
    requires Wellformed(a) && Wellformed(b) && Wellformed(c)
    ensures IsEqual(a, a)
    ensures IsEqual(a, b) ==> IsEqual(b, a)
    ensures IsEqual(a, b) && IsEqual(b, c) ==> IsEqual(a, c)
  {
    EqualityIsMeaning(a, a);
    EqualityIsMeaning(a, b);
    EqualityIsMeaning(b, a);
    EqualityIsMeaning(b, c);
    EqualityIsMeaning(a, c);
  }

  /** Insertion order does not matter: dictionaries with the same entries in another order are equal. */
  lemma OrderIsIgnored(x: seq<Entry>, y: seq<Entry>)
    requires Wellformed(DictOf(x)) && multiset(x) == multiset(y)
    ensures IsEqual(DictOf(x), DictOf(y))
  {
    assert |multiset(x)| == |x| && |multiset(y)| == |y|;
    forall i | 0 <= i < |x| ensures HasEqual(DictOf(x), x, i, y) {
      assert x[i] in multiset(y);
      var j :| 0 <= j < |y| && y[j] == x[i];
      EqualityIsMeaning(x[i].value, x[i].value);
    }
  }

  /** No dictionary in it. */
  predicate Plain(v: PyValue) {
    match v
    case ListOf(items) => forall i :: 0 <= i < |items| ==> Plain(items[i])
    case TupleOf(items) => forall i :: 0 <= i < |items| ==> Plain(items[i])
    case DictOf(_) => false
    case _ => true
  }

  /** Without dictionaries, values are equal only if they are the same ... */
  lemma {:induction false} PlainEquality(a: PyValue, b: PyValue)
    requires Plain(a)
    ensures IsEqual(a, b) <==> a == b
  {
    if (a.ListOf? && b.ListOf?) || (a.TupleOf? && b.TupleOf?) {
      forall i | 0 <= i < |a.items| && i < |b.items|
        ensures IsEqual(a.items[i], b.items[i]) <==> a.items[i] == b.items[i]
      {
        PlainEquality(a.items[i], b.items[i]);
      }
      if IsEqual(a, b) {
        assert CompareIterator(a, a.items, b.items);
        assert a.items == b.items;
      }
    }
  }

  /** ... and dictionaries of such values exactly if they have the same entries. */
  lemma DictionaryEquality(x: seq<Entry>, y: seq<Entry>)
    requires Wellformed(DictOf(x)) && Wellformed(DictOf(y))
    requires forall i :: 0 <= i < |x| ==> Plain(x[i].value)
    ensures IsEqual(DictOf(x), DictOf(y)) <==> forall e :: e in x <==> e in y
  {
    if IsEqual(DictOf(x), DictOf(y)) {
      EqualityIsEquivalence(DictOf(x), DictOf(y), DictOf(y));
      assert CompareMapping(DictOf(x), x, y) && CompareMapping(DictOf(y), y, x);
      forall i | 0 <= i < |x| ensures x[i] in y {
        assert HasEqual(DictOf(x), x, i, y);
        var j :| 0 <= j < |y| && y[j].key == x[i].key && IsEqual(x[i].value, y[j].value);
        PlainEquality(x[i].value, y[j].value);
      }
      forall j | 0 <= j < |y| ensures y[j] in x {
        assert HasEqual(DictOf(y), y, j, x);
        var i :| 0 <= i < |x| && x[i].key == y[j].key && IsEqual(y[j].value, x[i].value);
        EqualityIsEquivalence(y[j].value, x[i].value, y[j].value);
        PlainEquality(x[i].value, y[j].value);
      }
    } else if forall e :: e in x <==> e in y {
      SameEntries(x, y);
    }
  }

  lemma SameEntries(x: seq<Entry>, y: seq<Entry>)
    requires Wellformed(DictOf(x)) && Wellformed(DictOf(y))
    requires forall e :: e in x <==> e in y
    ensures IsEqual(DictOf(x), DictOf(y))
  {
    KeyCount(x);
    KeyCount(y);
    assert forall i :: 0 <= i < |x| ==> x[i] in y;
    assert forall i :: 0 <= i < |y| ==> y[i] in x;
    assert Keys(x) == Keys(y);
    forall i | 0 <= i < |x| ensures HasEqual(DictOf(x), x, i, y) {
      var j :| 0 <= j < |y| && y[j] == x[i];
      EqualityIsEquivalence(x[i].value, x[i].value, x[i].value);
    }
  }
}
