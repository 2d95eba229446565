/** Lists with bounds and an item type. `+=` answers with a second wrapper over the same inner list, so the
    wrappers of one list are a family that shares it. */
module ConstrainedLists {
  import opened Sequences
  import opened Wrappers

  const MAX_LENGTH: int := 0xFFFF_FFFF_FFFF_FFFF  // 2 * sys.maxsize + 1

  type Bounds = (Option<int>, Option<int>)

  function TypedIterableBounds(bounds: Bounds): (r: (int, int))
    ensures bounds.0.Some? ==> r.0 == bounds.0.value
    ensures bounds.1.Some? ==> r.1 == bounds.1.value
    ensures bounds.0.None? ==> r.0 == 0
    ensures bounds.1.None? ==> r.1 == MAX_LENGTH
  {
    (if bounds.0.Some? then bounds.0.value else 0, if bounds.1.Some? then bounds.1.value else MAX_LENGTH)
  }

  /** Up to the largest length there is, a bound that is not given admits every list; and bounds that were filled
      in once stay, so the wrapper that `+=` answers with has those of the first. */
  lemma BoundsMean(bounds: Bounds, length: nat)
    requires length <= MAX_LENGTH
    ensures var (low, high) := TypedIterableBounds(bounds);
      && (low <= length <= high <==>
            (bounds.0.Some? ==> bounds.0.value <= length) && (bounds.1.Some? ==> length <= bounds.1.value))
      && TypedIterableBounds((Some(low), Some(high))) == (low, high)
  {
  }

  /** What a wrapper allows; no item type means any item. */
  datatype Config = Config(constant: bool, bounds: (int, int), itemType: Option<Value -> bool>)
  {
    predicate Allows(v: Value) { itemType.None? || itemType.value(v) }

    predicate Fits(length: int) { bounds.0 <= length <= bounds.1 }
  }

  /** An argument that should be a list. */
  datatype Given = NotAList | ListOf(values: seq<Value>)

  datatype Op =
    | SetItem(index: int, item: Value)
    | Append(item: Value)
    | Insert(index: int, item: Value)
    | Extend(given: Given)
    | AddInPlace(given: Given)
    | DeleteItem(index: int)
    | Pop(index: int)
    | Remove(item: Value)
    | Clear
    | Reverse
    | Sort(sorted: seq<Value>, raises: bool)  // what the interpreter's sort leaves of the items, perhaps half way

  datatype Answer = Fine | IsConstant | WrongType | OutOfBounds | IndexError | NotFound | CannotCompare

  /** Python's index into a list of the given length, if it is in range. */
  function At(length: nat, index: int): Option<nat> {
    if 0 <= index < length then Some(index)
    else if 0 <= index + length && index < 0 then Some(index + length)
    else None
  }

  /** Where `list.insert` puts an item: indices out of range are clamped. */
  function InsertionPoint(length: nat, index: int): (r: nat)
    ensures r <= length
  {
    if index >= length then length
    else if index >= 0 then index
    else if index + length >= 0 then index + length
    else 0
  }

  function Without(items: seq<Value>, at: nat): seq<Value>
    requires at < |items|
  {
    items[..at] + items[at + 1..]
  }

  function FirstAt(items: seq<Value>, v: Value): (r: Option<nat>)
    ensures r.None? <==> v !in items
    ensures r.Some? ==> r.value < |items| && items[r.value] == v && v !in items[..r.value]
  {
    if items == [] then None
    else if items[0] == v then Some(0)
    else
      match FirstAt(items[1..], v)
      case None => None
      case Some(k) => assert items[..k + 1] == [items[0]] + items[1..][..k]; Some(k + 1)
  }

  /** `_validate_for_insertion`, `_validate_for_extension`. */
  function ExtensionAnswer(c: Config, items: seq<Value>, given: Given): Answer {
    if c.constant then IsConstant
    else if given.NotAList? then WrongType
    else if !c.Fits(|items| + |given.values|) then OutOfBounds
    else if exists i :: 0 <= i < |given.values| && !c.Allows(given.values[i]) then WrongType
    else Fine
  }

  function InsertionAnswer(c: Config, items: seq<Value>, v: Value): Answer {
    if c.constant then IsConstant
    else if !c.Fits(|items| + 1) then OutOfBounds
    else if !c.Allows(v) then WrongType
    else Fine
  }

  function AnswerTo(c: Config, items: seq<Value>, op: Op): Answer {
    match op
    case SetItem(i, v) =>
      if c.constant then IsConstant else if !c.Allows(v) then WrongType
      else if At(|items|, i).None? then IndexError else Fine
    case Append(v) => InsertionAnswer(c, items, v)
    case Insert(_, v) => InsertionAnswer(c, items, v)
    case Extend(given) => ExtensionAnswer(c, items, given)
    case AddInPlace(given) => ExtensionAnswer(c, items, given)
    case DeleteItem(i) => if At(|items|, i).None? then IndexError else Fine
    case Pop(i) => if At(|items|, i).None? then IndexError else Fine
    case Remove(v) => if v !in items then NotFound else Fine
    case Sort(_, raises) => if raises then CannotCompare else Fine
    case _ => Fine
  }

  /** The inner list after the call; a call that raises leaves it alone, except that a sort may have begun. */
  function After(c: Config, items: seq<Value>, op: Op): seq<Value> {
    if op.Sort? then (if multiset(op.sorted) == multiset(items) then op.sorted else items)
    else if AnswerTo(c, items, op) != Fine then items
    else
      match op
      case SetItem(i, v) => items[At(|items|, i).value := v]
      case Append(v) => items + [v]
      case Insert(i, v) => var at := InsertionPoint(|items|, i); items[..at] + [v] + items[at..]
      case Extend(given) => items + given.values
      case AddInPlace(given) => items + given.values
      case DeleteItem(i) => Without(items, At(|items|, i).value)
      case Pop(i) => Without(items, At(|items|, i).value)
      case Remove(v) => Without(items, FirstAt(items, v).value)
      case Clear => []
      case Reverse => Reversed(items)
  }

  // ----- What each operation does ------------------------------------------------------------------

  /** Why an operation may be refused, in the order of the tests, and that it is not refused otherwise. */
  ghost predicate Answers(c: Config, items: seq<Value>, op: Op, a: Answer) {
    var n := |items|;
    match op
    case SetItem(i, v) =>
      a == if c.constant then IsConstant
           else if c.itemType.Some? && !c.itemType.value(v) then WrongType
           else if i < -n || n <= i then IndexError else Fine
    case Append(v) => AnswersInsertion(c, n, v, a)
    case Insert(_, v) => AnswersInsertion(c, n, v, a)
    case Extend(given) => AnswersExtension(c, n, given, a)
    case AddInPlace(given) => AnswersExtension(c, n, given, a)
    case DeleteItem(i) => a == if -n <= i < n then Fine else IndexError
    case Pop(i) => a == if -n <= i < n then Fine else IndexError
    case Remove(v) => a == if v in items then Fine else NotFound
    case Sort(_, raises) => a == if raises then CannotCompare else Fine
    case _ => a == Fine
  }

  ghost predicate AnswersInsertion(c: Config, length: nat, v: Value, a: Answer) {
    a == if c.constant then IsConstant
         else if length + 1 < c.bounds.0 || c.bounds.1 < length + 1 then OutOfBounds
         else if c.itemType.Some? && !c.itemType.value(v) then WrongType else Fine
  }

  ghost predicate AnswersExtension(c: Config, length: nat, given: Given, a: Answer) {
    a == if c.constant then IsConstant
         else if given.NotAList? then WrongType
         else if length + |given.values| < c.bounds.0 || c.bounds.1 < length + |given.values| then OutOfBounds
         else if c.itemType.Some? && exists v :: v in given.values && !c.itemType.value(v) then WrongType else Fine
  }

  /** The k-th item and no other is gone. */
  ghost predicate Drops(items: seq<Value>, k: int, items': seq<Value>) {
    0 <= k < |items| && items' == items[..k] + items[k + 1..]
  }

  /** What becomes of the items: which of them are there afterwards, and where. */
  ghost predicate Changes(items: seq<Value>, op: Op, items': seq<Value>) {
    var n := |items|;
    match op
    case SetItem(i, v) =>
      var k := if i < 0 then i + n else i;
      && |items'| == n && 0 <= k < n && items'[k] == v
      && forall j :: 0 <= j < n && j != k ==> items'[j] == items[j]
    case Append(v) => items' == items + [v]
    case Insert(i, v) =>
      var k := if i < -n then 0 else if i < 0 then i + n else if i < n then i else n;
      items' == items[..k] + [v] + items[k..]
    case Extend(given) => given.ListOf? && items' == items + given.values
    case AddInPlace(given) => given.ListOf? && items' == items + given.values
    case DeleteItem(i) => Drops(items, if i < 0 then i + n else i, items')
    case Pop(i) => Drops(items, if i < 0 then i + n else i, items')
    case Remove(v) => exists k :: Drops(items, k, items') && items[k] == v && v !in items[..k]
    case Clear => items' == []
    case Reverse => |items'| == n && forall j :: 0 <= j < n ==> items'[j] == items[n - 1 - j]
    case Sort(sorted, _) =>
      multiset(items') == multiset(items) && (multiset(sorted) == multiset(items) ==> items' == sorted)
  }

  /** Every operation answers as it should and does just what it says; if it raises, it changes nothing, but a sort
      that raises may leave the items in another order. */
  ghost predicate Performs(c: Config, items: seq<Value>, op: Op, items': seq<Value>, a: Answer) {
    && Answers(c, items, op, a)
    && (a == Fine || op.Sort? ==> Changes(items, op, items'))
    && (a != Fine && !op.Sort? ==> items' == items)
  }

  lemma OperationsMean(c: Config, items: seq<Value>, op: Op)
    ensures Performs(c, items, op, After(c, items, op), AnswerTo(c, items, op))
  {
    AnswersMean(c, items, op);
    if AnswerTo(c, items, op) == Fine || op.Sort? {
      match op
      case Remove(v) => assert Drops(items, FirstAt(items, v).value, After(c, items, op));
      case _ =>
    }
  }

  lemma AnswersMean(c: Config, items: seq<Value>, op: Op)
    ensures Answers(c, items, op, AnswerTo(c, items, op))
  {
  }

  // ----- What every operation keeps -----------------------------------------------------------------

  ghost predicate Lawful(c: Config, items: seq<Value>) {
    |items| <= c.bounds.1 && forall v :: v in items ==> c.Allows(v)
  }

  lemma WithoutShrinks(items: seq<Value>, at: nat)
    requires at < |items|
    ensures multiset(Without(items, at)) == multiset(items) - multiset{items[at]}
    ensures forall v :: v in Without(items, at) ==> v in items
  {
    assert items == items[..at] + [items[at]] + items[at + 1..];
  }

  lemma {:induction false} ReversedIsPermutation(items: seq<Value>)
    ensures multiset(Reversed(items)) == multiset(items)
  {
    if items != [] {
      var n := |items| - 1;
      ReversedIsPermutation(items[..n]);
      assert Reversed(items) == [items[n]] + Reversed(items[..n]);
      assert items == items[..n] + [items[n]];
    }
  }

  lemma PermutationKeepsLaw(c: Config, items: seq<Value>, items': seq<Value>)
    requires Lawful(c, items) && multiset(items') <= multiset(items)
    ensures Lawful(c, items')
  {
    SmallerIsShorter(multiset(items'), multiset(items));
    assert |multiset(items')| == |items'| && |multiset(items)| == |items|;
    forall v | v in items' ensures v in items {
      assert v in multiset(items');
    }
  }

  lemma SmallerIsShorter(a: multiset<Value>, b: multiset<Value>)
    requires a <= b
    ensures |a| <= |b|
  {
    assert b == a + (b - a);
  }

  lemma MoreKeepsLaw(c: Config, items: seq<Value>, at: nat, more: seq<Value>)
    requires Lawful(c, items) && at <= |items| && |items| + |more| <= c.bounds.1
    requires forall i :: 0 <= i < |more| ==> c.Allows(more[i])
    ensures Lawful(c, items[..at] + more + items[at..])
  {
    var longer := items[..at] + more + items[at..];
    forall v | v in longer ensures c.Allows(v) {
      if v !in items {
        assert v in more;
      }
    }
  }

  lemma FewerKeepLaw(c: Config, items: seq<Value>, at: nat)
    requires Lawful(c, items) && at < |items|
    ensures Lawful(c, Without(items, at)) && multiset(Without(items, at)) <= multiset(items)
  {
    WithoutShrinks(items, at);
  }

  lemma GrowingKeepsLaw(c: Config, items: seq<Value>, op: Op)
    requires Lawful(c, items) && (op.Append? || op.Insert? || op.Extend? || op.AddInPlace?)
    ensures Lawful(c, After(c, items, op)) && (c.constant ==> After(c, items, op) == items)
  {
    if AnswerTo(c, items, op) == Fine {
      var n := |items|;
      assert items[..n] == items && items[n..] == [];
      match op
      case Append(v) => MoreKeepsLaw(c, items, n, [v]);
      case Insert(i, v) => MoreKeepsLaw(c, items, InsertionPoint(n, i), [v]);
      case Extend(given) => MoreKeepsLaw(c, items, n, given.values);
      case AddInPlace(given) => MoreKeepsLaw(c, items, n, given.values);
    }
  }

  lemma SettingKeepsLaw(c: Config, items: seq<Value>, index: int, v: Value)
    requires Lawful(c, items)
    ensures Lawful(c, After(c, items, SetItem(index, v)))
    ensures c.constant ==> After(c, items, SetItem(index, v)) == items
  {
  }

  lemma StepKeepsLaw(c: Config, items: seq<Value>, op: Op)
    requires Lawful(c, items)
    ensures Lawful(c, After(c, items, op))
    ensures c.constant ==> multiset(After(c, items, op)) <= multiset(items)
  {
    match op
    case SetItem(i, v) => SettingKeepsLaw(c, items, i, v);
    case DeleteItem(i) => if At(|items|, i).Some? { FewerKeepLaw(c, items, At(|items|, i).value); }
    case Pop(i) => if At(|items|, i).Some? { FewerKeepLaw(c, items, At(|items|, i).value); }
    case Remove(v) => if v in items { FewerKeepLaw(c, items, FirstAt(items, v).value); }
    case Clear =>
    case Reverse => ReversedIsPermutation(items); PermutationKeepsLaw(c, items, Reversed(items));
    case Sort(_, _) => PermutationKeepsLaw(c, items, After(c, items, op));
    case _ => GrowingKeepsLaw(c, items, op);
  }

  function Run(c: Config, items: seq<Value>, ops: seq<Op>): seq<Value> {
    if ops == [] then items else After(c, Run(c, items, ops[..|ops| - 1]), ops[|ops| - 1])
  }

  /** Whatever is called on whichever wrappers of a list, the list keeps to its upper bound and its item type;
      the items of a constant list only ever become fewer. */
  lemma {:induction false} RunKeepsLaw(c: Config, items: seq<Value>, ops: seq<Op>)
    requires Lawful(c, items)
    ensures Lawful(c, Run(c, items, ops))
    ensures c.constant ==> multiset(Run(c, items, ops)) <= multiset(items)
  {
    if ops != [] {
      RunKeepsLaw(c, items, ops[..|ops| - 1]);
      StepKeepsLaw(c, Run(c, items, ops[..|ops| - 1]), ops[|ops| - 1]);
    }
  }

  // ----- Where the items of a list come from and go ---------------------------------------------------

  function Count(items: seq<Value>, v: Value): nat {
    multiset(items)[v]
  }

  /** How often an operation that succeeds puts a value into a list, and how often it takes it out. */
  function PutBy(op: Op, v: Value): nat {
    match op
    case SetItem(_, item) => Count([item], v)
    case Append(item) => Count([item], v)
    case Insert(_, item) => Count([item], v)
    case Extend(ListOf(values)) => Count(values, v)
    case AddInPlace(ListOf(values)) => Count(values, v)
    case _ => 0
  }

  function TakenBy(items: seq<Value>, op: Op, v: Value): nat {
    match op
    case SetItem(i, _) => IsAt(items, i, v)
    case DeleteItem(i) => IsAt(items, i, v)
    case Pop(i) => IsAt(items, i, v)
    case Remove(item) => Count([item], v)
    case Clear => Count(items, v)
    case _ => 0
  }

  /** Indices may count from the end. */
  function IsAt(items: seq<Value>, index: int, v: Value): nat {
    var k := if index < 0 then index + |items| else index;
    if 0 <= k < |items| && items[k] == v then 1 else 0
  }

  function Put(c: Config, items: seq<Value>, ops: seq<Op>, v: Value): nat {
    if ops == [] then 0
    else
      var before, last := ops[..|ops| - 1], ops[|ops| - 1];
      Put(c, items, before, v) + if AnswerTo(c, Run(c, items, before), last) == Fine then PutBy(last, v) else 0
  }

  function Taken(c: Config, items: seq<Value>, ops: seq<Op>, v: Value): nat {
    if ops == [] then 0
    else
      var before, last := ops[..|ops| - 1], ops[|ops| - 1];
      var now := Run(c, items, before);
      Taken(c, items, before, v) + if AnswerTo(c, now, last) == Fine then TakenBy(now, last, v) else 0
  }

  /** No item is lost and none comes from nowhere: over any run the list ends with what it began with and what was
      put in, less what was taken out. */
  lemma {:induction false} ItemsAreConserved(c: Config, items: seq<Value>, ops: seq<Op>, v: Value)
    ensures Count(Run(c, items, ops), v) == Count(items, v) + Put(c, items, ops, v) - Taken(c, items, ops, v)
  {
    if ops != [] {
      var before, last := ops[..|ops| - 1], ops[|ops| - 1];
      ItemsAreConserved(c, items, before, v);
      StepConserves(c, Run(c, items, before), last, v);
    }
  }

  lemma StepConserves(c: Config, items: seq<Value>, op: Op, v: Value)
    ensures Count(After(c, items, op), v) ==
      Count(items, v) + if AnswerTo(c, items, op) == Fine then PutBy(op, v) - TakenBy(items, op, v) else 0
  {
    match op
    case SetItem(_, _) => SettingConserves(c, items, op, v);
    case Append(_) => GrowingConserves(c, items, op, v);
    case Insert(_, _) => GrowingConserves(c, items, op, v);
    case Extend(_) => GrowingConserves(c, items, op, v);
    case AddInPlace(_) => GrowingConserves(c, items, op, v);
    case DeleteItem(_) => DroppingConserves(c, items, op, v);
    case Pop(_) => DroppingConserves(c, items, op, v);
    case Remove(_) => RemovingConserves(c, items, op, v);
    case Reverse => ReversedIsPermutation(items);
    case Clear =>
    case Sort(_, _) =>
  }

  lemma SettingConserves(c: Config, items: seq<Value>, op: Op, v: Value)
    requires op.SetItem?
    ensures Count(After(c, items, op), v) ==
      Count(items, v) + if AnswerTo(c, items, op) == Fine then PutBy(op, v) - TakenBy(items, op, v) else 0
  {
    var at := At(|items|, op.index);
    if at.Some? {
      Replaced(items, at.value, op.item, v);
    }
  }

  lemma GrowingConserves(c: Config, items: seq<Value>, op: Op, v: Value)
    requires op.Append? || op.Insert? || op.Extend? || op.AddInPlace?
    ensures Count(After(c, items, op), v) ==
      Count(items, v) + if AnswerTo(c, items, op) == Fine then PutBy(op, v) - TakenBy(items, op, v) else 0
  {
    if AnswerTo(c, items, op) == Fine {
      match op
      case Append(item) => Joined(items, |items|, [item], v);
      case Insert(i, item) => Joined(items, InsertionPoint(|items|, i), [item], v);
      case Extend(given) => Joined(items, |items|, given.values, v);
      case AddInPlace(given) => Joined(items, |items|, given.values, v);
    }
  }

  lemma DroppingConserves(c: Config, items: seq<Value>, op: Op, v: Value)
    requires op.DeleteItem? || op.Pop?
    ensures Count(After(c, items, op), v) ==
      Count(items, v) + if AnswerTo(c, items, op) == Fine then PutBy(op, v) - TakenBy(items, op, v) else 0
  {
    var at := At(|items|, op.index);
    if at.Some? {
      Dropped(items, at.value, v);
      assert After(c, items, op) == Without(items, at.value);
    }
  }

  lemma RemovingConserves(c: Config, items: seq<Value>, op: Op, v: Value)
    requires op.Remove?
    ensures Count(After(c, items, op), v) ==
      Count(items, v) + if AnswerTo(c, items, op) == Fine then PutBy(op, v) - TakenBy(items, op, v) else 0
  {
    var at := FirstAt(items, op.item);
    if at.Some? {
      Dropped(items, at.value, v);
      assert After(c, items, op) == Without(items, at.value);
    }
  }

  lemma Replaced(items: seq<Value>, at: nat, item: Value, v: Value)
    requires at < |items|
    ensures Count(items[at := item], v) == Count(items, v) + Count([item], v) - Count([items[at]], v)
  {
  }

  lemma Joined(items: seq<Value>, at: nat, more: seq<Value>, v: Value)
    requires at <= |items|
    ensures Count(items[..at] + more + items[at..], v) == Count(items, v) + Count(more, v)
    ensures at == |items| ==> items[..at] + more + items[at..] == items + more
  {
    assert items == items[..at] + items[at..];
  }

  lemma Dropped(items: seq<Value>, at: nat, v: Value)
    requires at < |items|
    ensures Count(Without(items, at), v) == Count(items, v) - Count([items[at]], v)
  {
    assert items == items[..at] + [items[at]] + items[at + 1..];
  }

  // ----- What undoes what ------------------------------------------------------------------------------

  /** Deleting where an item was inserted, popping what was appended and reversing twice give the list back. */
  lemma Undoes(c: Config, items: seq<Value>, index: int, v: Value)
    ensures AnswerTo(c, items, Insert(index, v)) == Fine ==>
      var longer := After(c, items, Insert(index, v));
      && longer[InsertionPoint(|items|, index)] == v
      && After(c, longer, DeleteItem(InsertionPoint(|items|, index))) == items
    ensures AnswerTo(c, items, Append(v)) == Fine ==> After(c, After(c, items, Append(v)), Pop(-1)) == items
    ensures After(c, After(c, items, Reverse), Reverse) == items
  {
    var at := InsertionPoint(|items|, index);
    var longer := items[..at] + [v] + items[at..];
    assert Without(longer, at) == items;
    assert Without(items + [v], |items|) == items;
  }

  // ----- The objects ---------------------------------------------------------------------------------

  class PythonList {
    var items: seq<Value>

    constructor (items: seq<Value>)
      ensures this.items == items
    {
      this.items := items;
    }
  }

  class TypeConstrainedList {
    const inner: PythonList
    const constant: bool
    const bounds: (int, int)
    const itemType: Option<Value -> bool>

    function TheConfig(): Config {
      Config(constant, bounds, itemType)
    }

    /** With `skip_validate`. */
    constructor Unchecked(inner: PythonList, itemType: Option<Value -> bool>, bounds: Bounds, constant: bool)
      ensures this.inner == inner && TheConfig() == Config(constant, TypedIterableBounds(bounds), itemType)
    {
      this.inner, this.itemType, this.constant := inner, itemType, constant;
      this.bounds := TypedIterableBounds(bounds);
    }

    /** Null stands for something that is not a list. */
    static method Create(inner: PythonList?, itemType: Option<Value -> bool>, bounds: Bounds, constant: bool)
      returns (r: Result<TypeConstrainedList, Answer>)
      ensures var c := Config(constant, TypedIterableBounds(bounds), itemType);
        if inner == null then r == Err(WrongType)
        else if !c.Fits(|inner.items|) then r == Err(OutOfBounds)
        else if exists i :: 0 <= i < |inner.items| && !c.Allows(inner.items[i]) then r == Err(WrongType)
        else r.Ok? && fresh(r.value) && r.value.inner == inner && r.value.TheConfig() == c && Lawful(c, inner.items)
    {
      if inner == null {
        return Err(WrongType);
      }
      var list := new TypeConstrainedList.Unchecked(inner, itemType, bounds, constant);
      if !list.TheConfig().Fits(|inner.items|) {
        return Err(OutOfBounds);
      }
      var ok := list.ValidateItems(inner.items);
      r := if ok then Ok(list) else Err(WrongType);
    }

    method ValidateItems(values: seq<Value>) returns (ok: bool)
      ensures ok <==> forall i :: 0 <= i < |values| ==> TheConfig().Allows(values[i])
    {
      if itemType.Some? {
        for i := 0 to |values|
          invariant forall k :: 0 <= k < i ==> TheConfig().Allows(values[k])
        {
          if !itemType.value(values[i]) {
            return false;
          }
        }
      }
      return true;
    }

    method ValidateForInsertion(item: Value) returns (a: Answer)
      ensures a == InsertionAnswer(TheConfig(), inner.items, item)
    {
      if constant {
        return IsConstant;
      }
      if !(bounds.0 <= |inner.items| + 1 <= bounds.1) {
        return OutOfBounds;
      }
      if itemType.Some? && !itemType.value(item) {
        return WrongType;
      }
      return Fine;
    }

    method ValidateForExtension(given: Given) returns (a: Answer)
      ensures a == ExtensionAnswer(TheConfig(), inner.items, given)
    {
      if constant {
        return IsConstant;
      }
      if given.NotAList? {
        return WrongType;
      }
      var length := |inner.items| + |given.values|;
      if !(bounds.0 <= length <= bounds.1) {
        return OutOfBounds;
      }
      var ok := ValidateItems(given.values);
      return if ok then Fine else WrongType;
    }

    /** `+=`: the inner list grows in place, and the answer is a new wrapper over the very same list. */
    method AddTo(given: Given) returns (r: Result<TypeConstrainedList, Answer>)
      modifies inner
      ensures inner.items == After(TheConfig(), old(inner.items), AddInPlace(given))
      ensures var a := AnswerTo(TheConfig(), old(inner.items), AddInPlace(given));
        if a == Fine then r.Ok? && fresh(r.value) && r.value.inner == inner && r.value.TheConfig() == TheConfig()
        else r == Err(a)
      ensures Performs(TheConfig(), old(inner.items), AddInPlace(given), inner.items,
                       if r.Ok? then Fine else r.error)
    {
      OperationsMean(TheConfig(), inner.items, AddInPlace(given));
      var a := ValidateForExtension(given);
      if a != Fine {
        return Err(a);
      }
      inner.items := inner.items + given.values;
      var list := new TypeConstrainedList.Unchecked(inner, itemType, (Some(bounds.0), Some(bounds.1)), constant);
      r := Ok(list);
    }

    /** Every other operation that changes the list. */
    method Perform(op: Op) returns (a: Answer)
      requires !op.AddInPlace?
      modifies inner
      ensures inner.items == After(TheConfig(), old(inner.items), op)
      ensures a == AnswerTo(TheConfig(), old(inner.items), op)
      ensures Performs(TheConfig(), old(inner.items), op, inner.items, a)
    {
      OperationsMean(TheConfig(), inner.items, op);
      a := Fine;
      match op
      case SetItem(i, v) =>
        if constant {
          return IsConstant;
        }
        if itemType.Some? && !itemType.value(v) {
          return WrongType;
        }
        var at := At(|inner.items|, i);
        if at.None? {
          return IndexError;
        }
        inner.items := inner.items[at.value := v];
      case Append(v) =>
        a := ValidateForInsertion(v);
        if a == Fine {
          inner.items := inner.items + [v];
        }
      case Insert(i, v) =>
        a := ValidateForInsertion(v);
        if a == Fine {
          var at := InsertionPoint(|inner.items|, i);
          inner.items := inner.items[..at] + [v] + inner.items[at..];
        }
      case Extend(given) =>
        a := ValidateForExtension(given);
        if a == Fine {
          inner.items := inner.items + given.values;
        }
      case DeleteItem(i) => a := Drop(At(|inner.items|, i), IndexError);
      case Pop(i) => a := Drop(At(|inner.items|, i), IndexError);
      case Remove(v) => a := Drop(FirstAt(inner.items, v), NotFound);
      case Clear => inner.items := [];
      case Reverse => inner.items := Reversed(inner.items);
      case Sort(sorted, raises) =>
        if multiset(sorted) == multiset(inner.items) {
          inner.items := sorted;
        }
        if raises {
          return CannotCompare;
        }
    }

    method Drop(at: Option<nat>, otherwise: Answer) returns (a: Answer)
      requires at.Some? ==> at.value < |inner.items|
      modifies inner
      ensures if at.Some? then a == Fine && inner.items == Without(old(inner.items), at.value)
              else a == otherwise && inner.items == old(inner.items)
    {
      if at.None? {
        return otherwise;
      }
      inner.items := Without(inner.items, at.value);
      return Fine;
    }
  }

  function Operations(script: seq<(nat, Op)>): (ops: seq<Op>)
    ensures |ops| == |script| && forall k :: 0 <= k < |script| ==> ops[k] == script[k].1
  {
    seq(|script|, k requires 0 <= k < |script| => script[k].1)
  }

  /** Any run over a family of wrappers that grows by `+=`: each step picks a wrapper and an operation. All
      wrappers keep sharing one list, which goes through the same as if one wrapper had done it all. */
  method RunFamily(first: TypeConstrainedList, script: seq<(nat, Op)>) returns (family: seq<TypeConstrainedList>)
    modifies first.inner
    ensures forall k :: 0 <= k < |family| ==>
      family[k].inner == first.inner && family[k].TheConfig() == first.TheConfig()
    ensures first.inner.items == Run(first.TheConfig(), old(first.inner.items), Operations(script))
    ensures Lawful(first.TheConfig(), old(first.inner.items)) ==> Lawful(first.TheConfig(), first.inner.items)
    ensures Lawful(first.TheConfig(), old(first.inner.items)) && first.constant ==>
      multiset(first.inner.items) <= multiset(old(first.inner.items))
  {
    family := [first];
    ghost var c, items, ops := first.TheConfig(), first.inner.items, Operations(script);
    for i := 0 to |script|
      invariant family != []
      invariant forall k :: 0 <= k < |family| ==>
        family[k].inner == first.inner && family[k].TheConfig() == first.TheConfig()
      invariant first.inner.items == Run(c, items, ops[..i])
    {
      assert ops[..i + 1][..i] == ops[..i];
      var (who, op) := script[i];
      var wrapper := family[who % |family|];
      if op.AddInPlace? {
        var r := wrapper.AddTo(op.given);
        if r.Ok? {
          family := family + [r.value];
        }
      } else {
        var _ := wrapper.Perform(op);
      }
    }
    assert ops[..|script|] == ops;
    if Lawful(c, items) {
      RunKeepsLaw(c, items, ops);
    }
  }
}
