/** Change events of an observable property: which reads and writes push one. */
module ChangeEvents {
  import opened Wrappers

  /** A comparator decides from the value remembered, if any, and the new value; the default one by inequality. */
  type Comparator<!V> = (Option<V>, V) -> bool

  function ByInequality<V(==)>(): Comparator<V> {
    (before: Option<V>, now: V) => before != Some(now)
  }

  /** `push_change_event` on the value remembered and the events so far; without a bus nothing happens, with one
      the value is remembered even when the comparator sees no difference. */
  function AfterPush<V>(differs: Comparator<V>, bus: bool, remembered: Option<V>, events: seq<V>, value: V)
    : (Option<V>, seq<V>)
  {
    if !bus then (remembered, events)
    else (Some(value), if differs(remembered, value) then events + [value] else events)
  }

  /** A read or a write of `value`, and whether an event bus was attached at that moment. */
  datatype Observation<V> = Observation(bus: bool, value: V)

  class ObservableProperty<V(==)> {
    const differs: Comparator<V>
    var remembered: Option<V>
    var events: seq<V>

    constructor (differs: Comparator<V>)
      ensures this.differs == differs && remembered == None && events == []
    {
      this.differs, remembered, events := differs, None, [];
    }

    method PushChangeEvent(bus: bool, value: V)
      modifies this
      ensures (remembered, events) == AfterPush(differs, bus, old(remembered), old(events), value)
      ensures remembered == if bus then Some(value) else old(remembered)
      ensures events == old(events) + if bus && differs(old(remembered), value) then [value] else []
    {
      if !bus {
        return;
      }
      var oldValue := remembered;
      remembered := Some(value);
      if !differs(oldValue, value) {
        return;
      }
      events := events + [value];
    }

    /** A property observed from its creation on. */
    method Observe(history: seq<Observation<V>>)
      requires remembered == None && events == []
      modifies this
      ensures remembered == Previous(history)
      ensures events == Pushed(differs, history)
    {
      for i := 0 to |history|
        invariant remembered == Previous(history[..i])
        invariant events == Pushed(differs, history[..i])
      {
        assert history[..i + 1][..i] == history[..i];
        PushChangeEvent(history[i].bus, history[i].value);
      }
      assert history[..|history|] == history;
    }
  }

  /** The last value observed while a bus was attached. */
  function Previous<V>(history: seq<Observation<V>>): Option<V> {
    if history == [] then None
    else
      var last := history[|history| - 1];
      if last.bus then Some(last.value) else Previous(history[..|history| - 1])
  }

  function Pushed<V(==)>(differs: Comparator<V>, history: seq<Observation<V>>): seq<V> {
    if history == [] then []
    else
      var n := |history| - 1;
      var before := Pushed(differs, history[..n]);
      if history[n].bus && differs(Previous(history[..n]), history[n].value) then before + [history[n].value]
      else before
  }

  /** The observations that push: with a bus attached, different from the one before under the comparator. */
  ghost predicate Pushes<V>(differs: Comparator<V>, history: seq<Observation<V>>, i: nat)
    requires i < |history|
  {
    history[i].bus && differs(Previous(history[..i]), history[i].value)
  }

  ghost predicate Increasing(at: seq<nat>) {
    forall i, j :: 0 <= i < j < |at| ==> at[i] < at[j]
  }

  /** `at[k]` is the observation the k-th event comes from, and no pushing observation is left out. */
  ghost predicate ComeFrom<V>(differs: Comparator<V>, history: seq<Observation<V>>, events: seq<V>, at: seq<nat>) {
    && |at| == |events| && Increasing(at)
    && (forall k :: 0 <= k < |at| ==>
         at[k] < |history| && Pushes(differs, history, at[k]) && events[k] == history[at[k]].value)
    && (forall i :: 0 <= i < |history| && Pushes(differs, history, i) ==> i in at)
  }

  lemma PushesOfPrefix<V>(differs: Comparator<V>, history: seq<Observation<V>>, n: nat, i: nat)
    requires i < n <= |history|
    ensures Pushes(differs, history[..n], i) == Pushes(differs, history, i)
  {
    assert history[..n][..i] == history[..i];
  }

  lemma OneMoreObservation<V>(differs: Comparator<V>, history: seq<Observation<V>>, events: seq<V>, at: seq<nat>)
    requires history != [] && ComeFrom(differs, history[..|history| - 1], events, at)
    ensures var n := |history| - 1;
      if Pushes(differs, history, n) then ComeFrom(differs, history, events + [history[n].value], at + [n])
      else ComeFrom(differs, history, events, at)
  {
    var n := |history| - 1;
    forall i | 0 <= i < n ensures Pushes(differs, history[..n], i) == Pushes(differs, history, i) {
      PushesOfPrefix(differs, history, n, i);
    }
    forall k | 0 <= k < |at|
      ensures at[k] < n && Pushes(differs, history, at[k]) && events[k] == history[at[k]].value
    {
      assert Pushes(differs, history[..n], at[k]);
    }
    forall i | 0 <= i < n && Pushes(differs, history, i) ensures i in at {
      assert Pushes(differs, history[..n], i);
    }
  }

  /** Change events are exactly the pushing observations, in order. */
  lemma {:induction false} EventsAreThePushes<V>(differs: Comparator<V>, history: seq<Observation<V>>)
    returns (at: seq<nat>)
    ensures ComeFrom(differs, history, Pushed(differs, history), at)
  {
    if history == [] {
      return [];
    }
    var n := |history| - 1;
    at := EventsAreThePushes(differs, history[..n]);
    OneMoreObservation(differs, history, Pushed(differs, history[..n]), at);
    if Pushes(differs, history, n) {
      at := at + [n];
    }
  }

  /** With the default comparator no event repeats the one before, and the last event is the last value observed. */
  lemma {:induction false} DefaultNeverRepeats<V>(history: seq<Observation<V>>)
    ensures var events := Pushed(ByInequality(), history);
      && (forall k :: 0 <= k < |events| - 1 ==> events[k] != events[k + 1])
      && Previous(history) == if events == [] then None else Some(events[|events| - 1])
  {
    if history != [] {
      var n := |history| - 1;
      DefaultNeverRepeats(history[..n]);
    }
  }
}
