/** The life of one entry of a store: what is in memory, what is in the file, and what saving, writing and
    loading the file anew do to the two. */
module StoredEntries {
  import opened Wrappers

  /** What one operation does to the entry: it may store a value, load the file anew, create the entry if it is
      not there, or save the store. */
  datatype Event = Event(stored: Option<Value>, reloads: bool, creates: bool, flushes: bool)

  /** The entry before and after each event, in memory and in the file. */
  datatype History = History(events: seq<Event>, memory: seq<Option<Value>>, file: seq<Option<Value>>)
  {
    ghost predicate Shaped() {
      |memory| == |file| == |events| + 1
    }

    /** An entry changes only as the event says; with which value it is created is left open. */
    ghost predicate StepOk(t: nat)
      requires Shaped() && t < |events|
    {
      var e := events[t];
      && (e.stored.Some? ==> memory[t + 1] == e.stored)
      && (e.stored.None? && e.reloads ==> memory[t + 1] == file[t])
      && (e.stored.None? && !e.reloads && (memory[t].Some? || !e.creates) ==> memory[t + 1] == memory[t])
      && file[t + 1] == if e.flushes then memory[t + 1] else file[t]
    }

    ghost predicate Lawful() {
      Shaped() && forall t: nat :: t < |events| ==> StepOk(t)
    }

    /** Nothing is stored from the i-th event on, before the k-th. */
    ghost predicate Unwritten(i: nat, k: nat) {
      forall t: nat :: i <= t < k && t < |events| ==> events[t].stored.None?
    }

    ghost predicate NoReload(i: nat, k: nat) {
      forall t: nat :: i <= t < k && t < |events| ==> !events[t].reloads
    }

    ghost predicate NoCreation(i: nat, k: nat) {
      forall t: nat :: i <= t < k && t < |events| ==> !events[t].creates
    }

    ghost predicate NoFlush(i: nat, k: nat) {
      forall t: nat :: i <= t < k && t < |events| ==> !events[t].flushes
    }
  }

  /** In memory an entry stays until it is stored again or the file is loaded anew ... */
  lemma {:induction false} MemoryStays(h: History, i: nat, k: nat)
    requires h.Lawful() && i <= k <= |h.events| && h.memory[i].Some?
    requires h.Unwritten(i, k) && h.NoReload(i, k)
    ensures h.memory[k] == h.memory[i]
    decreases k
  {
    if i < k {
      MemoryStays(h, i, k - 1);
      assert h.StepOk(k - 1);
    }
  }

  lemma {:induction false} NothingAppears(h: History, k: nat)
    requires h.Lawful() && k <= |h.events| && h.memory[0].None? && h.file[0].None?
    requires h.Unwritten(0, |h.events|) && h.NoCreation(0, k)
    ensures h.memory[k].None? && h.file[k].None?
  {
    if k > 0 {
      NothingAppears(h, k - 1);
      assert h.StepOk(k - 1);
    }
  }

  /** ... in the file until the store is saved ... */
  lemma {:induction false} FileStays(h: History, i: nat, k: nat)
    requires h.Lawful() && i <= k <= |h.events| && h.NoFlush(i, k)
    ensures h.file[k] == h.file[i]
    decreases k
  {
    if i < k {
      FileStays(h, i, k - 1);
      assert h.StepOk(k - 1);
    }
  }

  /** ... and once it is in both, it is in both until it is stored again. */
  lemma {:induction false} BothStay(h: History, i: nat, k: nat)
    requires h.Lawful() && i <= k <= |h.events| && h.Unwritten(i, k)
    requires h.memory[i].Some? && h.file[i] == h.memory[i]
    ensures h.memory[k] == h.file[k] == h.memory[i]
    decreases k
  {
    if i < k {
      BothStay(h, i, k - 1);
      assert h.StepOk(k - 1);
    }
  }

  /** A value that is saved before the file is loaded anew stays for good. */
  lemma SavedStays(h: History, i: nat, k: nat)
    requires h.Lawful() && 0 < i <= k + 1 && k < |h.events| && h.memory[i].Some?
    requires h.Unwritten(i, |h.events|) && h.NoReload(i, k + 1) && h.events[k].flushes
    ensures var end := |h.events|; h.memory[end] == h.file[end] == h.memory[i]
  {
    MemoryStays(h, i, k + 1);
    assert h.StepOk(k);
    BothStay(h, k + 1, |h.events|);
  }

  /** A value that is stored is in memory until the file is loaded anew, and stays for good once it is saved. */
  lemma StoredStays(h: History, i: nat, k: nat)
    requires h.Lawful() && i <= k < |h.events| && h.events[i].stored.Some?
    requires h.Unwritten(i + 1, |h.events|) && h.NoReload(i + 1, k + 1)
    ensures h.memory[k + 1] == h.events[i].stored
    ensures h.events[k].flushes ==> var end := |h.events|; h.memory[end] == h.file[end] == h.events[i].stored
  {
    assert h.StepOk(i);
    MemoryStays(h, i + 1, k + 1);
    if h.events[k].flushes {
      SavedStays(h, i + 1, k);
    }
  }

  /** Exactly when the last value stored outlives the next load of the file, which is the last event. */
  lemma SurvivesExactly(h: History, i: nat)
    requires h.Lawful() && i < |h.events| - 1 && h.events[i].stored.Some?
    requires h.Unwritten(i + 1, |h.events|) && h.NoReload(i + 1, |h.events| - 1) && h.events[|h.events| - 1].reloads
    ensures h.memory[|h.events|] == h.events[i].stored <==>
      !h.NoFlush(i, |h.events| - 1) || h.file[i] == h.events[i].stored
  {
    var last := |h.events| - 1;
    assert h.StepOk(i) && h.StepOk(last);
    if h.NoFlush(i, last) {
      FileStays(h, i, last);
    } else {
      var k: nat :| i <= k < last && h.events[k].flushes;
      StoredStays(h, i, k);
    }
  }

  /** An entry that nobody stores is in the file only as it is in memory. */
  lemma {:induction false} FileIsMemory(h: History, k: nat)
    requires h.Lawful() && k <= |h.events| && h.Unwritten(0, |h.events|) && h.file[0].None?
    ensures h.file[k].Some? ==> h.memory[k] == h.file[k]
  {
    if k > 0 {
      FileIsMemory(h, k - 1);
      assert h.StepOk(k - 1);
    }
  }
}
