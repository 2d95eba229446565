/** An event that coroutines on different asyncio loops can await.
    `Monitor` is what the lock guards, `CrossLoopEvent` its critical sections in imperative form, and
    `State`/`Action` the interleavings of all threads, tasks and loops around them. */
module CrossLoopEvents {
  import opened Sequences

  type WaitId = nat

  // ----- What the lock guards -------------------------------------------------------------

  datatype Monitor = Monitor(isSet: bool, waiters: seq<WaitId>)

  ghost predicate Settled(m: Monitor) {
    m.isSet ==> m.waiters == []
  }

  /** The state in which `set()` releases the lock; the waiters it took are `m.waiters` unless the flag was up. */
  function AfterSet(m: Monitor): Monitor {
    if m.isSet then m else Monitor(true, [])
  }

  function AfterClear(m: Monitor): Monitor {
    m.(isSet := false)
  }

  function AfterRegister(m: Monitor, w: WaitId): Monitor {
    if m.isSet then m else m.(waiters := m.waiters + [w])
  }

  function AfterCleanup(m: Monitor, w: WaitId): Monitor {
    m.(waiters := Without(m.waiters, w))
  }

  /** `list.remove` guarded by a membership test: the first occurrence goes, the rest keeps its order. */
  function Without<T(==)>(s: seq<T>, x: T): (r: seq<T>) {
    if s == [] then []
    else if s[0] == x then s[1..]
    else [s[0]] + Without(s[1..], x)
  }

  lemma {:induction false} WithoutDropsOnly<T>(s: seq<T>, x: T)
    requires NoDuplicates(s)
    ensures NoDuplicates(Without(s, x))
    ensures forall y :: y in Without(s, x) <==> y in s && y != x
  {
    if s == [] {
    } else if s[0] == x {
      forall y ensures y in s[1..] <==> y in s && y != x {
        if y in s && y != x {
          var k :| 0 <= k < |s| && s[k] == y;
          assert s[1..][k - 1] == y;
        }
      }
    } else {
      WithoutDropsOnly(s[1..], x);
      var rest := Without(s[1..], x);
      assert Without(s, x) == [s[0]] + rest;
      assert s[0] !in s[1..];
      assert s == [s[0]] + s[1..];
    }
  }

  /** With `x` first found at `i`, if at all. */
  lemma {:induction false} WithoutFirst<T>(s: seq<T>, x: T, i: nat)
    requires i <= |s| && x !in s[..i] && (i < |s| ==> s[i] == x)
    ensures Without(s, x) == if i < |s| then s[..i] + s[i + 1..] else s
  {
    if i > 0 {
      assert s[0] == s[..i][0];
      assert s[1..][..i - 1] == s[..i][1..];
      WithoutFirst(s[1..], x, i - 1);
    }
  }

  /** The object itself; each method is one `with self._lock` block. */
  class CrossLoopEvent {
    var isSet: bool
    var waiters: seq<WaitId>

    ghost function View(): Monitor
      reads this
    {
      Monitor(isSet, waiters)
    }

    constructor ()
      ensures View() == Monitor(false, []) && Settled(View())
    {
      isSet, waiters := false, [];
    }

    /** The locked part of `set()`: hands out every waiter exactly when it raises the flag. */
    method TakeWaiters() returns (taken: seq<WaitId>)
      requires Settled(View())
      modifies this
      ensures View() == AfterSet(old(View())) && Settled(View()) && isSet
      ensures taken == old(waiters) && waiters == []
    {
      taken := [];
      if isSet {
        return;
      }
      isSet := true;
      taken, waiters := waiters, [];
    }

    method Clear()
      requires Settled(View())
      modifies this
      ensures View() == AfterClear(old(View())) && Settled(View())
      ensures !isSet && waiters == old(waiters)
    {
      isSet := false;
    }

    /** The locked part of entering `wait()`. */
    method Register(entry: WaitId) returns (parked: bool)
      requires Settled(View())
      modifies this
      ensures View() == AfterRegister(old(View()), entry) && Settled(View())
      ensures parked == !old(isSet) && isSet == old(isSet)
      ensures waiters == if parked then old(waiters) + [entry] else old(waiters)
    {
      if isSet {
        return false;
      }
      waiters := waiters + [entry];
      return true;
    }

    /** The `finally` of `wait()`: look the entry up, and remove its first occurrence if it is there. */
    method Cleanup(entry: WaitId)
      requires Settled(View())
      modifies this
      ensures View() == AfterCleanup(old(View()), entry) && Settled(View())
      ensures isSet == old(isSet) && (entry !in old(waiters) ==> waiters == old(waiters))
      ensures forall k :: 0 <= k < |old(waiters)| && old(waiters)[k] == entry && entry !in old(waiters)[..k] ==>
        waiters == old(waiters)[..k] + old(waiters)[k + 1..]
    {
      var i := 0;
      while i < |waiters| && waiters[i] != entry
        invariant 0 <= i <= |waiters| && waiters == old(waiters) && entry !in waiters[..i]
      {
        i := i + 1;
      }
      WithoutFirst(waiters, entry, i);
      if i < |waiters| {
        waiters := waiters[..i] + waiters[i + 1..];
      }
    }
  }

  // ----- All threads, tasks and loops around it -------------------------------------------

  /** The future a wait parks on; `Absent` for a wait that found the flag up and parked on none. */
  datatype Future = Absent | Pending | Resolved | Cancelled
  {
    predicate Done() { Resolved? || Cancelled? }
  }

  datatype Phase = Parked | Returned | Raised

  datatype Wait = Wait(loop: nat, future: Future, cancelRequested: bool, phase: Phase)

  datatype Loop = Loop(closed: bool, ready: seq<WaitId>)

  /** `calls[c]` is what the c-th `set()` that raised the flag still has to walk over; it has returned
      when that list is empty. `waits` and `loops` grow as waits begin and loops are created. */
  datatype State = State(monitor: Monitor, waits: seq<Wait>, calls: seq<seq<WaitId>>, loops: seq<Loop>)

  datatype Action =
    | NewLoop
    | CloseLoop(loop: nat)        // pending callbacks are dropped
    | Set                         // the locked part of set()
    | Deliver(call: nat)          // one turn of the for loop of a set(), outside the lock
    | Clear
    | BeginWait(onLoop: nat)
    | RunReady(ofLoop: nat)       // the loop runs its oldest _resolve callback
    | Cancel(wait: nat)           // Task.cancel() on a parked wait
    | Resume(wait: nat)           // the future is done: finally block, then return or raise
    | Collect(wait: nat)          // the suspended coroutine of a closed loop is destroyed: finally block

  const START := State(Monitor(false, []), [], [], [])

  predicate Enabled(st: State, a: Action) {
    match a
    case NewLoop => true
    case CloseLoop(l) => l < |st.loops| && !st.loops[l].closed
    case Set => true
    case Deliver(c) => c < |st.calls| && st.calls[c] != []
    case Clear => true
    case BeginWait(l) => l < |st.loops| && !st.loops[l].closed
    case RunReady(l) => l < |st.loops| && !st.loops[l].closed && st.loops[l].ready != []
    case Cancel(w) => w < |st.waits| && st.waits[w].phase.Parked? && LoopOpen(st, w)
    case Resume(w) => w < |st.waits| && st.waits[w].phase.Parked? && st.waits[w].future.Done() && LoopOpen(st, w)
    case Collect(w) => w < |st.waits| && st.waits[w].phase.Parked? && !LoopOpen(st, w)
  }

  predicate LoopOpen(st: State, w: WaitId)
    requires w < |st.waits|
  {
    var l := st.waits[w].loop;
    l < |st.loops| && !st.loops[l].closed
  }

  function CancelWait(w: Wait): Wait {
    if w.future.Pending? then w.(future := Cancelled)
    else if w.future.Resolved? then w.(cancelRequested := true)
    else w
  }

  function FinishWait(w: Wait): Wait {
    w.(phase := if w.future.Resolved? && !w.cancelRequested then Returned else Raised)
  }

  /** `_resolve`: a future that is already done is left alone. */
  function ResolveWait(w: Wait): Wait {
    if w.future.Pending? then w.(future := Resolved) else w
  }

  function DeliverHead(st: State, c: nat): State
    requires Enabled(st, Deliver(c))
  {
    var w := st.calls[c][0];
    var walked := st.(calls := st.calls[c := st.calls[c][1..]]);
    if w < |st.waits| && LoopOpen(st, w) then
      var l := st.waits[w].loop;
      walked.(loops := st.loops[l := st.loops[l].(ready := st.loops[l].ready + [w])])
    else
      walked  // call_soon_threadsafe raised RuntimeError
  }

  function RunHead(st: State, l: nat): State
    requires Enabled(st, RunReady(l))
  {
    var w := st.loops[l].ready[0];
    var popped := st.(loops := st.loops[l := st.loops[l].(ready := st.loops[l].ready[1..])]);
    if w < |st.waits| then popped.(waits := st.waits[w := ResolveWait(st.waits[w])]) else popped
  }

  function Apply(st: State, a: Action): State
    requires Enabled(st, a)
  {
    match a
    case NewLoop => st.(loops := st.loops + [Loop(false, [])])
    case CloseLoop(l) => st.(loops := st.loops[l := Loop(true, [])])
    case Set =>
      if st.monitor.isSet then st
      else st.(monitor := AfterSet(st.monitor), calls := st.calls + [st.monitor.waiters])
    case Deliver(c) => DeliverHead(st, c)
    case Clear => st.(monitor := AfterClear(st.monitor))
    case BeginWait(l) =>
      st.(monitor := AfterRegister(st.monitor, |st.waits|),
          waits := st.waits + [if st.monitor.isSet then Wait(l, Absent, false, Returned)
                               else Wait(l, Pending, false, Parked)])
    case RunReady(l) => RunHead(st, l)
    case Cancel(w) => st.(waits := st.waits[w := CancelWait(st.waits[w])])
    case Resume(w) =>
      st.(monitor := AfterCleanup(st.monitor, w), waits := st.waits[w := FinishWait(st.waits[w])])
    case Collect(w) =>
      st.(monitor := AfterCleanup(st.monitor, w), waits := st.waits[w := st.waits[w].(phase := Raised)])
  }

  /** The state after a run; an action that is not enabled changes nothing. */
  function Exec(st: State, run: seq<Action>): State {
    if run == [] then st
    else
      var before := Exec(st, run[..|run| - 1]);
      var last := run[|run| - 1];
      if Enabled(before, last) then Apply(before, last) else before
  }

  /** A run all of whose actions happen. */
  ghost predicate CanRun(st: State, run: seq<Action>) {
    forall k :: 0 <= k < |run| ==> Enabled(Exec(st, run[..k]), run[k])
  }

  // ----- The invariant --------------------------------------------------------------------

  /** The places an entry can be found in. */
  datatype Place = Registered | TakenBy(call: nat) | ReadyOn(loop: nat)

  ghost predicate At(st: State, w: WaitId, p: Place) {
    match p
    case Registered => w in st.monitor.waiters
    case TakenBy(c) => c < |st.calls| && w in st.calls[c]
    case ReadyOn(l) => l < |st.loops| && w in st.loops[l].ready
  }

  ghost predicate Held(st: State, w: WaitId) {
    exists p :: At(st, w, p)
  }

  ghost predicate InOnePlace(st: State) {
    && NoDuplicates(st.monitor.waiters)
    && (forall c :: 0 <= c < |st.calls| ==> NoDuplicates(st.calls[c]))
    && (forall l :: 0 <= l < |st.loops| ==> NoDuplicates(st.loops[l].ready))
    && (forall w, p, q :: At(st, w, p) && At(st, w, q) ==> p == q)
  }

  ghost predicate EntryOk(st: State, w: WaitId, p: Place) {
    && w < |st.waits|
    && (st.waits[w].future.Pending? || st.waits[w].future.Cancelled?)
    && (p.Registered? ==> st.waits[w].phase.Parked?)
    && (p.ReadyOn? ==> st.waits[w].loop == p.loop)
  }

  ghost predicate WaitOk(st: State, w: WaitId)
    requires w < |st.waits|
  {
    var wt := st.waits[w];
    && wt.loop < |st.loops|
    && (wt.phase.Parked? ==> !wt.future.Absent?)
    && (wt.phase.Returned? ==> (wt.future.Absent? || wt.future.Resolved?) && !wt.cancelRequested)
    && (wt.phase.Raised? ==> !wt.future.Absent?)
    && (wt.future.Pending? && LoopOpen(st, w) ==> wt.phase.Parked? && Held(st, w))
    && (wt.cancelRequested ==> wt.future.Resolved?)
  }

  ghost predicate Inv(st: State) {
    && Settled(st.monitor)
    && InOnePlace(st)
    && (forall w, p :: At(st, w, p) ==> EntryOk(st, w, p))
    && (forall w :: 0 <= w < |st.waits| ==> WaitOk(st, w))
    && (forall l :: 0 <= l < |st.loops| && st.loops[l].closed ==> st.loops[l].ready == [])
  }

  lemma SetKeepsInv(st: State)
    requires Inv(st) && !st.monitor.isSet
    ensures Inv(Apply(st, Set))
  {
    var st' := Apply(st, Set);
    var n := |st.calls|;
    forall w, p | At(st', w, p)
      ensures At(st, w, if p == TakenBy(n) then Registered else p)
    {
    }
    forall w, p | At(st, w, p)
      ensures At(st', w, if p == Registered then TakenBy(n) else p)
    {
    }
    forall w | 0 <= w < |st'.waits| ensures WaitOk(st', w) {
      assert WaitOk(st, w);
      assert Held(st, w) ==> Held(st', w);
    }
  }

  lemma DeliverKeepsInv(st: State, c: nat)
    requires Inv(st) && Enabled(st, Deliver(c))
    ensures Inv(Apply(st, Deliver(c)))
  {
    var st' := Apply(st, Deliver(c));
    var w0 := st.calls[c][0];
    assert At(st, w0, TakenBy(c));
    var home := ReadyOn(st.waits[w0].loop);
    assert !At(st, w0, home);
    forall w, p | At(st', w, p)
      ensures if w == w0 then p == home && LoopOpen(st, w0) else At(st, w, p)
    {
      assert At(st, w, p) || (w == w0 && p == home && LoopOpen(st, w0));
    }
    forall w, p | At(st, w, p) && w != w0
      ensures At(st', w, p)
    {
    }
    assert LoopOpen(st, w0) ==> At(st', w0, home);
    forall w | 0 <= w < |st'.waits| ensures WaitOk(st', w) {
      assert WaitOk(st, w);
      assert Held(st, w) && LoopOpen(st, w) ==> Held(st', w);
    }
  }

  lemma RunReadyKeepsInv(st: State, l: nat)
    requires Inv(st) && Enabled(st, RunReady(l))
    ensures Inv(Apply(st, RunReady(l)))
  {
    var st' := Apply(st, RunReady(l));
    var w0 := st.loops[l].ready[0];
    assert At(st, w0, ReadyOn(l));
    forall w, p | At(st', w, p)
      ensures w != w0 && At(st, w, p)
    {
      assert At(st, w, p);
    }
    forall w, p | At(st, w, p) && w != w0
      ensures At(st', w, p)
    {
    }
    forall w | 0 <= w < |st'.waits| ensures WaitOk(st', w) {
      assert WaitOk(st, w);
      assert Held(st, w) && w != w0 ==> Held(st', w);
    }
  }

  lemma CleanupKeepsInv(st: State, w0: WaitId, a: Action)
    requires Inv(st) && Enabled(st, a) && (a == Resume(w0) || a == Collect(w0))
    ensures Inv(Apply(st, a))
    ensures !At(Apply(st, a), w0, Registered)
  {
    var st' := Apply(st, a);
    WithoutDropsOnly(st.monitor.waiters, w0);
    forall w, p | At(st', w, p)
      ensures At(st, w, p) && (w != w0 || p != Registered)
    {
    }
    forall w, p | At(st, w, p) && (w != w0 || p != Registered)
      ensures At(st', w, p)
    {
    }
    forall w | 0 <= w < |st'.waits| ensures WaitOk(st', w) {
      assert WaitOk(st, w);
      assert Held(st, w) && w != w0 ==> Held(st', w);
    }
  }

  lemma BeginWaitKeepsInv(st: State, l: nat)
    requires Inv(st) && Enabled(st, BeginWait(l))
    ensures Inv(Apply(st, BeginWait(l)))
  {
    var st' := Apply(st, BeginWait(l));
    var n := |st.waits|;
    forall p ensures !At(st, n, p) {
    }
    assert !At(st, n, Registered);
    forall w, p | At(st', w, p)
      ensures if w == n then p == Registered && !st.monitor.isSet else At(st, w, p)
    {
      assert At(st, w, p) || (w == n && p == Registered && !st.monitor.isSet);
    }
    forall w, p | At(st, w, p)
      ensures At(st', w, p)
    {
    }
    assert !st.monitor.isSet ==> At(st', n, Registered);
    forall w | 0 <= w < |st'.waits| ensures WaitOk(st', w) {
      assert w < n ==> WaitOk(st, w);
      assert w < n && Held(st, w) ==> Held(st', w);
    }
  }

  /** A step that moves no entry keeps every wait sound that it leaves alone. */
  lemma UnmovedStaysHeld(st: State, st': State)
    requires forall w, p :: At(st', w, p) <==> At(st, w, p)
    ensures forall w :: Held(st, w) ==> Held(st', w)
  {
    forall w | Held(st, w) ensures Held(st', w) {
      var p :| At(st, w, p);
      assert At(st', w, p);
    }
  }

  lemma CloseLoopKeepsInv(st: State, l: nat)
    requires Inv(st) && Enabled(st, CloseLoop(l))
    ensures Inv(Apply(st, CloseLoop(l)))
  {
    var st' := Apply(st, CloseLoop(l));
    forall w, p ensures At(st', w, p) <==> At(st, w, p) && p != ReadyOn(l) {
    }
    forall w | 0 <= w < |st.waits| ensures WaitOk(st', w) {
      assert WaitOk(st, w);
      if Held(st, w) && st.waits[w].loop != l {
        var p :| At(st, w, p);
        assert At(st', w, p);
      }
    }
  }

  lemma StepKeepsInv(st: State, a: Action)
    requires Inv(st) && Enabled(st, a)
    ensures Inv(Apply(st, a))
  {
    match a
    case NewLoop => QuietStepKeepsInv(st, a);
    case CloseLoop(l) => CloseLoopKeepsInv(st, l);
    case Set => if !st.monitor.isSet { SetKeepsInv(st); }
    case Deliver(c) => DeliverKeepsInv(st, c);
    case Clear => QuietStepKeepsInv(st, a);
    case BeginWait(l) => BeginWaitKeepsInv(st, l);
    case RunReady(l) => RunReadyKeepsInv(st, l);
    case Cancel(w0) => QuietStepKeepsInv(st, a);
    case Resume(w) => CleanupKeepsInv(st, w, a);
    case Collect(w) => CleanupKeepsInv(st, w, a);
  }

  lemma QuietStepKeepsInv(st: State, a: Action)
    requires Inv(st) && Enabled(st, a) && (a.NewLoop? || a.Clear? || a.Cancel?)
    ensures Inv(Apply(st, a))
  {
    var st' := Apply(st, a);
    forall w, p ensures At(st', w, p) <==> At(st, w, p) {
    }
    UnmovedStaysHeld(st, st');
    forall w | 0 <= w < |st.waits| ensures WaitOk(st', w) {
      assert WaitOk(st, w);
    }
  }

  lemma {:induction false} RunKeepsInv(run: seq<Action>)
    ensures Inv(Exec(START, run))
  {
    if run == [] {
      forall w, p ensures !At(START, w, p) {
      }
    } else {
      var st, last := Exec(START, run[..|run| - 1]), run[|run| - 1];
      RunKeepsInv(run[..|run| - 1]);
      if Enabled(st, last) {
        StepKeepsInv(st, last);
      }
    }
  }

  // ----- No wake-up is lost ---------------------------------------------------------------

  /** Every `set()` has returned and every open loop has run its callbacks. */
  ghost predicate Drained(st: State) {
    && (forall c :: 0 <= c < |st.calls| ==> st.calls[c] == [])
    && (forall l :: 0 <= l < |st.loops| ==> st.loops[l].ready == [])
  }

  /** What no step undoes: a wait stays on its loop, a done future keeps its result, a wait that
      returned or raised is over, a closed loop stays closed. */
  ghost predicate Evolves(st: State, st': State) {
    && |st.waits| <= |st'.waits| && |st.loops| <= |st'.loops|
    && (forall w {:trigger st.waits[w]} {:trigger st'.waits[w]} :: 0 <= w < |st.waits| ==>
         && st'.waits[w].loop == st.waits[w].loop
         && (!st.waits[w].future.Pending? ==> st'.waits[w].future == st.waits[w].future)
         && (st.waits[w].future.Pending? ==> !st'.waits[w].future.Absent?)
         && (!st.waits[w].phase.Parked? ==> st'.waits[w].phase == st.waits[w].phase))
    && (forall l {:trigger st.loops[l]} {:trigger st'.loops[l]} ::
         0 <= l < |st.loops| && st.loops[l].closed ==> st'.loops[l].closed)
  }

  lemma StepEvolves(st: State, a: Action)
    requires Enabled(st, a) && forall w :: 0 <= w < |st.waits| ==> WaitOk(st, w)
    ensures Evolves(st, Apply(st, a))
  {
  }

  lemma EvolvesOn(a: State, b: State, c: State)
    requires Evolves(a, b) && Evolves(b, c)
    ensures Evolves(a, c)
  {
  }

  /** No future ever gets a second result, whatever happens between two moments of a run. */
  lemma {:induction false} ResultsAreFinal(run: seq<Action>, k: nat)
    requires k <= |run|
    ensures Evolves(Exec(START, run[..k]), Exec(START, run))
  {
    if k == |run| {
      assert run[..k] == run;
    } else {
      var init, last := run[..|run| - 1], run[|run| - 1];
      ResultsAreFinal(init, k);
      assert init[..k] == run[..k];
      RunKeepsInv(init);
      if Enabled(Exec(START, init), last) {
        StepEvolves(Exec(START, init), last);
        EvolvesOn(Exec(START, run[..k]), Exec(START, init), Exec(START, run));
      }
    }
  }

  lemma StepAdmitsOnlyNew(st: State, a: Action)
    requires Inv(st) && Enabled(st, a)
    ensures forall w :: w in Apply(st, a).monitor.waiters ==> w in st.monitor.waiters || w == |st.waits|
  {
    if a.Resume? || a.Collect? {
      WithoutDropsOnly(st.monitor.waiters, a.wait);
    }
  }

  /** An entry that a `set()` took never goes back to the waiters, and only its own cancellation
      can put anything but the wake-up into its future. */
  lemma {:induction false} TakenForGood(run: seq<Action>, k: nat, w: WaitId)
    requires k < |run| && run[k] == Set && w in Exec(START, run[..k]).monitor.waiters
    ensures var st, end := Exec(START, run[..k]), Exec(START, run);
      && w < |st.waits| <= |end.waits| && w !in end.monitor.waiters
      && (st.waits[w].future.Pending? && Cancel(w) !in run[k + 1..] ==> !end.waits[w].future.Cancelled?)
  {
    RunKeepsInv(run[..k]);
    assert At(Exec(START, run[..k]), w, Registered);
    var init, last := run[..|run| - 1], run[|run| - 1];
    assert init[..k] == run[..k];
    if k < |run| - 1 {
      TakenForGood(init, k, w);
      assert run[k + 1..] == init[k + 1..] + [last];
      RunKeepsInv(init);
      if Enabled(Exec(START, init), last) {
        StepAdmitsOnlyNew(Exec(START, init), last);
      }
    }
  }

  /** A waiter registered when `set()` raises the flag is resolved once all `set()` calls have returned
      and the loops have drained, whatever else ran (`clear()`, other waiters, other loops closing),
      unless it was cancelled or its own loop closed. */
  lemma NoLostWakeup(run: seq<Action>, k: nat, w: WaitId)
    requires k < |run| && run[k] == Set && w in Exec(START, run[..k]).monitor.waiters
    requires Drained(Exec(START, run))
    ensures var st, end := Exec(START, run[..k]), Exec(START, run);
      && w < |st.waits| <= |end.waits|
      && (LoopOpen(end, w) ==> end.waits[w].future.Done())
      && (LoopOpen(end, w) && st.waits[w].future.Pending? && Cancel(w) !in run[k + 1..] ==>
            end.waits[w].future.Resolved?)
  {
    TakenForGood(run, k, w);
    RunKeepsInv(run);
    RunKeepsInv(run[..k]);
    ResultsAreFinal(run, k);
    var st, end := Exec(START, run[..k]), Exec(START, run);
    assert WaitOk(end, w) && At(st, w, Registered) && WaitOk(st, w);
    forall p ensures !At(end, w, p) {
    }
    assert !Held(end, w);
  }

  ghost predicate Doomed(st: State, w: WaitId) {
    w < |st.waits| && !st.waits[w].phase.Returned? && (st.waits[w].future.Cancelled? || st.waits[w].cancelRequested)
  }

  /** A wait that is cancelled while parked never returns normally, even if it was resolved before. */
  lemma {:induction false} CancelledNeverReturns(run: seq<Action>, k: nat, w: WaitId)
    requires k < |run| && run[k] == Cancel(w) && Enabled(Exec(START, run[..k]), run[k])
    ensures Doomed(Exec(START, run), w)
  {
    var init, last := run[..|run| - 1], run[|run| - 1];
    assert init[..k] == run[..k];
    RunKeepsInv(init);
    if k < |init| {
      CancelledNeverReturns(init, k, w);
      if Enabled(Exec(START, init), last) {
        StepKeepsDoomed(Exec(START, init), last, w);
      }
    } else {
      assert WaitOk(Exec(START, init), w);
    }
  }

  lemma StepKeepsDoomed(st: State, a: Action, w: WaitId)
    requires Enabled(st, a) && Doomed(st, w)
    ensures Doomed(Apply(st, a), w)
  {
  }

  // ----- Draining ends ----------------------------------------------------------------------

  function Total(lists: seq<seq<WaitId>>): nat {
    if lists == [] then 0 else |lists[0]| + Total(lists[1..])
  }

  lemma {:induction false} TotalAt(lists: seq<seq<WaitId>>, i: nat, s: seq<WaitId>)
    requires i < |lists|
    ensures Total(lists[i := s]) == Total(lists) - |lists[i]| + |s|
    ensures |lists[i]| <= Total(lists)
  {
    if i > 0 {
      TotalAt(lists[1..], i - 1, s);
      assert lists[i := s][1..] == lists[1..][i - 1 := s];
    } else {
      assert lists[0 := s][1..] == lists[1..];
    }
  }

  ghost function ReadyLists(st: State): seq<seq<WaitId>> {
    seq(|st.loops|, l requires 0 <= l < |st.loops| => st.loops[l].ready)
  }

  /** Deliveries and callbacks still owed. */
  ghost function Work(st: State): nat {
    2 * Total(st.calls) + Total(ReadyLists(st))
  }

  predicate IsDelivery(a: Action) {
    a.Deliver? || a.RunReady?
  }

  lemma DeliveryReducesWork(st: State, a: Action)
    requires Enabled(st, a) && IsDelivery(a)
    ensures Work(Apply(st, a)) < Work(st)
  {
    var st' := Apply(st, a);
    match a
    case Deliver(c) =>
      TotalAt(st.calls, c, st.calls[c][1..]);
      var w := st.calls[c][0];
      if w < |st.waits| && LoopOpen(st, w) {
        var l := st.waits[w].loop;
        TotalAt(ReadyLists(st), l, st.loops[l].ready + [w]);
        assert ReadyLists(st)[l] == st.loops[l].ready;
        assert ReadyLists(st') == ReadyLists(st)[l := st.loops[l].ready + [w]];
        assert Total(ReadyLists(st')) == Total(ReadyLists(st)) + 1;
        assert Total(st'.calls) == Total(st.calls) - 1;
      } else {
        assert ReadyLists(st') == ReadyLists(st);
      }
    case RunReady(l) =>
      TotalAt(ReadyLists(st), l, st.loops[l].ready[1..]);
      assert ReadyLists(st') == ReadyLists(st)[l := st.loops[l].ready[1..]];
  }

  /** Deliveries alone cannot go on for ever ... */
  lemma {:induction false} DeliveriesAreBounded(st: State, run: seq<Action>)
    requires CanRun(st, run) && forall a :: a in run ==> IsDelivery(a)
    ensures |run| + Work(Exec(st, run)) <= Work(st)
  {
    if run != [] {
      var init := run[..|run| - 1];
      forall k | 0 <= k < |init| ensures Enabled(Exec(st, init[..k]), init[k]) {
        assert init[..k] == run[..k];
      }
      DeliveriesAreBounded(st, init);
      DeliveryReducesWork(Exec(st, init), run[|run| - 1]);
    }
  }

  /** ... and they can go on until every `set()` has returned and every loop is drained. */
  lemma DeliveryNeverStuck(run: seq<Action>)
    ensures Drained(Exec(START, run)) <==>
      forall a :: IsDelivery(a) ==> !Enabled(Exec(START, run), a)
  {
    RunKeepsInv(run);
    var st := Exec(START, run);
    if !Drained(st) {
      if c :| 0 <= c < |st.calls| && st.calls[c] != [] {
        assert Enabled(st, Deliver(c));
      } else {
        var l :| 0 <= l < |st.loops| && st.loops[l].ready != [];
        assert Enabled(st, RunReady(l));
      }
    }
  }
}
