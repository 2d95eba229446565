/** The event as its users see it: one flag, and waits that block on it. Every step of the implementation
    is one step of this event or changes nothing visible. */
module AtomicEvents {
  import opened CrossLoopEvents

  datatype Status =
    | Blocked    // will only go on when the flag is raised
    | Released   // the flag was raised: may return
    | Leaving    // cancelled, about to raise
    | Back       // returned normally
    | Aborted    // raised

  datatype Event = Event(flag: bool, waits: seq<Status>)

  datatype EventAction =
    | Raise                     // releases everyone blocked
    | Lower
    | Arrive                    // blocks, or passes straight through if the flag is up
    | Return(wait: nat)
    | Interrupt(wait: nat)      // by cancellation
    | Abort(wait: nat)
    | Destroy(wait: nat)        // its loop is closed
    | Stutter

  predicate Can(e: Event, a: EventAction) {
    match a
    case Return(w) => w < |e.waits| && e.waits[w].Released?
    case Interrupt(w) => w < |e.waits| && (e.waits[w].Blocked? || e.waits[w].Released?)
    case Abort(w) => w < |e.waits| && e.waits[w].Leaving?
    case Destroy(w) => w < |e.waits| && !e.waits[w].Back? && !e.waits[w].Aborted?
    case _ => true
  }

  function Do(e: Event, a: EventAction): Event
    requires Can(e, a)
  {
    match a
    case Raise =>
      Event(true, seq(|e.waits|, w requires 0 <= w < |e.waits| =>
                        if e.waits[w].Blocked? then Released else e.waits[w]))
    case Lower => e.(flag := false)
    case Arrive => e.(waits := e.waits + [if e.flag then Back else Blocked])
    case Return(w) => e.(waits := e.waits[w := Back])
    case Interrupt(w) => e.(waits := e.waits[w := Leaving])
    case Abort(w) => e.(waits := e.waits[w := Aborted])
    case Destroy(w) => e.(waits := e.waits[w := Aborted])
    case Stutter => e
  }

  /** What the users of the implementation can tell about one wait. */
  ghost function StatusOf(st: State, w: nat): Status
    requires w < |st.waits|
  {
    var wt := st.waits[w];
    if wt.phase.Returned? then Back
    else if wt.phase.Raised? then Aborted
    else if wt.future.Cancelled? || wt.cancelRequested then Leaving
    else if w in st.monitor.waiters then Blocked
    else Released
  }

  ghost function Abs(st: State): Event {
    Event(st.monitor.isSet, seq(|st.waits|, w requires 0 <= w < |st.waits| => StatusOf(st, w)))
  }

  ghost function AbsAction(st: State, a: Action): EventAction
    requires Enabled(st, a)
  {
    match a
    case Set => Raise
    case Clear => Lower
    case BeginWait(_) => Arrive
    case Cancel(w) => if StatusOf(st, w).Leaving? then Stutter else Interrupt(w)
    case Resume(w) => if StatusOf(st, w).Released? then Return(w) else Abort(w)
    case Collect(w) => Destroy(w)
    case _ => Stutter  // creating or closing a loop, and every delivery, is invisible
  }

  /** The facts about waits and registered entries that the simulation needs. */
  ghost predicate Facts(st: State) {
    && Settled(st.monitor)
    && (forall w :: 0 <= w < |st.waits| ==> WaitOk(st, w))
    && (forall w :: w in st.monitor.waiters ==>
         w < |st.waits| && st.waits[w].phase.Parked? && !st.waits[w].future.Resolved?)
  }

  lemma InvGivesFacts(st: State)
    requires Inv(st)
    ensures Facts(st)
  {
    forall w | w in st.monitor.waiters ensures EntryOk(st, w, Registered) {
      assert At(st, w, Registered);
    }
  }

  /** Steps of the loops and of `set()` after the lock are invisible, but for the waits they leave alone. */
  lemma DeliverySimulates(st: State, a: Action)
    requires Inv(st) && Enabled(st, a) && (a.NewLoop? || a.CloseLoop? || a.Deliver? || a.RunReady? || a.Clear?)
    ensures Abs(Apply(st, a)) == Do(Abs(st), AbsAction(st, a))
  {
    if a.RunReady? {
      assert At(st, st.loops[a.ofLoop].ready[0], ReadyOn(a.ofLoop));
    }
    assert Abs(Apply(st, a)).waits == Abs(st).waits;
  }

  lemma SetSimulates(st: State)
    requires Facts(st)
    ensures Abs(Apply(st, Set)) == Do(Abs(st), Raise)
  {
    assert Abs(Apply(st, Set)).waits == Do(Abs(st), Raise).waits;
  }

  lemma BeginWaitSimulates(st: State, l: nat)
    requires Facts(st) && Enabled(st, BeginWait(l))
    ensures Abs(Apply(st, BeginWait(l))) == Do(Abs(st), Arrive)
  {
    var st' := Apply(st, BeginWait(l));
    forall w | 0 <= w < |st.waits| ensures StatusOf(st', w) == StatusOf(st, w) {
    }
    assert Abs(st').waits == Do(Abs(st), Arrive).waits;
  }

  lemma TaskSimulates(st: State, a: Action)
    requires Inv(st) && Facts(st) && Enabled(st, a) && (a.Cancel? || a.Resume? || a.Collect?)
    ensures Can(Abs(st), AbsAction(st, a))
    ensures Abs(Apply(st, a)) == Do(Abs(st), AbsAction(st, a))
  {
    var w0 := a.wait;
    assert WaitOk(st, w0);
    if !a.Cancel? {
      WithoutDropsOnly(st.monitor.waiters, w0);
    }
    forall w | 0 <= w < |st.waits|
      ensures Abs(Apply(st, a)).waits[w] == Do(Abs(st), AbsAction(st, a)).waits[w]
    {
    }
    assert Abs(Apply(st, a)).waits == Do(Abs(st), AbsAction(st, a)).waits;
  }

  /** Forward simulation, one step. */
  lemma StepSimulates(st: State, a: Action)
    requires Inv(st) && Enabled(st, a)
    ensures Can(Abs(st), AbsAction(st, a))
    ensures Abs(Apply(st, a)) == Do(Abs(st), AbsAction(st, a))
  {
    InvGivesFacts(st);
    match a
    case Set => SetSimulates(st);
    case BeginWait(l) => BeginWaitSimulates(st, l);
    case Cancel(_) => TaskSimulates(st, a);
    case Resume(_) => TaskSimulates(st, a);
    case Collect(_) => TaskSimulates(st, a);
    case _ => DeliverySimulates(st, a);
  }

  /** The visible steps of a run. */
  ghost function Trace(run: seq<Action>): seq<EventAction> {
    if run == [] then []
    else
      var init, last := run[..|run| - 1], run[|run| - 1];
      var st := Exec(START, init);
      Trace(init) + [if Enabled(st, last) then AbsAction(st, last) else Stutter]
  }

  /** Where the atomic event gets by performing `trace`, skipping what it cannot do. */
  ghost function Perform(trace: seq<EventAction>): Event {
    if trace == [] then Event(false, [])
    else
      var before, last := Perform(trace[..|trace| - 1]), trace[|trace| - 1];
      if Can(before, last) then Do(before, last) else before
  }

  /** Nothing in `trace` is skipped. */
  ghost predicate Possible(trace: seq<EventAction>) {
    forall k :: 0 <= k < |trace| ==> Can(Perform(trace[..k]), trace[k])
  }

  lemma OneMore(trace: seq<EventAction>, a: EventAction)
    requires Possible(trace) && Can(Perform(trace), a)
    ensures Possible(trace + [a]) && Perform(trace + [a]) == Do(Perform(trace), a)
  {
    var longer := trace + [a];
    assert longer[..|longer| - 1] == trace;
    forall k | 0 <= k < |longer| ensures Can(Perform(longer[..k]), longer[k]) {
      assert longer[..k] == trace[..k];
      assert trace[..|trace|] == trace;
    }
  }

  /** Every run of the implementation is a run of the atomic event: nothing is skipped, and after it
      both show the same. */
  lemma {:induction false} RunSimulates(run: seq<Action>)
    ensures |Trace(run)| == |run| && Possible(Trace(run))
    ensures Perform(Trace(run)) == Abs(Exec(START, run))
  {
    if run == [] {
      assert Abs(START) == Event(false, []);
    } else {
      var init, last := run[..|run| - 1], run[|run| - 1];
      RunSimulates(init);
      RunKeepsInv(init);
      var st := Exec(START, init);
      if Enabled(st, last) {
        StepSimulates(st, last);
        OneMore(Trace(init), AbsAction(st, last));
      } else {
        OneMore(Trace(init), Stutter);
      }
    }
  }

  /** After `k` steps the flag is up, and wait `w` is either under way or begins with the next step. */
  ghost predicate SawFlag(run: seq<Action>, w: nat, k: nat) {
    && k <= |run|
    && var st := Exec(START, run[..k]);
       && st.monitor.isSet
       && (if w < |st.waits| then st.waits[w].phase.Parked?
           else k < |run| && w == |st.waits| && run[k].BeginWait? && Enabled(st, run[k]))
  }

  /** A wait returns only if the flag was up at some moment of it. */
  lemma {:induction false} ReturnsOnlyIfFlagWasUp(run: seq<Action>, w: nat)
    requires w < |Exec(START, run).waits|
    requires StatusOf(Exec(START, run), w).Back? || StatusOf(Exec(START, run), w).Released?
    ensures exists k :: SawFlag(run, w, k)
  {
    var init, last := run[..|run| - 1], run[|run| - 1];
    var st := Exec(START, init);
    RunKeepsInv(init);
    if Enabled(st, last) {
      StepSimulates(st, last);
      assert Abs(Exec(START, run)).waits[w] == StatusOf(Exec(START, run), w);
    }
    assert run[..|run| - 1] == init;
    if w < |st.waits| && (StatusOf(st, w).Back? || StatusOf(st, w).Released?) {
      ReturnsOnlyIfFlagWasUp(init, w);
      var k: nat :| SawFlag(init, w, k);
      assert init[..k] == run[..k];
      assert SawFlag(run, w, k);
    } else if w < |st.waits| {
      assert run[..|run|] == run;
      assert SawFlag(run, w, |run|);
    } else {
      assert SawFlag(run, w, |run| - 1);
    }
  }

  /** A wait that is over has left nothing behind for `set()` to walk over. */
  lemma OverLeavesNoEntry(run: seq<Action>, w: nat)
    requires w < |Exec(START, run).waits| && !Exec(START, run).waits[w].phase.Parked?
    ensures w !in Exec(START, run).monitor.waiters
  {
    RunKeepsInv(run);
    assert At(Exec(START, run), w, Registered) ==> EntryOk(Exec(START, run), w, Registered);
  }

  /** Whenever the lock is free: a raised flag means nobody is registered, no entry is in two places. */
  lemma LockFreeMoments(run: seq<Action>, w: WaitId, p: Place, q: Place)
    requires At(Exec(START, run), w, p) && At(Exec(START, run), w, q)
    ensures p == q && w < |Exec(START, run).waits|
    ensures !Exec(START, run).waits[w].future.Resolved?
    ensures Exec(START, run).monitor.isSet ==> p != Registered
  {
    RunKeepsInv(run);
  }
}
