/** The registry behind `run()` and `stop()`: who serves under which id, and who shuts whom down.
    `RunRegistry` is the dictionary with its locked sections, `State`/`Action` the interleavings of any
    number of `run()` and `stop()` calls around it. */
module RunRegistries {
  import opened Wrappers

  datatype StopOutcome = Took(run: nat) | Ambiguous | NothingServing | UnknownId

  type Registry = map<string, nat>

  /** Which id a `stop(id)` is about to pop. */
  ghost predicate Chooses(runs: Registry, id: Option<string>, chosen: string) {
    match id
    case Some(x) => chosen == x && x in runs
    case None => runs.Keys == {chosen}
  }

  class RunRegistry {
    var runs: Registry

    constructor ()
      ensures runs == map[]
    {
      runs := map[];
    }

    method Register(id: string, token: nat) returns (ok: bool)
      modifies this
      ensures ok == (id !in old(runs))
      ensures runs == if ok then old(runs)[id := token] else old(runs)
    {
      if id in runs {
        return false;
      }
      runs := runs[id := token];
      return true;
    }

    /** In the `finally` of `run()`: whatever is registered under the id goes. */
    method Unregister(id: string)
      modifies this
      ensures runs == old(runs) - {id}
    {
      if id in runs {
        runs := map k | k in runs && k != id :: runs[k];
      }
    }

    method Stop(id: Option<string>) returns (r: StopOutcome)
      modifies this
      ensures r.Took? ==>
        exists chosen :: Chooses(old(runs), id, chosen) && r.run == old(runs)[chosen] && runs == old(runs) - {chosen}
      ensures !r.Took? ==> runs == old(runs) && forall chosen :: !Chooses(old(runs), id, chosen)
      ensures r == Ambiguous <==> id == None && |old(runs)| > 1
      ensures r == NothingServing <==> id == None && old(runs) == map[]
    {
      var key: string;
      if id.None? {
        if |runs| > 1 {
          forall chosen ensures !Chooses(runs, id, chosen) {
            assert runs.Keys == {chosen} ==> |runs| == 1;
          }
          return Ambiguous;
        }
        if |runs| == 0 {
          return NothingServing;
        }
        key :| key in runs.Keys;
        assert |runs.Keys - {key}| == 0;
        assert runs.Keys == {key};
      } else {
        key := id.value;
      }
      if key !in runs {
        return UnknownId;
      }
      r := Took(runs[key]);
      assert Chooses(runs, id, key);
      Unregister(key);
    }
  }

  // ----- Any number of run() and stop() calls ----------------------------------------------

  datatype Phase = Serving | Winding | Finished

  /** `stops` counts the `stop()` calls that took this run, `signalled` whether its shutdown event is set. */
  datatype Run = Run(id: string, phase: Phase, stops: nat, signalled: bool)

  datatype State = State(registry: Registry, runs: seq<Run>)

  datatype Action =
    | Register(id: string)
    | Take(named: Option<string>)            // the locked part of stop()
    | Signal(taken: nat)                     // shutdown_event.set(), after the lock is released
    | Leave(leaver: nat, interrupted: bool)  // serving ends: shut down, or an exception; finally pops the id
    | Finish(finisher: nat)

  const START := State(map[], [])

  predicate Enabled(st: State, a: Action) {
    match a
    case Register(_) => true
    case Take(_) => true
    case Signal(r) => r < |st.runs| && st.runs[r].stops > 0 && !st.runs[r].signalled
    case Leave(r, interrupted) =>
      r < |st.runs| && st.runs[r].phase == Serving && (st.runs[r].signalled || interrupted)
    case Finish(r) => r < |st.runs| && st.runs[r].phase == Winding
  }

  ghost function TakeOne(st: State, chosen: string): State
    requires chosen in st.registry
  {
    var r := st.registry[chosen];
    State(st.registry - {chosen},
          if r < |st.runs| then st.runs[r := st.runs[r].(stops := st.runs[r].stops + 1)] else st.runs)
  }

  ghost function Apply(st: State, a: Action): State
    requires Enabled(st, a)
  {
    match a
    case Register(id) =>
      if id in st.registry then st
      else State(st.registry[id := |st.runs|], st.runs + [Run(id, Serving, 0, false)])
    case Take(named) =>
      if exists chosen :: Chooses(st.registry, named, chosen) then
        var chosen :| Chooses(st.registry, named, chosen);
        TakeOne(st, chosen)
      else st
    case Signal(r) => st.(runs := st.runs[r := st.runs[r].(signalled := true)])
    case Leave(r, _) =>
      State(st.registry - {st.runs[r].id}, st.runs[r := st.runs[r].(phase := Winding)])
    case Finish(r) => st.(runs := st.runs[r := st.runs[r].(phase := Finished)])
  }

  ghost function Exec(st: State, run: seq<Action>): State {
    if run == [] then st
    else
      var before, last := Exec(st, run[..|run| - 1]), run[|run| - 1];
      if Enabled(before, last) then Apply(before, last) else before
  }

  ghost predicate RegisteredAt(st: State, id: string, r: nat) {
    id in st.registry && st.registry[id] == r
  }

  ghost predicate EntryOk(st: State, id: string, r: nat) {
    r < |st.runs| && st.runs[r].id == id && st.runs[r].phase == Serving && st.runs[r].stops == 0
  }

  /** Only a serving run that no `stop()` took yet is registered, and under its own id. */
  ghost predicate Inv(st: State) {
    && (forall id, r: nat :: RegisteredAt(st, id, r) ==> EntryOk(st, id, r))
    && (forall r :: 0 <= r < |st.runs| ==>
         st.runs[r].stops <= 1 && (st.runs[r].signalled ==> st.runs[r].stops == 1))
  }

  lemma StepKeepsInv(st: State, a: Action)
    requires Inv(st) && Enabled(st, a)
    ensures Inv(Apply(st, a))
  {
    var st' := Apply(st, a);
    forall id, r: nat | RegisteredAt(st', id, r) ensures EntryOk(st', id, r) {
      if RegisteredAt(st, id, r) {
        assert EntryOk(st, id, r);
        if a.Take? && exists chosen :: Chooses(st.registry, a.named, chosen) {
          var chosen :| Chooses(st.registry, a.named, chosen) && st' == TakeOne(st, chosen);
          assert chosen in st.registry.Keys;
          assert RegisteredAt(st, chosen, st.registry[chosen]);
          assert EntryOk(st, chosen, st.registry[chosen]);
        }
      }
    }
    forall r | 0 <= r < |st'.runs|
      ensures st'.runs[r].stops <= 1 && (st'.runs[r].signalled ==> st'.runs[r].stops == 1)
    {
      if a.Take? && exists chosen :: Chooses(st.registry, a.named, chosen) {
        var chosen :| Chooses(st.registry, a.named, chosen) && st' == TakeOne(st, chosen);
        assert chosen in st.registry.Keys;
        assert RegisteredAt(st, chosen, st.registry[chosen]);
        assert EntryOk(st, chosen, st.registry[chosen]);
      }
    }
  }

  lemma {:induction false} RunKeepsInv(run: seq<Action>)
    ensures Inv(Exec(START, run))
  {
    if run != [] {
      RunKeepsInv(run[..|run| - 1]);
      var st, last := Exec(START, run[..|run| - 1]), run[|run| - 1];
      if Enabled(st, last) {
        StepKeepsInv(st, last);
      }
    }
  }

  /** Registered runs are serving, each under its own id, no two under the same, and none was taken by a
      `stop()` yet; no run at all is shut down by two `stop()` calls. */
  lemma RegistryIsSound(run: seq<Action>, x: string, y: string, r: nat, q: nat)
    ensures var st := Exec(START, run);
      RegisteredAt(st, x, r) ==>
        r < |st.runs| && st.runs[r].id == x && st.runs[r].phase == Serving && st.runs[r].stops == 0
    ensures var st := Exec(START, run);
      (RegisteredAt(st, x, r) && RegisteredAt(st, y, q) && r < |st.runs| && q < |st.runs|
       && st.runs[r].id == st.runs[q].id) ==> r == q
    ensures r < |Exec(START, run).runs| ==> Exec(START, run).runs[r].stops <= 1
  {
    RunKeepsInv(run);
    assert RegisteredAt(Exec(START, run), x, r) ==> EntryOk(Exec(START, run), x, r);
    assert RegisteredAt(Exec(START, run), y, q) ==> EntryOk(Exec(START, run), y, q);
  }

  /** A registered run is what `stop(id)` takes; `stop()` takes something only if just one run is registered. */
  lemma StopTakesTheRegistered(run: seq<Action>, id: string)
    ensures var st := Exec(START, run);
      id in st.registry ==>
        && var r := st.registry[id];
           var after := Apply(st, Take(Some(id)));
           r < |after.runs| && after.runs[r].stops == 1 && forall x :: !RegisteredAt(after, x, r)
    ensures var st := Exec(START, run);
      Apply(st, Take(None)) != st <==> |st.registry| == 1
  {
    RunKeepsInv(run);
    var st := Exec(START, run);
    if id in st.registry {
      var r := st.registry[id];
      var after := Apply(st, Take(Some(id)));
      assert RegisteredAt(st, id, r) && EntryOk(st, id, r);
      assert Chooses(st.registry, Some(id), id);
      forall x ensures !RegisteredAt(after, x, r) {
        assert RegisteredAt(after, x, r) ==> RegisteredAt(st, x, r) && EntryOk(st, x, r);
      }
    }
    if |st.registry| == 1 {
      var x :| x in st.registry.Keys;
      assert |st.registry.Keys - {x}| == 0;
      assert st.registry.Keys == {x};
      assert Chooses(st.registry, None, x);
    }
    if chosen :| Chooses(st.registry, None, chosen) {
      assert |st.registry.Keys| == 1;
      assert chosen in st.registry.Keys;
      assert chosen !in Apply(st, Take(None)).registry;
    }
  }

  // ----- Which runs can be stopped -----------------------------------------------------------

  /** Still serving, told by nobody to stop, and no `stop()` can find it. */
  ghost predicate Stranded(st: State, r: nat) {
    && r < |st.runs| && st.runs[r].phase == Serving && st.runs[r].stops == 0
    && forall id :: !RegisteredAt(st, id, r)
  }

  /** An earlier run under this id has not passed its `finally` yet. */
  ghost predicate StillUp(st: State, id: string) {
    exists q :: 0 <= q < |st.runs| && st.runs[q].id == id && st.runs[q].phase == Serving
  }

  /** Either `r` is over, or somebody stopped it, or it is registered with its id to itself. */
  ghost predicate Guarded(st: State, r: nat) {
    && r < |st.runs|
    && (|| st.runs[r].phase != Serving
        || st.runs[r].stops > 0
        || (&& RegisteredAt(st, st.runs[r].id, r)
            && forall q :: 0 <= q < |st.runs| && st.runs[q].id == st.runs[r].id && st.runs[q].phase == Serving ==>
                 q == r))
  }

  lemma StepKeepsGuarded(st: State, a: Action, r: nat)
    requires Inv(st) && Enabled(st, a) && Guarded(st, r)
    ensures Guarded(Apply(st, a), r)
  {
  }

  lemma {:induction false} RunKeepsGuarded(st: State, run: seq<Action>, r: nat)
    requires Inv(st) && Guarded(st, r)
    ensures Inv(Exec(st, run)) && Guarded(Exec(st, run), r)
  {
    if run != [] {
      RunKeepsGuarded(st, run[..|run| - 1], r);
      var before, last := Exec(st, run[..|run| - 1]), run[|run| - 1];
      if Enabled(before, last) {
        StepKeepsInv(before, last);
        StepKeepsGuarded(before, last, r);
      }
    }
  }

  /** Registering under a free id makes a run that can always be stopped until it is over exactly when no
      earlier run under that id is still up. The registry alone does not tell: a run that was told to stop
      is out of it, yet pops whatever is registered under its id when it gets to its `finally`. */
  lemma SafeToRegister(run: seq<Action>, id: string)
    requires id !in Exec(START, run).registry
    ensures var st := Exec(START, run);
      (exists more :: Stranded(Exec(Apply(st, Register(id)), more), |st.runs|)) <==> StillUp(st, id)
  {
    RunKeepsInv(run);
    var st := Exec(START, run);
    var r := |st.runs|;
    var st' := Apply(st, Register(id));
    StepKeepsInv(st, Register(id));
    if StillUp(st, id) {
      var q :| 0 <= q < |st.runs| && st.runs[q].id == id && st.runs[q].phase == Serving;
      var more := [Leave(q, true)];
      assert more[..|more| - 1] == [];
      assert Exec(st', []) == st';
      assert Exec(st', more) == Apply(st', Leave(q, true));
      forall x ensures !RegisteredAt(Exec(st', more), x, r) {
        assert RegisteredAt(st', x, r) ==> x == id;
      }
      assert Stranded(Exec(Apply(st, Register(id)), more), |st.runs|);
    } else {
      forall more ensures !Stranded(Exec(st', more), r) {
        assert RegisteredAt(st', id, r);
        RunKeepsGuarded(st', more, r);
      }
    }
  }

  lemma Next(run: seq<Action>, st: State, a: Action, st': State)
    requires Exec(START, run) == st && Enabled(st, a) && Apply(st, a) == st'
    ensures Exec(START, run + [a]) == st'
  {
    assert (run + [a])[..|run|] == run;
  }

  /** The smallest failure: stop a run, reuse its id before it has left, and the second run is out of reach. */
  lemma ReusedIdIsLost(id: string)
    ensures Stranded(Exec(START, [Register(id), Take(Some(id)), Signal(0), Register(id), Leave(0, false)]), 1)
  {
    var s1 := State(map[id := 0], [Run(id, Serving, 0, false)]);
    var s2 := State(map[], [Run(id, Serving, 1, false)]);
    var s3 := State(map[], [Run(id, Serving, 1, true)]);
    var s4 := State(map[id := 1], [Run(id, Serving, 1, true), Run(id, Serving, 0, false)]);
    var s5 := State(map[], [Run(id, Winding, 1, true), Run(id, Serving, 0, false)]);
    var r1 := [] + [Register(id)];
    var r2 := r1 + [Take(Some(id))];
    var r3 := r2 + [Signal(0)];
    var r4 := r3 + [Register(id)];
    var r5 := r4 + [Leave(0, false)];
    Next([], START, Register(id), s1);
    assert Chooses(s1.registry, Some(id), id);
    assert s1.registry - {id} == map[];
    Next(r1, s1, Take(Some(id)), s2);
    Next(r2, s2, Signal(0), s3);
    Next(r3, s3, Register(id), s4);
    assert s4.registry - {id} == map[];
    Next(r4, s4, Leave(0, false), s5);
    assert r5 == [Register(id), Take(Some(id)), Signal(0), Register(id), Leave(0, false)];
  }
}
