/**
 The lazy once-per-tenant bootstrap in front of the inbox lists (cmd/server/inbox_wire_llmcustomer.go).
 Both decorators, over conversations and over summaries, run this same protocol on their own `seen` set.

 The set is guarded by a mutex, but the bootstrap itself runs outside it; so the two critical sections,
 the bootstrap's end and the inner list are separate atomic steps of any number of concurrent calls.
 */
module Bootstrap {
  import opened Uuids

  type Tenant = Id

  /** The mutex-protected part. */
  class Guard {
    var seen: set<Tenant>

    constructor ()
      ensures seen == {}
    {
      seen := {};
    }

    /** True exactly for the caller that now owns the bootstrap of the tenant. */
    method MarkPending(t: Tenant) returns (owner: bool)
      modifies this
      ensures owner == (t !in old(seen))
      ensures seen == old(seen) + {t}
    {
      if t in seen {
        assert seen == seen + {t};
        return false;
      }
      seen := seen + {t};
      return true;
    }

    method ReleasePending(t: Tenant)
      modifies this
      ensures seen == old(seen) - {t}
    {
      seen := seen - {t};
    }
  }

  /** `Panicked`: the bootstrap panicked; nothing in the source recovers, so the mark stays and the call never lists. */
  datatype Phase = Entering | Owning | Releasing | Listing | Returned | Panicked

  /** `won`: this call's bootstrap succeeded. `lists`: how often it ran the inner list. */
  datatype Call = Call(tenant: Tenant, phase: Phase, won: bool, lists: nat)

  datatype State = State(seen: set<Tenant>, calls: map<nat, Call>)

  datatype Step =
    | Arrive(c: nat, t: Tenant)
    | Mark(c: nat)
    | BootstrapOk(c: nat)
    | BootstrapFails(c: nat)
    | BootstrapPanics(c: nat)
    | Release(c: nat)
    | List(c: nat)

  predicate Enabled(s: State, step: Step) {
    match step
    case Arrive(c, _) => c !in s.calls
    case Mark(c) => c in s.calls && s.calls[c].phase == Entering
    case BootstrapOk(c) => c in s.calls && s.calls[c].phase == Owning
    case BootstrapFails(c) => c in s.calls && s.calls[c].phase == Owning
    case BootstrapPanics(c) => c in s.calls && s.calls[c].phase == Owning
    case Release(c) => c in s.calls && s.calls[c].phase == Releasing
    case List(c) => c in s.calls && s.calls[c].phase == Listing
  }

  function Moved(s: State, c: nat, call: Call): State {
    s.(calls := s.calls[c := call])
  }

  function Do(s: State, step: Step): State
    requires Enabled(s, step)
  {
    match step
    case Arrive(c, t) => Moved(s, c, Call(t, Entering, false, 0))
    case Mark(c) =>
      var call := s.calls[c];
      if call.tenant != NIL_ID && call.tenant !in s.seen
      then Moved(s, c, call.(phase := Owning)).(seen := s.seen + {call.tenant})
      else Moved(s, c, call.(phase := Listing))
    case BootstrapOk(c) => Moved(s, c, s.calls[c].(phase := Listing, won := true))
    case BootstrapFails(c) => Moved(s, c, s.calls[c].(phase := Releasing))
    case BootstrapPanics(c) => Moved(s, c, s.calls[c].(phase := Panicked))
    case Release(c) => Moved(s, c, s.calls[c].(phase := Listing)).(seen := s.seen - {s.calls[c].tenant})
    case List(c) => Moved(s, c, s.calls[c].(phase := Returned, lists := s.calls[c].lists + 1))
  }

  /** The call holds the tenant: its bootstrap is under way, or was the one that succeeded. */
  predicate Holds(call: Call, t: Tenant) {
    call.tenant == t && (call.won || call.phase == Owning || call.phase == Releasing)
  }

  /** The call left the mark behind when its bootstrap panicked. */
  predicate Abandoned(call: Call, t: Tenant) {
    call.tenant == t && call.phase == Panicked
  }

  predicate Claims(call: Call, t: Tenant) {
    Holds(call, t) || Abandoned(call, t)
  }

  ghost predicate ClaimedBySome(s: State, t: Tenant) {
    exists c :: c in s.calls && Claims(s.calls[c], t)
  }

  predicate CallOk(call: Call) {
    && call.lists == (if call.phase == Returned then 1 else 0)
    && (call.won ==> call.phase == Listing || call.phase == Returned)
    && (call.phase == Owning ==> call.tenant != NIL_ID)
  }

  ghost predicate Inv(s: State) {
    && (forall t :: t in s.seen <==> ClaimedBySome(s, t))
    && (forall c, d, t :: c in s.calls && d in s.calls && Claims(s.calls[c], t) && Claims(s.calls[d], t) ==> c == d)
    && (forall c :: c in s.calls ==> CallOk(s.calls[c]))
    && NIL_ID !in s.seen
  }

  /** A step that leaves a call's hold on every tenant as it was. */
  lemma HoldUnchanged(s: State, c: nat, call: Call)
    requires Inv(s) && CallOk(call)
    requires forall t :: Claims(call, t) <==> c in s.calls && Claims(s.calls[c], t)
    ensures Inv(Moved(s, c, call))
  {
    var s' := Moved(s, c, call);
    forall t
      ensures ClaimedBySome(s, t) <==> ClaimedBySome(s', t)
    {
      if ClaimedBySome(s, t) {
        var a :| a in s.calls && Claims(s.calls[a], t);
        assert a in s'.calls && Claims(s'.calls[a], t);
      }
      if ClaimedBySome(s', t) {
        var a :| a in s'.calls && Claims(s'.calls[a], t);
        assert a in s.calls && Claims(s.calls[a], t);
      }
    }
  }

  /** Claiming: nobody held the tenant, now exactly this call does. */
  lemma ClaimKeepsInv(s: State, c: nat)
    requires Inv(s) && Enabled(s, Mark(c))
    requires s.calls[c].tenant != NIL_ID && s.calls[c].tenant !in s.seen
    ensures Inv(Do(s, Mark(c)))
  {
    var s', mine := Do(s, Mark(c)), s.calls[c].tenant;
    assert !ClaimedBySome(s, mine);
    forall t
      ensures t in s'.seen <==> ClaimedBySome(s', t)
    {
      if t == mine {
        assert Claims(s'.calls[c], t);
      } else {
        if ClaimedBySome(s, t) {
          var a :| a in s.calls && Claims(s.calls[a], t);
          assert a in s'.calls && Claims(s'.calls[a], t);
        }
        if ClaimedBySome(s', t) {
          var a :| a in s'.calls && Claims(s'.calls[a], t);
          assert a in s.calls && Claims(s.calls[a], t);
        }
      }
    }
    forall a, b, t | a in s'.calls && b in s'.calls && Claims(s'.calls[a], t) && Claims(s'.calls[b], t)
      ensures a == b
    {
      assert forall d :: d in s.calls ==> !Claims(s.calls[d], mine);
    }
  }

  /** Releasing: this call was the only holder, now nobody is. */
  lemma ReleaseKeepsInv(s: State, c: nat)
    requires Inv(s) && Enabled(s, Release(c))
    ensures Inv(Do(s, Release(c)))
  {
    var s', mine := Do(s, Release(c)), s.calls[c].tenant;
    assert Claims(s.calls[c], mine);
    forall t
      ensures t in s'.seen <==> ClaimedBySome(s', t)
    {
      if ClaimedBySome(s', t) {
        var a :| a in s'.calls && Claims(s'.calls[a], t);
        assert a != c && Claims(s.calls[a], t);
      }
      if t != mine && ClaimedBySome(s, t) {
        var a :| a in s.calls && Claims(s.calls[a], t);
        assert a in s'.calls && Claims(s'.calls[a], t);
      }
    }
  }

  lemma StepKeepsInv(s: State, step: Step)
    requires Inv(s) && Enabled(s, step)
    ensures Inv(Do(s, step))
  {
    match step
    case Arrive(c, t) => HoldUnchanged(s, c, Call(t, Entering, false, 0));
    case Mark(c) =>
      if s.calls[c].tenant != NIL_ID && s.calls[c].tenant !in s.seen {
        ClaimKeepsInv(s, c);
      } else {
        HoldUnchanged(s, c, s.calls[c].(phase := Listing));
      }
    case BootstrapOk(c) => HoldUnchanged(s, c, s.calls[c].(phase := Listing, won := true));
    case BootstrapFails(c) => HoldUnchanged(s, c, s.calls[c].(phase := Releasing));
    case BootstrapPanics(c) => HoldUnchanged(s, c, s.calls[c].(phase := Panicked));
    case Release(c) => ReleaseKeepsInv(s, c);
    case List(c) => HoldUnchanged(s, c, s.calls[c].(phase := Returned, lists := s.calls[c].lists + 1));
  }

  // ----- whole runs

  ghost predicate Run(ss: seq<State>, steps: seq<Step>) {
    && |ss| == |steps| + 1
    && ss[0] == State({}, map[])
    && forall i :: 0 <= i < |steps| ==> Enabled(ss[i], steps[i]) && ss[i + 1] == Do(ss[i], steps[i])
  }

  lemma {:induction false} ReachableInv(ss: seq<State>, steps: seq<Step>, i: nat)
    requires Run(ss, steps) && i < |ss|
    ensures Inv(ss[i])
    decreases i
  {
    if i > 0 {
      ReachableInv(ss, steps, i - 1);
      StepKeepsInv(ss[i - 1], steps[i - 1]);
    }
  }

  /**
   In every interleaving a tenant is marked exactly while one call is bootstrapping it, after one call did
   so, or after an owner's bootstrap panicked. There is never more than one such call, so at most one
   bootstrap ever succeeds per decorator.
   */
  lemma MarkedExactlyWhenHeld(ss: seq<State>, steps: seq<Step>, i: nat, t: Tenant)
    requires Run(ss, steps) && i < |ss|
    ensures t in ss[i].seen <==>
            || (exists c :: c in ss[i].calls && Holds(ss[i].calls[c], t))
            || (exists c :: c in ss[i].calls && Abandoned(ss[i].calls[c], t))
    ensures forall c, d :: c in ss[i].calls && d in ss[i].calls && Claims(ss[i].calls[c], t) && Claims(ss[i].calls[d], t) ==> c == d
  {
    ReachableInv(ss, steps, i);
    if t in ss[i].seen {
      assert ClaimedBySome(ss[i], t);
      var c :| c in ss[i].calls && Claims(ss[i].calls[c], t);
      assert Holds(ss[i].calls[c], t) || Abandoned(ss[i].calls[c], t);
    }
    if c :| c in ss[i].calls && Holds(ss[i].calls[c], t) {
      assert Claims(ss[i].calls[c], t);
    }
    if c :| c in ss[i].calls && Abandoned(ss[i].calls[c], t) {
      assert Claims(ss[i].calls[c], t);
    }
  }

  /** A call becomes the owner exactly if no earlier attempt is under way, succeeded or panicked: failures do not count. */
  lemma FailedTenantIsClaimable(ss: seq<State>, steps: seq<Step>, i: nat, c: nat)
    requires Run(ss, steps) && i < |ss|
    requires Enabled(ss[i], Mark(c)) && ss[i].calls[c].tenant != NIL_ID
    ensures Do(ss[i], Mark(c)).calls[c].phase == Owning <==>
            forall d :: d in ss[i].calls ==> !Claims(ss[i].calls[d], ss[i].calls[c].tenant)
  {
    ReachableInv(ss, steps, i);
    var t := ss[i].calls[c].tenant;
    assert t in ss[i].seen <==> ClaimedBySome(ss[i], t);
  }

  /** Unless its bootstrap panics a call lists once, when it returns and never before, and it can always go on. */
  lemma EveryCallListsOnce(ss: seq<State>, steps: seq<Step>, i: nat, c: nat)
    requires Run(ss, steps) && i < |ss| && c in ss[i].calls
    ensures ss[i].calls[c].lists == if ss[i].calls[c].phase == Returned then 1 else 0
    ensures ss[i].calls[c].phase != Returned && ss[i].calls[c].phase != Panicked ==>
              Enabled(ss[i], Mark(c)) || Enabled(ss[i], BootstrapOk(c)) || Enabled(ss[i], Release(c)) || Enabled(ss[i], List(c))
  {
    ReachableInv(ss, steps, i);
  }

  lemma StepKeepsFinal(s: State, step: Step, c: nat)
    requires Inv(s) && Enabled(s, step) && c in s.calls && (s.calls[c].won || s.calls[c].phase == Panicked)
    ensures var s' := Do(s, step);
            && c in s'.calls && s'.calls[c].tenant == s.calls[c].tenant && s'.calls[c].won == s.calls[c].won
            && (s'.calls[c].won || s'.calls[c].phase == Panicked)
  {
    assert CallOk(s.calls[c]);
  }

  /** A bootstrap that succeeded or panicked once is never tried again. */
  lemma {:induction false} LastAttemptIsFinal(ss: seq<State>, steps: seq<Step>, i: nat, j: nat, c: nat)
    requires Run(ss, steps) && i <= j < |ss| && c in ss[i].calls
    requires ss[i].calls[c].won || ss[i].calls[c].phase == Panicked
    ensures c in ss[j].calls && ss[j].calls[c].tenant == ss[i].calls[c].tenant
    ensures ss[j].calls[c].won == ss[i].calls[c].won && (ss[j].calls[c].won || ss[j].calls[c].phase == Panicked)
    ensures forall d :: d in ss[j].calls && d != c && ss[j].calls[d].tenant == ss[i].calls[c].tenant ==>
                          ss[j].calls[d].phase != Owning && !ss[j].calls[d].won
    decreases j
  {
    ReachableInv(ss, steps, j);
    if i < j {
      LastAttemptIsFinal(ss, steps, i, j - 1, c);
      ReachableInv(ss, steps, j - 1);
      StepKeepsFinal(ss[j - 1], steps[j - 1], c);
    }
    assert Claims(ss[j].calls[c], ss[i].calls[c].tenant);
  }

  // ----- what a call has been through

  ghost predicate Happened(steps: seq<Step>, n: nat, step: Step) {
    n <= |steps| && step in steps[..n]
  }

  /** The call came to `seen` when its tenant was marked already, or it names no tenant. */
  ghost predicate FoundMarked(ss: seq<State>, steps: seq<Step>, n: nat, c: nat, t: Tenant) {
    exists i :: 0 <= i < n && i < |steps| && i < |ss| && steps[i] == Mark(c) && (t == NIL_ID || t in ss[i].seen)
  }

  lemma HappenedBefore(steps: seq<Step>, n: nat, step: Step)
    requires n < |steps|
    ensures Happened(steps, n + 1, step) <==> Happened(steps, n, step) || steps[n] == step
  {
    assert steps[..n + 1] == steps[..n] + [steps[n]];
  }

  /** Which of its own steps a call has taken, besides going through the set. */
  datatype Past = Past(ok: bool, failed: bool, panicked: bool, released: bool, listed: bool)

  ghost function PastOf(steps: seq<Step>, n: nat, c: nat): Past {
    Past(Happened(steps, n, BootstrapOk(c)), Happened(steps, n, BootstrapFails(c)), Happened(steps, n, BootstrapPanics(c)),
         Happened(steps, n, Release(c)), Happened(steps, n, List(c)))
  }

  predicate Shows(call: Call, past: Past) {
    && (call.won <==> past.ok)
    && (past.failed <==> past.released || call.phase == Releasing)
    && (call.phase == Returned <==> past.listed)
    && (call.phase == Panicked <==> past.panicked)
  }

  lemma ShowsOneMore(s: State, step: Step, c: nat, past: Past)
    requires Enabled(s, step) && c in s.calls && Shows(s.calls[c], past)
    ensures c in Do(s, step).calls
    ensures Shows(Do(s, step).calls[c], Past(past.ok || step == BootstrapOk(c), past.failed || step == BootstrapFails(c),
                  past.panicked || step == BootstrapPanics(c), past.released || step == Release(c), past.listed || step == List(c)))
  {
  }

  lemma PastOneMore(steps: seq<Step>, n: nat, c: nat)
    requires n < |steps|
    ensures var past, step := PastOf(steps, n, c), steps[n];
            PastOf(steps, n + 1, c) == Past(past.ok || step == BootstrapOk(c), past.failed || step == BootstrapFails(c),
              past.panicked || step == BootstrapPanics(c), past.released || step == Release(c), past.listed || step == List(c))
  {
    HappenedBefore(steps, n, BootstrapOk(c));
    HappenedBefore(steps, n, BootstrapFails(c));
    HappenedBefore(steps, n, BootstrapPanics(c));
    HappenedBefore(steps, n, Release(c));
    HappenedBefore(steps, n, List(c));
  }

  /** What a call shows is what it has been through, over every run. */
  lemma {:induction false} ShowsItsPast(ss: seq<State>, steps: seq<Step>, n: nat, c: nat)
    requires Run(ss, steps) && n < |ss| && c in ss[n].calls
    ensures Shows(ss[n].calls[c], PastOf(steps, n, c))
    decreases n
  {
    assert ss[n] == Do(ss[n - 1], steps[n - 1]);
    PastOneMore(steps, n - 1, c);
    if c in ss[n - 1].calls {
      ShowsItsPast(ss, steps, n - 1, c);
      ShowsOneMore(ss[n - 1], steps[n - 1], c, PastOf(steps, n - 1, c));
    } else {
      NothingYet(ss, steps, n - 1, c);
      assert PastOf(steps, n - 1, c) == Past(false, false, false, false, false);
    }
  }

  predicate CameRight(call: Call, marked: bool, released: bool, found: bool) {
    && (call.phase == Entering || marked)
    && (call.phase in {Listing, Returned} ==> call.won || released || found)
  }

  lemma CameRightOneMore(s: State, step: Step, c: nat, marked: bool, released: bool, found: bool)
    requires Enabled(s, step) && c in s.calls && CameRight(s.calls[c], marked, released, found)
    ensures c in Do(s, step).calls && Do(s, step).calls[c].tenant == s.calls[c].tenant
    ensures CameRight(Do(s, step).calls[c], marked || step == Mark(c), released || step == Release(c),
                      found || (step == Mark(c) && (s.calls[c].tenant == NIL_ID || s.calls[c].tenant in s.seen)))
  {
  }

  /**
   Every call goes through the set before anything else. It lists only after it found its tenant marked, or
   bootstrapped it itself: to success, and then the mark stays its own, or to a failure, and then it gave the
   mark back first.
   */
  lemma {:induction false} ListsAfterBootstrap(ss: seq<State>, steps: seq<Step>, n: nat, c: nat)
    requires Run(ss, steps) && n < |ss| && c in ss[n].calls
    ensures CameRight(ss[n].calls[c], Happened(steps, n, Mark(c)), Happened(steps, n, Release(c)),
                      FoundMarked(ss, steps, n, c, ss[n].calls[c].tenant))
    decreases n
  {
    assert ss[n] == Do(ss[n - 1], steps[n - 1]);
    if c in ss[n - 1].calls {
      var t := ss[n - 1].calls[c].tenant;
      ListsAfterBootstrap(ss, steps, n - 1, c);
      CameRightOneMore(ss[n - 1], steps[n - 1], c, Happened(steps, n - 1, Mark(c)), Happened(steps, n - 1, Release(c)),
                       FoundMarked(ss, steps, n - 1, c, t));
      HappenedBefore(steps, n - 1, Mark(c));
      HappenedBefore(steps, n - 1, Release(c));
      FoundMarkedStays(ss, steps, n - 1, c, t);
    }
  }

  lemma FoundMarkedStays(ss: seq<State>, steps: seq<Step>, n: nat, c: nat, t: Tenant)
    requires n < |steps| && n < |ss|
    ensures FoundMarked(ss, steps, n, c, t) ==> FoundMarked(ss, steps, n + 1, c, t)
    ensures steps[n] == Mark(c) && (t == NIL_ID || t in ss[n].seen) ==> FoundMarked(ss, steps, n + 1, c, t)
  {
  }

  /** Nothing happens to a call before it arrives. */
  lemma {:induction false} NothingYet(ss: seq<State>, steps: seq<Step>, n: nat, c: nat)
    requires Run(ss, steps) && n < |ss| && c !in ss[n].calls
    ensures forall i :: 0 <= i < n ==> steps[i].c != c
    decreases n
  {
    if n > 0 {
      assert ss[n] == Do(ss[n - 1], steps[n - 1]);
      NothingYet(ss, steps, n - 1, c);
    }
  }
}
