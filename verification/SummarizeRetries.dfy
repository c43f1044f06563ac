/**
 Retrying a summarize request under the same request id (internal/aiassist/usecase/summarize.go on top of
 internal/wallet/usecase/usecase.go): when the retry's commit goes through, and runs in which it does not.
 */
module SummarizeRetries {
  import opened Options
  import opened WalletLedger
  import opened Uuids
  import W = WalletService
  import opened WalletCalls
  import opened Summarize
  import opened SummarizeBilling
  import opened SummarizeRuns

  // ----- an answered attempt that nobody disturbs

  /** Any row with the request's commit key charges exactly what this reply comes to. */
  ghost predicate FitsCharge(tenant: Id, l: seq<Entry>, ask: Ask, charge: int) {
    forall i :: 0 <= i < |l| && l[i].key == Key(tenant, ask, COMMIT) ==> l[i].kind == Commit && -l[i].amount == charge
  }

  /** The request was not given up, and it was not charged otherwise than this reply would be. */
  ghost predicate CanSettle(tenant: Id, l: seq<Entry>, ask: Ask, r: W.Reservation, reply: Reply) {
    !GivenUp(tenant, l, ask) && FitsCharge(tenant, l, ask, Clamped(reply, r.amount))
  }

  /** What the commit is answered. */
  ghost function Verdict(tenant: Id, l: seq<Entry>, ask: Ask, r: W.Reservation, reply: Reply): Phase {
    if CanSettle(tenant, l, ask, r, reply) then Saving(reply)
    else if HasKey(l, Key(tenant, ask, COMMIT)) then Over(CommitFailed(W.IdempotencyConflict))
    else Over(CommitFailed(W.Completed))
  }

  /** The charge the commit adds to the journal: none if it is refused, and none if it was made before. */
  ghost function Charged(tenant: Id, l: seq<Entry>, ask: Ask, r: W.Reservation, reply: Reply): seq<Entry> {
    if CanSettle(tenant, l, ask, r, reply) && !HasKey(l, Key(tenant, ask, COMMIT))
    then [W.RowOf(Next(tenant, ask, r, Some(reply)), "")] else []
  }

  /** The row with the request's commit key, if it is a commit, settles the request's own reservation. */
  lemma ChargeIsOurs(tenant: Id, s: State, ask: Ask, r: W.Reservation, j: int)
    requires Inv(tenant, s) && |tenant| == |ask.conversation| == UUID_LENGTH && ReservedFor(tenant, s.wallet.ledger, ask, r)
    requires 0 <= j < |s.wallet.ledger| && s.wallet.ledger[j].key == Key(tenant, ask, COMMIT) && s.wallet.ledger[j].kind == Commit
    ensures s.wallet.ledger[j].ref == r.id && !GivenUp(tenant, s.wallet.ledger, ask)
  {
    SettlementIsOurs(tenant, s, ask, r, j);
    if GivenUp(tenant, s.wallet.ledger, ask) {
      GivenUpIsUnpaid(tenant, s, ask);
      assert false;
    }
  }

  /** The only row with a key decides whether every row with it fits. */
  lemma OneRowFits(tenant: Id, l: seq<Entry>, ask: Ask, charge: int, j: int)
    requires WellFormed(l) && 0 <= j < |l| && l[j].key == Key(tenant, ask, COMMIT)
    ensures FitsCharge(tenant, l, ask, charge) <==> l[j].kind == Commit && -l[j].amount == charge
  {
  }

  function AfterAnswer(reply: Reply, o: W.Outcome): Phase {
    if o.Failed? then Over(CommitFailed(o.e)) else Saving(reply)
  }

  lemma VerdictOfTaken(tenant: Id, s: State, ask: Ask, r: W.Reservation, reply: Reply)
    requires Inv(tenant, s) && |tenant| == |ask.conversation| == UUID_LENGTH && ReservedFor(tenant, s.wallet.ledger, ask, r)
    requires HasKey(s.wallet.ledger, Key(tenant, ask, COMMIT))
    ensures var l := s.wallet.ledger;
            && AfterAnswer(reply, CommitOutcome(l, Next(tenant, ask, r, Some(reply)))) == Verdict(tenant, l, ask, r, reply)
            && Written(l, Next(tenant, ask, r, Some(reply))) == Charged(tenant, l, ask, r, reply)
  {
    var l := s.wallet.ledger;
    var j := W.RowWithKey(l, Key(tenant, ask, COMMIT));
    OneRowFits(tenant, l, ask, Clamped(reply, r.amount), j);
    if l[j].kind == Commit {
      ChargeIsOurs(tenant, s, ask, r, j);
    }
  }

  lemma VerdictOfFree(tenant: Id, s: State, ask: Ask, r: W.Reservation, reply: Reply)
    requires Inv(tenant, s) && |tenant| == |ask.conversation| == UUID_LENGTH && ReservedFor(tenant, s.wallet.ledger, ask, r)
    requires !HasKey(s.wallet.ledger, Key(tenant, ask, COMMIT))
    ensures var l := s.wallet.ledger;
            && AfterAnswer(reply, CommitOutcome(l, Next(tenant, ask, r, Some(reply)))) == Verdict(tenant, l, ask, r, reply)
            && Written(l, Next(tenant, ask, r, Some(reply))) == Charged(tenant, l, ask, r, reply)
  {
    assert !Paid(tenant, s.wallet.ledger, ask);
    SettledMeans(tenant, s, ask, r);
  }

  /** The steps an attempt and its wallet call take by themselves when the model answers. */
  predicate Own(step: Step, a: nat, reply: Reply, d: nat) {
    match step
    case ModelReturns(b, r, e) => b == a && r == Some(reply) && e == d
    case GetCommit(b) => b == a
    case Inside(w) => OwnStep(w, d)
    case _ => false
  }

  lemma {:induction false} InsidesAreOwn(wsteps: seq<W.Step>, a: nat, reply: Reply, d: nat)
    requires OwnSteps(wsteps, d)
    ensures forall i :: 0 <= i < |Insides(wsteps)| ==> Own(Insides(wsteps)[i], a, reply, d)
    decreases |wsteps|
  {
    if wsteps != [] {
      assert OwnStep(wsteps[0], d);
      assert OwnSteps(wsteps[1..], d);
      InsidesAreOwn(wsteps[1..], a, reply, d);
    }
  }

  ghost function CommitOf(tenant: Id, s: State, a: nat, reply: Reply): W.Op
    requires a in s.attempts && s.attempts[a].phase.Calling?
  {
    Next(tenant, s.attempts[a].ask, s.attempts[a].phase.r, Some(reply))
  }

  /** A wallet call: sent, answered by the wallet's own steps, and read. */
  lemma CallRound(tenant: Id, ss: seq<State>, steps: seq<Step>, send: Step, ws: seq<W.State>, wsteps: seq<W.Step>, read: Step, s3: State)
    returns (ss': seq<State>, steps': seq<Step>)
    requires Run(tenant, ss, steps) && Enabled(tenant, ss[|steps|], send) && WalletPath(ws, wsteps)
    requires ws[0] == Do(tenant, ss[|steps|], send).wallet && forall i :: 0 <= i < |wsteps| ==> !wsteps[i].Arrive?
    requires Follows(tenant, Do(tenant, ss[|steps|], send).(wallet := ws[|wsteps|]), read, s3)
    ensures Run(tenant, ss', steps') && steps' == steps + [send] + Insides(wsteps) + [read] && ss'[|steps'|] == s3
  {
    var s, s1 := ss[|steps|], Do(tenant, ss[|steps|], send);
    assert Follows(tenant, s, send, s1);
    Extend(tenant, ss, steps, send, s1);
    ss', steps' := ExtendInside(tenant, ss + [s1], steps + [send], ws, wsteps);
    Extend(tenant, ss', steps', read, s3);
    ss', steps' := ss' + [s3], steps' + [read];
  }

  /** Sending the commit, and reading its answer. */
  lemma SendAndRead(tenant: Id, ss: seq<State>, steps: seq<Step>, a: nat, reply: Reply, d: nat, ws: seq<W.State>, wsteps: seq<W.Step>)
    returns (ss': seq<State>, steps': seq<Step>)
    requires Run(tenant, ss, steps) && Enabled(tenant, ss[|steps|], ModelReturns(a, Some(reply), d))
    requires WalletPath(ws, wsteps) && OwnSteps(wsteps, d)
    requires ws[0] == W.Do(ss[|steps|].wallet, W.Arrive(d, CommitOf(tenant, ss[|steps|], a, reply)))
    requires d in ws[|wsteps|].calls && ws[|wsteps|].calls[d].phase.Done?
    ensures Run(tenant, ss', steps') && steps' == steps + [ModelReturns(a, Some(reply), d)] + Insides(wsteps) + [GetCommit(a)]
    ensures a in ss'[|steps'|].attempts && ss'[|steps'|].attempts[a].ask == ss[|steps|].attempts[a].ask
    ensures ss'[|steps'|].attempts[a].phase == AfterAnswer(reply, ws[|wsteps|].calls[d].phase.o)
    ensures ss'[|steps'|].wallet == ws[|wsteps|] && ss'[|steps'|].rows == ss[|steps|].rows
  {
    var send := ModelReturns(a, Some(reply), d);
    var s2 := Do(tenant, ss[|steps|], send).(wallet := ws[|wsteps|]);
    var s3 := Do(tenant, s2, GetCommit(a));
    assert Follows(tenant, s2, GetCommit(a), s3);
    ss', steps' := CallRound(tenant, ss, steps, send, ws, wsteps, GetCommit(a), s3);
  }

  /** What is known of an attempt that holds its reservation. */
  lemma Holding(tenant: Id, ss: seq<State>, steps: seq<Step>, a: nat, reply: Reply, d: nat)
    requires Run(tenant, ss, steps) && a in ss[|steps|].attempts && ss[|steps|].attempts[a].phase.Calling?
    requires d !in ss[|steps|].wallet.calls
    ensures var s := ss[|steps|];
            var op := CommitOf(tenant, s, a, reply);
            && Enabled(tenant, s, ModelReturns(a, Some(reply), d)) && MaySend(s.wallet, d, op)
            && (!Settled(s.wallet.ledger, op.r.id) ==> CommitOn(s.wallet.row, op.actual, op.r.amount).Applied?)
            && AfterAnswer(reply, CommitOutcome(s.wallet.ledger, op)) ==
               Verdict(tenant, s.wallet.ledger, s.attempts[a].ask, s.attempts[a].phase.r, reply)
            && Written(s.wallet.ledger, op) == Charged(tenant, s.wallet.ledger, s.attempts[a].ask, s.attempts[a].phase.r, reply)
  {
    ReachableInv(tenant, ss, steps, |steps|);
    ReservedCanBeSettled(tenant, ss, steps, |steps|, a, Some(reply), d);
    var s := ss[|steps|];
    var ask, r := s.attempts[a].ask, s.attempts[a].phase.r;
    assert AttemptOk(tenant, s.wallet.ledger, s.issued, s.attempts[a]);
    if HasKey(s.wallet.ledger, Key(tenant, ask, COMMIT)) {
      VerdictOfTaken(tenant, s, ask, r, reply);
    } else {
      VerdictOfFree(tenant, s, ask, r, reply);
    }
    if !Settled(s.wallet.ledger, r.id) {
      SettleNeverRefused(s.wallet.ledger, r.id, r.amount, Clamped(reply, r.amount));
    }
  }

  /**
   An attempt that holds its reservation when the model answers, left alone by everybody, comes to save the
   answer exactly if its request was not given up and was not charged otherwise than this answer would be.
   If not, the commit is refused: as a conflict if its key is taken, as already completed if it was given up.
   */
  lemma AnsweredExactly(tenant: Id, ss: seq<State>, steps: seq<Step>, a: nat, reply: Reply, d: nat, id: string)
    returns (ss': seq<State>, steps': seq<Step>, more: seq<Step>)
    requires Run(tenant, ss, steps) && a in ss[|steps|].attempts && ss[|steps|].attempts[a].phase.Calling?
    requires d !in ss[|steps|].wallet.calls && NewRef(ss[|steps|].wallet.ledger, id)
    ensures Run(tenant, ss', steps') && steps' == steps + more && forall i :: 0 <= i < |more| ==> Own(more[i], a, reply, d)
    ensures a in ss'[|steps'|].attempts && ss'[|steps'|].attempts[a].ask == ss[|steps|].attempts[a].ask
    ensures var s := ss[|steps|];
            var l, ask, r := s.wallet.ledger, s.attempts[a].ask, s.attempts[a].phase.r;
            && ss'[|steps'|].attempts[a].phase == Verdict(tenant, l, ask, r, reply)
            && ss'[|steps'|].wallet.ledger == l + Charged(tenant, l, ask, r, reply) && ss'[|steps'|].rows == s.rows
  {
    Holding(tenant, ss, steps, a, reply, d);
    var ws, wsteps := CommitAnswers(ss[|steps|].wallet, d, CommitOf(tenant, ss[|steps|], a, reply), id);
    ss', steps' := SendAndRead(tenant, ss, steps, a, reply, d, ws, wsteps);
    InsidesAreOwn(wsteps, a, reply, d);
    more := [ModelReturns(a, Some(reply), d)] + Insides(wsteps) + [GetCommit(a)];
    assert steps' == steps + more;
  }

  // ----- trying a request again

  /** The state once the attempt has read what the journal says to its reserve call. */
  ghost function AfterReserving(tenant: Id, s: State, a: nat, c: nat, op: W.Op, o: W.Outcome): State
    requires a in s.attempts
  {
    With(s, a, AfterReserve(o)).(wallet := AnsweredBy(s.wallet, c, op, o), issued := s.issued[c := ForReserve(s.attempts[a].ask)])
  }

  lemma CanReserveAgain(tenant: Id, ss: seq<State>, steps: seq<Step>, a: nat, r: W.Reservation, estimate: int, c: nat)
    requires Run(tenant, ss, steps) && a in ss[|steps|].attempts && ss[|steps|].attempts[a].phase.Ready?
    requires |ss[|steps|].attempts[a].ask.request| <= 46 && 0 < estimate && c !in ss[|steps|].wallet.calls
    requires ReservedFor(tenant, ss[|steps|].wallet.ledger, ss[|steps|].attempts[a].ask, r)
    ensures var l, op := ss[|steps|].wallet.ledger, W.DoReserve(estimate, Key(tenant, ss[|steps|].attempts[a].ask, RESERVE));
            && MaySend(ss[|steps|].wallet, c, op) && HasKey(l, op.key)
            && W.Replayed(op, l[W.RowWithKey(l, op.key)]) ==
               if estimate == r.amount then W.Reserved(r) else W.Failed(W.IdempotencyConflict)
  {
    ReachableInv(tenant, ss, steps, |steps|);
    var s := ss[|steps|];
    assert AttemptOk(tenant, s.wallet.ledger, s.issued, s.attempts[a]);
    KeysFitTogether(tenant, s.attempts[a].ask);
    ReplaysTo(tenant, s.wallet.ledger, s.attempts[a].ask, r, estimate);
  }

  /**
   A request that has its reservation gets the same one again if the estimate is the same, and is refused as a
   conflict if not; the journal stays as it is.
   */
  lemma ReservesAgain(tenant: Id, ss: seq<State>, steps: seq<Step>, a: nat, r: W.Reservation, estimate: int, c: nat, id: string)
    returns (ss': seq<State>, steps': seq<Step>)
    requires Run(tenant, ss, steps) && a in ss[|steps|].attempts && ss[|steps|].attempts[a].phase.Ready?
    requires |ss[|steps|].attempts[a].ask.request| <= 46 && 0 < estimate && c !in ss[|steps|].wallet.calls
    requires ReservedFor(tenant, ss[|steps|].wallet.ledger, ss[|steps|].attempts[a].ask, r) && NewRef(ss[|steps|].wallet.ledger, id)
    ensures Run(tenant, ss', steps')
    ensures var s := ss[|steps|];
            ss'[|steps'|] == AfterReserving(tenant, s, a, c, W.DoReserve(estimate, Key(tenant, s.attempts[a].ask, RESERVE)),
                                            if estimate == r.amount then W.Reserved(r) else W.Failed(W.IdempotencyConflict))
  {
    CanReserveAgain(tenant, ss, steps, a, r, estimate, c);
    var s, send := ss[|steps|], SendReserve(a, c, estimate);
    var ask := s.attempts[a].ask;
    var ws := Replays(s.wallet, c, W.DoReserve(estimate, Key(tenant, ask, RESERVE)), id);
    ReserveIsRead(tenant, s, a, c, estimate, ws[2]);
    ss', steps' := CallRound(tenant, ss, steps, send, ws, [W.Load(c), W.LookUp(c, id)], GetReserve(a),
                             Do(tenant, Do(tenant, s, send).(wallet := ws[2]), GetReserve(a)));
  }

  lemma ReserveIsRead(tenant: Id, s: State, a: nat, c: nat, estimate: int, w: W.State)
    requires Enabled(tenant, s, SendReserve(a, c, estimate)) && c in w.calls && w.calls[c].phase.Done?
    ensures var s2 := Do(tenant, s, SendReserve(a, c, estimate)).(wallet := w);
            && Enabled(tenant, s2, GetReserve(a))
            && Do(tenant, s2, GetReserve(a)) ==
               With(s, a, AfterReserve(w.calls[c].phase.o)).(wallet := w, issued := s.issued[c := ForReserve(s.attempts[a].ask)])
  {
    var s2 := Do(tenant, s, SendReserve(a, c, estimate)).(wallet := w);
    assert With(s2, a, AfterReserve(w.calls[c].phase.o)).attempts == With(s, a, AfterReserve(w.calls[c].phase.o)).attempts;
  }

  lemma ReplaysTo(tenant: Id, l: seq<Entry>, ask: Ask, r: W.Reservation, estimate: int)
    requires WellFormed(l) && ReservedFor(tenant, l, ask, r)
    ensures var op := W.DoReserve(estimate, Key(tenant, ask, RESERVE));
            && HasKey(l, op.key)
            && W.Replayed(op, l[W.RowWithKey(l, op.key)]) ==
               if estimate == r.amount then W.Reserved(r) else W.Failed(W.IdempotencyConflict)
  {
    var i :| 0 <= i < |l| && l[i] == W.RowOf(W.DoReserve(r.amount, Key(tenant, ask, RESERVE)), r.id);
    assert l[i].key == Key(tenant, ask, RESERVE);
  }

  /**
   A request tried again with the same estimate, left alone by everybody: the answer is saved exactly if the
   request was not given up before and was not charged otherwise than this answer would be.
   */
  lemma RetriedExactly(tenant: Id, ss: seq<State>, steps: seq<Step>, a: nat, r: W.Reservation, reply: Reply, c: nat, d: nat, id: string)
    returns (ss': seq<State>, steps': seq<Step>)
    requires Run(tenant, ss, steps) && a in ss[|steps|].attempts && ss[|steps|].attempts[a].phase.Ready?
    requires |ss[|steps|].attempts[a].ask.request| <= 46 && 0 < r.amount
    requires c !in ss[|steps|].wallet.calls && d !in ss[|steps|].wallet.calls && c != d
    requires ReservedFor(tenant, ss[|steps|].wallet.ledger, ss[|steps|].attempts[a].ask, r) && NewRef(ss[|steps|].wallet.ledger, id)
    ensures Run(tenant, ss', steps')
    ensures a in ss'[|steps'|].attempts && ss'[|steps'|].attempts[a].ask == ss[|steps|].attempts[a].ask
    ensures var s := ss[|steps|];
            var l, ask := s.wallet.ledger, s.attempts[a].ask;
            && ss'[|steps'|].attempts[a].phase == Verdict(tenant, l, ask, r, reply)
            && ss'[|steps'|].wallet.ledger == l + Charged(tenant, l, ask, r, reply) && ss'[|steps'|].rows == s.rows
  {
    ss', steps' := ReservesAgain(tenant, ss, steps, a, r, r.amount, c, id);
    var more;
    ss', steps', more := AnsweredExactly(tenant, ss', steps', a, reply, d, id);
  }

  // ----- a request that was given up is tried again

  ghost function ReleaseOp(tenant: Id, ask: Ask, r: W.Reservation): W.Op {
    Next(tenant, ask, r, None)
  }

  lemma CanRelease(tenant: Id, ss: seq<State>, steps: seq<Step>, a: nat, d: nat)
    requires Run(tenant, ss, steps) && a in ss[|steps|].attempts && ss[|steps|].attempts[a].phase.Calling?
    requires d !in ss[|steps|].wallet.calls && !Settled(ss[|steps|].wallet.ledger, ss[|steps|].attempts[a].phase.r.id)
    ensures var s := ss[|steps|];
            && Enabled(tenant, s, ModelReturns(a, None, d))
            && MaySend(s.wallet, d, ReleaseOp(tenant, s.attempts[a].ask, s.attempts[a].phase.r))
            && ReleaseOn(s.wallet.row, s.attempts[a].phase.r.amount).Applied?
  {
    ReachableInv(tenant, ss, steps, |steps|);
    ReservedCanBeSettled(tenant, ss, steps, |steps|, a, None, d);
    var s := ss[|steps|];
    var r := s.attempts[a].phase.r;
    assert AttemptOk(tenant, s.wallet.ledger, s.issued, s.attempts[a]);
    ReservedIsPositive(tenant, s.wallet.ledger, s.attempts[a].ask, r);
    SettleNeverRefused(s.wallet.ledger, r.id, r.amount, r.amount);
  }

  /** The model fails, and the reservation is released. */
  lemma GivesUp(tenant: Id, ss: seq<State>, steps: seq<Step>, a: nat, d: nat, id: string) returns (ss': seq<State>, steps': seq<Step>)
    requires Run(tenant, ss, steps) && a in ss[|steps|].attempts && ss[|steps|].attempts[a].phase.Calling?
    requires d !in ss[|steps|].wallet.calls && NewRef(ss[|steps|].wallet.ledger, id)
    requires !Settled(ss[|steps|].wallet.ledger, ss[|steps|].attempts[a].phase.r.id)
    requires !HasKey(ss[|steps|].wallet.ledger, Key(tenant, ss[|steps|].attempts[a].ask, RELEASE))
    ensures Run(tenant, ss', steps')
    ensures var s, s' := ss[|steps|], ss'[|steps'|];
            var ask, r := s.attempts[a].ask, s.attempts[a].phase.r;
            && s'.attempts == With(s, a, Over(ModelFailed)).attempts && s'.rows == s.rows
            && s'.wallet.ledger == s.wallet.ledger + [W.RowOf(ReleaseOp(tenant, ask, r), "")]
            && s'.wallet.calls.Keys == s.wallet.calls.Keys + {d}
            && s'.wallet.row.balance == s.wallet.row.balance
  {
    CanRelease(tenant, ss, steps, a, d);
    var s, send := ss[|steps|], ModelReturns(a, None, d);
    var ask, r := s.attempts[a].ask, s.attempts[a].phase.r;
    var ws := ReleaseLands(s.wallet, d, ReleaseOp(tenant, ask, r), id);
    ReleaseIsRead(tenant, s, a, d, ws[4]);
    ss', steps' := CallRound(tenant, ss, steps, send, ws, [W.Load(d), W.LookUp(d, id), W.LookUpSettled(d), W.Apply(d, true)],
                             GetRelease(a), Do(tenant, Do(tenant, s, send).(wallet := ws[4]), GetRelease(a)));
  }

  lemma ReleaseIsRead(tenant: Id, s: State, a: nat, d: nat, w: W.State)
    requires Enabled(tenant, s, ModelReturns(a, None, d)) && d in w.calls && w.calls[d].phase == W.Done(W.Ok)
    ensures var s2 := Do(tenant, s, ModelReturns(a, None, d)).(wallet := w);
            && Enabled(tenant, s2, GetRelease(a))
            && var s3 := Do(tenant, s2, GetRelease(a));
               s3.attempts == With(s, a, Over(ModelFailed)).attempts && s3.rows == s.rows && s3.wallet == w
  {
  }

  lemma ReservedIsPositive(tenant: Id, l: seq<Entry>, ask: Ask, r: W.Reservation)
    requires WellFormed(l) && ReservedFor(tenant, l, ask, r)
    ensures 0 < r.amount
  {
    var i :| 0 <= i < |l| && l[i] == W.RowOf(W.DoReserve(r.amount, Key(tenant, ask, RESERVE)), r.id);
    assert Signed(l[i]);
  }

  /** A journal that holds just the grant and the first request's reservation. */
  lemma FirstReserved(tenant: Id, ask: Ask) returns (l: seq<Entry>)
    requires Sound(tenant, ask)
    ensures l == [Entry(Grant, 100, "grant", ""), W.RowOf(ReserveOp(tenant, ask, Offer(0, "r0")), "r0")]
    ensures !Settled(l, "r0") && !HasKey(l, Key(tenant, ask, RELEASE)) && NewRef(l, "none")
  {
    l := [Entry(Grant, 100, "grant", ""), W.RowOf(ReserveOp(tenant, ask, Offer(0, "r0")), "r0")];
    KeySplits(tenant, ask, RELEASE);
    if Key(tenant, ask, RESERVE) == Key(tenant, ask, RELEASE) {
      KeysAreDistinct(tenant, ask, RESERVE, tenant, ask, RELEASE);
    }
  }

  /** The first request reserves ten tokens, the model fails, the reservation is released; then it is asked again. */
  lemma ReleasedAndAskedAgain(tenant: Id, ask: Ask) returns (ss: seq<State>, steps: seq<Step>)
    requires Sound(tenant, ask)
    ensures Run(tenant, ss, steps)
    ensures var s := ss[|steps|];
            && s.attempts.Keys == {0, 1} && s.attempts[0].phase == Over(ModelFailed)
            && s.attempts[1] == Attempt(ask, "model", TTL, 2, Ready)
            && s.wallet.calls.Keys == {0, 1} && s.wallet.row.balance == 100 && s.rows == []
            && s.wallet.ledger == [Entry(Grant, 100, "grant", ""), W.RowOf(ReserveOp(tenant, ask, Offer(0, "r0")), "r0"),
                                   W.RowOf(ReleaseOp(tenant, ask, W.Reservation("r0", 10)), "")]
  {
    ss, steps := Funded(tenant);
    ss, steps := Begins(tenant, ss, steps, 0, ask, false, "model", 1);
    FirstCanPay(tenant, ss[|steps|], 0);
    ss, steps := GoReserve(tenant, ss, steps, 0, Offer(0, "r0"));
    var l := FirstReserved(tenant, ask);
    assert ss[|steps|].wallet.ledger == l;
    ss, steps := GivesUp(tenant, ss, steps, 0, 1, "none");
    ss, steps := Begins(tenant, ss, steps, 1, ask, false, "model", 2);
  }

  /**
   After a failed model call the same request can be asked again, reserves, calls the model, and is refused its
   commit, whatever the answer: it is dropped, and nothing is charged.
   */
  lemma ReleasedThenRetried(tenant: Id, ask: Ask, reply: Reply) returns (ss: seq<State>, steps: seq<Step>)
    requires Sound(tenant, ask)
    ensures Run(tenant, ss, steps) && 1 in ss[|steps|].attempts && ss[|steps|].attempts[1].ask == ask
    ensures ss[|steps|].attempts[1].phase == Over(CommitFailed(W.Completed))
    ensures !Paid(tenant, ss[|steps|].wallet.ledger, ask) && ss[|steps|].rows == []
  {
    ss, steps := ReleasedAndAskedAgain(tenant, ask);
    var l, r := ss[|steps|].wallet.ledger, W.Reservation("r0", 10);
    assert l[1] == W.RowOf(W.DoReserve(r.amount, Key(tenant, ask, RESERVE)), r.id);
    assert l[2].kind == Release && l[2].key == Key(tenant, ask, RELEASE);
    OtherPhases(tenant, ask);
    assert !HasKey(l, Key(tenant, ask, COMMIT));
    ss, steps := RetriedExactly(tenant, ss, steps, 1, r, reply, 2, 3, "none");
  }

  lemma OtherPhases(tenant: Id, ask: Ask)
    requires Sound(tenant, ask)
    ensures Key(tenant, ask, COMMIT) != Key(tenant, ask, RESERVE) && Key(tenant, ask, COMMIT) != Key(tenant, ask, RELEASE)
    ensures |Key(tenant, ask, COMMIT)| > |"grant"|
  {
    KeySplits(tenant, ask, COMMIT);
    if Key(tenant, ask, COMMIT) == Key(tenant, ask, RESERVE) {
      KeysAreDistinct(tenant, ask, COMMIT, tenant, ask, RESERVE);
    }
    if Key(tenant, ask, COMMIT) == Key(tenant, ask, RELEASE) {
      KeysAreDistinct(tenant, ask, COMMIT, tenant, ask, RELEASE);
    }
  }

  // ----- a request that was charged is tried again

  /** The first request pays seven tokens and dies before it saves; then it is asked again. */
  lemma PaidAndAskedAgain(tenant: Id, ask: Ask) returns (ss: seq<State>, steps: seq<Step>)
    requires Sound(tenant, ask)
    ensures Run(tenant, ss, steps)
    ensures var s := ss[|steps|];
            && s.attempts.Keys == {0, 1} && s.attempts[0].phase == Over(Crashed)
            && s.attempts[1] == Attempt(ask, "model", TTL, 2, Ready) && s.rows == [] && PaidOnce(tenant, s.wallet, ask)
  {
    ss, steps := Funded(tenant);
    ss, steps := Begins(tenant, ss, steps, 0, ask, false, "model", 1);
    FirstCanPay(tenant, ss[|steps|], 0);
    PayingFactsOnce(tenant, ss, steps, 0);
    PayingFacts(tenant, ss[|steps|], 0, Offer(0, "r0"));
    ss, steps := UndisturbedPays(tenant, ss, steps, 0, Offer(0, "r0"));
    var s := ss[|steps|];
    assert Follows(tenant, s, Crash(0), With(s, 0, Over(Crashed)));
    Extend(tenant, ss, steps, Crash(0), With(s, 0, Over(Crashed)));
    ss, steps := ss + [With(s, 0, Over(Crashed))], steps + [Crash(0)];
    ss, steps := Begins(tenant, ss, steps, 1, ask, false, "model", 2);
  }

  /**
   Charged seven tokens and lost before it was saved, the same request asked again gets its answer exactly if
   that answer comes to seven tokens too; with any other usage the commit conflicts and the charge stands for
   nothing.
   */
  lemma PaidThenRetried(tenant: Id, ask: Ask, reply: Reply) returns (ss: seq<State>, steps: seq<Step>)
    requires Sound(tenant, ask)
    ensures Run(tenant, ss, steps) && 1 in ss[|steps|].attempts && ss[|steps|].attempts[1].ask == ask
    ensures ss[|steps|].attempts[1].phase ==
            if Clamped(reply, 10) == 7 then Saving(reply) else Over(CommitFailed(W.IdempotencyConflict))
    ensures PaidOnceFor(tenant, ss[|steps|].wallet.ledger, ask) && ss[|steps|].rows == []
  {
    ss, steps := PaidAndAskedAgain(tenant, ask);
    var l, r := ss[|steps|].wallet.ledger, W.Reservation("r0", 10);
    assert l[1] == W.RowOf(W.DoReserve(r.amount, Key(tenant, ask, RESERVE)), r.id);
    assert l[2].kind == Commit && l[2].key == Key(tenant, ask, COMMIT) && l[2].amount == -7;
    OtherPhases(tenant, ask);
    assert FitsCharge(tenant, l, ask, Clamped(reply, 10)) <==> Clamped(reply, 10) == 7;
    assert !GivenUp(tenant, l, ask);
    ss, steps := RetriedExactly(tenant, ss, steps, 1, r, reply, 2, 3, "none");
  }
}
