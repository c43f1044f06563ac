/**
 What the summarize saga charges and keeps (internal/aiassist/usecase/summarize.go): theorems over every run
 of any number of attempts, retries and crashes.
 */
module SummarizeBilling {
  import opened Durations
  import opened Options
  import opened WalletLedger
  import opened Uuids
  import W = WalletService
  import C = SummaryCache
  import opened Summarize

  /** Row j charges request `ask` for `reply` out of the reservation in row i. */
  ghost predicate BillsIn(tenant: Id, l: seq<Entry>, answers: set<(Ask, Reply)>, j: int, i: int, ask: Ask, reply: Reply) {
    && 0 <= i < j < |l| && |ask.conversation| == UUID_LENGTH && (ask, reply) in answers
    && l[i].kind == Reserve && l[i].key == Key(tenant, ask, RESERVE)
    && l[j].kind == Commit && l[j].key == Key(tenant, ask, COMMIT) && l[j].ref == l[i].ref
    && -l[j].amount == Clamped(reply, -l[i].amount) && 0 < -l[j].amount <= -l[i].amount
  }

  ghost predicate Bills(tenant: Id, s: State, j: int, i: int, ask: Ask, reply: Reply) {
    BillsIn(tenant, s.wallet.ledger, s.answers, j, i, ask, reply)
  }

  /** Behind a row of the journal, grants aside, stands a wallet call and the reason it was made for. */
  lemma RowHasIssue(tenant: Id, s: State, j: int) returns (c: nat)
    requires Inv(tenant, s)
    requires 0 <= j < |s.wallet.ledger| && s.wallet.ledger[j].kind != Grant
    ensures c in s.issued && c in s.wallet.calls
    ensures var op := s.wallet.calls[c].op;
            && s.wallet.ledger[j] == W.RowOf(op, s.wallet.ledger[j].ref)
            && IssueOk(tenant, s.wallet.ledger, s.answers, s.issued[c], op)
  {
    var l := s.wallet.ledger;
    assert MadeHere(s, l[j]);
    c :| c in s.issued && c in s.wallet.calls && l[j] == W.RowOf(s.wallet.calls[c].op, l[j].ref);
  }

  /** A settlement stands after the reservation it closes, and within it. */
  lemma BilledAfterReserved(l: seq<Entry>, i: int, j: int)
    requires WellFormed(l) && 0 <= i < |l| && 0 <= j < |l|
    requires l[i].kind == Reserve && l[j].kind == Commit && l[i].ref == l[j].ref
    ensures i < j && 0 < -l[j].amount <= -l[i].amount
  {
    assert Settles(l[j]);
    var k :| Closes(l, k, j);
    assert k == i;
  }

  lemma IssueBills(tenant: Id, l: seq<Entry>, answers: set<(Ask, Reply)>, issue: Issue, op: W.Op, j: int) returns (i: int)
    requires WellFormed(l) && IssueOk(tenant, l, answers, issue, op)
    requires 0 <= j < |l| && l[j].kind == Commit && l[j] == W.RowOf(op, l[j].ref)
    ensures issue.ForCommit? && BillsIn(tenant, l, answers, j, i, issue.ask, issue.reply)
  {
    i :| 0 <= i < |l| && l[i] == W.RowOf(W.DoReserve(op.r.amount, Key(tenant, issue.ask, RESERVE)), op.r.id);
    BilledAfterReserved(l, i, j);
  }

  lemma ChargeIsBilled(tenant: Id, s: State, j: int) returns (i: int, ask: Ask, reply: Reply)
    requires Inv(tenant, s)
    requires 0 <= j < |s.wallet.ledger| && s.wallet.ledger[j].kind == Commit
    ensures Bills(tenant, s, j, i, ask, reply)
  {
    var c := RowHasIssue(tenant, s, j);
    i := IssueBills(tenant, s.wallet.ledger, s.answers, s.issued[c], s.wallet.calls[c].op, j);
    ask, reply := s.issued[c].ask, s.issued[c].reply;
  }

  /** `u` is the int64 sum of two counts. */
  predicate Int64Sum(u: int, x: int, y: int) {
    -0x8000_0000_0000_0000 <= u <= 0x7FFF_FFFF_FFFF_FFFF && (x + y - u) % 0x1_0000_0000_0000_0000 == 0
  }

  /** A reply costs what it used, but at least one token and at most what was held for it. */
  ghost predicate ComesTo(reply: Reply, held: int, charge: int) {
    forall u :: Int64Sum(u, reply.tokensIn, reply.tokensOut) ==>
      && (u <= 0 ==> charge == 1)
      && (1 <= u <= held ==> charge == u)
      && (u >= 1 && u > held ==> charge == held)
  }

  lemma ClampedComesTo(reply: Reply, held: int)
    requires held > 0
    ensures ComesTo(reply, held, Clamped(reply, held))
  {
    var sum := reply.tokensIn + reply.tokensOut;
    forall u | Int64Sum(u, reply.tokensIn, reply.tokensOut) ensures u == Wrap(sum) {
      assert (Wrap(sum) - u) % 0x1_0000_0000_0000_0000 == 0;
    }
  }

  /** The rows of a charge: the reservation, then the commit that closes it, under the request's two keys. */
  ghost predicate ChargeRows(tenant: Id, l: seq<Entry>, i: int, j: int, ask: Ask) {
    && 0 <= i < |l| && 0 <= j < |l|
    && l[i].kind == Reserve && l[i].key == tenant + ":" + ask.conversation + ":" + ask.request + ":reserve"
    && l[j].kind == Commit && l[j].key == tenant + ":" + ask.conversation + ":" + ask.request + ":commit" && l[j].ref == l[i].ref
  }

  /**
   Every charge the wallet ever shows bills one request: the model answered that request, the amount is
   that answer's usage, at least one and at most what was reserved, and the reservation was made for the same
   request.
   */
  lemma EveryChargeIsBilled(tenant: Id, ss: seq<State>, steps: seq<Step>, n: nat, j: int)
    returns (i: int, ask: Ask, reply: Reply)
    requires Run(tenant, ss, steps) && n < |ss|
    requires 0 <= j < |ss[n].wallet.ledger| && ss[n].wallet.ledger[j].kind == Commit
    ensures Bills(tenant, ss[n], j, i, ask, reply)
    ensures i < j && ChargeRows(tenant, ss[n].wallet.ledger, i, j, ask) && (ask, reply) in ss[n].answers
    ensures ComesTo(reply, -ss[n].wallet.ledger[i].amount, -ss[n].wallet.ledger[j].amount)
  {
    ReachableInv(tenant, ss, steps, n);
    i, ask, reply := ChargeIsBilled(tenant, ss[n], j);
    ClampedComesTo(reply, -ss[n].wallet.ledger[i].amount);
  }

  /** The answers on record are exactly what the model returned to some attempt at the request. */
  lemma {:induction false} AnswersAreTheModels(tenant: Id, ss: seq<State>, steps: seq<Step>, n: nat, ask: Ask, reply: Reply)
    requires Run(tenant, ss, steps) && n < |ss|
    ensures (ask, reply) in ss[n].answers <==> exists i :: 0 <= i < n && AnsweredAt(ss, steps, i, ask, reply)
    decreases n
  {
    if n > 0 {
      AnswersAreTheModels(tenant, ss, steps, n - 1, ask, reply);
      assert Follows(tenant, ss[n - 1], steps[n - 1], ss[n]);
      if (ask, reply) in ss[n].answers && (ask, reply) !in ss[n - 1].answers {
        assert AnsweredAt(ss, steps, n - 1, ask, reply);
      }
    }
  }

  ghost predicate AnsweredAt(ss: seq<State>, steps: seq<Step>, i: int, ask: Ask, reply: Reply) {
    && 0 <= i < |steps| && i < |ss| && steps[i].ModelReturns? && steps[i].reply == Some(reply)
    && steps[i].a in ss[i].attempts && ss[i].attempts[steps[i].a].ask == ask
  }

  /** However often a request is retried, however attempts interleave, it is charged at most once. */
  lemma ChargedAtMostOnce(tenant: Id, ss: seq<State>, steps: seq<Step>, n: nat,
                          j: int, i: int, j': int, i': int, ask: Ask, reply: Reply, reply': Reply)
    requires Run(tenant, ss, steps) && n < |ss|
    requires Bills(tenant, ss[n], j, i, ask, reply) && Bills(tenant, ss[n], j', i', ask, reply')
    ensures j == j' && i == i'
  {
    ReachableInv(tenant, ss, steps, n);
  }

  /** Charges of different requests are different rows and come out of different reservations. */
  lemma ChargesAreApart(tenant: Id, ss: seq<State>, steps: seq<Step>, n: nat,
                        j: int, i: int, j': int, i': int, ask: Ask, ask': Ask, reply: Reply, reply': Reply)
    requires Run(tenant, ss, steps) && n < |ss| && ask != ask'
    requires Bills(tenant, ss[n], j, i, ask, reply) && Bills(tenant, ss[n], j', i', ask', reply')
    ensures j != j' && i != i'
  {
    if j == j' {
      KeysAreDistinct(tenant, ask, COMMIT, tenant, ask', COMMIT);
    }
    if i == i' {
      KeysAreDistinct(tenant, ask, RESERVE, tenant, ask', RESERVE);
    }
  }

  /** A request the model never answered costs nothing. */
  lemma NoAnswerNoCharge(tenant: Id, ss: seq<State>, steps: seq<Step>, n: nat, ask: Ask)
    requires Run(tenant, ss, steps) && n < |ss| && |ask.conversation| == UUID_LENGTH
    requires forall reply :: (ask, reply) !in ss[n].answers
    ensures !Paid(tenant, ss[n].wallet.ledger, ask)
  {
    var l := ss[n].wallet.ledger;
    if Paid(tenant, l, ask) {
      var j :| 0 <= j < |l| && l[j].kind == Commit && l[j].key == Key(tenant, ask, COMMIT);
      var i, ask', reply := EveryChargeIsBilled(tenant, ss, steps, n, j);
      KeysAreDistinct(tenant, ask, COMMIT, tenant, ask', COMMIT);
      assert false;
    }
  }

  /** An attempt keeps the request, model, time to live and time it began with. */
  lemma {:induction false} AttemptIsItsBegin(tenant: Id, ss: seq<State>, steps: seq<Step>, n: nat, a: nat) returns (i: nat)
    requires Run(tenant, ss, steps) && n < |ss| && a in ss[n].attempts
    ensures i < n && steps[i].Begin? && steps[i].a == a
    ensures var at := ss[n].attempts[a];
            at.ask == steps[i].ask && at.model == steps[i].model && at.ttl == steps[i].ttl && at.now == steps[i].now
    decreases n
  {
    assert n > 0;
    assert Follows(tenant, ss[n - 1], steps[n - 1], ss[n]);
    if a in ss[n - 1].attempts {
      i := AttemptIsItsBegin(tenant, ss, steps, n - 1, a);
    } else {
      i := n - 1;
    }
  }

  lemma PaidForIsCharged(tenant: Id, l: seq<Entry>, ask: Ask, reply: Reply) returns (i: int, j: int)
    requires WellFormed(l) && PaidFor(tenant, l, ask, reply)
    ensures ChargedAt(tenant, l, ask, reply, i, j)
    ensures ChargeRows(tenant, l, i, j, ask) && ComesTo(reply, -l[i].amount, -l[j].amount)
  {
    i, j :| ChargedAt(tenant, l, ask, reply, i, j);
    assert Signed(l[i]);
    ClampedComesTo(reply, -l[i].amount);
  }

  /** Every summary an attempt saved was paid for, at that reply's usage, within the request's own reservation. */
  lemma SavedIsPaid(tenant: Id, ss: seq<State>, steps: seq<Step>, n: nat, a: nat) returns (i: int, j: int)
    requires Run(tenant, ss, steps) && n < |ss| && a in ss[n].attempts
    requires ss[n].attempts[a].phase.Over? && ss[n].attempts[a].phase.out.Saved?
    ensures ChargeRows(tenant, ss[n].wallet.ledger, i, j, ss[n].attempts[a].ask)
    ensures ComesTo(ss[n].attempts[a].phase.out.reply, -ss[n].wallet.ledger[i].amount, -ss[n].wallet.ledger[j].amount)
  {
    ReachableInv(tenant, ss, steps, n);
    var at := ss[n].attempts[a];
    assert AttemptOk(tenant, ss[n].wallet.ledger, ss[n].issued, at);
    i, j := PaidForIsCharged(tenant, ss[n].wallet.ledger, at.ask, at.phase.out.reply);
  }

  lemma SummarySpelledOut(tenant: Id, at: Attempt, reply: Reply, row: C.Row)
    requires Summary(tenant, at, reply) == C.Ok(row) && at.ttl > 0
    ensures row == C.Row(tenant, at.ask.conversation, reply.text, at.model, reply.tokensIn, reply.tokensOut, at.now, at.now + at.ttl, 0)
  {
  }

  /** The row of a saved summary: the reply's text and counts, and the model, time and expiry of the attempt's beginning. */
  lemma SavedRowSpelledOut(tenant: Id, ss: seq<State>, steps: seq<Step>, n: nat, a: nat) returns (i: nat)
    requires Run(tenant, ss, steps) && n < |ss| && a in ss[n].attempts
    requires ss[n].attempts[a].phase.Over? && ss[n].attempts[a].phase.out.Saved?
    ensures i < n && steps[i].Begin? && steps[i].a == a && steps[i].ask == ss[n].attempts[a].ask
    ensures var b, reply := steps[i], ss[n].attempts[a].phase.out.reply;
            ss[n].attempts[a].phase.out.row ==
            C.Row(tenant, b.ask.conversation, reply.text, b.model, reply.tokensIn, reply.tokensOut, b.now, b.now + b.ttl, 0)
  {
    i := AttemptIsItsBegin(tenant, ss, steps, n, a);
    assert Follows(tenant, ss[i], steps[i], ss[i + 1]);
    SavedHasRow(tenant, ss, steps, n, a);
    SummarySpelledOut(tenant, ss[n].attempts[a], ss[n].attempts[a].phase.out.reply, ss[n].attempts[a].phase.out.row);
  }

  lemma SavedHasRow(tenant: Id, ss: seq<State>, steps: seq<Step>, n: nat, a: nat)
    requires Run(tenant, ss, steps) && n < |ss| && a in ss[n].attempts
    requires ss[n].attempts[a].phase.Over? && ss[n].attempts[a].phase.out.Saved?
    ensures Summary(tenant, ss[n].attempts[a], ss[n].attempts[a].phase.out.reply) == C.Ok(ss[n].attempts[a].phase.out.row)
  {
    ReachableInv(tenant, ss, steps, n);
    assert AttemptOk(tenant, ss[n].wallet.ledger, ss[n].issued, ss[n].attempts[a]);
  }

  ghost predicate GivenUp(tenant: Id, l: seq<Entry>, ask: Ask) {
    exists k :: 0 <= k < |l| && l[k].kind == Release && l[k].key == Key(tenant, ask, RELEASE)
  }

  lemma GivenUpGrows(tenant: Id, l: seq<Entry>, l': seq<Entry>, ask: Ask)
    requires l <= l' && GivenUp(tenant, l, ask)
    ensures GivenUp(tenant, l', ask)
  {
    var k :| 0 <= k < |l| && l[k].kind == Release && l[k].key == Key(tenant, ask, RELEASE);
    assert l'[k] == l[k];
  }

  lemma ReleaseHasReserve(tenant: Id, s: State, ask: Ask) returns (k: int, h: int)
    requires |tenant| == UUID_LENGTH && |ask.conversation| == UUID_LENGTH
    requires Inv(tenant, s) && GivenUp(tenant, s.wallet.ledger, ask)
    ensures var l := s.wallet.ledger;
            && 0 <= k < |l| && 0 <= h < |l| && l[k].kind == Release && l[h].kind == Reserve
            && l[k].ref == l[h].ref && l[h].key == Key(tenant, ask, RESERVE)
  {
    var l := s.wallet.ledger;
    k :| 0 <= k < |l| && l[k].kind == Release && l[k].key == Key(tenant, ask, RELEASE);
    var c := RowHasIssue(tenant, s, k);
    var op := s.wallet.calls[c].op;
    KeysAreDistinct(tenant, ask, RELEASE, tenant, s.issued[c].ask, RELEASE);
    h :| 0 <= h < |l| && l[h] == W.RowOf(W.DoReserve(op.r.amount, Key(tenant, ask, RESERVE)), op.r.id);
  }

  /** A charge and a release never come out of reservations with one key. */
  lemma ChargedOrReleased(l: seq<Entry>, i: int, j: int, h: int, k: int)
    requires WellFormed(l) && 0 <= i < |l| && 0 <= j < |l| && 0 <= h < |l| && 0 <= k < |l|
    requires l[i].kind == l[h].kind == Reserve && l[j].kind == Commit && l[k].kind == Release
    requires l[j].ref == l[i].ref && l[k].ref == l[h].ref
    ensures l[i].key != l[h].key
  {
    assert Settles(l[j]) && Settles(l[k]) && j != k;
  }

  lemma GivenUpIsUnpaid(tenant: Id, s: State, ask: Ask)
    requires |tenant| == UUID_LENGTH && |ask.conversation| == UUID_LENGTH
    requires Inv(tenant, s) && GivenUp(tenant, s.wallet.ledger, ask)
    ensures !Paid(tenant, s.wallet.ledger, ask)
  {
    var l := s.wallet.ledger;
    var k, h := ReleaseHasReserve(tenant, s, ask);
    forall j | 0 <= j < |l| && l[j].kind == Commit
      ensures l[j].key != Key(tenant, ask, COMMIT)
    {
      var i, ask', reply := ChargeIsBilled(tenant, s, j);
      ChargedOrReleased(l, i, j, h, k);
      if l[j].key == Key(tenant, ask, COMMIT) {
        KeysAreDistinct(tenant, ask, COMMIT, tenant, ask', COMMIT);
        assert false;
      }
    }
  }

  /**
   A request whose reservation was released is never charged, and no attempt at it ever saves a summary:
   retrying the same request id after a failed model call cannot succeed.
   */
  lemma GivenUpIsFinal(tenant: Id, ss: seq<State>, steps: seq<Step>, m: nat, n: nat, ask: Ask, a: nat)
    requires Run(tenant, ss, steps) && m <= n < |ss| && |ask.conversation| == UUID_LENGTH
    requires GivenUp(tenant, ss[m].wallet.ledger, ask)
    requires a in ss[n].attempts && ss[n].attempts[a].ask == ask
    ensures !Paid(tenant, ss[n].wallet.ledger, ask)
    ensures ss[n].attempts[a].phase.Over? ==> !ss[n].attempts[a].phase.out.Saved?
  {
    ReachableInv(tenant, ss, steps, n);
    LedgerGrows(tenant, ss, steps, m, n);
    GivenUpGrows(tenant, ss[m].wallet.ledger, ss[n].wallet.ledger, ask);
    GivenUpIsUnpaid(tenant, ss[n], ask);
    UnpaidIsNotSaved(tenant, ss[n].wallet.ledger, ss[n].issued, ss[n].attempts[a]);
  }

  // ----- what has become of a request's reservation

  /** Two reservations for one request are the same, and so are two with one id. */
  lemma SameReservation(tenant: Id, l: seq<Entry>, ask: Ask, r: W.Reservation, ask': Ask, r': W.Reservation)
    requires |tenant| == |ask.conversation| == |ask'.conversation| == UUID_LENGTH && WellFormed(l)
    requires ReservedFor(tenant, l, ask, r) && ReservedFor(tenant, l, ask', r')
    ensures ask == ask' <==> r.id == r'.id
    ensures ask == ask' ==> r == r'
  {
    var i :| 0 <= i < |l| && l[i] == W.RowOf(W.DoReserve(r.amount, Key(tenant, ask, RESERVE)), r.id);
    var j :| 0 <= j < |l| && l[j] == W.RowOf(W.DoReserve(r'.amount, Key(tenant, ask', RESERVE)), r'.id);
    if r.id == r'.id {
      assert i == j;
      KeysAreDistinct(tenant, ask, RESERVE, tenant, ask', RESERVE);
    }
    if ask == ask' {
      assert l[i].key == l[j].key;
    }
  }

  /** A commit or release row settles this request's reservation exactly if it carries this request's key. */
  lemma SettlementIsOurs(tenant: Id, s: State, ask: Ask, r: W.Reservation, j: int)
    requires Inv(tenant, s) && |tenant| == |ask.conversation| == UUID_LENGTH && ReservedFor(tenant, s.wallet.ledger, ask, r)
    requires 0 <= j < |s.wallet.ledger| && Settles(s.wallet.ledger[j])
    ensures s.wallet.ledger[j].ref == r.id <==>
            s.wallet.ledger[j].key == Key(tenant, ask, if s.wallet.ledger[j].kind == Commit then COMMIT else RELEASE)
  {
    var l := s.wallet.ledger;
    var c := RowHasIssue(tenant, s, j);
    var op, issue := s.wallet.calls[c].op, s.issued[c];
    IssueSettles(tenant, l, s.answers, issue, op, l[j]);
    SameReservation(tenant, l, ask, r, issue.ask, op.r);
    var phase := if l[j].kind == Commit then COMMIT else RELEASE;
    if l[j].key == Key(tenant, ask, phase) {
      KeysAreDistinct(tenant, ask, phase, tenant, issue.ask, phase);
    }
  }

  lemma IssueSettles(tenant: Id, l: seq<Entry>, answers: set<(Ask, Reply)>, issue: Issue, op: W.Op, e: Entry)
    requires IssueOk(tenant, l, answers, issue, op) && e == W.RowOf(op, e.ref) && Settles(e)
    ensures op.DoCommit? || op.DoRelease?
    ensures ReservedFor(tenant, l, issue.ask, op.r) && e.ref == op.r.id
    ensures e.key == Key(tenant, issue.ask, if e.kind == Commit then COMMIT else RELEASE)
  {
  }

  /** A request's reservation is settled exactly if it was charged or given up. */
  lemma SettledMeans(tenant: Id, s: State, ask: Ask, r: W.Reservation)
    requires Inv(tenant, s) && |tenant| == |ask.conversation| == UUID_LENGTH && ReservedFor(tenant, s.wallet.ledger, ask, r)
    ensures Settled(s.wallet.ledger, r.id) <==> Paid(tenant, s.wallet.ledger, ask) || GivenUp(tenant, s.wallet.ledger, ask)
  {
    var l := s.wallet.ledger;
    if Settled(l, r.id) {
      var j :| 0 <= j < |l| && Settles(l[j]) && l[j].ref == r.id;
      SettlementIsOurs(tenant, s, ask, r, j);
    }
    if Paid(tenant, l, ask) {
      var j :| 0 <= j < |l| && l[j].kind == Commit && l[j].key == Key(tenant, ask, COMMIT);
      SettlementIsOurs(tenant, s, ask, r, j);
    }
    if GivenUp(tenant, l, ask) {
      var j :| 0 <= j < |l| && l[j].kind == Release && l[j].key == Key(tenant, ask, RELEASE);
      SettlementIsOurs(tenant, s, ask, r, j);
    }
  }

  lemma UnpaidIsNotSaved(tenant: Id, l: seq<Entry>, issued: map<nat, Issue>, at: Attempt)
    requires AttemptOk(tenant, l, issued, at) && !Paid(tenant, l, at.ask)
    ensures at.phase.Over? ==> !at.phase.out.Saved?
  {
    if at.phase.Over? && at.phase.out.Saved? {
      PaidForIsPaid(tenant, l, at.ask, at.phase.out.reply);
      assert false;
    }
  }

  /**
   In every run, an attempt that comes to save its summary has been charged for it, and it is saved exactly
   when the store takes it, the model returned some text and no negative counts, and the policy names a
   model. Otherwise nothing is saved and the charge stands: with an empty model name, known before anything
   is reserved, every answer is charged for and none is kept.
   */
  lemma KeptExactlyWhen(tenant: Id, ss: seq<State>, steps: seq<Step>, i: nat, a: nat, fails: bool)
    requires Run(tenant, ss, steps) && i < |steps| && steps[i] == Persist(a, fails)
    ensures a in ss[i].attempts && ss[i].attempts[a].phase.Saving? && a in ss[i + 1].attempts
    ensures var at, reply := ss[i].attempts[a], ss[i].attempts[a].phase.reply;
            && PaidFor(tenant, ss[i].wallet.ledger, at.ask, reply) && ss[i + 1].wallet == ss[i].wallet
            && (match ss[i + 1].attempts[a].phase
                case Over(Saved(row, r)) =>
                  && r == reply && !fails && Buildable(at.model, reply)
                  && Summary(tenant, at, reply) == C.Ok(row) && ss[i + 1].rows == ss[i].rows + [row]
                case Over(NotSaved(r)) => r == reply && fails && Buildable(at.model, reply) && ss[i + 1].rows == ss[i].rows
                case Over(NotBuilt(r)) => r == reply && !Buildable(at.model, reply) && ss[i + 1].rows == ss[i].rows
                case _ => false)
  {
    ReachableInv(tenant, ss, steps, i);
    assert Follows(tenant, ss[i], steps[i], ss[i + 1]);
    var at := ss[i].attempts[a];
    assert AttemptOk(tenant, ss[i].wallet.ledger, ss[i].issued, at);
    PersistedOk(tenant, at, at.phase.reply, fails);
  }

  /** An attempt that was charged and did not save says why, for good. */
  lemma DroppedIsPaid(tenant: Id, ss: seq<State>, steps: seq<Step>, n: nat, a: nat)
    requires Run(tenant, ss, steps) && n < |ss| && a in ss[n].attempts
    ensures match ss[n].attempts[a].phase
            case Over(NotSaved(reply)) => PaidFor(tenant, ss[n].wallet.ledger, ss[n].attempts[a].ask, reply) && Buildable(ss[n].attempts[a].model, reply)
            case Over(NotBuilt(reply)) => PaidFor(tenant, ss[n].wallet.ledger, ss[n].attempts[a].ask, reply) && !Buildable(ss[n].attempts[a].model, reply)
            case _ => true
  {
    ReachableInv(tenant, ss, steps, n);
    assert AttemptOk(tenant, ss[n].wallet.ledger, ss[n].issued, ss[n].attempts[a]);
  }

  // ----- how an attempt begins, and what it makes of the wallet's answers

  /** Some summary of the conversation has neither been invalidated nor expired. */
  predicate Remembered(tenant: Id, rows: seq<C.Row>, conversation: Id, now: int) {
    exists k :: 0 <= k < |rows| && rows[k].tenant == tenant && rows[k].conversation == conversation
                && rows[k].invalidatedAt == 0 && (rows[k].expiresAt == 0 || now < rows[k].expiresAt)
  }

  /** An attempt goes ahead exactly if its ids, request and prompt are there, the gates are open, and no summary can be served. */
  lemma BeginsExactly(tenant: Id, ss: seq<State>, steps: seq<Step>, i: nat)
    requires Run(tenant, ss, steps) && i < |steps| && steps[i].Begin?
    ensures steps[i].a in ss[i + 1].attempts
    ensures var b := steps[i];
            var whole := tenant != NIL_ID && b.ask.conversation != NIL_ID && |b.ask.request| > 0 && |b.prompt| > 0;
            var phase := ss[i + 1].attempts[b.a].phase;
            var known := Remembered(tenant, ss[i].rows, b.ask.conversation, b.now);
            && (phase == Over(Invalid) <==> !whole)
            && (phase == Over(Blocked) <==> whole && !b.open)
            && (phase == Over(Cached) <==> whole && b.open && !b.force && known)
            && (phase == Ready <==> whole && b.open && (b.force || !known))
  {
    assert Follows(tenant, ss[i], steps[i], ss[i + 1]);
    var b := steps[i];
    if C.Miss(ss[i].rows, tenant, b.ask.conversation, b.now) {
      assert !Remembered(tenant, ss[i].rows, b.ask.conversation, b.now);
    } else {
      var k :| 0 <= k < |ss[i].rows| && C.For(ss[i].rows[k], tenant, b.ask.conversation) && C.Served(ss[i].rows[k], b.now);
      assert Remembered(tenant, ss[i].rows, b.ask.conversation, b.now);
    }
  }

  /** An attempt that fails on the wallet reports the wallet's own error, and one that does not goes on. */
  lemma AnswersArePassedOn(tenant: Id, ss: seq<State>, steps: seq<Step>, i: nat)
    requires Run(tenant, ss, steps) && i < |steps| && (steps[i].GetReserve? || steps[i].GetRelease? || steps[i].GetCommit?)
    ensures var a := steps[i].a;
            && a in ss[i].attempts && a in ss[i + 1].attempts && ss[i].attempts[a].phase.Reserving? == steps[i].GetReserve?
            && ss[i].attempts[a].phase.Releasing? == steps[i].GetRelease? && ss[i].attempts[a].phase.Committing? == steps[i].GetCommit?
            && var c := ss[i].attempts[a].phase.c;
               c in ss[i].wallet.calls && ss[i].wallet.calls[c].phase.Done?
               && var after := ss[i + 1].attempts[a].phase;
                  match ss[i].wallet.calls[c].phase.o
                  case Failed(e) =>
                    after == Over(if steps[i].GetReserve? then ReserveFailed(e) else if steps[i].GetRelease? then ReleaseFailed(e) else CommitFailed(e))
                  case Reserved(r) => steps[i].GetReserve? ==> after == Calling(r)
                  case Ok =>
                    && (steps[i].GetRelease? ==> after == Over(ModelFailed))
                    && (steps[i].GetCommit? ==> after == Saving(ss[i].attempts[a].phase.reply))
  {
    assert Follows(tenant, ss[i], steps[i], ss[i + 1]);
  }
}
