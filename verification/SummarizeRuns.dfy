/**
 Runs of the summarize use case (internal/aiassist/usecase/summarize.go) that can be written down: an
 undisturbed attempt gets through, and the runs in which the code does less than its words.
 */
module SummarizeRuns {
  import opened Options
  import opened WalletLedger
  import opened Uuids
  import W = WalletService
  import opened WalletCalls
  import C = SummaryCache
  import opened Summarize
  import opened SummarizeBilling

  // ----- building runs

  lemma Extend(tenant: Id, ss: seq<State>, steps: seq<Step>, step: Step, s': State)
    requires Run(tenant, ss, steps) && Follows(tenant, ss[|steps|], step, s')
    ensures Run(tenant, ss + [s'], steps + [step])
  {
    var all, those := ss + [s'], steps + [step];
    forall i | 0 <= i < |those| ensures Follows(tenant, all[i], those[i], all[i + 1]) {
      if i < |steps| {
        assert Follows(tenant, ss[i], steps[i], ss[i + 1]);
      }
    }
  }

  /** The wallet's steps, seen from outside. */
  function Insides(wsteps: seq<W.Step>): seq<Step> {
    if wsteps == [] then [] else [Inside(wsteps[0])] + Insides(wsteps[1..])
  }

  lemma {:induction false} ExtendInside(tenant: Id, ss: seq<State>, steps: seq<Step>, ws: seq<W.State>, wsteps: seq<W.Step>)
    returns (ss': seq<State>, steps': seq<Step>)
    requires Run(tenant, ss, steps) && WalletPath(ws, wsteps) && ss[|steps|].wallet == ws[0]
    requires forall i :: 0 <= i < |wsteps| ==> !wsteps[i].Arrive?
    ensures Run(tenant, ss', steps') && ss'[|steps'|] == ss[|steps|].(wallet := ws[|wsteps|])
    ensures steps' == steps + Insides(wsteps)
    decreases |wsteps|
  {
    ss', steps' := ss, steps;
    if wsteps != [] {
      var s := ss[|steps|];
      assert W.Enabled(ws[0], wsteps[0]) && ws[1] == W.Do(ws[0], wsteps[0]);
      var s1 := s.(wallet := ws[1]);
      assert Follows(tenant, s, Inside(wsteps[0]), s1);
      Extend(tenant, ss, steps, Inside(wsteps[0]), s1);
      assert forall i :: 0 <= i < |wsteps[1..]| ==> wsteps[1..][i] == wsteps[i + 1] && ws[1..][i] == ws[i + 1];
      ss', steps' := ExtendInside(tenant, ss + [s1], steps + [Inside(wsteps[0])], ws[1..], wsteps[1..]);
      assert steps + [Inside(wsteps[0])] + Insides(wsteps[1..]) == steps + ([Inside(wsteps[0])] + Insides(wsteps[1..]));
    }
  }

  // ----- an attempt nobody disturbs

  /** What the world contributes: ids for the wallet calls and the reservation, the estimate, the model's reply. */
  datatype World = World(c: nat, d: nat, id: string, other: string, estimate: int, reply: Reply)

  /** The attempt is ready, its request was never tried, and the wallet can afford it. */
  ghost predicate CanPay(tenant: Id, s: State, a: nat, w: World) {
    && a in s.attempts && s.attempts[a].phase.Ready? && |s.attempts[a].ask.request| <= 46
    && w.c !in s.wallet.calls && w.d !in s.wallet.calls && w.c != w.d
    && NewRef(s.wallet.ledger, w.id) && NewRef(s.wallet.ledger, w.other) && w.id != w.other
    && !HasKey(s.wallet.ledger, Key(tenant, s.attempts[a].ask, RESERVE))
    && !HasKey(s.wallet.ledger, Key(tenant, s.attempts[a].ask, COMMIT))
    && 0 < w.estimate <= s.wallet.row.balance - s.wallet.row.reserved
  }

  function ReserveOp(tenant: Id, ask: Ask, w: World): W.Op {
    W.DoReserve(w.estimate, Key(tenant, ask, RESERVE))
  }

  function CommitOp(tenant: Id, ask: Ask, w: World): W.Op {
    Next(tenant, ask, W.Reservation(w.id, w.estimate), Some(w.reply))
  }

  /** The state once the attempt holds its reservation. */
  ghost function Reserved(tenant: Id, s: State, a: nat, w: World): State
    requires a in s.attempts && ReserveOn(s.wallet.row, w.estimate).Applied?
  {
    var ask := s.attempts[a].ask;
    With(s, a, Calling(W.Reservation(w.id, w.estimate))).(
      wallet := Landed(s.wallet, w.c, ReserveOp(tenant, ask, w), ReserveOn(s.wallet.row, w.estimate).w,
                       W.RowOf(ReserveOp(tenant, ask, w), w.id)),
      issued := s.issued[w.c := ForReserve(ask)])
  }

  lemma GoReserve(tenant: Id, ss: seq<State>, steps: seq<Step>, a: nat, w: World) returns (ss': seq<State>, steps': seq<Step>)
    requires Run(tenant, ss, steps) && CanPay(tenant, ss[|steps|], a, w)
    ensures ReserveOn(ss[|steps|].wallet.row, w.estimate).Applied?
    ensures Run(tenant, ss', steps') && ss'[|steps'|] == Reserved(tenant, ss[|steps|], a, w)
  {
    ReachableInv(tenant, ss, steps, |steps|);
    var s := ss[|steps|];
    var ask := s.attempts[a].ask;
    var op := ReserveOp(tenant, ask, w);
    assert AttemptOk(tenant, s.wallet.ledger, s.issued, s.attempts[a]);
    KeysFitTogether(tenant, ask);
    var ws := ReserveLands(s.wallet, w.c, op, w.id);
    var s1 := With(s, a, Reserving(w.c)).(wallet := ws[0], issued := s.issued[w.c := ForReserve(ask)]);
    assert Follows(tenant, s, SendReserve(a, w.c, w.estimate), s1);
    Extend(tenant, ss, steps, SendReserve(a, w.c, w.estimate), s1);
    ss', steps' := ExtendInside(tenant, ss + [s1], steps + [SendReserve(a, w.c, w.estimate)], ws,
                                [W.Load(w.c), W.LookUp(w.c, w.id), W.Apply(w.c, true)]);
    var s4 := ss'[|steps'|];
    assert s4 == s1.(wallet := ws[3]);
    var s5 := With(s4, a, Calling(W.Reservation(w.id, w.estimate)));
    assert s5.attempts == With(s, a, Calling(W.Reservation(w.id, w.estimate))).attempts;
    assert Follows(tenant, s4, GetReserve(a), s5);
    Extend(tenant, ss', steps', GetReserve(a), s5);
    ss', steps' := ss' + [s5], steps' + [GetReserve(a)];
  }

  lemma NewRefIsUnsettled(l: seq<Entry>, id: string)
    requires WellFormed(l) && NewRef(l, id)
    ensures !Settled(l, id)
  {
    forall j | 0 <= j < |l| && Settles(l[j]) ensures l[j].ref != id {
      var i :| Closes(l, i, j);
      assert l[i].kind == Reserve && l[i].ref == l[j].ref;
    }
  }

  /** After the reservation has landed, the wallet is fit for its commit. */
  lemma ReadyToCommit(tenant: Id, l: seq<Entry>, ask: Ask, w: World)
    requires |tenant| == |ask.conversation| == UUID_LENGTH && WellFormed(l)
    requires NewRef(l, w.id) && NewRef(l, w.other) && w.id != w.other && !HasKey(l, Key(tenant, ask, COMMIT))
    ensures var m := l + [W.RowOf(ReserveOp(tenant, ask, w), w.id)];
            && Opened(m, w.id, w.estimate) && !Settled(m, w.id) && NewRef(m, w.other) && !HasKey(m, Key(tenant, ask, COMMIT))
  {
    var e := W.RowOf(ReserveOp(tenant, ask, w), w.id);
    var m := l + [e];
    assert ReservedAt(m, |l|, w.id, w.estimate);
    NewRefIsUnsettled(l, w.id);
    SettledAppend(l, e, w.id);
    if Key(tenant, ask, RESERVE) == Key(tenant, ask, COMMIT) {
      KeysAreDistinct(tenant, ask, RESERVE, tenant, ask, COMMIT);
    }
  }

  /** The state once the attempt has paid for the reply. */
  ghost function AfterPaying(tenant: Id, s: State, a: nat, w: World): State
    requires a in s.attempts && ReserveOn(s.wallet.row, w.estimate).Applied?
    requires CommitOn(Reserved(tenant, s, a, w).wallet.row, Clamped(w.reply, w.estimate), w.estimate).Applied?
  {
    var ask, r := s.attempts[a].ask, Reserved(tenant, s, a, w);
    With(s, a, Saving(w.reply)).(
      wallet := Landed(r.wallet, w.d, CommitOp(tenant, ask, w),
                       CommitOn(r.wallet.row, Clamped(w.reply, w.estimate), w.estimate).w, W.RowOf(CommitOp(tenant, ask, w), "")),
      issued := r.issued[w.d := ForCommit(ask, w.reply)],
      answers := s.answers + {(ask, w.reply)})
  }

  ghost predicate Solvable(tenant: Id, s: State, a: nat, w: World) {
    && a in s.attempts && ReserveOn(s.wallet.row, w.estimate).Applied?
    && CommitOn(Reserved(tenant, s, a, w).wallet.row, Clamped(w.reply, w.estimate), w.estimate).Applied?
  }

  /**
   An attempt whose request was never tried, on a wallet that can afford it, gets through if nobody disturbs
   it: it is charged for the reply, and nothing else has changed.
   */
  lemma UndisturbedPays(tenant: Id, ss: seq<State>, steps: seq<Step>, a: nat, w: World) returns (ss': seq<State>, steps': seq<Step>)
    requires Run(tenant, ss, steps) && CanPay(tenant, ss[|steps|], a, w)
    ensures Solvable(tenant, ss[|steps|], a, w)
    ensures Run(tenant, ss', steps') && ss'[|steps'|] == AfterPaying(tenant, ss[|steps|], a, w)
  {
    ReachableInv(tenant, ss, steps, |steps|);
    var s := ss[|steps|];
    var ask := s.attempts[a].ask;
    assert AttemptOk(tenant, s.wallet.ledger, s.issued, s.attempts[a]);
    ReadyToCommit(tenant, s.wallet.ledger, ask, w);
    var ss1, steps1 := GoReserve(tenant, ss, steps, a, w);
    ReservedCanBeSettled(tenant, ss1, steps1, |steps1|, a, Some(w.reply), w.d);
    ss', steps' := GoCommit(tenant, ss1, steps1, a, w, CommitOp(tenant, ask, w));
    assert ss'[|steps'|].attempts == With(s, a, Saving(w.reply)).attempts;
  }

  lemma GoCommit(tenant: Id, ss: seq<State>, steps: seq<Step>, a: nat, w: World, op: W.Op) returns (ss': seq<State>, steps': seq<Step>)
    requires Run(tenant, ss, steps) && a in ss[|steps|].attempts
    requires ss[|steps|].attempts[a].phase == Calling(W.Reservation(w.id, w.estimate))
    requires op == CommitOp(tenant, ss[|steps|].attempts[a].ask, w) && W.Rejection(op).None?
    requires w.d !in ss[|steps|].wallet.calls && !HasKey(ss[|steps|].wallet.ledger, op.key)
    requires Opened(ss[|steps|].wallet.ledger, w.id, w.estimate) && !Settled(ss[|steps|].wallet.ledger, w.id)
    requires NewRef(ss[|steps|].wallet.ledger, w.other)
    requires CommitOn(ss[|steps|].wallet.row, op.actual, w.estimate).Applied?
    ensures Run(tenant, ss', steps')
    ensures var s := ss[|steps|];
            ss'[|steps'|] == With(s, a, Saving(w.reply)).(
              wallet := Landed(s.wallet, w.d, op, CommitOn(s.wallet.row, op.actual, w.estimate).w, W.RowOf(op, "")),
              issued := s.issued[w.d := ForCommit(s.attempts[a].ask, w.reply)],
              answers := s.answers + {(s.attempts[a].ask, w.reply)})
  {
    var s := ss[|steps|];
    var ask := s.attempts[a].ask;
    var ws := CommitLands(s.wallet, w.d, op, w.other);
    var step := ModelReturns(a, Some(w.reply), w.d);
    var s1 := With(s, a, Committing(w.reply, w.d)).(
      wallet := ws[0], issued := s.issued[w.d := ForCommit(ask, w.reply)], answers := s.answers + {(ask, w.reply)});
    assert Follows(tenant, s, step, s1);
    Extend(tenant, ss, steps, step, s1);
    ss', steps' := ExtendInside(tenant, ss + [s1], steps + [step], ws,
                                [W.Load(w.d), W.LookUp(w.d, w.other), W.LookUpSettled(w.d), W.Apply(w.d, true)]);
    var s5 := ss'[|steps'|];
    assert s5 == s1.(wallet := ws[4]);
    var s6 := With(s5, a, Saving(w.reply));
    assert s6.attempts == With(s, a, Saving(w.reply)).attempts;
    assert Follows(tenant, s5, GetCommit(a), s6);
    Extend(tenant, ss', steps', GetCommit(a), s6);
    ss', steps' := ss' + [s6], steps' + [GetCommit(a)];
  }

  // ----- pieces of concrete runs

  const REPLY := Reply("a summary", 3, 4)
  const TTL := 1000

  /** Ids of a tenant and a conversation, and a request id that fits. */
  predicate Sound(tenant: Id, ask: Ask) {
    |tenant| == |ask.conversation| == UUID_LENGTH && tenant != NIL_ID && ask.conversation != NIL_ID && 0 < |ask.request| <= 46
  }

  function Offer(n: nat, id: string): World {
    World(2 * n, 2 * n + 1, id, "none", 10, REPLY)
  }

  function Funds(): State {
    INIT.(wallet := W.State(Wallet(100, 0, 1), [Entry(Grant, 100, "grant", "")], map[]))
  }

  lemma Funded(tenant: Id) returns (ss: seq<State>, steps: seq<Step>)
    requires |tenant| == UUID_LENGTH
    ensures Run(tenant, ss, steps) && ss[|steps|] == Funds()
  {
    ss, steps := [INIT, Funds()], [Inside(W.Allocate(100, "grant"))];
    assert W.Do(INIT.wallet, W.Allocate(100, "grant")) == Funds().wallet;
    assert Follows(tenant, ss[0], steps[0], ss[1]);
  }

  lemma Begins(tenant: Id, ss: seq<State>, steps: seq<Step>, a: nat, ask: Ask, force: bool, model: string, now: int)
    returns (ss': seq<State>, steps': seq<Step>)
    requires Run(tenant, ss, steps) && Sound(tenant, ask) && a !in ss[|steps|].attempts
    requires force || C.Miss(ss[|steps|].rows, tenant, ask.conversation, now)
    ensures Run(tenant, ss', steps')
    ensures ss'[|steps'|] == ss[|steps|].(attempts := ss[|steps|].attempts[a := Attempt(ask, model, TTL, now, Ready)])
  {
    var s := ss[|steps|];
    var step := Begin(a, ask, "text", force, true, model, TTL, now);
    var s' := s.(attempts := s.attempts[a := Attempt(ask, model, TTL, now, Ready)]);
    assert Follows(tenant, s, step, s');
    Extend(tenant, ss, steps, step, s');
    ss', steps' := ss + [s'], steps + [step];
  }

  /** What paying leaves of the wallet. */
  lemma PayingFacts(tenant: Id, s: State, a: nat, w: World)
    requires Solvable(tenant, s, a, w)
    ensures var s' := AfterPaying(tenant, s, a, w);
            && s'.wallet.ledger == s.wallet.ledger + [W.RowOf(ReserveOp(tenant, s.attempts[a].ask, w), w.id),
                                                      W.RowOf(CommitOp(tenant, s.attempts[a].ask, w), "")]
            && s'.wallet.row == Wallet(s.wallet.row.balance - Clamped(w.reply, w.estimate), s.wallet.row.reserved, s.wallet.row.version + 2)
            && s'.wallet.calls.Keys == s.wallet.calls.Keys + {w.c, w.d}
  {
  }

  lemma FirstCanPay(tenant: Id, s: State, a: nat)
    requires a in s.attempts && s.attempts[a].phase.Ready? && Sound(tenant, s.attempts[a].ask) && s.wallet == Funds().wallet
    ensures CanPay(tenant, s, a, Offer(0, "r0"))
  {
    KeySplits(tenant, s.attempts[a].ask, RESERVE);
    KeySplits(tenant, s.attempts[a].ask, COMMIT);
  }

  /** The answer is saved, unless the policy names no model. */
  lemma Saves(tenant: Id, ss: seq<State>, steps: seq<Step>, a: nat) returns (ss': seq<State>, steps': seq<Step>)
    requires Run(tenant, ss, steps) && a in ss[|steps|].attempts && ss[|steps|].attempts[a].phase == Saving(REPLY)
    ensures Run(tenant, ss', steps') && steps' == steps + [Persist(a, false)]
    ensures var s := ss[|steps|];
            var out := Persisted(tenant, s.attempts[a], REPLY, false);
            ss'[|steps'|] == With(s, a, Over(out)).(rows := if out.Saved? then s.rows + [out.row] else s.rows)
  {
    var s := ss[|steps|];
    var s' := Do(tenant, s, Persist(a, false));
    assert Follows(tenant, s, Persist(a, false), s');
    Extend(tenant, ss, steps, Persist(a, false), s');
    ss', steps' := ss + [s'], steps + [Persist(a, false)];
  }

  // ----- charged for nothing

  /** A policy without a model name: the model answers, the wallet is charged seven tokens, nothing is saved. */
  lemma EmptyModelIsChargedForNothing(tenant: Id, ask: Ask) returns (ss: seq<State>, steps: seq<Step>)
    requires Sound(tenant, ask)
    ensures Run(tenant, ss, steps)
    ensures var s := ss[|steps|];
            && 0 in s.attempts && s.attempts[0].phase == Over(NotBuilt(REPLY))
            && s.rows == [] && s.wallet.row.balance == 93 && PaidFor(tenant, s.wallet.ledger, ask, REPLY)
  {
    ss, steps := Funded(tenant);
    ss, steps := Begins(tenant, ss, steps, 0, ask, false, "", 1);
    FirstCanPay(tenant, ss[|steps|], 0);
    PayingFactsOnce(tenant, ss, steps, 0);
    ss, steps := UndisturbedPays(tenant, ss, steps, 0, Offer(0, "r0"));
    ss, steps := Saves(tenant, ss, steps, 0);
    DroppedIsPaid(tenant, ss, steps, |steps|, 0);
  }

  lemma PayingFactsOnce(tenant: Id, ss: seq<State>, steps: seq<Step>, a: nat)
    requires Run(tenant, ss, steps) && CanPay(tenant, ss[|steps|], a, Offer(0, "r0")) && ss[|steps|].wallet.row == Wallet(100, 0, 1)
    ensures Solvable(tenant, ss[|steps|], a, Offer(0, "r0"))
    ensures AfterPaying(tenant, ss[|steps|], a, Offer(0, "r0")).wallet.row == Wallet(93, 0, 3)
  {
    var ss', steps' := UndisturbedPays(tenant, ss, steps, a, Offer(0, "r0"));
    PayingFacts(tenant, ss[|steps|], a, Offer(0, "r0"));
  }

  // ----- a stale summary is served

  /** Begun at 1, invalidated at 5 while the model was thinking, saved after that: the row of instant 1 is served at 6. */
  lemma StaleSummaryIsServed(tenant: Id, ask: Ask) returns (ss: seq<State>, steps: seq<Step>)
    requires Sound(tenant, ask)
    ensures Run(tenant, ss, steps) && |steps| >= 2 && steps[|steps| - 2] == InvalidateAt(ask.conversation, 5)
    ensures var s := ss[|steps|];
            |s.rows| == 1 && C.For(s.rows[0], tenant, ask.conversation) && s.rows[0].generatedAt == 1 && C.Served(s.rows[0], 6)
  {
    ss, steps := Funded(tenant);
    ss, steps := Begins(tenant, ss, steps, 0, ask, false, "model", 1);
    FirstCanPay(tenant, ss[|steps|], 0);
    ss, steps := UndisturbedPays(tenant, ss, steps, 0, Offer(0, "r0"));
    var s := ss[|steps|];
    var step := InvalidateAt(ask.conversation, 5);
    assert C.InvalidatedAll([], tenant, ask.conversation, 5) == [];
    assert Follows(tenant, s, step, s);
    Extend(tenant, ss, steps, step, s);
    ss, steps := ss + [s], steps + [step];
    ss, steps := Saves(tenant, ss, steps, 0);
  }

  // ----- two summaries at once

  lemma OtherKeys(tenant: Id, ask: Ask, other: Ask, p: string, q: string)
    requires Sound(tenant, ask) && Sound(tenant, other) && ask != other && IsPhase(p) && IsPhase(q)
    ensures Key(tenant, ask, p) != Key(tenant, other, q)
    ensures |Key(tenant, ask, p)| > |"grant"|
  {
    KeySplits(tenant, ask, p);
    if Key(tenant, ask, p) == Key(tenant, other, q) {
      KeysAreDistinct(tenant, ask, p, tenant, other, q);
    }
  }

  /** The journal of a request that was charged seven tokens, once. */
  ghost predicate PaidOnceFor(tenant: Id, l: seq<Entry>, ask: Ask) {
    l == [Entry(Grant, 100, "grant", ""), W.RowOf(ReserveOp(tenant, ask, Offer(0, "r0")), "r0"),
          W.RowOf(CommitOp(tenant, ask, Offer(0, "r0")), "")]
  }

  /** The wallet after the first request has paid. */
  ghost predicate PaidOnce(tenant: Id, wallet: W.State, ask: Ask) {
    wallet.calls.Keys == {0, 1} && wallet.row.balance == 93 && wallet.row.reserved == 0 && PaidOnceFor(tenant, wallet.ledger, ask)
  }

  lemma SecondCanPay(tenant: Id, s: State, ask: Ask)
    requires Sound(tenant, ask) && 1 in s.attempts && s.attempts[1].phase.Ready? && Sound(tenant, s.attempts[1].ask)
    requires s.attempts[1].ask != ask && PaidOnce(tenant, s.wallet, ask)
    ensures CanPay(tenant, s, 1, Offer(1, "r1"))
  {
    var mine := s.attempts[1].ask;
    OtherKeys(tenant, mine, ask, RESERVE, RESERVE);
    OtherKeys(tenant, mine, ask, RESERVE, COMMIT);
    OtherKeys(tenant, mine, ask, COMMIT, RESERVE);
    OtherKeys(tenant, mine, ask, COMMIT, COMMIT);
  }

  /** A row of the conversation that is not invalidated and expires only after 1000. */
  predicate Lasting(tenant: Id, conversation: Id, r: C.Row) {
    C.For(r, tenant, conversation) && r.invalidatedAt == 0 && r.expiresAt > 1000
  }

  /** The first request pays and saves; other attempts stay as they are. */
  lemma FirstIsSaved(tenant: Id, ss: seq<State>, steps: seq<Step>, ask: Ask, now: int) returns (ss': seq<State>, steps': seq<Step>)
    requires Run(tenant, ss, steps) && Sound(tenant, ask) && ss[|steps|].wallet == Funds().wallet && ss[|steps|].rows == []
    requires now > 0 && 0 in ss[|steps|].attempts && ss[|steps|].attempts[0] == Attempt(ask, "model", TTL, now, Ready)
    ensures Run(tenant, ss', steps') && PaidOnce(tenant, ss'[|steps'|].wallet, ask)
    ensures |ss'[|steps'|].rows| == 1 && Lasting(tenant, ask.conversation, ss'[|steps'|].rows[0])
    ensures ss'[|steps'|].attempts.Keys == ss[|steps|].attempts.Keys
    ensures forall a :: a in ss[|steps|].attempts && a != 0 ==> ss'[|steps'|].attempts[a] == ss[|steps|].attempts[a]
  {
    FirstCanPay(tenant, ss[|steps|], 0);
    PayingFactsOnce(tenant, ss, steps, 0);
    PayingFacts(tenant, ss[|steps|], 0, Offer(0, "r0"));
    ss', steps' := UndisturbedPays(tenant, ss, steps, 0, Offer(0, "r0"));
    ss', steps' := Saves(tenant, ss', steps', 0);
  }

  lemma SecondIsSaved(tenant: Id, ss: seq<State>, steps: seq<Step>, ask: Ask, other: Ask, now: int) returns (ss': seq<State>, steps': seq<Step>)
    requires Run(tenant, ss, steps) && Sound(tenant, ask) && Sound(tenant, other) && ask != other && PaidOnce(tenant, ss[|steps|].wallet, ask)
    requires now > 0 && 1 in ss[|steps|].attempts && ss[|steps|].attempts[1] == Attempt(other, "model", TTL, now, Ready)
    ensures Run(tenant, ss', steps') && |ss'[|steps'|].rows| == |ss[|steps|].rows| + 1
    ensures ss'[|steps'|].rows[..|ss[|steps|].rows|] == ss[|steps|].rows
    ensures Lasting(tenant, other.conversation, ss'[|steps'|].rows[|ss[|steps|].rows|])
  {
    SecondCanPay(tenant, ss[|steps|], ask);
    ss', steps' := UndisturbedPays(tenant, ss, steps, 1, Offer(1, "r1"));
    ss', steps' := Saves(tenant, ss', steps', 1);
  }

  /**
   Two requests for one conversation end with two summaries served at once, whether the second is a forced
   refresh after the first (`forced`) or both begin, and miss, before either saves.
   */
  lemma TwoSummariesServed(tenant: Id, ask: Ask, other: Ask, forced: bool) returns (ss: seq<State>, steps: seq<Step>)
    requires Sound(tenant, ask) && Sound(tenant, other) && ask != other && ask.conversation == other.conversation
    ensures Run(tenant, ss, steps)
    ensures |ss[|steps|].rows| == 2 && !C.AtMostOne(ss[|steps|].rows, tenant, ask.conversation, 2)
  {
    ss, steps := Funded(tenant);
    ss, steps := Begins(tenant, ss, steps, 0, ask, false, "model", 1);
    if forced {
      ss, steps := FirstIsSaved(tenant, ss, steps, ask, 1);
      ss, steps := Begins(tenant, ss, steps, 1, other, true, "model", 2);
      ss, steps := SecondIsSaved(tenant, ss, steps, ask, other, 2);
    } else {
      ss, steps := Begins(tenant, ss, steps, 1, other, false, "model", 1);
      ss, steps := FirstIsSaved(tenant, ss, steps, ask, 1);
      ss, steps := SecondIsSaved(tenant, ss, steps, ask, other, 1);
    }
    TwoLasting(tenant, ask.conversation, ss[|steps|].rows);
  }

  lemma TwoLasting(tenant: Id, conversation: Id, rows: seq<C.Row>)
    requires |rows| == 2 && Lasting(tenant, conversation, rows[..1][0]) && Lasting(tenant, conversation, rows[1])
    ensures !C.AtMostOne(rows, tenant, conversation, 2)
  {
    assert C.For(rows[0], tenant, conversation) && C.For(rows[1], tenant, conversation);
    assert C.Served(rows[0], 2) && C.Served(rows[1], 2);
  }
}
