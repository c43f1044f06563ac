/**
 The summarize use case (internal/aiassist/usecase/summarize.go) on top of the wallet and the summary
 cache: reserve tokens, call the model, then release on failure or commit and save on success.

 Any number of attempts of one tenant run at once, retries of a request included; each may crash between
 any two steps, and the wallet's own steps come in between. Policy, consent and rate limiting decide
 whether an attempt gets past the gates at all, and are one flag here.
 */
module Summarize {
  import opened Options
  import opened Durations
  import opened WalletLedger
  import opened Uuids
  import W = WalletService
  import C = SummaryCache

  const RESERVE := ":reserve"
  const COMMIT := ":commit"
  const RELEASE := ":release"

  /** What identifies a request to the ledger, within a tenant; a retry asks the same again. */
  datatype Ask = Ask(conversation: Id, request: string)

  datatype Reply = Reply(text: string, tokensIn: int, tokensOut: int)

  datatype Out =
    | Invalid | Blocked | Cached
    | ReserveFailed(e: W.Error)
    | ModelFailed | ReleaseFailed(e: W.Error)
    | CommitFailed(e: W.Error)
    | NotBuilt(reply: Reply) | NotSaved(reply: Reply) | Saved(row: C.Row, reply: Reply)
    | Crashed

  /** `c` is the wallet call an attempt waits for. */
  datatype Phase =
    | Ready
    | Reserving(c: nat)
    | Calling(r: W.Reservation)
    | Releasing(c: nat)
    | Committing(reply: Reply, c: nat)
    | Saving(reply: Reply)
    | Over(out: Out)

  datatype Attempt = Attempt(ask: Ask, model: string, ttl: int, now: int, phase: Phase)

  /** Why a wallet call was made; bookkeeping for the theorems. */
  datatype Issue = ForReserve(ask: Ask) | ForRelease(ask: Ask) | ForCommit(ask: Ask, reply: Reply)

  datatype State = State(
    wallet: W.State, issued: map<nat, Issue>, attempts: map<nat, Attempt>,
    answers: set<(Ask, Reply)>, rows: seq<C.Row>)

  datatype Step =
    | Begin(a: nat, ask: Ask, prompt: string, force: bool, open: bool, model: string, ttl: int, now: int)
    | SendReserve(a: nat, c: nat, estimate: int)
    | GetReserve(a: nat)
    | ModelReturns(a: nat, reply: Option<Reply>, c: nat)
    | GetRelease(a: nat)
    | GetCommit(a: nat)
    | Persist(a: nat, fails: bool)
    | Crash(a: nat)
    | InvalidateAt(conversation: Id, now: int)
    | Inside(step: W.Step)

  // ----- ledger keys

  function Key(tenant: Id, ask: Ask, phase: string): string {
    tenant + ":" + ask.conversation + ":" + ask.request + phase
  }

  predicate IsPhase(phase: string) {
    phase == RESERVE || phase == COMMIT || phase == RELEASE
  }

  lemma SuffixesSplit(r: string, r': string, p: string, p': string)
    requires IsPhase(p) && IsPhase(p') && r + p == r' + p'
    ensures r == r' && p == p'
  {
    var s, s' := r + p, r' + p';
    assert s[|s| - 1] == p[|p| - 1] && s'[|s'| - 1] == p'[|p'| - 1];
    assert s[|s| - 3] == p[|p| - 3] && s'[|s'| - 3] == p'[|p'| - 3];
    assert r == s[..|s| - |p|] && r' == s'[..|s'| - |p'|];
  }

  lemma KeySplits(tenant: Id, ask: Ask, phase: string)
    requires |tenant| == UUID_LENGTH && |ask.conversation| == UUID_LENGTH
    ensures var k := Key(tenant, ask, phase);
            |k| >= 2 * UUID_LENGTH + 2 && k[..UUID_LENGTH] == tenant
            && k[UUID_LENGTH + 1..2 * UUID_LENGTH + 1] == ask.conversation
            && k[2 * UUID_LENGTH + 2..] == ask.request + phase
  {
  }

  /** No two phases, requests, conversations or tenants ever share a ledger key. */
  lemma KeysAreDistinct(tenant: Id, ask: Ask, phase: string, tenant': Id, ask': Ask, phase': string)
    requires |tenant| == |tenant'| == |ask.conversation| == |ask'.conversation| == UUID_LENGTH
    requires IsPhase(phase) && IsPhase(phase')
    requires Key(tenant, ask, phase) == Key(tenant', ask', phase')
    ensures tenant == tenant' && ask == ask' && phase == phase'
  {
    KeySplits(tenant, ask, phase);
    KeySplits(tenant', ask', phase');
    SuffixesSplit(ask.request, ask'.request, phase, phase');
  }

  /** A reserve key the wallet accepts guarantees the commit and release keys; request ids fit up to 46 characters. */
  lemma KeysFitTogether(tenant: Id, ask: Ask)
    requires |tenant| == |ask.conversation| == UUID_LENGTH
    ensures W.CheckKey(Key(tenant, ask, RESERVE)).None? <==> |ask.request| <= 46
    ensures W.CheckKey(Key(tenant, ask, RESERVE)).None? ==>
              W.CheckKey(Key(tenant, ask, COMMIT)).None? && W.CheckKey(Key(tenant, ask, RELEASE)).None?
  {
  }

  /** What is charged: the tokens used, in int64, brought into 1..held. */
  function Clamped(reply: Reply, held: int): int {
    var used := Wrap(reply.tokensIn + reply.tokensOut);
    var atLeastOne := if used <= 0 then 1 else used;
    if atLeastOne > held then held else atLeastOne
  }

  // ----- the steps

  function With(s: State, a: nat, phase: Phase): State
    requires a in s.attempts
  {
    s.(attempts := s.attempts[a := s.attempts[a].(phase := phase)])
  }

  ghost predicate Answered(s: State, c: nat) {
    c in s.wallet.calls && s.wallet.calls[c].phase.Done?
  }

  /** The wallet operation an attempt sends when the model call returns. */
  function Next(tenant: Id, ask: Ask, r: W.Reservation, reply: Option<Reply>): W.Op {
    match reply
    case None => W.DoRelease(r, Key(tenant, ask, RELEASE))
    case Some(x) => W.DoCommit(r, Clamped(x, r.amount), Key(tenant, ask, COMMIT))
  }

  ghost predicate Enabled(tenant: Id, s: State, step: Step) {
    match step
    case Begin(a, ask, _, _, _, _, ttl, _) => a !in s.attempts && |ask.conversation| == UUID_LENGTH && ttl > 0
    case SendReserve(a, c, estimate) =>
      a in s.attempts && s.attempts[a].phase.Ready? && c !in s.wallet.calls
    case GetReserve(a) => a in s.attempts && s.attempts[a].phase.Reserving? && Answered(s, s.attempts[a].phase.c)
    case ModelReturns(a, reply, c) =>
      && a in s.attempts && s.attempts[a].phase.Calling? && c !in s.wallet.calls
      && W.Enabled(s.wallet, W.Arrive(c, Next(tenant, s.attempts[a].ask, s.attempts[a].phase.r, reply)))
    case GetRelease(a) => a in s.attempts && s.attempts[a].phase.Releasing? && Answered(s, s.attempts[a].phase.c)
    case GetCommit(a) => a in s.attempts && s.attempts[a].phase.Committing? && Answered(s, s.attempts[a].phase.c)
    case Persist(a, _) => a in s.attempts && s.attempts[a].phase.Saving?
    case Crash(a) => a in s.attempts && !s.attempts[a].phase.Over?
    case InvalidateAt(_, _) => true
    case Inside(step) => W.Enabled(s.wallet, step) && (step.Arrive? ==> step.op.DoGrant? || step.op.DoMaster?)
  }

  function Started(tenant: Id, rows: seq<C.Row>, ask: Ask, prompt: string, force: bool, open: bool, now: int): Phase {
    if tenant == NIL_ID || ask.conversation == NIL_ID || ask.request == "" || prompt == "" then Over(Invalid)
    else if !open then Over(Blocked)
    else if !force && !C.Miss(rows, tenant, ask.conversation, now) then Over(Cached)
    else Ready
  }

  /** A reserve call never answers a bare Ok. */
  function AfterReserve(o: W.Outcome): Phase {
    match o
    case Reserved(r) => Calling(r)
    case Ok => Over(Crashed)
    case Failed(e) => Over(ReserveFailed(e))
  }

  function Summary(tenant: Id, at: Attempt, reply: Reply): C.Made {
    C.NewSummary(tenant, at.ask.conversation, reply.text, at.model, reply.tokensIn, reply.tokensOut, at.now, at.ttl)
  }

  function Persisted(tenant: Id, at: Attempt, reply: Reply, fails: bool): Out {
    match Summary(tenant, at, reply)
    case Err(_) => NotBuilt(reply)
    case Ok(row) => if fails then NotSaved(reply) else Saved(row, reply)
  }

  ghost function Do(tenant: Id, s: State, step: Step): State
    requires Enabled(tenant, s, step)
  {
    match step
    case Begin(a, ask, prompt, force, open, model, ttl, now) =>
      s.(attempts := s.attempts[a := Attempt(ask, model, ttl, now, Started(tenant, s.rows, ask, prompt, force, open, now))])
    case SendReserve(a, c, estimate) =>
      var ask := s.attempts[a].ask;
      With(s, a, Reserving(c)).(
        wallet := W.Do(s.wallet, W.Arrive(c, W.DoReserve(estimate, Key(tenant, ask, RESERVE)))),
        issued := s.issued[c := ForReserve(ask)])
    case GetReserve(a) => With(s, a, AfterReserve(s.wallet.calls[s.attempts[a].phase.c].phase.o))
    case ModelReturns(a, reply, c) =>
      var ask := s.attempts[a].ask;
      var sent := With(s, a, if reply.None? then Releasing(c) else Committing(reply.value, c));
      sent.(
        wallet := W.Do(s.wallet, W.Arrive(c, Next(tenant, ask, s.attempts[a].phase.r, reply))),
        issued := s.issued[c := if reply.None? then ForRelease(ask) else ForCommit(ask, reply.value)],
        answers := s.answers + if reply.None? then {} else {(ask, reply.value)})
    case GetRelease(a) =>
      var o := s.wallet.calls[s.attempts[a].phase.c].phase.o;
      With(s, a, Over(if o.Failed? then ReleaseFailed(o.e) else ModelFailed))
    case GetCommit(a) =>
      var Committing(reply, c) := s.attempts[a].phase;
      var o := s.wallet.calls[c].phase.o;
      With(s, a, if o.Failed? then Over(CommitFailed(o.e)) else Saving(reply))
    case Persist(a, fails) =>
      var out := Persisted(tenant, s.attempts[a], s.attempts[a].phase.reply, fails);
      With(s, a, Over(out)).(rows := if out.Saved? then s.rows + [out.row] else s.rows)
    case Crash(a) => With(s, a, Over(Crashed))
    case InvalidateAt(conversation, now) => s.(rows := C.InvalidatedAll(s.rows, tenant, conversation, now))
    case Inside(step) => s.(wallet := W.Do(s.wallet, step))
  }

  // ----- the invariant

  /** The journal holds the reservation `r`, made for this request. */
  ghost predicate ReservedFor(tenant: Id, l: seq<Entry>, ask: Ask, r: W.Reservation) {
    exists i :: 0 <= i < |l| && l[i] == W.RowOf(W.DoReserve(r.amount, Key(tenant, ask, RESERVE)), r.id)
  }

  ghost predicate Paid(tenant: Id, l: seq<Entry>, ask: Ask) {
    exists i :: 0 <= i < |l| && l[i].kind == Commit && l[i].key == Key(tenant, ask, COMMIT)
  }

  /** Row j charges the request for this reply, clamped to its own reservation in row i. */
  ghost predicate ChargedAt(tenant: Id, l: seq<Entry>, ask: Ask, reply: Reply, i: int, j: int) {
    && 0 <= i < |l| && 0 <= j < |l|
    && l[i].kind == Reserve && l[i].key == Key(tenant, ask, RESERVE)
    && l[j].kind == Commit && l[j].key == Key(tenant, ask, COMMIT) && l[j].ref == l[i].ref
    && -l[j].amount == Clamped(reply, -l[i].amount)
  }

  ghost predicate PaidFor(tenant: Id, l: seq<Entry>, ask: Ask, reply: Reply) {
    exists i, j :: ChargedAt(tenant, l, ask, reply, i, j)
  }

  /** What a summary is made of, ids aside. */
  predicate Buildable(model: string, reply: Reply) {
    reply.text != "" && model != "" && reply.tokensIn >= 0 && reply.tokensOut >= 0
  }

  /** The attempt got past the checks, the gates and the cache. */
  predicate Admitted(phase: Phase) {
    phase.Over? ==> !phase.out.Invalid? && !phase.out.Blocked? && !phase.out.Cached?
  }

  ghost predicate IssueOk(tenant: Id, l: seq<Entry>, answers: set<(Ask, Reply)>, issue: Issue, op: W.Op) {
    && |issue.ask.conversation| == UUID_LENGTH
    && match issue
       case ForReserve(ask) => op.DoReserve? && op.key == Key(tenant, ask, RESERVE)
       case ForRelease(ask) =>
         op.DoRelease? && op == Next(tenant, ask, op.r, None) && ReservedFor(tenant, l, ask, op.r)
       case ForCommit(ask, reply) =>
         && op.DoCommit? && op == Next(tenant, ask, op.r, Some(reply)) && ReservedFor(tenant, l, ask, op.r)
         && (ask, reply) in answers
  }

  ghost predicate AttemptOk(tenant: Id, l: seq<Entry>, issued: map<nat, Issue>, at: Attempt) {
    && |at.ask.conversation| == UUID_LENGTH
    && (Admitted(at.phase) ==> tenant != NIL_ID && at.ask.conversation != NIL_ID)
    && match at.phase
       case Ready => true
       case Reserving(c) => c in issued && issued[c] == ForReserve(at.ask)
       case Calling(r) => ReservedFor(tenant, l, at.ask, r) && W.CheckKey(Key(tenant, at.ask, RESERVE)).None?
       case Releasing(c) => c in issued && issued[c] == ForRelease(at.ask)
       case Committing(reply, c) => c in issued && issued[c] == ForCommit(at.ask, reply)
       case Saving(reply) => PaidFor(tenant, l, at.ask, reply)
       case Over(Saved(row, reply)) =>
         PaidFor(tenant, l, at.ask, reply) && Buildable(at.model, reply) && Summary(tenant, at, reply) == C.Ok(row)
       case Over(NotSaved(reply)) => PaidFor(tenant, l, at.ask, reply) && Buildable(at.model, reply)
       case Over(NotBuilt(reply)) => PaidFor(tenant, l, at.ask, reply) && !Buildable(at.model, reply)
       case Over(_) => true
  }

  /** A row of the journal, grants aside, is the work of one of the wallet calls made here. */
  ghost predicate MadeHere(s: State, e: Entry) {
    exists c :: c in s.issued && c in s.wallet.calls && e == W.RowOf(s.wallet.calls[c].op, e.ref)
  }

  ghost predicate CallsOk(tenant: Id, s: State) {
    forall c :: c in s.wallet.calls ==>
      if c in s.issued then IssueOk(tenant, s.wallet.ledger, s.answers, s.issued[c], s.wallet.calls[c].op)
      else s.wallet.calls[c].op.DoGrant? || s.wallet.calls[c].op.DoMaster?
  }

  ghost predicate RowsOk(s: State) {
    forall i :: 0 <= i < |s.wallet.ledger| && s.wallet.ledger[i].kind != Grant ==> MadeHere(s, s.wallet.ledger[i])
  }

  ghost predicate AttemptsOk(tenant: Id, s: State) {
    forall a :: a in s.attempts ==> AttemptOk(tenant, s.wallet.ledger, s.issued, s.attempts[a])
  }

  ghost predicate Inv(tenant: Id, s: State) {
    && W.Inv(s.wallet)
    && s.issued.Keys <= s.wallet.calls.Keys
    && CallsOk(tenant, s)
    && RowsOk(s)
    && AttemptsOk(tenant, s)
  }

  // ----- what the wallet's steps leave alone

  lemma ArrivalOnly(w: W.State, c: nat, op: W.Op)
    requires W.Enabled(w, W.Arrive(c, op))
    ensures var w' := W.Do(w, W.Arrive(c, op));
            && w'.ledger == w.ledger && w'.calls.Keys == w.calls.Keys + {c} && w'.calls[c].op == op
            && forall d :: d in w.calls ==> w'.calls[d] == w.calls[d]
  {
  }

  lemma InsideKeeps(w: W.State, step: W.Step)
    requires W.Enabled(w, step) && !step.Arrive?
    ensures var w' := W.Do(w, step);
            && w.ledger <= w'.ledger && w'.calls.Keys == w.calls.Keys
            && forall c :: c in w.calls ==> w'.calls[c].op == w.calls[c].op
  {
  }

  ghost predicate RowOfCall(w: W.State, e: Entry) {
    exists c :: c in w.calls && e == W.RowOf(w.calls[c].op, e.ref)
  }

  lemma NewRowsOfCalls(w: W.State, step: W.Step, i: int)
    requires W.Inv(w) && W.Enabled(w, step) && |w.ledger| <= i < |W.Do(w, step).ledger|
    ensures var e := W.Do(w, step).ledger[i];
            e.kind == Grant || RowOfCall(w, e)
  {
    if step.Apply? {
      var call := w.calls[step.c];
      assert W.CallOk(w.ledger, call);
      assert W.Do(w, step).ledger[i] == call.phase.e == W.RowOf(call.op, call.phase.e.ref);
    }
  }

  // ----- what grows stays true

  ghost predicate Extends(s: State, s': State) {
    && s.wallet.ledger <= s'.wallet.ledger && s.answers <= s'.answers
    && (forall c :: c in s.issued ==> c in s'.issued && s'.issued[c] == s.issued[c])
    && (forall c :: c in s.wallet.calls ==>
          c in s'.wallet.calls && s'.wallet.calls[c].op == s.wallet.calls[c].op && (c in s'.issued ==> c in s.issued))
  }

  lemma ReservedForGrows(tenant: Id, l: seq<Entry>, l': seq<Entry>, ask: Ask, r: W.Reservation)
    requires l <= l' && ReservedFor(tenant, l, ask, r)
    ensures ReservedFor(tenant, l', ask, r)
  {
    var i :| 0 <= i < |l| && l[i] == W.RowOf(W.DoReserve(r.amount, Key(tenant, ask, RESERVE)), r.id);
    assert l'[i] == l[i];
  }

  lemma PaidForGrows(tenant: Id, l: seq<Entry>, l': seq<Entry>, ask: Ask, reply: Reply)
    requires l <= l' && PaidFor(tenant, l, ask, reply)
    ensures PaidFor(tenant, l', ask, reply)
  {
    var i, j :| ChargedAt(tenant, l, ask, reply, i, j);
    assert ChargedAt(tenant, l', ask, reply, i, j);
  }

  lemma PaidForIsPaid(tenant: Id, l: seq<Entry>, ask: Ask, reply: Reply)
    requires PaidFor(tenant, l, ask, reply)
    ensures Paid(tenant, l, ask)
  {
    var i, j :| ChargedAt(tenant, l, ask, reply, i, j);
    assert l[j].key == Key(tenant, ask, COMMIT);
  }

  lemma IssueGrows(tenant: Id, s: State, s': State, issue: Issue, op: W.Op)
    requires Extends(s, s') && IssueOk(tenant, s.wallet.ledger, s.answers, issue, op)
    ensures IssueOk(tenant, s'.wallet.ledger, s'.answers, issue, op)
  {
    if !issue.ForReserve? {
      ReservedForGrows(tenant, s.wallet.ledger, s'.wallet.ledger, issue.ask, op.r);
    }
  }

  lemma AttemptGrows(tenant: Id, s: State, s': State, at: Attempt)
    requires Extends(s, s') && AttemptOk(tenant, s.wallet.ledger, s.issued, at)
    ensures AttemptOk(tenant, s'.wallet.ledger, s'.issued, at)
  {
    if at.phase.Calling? {
      ReservedForGrows(tenant, s.wallet.ledger, s'.wallet.ledger, at.ask, at.phase.r);
    }
    match at.phase
    case Saving(reply) => PaidForGrows(tenant, s.wallet.ledger, s'.wallet.ledger, at.ask, reply);
    case Over(Saved(_, reply)) => PaidForGrows(tenant, s.wallet.ledger, s'.wallet.ledger, at.ask, reply);
    case Over(NotSaved(reply)) => PaidForGrows(tenant, s.wallet.ledger, s'.wallet.ledger, at.ask, reply);
    case Over(NotBuilt(reply)) => PaidForGrows(tenant, s.wallet.ledger, s'.wallet.ledger, at.ask, reply);
    case _ =>
  }

  lemma MadeHereGrows(s: State, s': State, e: Entry)
    requires Extends(s, s') && MadeHere(s, e)
    ensures MadeHere(s', e)
  {
    var c :| c in s.issued && c in s.wallet.calls && e == W.RowOf(s.wallet.calls[c].op, e.ref);
    assert c in s'.issued && c in s'.wallet.calls && e == W.RowOf(s'.wallet.calls[c].op, e.ref);
  }

  // ----- one lemma per part of the invariant

  lemma ArrivalExtends(s: State, s': State, c: nat, op: W.Op)
    requires W.Enabled(s.wallet, W.Arrive(c, op)) && s'.wallet == W.Do(s.wallet, W.Arrive(c, op))
    requires s.answers <= s'.answers && s.issued.Keys <= s.wallet.calls.Keys
    requires s'.issued == s.issued || (c in s'.issued && s'.issued == s.issued[c := s'.issued[c]])
    ensures Extends(s, s') && s'.issued.Keys <= s'.wallet.calls.Keys
  {
    ArrivalOnly(s.wallet, c, op);
  }

  lemma SameExtends(s: State, s': State)
    requires s'.wallet == s.wallet && s'.issued == s.issued && s'.answers == s.answers
    ensures Extends(s, s')
  {
  }

  lemma StepExtends(tenant: Id, s: State, step: Step)
    requires Inv(tenant, s) && Enabled(tenant, s, step)
    ensures Extends(s, Do(tenant, s, step))
    ensures Do(tenant, s, step).issued.Keys <= Do(tenant, s, step).wallet.calls.Keys
  {
    var s' := Do(tenant, s, step);
    match step
    case SendReserve(a, c, estimate) =>
      ArrivalExtends(s, s', c, W.DoReserve(estimate, Key(tenant, s.attempts[a].ask, RESERVE)));
    case ModelReturns(a, reply, c) =>
      ArrivalExtends(s, s', c, Next(tenant, s.attempts[a].ask, s.attempts[a].phase.r, reply));
    case Inside(step) =>
      if step.Arrive? {
        ArrivalExtends(s, s', step.c, step.op);
      } else {
        InsideKeeps(s.wallet, step);
      }
    case _ => SameExtends(s, s');
  }

  lemma StepKeepsWallet(tenant: Id, s: State, step: Step)
    requires Inv(tenant, s) && Enabled(tenant, s, step)
    ensures W.Inv(Do(tenant, s, step).wallet)
  {
    match step
    case SendReserve(a, c, estimate) =>
      W.StepKeepsInv(s.wallet, W.Arrive(c, W.DoReserve(estimate, Key(tenant, s.attempts[a].ask, RESERVE))));
    case ModelReturns(a, reply, c) =>
      W.StepKeepsInv(s.wallet, W.Arrive(c, Next(tenant, s.attempts[a].ask, s.attempts[a].phase.r, reply)));
    case Inside(step) => W.StepKeepsInv(s.wallet, step);
    case _ =>
  }

  lemma NewCallOk(tenant: Id, s: State, step: Step, c: nat)
    requires Inv(tenant, s) && Enabled(tenant, s, step)
    requires c in Do(tenant, s, step).wallet.calls && c !in s.wallet.calls
    ensures var s' := Do(tenant, s, step);
            if c in s'.issued then IssueOk(tenant, s'.wallet.ledger, s'.answers, s'.issued[c], s'.wallet.calls[c].op)
            else s'.wallet.calls[c].op.DoGrant? || s'.wallet.calls[c].op.DoMaster?
  {
    match step
    case SendReserve(a, d, estimate) =>
      ArrivalOnly(s.wallet, d, W.DoReserve(estimate, Key(tenant, s.attempts[a].ask, RESERVE)));
    case ModelReturns(a, reply, d) =>
      ArrivalOnly(s.wallet, d, Next(tenant, s.attempts[a].ask, s.attempts[a].phase.r, reply));
      assert AttemptOk(tenant, s.wallet.ledger, s.issued, s.attempts[a]);
    case Inside(step) =>
      if step.Arrive? {
        ArrivalOnly(s.wallet, step.c, step.op);
      } else {
        InsideKeeps(s.wallet, step);
      }
    case _ =>
  }

  lemma StepKeepsCalls(tenant: Id, s: State, step: Step)
    requires Inv(tenant, s) && Enabled(tenant, s, step)
    ensures CallsOk(tenant, Do(tenant, s, step))
  {
    var s' := Do(tenant, s, step);
    StepExtends(tenant, s, step);
    forall c | c in s'.wallet.calls
      ensures if c in s'.issued then IssueOk(tenant, s'.wallet.ledger, s'.answers, s'.issued[c], s'.wallet.calls[c].op)
              else s'.wallet.calls[c].op.DoGrant? || s'.wallet.calls[c].op.DoMaster?
    {
      if c !in s.wallet.calls {
        NewCallOk(tenant, s, step, c);
      } else if c in s.issued {
        IssueGrows(tenant, s, s', s.issued[c], s.wallet.calls[c].op);
      }
    }
  }

  /** A row other than a grant was not written by a grant. */
  lemma NotByGrant(op: W.Op, ref: string)
    ensures W.RowOf(op, ref).kind == Grant <==> op.DoGrant? || op.DoMaster?
  {
  }

  lemma NewRowMadeHere(tenant: Id, s: State, step: W.Step, i: int)
    requires W.Inv(s.wallet) && CallsOk(tenant, s)
    requires W.Enabled(s.wallet, step) && |s.wallet.ledger| <= i < |W.Do(s.wallet, step).ledger|
    requires W.Do(s.wallet, step).ledger[i].kind != Grant
    ensures MadeHere(s, W.Do(s.wallet, step).ledger[i])
  {
    var e := W.Do(s.wallet, step).ledger[i];
    NewRowsOfCalls(s.wallet, step, i);
    var c :| c in s.wallet.calls && e == W.RowOf(s.wallet.calls[c].op, e.ref);
    NotByGrant(s.wallet.calls[c].op, e.ref);
    assert c in s.issued;
  }

  lemma StepKeepsRows(tenant: Id, s: State, step: Step)
    requires Inv(tenant, s) && Enabled(tenant, s, step) && Extends(s, Do(tenant, s, step))
    ensures RowsOk(Do(tenant, s, step))
  {
    var s' := Do(tenant, s, step);
    var l, l' := s.wallet.ledger, s'.wallet.ledger;
    forall i | 0 <= i < |l'| && l'[i].kind != Grant
      ensures MadeHere(s', l'[i])
    {
      if i >= |l| {
        NewRowMadeHere(tenant, s, step.step, i);
      }
      MadeHereGrows(s, s', l'[i]);
    }
  }

  /** A wallet call that answered without failing left its row in the journal. */
  lemma AnswerHasRow(w: W.State, c: nat) returns (i: int)
    requires W.Inv(w) && W.Succeeded(w, c)
    ensures W.Wrote(w.ledger, i, w.calls[c].op, w.calls[c].phase.o)
    ensures w.calls[c].op.DoReserve? <==> w.calls[c].phase.o.Reserved?
  {
    assert W.CallOk(w.ledger, w.calls[c]);
    i :| W.Wrote(w.ledger, i, w.calls[c].op, w.calls[c].phase.o);
  }

  lemma ReserveAnswered(tenant: Id, s: State, ask: Ask, c: nat)
    requires Inv(tenant, s) && Answered(s, c) && c in s.issued && s.issued[c] == ForReserve(ask)
    ensures !s.wallet.calls[c].phase.o.Ok?
    ensures var phase := AfterReserve(s.wallet.calls[c].phase.o);
            phase.Calling? ==>
              ReservedFor(tenant, s.wallet.ledger, ask, phase.r) && W.CheckKey(Key(tenant, ask, RESERVE)).None?
  {
    var call, l := s.wallet.calls[c], s.wallet.ledger;
    assert IssueOk(tenant, l, s.answers, s.issued[c], call.op) && W.CallOk(l, call);
    if call.phase.o.Reserved? {
      var i := AnswerHasRow(s.wallet, c);
      assert l[i] == W.RowOf(W.DoReserve(call.op.amount, Key(tenant, ask, RESERVE)), l[i].ref);
    }
  }

  lemma CommitAnswered(tenant: Id, s: State, ask: Ask, reply: Reply, c: nat)
    requires Inv(tenant, s) && W.Succeeded(s.wallet, c) && c in s.issued && s.issued[c] == ForCommit(ask, reply)
    ensures PaidFor(tenant, s.wallet.ledger, ask, reply)
  {
    var l, op := s.wallet.ledger, s.wallet.calls[c].op;
    assert IssueOk(tenant, l, s.answers, s.issued[c], op);
    var j := AnswerHasRow(s.wallet, c);
    CommitRowPays(tenant, l, ask, reply, op, j);
  }

  lemma CommitRowPays(tenant: Id, l: seq<Entry>, ask: Ask, reply: Reply, op: W.Op, j: int)
    requires op.DoCommit? && op == Next(tenant, ask, op.r, Some(reply)) && ReservedFor(tenant, l, ask, op.r)
    requires W.Wrote(l, j, op, W.Ok)
    ensures PaidFor(tenant, l, ask, reply)
  {
    var i :| 0 <= i < |l| && l[i] == W.RowOf(W.DoReserve(op.r.amount, Key(tenant, ask, RESERVE)), op.r.id);
    assert ChargedAt(tenant, l, ask, reply, i, j);
  }

  lemma PersistedOk(tenant: Id, at: Attempt, reply: Reply, fails: bool)
    requires tenant != NIL_ID && at.ask.conversation != NIL_ID
    ensures match Persisted(tenant, at, reply, fails)
            case Saved(row, r) => r == reply && !fails && Buildable(at.model, reply) && Summary(tenant, at, reply) == C.Ok(row)
            case NotSaved(r) => r == reply && fails && Buildable(at.model, reply)
            case NotBuilt(r) => r == reply && !Buildable(at.model, reply)
            case _ => false
  {
  }

  lemma StepKeepsItsAttempt(tenant: Id, s: State, step: Step)
    requires Inv(tenant, s) && Enabled(tenant, s, step)
    requires !step.InvalidateAt? && !step.Inside? && !step.Begin?
    ensures var s' := Do(tenant, s, step);
            step.a in s'.attempts && AttemptOk(tenant, s'.wallet.ledger, s'.issued, s'.attempts[step.a])
  {
    var at := s.attempts[step.a];
    assert AttemptOk(tenant, s.wallet.ledger, s.issued, at);
    match step
    case GetReserve(a) => ReserveAnswered(tenant, s, at.ask, at.phase.c);
    case GetCommit(a) =>
      if W.Succeeded(s.wallet, at.phase.c) {
        CommitAnswered(tenant, s, at.ask, at.phase.reply, at.phase.c);
      }
    case SendReserve(_, c, estimate) => ArrivalOnly(s.wallet, c, W.DoReserve(estimate, Key(tenant, at.ask, RESERVE)));
    case ModelReturns(_, reply, c) => ArrivalOnly(s.wallet, c, Next(tenant, at.ask, at.phase.r, reply));
    case Persist(_, fails) => PersistedOk(tenant, at, at.phase.reply, fails);
    case _ =>
  }

  lemma StepKeepsAttempts(tenant: Id, s: State, step: Step)
    requires Inv(tenant, s) && Enabled(tenant, s, step)
    ensures AttemptsOk(tenant, Do(tenant, s, step))
  {
    var s' := Do(tenant, s, step);
    StepExtends(tenant, s, step);
    if !step.InvalidateAt? && !step.Inside? && !step.Begin? {
      StepKeepsItsAttempt(tenant, s, step);
    }
    forall a | a in s'.attempts
      ensures AttemptOk(tenant, s'.wallet.ledger, s'.issued, s'.attempts[a])
    {
      if a in s.attempts && s'.attempts[a] == s.attempts[a] {
        AttemptGrows(tenant, s, s', s.attempts[a]);
      }
    }
  }

  lemma StepKeepsInv(tenant: Id, s: State, step: Step)
    requires Inv(tenant, s) && Enabled(tenant, s, step)
    ensures Inv(tenant, Do(tenant, s, step))
  {
    StepExtends(tenant, s, step);
    StepKeepsWallet(tenant, s, step);
    StepKeepsCalls(tenant, s, step);
    StepKeepsRows(tenant, s, step);
    StepKeepsAttempts(tenant, s, step);
  }

  // ----- whole runs

  const INIT := State(W.State(Wallet(0, 0, 0), [], map[]), map[], map[], {}, [])

  ghost predicate Run(tenant: Id, ss: seq<State>, steps: seq<Step>) {
    && |tenant| == UUID_LENGTH && |ss| == |steps| + 1 && ss[0] == INIT
    && forall i :: 0 <= i < |steps| ==> Follows(tenant, ss[i], steps[i], ss[i + 1])
  }

  ghost predicate Follows(tenant: Id, s: State, step: Step, s': State) {
    Enabled(tenant, s, step) && s' == Do(tenant, s, step)
  }

  lemma {:induction false} ReachableInv(tenant: Id, ss: seq<State>, steps: seq<Step>, n: nat)
    requires Run(tenant, ss, steps) && n < |ss|
    ensures Inv(tenant, ss[n])
    decreases n
  {
    if n > 0 {
      ReachableInv(tenant, ss, steps, n - 1);
      assert Follows(tenant, ss[n - 1], steps[n - 1], ss[n]);
      StepKeepsInv(tenant, ss[n - 1], steps[n - 1]);
    }
  }

  lemma NextExtends(tenant: Id, ss: seq<State>, steps: seq<Step>, n: nat)
    requires Run(tenant, ss, steps) && n < |steps|
    ensures Extends(ss[n], ss[n + 1])
  {
    ReachableInv(tenant, ss, steps, n);
    assert Follows(tenant, ss[n], steps[n], ss[n + 1]);
    StepExtends(tenant, ss[n], steps[n]);
  }

  lemma PrefixTrans(l: seq<Entry>, m: seq<Entry>, n: seq<Entry>)
    requires l <= m && m <= n
    ensures l <= n
  {
  }

  /** The journal only ever grows. */
  lemma {:induction false} LedgerGrows(tenant: Id, ss: seq<State>, steps: seq<Step>, m: nat, n: nat)
    requires Run(tenant, ss, steps) && m <= n < |ss|
    ensures ss[m].wallet.ledger <= ss[n].wallet.ledger
    decreases n
  {
    if m < n {
      LedgerGrows(tenant, ss, steps, m, n - 1);
      NextExtends(tenant, ss, steps, n - 1);
      PrefixTrans(ss[m].wallet.ledger, ss[n - 1].wallet.ledger, ss[n].wallet.ledger);
    }
  }

  /**
   What was reserved can always be settled: when the model call returns, the handle is genuine and the
   wallet refuses neither the release nor the clamped commit for its amount or its key.
   */
  lemma ReservedCanBeSettled(tenant: Id, ss: seq<State>, steps: seq<Step>, n: nat, a: nat, reply: Option<Reply>, c: nat)
    requires Run(tenant, ss, steps) && n < |ss|
    requires a in ss[n].attempts && ss[n].attempts[a].phase.Calling? && c !in ss[n].wallet.calls
    ensures Enabled(tenant, ss[n], ModelReturns(a, reply, c))
    ensures W.Rejection(Next(tenant, ss[n].attempts[a].ask, ss[n].attempts[a].phase.r, reply)).None?
  {
    ReachableInv(tenant, ss, steps, n);
    AttemptCanSettle(tenant, ss[n].wallet.ledger, ss[n].issued, ss[n].attempts[a], reply);
  }

  lemma AttemptCanSettle(tenant: Id, l: seq<Entry>, issued: map<nat, Issue>, at: Attempt, reply: Option<Reply>)
    requires |tenant| == UUID_LENGTH && WellFormed(l) && AttemptOk(tenant, l, issued, at) && at.phase.Calling?
    ensures Opened(l, at.phase.r.id, at.phase.r.amount)
    ensures W.Rejection(Next(tenant, at.ask, at.phase.r, reply)).None?
  {
    var r := at.phase.r;
    var i :| 0 <= i < |l| && l[i] == W.RowOf(W.DoReserve(r.amount, Key(tenant, at.ask, RESERVE)), r.id);
    assert ReservedAt(l, i, r.id, r.amount) && Signed(l[i]);
    KeysFitTogether(tenant, at.ask);
  }
}
