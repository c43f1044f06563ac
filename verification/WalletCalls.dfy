/**
 Wallet calls that nobody disturbs (internal/wallet/usecase): from any reachable state, a call whose steps run
 without another's in between does exactly what its sequential description says.
 */
module WalletCalls {
  import opened Options
  import opened WalletLedger
  import W = WalletService

  // ----- the wallet, with nobody else moving

  /** What a wallet step leaves, step by step. */
  ghost predicate WalletPath(ws: seq<W.State>, steps: seq<W.Step>) {
    && |ws| == |steps| + 1
    && forall i :: 0 <= i < |steps| ==> W.Enabled(ws[i], steps[i]) && ws[i + 1] == W.Do(ws[i], steps[i])
  }

  /** The wallet once call c has written the row e, on an untouched wallet. */
  ghost function Landed(w: W.State, c: nat, op: W.Op, row: Wallet, e: Entry): W.State {
    W.State(row, w.ledger + [e], w.calls[c := W.Call(op, W.Done(W.Answer(op, e)), 0, |w.ledger|)])
  }

  /** No reservation has this id. */
  predicate NewRef(l: seq<Entry>, id: string) {
    forall i :: 0 <= i < |l| && l[i].kind == Reserve ==> l[i].ref != id
  }

  lemma ReserveLands(w: W.State, c: nat, op: W.Op, id: string) returns (ws: seq<W.State>)
    requires op.DoReserve? && W.Rejection(op).None? && c !in w.calls && !HasKey(w.ledger, op.key)
    requires ReserveOn(w.row, op.amount).Applied?
    requires NewRef(w.ledger, id)
    ensures W.Enabled(w, W.Arrive(c, op)) && WalletPath(ws, [W.Load(c), W.LookUp(c, id), W.Apply(c, true)])
    ensures ws[0] == W.Do(w, W.Arrive(c, op))
    ensures ws[3] == Landed(w, c, op, ReserveOn(w.row, op.amount).w, W.RowOf(op, id))
  {
    var w0 := W.Do(w, W.Arrive(c, op));
    var w1 := W.Do(w0, W.Load(c));
    var w2 := W.Do(w1, W.LookUp(c, id));
    var w3 := W.Do(w2, W.Apply(c, true));
    ws := [w0, w1, w2, w3];
  }

  lemma CommitLands(w: W.State, c: nat, op: W.Op, id: string) returns (ws: seq<W.State>)
    requires op.DoCommit? && W.Rejection(op).None? && c !in w.calls && !HasKey(w.ledger, op.key)
    requires Opened(w.ledger, op.r.id, op.r.amount) && !Settled(w.ledger, op.r.id)
    requires CommitOn(w.row, op.actual, op.r.amount).Applied?
    requires NewRef(w.ledger, id)
    ensures W.Enabled(w, W.Arrive(c, op))
    ensures WalletPath(ws, [W.Load(c), W.LookUp(c, id), W.LookUpSettled(c), W.Apply(c, true)])
    ensures ws[0] == W.Do(w, W.Arrive(c, op))
    ensures ws[4] == Landed(w, c, op, CommitOn(w.row, op.actual, op.r.amount).w, W.RowOf(op, ""))
  {
    var w0 := W.Do(w, W.Arrive(c, op));
    var w1 := W.Do(w0, W.Load(c));
    var w2 := W.Do(w1, W.LookUp(c, id));
    var w3 := W.Do(w2, W.LookUpSettled(c));
    var w4 := W.Do(w3, W.Apply(c, true));
    ws := [w0, w1, w2, w3, w4];
  }

  // ----- the wallet answers from its journal

  /** The wallet once call c has been answered without a row of its own. */
  ghost function AnsweredBy(w: W.State, c: nat, op: W.Op, o: W.Outcome): W.State {
    w.(calls := w.calls[c := W.Call(op, W.Done(o), 0, |w.ledger|)])
  }

  ghost predicate MaySend(w: W.State, c: nat, op: W.Op) {
    W.Enabled(w, W.Arrive(c, op)) && W.Rejection(op).None? && !op.DoMaster?
  }

  /** A key that has a row is answered from it. */
  lemma Replays(w: W.State, c: nat, op: W.Op, id: string) returns (ws: seq<W.State>)
    requires MaySend(w, c, op) && HasKey(w.ledger, op.key) && NewRef(w.ledger, id)
    ensures WalletPath(ws, [W.Load(c), W.LookUp(c, id)]) && ws[0] == W.Do(w, W.Arrive(c, op))
    ensures ws[2] == AnsweredBy(w, c, op, W.Replayed(op, w.ledger[W.RowWithKey(w.ledger, op.key)]))
  {
    var w0 := W.Do(w, W.Arrive(c, op));
    var w1 := W.Do(w0, W.Load(c));
    var w2 := W.Do(w1, W.LookUp(c, id));
    ws := [w0, w1, w2];
  }

  /** A settlement of a settled reservation is refused. */
  lemma Refuses(w: W.State, c: nat, op: W.Op, id: string) returns (ws: seq<W.State>)
    requires MaySend(w, c, op) && !HasKey(w.ledger, op.key) && NewRef(w.ledger, id)
    requires (op.DoCommit? || op.DoRelease?) && Settled(w.ledger, op.r.id)
    ensures WalletPath(ws, [W.Load(c), W.LookUp(c, id), W.LookUpSettled(c)]) && ws[0] == W.Do(w, W.Arrive(c, op))
    ensures ws[3] == AnsweredBy(w, c, op, W.Failed(W.Completed))
  {
    var w0 := W.Do(w, W.Arrive(c, op));
    var w1 := W.Do(w0, W.Load(c));
    var w2 := W.Do(w1, W.LookUp(c, id));
    var w3 := W.Do(w2, W.LookUpSettled(c));
    ws := [w0, w1, w2, w3];
  }

  lemma ReleaseLands(w: W.State, c: nat, op: W.Op, id: string) returns (ws: seq<W.State>)
    requires MaySend(w, c, op) && op.DoRelease? && !HasKey(w.ledger, op.key) && NewRef(w.ledger, id)
    requires !Settled(w.ledger, op.r.id) && ReleaseOn(w.row, op.r.amount).Applied?
    ensures WalletPath(ws, [W.Load(c), W.LookUp(c, id), W.LookUpSettled(c), W.Apply(c, true)])
    ensures ws[0] == W.Do(w, W.Arrive(c, op))
    ensures ws[4] == Landed(w, c, op, ReleaseOn(w.row, op.r.amount).w, W.RowOf(op, ""))
  {
    var w0 := W.Do(w, W.Arrive(c, op));
    var w1 := W.Do(w0, W.Load(c));
    var w2 := W.Do(w1, W.LookUp(c, id));
    var w3 := W.Do(w2, W.LookUpSettled(c));
    var w4 := W.Do(w3, W.Apply(c, true));
    ws := [w0, w1, w2, w3, w4];
  }

  /** The steps of call d by itself, none of them failing. */
  predicate OwnStep(w: W.Step, d: nat) {
    (w.Load? || w.LookUp? || w.LookUpSettled? || (w.Apply? && w.acked)) && w.c == d
  }

  predicate OwnSteps(wsteps: seq<W.Step>, d: nat) {
    forall i :: 0 <= i < |wsteps| ==> OwnStep(wsteps[i], d)
  }

  /** What the journal says to a commit. */
  ghost function CommitOutcome(l: seq<Entry>, op: W.Op): W.Outcome
    requires op.DoCommit?
  {
    if HasKey(l, op.key) then W.Replayed(op, l[W.RowWithKey(l, op.key)])
    else if Settled(l, op.r.id) then W.Failed(W.Completed)
    else W.Ok
  }

  /** The row a commit adds, if it is not answered from the journal. */
  ghost function Written(l: seq<Entry>, op: W.Op): seq<Entry>
    requires op.DoCommit?
  {
    if HasKey(l, op.key) || Settled(l, op.r.id) then [] else [W.RowOf(op, "")]
  }

  /** The wallet's side of a commit that nobody disturbs. */
  lemma CommitAnswers(w: W.State, d: nat, op: W.Op, id: string) returns (ws: seq<W.State>, wsteps: seq<W.Step>)
    requires MaySend(w, d, op) && op.DoCommit? && NewRef(w.ledger, id)
    requires !Settled(w.ledger, op.r.id) ==> CommitOn(w.row, op.actual, op.r.amount).Applied?
    ensures WalletPath(ws, wsteps) && ws[0] == W.Do(w, W.Arrive(d, op)) && OwnSteps(wsteps, d)
    ensures var last := ws[|wsteps|];
            && d in last.calls && last.calls[d].phase == W.Done(CommitOutcome(w.ledger, op))
            && last.ledger == w.ledger + Written(w.ledger, op)
  {
    if HasKey(w.ledger, op.key) {
      wsteps := [W.Load(d), W.LookUp(d, id)];
      ws := Replays(w, d, op, id);
    } else if Settled(w.ledger, op.r.id) {
      wsteps := [W.Load(d), W.LookUp(d, id), W.LookUpSettled(d)];
      ws := Refuses(w, d, op, id);
    } else {
      wsteps := [W.Load(d), W.LookUp(d, id), W.LookUpSettled(d), W.Apply(d, true)];
      ws := CommitLands(w, d, op, id);
    }
  }

  // ----- every call by itself

  /** What a call comes to when nobody disturbs it: the new row, what the journal gains, and the answer. */
  datatype Effect = Effect(row: Wallet, added: seq<Entry>, o: W.Outcome)

  function Nothing(w: W.State, o: W.Outcome): Effect {
    Effect(w.row, [], o)
  }

  predicate GoodKey(key: string) {
    1 <= |key| <= 128
  }

  function BadKey(key: string): W.Error {
    if |key| == 0 then W.EmptyKey else W.KeyTooLong
  }

  ghost function AloneReserve(w: W.State, amount: int, key: string, id: string): Effect {
    var Wallet(balance, reserved, version) := w.row;
    if amount <= 0 then Nothing(w, W.Failed(W.BadAmount))
    else if !GoodKey(key) then Nothing(w, W.Failed(BadKey(key)))
    else if HasKey(w.ledger, key) then
      var prior := w.ledger[W.RowWithKey(w.ledger, key)];
      Nothing(w, if prior.kind == Reserve && prior.amount == -amount then W.Reserved(W.Reservation(prior.ref, amount))
                 else W.Failed(W.IdempotencyConflict))
    else if balance < reserved + amount then Nothing(w, W.Failed(W.Insufficient))
    else Effect(Wallet(balance, reserved + amount, version + 1), [Entry(Reserve, -amount, key, id)], W.Reserved(W.Reservation(id, amount)))
  }

  ghost function AloneCommit(w: W.State, r: W.Reservation, actual: int, key: string): Effect {
    var Wallet(balance, reserved, version) := w.row;
    if actual <= 0 || actual > r.amount then Nothing(w, W.Failed(W.BadAmount))
    else if !GoodKey(key) then Nothing(w, W.Failed(BadKey(key)))
    else if HasKey(w.ledger, key) then
      Nothing(w, if w.ledger[W.RowWithKey(w.ledger, key)] == Entry(Commit, -actual, key, r.id) then W.Ok
                 else W.Failed(W.IdempotencyConflict))
    else if Settled(w.ledger, r.id) then Nothing(w, W.Failed(W.Completed))
    else Effect(Wallet(balance - actual, reserved - r.amount, version + 1), [Entry(Commit, -actual, key, r.id)], W.Ok)
  }

  ghost function AloneRelease(w: W.State, r: W.Reservation, key: string): Effect {
    var Wallet(balance, reserved, version) := w.row;
    if !GoodKey(key) then Nothing(w, W.Failed(BadKey(key)))
    else if HasKey(w.ledger, key) then
      Nothing(w, if w.ledger[W.RowWithKey(w.ledger, key)] == Entry(Release, r.amount, key, r.id) then W.Ok
                 else W.Failed(W.IdempotencyConflict))
    else if Settled(w.ledger, r.id) then Nothing(w, W.Failed(W.Completed))
    else Effect(Wallet(balance, reserved - r.amount, version + 1), [Entry(Release, r.amount, key, r.id)], W.Ok)
  }

  ghost function AloneGrant(w: W.State, amount: int, key: string, ref: string): Effect {
    var Wallet(balance, reserved, version) := w.row;
    if amount <= 0 then Nothing(w, W.Failed(W.BadAmount))
    else if !GoodKey(key) then Nothing(w, W.Failed(BadKey(key)))
    else if HasKey(w.ledger, key) then
      var prior := w.ledger[W.RowWithKey(w.ledger, key)];
      Nothing(w, if prior.kind == Grant && prior.amount == amount then W.Ok else W.Failed(W.IdempotencyConflict))
    else if balance + amount > 0x7FFF_FFFF_FFFF_FFFF then Nothing(w, W.Failed(W.BadAmount))
    else Effect(Wallet(balance + amount, reserved, version + 1), [Entry(Grant, amount, key, ref)], W.Ok)
  }

  /** A master grant checks its amount only; a key that has a row stops it at the last moment. */
  ghost function AloneMaster(w: W.State, amount: int, key: string, ref: string): Effect {
    var Wallet(balance, reserved, version) := w.row;
    if amount <= 0 || balance + amount > 0x7FFF_FFFF_FFFF_FFFF then Nothing(w, W.Failed(W.BadAmount))
    else if HasKey(w.ledger, key) then Nothing(w, W.Failed(W.IdempotencyConflict))
    else Effect(Wallet(balance + amount, reserved, version + 1), [Entry(Grant, amount, key, ref)], W.Ok)
  }

  ghost function Alone(w: W.State, op: W.Op, id: string): Effect {
    match op
    case DoReserve(amount, key) => AloneReserve(w, amount, key, id)
    case DoCommit(r, actual, key) => AloneCommit(w, r, actual, key)
    case DoRelease(r, key) => AloneRelease(w, r, key)
    case DoGrant(amount, key, ref) => AloneGrant(w, amount, key, ref)
    case DoMaster(amount, key, ref) => AloneMaster(w, amount, key, ref)
  }

  /** The wallet after a call that had this effect. */
  ghost predicate Had(w: W.State, w': W.State, c: nat, op: W.Op, e: Effect) {
    && w'.row == e.row && w'.ledger == w.ledger + e.added
    && w'.calls.Keys == w.calls.Keys + {c} && w'.calls[c].op == op && w'.calls[c].phase == W.Done(e.o)
    && forall d :: d in w.calls && d != c ==> w'.calls[d] == w.calls[d]
  }

  lemma HadNothing(w: W.State, c: nat, op: W.Op, o: W.Outcome)
    requires c !in w.calls
    ensures Had(w, AnsweredBy(w, c, op, o), c, op, Nothing(w, o))
  {
    assert w.ledger + [] == w.ledger;
  }

  /** Refused before the repository is asked. */
  lemma RefusedAtOnce(w: W.State, c: nat, op: W.Op)
    requires W.Enabled(w, W.Arrive(c, op)) && W.Rejection(op).Some?
    ensures W.Do(w, W.Arrive(c, op)) == AnsweredBy(w, c, op, W.Failed(W.Rejection(op).value))
  {
  }

  /** A reservation the wallet cannot afford, or a grant it has no room for, stops at the lookup. */
  lemma StopsAtLookUp(w: W.State, c: nat, op: W.Op, id: string) returns (ws: seq<W.State>)
    requires MaySend(w, c, op) && (op.DoReserve? || op.DoGrant?) && !HasKey(w.ledger, op.key) && NewRef(w.ledger, id)
    requires W.MutationOf(op, w.row).Refused? && W.MutationOf(op, w.row).why != VersionConflict
    ensures WalletPath(ws, [W.Load(c), W.LookUp(c, id)]) && ws[0] == W.Do(w, W.Arrive(c, op))
    ensures ws[2] == AnsweredBy(w, c, op, W.Failed(if W.MutationOf(op, w.row).why == InvalidAmount then W.BadAmount else W.Insufficient))
  {
    var w0 := W.Do(w, W.Arrive(c, op));
    var w1 := W.Do(w0, W.Load(c));
    var w2 := W.Do(w1, W.LookUp(c, id));
    ws := [w0, w1, w2];
  }

  lemma GrantLands(w: W.State, c: nat, op: W.Op, id: string) returns (ws: seq<W.State>)
    requires MaySend(w, c, op) && op.DoGrant? && !HasKey(w.ledger, op.key) && NewRef(w.ledger, id)
    requires GrantOn(w.row, op.amount).Applied?
    ensures WalletPath(ws, [W.Load(c), W.LookUp(c, id), W.Apply(c, true)]) && ws[0] == W.Do(w, W.Arrive(c, op))
    ensures ws[3] == Landed(w, c, op, GrantOn(w.row, op.amount).w, W.RowOf(op, id))
  {
    var w0 := W.Do(w, W.Arrive(c, op));
    var w1 := W.Do(w0, W.Load(c));
    var w2 := W.Do(w1, W.LookUp(c, id));
    var w3 := W.Do(w2, W.Apply(c, true));
    ws := [w0, w1, w2, w3];
  }

  /** A master grant loads and applies; a taken key is met by the unique index. */
  lemma MasterGoes(w: W.State, c: nat, op: W.Op) returns (ws: seq<W.State>, wsteps: seq<W.Step>)
    requires W.Enabled(w, W.Arrive(c, op)) && W.Rejection(op).None? && op.DoMaster?
    ensures WalletPath(ws, wsteps) && ws[0] == W.Do(w, W.Arrive(c, op)) && OwnSteps(wsteps, c)
    ensures ws[|wsteps|] == if GrantOn(w.row, op.amount).Refused? then AnsweredBy(w, c, op, W.Failed(W.BadAmount))
                            else if HasKey(w.ledger, op.key) then AnsweredBy(w, c, op, W.Failed(W.IdempotencyConflict))
                            else Landed(w, c, op, GrantOn(w.row, op.amount).w, W.RowOf(op, ""))
  {
    var w0 := W.Do(w, W.Arrive(c, op));
    var w1 := W.Do(w0, W.Load(c));
    if GrantOn(w.row, op.amount).Refused? {
      ws, wsteps := [w0, w1], [W.Load(c)];
    } else {
      var w2 := W.Do(w1, W.Apply(c, true));
      ws, wsteps := [w0, w1, w2], [W.Load(c), W.Apply(c, true)];
    }
  }

  /** A path that ends in the effect the sequential description gives. */
  ghost predicate Does(w: W.State, c: nat, op: W.Op, id: string, ws: seq<W.State>, wsteps: seq<W.Step>) {
    && WalletPath(ws, wsteps) && W.Enabled(w, W.Arrive(c, op)) && ws[0] == W.Do(w, W.Arrive(c, op)) && OwnSteps(wsteps, c)
    && Had(w, ws[|wsteps|], c, op, Alone(w, op, id))
  }

  lemma ReserveOrGrantAlone(w: W.State, c: nat, op: W.Op, id: string) returns (ws: seq<W.State>, wsteps: seq<W.Step>)
    requires MaySend(w, c, op) && (op.DoReserve? || op.DoGrant?) && NewRef(w.ledger, id)
    ensures Does(w, c, op, id, ws, wsteps)
  {
    if HasKey(w.ledger, op.key) {
      wsteps := [W.Load(c), W.LookUp(c, id)];
      ws := Replays(w, c, op, id);
    } else if W.MutationOf(op, w.row).Refused? {
      wsteps := [W.Load(c), W.LookUp(c, id)];
      ws := StopsAtLookUp(w, c, op, id);
    } else {
      wsteps := [W.Load(c), W.LookUp(c, id), W.Apply(c, true)];
      if op.DoReserve? {
        ws := ReserveLands(w, c, op, id);
      } else {
        ws := GrantLands(w, c, op, id);
      }
    }
    assert w.ledger + [] == w.ledger;
  }

  lemma SettlementAlone(w: W.State, c: nat, op: W.Op, id: string) returns (ws: seq<W.State>, wsteps: seq<W.Step>)
    requires MaySend(w, c, op) && (op.DoCommit? || op.DoRelease?) && NewRef(w.ledger, id)
    requires !Settled(w.ledger, op.r.id) ==> W.MutationOf(op, w.row).Applied?
    ensures Does(w, c, op, id, ws, wsteps)
  {
    if HasKey(w.ledger, op.key) {
      wsteps := [W.Load(c), W.LookUp(c, id)];
      ws := Replays(w, c, op, id);
    } else if Settled(w.ledger, op.r.id) {
      wsteps := [W.Load(c), W.LookUp(c, id), W.LookUpSettled(c)];
      ws := Refuses(w, c, op, id);
    } else {
      wsteps := [W.Load(c), W.LookUp(c, id), W.LookUpSettled(c), W.Apply(c, true)];
      if op.DoCommit? {
        ws := CommitLands(w, c, op, id);
      } else {
        ws := ReleaseLands(w, c, op, id);
      }
    }
    assert w.ledger + [] == w.ledger;
  }

  lemma SettlementApplies(w: W.State, op: W.Op)
    requires W.Inv(w) && (op.DoCommit? || op.DoRelease?) && W.Rejection(op).None?
    requires Opened(w.ledger, op.r.id, op.r.amount) && !Settled(w.ledger, op.r.id)
    ensures W.MutationOf(op, w.row).Applied?
  {
    OpenedIsSigned(w.ledger, op.r.id, op.r.amount);
    SettleNeverRefused(w.ledger, op.r.id, op.r.amount, if op.DoCommit? then op.actual else op.r.amount);
  }

  /** From every state the wallet can be in, every call that nobody disturbs does what its description says. */
  lemma CallAlone(w: W.State, c: nat, op: W.Op, id: string) returns (ws: seq<W.State>, wsteps: seq<W.Step>)
    requires W.Inv(w) && W.Enabled(w, W.Arrive(c, op)) && NewRef(w.ledger, id)
    ensures Does(w, c, op, id, ws, wsteps)
  {
    if W.Rejection(op).Some? {
      RefusedAtOnce(w, c, op);
      HadNothing(w, c, op, W.Failed(W.Rejection(op).value));
      ws, wsteps := [W.Do(w, W.Arrive(c, op))], [];
    } else if op.DoMaster? {
      ws, wsteps := MasterGoes(w, c, op);
      assert w.ledger + [] == w.ledger;
    } else if op.DoReserve? || op.DoGrant? {
      ws, wsteps := ReserveOrGrantAlone(w, c, op, id);
    } else {
      if !Settled(w.ledger, op.r.id) {
        SettlementApplies(w, op);
      }
      ws, wsteps := SettlementAlone(w, c, op, id);
    }
  }

  lemma RunGoesOn(ss: seq<W.State>, steps: seq<W.Step>, ws: seq<W.State>, wsteps: seq<W.Step>)
    requires W.Run(ss, steps) && WalletPath(ws, wsteps) && ws[0] == ss[|steps|]
    ensures W.Run(ss + ws[1..], steps + wsteps) && (ss + ws[1..])[|steps| + |wsteps|] == ws[|wsteps|]
  {
    var all, those := ss + ws[1..], steps + wsteps;
    assert forall i :: 0 <= i < |ws| ==> all[|steps| + i] == ws[i];
    forall i | 0 <= i < |those| ensures W.Enabled(all[i], those[i]) && all[i + 1] == W.Do(all[i], those[i]) {
      if i >= |steps| {
        assert all[i] == ws[i - |steps|] && all[i + 1] == ws[i - |steps| + 1];
      }
    }
  }

  /** The same in every run: any call can be made next, and left alone it does what its description says. */
  lemma CallAloneInRun(ss: seq<W.State>, steps: seq<W.Step>, c: nat, op: W.Op, id: string)
    returns (ss': seq<W.State>, own: seq<W.Step>)
    requires W.Run(ss, steps) && W.Enabled(ss[|steps|], W.Arrive(c, op)) && NewRef(ss[|steps|].ledger, id)
    ensures OwnSteps(own, c) && W.Run(ss', steps + [W.Arrive(c, op)] + own)
    ensures Had(ss[|steps|], ss'[|ss'| - 1], c, op, Alone(ss[|steps|], op, id))
  {
    W.ReachableInv(ss, steps, |steps|);
    var w := ss[|steps|];
    var ws, wsteps := CallAlone(w, c, op, id);
    own := wsteps;
    var all, those := [w] + ws, [W.Arrive(c, op)] + wsteps;
    forall i | 0 <= i < |those| ensures W.Enabled(all[i], those[i]) && all[i + 1] == W.Do(all[i], those[i]) {
      if i > 0 {
        assert all[i] == ws[i - 1] && all[i + 1] == ws[i] && those[i] == wsteps[i - 1];
      }
    }
    RunGoesOn(ss, steps, all, those);
    ss' := ss + all[1..];
    assert steps + those == steps + [W.Arrive(c, op)] + own;
  }

  /**
   A call that wrote its row, made again: the same answer and no second row. Asked for another amount under the
   same key, it conflicts. Only a master grant conflicts with itself.
   */
  lemma MadeAgain(w: W.State, op: W.Op, id: string, w': W.State, again: W.Op, id': string)
    requires Alone(w, op, id).added != [] && w'.ledger == w.ledger + Alone(w, op, id).added && again.key == op.key
    ensures again == op ==> Alone(w', again, id') == Nothing(w', if op.DoMaster? then Alone(w', again, id').o else Alone(w, op, id).o)
    ensures op.DoMaster? && again == op ==> Alone(w', again, id').o.Failed?
    ensures op.DoGrant? && again.DoGrant? && again.amount > 0 ==>
              Alone(w', again, id') == Nothing(w', if again.amount == op.amount then W.Ok else W.Failed(W.IdempotencyConflict))
    ensures op.DoReserve? && again.DoReserve? && again.amount > 0 && again.amount != op.amount ==>
              Alone(w', again, id') == Nothing(w', W.Failed(W.IdempotencyConflict))
  {
    var e := Alone(w, op, id).added[0];
    assert !HasKey(w.ledger, op.key) && e.key == op.key;
    assert w'.ledger[|w.ledger|] == e;
    assert HasKey(w'.ledger, op.key);
    assert w'.ledger[W.RowWithKey(w'.ledger, op.key)] == e;
  }
}
