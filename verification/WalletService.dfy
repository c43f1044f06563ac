/**
 The wallet use cases under concurrency (internal/wallet/usecase).

 Any number of Reserve, Commit, Release and Grant calls run at once against
 one wallet. Each repository call (load, the two lookups, ApplyWithLock) is
 one atomic step; between the steps of a call every other call may move.
 Nothing stops a call from working on a stale copy of the wallet: only the
 version check inside ApplyWithLock does.
 */
module WalletService {
  import opened Options
  import opened WalletLedger

  const MAX_ATTEMPTS := 256
  const MAX_KEY := 128

  datatype Reservation = Reservation(id: string, amount: int)

  datatype Op =
    | DoReserve(amount: int, key: string)
    | DoCommit(r: Reservation, actual: int, key: string)
    | DoRelease(r: Reservation, key: string)
    | DoGrant(amount: int, key: string, ref: string)
    | DoMaster(amount: int, key: string, ref: string)  // the master grant applier's own load and apply

  datatype Error =
    | BadAmount
    | EmptyKey
    | KeyTooLong
    | IdempotencyConflict
    | Insufficient
    | Completed
    | Exhausted
    | Stale
    | Storage

  datatype Outcome = Reserved(r: Reservation) | Ok | Failed(e: Error)

  /** Where a call stands. `Looking`, `Checking` and `Applying` carry its copy of the wallet. */
  datatype Phase =
    | Loading
    | Looking(w: Wallet)
    | Checking(w: Wallet)
    | Applying(w: Wallet, e: Entry)
    | Done(o: Outcome)

  /** `arrived` is the journal length when the call began; it is bookkeeping for the theorems. */
  datatype Call = Call(op: Op, phase: Phase, attempt: nat, arrived: nat)

  datatype State = State(row: Wallet, ledger: seq<Entry>, calls: map<nat, Call>)

  datatype Step =
    | Arrive(c: nat, op: Op)
    | Load(c: nat)
    | LookUp(c: nat, id: string)      // LookupByIdempotencyKey; `id` is the uuid a new reservation would get
    | LookUpSettled(c: nat)              // LookupCompletedByExternalRef
    | Apply(c: nat, acked: bool)         // ApplyWithLock; not acked: it took effect but the caller sees an error
    | Break(c: nat)                      // a repository call fails without effect
    | Allocate(amount: int, key: string) // the monthly allocator's own transaction

  // ----- one call, step by step

  function CheckKey(key: string): Option<Error> {
    if key == "" then Some(EmptyKey) else if |key| > MAX_KEY then Some(KeyTooLong) else None
  }

  /** The checks made before any repository call. */
  function Rejection(op: Op): Option<Error> {
    match op
    case DoReserve(amount, key) => if amount <= 0 then Some(BadAmount) else CheckKey(key)
    case DoCommit(r, actual, key) => if actual <= 0 || actual > r.amount then Some(BadAmount) else CheckKey(key)
    case DoRelease(_, key) => CheckKey(key)
    case DoGrant(amount, key, _) => if amount <= 0 then Some(BadAmount) else CheckKey(key)
    case DoMaster(amount, _, _) => if amount <= 0 then Some(BadAmount) else None
  }

  /** The row a call writes when it is the one to take effect. */
  function RowOf(op: Op, id: string): Entry {
    match op
    case DoReserve(amount, key) => Entry(Reserve, SignedAmount(Reserve, amount), key, id)
    case DoCommit(r, actual, key) => Entry(Commit, SignedAmount(Commit, actual), key, r.id)
    case DoRelease(r, key) => Entry(Release, SignedAmount(Release, r.amount), key, r.id)
    case DoGrant(amount, key, ref) => Entry(Grant, SignedAmount(Grant, amount), key, ref)
    case DoMaster(amount, key, ref) => Entry(Grant, SignedAmount(Grant, amount), key, ref)
  }

  /** The in-memory mutation a call makes on its copy of the wallet. */
  function MutationOf(op: Op, w: Wallet): Mutation {
    match op
    case DoReserve(amount, _) => ReserveOn(w, amount)
    case DoCommit(r, actual, _) => CommitOn(w, actual, r.amount)
    case DoRelease(r, _) => ReleaseOn(w, r.amount)
    case DoGrant(amount, _, _) => GrantOn(w, amount)
    case DoMaster(amount, _, _) => GrantOn(w, amount)
  }

  /** What a call answers when a row with its key already exists. */
  function Replayed(op: Op, prior: Entry): Outcome {
    var same := match op
      case DoReserve(amount, _) => prior.kind == Reserve && -prior.amount == amount
      case DoCommit(r, actual, _) => prior.kind == Commit && prior.ref == r.id && -prior.amount == actual
      case DoRelease(r, _) => prior.kind == Release && prior.ref == r.id && prior.amount == r.amount
      case DoGrant(amount, _, _) => prior.kind == Grant && prior.amount == amount
      case DoMaster(_, _, _) => false;
    if !same then Failed(IdempotencyConflict)
    else if op.DoReserve? then Reserved(Reservation(prior.ref, op.amount))
    else Ok
  }

  function Answer(op: Op, e: Entry): Outcome {
    if op.DoReserve? then Reserved(Reservation(e.ref, op.amount)) else Ok
  }

  /** The bounded retry on a conflict. */
  function Retried(call: Call): Call {
    if call.attempt + 1 >= MAX_ATTEMPTS then call.(phase := Done(Failed(Exhausted)), attempt := call.attempt + 1)
    else call.(phase := Loading, attempt := call.attempt + 1)
  }

  /** Mutate the copy `w` and get ready to persist it. */
  function Prepared(call: Call, w: Wallet, id: string): Call {
    match MutationOf(call.op, w)
    case Applied(w') => call.(phase := Applying(w', RowOf(call.op, id)))
    case Refused(InvalidAmount) => call.(phase := Done(Failed(BadAmount)))
    case Refused(InsufficientFunds) => call.(phase := Done(Failed(Insufficient)))
    case Refused(VersionConflict) => Retried(call)
  }

  ghost function RowWithKey(l: seq<Entry>, key: string): (i: int)
    requires HasKey(l, key)
    ensures 0 <= i < |l| && l[i].key == key
  {
    var i :| 0 <= i < |l| && l[i].key == key;
    i
  }

  /** A master grant mutates what it loads at once; the other calls look their key up first. */
  function Loaded(call: Call, w: Wallet): Call {
    if call.op.DoMaster? then Prepared(call, w, "") else call.(phase := Looking(w))
  }

  /** A key that has a row is answered from it. */
  ghost function LookedUp(l: seq<Entry>, call: Call, id: string): Call
    requires call.phase.Looking?
  {
    if HasKey(l, call.op.key) then call.(phase := Done(Replayed(call.op, l[RowWithKey(l, call.op.key)])))
    else if call.op.DoCommit? || call.op.DoRelease? then call.(phase := Checking(call.phase.w))
    else Prepared(call, call.phase.w, id)
  }

  /** The two conflicts ApplyWithLock reports: a master grant returns them, the other calls retry. */
  function StaleCall(call: Call): Call {
    if call.op.DoMaster? then call.(phase := Done(Failed(Stale))) else Retried(call)
  }

  function TakenCall(call: Call): Call {
    if call.op.DoMaster? then call.(phase := Done(Failed(IdempotencyConflict))) else Retried(call)
  }

  function AppliedCall(call: Call, acked: bool): Call
    requires call.phase.Applying?
  {
    call.(phase := Done(if acked then Answer(call.op, call.phase.e) else Failed(Storage)))
  }

  ghost predicate Enabled(s: State, step: Step) {
    match step
    case Arrive(c, op) =>
      && c !in s.calls
         // Commit and Release are handed a reservation that Reserve returned, or that the journal lists as open.
      && (op.DoCommit? || op.DoRelease? ==> Opened(s.ledger, op.r.id, op.r.amount))
    case Load(c) => c in s.calls && s.calls[c].phase.Loading?
    case LookUp(c, id) =>
      && c in s.calls && s.calls[c].phase.Looking?
      && forall i :: 0 <= i < |s.ledger| && s.ledger[i].kind == Reserve ==> s.ledger[i].ref != id
    case LookUpSettled(c) => c in s.calls && s.calls[c].phase.Checking? && (s.calls[c].op.DoCommit? || s.calls[c].op.DoRelease?)
    case Apply(c, _) => c in s.calls && s.calls[c].phase.Applying?
    case Break(c) => c in s.calls && !s.calls[c].phase.Done?
    case Allocate(amount, _) => 0 < amount && s.row.balance + amount <= MAX_INT64
  }

  ghost function Do(s: State, step: Step): State
    requires Enabled(s, step)
  {
    match step
    case Arrive(c, op) =>
      var phase := match Rejection(op) case Some(e) => Done(Failed(e)) case None => Loading;
      s.(calls := s.calls[c := Call(op, phase, 0, |s.ledger|)])
    case Load(c) => s.(calls := s.calls[c := Loaded(s.calls[c], s.row)])
    case LookUp(c, id) => s.(calls := s.calls[c := LookedUp(s.ledger, s.calls[c], id)])
    case LookUpSettled(c) =>
      var call := s.calls[c];
      var call' :=
        if Settled(s.ledger, call.op.r.id) then call.(phase := Done(Failed(Completed)))
        else Prepared(call, call.phase.w, "");
      s.(calls := s.calls[c := call'])
    case Apply(c, acked) =>
      var call := s.calls[c];
      if s.row.version != call.phase.w.version - 1 then s.(calls := s.calls[c := StaleCall(call)])
      else if HasKey(s.ledger, call.phase.e.key) then s.(calls := s.calls[c := TakenCall(call)])
      else State(call.phase.w, s.ledger + [call.phase.e], s.calls[c := AppliedCall(call, acked)])
    case Break(c) =>
      s.(calls := s.calls[c := s.calls[c].(phase := Done(Failed(Storage)))])
    case Allocate(amount, key) =>
      if HasKey(s.ledger, key) then s
      else
        State(s.row.(balance := s.row.balance + amount, version := s.row.version + 1),
              s.ledger + [Entry(Grant, SignedAmount(Grant, amount), key, "")], s.calls)
  }

  // ----- the invariant

  /** Row `i` is the one this call asked for. */
  predicate Wrote(l: seq<Entry>, i: int, op: Op, o: Outcome) {
    && 0 <= i < |l|
    && l[i] == RowOf(op, "").(ref := l[i].ref)
    && (o.Reserved? ==> op.DoReserve? && o.r == Reservation(l[i].ref, op.amount))
    && (op.DoCommit? || op.DoRelease? ==> l[i].ref == op.r.id)
  }

  /** At some instant of the call the wallet really had less than `amount` available. */
  predicate ShortAt(l: seq<Entry>, v: int, arrived: nat, amount: int) {
    arrived <= v <= |l| && At(l[..v]).balance - At(l[..v]).reserved < amount
  }

  /** What each answer means for the journal. */
  ghost predicate Justified(l: seq<Entry>, call: Call, o: Outcome) {
    match o
    case Reserved(_) => exists i :: Wrote(l, i, call.op, o)
    case Ok => !call.op.DoReserve? && exists i :: Wrote(l, i, call.op, o)
    case Failed(Insufficient) => call.op.DoReserve? && exists v :: ShortAt(l, v, call.arrived, call.op.amount)
    case Failed(Completed) => (call.op.DoCommit? || call.op.DoRelease?) && Settled(l, call.op.r.id)
    case Failed(Exhausted) => !call.op.DoMaster? && call.arrived + MAX_ATTEMPTS <= |l|
    case Failed(IdempotencyConflict) => exists i :: 0 <= i < |l| && l[i].key == call.op.key && Replayed(call.op, l[i]) == o
    case Failed(Stale) => call.op.DoMaster? && call.arrived < |l|
    case Failed(BadAmount) => WrongAmount(call.op) || (IsGrant(call.op) && exists v :: FullAt(l, v, call.arrived, call.op.amount))
    case Failed(EmptyKey) => !call.op.DoMaster? && call.op.key == ""
    case Failed(KeyTooLong) => !call.op.DoMaster? && |call.op.key| > 128
    case Failed(Storage) => true
  }

  predicate IsGrant(op: Op) {
    op.DoGrant? || op.DoMaster?
  }

  /** The amount is wrong whatever the wallet holds. */
  predicate WrongAmount(op: Op) {
    match op
    case DoCommit(r, actual, _) => actual <= 0 || r.amount < actual
    case DoRelease(_, _) => false
    case _ => op.amount <= 0
  }

  /** At some instant of the call the balance had no room for `amount` more. */
  predicate FullAt(l: seq<Entry>, v: int, arrived: nat, amount: int) {
    arrived <= v <= |l| && At(l[..v]).balance + amount > 0x7FFF_FFFF_FFFF_FFFF
  }

  /** `w` is a true copy of the row as it stood after `v` journal rows, read during this attempt. */
  ghost predicate Snapshot(l: seq<Entry>, call: Call, w: Wallet) {
    && call.arrived + call.attempt <= w.version <= |l|
    && w == At(l[..w.version])
    && WellFormed(l[..w.version])
  }

  ghost predicate CallOk(l: seq<Entry>, call: Call) {
    && call.arrived <= |l|
    && (call.op.DoCommit? || call.op.DoRelease? ==> Opened(l[..call.arrived], call.op.r.id, call.op.r.amount))
    && (Rejection(call.op).Some? ==> call.phase == Done(Failed(Rejection(call.op).value)))
    && match call.phase
       case Loading => call.arrived + call.attempt <= |l|
       case Looking(w) => !call.op.DoMaster? && Snapshot(l, call, w)
       case Checking(w) => (call.op.DoCommit? || call.op.DoRelease?) && Snapshot(l, call, w) && !HasKey(l[..w.version], call.op.key)
       case Applying(w, e) =>
         var v := w.version - 1;
         && call.arrived + call.attempt <= v <= |l|
         && (if call.op.DoMaster? then WellFormed(l[..v]) && GrantOn(At(l[..v]), call.op.amount) == Applied(w)
             else w == At(l[..v] + [e]) && WellFormed(l[..v] + [e]))
         && e == RowOf(call.op, e.ref)
         && (call.op.DoCommit? || call.op.DoRelease? ==> e.ref == call.op.r.id)
       case Done(o) => Justified(l, call, o)
  }

  ghost predicate Inv(s: State) {
    && WellFormed(s.ledger)
    && s.row == At(s.ledger)
    && forall c :: c in s.calls ==> CallOk(s.ledger, s.calls[c])
  }

  // ----- everything a call knows survives the growth of the journal

  lemma OpenedGrows(l: seq<Entry>, l': seq<Entry>, ref: string, amount: int)
    requires l <= l' && Opened(l, ref, amount)
    ensures Opened(l', ref, amount)
  {
    var i :| ReservedAt(l, i, ref, amount);
    assert ReservedAt(l', i, ref, amount);
  }

  lemma CallOkGrows(l: seq<Entry>, e: Entry, call: Call)
    requires CallOk(l, call)
    ensures CallOk(l + [e], call)
  {
    var m := l + [e];
    assert forall v :: 0 <= v <= |l| ==> m[..v] == l[..v];
    if call.phase.Done? {
      JustifiedGrows(l, e, call, call.phase.o);
    }
  }

  lemma JustifiedGrows(l: seq<Entry>, e: Entry, call: Call, o: Outcome)
    requires Justified(l, call, o)
    ensures Justified(l + [e], call, o)
  {
    var m := l + [e];
    if o.Reserved? || o.Ok? {
      var i :| Wrote(l, i, call.op, o);
      assert Wrote(m, i, call.op, o);
    } else if o.e.Insufficient? {
      var v :| ShortAt(l, v, call.arrived, call.op.amount);
      assert m[..v] == l[..v];
      assert ShortAt(m, v, call.arrived, call.op.amount);
    } else if o.e.IdempotencyConflict? {
      var i :| 0 <= i < |l| && l[i].key == call.op.key && Replayed(call.op, l[i]) == o;
      assert m[i] == l[i];
    } else if o.e.BadAmount? && !WrongAmount(call.op) {
      var v :| FullAt(l, v, call.arrived, call.op.amount);
      assert m[..v] == l[..v];
      assert FullAt(m, v, call.arrived, call.op.amount);
    } else if o.e.Completed? {
      SettledAppend(l, e, call.op.r.id);
    }
  }

  // ----- one lemma per kind of step

  /** A call that may mutate its copy: the copy is true, and its key was free in it. */
  ghost predicate ReadyToMutate(l: seq<Entry>, call: Call, w: Wallet) {
    && CallOk(l, call) && !call.phase.Done?
    && Snapshot(l, call, w)
    && !HasKey(l[..w.version], call.op.key)
  }

  /** Mutating a true copy: either ready to write a row that extends that copy soundly, or justly refused. */
  lemma PreparedReserve(l: seq<Entry>, call: Call, w: Wallet, id: string)
    requires ReadyToMutate(l, call, w) && call.op.DoReserve?
    requires forall i :: 0 <= i < |l| && l[i].kind == Reserve ==> l[i].ref != id
    ensures CallOk(l, Prepared(call, w, id))
  {
    var DoReserve(amount, key) := call.op;
    if ReserveOn(w, amount).Applied? {
      GrowReserve(l[..w.version], amount, key, id);
    } else {
      assert ShortAt(l, w.version, call.arrived, amount);
    }
  }

  lemma GrantRefused(l: seq<Entry>, call: Call, w: Wallet, id: string)
    requires CallOk(l, call) && !call.phase.Done? && Snapshot(l, call, w) && IsGrant(call.op) && GrantOn(w, call.op.amount).Refused?
    ensures CallOk(l, Prepared(call, w, id))
  {
    assert FullAt(l, w.version, call.arrived, call.op.amount);
    assert Prepared(call, w, id) == call.(phase := Done(Failed(BadAmount)));
  }

  lemma PreparedGrant(l: seq<Entry>, call: Call, w: Wallet, id: string)
    requires ReadyToMutate(l, call, w) && call.op.DoGrant?
    ensures CallOk(l, Prepared(call, w, id))
  {
    var DoGrant(amount, key, ref) := call.op;
    if GrantOn(w, amount).Applied? {
      var p, e := l[..w.version], RowOf(call.op, id);
      GrowGrant(p, amount, key, ref);
      assert Prepared(call, w, id) == call.(phase := Applying(At(p + [e]), e));
    } else {
      GrantRefused(l, call, w, id);
    }
  }

  /** Settling an open reservation on a sound journal: the mutation is accepted and the row keeps it sound. */
  lemma SettleGrows(p: seq<Entry>, op: Op)
    requires WellFormed(p) && !HasKey(p, op.key)
    requires (op.DoCommit? && 0 < op.actual <= op.r.amount) || op.DoRelease?
    requires Opened(p, op.r.id, op.r.amount) && !Settled(p, op.r.id)
    ensures WellFormed(p + [RowOf(op, "")])
    ensures MutationOf(op, At(p)) == Applied(At(p + [RowOf(op, "")]))
  {
    OpenedIsSigned(p, op.r.id, op.r.amount);
    GrowSettle(p, RowOf(op, ""), op.r.amount);
  }

  lemma PreparedSettle(l: seq<Entry>, call: Call, w: Wallet)
    requires ReadyToMutate(l, call, w) && (call.op.DoCommit? || call.op.DoRelease?)
    requires !Settled(l, call.op.r.id)
    ensures CallOk(l, Prepared(call, w, ""))
    ensures Prepared(call, w, "").phase.Applying?
  {
    SettlePrepared(l, call, w);
    var p, e := l[..w.version], RowOf(call.op, "");
    SettleGrows(p, call.op);
    ReadyToWrite(l, call, w, e);
    assert Prepared(call, w, "") == call.(phase := Applying(At(p + [e]), e));
  }

  /** A call that was fine stays so when it is about to write a row that extends its copy soundly. */
  lemma ReadyToWrite(l: seq<Entry>, call: Call, w: Wallet, e: Entry)
    requires CallOk(l, call) && !call.phase.Done? && Snapshot(l, call, w) && !call.op.DoMaster?
    requires WellFormed(l[..w.version] + [e]) && e == RowOf(call.op, e.ref)
    requires call.op.DoCommit? || call.op.DoRelease? ==> e.ref == call.op.r.id
    ensures CallOk(l, call.(phase := Applying(At(l[..w.version] + [e]), e)))
  {
  }

  /** The reservation a settling call was given is open in the copy it works on. */
  lemma SettlePrepared(l: seq<Entry>, call: Call, w: Wallet)
    requires CallOk(l, call) && Snapshot(l, call, w)
    requires call.op.DoCommit? || call.op.DoRelease?
    requires !Settled(l, call.op.r.id)
    ensures Opened(l[..w.version], call.op.r.id, call.op.r.amount)
    ensures !Settled(l[..w.version], call.op.r.id)
  {
    OpenedGrows(l[..call.arrived], l[..w.version], call.op.r.id, call.op.r.amount);
  }

  lemma LoadedOk(l: seq<Entry>, call: Call)
    requires WellFormed(l) && CallOk(l, call) && call.phase.Loading?
    ensures CallOk(l, Loaded(call, At(l)))
  {
    assert l[..|l|] == l;
    if call.op.DoMaster? && GrantOn(At(l), call.op.amount).Refused? {
      GrantRefused(l, call, At(l), "");
    }
  }

  lemma LookedUpOk(l: seq<Entry>, call: Call, id: string)
    requires CallOk(l, call) && call.phase.Looking?
    requires forall i :: 0 <= i < |l| && l[i].kind == Reserve ==> l[i].ref != id
    ensures CallOk(l, LookedUp(l, call, id))
  {
    if HasKey(l, call.op.key) {
      ReplayOk(l, call, RowWithKey(l, call.op.key));
    } else if call.op.DoReserve? {
      PreparedReserve(l, call, call.phase.w, id);
    } else if call.op.DoGrant? {
      PreparedGrant(l, call, call.phase.w, id);
    }
  }

  lemma StepKeepsCall(s: State, step: Step)
    requires Inv(s) && Enabled(s, step)
    requires !step.Arrive? && !step.Apply? && !step.Allocate?
    ensures CallOk(s.ledger, Do(s, step).calls[step.c])
  {
    var l := s.ledger;
    var call := s.calls[step.c];
    match step
    case Load(c) => LoadedOk(l, call);
    case LookUp(c, id) => LookedUpOk(l, call, id);
    case LookUpSettled(c) =>
      if !Settled(l, call.op.r.id) {
        PreparedSettle(l, call, call.phase.w);
      }
    case Break(c) =>
  }

  lemma ReplayOk(l: seq<Entry>, call: Call, i: int)
    requires 0 <= i < |l| && l[i].key == call.op.key
    ensures Justified(l, call, Replayed(call.op, l[i]))
  {
    var o := Replayed(call.op, l[i]);
    if !o.Failed? {
      assert Wrote(l, i, call.op, o);
    }
  }

  /** The row of a call whose copy is still the wallet: either its key is taken, or it extends the journal soundly. */
  lemma AppliedRowGrows(l: seq<Entry>, call: Call)
    requires WellFormed(l) && CallOk(l, call) && call.phase.Applying? && call.phase.w.version - 1 == |l|
    requires !HasKey(l, call.phase.e.key)
    ensures WellFormed(l + [call.phase.e]) && At(l + [call.phase.e]) == call.phase.w
  {
    assert l[..|l|] == l;
    if call.op.DoMaster? {
      GrowGrant(l, call.op.amount, call.op.key, call.op.ref);
    }
  }

  lemma ConflictedOk(l: seq<Entry>, call: Call)
    requires CallOk(l, call) && call.phase.Applying?
    ensures call.phase.w.version - 1 < |l| ==> CallOk(l, StaleCall(call))
    ensures call.phase.w.version - 1 == |l| && HasKey(l, call.phase.e.key) ==> CallOk(l, TakenCall(call))
  {
    if call.phase.w.version - 1 == |l| && HasKey(l, call.phase.e.key) {
      IndexFires(l, call);
      var i := RowWithKey(l, call.phase.e.key);
      assert l[i].key == call.op.key && Replayed(call.op, l[i]) == Failed(IdempotencyConflict);
    }
  }

  lemma AppliedOk(l: seq<Entry>, call: Call, acked: bool)
    requires CallOk(l, call) && call.phase.Applying?
    ensures CallOk(l + [call.phase.e], AppliedCall(call, acked))
  {
    var m := l + [call.phase.e];
    assert Wrote(m, |l|, call.op, Answer(call.op, call.phase.e));
    assert m[..call.arrived] == l[..call.arrived];
  }

  /** ApplyWithLock: a matching version means the copy was still the row, so the journal grows soundly. */
  lemma ApplyKeepsInv(s: State, c: nat, acked: bool)
    requires Inv(s) && Enabled(s, Apply(c, acked))
    ensures Inv(Do(s, Apply(c, acked)))
  {
    var call := s.calls[c];
    assert CallOk(s.ledger, call);
    if s.row.version != call.phase.w.version - 1 || HasKey(s.ledger, call.phase.e.key) {
      ConflictedOk(s.ledger, call);
    } else {
      AppliedRowGrows(s.ledger, call);
      AppliedOk(s.ledger, call, acked);
      forall d | d in s.calls
        ensures CallOk(s.ledger + [call.phase.e], s.calls[d])
      {
        CallOkGrows(s.ledger, call.phase.e, s.calls[d]);
      }
    }
  }

  /** Only a call that never looked its key up can meet its key behind a matching version. */
  lemma IndexFires(l: seq<Entry>, call: Call)
    requires CallOk(l, call) && call.phase.Applying? && call.phase.w.version - 1 == |l|
    requires HasKey(l, call.phase.e.key)
    ensures call.op.DoMaster?
  {
    assert l[..|l|] == l;
    if !call.op.DoMaster? {
      KeyStillFree(l, call.phase.e);
    }
  }

  /** A sound journal cannot be extended by a row whose key it has. */
  lemma KeyStillFree(l: seq<Entry>, e: Entry)
    requires WellFormed(l + [e])
    ensures !HasKey(l, e.key)
  {
    var m := l + [e];
    assert m[|l|] == e;
    assert forall i :: 0 <= i < |l| ==> m[i] == l[i];
  }

  lemma AllocateKeepsInv(s: State, amount: int, key: string)
    requires Inv(s) && Enabled(s, Allocate(amount, key))
    ensures Inv(Do(s, Allocate(amount, key)))
  {
    if !HasKey(s.ledger, key) {
      GrowGrant(s.ledger, amount, key, "");
      var e := Entry(Grant, amount, key, "");
      forall d | d in s.calls
        ensures CallOk(s.ledger + [e], s.calls[d])
      {
        CallOkGrows(s.ledger, e, s.calls[d]);
      }
    }
  }

  lemma StepKeepsInv(s: State, step: Step)
    requires Inv(s) && Enabled(s, step)
    ensures Inv(Do(s, step))
  {
    match step
    case Apply(c, acked) => ApplyKeepsInv(s, c, acked);
    case Allocate(amount, key) => AllocateKeepsInv(s, amount, key);
    case Arrive(c, op) => assert s.ledger[..|s.ledger|] == s.ledger;
    case _ => StepKeepsCall(s, step);
  }

  // ----- whole runs

  predicate Init(s: State) {
    s == State(Wallet(0, 0, 0), [], map[])
  }

  ghost predicate Run(ss: seq<State>, steps: seq<Step>) {
    && |ss| == |steps| + 1
    && Init(ss[0])
    && forall i :: 0 <= i < |steps| ==> Enabled(ss[i], steps[i]) && ss[i + 1] == Do(ss[i], steps[i])
  }

  lemma {:induction false} ReachableInv(ss: seq<State>, steps: seq<Step>, i: nat)
    requires Run(ss, steps) && i < |ss|
    ensures Inv(ss[i])
    decreases i
  {
    if i > 0 {
      ReachableInv(ss, steps, i - 1);
      StepKeepsInv(ss[i - 1], steps[i - 1]);
    }
  }

  /**
   Conservation in every reachable state of every interleaving: the row never overdraws, holds what
   was granted minus what was charged, and keeps aside exactly the reservations still open.
   */
  lemma Conservation(ss: seq<State>, steps: seq<Step>, i: nat)
    requires Run(ss, steps) && i < |ss|
    ensures 0 <= ss[i].row.reserved <= ss[i].row.balance <= MAX_INT64
    ensures ss[i].row.balance == Granted(ss[i].ledger) - Charged(ss[i].ledger)
    ensures ss[i].row.reserved == Held(ss[i].ledger)
    ensures ss[i].row.version == |ss[i].ledger|
    ensures Shaped(ss[i].ledger)
  {
    ReachableInv(ss, steps, i);
  }

  /** The journal has only grown, and every call is still there, with its answer if it had one. */
  ghost predicate Later(s: State, s': State) {
    && s.ledger <= s'.ledger
    && (forall c :: c in s.calls ==> c in s'.calls && s'.calls[c].op == s.calls[c].op)
    && (forall c :: c in s.calls && s.calls[c].phase.Done? ==> s'.calls[c] == s.calls[c])
  }

  lemma StepIsLater(s: State, step: Step)
    requires Enabled(s, step)
    ensures Later(s, Do(s, step))
  {
  }

  lemma LaterStill(s: State, s': State, s'': State)
    requires Later(s, s') && Later(s', s'')
    ensures Later(s, s'')
  {
  }

  /** The journal is append-only, and an answered call keeps its answer. */
  lemma {:induction false} LaterKeeps(ss: seq<State>, steps: seq<Step>, i: nat, j: nat)
    requires Run(ss, steps) && i <= j < |ss|
    ensures Later(ss[i], ss[j])
    decreases j
  {
    if i < j {
      LaterKeeps(ss, steps, i, j - 1);
      StepIsLater(ss[j - 1], steps[j - 1]);
      LaterStill(ss[i], ss[j - 1], ss[j]);
    }
  }

  ghost predicate Succeeded(s: State, c: nat) {
    c in s.calls && s.calls[c].phase.Done? && !s.calls[c].phase.o.Failed?
  }

  /** The one row a successful call stands for. */
  ghost predicate StandsFor(s: State, c: nat, i: int) {
    Succeeded(s, c) && Wrote(s.ledger, i, s.calls[c].op, s.calls[c].phase.o)
  }

  lemma SuccessHasRow(ss: seq<State>, steps: seq<Step>, n: nat, c: nat) returns (i: int)
    requires Run(ss, steps) && n < |ss| && Succeeded(ss[n], c)
    ensures StandsFor(ss[n], c, i)
  {
    ReachableInv(ss, steps, n);
    var call := ss[n].calls[c];
    i :| Wrote(ss[n].ledger, i, call.op, call.phase.o);
  }

  /**
   Idempotency: however many calls carry one key, they stand for one row. Successful calls with equal
   keys asked for the same thing and got the same answer, so a retry never debits twice.
   */
  lemma OneRowPerKey(ss: seq<State>, steps: seq<Step>, n: nat, c: nat, d: nat, i: int, j: int)
    requires Run(ss, steps) && n < |ss| && StandsFor(ss[n], c, i) && StandsFor(ss[n], d, j)
    requires ss[n].calls[c].op.key == ss[n].calls[d].op.key
    ensures i == j
    ensures ss[n].calls[c].phase.o == ss[n].calls[d].phase.o
  {
    ReachableInv(ss, steps, n);
    var l := ss[n].ledger;
    assert l[i].key == l[j].key;
  }

  /** A reservation is settled once: two successful settlements of it are the same settlement. */
  lemma SettledOnce(ss: seq<State>, steps: seq<Step>, n: nat, c: nat, d: nat, i: int, j: int)
    requires Run(ss, steps) && n < |ss| && StandsFor(ss[n], c, i) && StandsFor(ss[n], d, j)
    requires ss[n].calls[c].op.DoCommit? || ss[n].calls[c].op.DoRelease?
    requires ss[n].calls[d].op.DoCommit? || ss[n].calls[d].op.DoRelease?
    requires ss[n].calls[c].op.r == ss[n].calls[d].op.r
    ensures i == j && ss[n].calls[c].op == ss[n].calls[d].op
  {
    ReachableInv(ss, steps, n);
    var l := ss[n].ledger;
    assert Settles(l[i]) && Settles(l[j]) && l[i].ref == l[j].ref;
  }

  /** A handle that Reserve returned names a reservation the journal opened: it is fit for Commit and Release. */
  lemma HandleIsGenuine(ss: seq<State>, steps: seq<Step>, n: nat, c: nat)
    requires Run(ss, steps) && n < |ss| && c in ss[n].calls
    requires ss[n].calls[c].phase.Done? && ss[n].calls[c].phase.o.Reserved?
    ensures var r := ss[n].calls[c].phase.o.r;
            Opened(ss[n].ledger, r.id, r.amount) && ss[n].calls[c].op == DoReserve(r.amount, ss[n].calls[c].op.key)
  {
    var i := SuccessHasRow(ss, steps, n, c);
    var r := ss[n].calls[c].phase.o.r;
    assert ReservedAt(ss[n].ledger, i, r.id, r.amount);
  }

  /** The total the wallet can ever lose to one reservation is one charge of at most what it held. */
  lemma ReservationBoundsCharge(ss: seq<State>, steps: seq<Step>, n: nat, j: int, r: Reservation)
    requires Run(ss, steps) && n < |ss|
    requires 0 <= j < |ss[n].ledger| && ss[n].ledger[j].kind == Commit && ss[n].ledger[j].ref == r.id
    requires Opened(ss[n].ledger, r.id, r.amount)
    ensures 0 < -ss[n].ledger[j].amount <= r.amount
    ensures forall k :: 0 <= k < |ss[n].ledger| && Settles(ss[n].ledger[k]) && ss[n].ledger[k].ref == r.id ==> k == j
  {
    ReachableInv(ss, steps, n);
    ChargedWithinReservation(ss[n].ledger, j, r.id, r.amount);
  }

  /**
   A reservation released once can never be charged later. Retrying a request id whose model call
   failed gets the released reservation back, so its Commit never succeeds.
   */
  lemma ReleasedNeverCharged(ss: seq<State>, steps: seq<Step>, m: nat, n: nat, k: int, c: nat)
    requires Run(ss, steps) && m <= n < |ss|
    requires 0 <= k < |ss[m].ledger| && ss[m].ledger[k].kind == Release
    requires c in ss[n].calls && ss[n].calls[c].op.DoCommit? && ss[n].calls[c].op.r.id == ss[m].ledger[k].ref
    ensures !Succeeded(ss[n], c)
  {
    LaterKeeps(ss, steps, m, n);
    ReachableInv(ss, steps, n);
    if Succeeded(ss[n], c) {
      var i := SuccessHasRow(ss, steps, n, c);
      assert ss[n].ledger[k] == ss[m].ledger[k];
      assert Settles(ss[n].ledger[i]) && Settles(ss[n].ledger[k]) && i != k;
      assert false;
    }
  }

  /** A call makes at most 256 attempts. "Exhausted retries" is contention only: at least 256 other rows were written during the call. */
  lemma ExhaustionIsContention(ss: seq<State>, steps: seq<Step>, n: nat, c: nat)
    requires Run(ss, steps) && n < |ss| && c in ss[n].calls
    ensures ss[n].calls[c].attempt <= 256
    ensures ss[n].calls[c].phase == Done(Failed(Exhausted)) <==> ss[n].calls[c].attempt == 256
    ensures ss[n].calls[c].phase == Done(Failed(Exhausted)) ==> |ss[n].ledger| >= ss[n].calls[c].arrived + 256
  {
    ReachableInv(ss, steps, n);
    AttemptsAreCounted(ss, steps, n, c);
  }

  lemma {:induction false} AttemptsAreCounted(ss: seq<State>, steps: seq<Step>, n: nat, c: nat)
    requires Run(ss, steps) && n < |ss| && c in ss[n].calls
    ensures ss[n].calls[c].attempt <= 256
    ensures ss[n].calls[c].attempt == 256 <==> ss[n].calls[c].phase == Done(Failed(Exhausted))
    decreases n
  {
    if c in ss[n - 1].calls {
      AttemptsAreCounted(ss, steps, n - 1, c);
      StepCountsAttempts(ss[n - 1], steps[n - 1], c);
    } else {
      assert steps[n - 1].Arrive?;
    }
  }

  predicate CountedRight(call: Call) {
    call.attempt <= 256 && (call.attempt == 256 <==> call.phase == Done(Failed(Exhausted)))
  }

  lemma StepCountsAttempts(s: State, step: Step, c: nat)
    requires Enabled(s, step) && c in s.calls && CountedRight(s.calls[c])
    ensures CountedRight(Do(s, step).calls[c])
  {
  }

  /** "Insufficient funds" is never a stale reading: the wallet was that short at an instant within the call. */
  lemma InsufficiencyWasReal(ss: seq<State>, steps: seq<Step>, n: nat, c: nat) returns (v: int)
    requires Run(ss, steps) && n < |ss| && c in ss[n].calls
    requires ss[n].calls[c].phase == Done(Failed(Insufficient))
    ensures ss[n].calls[c].op.DoReserve? && ss[n].calls[c].arrived <= v <= |ss[n].ledger|
    ensures At(ss[n].ledger[..v]).balance - At(ss[n].ledger[..v]).reserved < ss[n].calls[c].op.amount
  {
    ReachableInv(ss, steps, n);
    v :| ShortAt(ss[n].ledger, v, ss[n].calls[c].arrived, ss[n].calls[c].op.amount);
  }

  /**
   Behind a matching version the unique index rejects a row exactly when the call is a master grant whose
   key is already in the journal; the retry branch of the other four calls for it is unreachable.
   */
  lemma UniqueIndexFiresExactly(ss: seq<State>, steps: seq<Step>, n: nat, c: nat)
    requires Run(ss, steps) && n < |ss| && c in ss[n].calls && ss[n].calls[c].phase.Applying?
    requires ss[n].row.version == ss[n].calls[c].phase.w.version - 1
    ensures ss[n].calls[c].phase.e.key == ss[n].calls[c].op.key
    ensures HasKey(ss[n].ledger, ss[n].calls[c].phase.e.key) <==>
            ss[n].calls[c].op.DoMaster? && HasKey(ss[n].ledger, ss[n].calls[c].op.key)
  {
    ReachableInv(ss, steps, n);
    var call := ss[n].calls[c];
    assert CallOk(ss[n].ledger, call);
    if HasKey(ss[n].ledger, call.phase.e.key) {
      IndexFires(ss[n].ledger, call);
    }
  }

  /**
   A master grant fails on a conflict for one of two reasons only: its key already has a row, so the grant
   landed before, or another row was written since it began.
   */
  lemma MasterConflictMeans(ss: seq<State>, steps: seq<Step>, n: nat, c: nat)
    requires Run(ss, steps) && n < |ss| && c in ss[n].calls && ss[n].calls[c].op.DoMaster?
    ensures ss[n].calls[c].phase == Done(Failed(IdempotencyConflict)) ==> HasKey(ss[n].ledger, ss[n].calls[c].op.key)
    ensures ss[n].calls[c].phase == Done(Failed(Stale)) ==> |ss[n].ledger| > ss[n].calls[c].arrived
    ensures ss[n].calls[c].phase != Done(Failed(Exhausted))
  {
    ReachableInv(ss, steps, n);
    assert CallOk(ss[n].ledger, ss[n].calls[c]);
  }

  /**
   In every reachable state: what a call is refused for. A wrong amount, an empty key and a key of more than 128
   characters are refused at once, in that order, and a master grant's key is not looked at. Beyond that an amount
   is refused only to a grant that would have taken the balance past int64 at an instant within the call.
   */
  lemma RefusedFor(ss: seq<State>, steps: seq<Step>, n: nat, c: nat)
    requires Run(ss, steps) && n < |ss| && c in ss[n].calls
    ensures var call := ss[n].calls[c];
            var op := call.op;
            && (WrongAmount(op) ==> call.phase == Done(Failed(BadAmount)))
            && (call.phase == Done(Failed(EmptyKey)) <==> !WrongAmount(op) && !op.DoMaster? && op.key == "")
            && (call.phase == Done(Failed(KeyTooLong)) <==> !WrongAmount(op) && !op.DoMaster? && |op.key| > 128)
            && (call.phase == Done(Failed(BadAmount)) && !WrongAmount(op) ==>
                  IsGrant(op) && exists v :: FullAt(ss[n].ledger, v, call.arrived, op.amount))
  {
    ReachableInv(ss, steps, n);
    assert CallOk(ss[n].ledger, ss[n].calls[c]);
  }

  /** A write that met a newer version changes nothing; the call loads again unless it was its 256th attempt, and a master grant gives up. */
  lemma LostRaceTriesAgain(s: State, c: nat, acked: bool)
    requires Enabled(s, Apply(c, acked)) && s.row.version != s.calls[c].phase.w.version - 1
    ensures var s', call := Do(s, Apply(c, acked)), s.calls[c];
            && s'.row == s.row && s'.ledger == s.ledger
            && s'.calls == s.calls[c := s'.calls[c]] && s'.calls[c].op == call.op && s'.calls[c].arrived == call.arrived
            && (if call.op.DoMaster? then s'.calls[c].phase == Done(Failed(Stale))
                else s'.calls[c].attempt == call.attempt + 1
                     && s'.calls[c].phase == if call.attempt < 255 then Loading else Done(Failed(Exhausted)))
  {
  }

  /** A write whose acknowledgement is lost has been made all the same, and the call reports a storage error. */
  lemma LostAcknowledgement(s: State, c: nat)
    requires Enabled(s, Apply(c, false)) && s.row.version == s.calls[c].phase.w.version - 1 && !HasKey(s.ledger, s.calls[c].phase.e.key)
    ensures var s', s'' := Do(s, Apply(c, false)), Do(s, Apply(c, true));
            && s'.row == s''.row && s'.ledger == s''.ledger == s.ledger + [s.calls[c].phase.e]
            && s'.calls[c].phase == Done(Failed(Storage)) && !s''.calls[c].phase.o.Failed?
  {
  }

  /** The monthly allocation, once per key, and a repository call that fails without effect. */
  lemma AllocationSpelledOut(s: State, amount: int, key: string, c: nat)
    requires 0 < amount
    ensures Enabled(s, Allocate(amount, key)) <==> s.row.balance + amount <= 0x7FFF_FFFF_FFFF_FFFF
    ensures Enabled(s, Allocate(amount, key)) ==>
              Do(s, Allocate(amount, key)) ==
              if HasKey(s.ledger, key) then s
              else State(Wallet(s.row.balance + amount, s.row.reserved, s.row.version + 1), s.ledger + [Entry(Grant, amount, key, "")], s.calls)
    ensures c in s.calls && !s.calls[c].phase.Done? ==>
              Enabled(s, Break(c)) && Do(s, Break(c)) == s.(calls := s.calls[c := s.calls[c].(phase := Done(Failed(Storage)))])
  {
  }
}
