/**
 The token wallet aggregate and its append-only ledger (internal/wallet).

 A wallet row is three integers. The ledger is the journal from which those
 integers can be recomputed: `At(l)` is the wallet that the journal `l`
 justifies, and `WellFormed(l)` says which journals are sound.
 */
module WalletLedger {
  import opened Options

  const MAX_INT64 := 0x7FFF_FFFF_FFFF_FFFF

  datatype Kind = Reserve | Commit | Release | Grant

  /** One `token_ledger` row; `amount` is signed as `SignedAmount` signs it. */
  datatype Entry = Entry(kind: Kind, amount: int, key: string, ref: string)

  datatype Wallet = Wallet(balance: int, reserved: int, version: int)

  datatype Refusal = InvalidAmount | InsufficientFunds | VersionConflict

  datatype Mutation = Applied(w: Wallet) | Refused(why: Refusal)

  function SignedAmount(kind: Kind, magnitude: int): int {
    if kind in {Reserve, Commit} then -magnitude else magnitude
  }

  // ----- the aggregate's four mutations, on values

  function ReserveOn(w: Wallet, amount: int): Mutation {
    if amount <= 0 then Refused(InvalidAmount)
    else if w.balance - w.reserved < amount then Refused(InsufficientFunds)
    else Applied(Wallet(w.balance, w.reserved + amount, w.version + 1))
  }

  function CommitOn(w: Wallet, amount: int, held: int): Mutation {
    if amount <= 0 || held <= 0 || amount > held then Refused(InvalidAmount)
    else if w.reserved < held then Refused(VersionConflict)
    else Applied(Wallet(w.balance - amount, w.reserved - held, w.version + 1))
  }

  function ReleaseOn(w: Wallet, amount: int): Mutation {
    if amount <= 0 then Refused(InvalidAmount)
    else if w.reserved < amount then Refused(VersionConflict)
    else Applied(Wallet(w.balance, w.reserved - amount, w.version + 1))
  }

  function GrantOn(w: Wallet, amount: int): Mutation {
    if amount <= 0 || amount > MAX_INT64 - w.balance then Refused(InvalidAmount)
    else Applied(Wallet(w.balance + amount, w.reserved, w.version + 1))
  }

  /** The invariant of the aggregate, and the room its int64 fields have. */
  predicate Solvent(w: Wallet) {
    0 <= w.reserved <= w.balance <= MAX_INT64
  }

  /** The aggregate as the source has it: an object whose methods move its fields. */
  class TokenWallet {
    var balance: int
    var reserved: int
    var version: int

    function Value(): Wallet reads this { Wallet(balance, reserved, version) }

    constructor (w: Wallet)
      requires Solvent(w)
      ensures Value() == w
    {
      balance, reserved, version := w.balance, w.reserved, w.version;
    }

    method Reserve(amount: int) returns (err: Option<Refusal>)
      requires Solvent(Value())
      modifies this
      ensures Solvent(Value())
      ensures match ReserveOn(old(Value()), amount)
              case Applied(w) => err.None? && Value() == w
              case Refused(why) => err == Some(why) && Value() == old(Value())
    {
      if amount <= 0 { return Some(InvalidAmount); }
      if balance - reserved < amount { return Some(InsufficientFunds); }
      reserved := reserved + amount;
      version := version + 1;
      return None;
    }

    method Commit(amount: int, held: int) returns (err: Option<Refusal>)
      requires Solvent(Value())
      modifies this
      ensures Solvent(Value())
      ensures match CommitOn(old(Value()), amount, held)
              case Applied(w) => err.None? && Value() == w
              case Refused(why) => err == Some(why) && Value() == old(Value())
    {
      if amount <= 0 { return Some(InvalidAmount); }
      if held <= 0 { return Some(InvalidAmount); }
      if amount > held { return Some(InvalidAmount); }
      if reserved < held { return Some(VersionConflict); }
      balance := balance - amount;
      reserved := reserved - held;
      version := version + 1;
      return None;
    }

    method Release(amount: int) returns (err: Option<Refusal>)
      requires Solvent(Value())
      modifies this
      ensures Solvent(Value())
      ensures match ReleaseOn(old(Value()), amount)
              case Applied(w) => err.None? && Value() == w
              case Refused(why) => err == Some(why) && Value() == old(Value())
    {
      if amount <= 0 { return Some(InvalidAmount); }
      if reserved < amount { return Some(VersionConflict); }
      reserved := reserved - amount;
      version := version + 1;
      return None;
    }

    method Grant(amount: int) returns (err: Option<Refusal>)
      requires Solvent(Value())
      modifies this
      ensures Solvent(Value())
      ensures match GrantOn(old(Value()), amount)
              case Applied(w) => err.None? && Value() == w
              case Refused(why) => err == Some(why) && Value() == old(Value())
    {
      if amount <= 0 { return Some(InvalidAmount); }
      if amount > MAX_INT64 - balance { return Some(InvalidAmount); }
      balance := balance + amount;
      version := version + 1;
      return None;
    }
  }

  // ----- reading the ledger

  predicate Settles(e: Entry) {
    e.kind in {Commit, Release}
  }

  predicate HasKey(l: seq<Entry>, key: string) {
    exists i :: 0 <= i < |l| && l[i].key == key
  }

  /** `LookupCompletedByExternalRef` finds a row. */
  predicate Settled(l: seq<Entry>, ref: string) {
    exists i :: 0 <= i < |l| && Settles(l[i]) && l[i].ref == ref
  }

  predicate ReservedAt(l: seq<Entry>, i: int, ref: string, amount: int) {
    0 <= i < |l| && l[i].kind == Reserve && l[i].ref == ref && l[i].amount == -amount
  }

  /** The journal opened a reservation `ref` of this amount. */
  ghost predicate Opened(l: seq<Entry>, ref: string, amount: int) {
    exists i :: ReservedAt(l, i, ref, amount)
  }

  /** Total credited by grants. */
  function Granted(l: seq<Entry>): int {
    if l == [] then 0
    else Granted(l[..|l| - 1]) + (if l[|l| - 1].kind == Grant then l[|l| - 1].amount else 0)
  }

  /** Total debited by commits. */
  function Charged(l: seq<Entry>): int {
    if l == [] then 0
    else Charged(l[..|l| - 1]) + (if l[|l| - 1].kind == Commit then -l[|l| - 1].amount else 0)
  }

  /** Sum of the reservations among `rows` that no row of `l` settles. */
  function OpenAmong(rows: seq<Entry>, l: seq<Entry>): int {
    if rows == [] then 0
    else
      var e := rows[|rows| - 1];
      OpenAmong(rows[..|rows| - 1], l) + (if e.kind == Reserve && !Settled(l, e.ref) then -e.amount else 0)
  }

  /** Sum of the reservations still in flight. */
  function Held(l: seq<Entry>): int {
    OpenAmong(l, l)
  }

  /** The wallet row this journal justifies. */
  function At(l: seq<Entry>): Wallet {
    Wallet(Granted(l) - Charged(l), Held(l), |l|)
  }

  predicate Signed(e: Entry) {
    if e.kind in {Reserve, Commit} then e.amount < 0 else e.amount > 0
  }

  /** Row `j` closes the reservation opened by the earlier row `i`, for no more than it held. */
  predicate Closes(l: seq<Entry>, i: int, j: int) {
    && 0 <= i < j < |l|
    && l[i].kind == Reserve
    && l[i].ref == l[j].ref
    && (l[j].kind == Commit ==> l[i].amount <= l[j].amount)
    && (l[j].kind == Release ==> l[j].amount == -l[i].amount)
  }

  /** Keys are never reused; a reservation is opened once and closed at most once, after it was opened. */
  ghost predicate Shaped(l: seq<Entry>) {
    && (forall i :: 0 <= i < |l| ==> Signed(l[i]))
    && (forall i, j :: 0 <= i < j < |l| ==> l[i].key != l[j].key)
    && (forall i, j :: 0 <= i < j < |l| && l[i].kind == Reserve && l[j].kind == Reserve ==> l[i].ref != l[j].ref)
    && (forall i, j :: 0 <= i < j < |l| && Settles(l[i]) && Settles(l[j]) ==> l[i].ref != l[j].ref)
    && (forall j :: 0 <= j < |l| && Settles(l[j]) ==> exists i :: Closes(l, i, j))
  }

  ghost predicate WellFormed(l: seq<Entry>) {
    Shaped(l) && Solvent(At(l))
  }

  // ----- what one more row does to the recomputed wallet

  lemma AppendTotals(l: seq<Entry>, e: Entry)
    ensures Granted(l + [e]) == Granted(l) + (if e.kind == Grant then e.amount else 0)
    ensures Charged(l + [e]) == Charged(l) + (if e.kind == Commit then -e.amount else 0)
    ensures OpenAmong(l + [e], l + [e]) == OpenAmong(l, l + [e]) + (if e.kind == Reserve && !Settled(l + [e], e.ref) then -e.amount else 0)
  {
    assert (l + [e])[..|l|] == l;
  }

  lemma SettledAppend(l: seq<Entry>, e: Entry, ref: string)
    ensures Settled(l + [e], ref) <==> Settled(l, ref) || (Settles(e) && e.ref == ref)
  {
    var m := l + [e];
    if Settled(l, ref) {
      var i :| 0 <= i < |l| && Settles(l[i]) && l[i].ref == ref;
      assert m[i] == l[i];
    }
    if Settles(e) && e.ref == ref {
      assert m[|l|] == e;
    }
  }

  /** A row that settles nothing leaves every open reservation open. */
  lemma {:induction false} OpenUnsettled(rows: seq<Entry>, l: seq<Entry>, e: Entry)
    requires !Settles(e)
    ensures OpenAmong(rows, l + [e]) == OpenAmong(rows, l)
    decreases |rows|
  {
    if rows != [] {
      SettledAppend(l, e, rows[|rows| - 1].ref);
      OpenUnsettled(rows[..|rows| - 1], l, e);
    }
  }

  /** A settling row takes exactly its own reservation out of the open sum. */
  lemma {:induction false} OpenSettling(rows: seq<Entry>, l: seq<Entry>, e: Entry, amount: int)
    requires Settles(e) && !Settled(l, e.ref)
    requires forall i, j :: 0 <= i < j < |rows| && rows[i].kind == Reserve && rows[j].kind == Reserve ==> rows[i].ref != rows[j].ref
    requires forall i :: 0 <= i < |rows| && rows[i].kind == Reserve && rows[i].ref == e.ref ==> rows[i].amount == -amount
    ensures OpenAmong(rows, l + [e]) ==
            OpenAmong(rows, l) - (if Opened(rows, e.ref, amount) then amount else 0)
    decreases |rows|
  {
    if rows != [] {
      var n := |rows| - 1;
      var init := rows[..n];
      SettledAppend(l, e, rows[n].ref);
      OpenSettling(init, l, e, amount);
      if rows[n].kind == Reserve && rows[n].ref == e.ref {
        assert ReservedAt(rows, n, e.ref, amount);
        assert !Opened(init, e.ref, amount);
      } else {
        assert Opened(rows, e.ref, amount) <==> Opened(init, e.ref, amount) by {
          if Opened(init, e.ref, amount) {
            var i :| ReservedAt(init, i, e.ref, amount);
            assert ReservedAt(rows, i, e.ref, amount);
          }
          if Opened(rows, e.ref, amount) {
            var i :| ReservedAt(rows, i, e.ref, amount);
            assert ReservedAt(init, i, e.ref, amount);
          }
        }
      }
    }
  }

  /** An open reservation is part of the held sum, so the wallet can always settle it. */
  lemma {:induction false} HeldCovers(rows: seq<Entry>, l: seq<Entry>, ref: string, amount: int)
    requires forall i :: 0 <= i < |rows| ==> Signed(rows[i])
    requires Opened(rows, ref, amount) && !Settled(l, ref)
    ensures amount <= OpenAmong(rows, l)
    decreases |rows|
  {
    var i :| ReservedAt(rows, i, ref, amount);
    var n := |rows| - 1;
    OpenNonNegative(rows[..n], l);
    if i < n {
      assert ReservedAt(rows[..n], i, ref, amount);
      HeldCovers(rows[..n], l, ref, amount);
    }
  }

  lemma {:induction false} OpenNonNegative(rows: seq<Entry>, l: seq<Entry>)
    requires forall i :: 0 <= i < |rows| ==> Signed(rows[i])
    ensures OpenAmong(rows, l) >= 0
    decreases |rows|
  {
    if rows != [] {
      OpenNonNegative(rows[..|rows| - 1], l);
    }
  }

  lemma OpenedIsSigned(l: seq<Entry>, ref: string, amount: int)
    requires WellFormed(l) && Opened(l, ref, amount)
    ensures amount > 0
  {
    var i :| ReservedAt(l, i, ref, amount);
    assert Signed(l[i]);
  }

  // ----- the four ways a sound journal grows

  lemma StillCloses(l: seq<Entry>, e: Entry)
    requires Shaped(l)
    ensures forall j :: 0 <= j < |l| && Settles(l[j]) ==> exists i :: Closes(l + [e], i, j)
  {
    forall j | 0 <= j < |l| && Settles(l[j])
      ensures exists i :: Closes(l + [e], i, j)
    {
      var i :| Closes(l, i, j);
      assert Closes(l + [e], i, j);
    }
  }

  lemma GrowReserve(l: seq<Entry>, amount: int, key: string, ref: string)
    requires WellFormed(l) && !HasKey(l, key)
    requires forall i :: 0 <= i < |l| && l[i].kind == Reserve ==> l[i].ref != ref
    requires ReserveOn(At(l), amount).Applied?
    ensures var e := Entry(Reserve, SignedAmount(Reserve, amount), key, ref);
            WellFormed(l + [e]) && ReserveOn(At(l), amount) == Applied(At(l + [e]))
  {
    var e := Entry(Reserve, -amount, key, ref);
    StillCloses(l, e);
    AppendTotals(l, e);
    OpenUnsettled(l, l, e);
    SettledAppend(l, e, ref);
    assert !Settled(l, ref);
  }

  lemma GrowGrant(l: seq<Entry>, amount: int, key: string, ref: string)
    requires WellFormed(l) && !HasKey(l, key)
    requires GrantOn(At(l), amount).Applied?
    ensures var e := Entry(Grant, SignedAmount(Grant, amount), key, ref);
            WellFormed(l + [e]) && GrantOn(At(l), amount) == Applied(At(l + [e]))
  {
    var e := Entry(Grant, amount, key, ref);
    StillCloses(l, e);
    AppendTotals(l, e);
    OpenUnsettled(l, l, e);
  }

  /** What settling an open reservation with row `e` does to the held sum. */
  lemma SettleTotals(l: seq<Entry>, e: Entry, amount: int)
    requires WellFormed(l) && Settles(e)
    requires Opened(l, e.ref, amount) && !Settled(l, e.ref)
    ensures Held(l + [e]) == Held(l) - amount
  {
    var i :| ReservedAt(l, i, e.ref, amount);
    OpenSettling(l, l, e, amount);
    AppendTotals(l, e);
  }

  lemma GrowSettle(l: seq<Entry>, e: Entry, amount: int)
    requires WellFormed(l) && !HasKey(l, e.key) && Signed(e) && Settles(e)
    requires Opened(l, e.ref, amount) && !Settled(l, e.ref)
    requires e.kind == Commit ==> -e.amount <= amount
    requires e.kind == Release ==> e.amount == amount
    ensures WellFormed(l + [e])
    ensures e.kind == Commit ==> CommitOn(At(l), -e.amount, amount) == Applied(At(l + [e]))
    ensures e.kind == Release ==> ReleaseOn(At(l), amount) == Applied(At(l + [e]))
  {
    SettleShaped(l, e, amount);
    SettleTotals(l, e, amount);
    AppendTotals(l, e);
    HeldCovers(l, l, e.ref, amount);
    OpenedIsSigned(l, e.ref, amount);
  }

  lemma SettleShaped(l: seq<Entry>, e: Entry, amount: int)
    requires Shaped(l) && !HasKey(l, e.key) && Signed(e) && Settles(e)
    requires Opened(l, e.ref, amount) && !Settled(l, e.ref)
    requires e.kind == Commit ==> -e.amount <= amount
    requires e.kind == Release ==> e.amount == amount
    ensures Shaped(l + [e])
  {
    StillCloses(l, e);
    var i :| ReservedAt(l, i, e.ref, amount);
    assert Closes(l + [e], i, |l|);
  }

  /** A settlement of a genuine open reservation is never refused by the aggregate. */
  lemma SettleNeverRefused(l: seq<Entry>, ref: string, amount: int, actual: int)
    requires WellFormed(l) && Opened(l, ref, amount) && !Settled(l, ref) && 0 < actual <= amount
    ensures CommitOn(At(l), actual, amount).Applied? && ReleaseOn(At(l), amount).Applied?
  {
    HeldCovers(l, l, ref, amount);
  }

  /** No reservation is ever charged more than it held, however often it is settled. */
  lemma ChargedWithinReservation(l: seq<Entry>, j: int, ref: string, amount: int)
    requires WellFormed(l) && 0 <= j < |l| && l[j].kind == Commit && l[j].ref == ref
    requires Opened(l, ref, amount)
    ensures 0 < -l[j].amount <= amount
    ensures forall k :: 0 <= k < |l| && Settles(l[k]) && l[k].ref == ref ==> k == j
  {
    var i :| Closes(l, i, j);
    var r :| ReservedAt(l, r, ref, amount);
    assert r == i;
    assert Signed(l[j]);
  }
}
