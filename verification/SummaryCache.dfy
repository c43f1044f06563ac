/**
 The summary cache (internal/aiassist/summary.go, the repository contract in internal/aiassist/port.go
 and its SQL in internal/adapter/db/postgres/aiassist/aiassist.go). Instant 0 is Go's zero time.
 */
module SummaryCache {
  import opened Options
  import opened Uuids

  datatype Row = Row(
    tenant: Id, conversation: Id, text: string, model: string, tokensIn: int, tokensOut: int,
    generatedAt: int, expiresAt: int, invalidatedAt: int)

  datatype Error = ZeroTenant | ZeroConversation | EmptyPrompt

  datatype Made = Ok(row: Row) | Err(e: Error)

  /** `NewSummary`, fresh id aside. */
  function NewSummary(tenant: Id, conversation: Id, text: string, model: string, tokensIn: int, tokensOut: int,
                      generatedAt: int, ttl: int): Made {
    if tenant == NIL_ID then Err(ZeroTenant)
    else if conversation == NIL_ID then Err(ZeroConversation)
    else if text == "" || model == "" || tokensIn < 0 || tokensOut < 0 then Err(EmptyPrompt)
    else Ok(Row(tenant, conversation, text, model, tokensIn, tokensOut, generatedAt,
                if ttl > 0 then generatedAt + ttl else 0, 0))
  }

  /** A summary is made exactly of named ids, some text, a model and no negative counts; it starts out valid. */
  lemma NewSummarySpelledOut(tenant: Id, conversation: Id, text: string, model: string, tokensIn: int, tokensOut: int,
                             generatedAt: int, ttl: int)
    ensures var made := NewSummary(tenant, conversation, text, model, tokensIn, tokensOut, generatedAt, ttl);
            && (made == Err(ZeroTenant) <==> tenant == NIL_ID)
            && (made == Err(ZeroConversation) <==> tenant != NIL_ID && conversation == NIL_ID)
            && (made.Ok? <==> tenant != NIL_ID && conversation != NIL_ID && |text| > 0 && |model| > 0 && tokensIn >= 0 && tokensOut >= 0)
            && (made.Ok? ==>
                  && made.row.tenant == tenant && made.row.conversation == conversation && made.row.text == text && made.row.model == model
                  && made.row.tokensIn == tokensIn && made.row.tokensOut == tokensOut && made.row.generatedAt == generatedAt)
    ensures var made := NewSummary(tenant, conversation, text, model, tokensIn, tokensOut, generatedAt, ttl);
            made.Ok? && generatedAt > 0 ==>
              forall now :: && (Served(made.row, now) <==> ttl <= 0 || now < generatedAt + ttl)
                            && (IsValid(made.row, now) <==> ttl <= 0 || now <= generatedAt + ttl)
  {
  }

  /** `IsValid`: usable up to and including its expiry. */
  predicate IsValid(r: Row, now: int) {
    r.invalidatedAt == 0 && (r.expiresAt == 0 || now <= r.expiresAt)
  }

  /** The SQL filter of `GetLatestValid`: usable strictly before its expiry. */
  predicate Served(r: Row, now: int) {
    r.invalidatedAt == 0 && (r.expiresAt == 0 || now < r.expiresAt)
  }

  /** The two notions of validity differ at one instant only. */
  lemma DomainAndStoreDisagreeOnlyAtExpiry(r: Row, now: int)
    ensures IsValid(r, now) != Served(r, now) <==> r.invalidatedAt == 0 && r.expiresAt != 0 && now == r.expiresAt
  {
  }

  /** The first invalidation wins. */
  function InvalidatedRow(r: Row, now: int): Row {
    if r.invalidatedAt != 0 then r else r.(invalidatedAt := now)
  }

  /** Once unusable, unusable for good, whatever is done to the row. */
  lemma UnusableForGood(r: Row, at: int, now: int, later: int)
    requires now <= later
    ensures !Served(r, now) ==> !Served(r, later) && !Served(InvalidatedRow(r, at), later)
    ensures !IsValid(r, now) ==> !IsValid(r, later) && !IsValid(InvalidatedRow(r, at), later)
    ensures at != 0 ==> !Served(InvalidatedRow(r, at), later) && InvalidatedRow(r, at).invalidatedAt != 0
    ensures InvalidatedRow(InvalidatedRow(r, at), later) == InvalidatedRow(r, if at == 0 then later else at)
  {
  }

  class Summary {
    var row: Row

    constructor (r: Row)
      ensures row == r
    {
      row := r;
    }

    method Invalidate(now: int)
      modifies this
      ensures row == InvalidatedRow(old(row), now)
      ensures row == old(row).(invalidatedAt := if old(row).invalidatedAt == 0 then now else old(row).invalidatedAt)
    {
      if row.invalidatedAt != 0 { return; }
      row := row.(invalidatedAt := now);
    }
  }

  // ----- the store

  predicate For(r: Row, t: Id, c: Id) {
    r.tenant == t && r.conversation == c
  }

  /** No row of the conversation is served. */
  predicate Miss(rows: seq<Row>, t: Id, c: Id, now: int) {
    forall i :: 0 <= i < |rows| ==> !(For(rows[i], t, c) && Served(rows[i], now))
  }

  function InvalidatedAll(rows: seq<Row>, t: Id, c: Id, now: int): seq<Row> {
    seq(|rows|, i requires 0 <= i < |rows| => if For(rows[i], t, c) then InvalidatedRow(rows[i], now) else rows[i])
  }

  class Store {
    var rows: seq<Row>

    constructor ()
      ensures rows == []
    {
      rows := [];
    }

    method Save(r: Row)
      modifies this
      ensures rows == old(rows) + [r]
    {
      rows := rows + [r];
    }

    /** The most recently generated served row, or a miss. */
    method GetLatestValid(t: Id, c: Id, now: int) returns (found: Option<Row>)
      ensures found.None? <==> Miss(rows, t, c, now)
      ensures found.Some? ==> found.value in rows && For(found.value, t, c) && Served(found.value, now)
      ensures found.Some? ==> found.value.tenant == t && found.value.conversation == c && found.value.invalidatedAt == 0
      ensures found.None? ==> forall r :: r in rows && r.tenant == t && r.conversation == c && r.invalidatedAt == 0 ==>
                                            r.expiresAt != 0 && r.expiresAt <= now
      ensures found.Some? ==> forall i :: 0 <= i < |rows| && For(rows[i], t, c) && Served(rows[i], now) ==>
                                            rows[i].generatedAt <= found.value.generatedAt
    {
      found := None;
      for k := 0 to |rows|
        invariant found.None? <==> Miss(rows[..k], t, c, now)
        invariant found.Some? ==> found.value in rows[..k] && For(found.value, t, c) && Served(found.value, now)
        invariant found.Some? ==> forall i :: 0 <= i < k && For(rows[i], t, c) && Served(rows[i], now) ==>
                                                rows[i].generatedAt <= found.value.generatedAt
      {
        if For(rows[k], t, c) && Served(rows[k], now) {
          if found.None? || found.value.generatedAt < rows[k].generatedAt {
            found := Some(rows[k]);
          }
          assert For(rows[..k + 1][k], t, c) && Served(rows[..k + 1][k], now);
        } else {
          assert forall i :: 0 <= i < k + 1 && i != k ==> rows[..k + 1][i] == rows[..k][i];
        }
      }
      assert rows[..|rows|] == rows;
    }

    method InvalidateForConversation(t: Id, c: Id, now: int)
      modifies this
      ensures rows == InvalidatedAll(old(rows), t, c, now)
      ensures |rows| == |old(rows)| && forall i :: 0 <= i < |rows| ==>
                rows[i] == if old(rows)[i].tenant == t && old(rows)[i].conversation == c && old(rows)[i].invalidatedAt == 0
                           then old(rows)[i].(invalidatedAt := now) else old(rows)[i]
    {
      var k := 0;
      while k < |rows|
        invariant 0 <= k <= |rows| == |old(rows)|
        invariant forall i :: 0 <= i < k ==> rows[i] == if For(old(rows)[i], t, c) then InvalidatedRow(old(rows)[i], now) else old(rows)[i]
        invariant forall i :: k <= i < |rows| ==> rows[i] == old(rows)[i]
      {
        if For(rows[k], t, c) && rows[k].invalidatedAt == 0 {
          rows := rows[k := rows[k].(invalidatedAt := now)];
        }
        k := k + 1;
      }
    }
  }

  // ----- at most one

  /** At most one row of the conversation is served. */
  predicate AtMostOne(rows: seq<Row>, t: Id, c: Id, now: int) {
    forall i, j :: 0 <= i < j < |rows| && For(rows[i], t, c) && For(rows[j], t, c) ==>
                     !(Served(rows[i], now) && Served(rows[j], now))
  }

  /**
   The documented "at most one is valid at a time" survives a save exactly when the save follows a
   miss. A forced refresh, or two requests that both missed before either saved, breaks it.
   */
  lemma SaveKeepsAtMostOneExactly(rows: seq<Row>, r: Row, now: int)
    requires AtMostOne(rows, r.tenant, r.conversation, now) && Served(r, now)
    ensures AtMostOne(rows + [r], r.tenant, r.conversation, now) <==> Miss(rows, r.tenant, r.conversation, now)
  {
    var m := rows + [r];
    if !Miss(rows, r.tenant, r.conversation, now) {
      var i :| 0 <= i < |rows| && For(rows[i], r.tenant, r.conversation) && Served(rows[i], now);
      assert m[i] == rows[i] && m[|rows|] == r;
    }
  }

  datatype Op =
    | Save(row: Row)
    | Invalidate(t: Id, c: Id, at: int)

  function TimeOf(op: Op): int {
    match op
    case Save(r) => r.generatedAt
    case Invalidate(_, _, at) => at
  }

  function Apply(rows: seq<Row>, op: Op): seq<Row> {
    match op
    case Save(r) => rows + [r]
    case Invalidate(t, c, at) => InvalidatedAll(rows, t, c, at)
  }

  function After(ops: seq<Op>): seq<Row> {
    if ops == [] then [] else Apply(After(ops[..|ops| - 1]), ops[|ops| - 1])
  }

  /** Every save follows a miss at the instant its summary was generated. */
  ghost predicate Disciplined(ops: seq<Op>) {
    forall i :: 0 <= i < |ops| && ops[i].Save? ==>
      Miss(After(ops[..i]), ops[i].row.tenant, ops[i].row.conversation, TimeOf(ops[i]))
  }

  lemma DisciplinedPrefix(ops: seq<Op>)
    requires Disciplined(ops) && ops != []
    ensures Disciplined(ops[..|ops| - 1])
  {
    var init := ops[..|ops| - 1];
    forall i | 0 <= i < |init| && init[i].Save?
      ensures Miss(After(init[..i]), init[i].row.tenant, init[i].row.conversation, TimeOf(init[i]))
    {
      assert init[..i] == ops[..i];
      assert ops[i].Save?;
    }
  }

  /** Over any disciplined run, at every instant from its last operation on, a conversation has at most one summary. */
  lemma {:induction false} NeverTwo(ops: seq<Op>, t: Id, c: Id, now: int)
    requires Disciplined(ops)
    requires forall i :: 0 <= i < |ops| ==> TimeOf(ops[i]) <= now
    ensures AtMostOne(After(ops), t, c, now)
    decreases |ops|
  {
    if ops != [] {
      var n := |ops| - 1;
      DisciplinedPrefix(ops);
      NeverTwo(ops[..n], t, c, now);
      var rows := After(ops[..n]);
      if ops[n].Save? && For(ops[n].row, t, c) {
        assert Miss(rows, t, c, TimeOf(ops[n]));
        MissLasts(rows, t, c, TimeOf(ops[n]), now);
      }
    }
  }

  /** A miss stays a miss as time passes. */
  lemma MissLasts(rows: seq<Row>, t: Id, c: Id, now: int, later: int)
    requires Miss(rows, t, c, now) && now <= later
    ensures Miss(rows, t, c, later)
  {
  }

  /** Whether op is a save for the conversation. */
  predicate SavesFor(op: Op, t: Id, c: Id) {
    op.Save? && For(op.row, t, c)
  }

  /** Invalidating a conversation forces misses, at any instant, until the next save for it. */
  lemma {:induction false} InvalidationForcesMisses(ops: seq<Op>, k: nat, t: Id, c: Id, now: int)
    requires k < |ops| && ops[k].Invalidate? && ops[k].t == t && ops[k].c == c && ops[k].at != 0
    requires forall i :: k < i < |ops| ==> !SavesFor(ops[i], t, c)
    ensures Miss(After(ops), t, c, now)
    decreases |ops|
  {
    var n := |ops| - 1;
    if n > k {
      InvalidationForcesMisses(ops[..n], k, t, c, now);
      assert !SavesFor(ops[n], t, c);
    }
  }

  /** Invalidation of one conversation leaves the rows of every other as they were. */
  lemma OthersUntouched(rows: seq<Row>, t: Id, c: Id, at: int, i: nat)
    requires i < |rows| && !For(rows[i], t, c)
    ensures InvalidatedAll(rows, t, c, at)[i] == rows[i]
  {
  }

  /**
   By the domain's own notion a replaced row and its successor are both valid at one instant at most:
   when the successor was generated at the very expiry of the row it replaces.
   */
  lemma OverlapOnlyAtExpiry(older: Row, newer: Row, now: int)
    requires !Served(older, newer.generatedAt) && newer.generatedAt <= now
    ensures IsValid(older, now) <==> older.invalidatedAt == 0 && older.expiresAt != 0
                                     && now == newer.generatedAt == older.expiresAt
  {
  }
}
