/**
 What the summarize use case makes of the summary cache (internal/aiassist/usecase/summarize.go): when a
 conversation keeps at most one served summary, and which rows outlive an invalidation.
 */
module SummarizeCache {
  import opened Uuids
  import C = SummaryCache
  import opened Summarize

  // ----- at most one

  /** The attempt is under way on the conversation. */
  predicate Active(at: Attempt, x: Id) {
    at.ask.conversation == x && !at.phase.Over?
  }

  predicate BeginsOn(step: Step, x: Id) {
    step.Begin? && step.ask.conversation == x
  }

  /** A begin on the conversation is not forced, and no other attempt on it is under way. */
  ghost predicate Calm(s: State, step: Step, x: Id) {
    BeginsOn(step, x) ==> !step.force && forall a :: a in s.attempts ==> !Active(s.attempts[a], x)
  }

  /**
   From instant `t` on the conversation has at most one summary; at most one attempt is under way on it, and
   none of the rows so far is served from the instant it began.
   */
  ghost predicate CacheOk(tenant: Id, s: State, x: Id, t: int) {
    && (forall now :: t <= now ==> C.AtMostOne(s.rows, tenant, x, now))
    && (forall a, b :: a in s.attempts && b in s.attempts && Active(s.attempts[a], x) && Active(s.attempts[b], x) ==> a == b)
    && (forall a :: a in s.attempts && Active(s.attempts[a], x) ==>
          s.attempts[a].now <= t && C.Miss(s.rows, tenant, x, s.attempts[a].now))
  }

  lemma InvalidatingKeeps(rows: seq<C.Row>, tenant: Id, c: Id, at: int, x: Id, now: int)
    ensures var rows' := C.InvalidatedAll(rows, tenant, c, at);
            && (C.AtMostOne(rows, tenant, x, now) ==> C.AtMostOne(rows', tenant, x, now))
            && (C.Miss(rows, tenant, x, now) ==> C.Miss(rows', tenant, x, now))
  {
    var rows' := C.InvalidatedAll(rows, tenant, c, at);
    assert forall i :: 0 <= i < |rows| ==>
        C.For(rows'[i], tenant, x) == C.For(rows[i], tenant, x) && (C.Served(rows'[i], now) ==> C.Served(rows[i], now));
  }

  lemma SavingKeeps(rows: seq<C.Row>, r: C.Row, tenant: Id, x: Id, now: int)
    ensures !C.For(r, tenant, x) && C.AtMostOne(rows, tenant, x, now) ==> C.AtMostOne(rows + [r], tenant, x, now)
    ensures !C.For(r, tenant, x) && C.Miss(rows, tenant, x, now) ==> C.Miss(rows + [r], tenant, x, now)
    ensures C.Miss(rows, tenant, x, now) ==> C.AtMostOne(rows + [r], tenant, x, now)
  {
    var m := rows + [r];
    assert forall i :: 0 <= i < |rows| ==> m[i] == rows[i];
    assert m[|rows|] == r;
  }

  /** Saving the summary of the one attempt under way, or of an attempt on another conversation. */
  lemma PersistKeeps(tenant: Id, s: State, a: nat, fails: bool, x: Id, t: int)
    requires CacheOk(tenant, s, x, t) && Enabled(tenant, s, Persist(a, fails))
    ensures CacheOk(tenant, Do(tenant, s, Persist(a, fails)), x, t)
  {
    var s', at := Do(tenant, s, Persist(a, fails)), s.attempts[a];
    var out := Persisted(tenant, at, at.phase.reply, fails);
    if out.Saved? {
      forall now | t <= now ensures C.AtMostOne(s'.rows, tenant, x, now) {
        assert C.AtMostOne(s.rows, tenant, x, now);
        SavingKeeps(s.rows, out.row, tenant, x, now);
        if Active(at, x) {
          C.MissLasts(s.rows, tenant, x, at.now, now);
        }
      }
      forall b | b in s'.attempts && Active(s'.attempts[b], x)
        ensures C.Miss(s'.rows, tenant, x, s'.attempts[b].now)
      {
        assert b != a && Active(s.attempts[b], x) && !Active(at, x);
        SavingKeeps(s.rows, out.row, tenant, x, s.attempts[b].now);
      }
    }
  }

  /** A step that leaves the rows alone and at most moves one attempt on, or ends it. */
  lemma MovingKeeps(tenant: Id, s: State, s': State, a: nat, x: Id, t: int)
    requires CacheOk(tenant, s, x, t) && s'.rows == s.rows && a in s.attempts && s'.attempts.Keys == s.attempts.Keys
    requires forall b :: b in s.attempts && b != a ==> s'.attempts[b] == s.attempts[b]
    requires s'.attempts[a].ask == s.attempts[a].ask && s'.attempts[a].now == s.attempts[a].now && !s.attempts[a].phase.Over?
    ensures CacheOk(tenant, s', x, t)
  {
    assert forall b :: b in s'.attempts && Active(s'.attempts[b], x) ==> Active(s.attempts[b], x);
  }

  lemma BeginKeeps(tenant: Id, s: State, step: Step, x: Id, t: int)
    requires CacheOk(tenant, s, x, t) && step.Begin? && Enabled(tenant, s, step) && Calm(s, step, x)
    requires BeginsOn(step, x) ==> step.now <= t
    ensures CacheOk(tenant, Do(tenant, s, step), x, t)
  {
    var s' := Do(tenant, s, step);
    assert forall b :: b in s.attempts ==> b != step.a && s'.attempts[b] == s.attempts[b];
  }

  lemma StepKeepsCache(tenant: Id, s: State, step: Step, x: Id, t: int)
    requires CacheOk(tenant, s, x, t) && Enabled(tenant, s, step) && Calm(s, step, x)
    requires BeginsOn(step, x) ==> step.now <= t
    ensures CacheOk(tenant, Do(tenant, s, step), x, t)
  {
    var s' := Do(tenant, s, step);
    match step
    case Begin(_, _, _, _, _, _, _, _) => BeginKeeps(tenant, s, step, x, t);
    case Persist(a, fails) => PersistKeeps(tenant, s, a, fails, x, t);
    case InvalidateAt(c, at) =>
      forall now ensures C.AtMostOne(s.rows, tenant, x, now) ==> C.AtMostOne(s'.rows, tenant, x, now) {
        InvalidatingKeeps(s.rows, tenant, c, at, x, now);
      }
      forall now ensures C.Miss(s.rows, tenant, x, now) ==> C.Miss(s'.rows, tenant, x, now) {
        InvalidatingKeeps(s.rows, tenant, c, at, x, now);
      }
    case Inside(_) =>
    case _ => MovingKeeps(tenant, s, s', step.a, x, t);
  }

  lemma {:induction false} CalmRunOk(tenant: Id, ss: seq<State>, steps: seq<Step>, n: nat, x: Id, t: int)
    requires Run(tenant, ss, steps) && n < |ss|
    requires forall i :: 0 <= i < n ==> Calm(ss[i], steps[i], x)
    requires forall i :: 0 <= i < n && BeginsOn(steps[i], x) ==> steps[i].now <= t
    ensures CacheOk(tenant, ss[n], x, t)
    decreases n
  {
    if n > 0 {
      CalmRunOk(tenant, ss, steps, n - 1, x, t);
      assert Follows(tenant, ss[n - 1], steps[n - 1], ss[n]) && Calm(ss[n - 1], steps[n - 1], x);
      StepKeepsCache(tenant, ss[n - 1], steps[n - 1], x, t);
    }
  }

  /**
   In every run in which no attempt on the conversation is forced and none begins while another is under
   way, the conversation has at most one summary at every instant from its last begin on, whatever
   happens on other conversations, to the wallet, or by crashes.
   */
  lemma CalmConversationHasOne(tenant: Id, ss: seq<State>, steps: seq<Step>, n: nat, x: Id, now: int)
    requires Run(tenant, ss, steps) && n < |ss|
    requires forall i :: 0 <= i < n ==> Calm(ss[i], steps[i], x)
    requires forall i :: 0 <= i < n && BeginsOn(steps[i], x) ==> steps[i].now <= now
    ensures C.AtMostOne(ss[n].rows, tenant, x, now)
  {
    CalmRunOk(tenant, ss, steps, n, x, now);
  }

  // ----- invalidation

  predicate Invalidates(step: Step, x: Id) {
    step.InvalidateAt? && step.conversation == x
  }

  /** Rows of the conversation are marked exactly if they were there before. */
  ghost predicate MarkedBefore(rows: seq<C.Row>, tenant: Id, x: Id, before: nat) {
    before <= |rows| && forall i :: 0 <= i < |rows| && C.For(rows[i], tenant, x) ==> (rows[i].invalidatedAt != 0 <==> i < before)
  }

  lemma StepKeepsMarks(tenant: Id, s: State, step: Step, x: Id, before: nat)
    requires Enabled(tenant, s, step) && !Invalidates(step, x) && MarkedBefore(s.rows, tenant, x, before)
    ensures MarkedBefore(Do(tenant, s, step).rows, tenant, x, before)
  {
  }

  lemma {:induction false} MarkedSince(tenant: Id, ss: seq<State>, steps: seq<Step>, k: nat, n: nat, x: Id)
    requires Run(tenant, ss, steps) && k < n < |ss| && Invalidates(steps[k], x) && steps[k].now != 0
    requires forall i :: k < i < n ==> !Invalidates(steps[i], x)
    ensures MarkedBefore(ss[n].rows, tenant, x, |ss[k].rows|)
    decreases n
  {
    assert Follows(tenant, ss[n - 1], steps[n - 1], ss[n]);
    if n - 1 > k {
      MarkedSince(tenant, ss, steps, k, n - 1, x);
      StepKeepsMarks(tenant, ss[n - 1], steps[n - 1], x, |ss[k].rows|);
    }
  }

  /**
   After the last invalidation of a conversation, in step k, a row of it is served exactly if it was saved
   after that step and has not expired. When its attempt began plays no part: a summary begun before the
   invalidation and saved after it is served, though it does not reflect what prompted the invalidation.
   */
  lemma ServedAfterInvalidation(tenant: Id, ss: seq<State>, steps: seq<Step>, k: nat, n: nat, x: Id, i: nat, now: int)
    requires Run(tenant, ss, steps) && k < n < |ss| && Invalidates(steps[k], x) && steps[k].now != 0
    requires forall j :: k < j < n ==> !Invalidates(steps[j], x)
    requires i < |ss[n].rows| && C.For(ss[n].rows[i], tenant, x)
    ensures C.Served(ss[n].rows[i], now) <==>
            i >= |ss[k].rows| && (ss[n].rows[i].expiresAt == 0 || now < ss[n].rows[i].expiresAt)
  {
    MarkedSince(tenant, ss, steps, k, n, x);
  }
}
