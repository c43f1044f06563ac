/** The one-token limiter of the panel fixture (cmd/aipanel-e2e-fixture/main.go). */
module Limiter {
  import opened Durations

  /** The limiter's state: when each id may next be admitted. */
  type Book = map<string, int>

  datatype Answer = Admitted | Denied(retry: int)

  function LimiterId(bucket: string, key: string): string {
    bucket + "|" + key
  }

  /** `newTokenBucketLimiter` replaces a non-positive cooldown by one second. */
  function Cooldown(asked: int): (c: int)
    ensures c > 0
  {
    if asked <= 0 then SECOND else asked
  }

  predicate Free(book: Book, id: string, now: int) {
    id in book ==> book[id] <= now
  }

  function AnswerFor(book: Book, id: string, now: int): Answer {
    if Free(book, id, now) then Admitted
    else
      var left := Sub(book[id], now);
      Denied(if left < SECOND then SECOND else left)
  }

  function BookAfter(book: Book, cooldown: int, id: string, now: int): Book {
    if Free(book, id, now) then book[id := now + cooldown] else book
  }

  class TokenBucketLimiter {
    const cooldown: int
    var nextOk: Book

    constructor (asked: int)
      ensures cooldown == Cooldown(asked) && nextOk == map[]
      ensures cooldown == if asked > 0 then asked else 1_000_000_000
    {
      cooldown := Cooldown(asked);
      nextOk := map[];
    }

    method Reset()
      modifies this
      ensures nextOk == map[]
    {
      nextOk := map[];
    }

    method Allow(bucket: string, key: string, now: int) returns (allowed: bool, retry: int)
      modifies this
      ensures nextOk == BookAfter(old(nextOk), cooldown, LimiterId(bucket, key), now)
      ensures allowed == AnswerFor(old(nextOk), LimiterId(bucket, key), now).Admitted?
      ensures !allowed ==> nextOk == old(nextOk) && retry == AnswerFor(old(nextOk), LimiterId(bucket, key), now).retry
      ensures allowed ==> retry == 0
      ensures var id := bucket + "|" + key;
              && (allowed <==> id !in old(nextOk) || old(nextOk)[id] <= now)
              && (allowed ==> nextOk == old(nextOk)[id := now + cooldown])
              && (!allowed ==> retry >= 1_000_000_000)
              && (!allowed && 1_000_000_000 <= old(nextOk)[id] - now <= MAX_DURATION ==> retry == old(nextOk)[id] - now)
              && (!allowed && old(nextOk)[id] - now < 1_000_000_000 ==> retry == 1_000_000_000)
    {
      var id := bucket + "|" + key;
      if id !in nextOk || !(now < nextOk[id]) {
        nextOk := nextOk[id := now + cooldown];
        return true, 0;
      }
      retry := Sub(nextOk[id], now);
      if retry < SECOND {
        retry := SECOND;
      }
      return false, retry;
    }
  }

  // ----- runs between resets

  datatype Ask = Ask(bucket: string, key: string, now: int)

  function IdOf(a: Ask): string {
    LimiterId(a.bucket, a.key)
  }

  function BookAfterAll(cooldown: int, asks: seq<Ask>): Book {
    if asks == [] then map[]
    else BookAfter(BookAfterAll(cooldown, asks[..|asks| - 1]), cooldown, IdOf(asks[|asks| - 1]), asks[|asks| - 1].now)
  }

  /** The instants at which requests for `id` were let through since the last reset. */
  function Admissions(cooldown: int, asks: seq<Ask>, id: string): seq<int> {
    if asks == [] then []
    else
      var before := asks[..|asks| - 1];
      var last := asks[|asks| - 1];
      Admissions(cooldown, before, id) +
      (if IdOf(last) == id && Free(BookAfterAll(cooldown, before), id, last.now) then [last.now] else [])
  }

  /** The book remembers the last admission of each id, and nothing else. */
  lemma {:induction false} BookIsLastAdmission(cooldown: int, asks: seq<Ask>, id: string)
    ensures id in BookAfterAll(cooldown, asks) <==> Admissions(cooldown, asks, id) != []
    ensures var times := Admissions(cooldown, asks, id);
            times != [] ==> BookAfterAll(cooldown, asks)[id] == times[|times| - 1] + cooldown
    decreases |asks|
  {
    if asks != [] {
      BookIsLastAdmission(cooldown, asks[..|asks| - 1], id);
    }
  }

  /** Admissions of one id are at least a cooldown apart, whatever the clock does and whoever else asks. */
  lemma {:induction false} AdmissionsAreSpaced(cooldown: int, asks: seq<Ask>, id: string)
    ensures var times := Admissions(cooldown, asks, id);
            forall i :: 0 <= i < |times| - 1 ==> times[i] + cooldown <= times[i + 1]
    decreases |asks|
  {
    if asks != [] {
      AdmissionsAreSpaced(cooldown, asks[..|asks| - 1], id);
      BookIsLastAdmission(cooldown, asks[..|asks| - 1], id);
    }
  }

  lemma {:induction false} SpacedSum(times: seq<int>, cooldown: int, i: nat, n: nat)
    requires cooldown > 0 && i + n < |times|
    requires forall k :: 0 <= k < |times| - 1 ==> times[k] + cooldown <= times[k + 1]
    ensures times[i] + n * cooldown <= times[i + n]
    decreases n
  {
    if n > 0 {
      SpacedSum(times, cooldown, i, n - 1);
      assert times[i + n - 1] + cooldown <= times[i + n];
    }
  }

  /** A half-open window of `k` cooldowns lets at most `k` requests for one id through. */
  lemma WindowAdmitsAtMost(asked: int, asks: seq<Ask>, id: string, from: int, k: nat, i: nat, n: nat)
    requires var times := Admissions(Cooldown(asked), asks, id);
             i + n <= |times| && forall j :: i <= j < i + n ==> from <= times[j] < from + k * Cooldown(asked)
    ensures n <= k
  {
    var cooldown := Cooldown(asked);
    var times := Admissions(cooldown, asks, id);
    AdmissionsAreSpaced(cooldown, asks, id);
    if n > k {
      SpacedSum(times, cooldown, i, k);
    }
  }

  // ----- the answer can be trusted

  /** A denial changes nothing, and waiting as long as told suffices exactly if the true wait fits a Duration. */
  lemma WaitingAsToldSuffices(book: Book, cooldown: int, id: string, now: int)
    requires AnswerFor(book, id, now).Denied?
    ensures BookAfter(book, cooldown, id, now) == book
    ensures AnswerFor(book, id, now + AnswerFor(book, id, now).retry) == Admitted <==> book[id] - now <= MAX_DURATION
  {
  }

  /** It always fits when the clock has not run back since the id was last admitted. */
  lemma {:induction false} SteadyClockKeepsWaitShort(asked: int, asks: seq<Ask>, a: Ask)
    requires asked <= MAX_DURATION
    requires forall i :: 0 <= i < |asks| ==> asks[i].now <= a.now
    requires AnswerFor(BookAfterAll(Cooldown(asked), asks), IdOf(a), a.now).Denied?
    ensures BookAfterAll(Cooldown(asked), asks)[IdOf(a)] - a.now <= Cooldown(asked) <= MAX_DURATION
    ensures AnswerFor(BookAfterAll(Cooldown(asked), asks), IdOf(a), a.now + AnswerFor(BookAfterAll(Cooldown(asked), asks), IdOf(a), a.now).retry) == Admitted
  {
    var c, id := Cooldown(asked), IdOf(a);
    BookIsLastAdmission(c, asks, id);
    AdmissionsAreAsked(c, asks, id, a.now);
  }

  lemma {:induction false} AdmissionsAreAsked(cooldown: int, asks: seq<Ask>, id: string, bound: int)
    requires forall i :: 0 <= i < |asks| ==> asks[i].now <= bound
    ensures forall i :: 0 <= i < |Admissions(cooldown, asks, id)| ==> Admissions(cooldown, asks, id)[i] <= bound
    decreases |asks|
  {
    if asks != [] {
      AdmissionsAreAsked(cooldown, asks[..|asks| - 1], id, bound);
    }
  }

  // ----- one map for all buckets

  /**
   Two pairs share an id exactly when they are equal, or one bucket extends the other by the separator and
   more, and the rest of it, the separator and its key make up the other key.
   */
  lemma SameIdExactly(b: string, k: string, b': string, k': string)
    ensures LimiterId(b, k) == LimiterId(b', k') <==>
            || (b == b' && k == k')
            || (b + "|" <= b' && k == b'[|b| + 1..] + "|" + k')
            || (b' + "|" <= b && k' == b[|b'| + 1..] + "|" + k)
  {
    if LimiterId(b, k) == LimiterId(b', k') {
      SplitsApart(b, k, b', k');
    }
    if b + "|" <= b' {
      assert b' == b + "|" + b'[|b| + 1..];
      assert LimiterId(b', k') == b + "|" + (b'[|b| + 1..] + "|" + k');
    }
    if b' + "|" <= b {
      assert b == b' + "|" + b[|b'| + 1..];
      assert LimiterId(b, k) == b' + "|" + (b[|b'| + 1..] + "|" + k);
    }
  }

  /** Without pipe-free buckets one pair's admission can deny another: here bucket "a" with key "b|c". */
  lemma CollidingPairs(cooldown: int, now: int)
    requires cooldown > 0
    ensures ("a", "b|c") != ("a|b", "c")
    ensures var book := BookAfterAll(cooldown, [Ask("a", "b|c", now)]);
            AnswerFor(book, IdOf(Ask("a|b", "c", now)), now).Denied?
  {
    var asks := [Ask("a", "b|c", now)];
    assert LimiterId("a", "b|c") == "a|b|c" == LimiterId("a|b", "c");
    assert asks[..0] == [];
    assert BookAfterAll(cooldown, asks) == map["a|b|c" := now + cooldown];
  }

  lemma SplitsApart(b: string, k: string, b': string, k': string)
    requires LimiterId(b, k) == LimiterId(b', k')
    ensures |b| == |b'| ==> b == b' && k == k'
    ensures |b| < |b'| ==> b + "|" <= b' && '|' in b' && k == b'[|b| + 1..] + "|" + k'
    ensures |b'| < |b| ==> b' + "|" <= b && '|' in b && k' == b[|b'| + 1..] + "|" + k
  {
    var x := LimiterId(b, k);
    assert x[..|b|] == b && x[|b|] == '|' && x[|b| + 1..] == k;
    assert x[..|b'|] == b' && x[|b'|] == '|' && x[|b'| + 1..] == k';
    if |b| < |b'| {
      assert b'[|b|] == '|';
      assert x[|b| + 1..] == b'[|b| + 1..] + "|" + k';
    } else if |b'| < |b| {
      assert b[|b'|] == '|';
      assert x[|b'| + 1..] == b[|b'| + 1..] + "|" + k;
    }
  }

  lemma PipeFreeIsInjective(b: string, k: string, b': string, k': string)
    requires '|' !in b && '|' !in b'
    ensures LimiterId(b, k) == LimiterId(b', k') <==> b == b' && k == k'
  {
    if LimiterId(b, k) == LimiterId(b', k') {
      SplitsApart(b, k, b', k');
    }
  }

  /** The specification: one independent book per (bucket, key). */
  type Ledger = map<(string, string), int>

  function LedgerAfter(ledger: Ledger, cooldown: int, a: Ask): Ledger {
    var p := (a.bucket, a.key);
    if p in ledger && a.now < ledger[p] then ledger else ledger[p := a.now + cooldown]
  }

  function LedgerAfterAll(cooldown: int, asks: seq<Ask>): Ledger {
    if asks == [] then map[]
    else LedgerAfter(LedgerAfterAll(cooldown, asks[..|asks| - 1]), cooldown, asks[|asks| - 1])
  }

  /** The concatenated-key book tells the same of every pair as the ledger does. */
  ghost predicate Refines(book: Book, ledger: Ledger) {
    forall b, k :: '|' !in b ==>
      (LimiterId(b, k) in book <==> (b, k) in ledger) && ((b, k) in ledger ==> book[LimiterId(b, k)] == ledger[(b, k)])
  }

  /** For pipe-free buckets the limiter behaves as independent limiters per (bucket, key), over any run. */
  lemma {:induction false} RefinesPerPair(cooldown: int, asks: seq<Ask>)
    requires forall i :: 0 <= i < |asks| ==> '|' !in asks[i].bucket
    ensures Refines(BookAfterAll(cooldown, asks), LedgerAfterAll(cooldown, asks))
    decreases |asks|
  {
    if asks != [] {
      var n := |asks| - 1;
      RefinesPerPair(cooldown, asks[..n]);
      var a := asks[n];
      var book, ledger := BookAfterAll(cooldown, asks[..n]), LedgerAfterAll(cooldown, asks[..n]);
      forall b, k | '|' !in b
        ensures LimiterId(b, k) == IdOf(a) <==> (b, k) == (a.bucket, a.key)
      {
        PipeFreeIsInjective(b, k, a.bucket, a.key);
      }
    }
  }

  /** So every request for a pipe-free bucket is let through exactly when its own pair's book says so. */
  lemma AdmittedPerPair(cooldown: int, asks: seq<Ask>, a: Ask)
    requires '|' !in a.bucket && forall i :: 0 <= i < |asks| ==> '|' !in asks[i].bucket
    ensures var ledger := LedgerAfterAll(cooldown, asks);
            AnswerFor(BookAfterAll(cooldown, asks), IdOf(a), a.now).Admitted?
            <==> !((a.bucket, a.key) in ledger && a.now < ledger[(a.bucket, a.key)])
  {
    RefinesPerPair(cooldown, asks);
  }
}
