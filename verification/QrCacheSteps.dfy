/**
 The QR cache under concurrent readers (internal/wasession/qrcache.go). `Get` reads the entry under the read
 lock, looks at the clock outside it and, if the code it read has expired, drops the tenant's entry under the
 write lock; the pump may store a new code in between. Every step carries the instant it happens at.
 */
module QrCacheSteps {
  import opened SessionEvents

  /** A reader holding the code it read, or about to drop the tenant's entry. */
  datatype Reader = Holding(t: Tenant, qr: QrCode) | Dropping(t: Tenant)

  datatype State = State(codes: map<Tenant, QrCode>, readers: map<nat, Reader>)

  datatype Step =
    | Put(t: Tenant, qr: QrCode, at: Instant)
    | Clear(t: Tenant, at: Instant)
    | Look(g: nat, t: Tenant, at: Instant)
    | Test(g: nat, at: Instant)
    | Drop(g: nat, at: Instant)

  const INIT := State(map[], map[])

  predicate Live(qr: QrCode, now: Instant) {
    qr.expiresAt == 0 || now <= qr.expiresAt
  }

  predicate Enabled(s: State, step: Step) {
    match step
    case Put(_, _, _) => true
    case Clear(_, _) => true
    case Look(g, _, _) => g !in s.readers
    case Test(g, _) => g in s.readers && s.readers[g].Holding?
    case Drop(g, _) => g in s.readers && s.readers[g].Dropping?
  }

  /** A reader that finds nothing, or finds its code live, is done. */
  function Do(s: State, step: Step): State
    requires Enabled(s, step)
  {
    match step
    case Put(t, qr, _) => if qr.code == "" then s else s.(codes := s.codes[t := qr])
    case Clear(t, _) => s.(codes := s.codes - {t})
    case Look(g, t, _) => if t in s.codes then s.(readers := s.readers[g := Holding(t, s.codes[t])]) else s
    case Test(g, now) =>
      var Holding(t, qr) := s.readers[g];
      if Live(qr, now) then s.(readers := s.readers - {g}) else s.(readers := s.readers[g := Dropping(t)])
    case Drop(g, _) => State(s.codes - {s.readers[g].t}, s.readers - {g})
  }

  /** A run from any state, under a clock that does not run back. */
  ghost predicate Run(ss: seq<State>, steps: seq<Step>) {
    && |ss| == |steps| + 1
    && (forall i :: 0 <= i < |steps| ==> Enabled(ss[i], steps[i]) && ss[i + 1] == Do(ss[i], steps[i]))
    && forall i, j :: 0 <= i < j < |steps| ==> steps[i].at <= steps[j].at
  }

  /** Step k stores or removes the tenant's entry. */
  predicate Touches(s: State, step: Step, t: Tenant) {
    match step
    case Put(u, qr, _) => u == t && qr.code != ""
    case Clear(u, _) => u == t
    case Look(_, _, _) => false
    case Test(_, _) => false
    case Drop(g, _) => g in s.readers && s.readers[g] == Dropping(t)
  }

  ghost predicate Untouched(ss: seq<State>, steps: seq<Step>, m: int, n: int, t: Tenant)
    requires |ss| == |steps| + 1 && 0 <= m <= n <= |steps|
  {
    forall k :: m <= k < n ==> !Touches(ss[k], steps[k], t)
  }

  predicate SameEntry(s: State, s': State, t: Tenant) {
    (t in s.codes <==> t in s'.codes) && (t in s.codes ==> s'.codes[t] == s.codes[t])
  }

  lemma {:induction false} UntouchedStays(ss: seq<State>, steps: seq<Step>, m: nat, n: nat, t: Tenant)
    requires Run(ss, steps) && m <= n <= |steps| && Untouched(ss, steps, m, n, t)
    ensures SameEntry(ss[m], ss[n], t)
    decreases n
  {
    if m < n {
      UntouchedStays(ss, steps, m, n - 1, t);
      assert !Touches(ss[n - 1], steps[n - 1], t) && ss[n] == Do(ss[n - 1], steps[n - 1]);
    }
  }

  /** The last step in a stretch that touches the tenant's entry, if one does. */
  lemma {:induction false} LastTouch(ss: seq<State>, steps: seq<Step>, m: nat, n: nat, t: Tenant) returns (k: nat)
    requires Run(ss, steps) && m <= n <= |steps| && !Untouched(ss, steps, m, n, t)
    ensures m <= k < n && Touches(ss[k], steps[k], t) && Untouched(ss, steps, k + 1, n, t)
    decreases n
  {
    if Touches(ss[n - 1], steps[n - 1], t) {
      k := n - 1;
    } else {
      k := LastTouch(ss, steps, m, n - 1, t);
    }
  }

  predicate ByReader(step: Step, g: nat) {
    (step.Look? || step.Test? || step.Drop?) && step.g == g
  }

  /** Reader g reads t's entry in step i, finds the code it read expired in step h, and drops t's entry in step j. */
  ghost predicate Get(ss: seq<State>, steps: seq<Step>, i: nat, h: nat, j: nat, g: nat, t: Tenant) {
    && Run(ss, steps) && i < h < j < |steps|
    && steps[i] == Look(g, t, steps[i].at) && t in ss[i].codes && !Live(ss[i].codes[t], steps[h].at)
    && steps[h] == Test(g, steps[h].at) && steps[j] == Drop(g, steps[j].at)
    && forall k :: i < k < j && k != h ==> !ByReader(steps[k], g)
  }

  lemma {:induction false} ReaderAt(ss: seq<State>, steps: seq<Step>, i: nat, h: nat, j: nat, g: nat, t: Tenant, n: nat)
    requires Get(ss, steps, i, h, j, g, t) && i < n <= j
    ensures g in ss[n].readers && ss[n].readers[g] == if n <= h then Holding(t, ss[i].codes[t]) else Dropping(t)
    decreases n
  {
    assert ss[n] == Do(ss[n - 1], steps[n - 1]);
    if n > i + 1 {
      ReaderAt(ss, steps, i, h, j, g, t, n - 1);
      assert n - 1 != h ==> !ByReader(steps[n - 1], g);
    }
  }

  /** In step k the code is stored, and nothing touches the tenant's entry from then until j. */
  ghost predicate StoredLast(ss: seq<State>, steps: seq<Step>, k: int, j: nat, t: Tenant, qr: QrCode)
    requires |ss| == |steps| + 1 && j <= |steps|
  {
    0 <= k < j && steps[k] == Put(t, qr, steps[k].at) && qr.code != "" && Untouched(ss, steps, k + 1, j, t)
  }

  /**
   A reader's drop throws away the live code `qr` exactly when `qr` was stored between its read and its drop,
   nothing else touched the entry since, and `qr` is live at the drop. With no store in between the three
   parts are as good as one.
   */
  lemma LiveCodeLostExactly(ss: seq<State>, steps: seq<Step>, i: nat, h: nat, j: nat, g: nat, t: Tenant, qr: QrCode)
    requires Get(ss, steps, i, h, j, g, t)
    ensures t !in ss[j + 1].codes
    ensures t in ss[j].codes && ss[j].codes[t] == qr && Live(qr, steps[j].at) <==>
            Live(qr, steps[j].at) && exists k :: i < k && StoredLast(ss, steps, k, j, t, qr)
  {
    ReaderAt(ss, steps, i, h, j, g, t, j);
    assert ss[j + 1] == Do(ss[j], steps[j]) && ss[i + 1] == Do(ss[i], steps[i]);
    if t in ss[j].codes && ss[j].codes[t] == qr && Live(qr, steps[j].at) {
      if Untouched(ss, steps, i + 1, j, t) {
        UntouchedStays(ss, steps, i + 1, j, t);
        assert false;
      } else {
        var k := LastTouch(ss, steps, i + 1, j, t);
        UntouchedStays(ss, steps, k + 1, j, t);
        assert ss[k + 1] == Do(ss[k], steps[k]);
        assert StoredLast(ss, steps, k, j, t, qr);
      }
    }
    if k :| i < k && StoredLast(ss, steps, k, j, t, qr) {
      UntouchedStays(ss, steps, k + 1, j, t);
      assert ss[k + 1] == Do(ss[k], steps[k]);
    }
  }

  /**
   It happens, even to a reader whose code was still live when it read it: read at 9, renewed at 10 until 40,
   found expired at 11, and at 12 the renewed code is gone.
   */
  lemma FreshCodeIsLost(t: Tenant, stale: QrCode, renewed: QrCode) returns (ss: seq<State>, steps: seq<Step>)
    requires stale.code != "" && stale.expiresAt == 10 && renewed.code != "" && renewed.expiresAt == 40
    ensures Run(ss, steps) && |steps| == 5 && ss[0] == INIT && Get(ss, steps, 1, 3, 4, 0, t) && steps[1].at < stale.expiresAt
    ensures steps[2] == Put(t, renewed, 10) && steps[4].at < renewed.expiresAt && ss[5].codes == map[]
  {
    steps := [Put(t, stale, 0), Look(0, t, 9), Put(t, renewed, 10), Test(0, 11), Drop(0, 12)];
    var s1 := State(map[t := stale], map[]);
    var s2 := State(map[t := stale], map[0 := Holding(t, stale)]);
    var s3 := State(map[t := renewed], map[0 := Holding(t, stale)]);
    var s4 := State(map[t := renewed], map[0 := Dropping(t)]);
    ss := [INIT, s1, s2, s3, s4, State(map[], map[])];
    assert Do(INIT, steps[0]) == s1 && Do(s1, steps[1]) == s2 && Do(s2, steps[2]) == s3;
    assert Do(s3, steps[3]) == s4 && Do(s4, steps[4]) == State(map[], map[]);
  }

  /** A reader nobody disturbs does what the cache object's Get does: an expired code goes, and nothing else changes. */
  lemma GetAlone(s: State, g: nat, t: Tenant, now: Instant)
    requires g !in s.readers
    ensures var looked := Do(s, Look(g, t, now));
            var tested := if Enabled(looked, Test(g, now)) then Do(looked, Test(g, now)) else looked;
            var done := if Enabled(tested, Drop(g, now)) then Do(tested, Drop(g, now)) else tested;
            && done.readers == s.readers
            && done.codes == if t in s.codes && s.codes[t].expiresAt != 0 && s.codes[t].expiresAt < now then s.codes - {t} else s.codes
  {
  }

  /** The pump's own writes never wait for a reader: a non-empty code is stored, and a cleared entry is gone. */
  lemma WritersNeverWait(s: State, t: Tenant, qr: QrCode, now: Instant)
    ensures Enabled(s, Put(t, qr, now)) && Enabled(s, Clear(t, now))
    ensures Do(s, Put(t, qr, now)) == State(if |qr.code| == 0 then s.codes else s.codes[t := qr], s.readers)
    ensures Do(s, Clear(t, now)) == State(s.codes - {t}, s.readers)
  {
  }
}
