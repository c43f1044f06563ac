/**
 The OpenRouter client's retry loop (adapters/openrouter/client.go) under one shared deadline.

 The outside world is an oracle: it says how long each attempt takes and what comes back, whether the
 sleep timer or the context wins when both fire at once, and when the caller cancels. Time passes only
 while the client is blocked, in an attempt or in a sleep, and a context's expiry is seen the instant it
 happens; an attempt returns no later than that instant.
 */
module OpenRouter {
  import opened Options
  import opened Durations
  import Text

  const BACKOFF: seq<int> := [250 * MILLISECOND, 500 * MILLISECOND, 1 * SECOND]
  const MAX_ATTEMPTS := 4

  const DEFAULT_TIMEOUT := 8 * SECOND

  /** The timeout of a client configured with `asked`. */
  function CallTimeout(asked: int): (t: int)
    ensures t > 0
  {
    if asked <= 0 then DEFAULT_TIMEOUT else asked
  }

  // ----- contexts

  datatype CtxErr = DeadlineExceeded | Canceled

  datatype Ctx = Ctx(deadline: Option<int>, cancelAt: Option<int>)

  /** The instant the context ends, if it does. */
  function EndsAt(ctx: Ctx): Option<int> {
    match (ctx.deadline, ctx.cancelAt)
    case (None, c) => c
    case (d, None) => d
    case (Some(d), Some(c)) => Some(if c < d then c else d)
  }

  /** `ctx.Err()` at an instant: whichever came first. */
  function ErrAt(ctx: Ctx, t: int): (e: Option<CtxErr>)
    ensures e.Some? <==> EndsAt(ctx).Some? && EndsAt(ctx).value <= t
  {
    match EndsAt(ctx)
    case None => None
    case Some(end) =>
      if t < end then None
      else if ctx.deadline == Some(end) then Some(DeadlineExceeded)
      else Some(Canceled)
  }

  /** `contextWithTimeout`. */
  function WithTimeout(parent: Ctx, now: int, timeout: int): Ctx {
    if timeout <= 0 then parent
    else if parent.deadline.Some? && Sub(parent.deadline.value, now) <= timeout then parent
    else if parent.deadline.Some? && parent.deadline.value < now + timeout then parent
    else parent.(deadline := Some(now + timeout))
  }

  /** The caller's deadline is further off than a Duration can say, and the timeout is the largest there is. */
  predicate OutOfRange(parent: Ctx, now: int, timeout: int) {
    timeout == MAX_DURATION && parent.deadline.Some? && parent.deadline.value - now > MAX_DURATION
  }

  /**
   The call's deadline is the earlier of the caller's and `now + timeout`, except in that corner, where
   the saturated comparison keeps the caller's deadline.
   */
  lemma DeadlineIsTheEarlier(parent: Ctx, now: int, timeout: int)
    requires 0 < timeout <= MAX_DURATION
    ensures WithTimeout(parent, now, timeout).deadline.Some?
    ensures WithTimeout(parent, now, timeout).cancelAt == parent.cancelAt
    ensures var earlier := if parent.deadline.Some? && parent.deadline.value < now + timeout
                           then parent.deadline.value else now + timeout;
            WithTimeout(parent, now, timeout).deadline.value == earlier
            <==> !OutOfRange(parent, now, timeout)
  {
  }

  /** That corner: a deadline five nanoseconds past what a Duration can say wins over the shorter timeout. */
  lemma DeadlineCornerExample(now: int)
    ensures var far := now + MAX_DURATION + 5;
            WithTimeout(Ctx(Some(far), None), now, MAX_DURATION).deadline == Some(far) && far > now + MAX_DURATION
  {
  }

  // ----- what comes back

  /** The Retry-After header, parsed: absent or junk, an integer, or an HTTP date. */
  datatype RetryAfter = Unusable | Number(n: int) | Date(at: int)

  datatype Body = Undecodable | Payload(choices: seq<string>, tokensIn: int, tokensOut: int)

  datatype Reply = Http(status: int, retryAfter: RetryAfter, body: Body) | NetError(transient: bool)

  /** One attempt as the world plays it. `timerFirst` settles the race in the sleep that may follow. */
  datatype Attempt = Attempt(took: nat, reply: Reply, timerFirst: bool)

  datatype Completion = Completion(text: string, tokensIn: int, tokensOut: int)

  datatype Error =
    | BadRequest
    | Marshal
    | InvalidResponse
    | SendFailed
    | RateLimited
    | Upstream5xx
    | Timeout
    | Cancelled

  datatype Result = Ok(c: Completion) | Err(e: Error)

  /** `retryAfterFromResp`: the product is int64 arithmetic, and Atoi refuses what int64 cannot hold. */
  function HonouredRetryAfter(h: RetryAfter, now: int): int {
    match h
    case Unusable => 0
    case Number(n) => if 0 < n <= MAX_DURATION then Wrap(n * SECOND) else 0
    case Date(at) => if Sub(at, now) > 0 then Sub(at, now) else 0
  }

  /** The header is honoured as written exactly up to 9223372036 seconds; beyond that the product wraps. */
  lemma RetryAfterWraps(n: int, now: int)
    requires 0 < n <= MAX_DURATION
    ensures HonouredRetryAfter(Number(n), now) == n * SECOND <==> n <= 9_223_372_036
  {
  }

  /** A server asking for 584 years is retried after 290 milliseconds. */
  lemma RetryAfterWrapExample(now: int)
    ensures HonouredRetryAfter(Number(18_446_744_074), now) == 290_448_384
  {
    assert 18_446_744_074 * SECOND == 0x1_0000_0000_0000_0000 + 290_448_384;
  }

  predicate Usable(b: Body) {
    b.Payload? && |b.choices| > 0 && b.choices[0] != ""
  }

  /** Whether the loop may try again after this reply. */
  predicate Retryable(r: Reply) {
    match r
    case Http(status, _, _) => status == 429 || status >= 500
    case NetError(transient) => transient
  }

  /** `handleResponse`, for the replies that end the call. */
  function TerminalResult(status: int, body: Body): Result
    requires status != 429 && status < 500
  {
    if status == 200 then
      if Usable(body) then Ok(Completion(body.choices[0], body.tokensIn, body.tokensOut)) else Err(InvalidResponse)
    else Err(BadRequest)
  }

  /** The metric label each outcome is observed under. */
  function Label(res: Result): string {
    match res
    case Ok(_) => "ok"
    case Err(RateLimited) => "rate_limited"
    case Err(Upstream5xx) => "upstream_5xx"
    case Err(Timeout) => "timeout"
    case Err(Cancelled) => "canceled"
    case Err(InvalidResponse) => "invalid_response"
    case Err(_) => "bad_request"
  }

  // ----- what a call leaves behind

  datatype Send = Send(start: int, end: int, reply: Reply)

  datatype Nap = Nap(from: int, asked: int, until: int)

  datatype Trace = Trace(sends: seq<Send>, naps: seq<Nap>, observed: seq<string>, tokens: seq<(int, int)>, finish: int)

  /** The larger of the backoff and what the server asked for. */
  function Pause(i: nat, retryAfter: int): int
    requires i < |BACKOFF|
  {
    if retryAfter > BACKOFF[i] then retryAfter else BACKOFF[i]
  }

  /** The pause the client owes the server after send `i` failed. */
  function Owed(i: nat, s: Send): int
    requires i < |BACKOFF|
  {
    Pause(i, if s.reply.Http? then HonouredRetryAfter(s.reply.retryAfter, s.end) else 0)
  }

  /** Sends follow one another, all but the last failed in a retryable way, and every pause owed was slept in full. */
  predicate Paced(sends: seq<Send>) {
    && |sends| <= MAX_ATTEMPTS
    && (forall i :: 0 <= i < |sends| ==> sends[i].start <= sends[i].end)
    && (forall i :: 0 <= i < |sends| - 1 ==> Retryable(sends[i].reply))
    && (forall i :: 0 <= i < |sends| - 1 ==> sends[i + 1].start == sends[i].end + Owed(i, sends[i]))
  }

  /** No sleep outlasts what was asked or runs past the end of the context. */
  predicate Rested(ctx: Ctx, naps: seq<Nap>) {
    forall i :: 0 <= i < |naps| ==>
      && naps[i].from <= naps[i].until <= naps[i].from + naps[i].asked
      && (EndsAt(ctx).Some? ==> naps[i].until <= EndsAt(ctx).value)
  }

  /** Why a call that got as far as the loop ended as it did, read off its last send and the context. */
  predicate Explained(ctx: Ctx, res: Result, tr: Trace) {
    var n := |tr.sends|;
    match res
    case Err(Timeout) => ErrAt(ctx, tr.finish) == Some(DeadlineExceeded) && !Decided(tr.sends)
    case Err(Cancelled) => ErrAt(ctx, tr.finish) == Some(Canceled) && !Decided(tr.sends)
    case Err(RateLimited) => n == MAX_ATTEMPTS && tr.finish == tr.sends[n - 1].end && tr.sends[n - 1].reply.Http? && tr.sends[n - 1].reply.status == 429
    case Err(Upstream5xx) =>
      && n == MAX_ATTEMPTS && tr.finish == tr.sends[n - 1].end && Retryable(tr.sends[n - 1].reply)
      && (tr.sends[n - 1].reply.Http? ==> tr.sends[n - 1].reply.status >= 500)
      && (tr.sends[n - 1].reply.NetError? ==> ErrAt(ctx, tr.finish).None?)
    case Err(SendFailed) => n > 0 && tr.finish == tr.sends[n - 1].end && tr.sends[n - 1].reply == NetError(false) && ErrAt(ctx, tr.finish).None?
    case Err(Marshal) => false
    case _ =>
      && n > 0 && tr.finish == tr.sends[n - 1].end && tr.sends[n - 1].reply.Http? && !Retryable(tr.sends[n - 1].reply)
      && res == TerminalResult(tr.sends[n - 1].reply.status, tr.sends[n - 1].reply.body)
  }

  /** A response decides the call if it is final or there is no attempt left, whatever the context says. */
  predicate Decided(sends: seq<Send>) {
    var n := |sends|;
    n > 0 && sends[n - 1].reply.Http? && (!Retryable(sends[n - 1].reply) || n == MAX_ATTEMPTS)
  }

  // ----- the loop

  /** `waitBeforeRetry`: sleep the larger of backoff and Retry-After, but never past the deadline. */
  method WaitBeforeRetry(ctx: Ctx, attempt: nat, retryAfter: int, now: int, timerFirst: bool)
    returns (err: Option<CtxErr>, naps: seq<Nap>, later: int)
    requires retryAfter <= MAX_DURATION
    requires EndsAt(ctx).Some? ==> now <= EndsAt(ctx).value
    ensures attempt >= |BACKOFF| ==> err.None?
    ensures naps == [] ==> later == now
    ensures now <= later && Rested(ctx, naps) && |naps| <= 1
    ensures EndsAt(ctx).Some? ==> later <= EndsAt(ctx).value
    ensures err.Some? ==> ErrAt(ctx, later) == err
    ensures forall nap :: nap in naps ==> attempt < |BACKOFF| && nap == Nap(now, Pause(attempt, retryAfter), later)
    ensures attempt < |BACKOFF| && err.None? ==> |naps| == 1
            // Waking up without an error: either the whole pause was slept, or the context is over by now.
    ensures attempt < |BACKOFF| && err.None? ==>
              later == now + Pause(attempt, retryAfter) || ErrAt(ctx, later).Some?
  {
    if attempt >= |BACKOFF| {
      return None, [], now;
    }
    var asked := BACKOFF[attempt];
    if retryAfter > asked {
      asked := retryAfter;
    }
    var wait := asked;
    if ctx.deadline.Some? {
      var remaining := Sub(ctx.deadline.value, now);
      if remaining <= 0 {
        return Some(DeadlineExceeded), [], now;
      }
      if wait > remaining {
        wait := remaining;
      }
    }
    var end := EndsAt(ctx);
    if end.None? || now + wait < end.value || (now + wait == end.value && timerFirst) {
      return None, [Nap(now, asked, now + wait)], now + wait;
    }
    return ErrAt(ctx, end.value), [Nap(now, asked, end.value)], end.value;
  }

  function OfCtxErr(e: CtxErr): Result {
    if e.DeadlineExceeded? then Err(Timeout) else Err(Cancelled)
  }

  /** `addTokens` counts what is positive. */
  function Counted(c: Completion): (int, int) {
    (if c.tokensIn > 0 then c.tokensIn else 0, if c.tokensOut > 0 then c.tokensOut else 0)
  }

  /** When an attempt begun at `t` comes back. */
  function AttemptEnd(ctx: Ctx, t: int, took: nat): int {
    if EndsAt(ctx).Some? && EndsAt(ctx).value < t + took then EndsAt(ctx).value else t + took
  }

  /** Each sleep follows the send of its number and asks for the pause owed then. */
  predicate NapsFit(sends: seq<Send>, naps: seq<Nap>) {
    && |naps| <= |sends| <= |naps| + 1
    && forall i :: 0 <= i < |naps| ==> i < |BACKOFF| && naps[i].from == sends[i].end && naps[i].asked == Owed(i, sends[i])
  }

  /** What holds of the trace at every point of a call. */
  predicate Sane(ctx: Ctx, now: int, tr: Trace) {
    && Paced(tr.sends)
    && Rested(ctx, tr.naps)
    && NapsFit(tr.sends, tr.naps)
    && now <= tr.finish
    && (tr.sends != [] ==> tr.sends[0].start == now)
    && (forall i :: 0 <= i < |tr.sends| ==> now <= tr.sends[i].start && tr.sends[i].end <= tr.finish)
    && (EndsAt(ctx).Some? && now <= EndsAt(ctx).value ==> tr.finish <= EndsAt(ctx).value)
    && (ErrAt(ctx, now).Some? ==> tr.sends == [] && tr.finish == now)
  }

  /** What holds at the top of the loop: the last send failed, and its pause is over or the context is. */
  predicate MayTry(ctx: Ctx, now: int, tr: Trace) {
    var n := |tr.sends|;
    && Sane(ctx, now, tr) && tr.observed == [] && tr.tokens == []
    && (n == 0 ==> tr.finish == now)
    && (n > 0 ==> Retryable(tr.sends[n - 1].reply))
    && |tr.naps| == (if n == MAX_ATTEMPTS then n - 1 else n)
    && (n == MAX_ATTEMPTS ==> tr.finish == tr.sends[n - 1].end && (tr.sends[n - 1].reply.NetError? ==> ErrAt(ctx, tr.finish).None?))
    && (0 < n < MAX_ATTEMPTS ==>
          tr.finish == tr.sends[n - 1].end + Owed(n - 1, tr.sends[n - 1]) || ErrAt(ctx, tr.finish).Some?)
  }

  /** The sends are the ones the world answered, and each lasted as long as the world and the context let it. */
  predicate Answered(ctx: Ctx, sends: seq<Send>, world: nat -> Attempt) {
    forall i :: 0 <= i < |sends| ==>
      && sends[i].reply == world(i).reply
      && sends[i].end == AttemptEnd(ctx, sends[i].start, world(i).took)
  }

  /** What holds of a call that got as far as the loop. */
  predicate Finished(ctx: Ctx, now: int, res: Result, tr: Trace) {
    && Sane(ctx, now, tr)
    && tr.observed == [Label(res)]
    && tr.tokens == (if res.Ok? then [Counted(res.c)] else [])
    && Explained(ctx, res, tr)
  }

  lemma SendIsSane(ctx: Ctx, now: int, tr: Trace, took: nat, reply: Reply)
    requires MayTry(ctx, now, tr) && |tr.sends| < MAX_ATTEMPTS && ErrAt(ctx, tr.finish).None?
    ensures var end := AttemptEnd(ctx, tr.finish, took);
            JustSent(ctx, now, tr.(sends := tr.sends + [Send(tr.finish, end, reply)], finish := end))
  {
    var end := AttemptEnd(ctx, tr.finish, took);
    var sends' := tr.sends + [Send(tr.finish, end, reply)];
    assert Paced(sends') by {
      forall i | 0 <= i < |sends'| - 1
        ensures Retryable(sends'[i].reply) && sends'[i + 1].start == sends'[i].end + Owed(i, sends'[i])
      {
        assert sends'[i] == tr.sends[i];
      }
    }
  }

  /** An attempt has just come back. */
  predicate JustSent(ctx: Ctx, now: int, tr: Trace) {
    && Sane(ctx, now, tr) && tr.observed == [] && tr.tokens == [] && ErrAt(ctx, now).None?
    && 0 < |tr.sends| == |tr.naps| + 1 && tr.sends[|tr.sends| - 1].end == tr.finish
  }

  /** An attempt that failed in a retryable way, before the pause that follows it. */
  predicate Failed(ctx: Ctx, now: int, tr: Trace) {
    && JustSent(ctx, now, tr)
    && var last := tr.sends[|tr.sends| - 1].reply;
       Retryable(last) && (last.NetError? ==> ErrAt(ctx, tr.finish).None?)
  }

  function Closed(tr: Trace, res: Result): Trace {
    tr.(observed := [Label(res)], tokens := if res.Ok? then [Counted(res.c)] else [])
  }

  lemma TerminalIsFinished(ctx: Ctx, now: int, tr: Trace)
    requires JustSent(ctx, now, tr)
    requires var last := tr.sends[|tr.sends| - 1].reply; last.Http? && !Retryable(last)
    ensures var last := tr.sends[|tr.sends| - 1].reply;
            var res := TerminalResult(last.status, last.body);
            Finished(ctx, now, res, Closed(tr, res))
  {
  }

  lemma BrokenIsFinished(ctx: Ctx, now: int, tr: Trace)
    requires JustSent(ctx, now, tr) && tr.sends[|tr.sends| - 1].reply.NetError?
    requires ErrAt(ctx, tr.finish).Some? || tr.sends[|tr.sends| - 1].reply == NetError(false)
    ensures var res := if ErrAt(ctx, tr.finish).Some? then OfCtxErr(ErrAt(ctx, tr.finish).value) else Err(SendFailed);
            Finished(ctx, now, res, Closed(tr, res))
  {
  }

  /** A nap that fits the failed attempt before it. */
  predicate Fits(ctx: Ctx, tr: Trace, nap: Nap)
    requires 0 < |tr.sends| < MAX_ATTEMPTS
  {
    && nap.from == tr.finish && nap.asked == Owed(|tr.sends| - 1, tr.sends[|tr.sends| - 1])
    && nap.from <= nap.until <= nap.from + nap.asked && (EndsAt(ctx).Some? ==> nap.until <= EndsAt(ctx).value)
  }

  function Slept(tr: Trace, nap: Nap): Trace {
    tr.(naps := tr.naps + [nap], finish := nap.until)
  }

  lemma PauseIsSane(ctx: Ctx, now: int, tr: Trace, nap: Nap)
    requires Failed(ctx, now, tr) && |tr.sends| < MAX_ATTEMPTS && Fits(ctx, tr, nap)
    ensures Sane(ctx, now, Slept(tr, nap))
  {
  }

  /** After the pause the loop goes on, unless the context ended it. */
  lemma PauseEnds(ctx: Ctx, now: int, tr: Trace, nap: Nap)
    requires Failed(ctx, now, tr) && |tr.sends| < MAX_ATTEMPTS && Fits(ctx, tr, nap)
    ensures nap.until == nap.from + nap.asked || ErrAt(ctx, nap.until).Some? ==> MayTry(ctx, now, Slept(tr, nap))
    ensures ErrAt(ctx, nap.until).Some? ==>
              var res := OfCtxErr(ErrAt(ctx, nap.until).value);
              Finished(ctx, now, res, Slept(tr, nap).(observed := [Label(res)]))
  {
    PauseIsSane(ctx, now, tr, nap);
  }

  lemma NoPause(ctx: Ctx, now: int, tr: Trace)
    requires Failed(ctx, now, tr)
    ensures |tr.sends| == MAX_ATTEMPTS ==> MayTry(ctx, now, tr)
    ensures |tr.sends| < MAX_ATTEMPTS && ErrAt(ctx, tr.finish).Some? ==>
              var res := OfCtxErr(ErrAt(ctx, tr.finish).value);
              Finished(ctx, now, res, tr.(observed := [Label(res)]))
  {
  }

  /** The tail of an iteration whose attempt failed in a retryable way. */
  method BackOff(ctx: Ctx, ghost now: int, tr: Trace, retryAfter: int, timerFirst: bool)
    returns (failed: Option<Result>, tr': Trace)
    requires Failed(ctx, now, tr)
    requires var last := tr.sends[|tr.sends| - 1];
             retryAfter == (if last.reply.Http? then HonouredRetryAfter(last.reply.retryAfter, last.end) else 0)
    ensures tr'.sends == tr.sends
    ensures failed.None? ==> MayTry(ctx, now, tr')
    ensures failed.Some? ==> Finished(ctx, now, failed.value, tr')
  {
    var attempt := |tr.sends| - 1;
    var err, naps, later := WaitBeforeRetry(ctx, attempt, retryAfter, tr.finish, timerFirst);
    tr' := tr.(naps := tr.naps + naps, finish := later);
    if naps == [] {
      assert tr' == tr;
      NoPause(ctx, now, tr);
    } else {
      assert naps[0] in naps;
      assert tr' == Slept(tr, naps[0]);
      PauseEnds(ctx, now, tr, naps[0]);
    }
    if err.Some? {
      var res := OfCtxErr(err.value);
      return Some(res), tr'.(observed := [Label(res)]);
    }
    return None, tr';
  }

  /** One iteration, once the context has been found alive. */
  method TryOnce(ctx: Ctx, ghost now: int, tr: Trace, a: Attempt) returns (done: Option<Result>, tr': Trace)
    requires MayTry(ctx, now, tr) && |tr.sends| < MAX_ATTEMPTS && ErrAt(ctx, tr.finish).None?
    ensures done.Some? ==> Finished(ctx, now, done.value, tr')
    ensures done.None? ==> MayTry(ctx, now, tr')
    ensures tr'.sends == tr.sends + [Send(tr.finish, AttemptEnd(ctx, tr.finish, a.took), a.reply)]
  {
    var end := AttemptEnd(ctx, tr.finish, a.took);
    tr' := tr.(sends := tr.sends + [Send(tr.finish, end, a.reply)], finish := end);
    SendIsSane(ctx, now, tr, a.took, a.reply);
    match a.reply {
      case Http(status, header, body) =>
        if !(status == 429 || status >= 500) {
          TerminalIsFinished(ctx, now, tr');
          var res := TerminalResult(status, body);
          return Some(res), Closed(tr', res);
        }
        done, tr' := BackOff(ctx, now, tr', HonouredRetryAfter(header, end), a.timerFirst);
      case NetError(transient) =>
        var over := ErrAt(ctx, end);
        if over.Some? || !transient {
          BrokenIsFinished(ctx, now, tr');
          var res := if over.Some? then OfCtxErr(over.value) else Err(SendFailed);
          return Some(res), Closed(tr', res);
        }
        done, tr' := BackOff(ctx, now, tr', 0, a.timerFirst);
    }
  }

  lemma OverIsFinished(ctx: Ctx, now: int, tr: Trace)
    requires MayTry(ctx, now, tr) && |tr.sends| < MAX_ATTEMPTS && ErrAt(ctx, tr.finish).Some?
    ensures var res := OfCtxErr(ErrAt(ctx, tr.finish).value);
            Finished(ctx, now, res, tr.(observed := [Label(res)]))
  {
  }

  /** `finalOutcomeFor` and the error that goes with it. */
  function FinalResult(last: Reply): Result {
    if last.Http? && last.status == 429 then Err(RateLimited) else Err(Upstream5xx)
  }

  lemma ExhaustedIsFinished(ctx: Ctx, now: int, tr: Trace)
    requires MayTry(ctx, now, tr) && |tr.sends| == MAX_ATTEMPTS
    ensures var res := FinalResult(tr.sends[MAX_ATTEMPTS - 1].reply);
            Finished(ctx, now, res, tr.(observed := [Label(res)]))
  {
  }

  /** The loop stands before attempt `n`. */
  predicate AtTop(ctx: Ctx, now: int, tr: Trace, world: nat -> Attempt, n: nat) {
    |tr.sends| == n <= MAX_ATTEMPTS && MayTry(ctx, now, tr) && Answered(ctx, tr.sends, world)
  }

  predicate Over(ctx: Ctx, now: int, res: Result, tr: Trace, world: nat -> Attempt) {
    Finished(ctx, now, res, tr) && Answered(ctx, tr.sends, world)
  }

  lemma AnsweredOneMore(ctx: Ctx, sends: seq<Send>, t: int, world: nat -> Attempt)
    requires Answered(ctx, sends, world)
    ensures var a := world(|sends|);
            Answered(ctx, sends + [Send(t, AttemptEnd(ctx, t, a.took), a.reply)], world)
  {
  }

  /** One iteration: over if the context is, else one attempt. */
  method Iterate(ctx: Ctx, ghost now: int, tr: Trace, world: nat -> Attempt, n: nat) returns (done: Option<Result>, tr': Trace, last: Reply)
    requires n < MAX_ATTEMPTS && AtTop(ctx, now, tr, world, n)
    ensures done.Some? ==> Over(ctx, now, done.value, tr', world)
    ensures done.None? ==> AtTop(ctx, now, tr', world, n + 1) && last == tr'.sends[n].reply
  {
    var over := ErrAt(ctx, tr.finish);
    last := world(n).reply;
    if over.Some? {
      OverIsFinished(ctx, now, tr);
      var res := OfCtxErr(over.value);
      return Some(res), tr.(observed := [Label(res)]), last;
    }
    AnsweredOneMore(ctx, tr.sends, tr.finish, world);
    done, tr' := TryOnce(ctx, now, tr, world(n));
  }

  /** The retry loop under its context. */
  method RetryLoop(ctx: Ctx, now: int, world: nat -> Attempt) returns (res: Result, tr: Trace)
    ensures Over(ctx, now, res, tr, world)
  {
    tr := Trace([], [], [], [], now);
    var attempt := 0;
    var lastErr: Option<Reply> := None;
    while attempt < MAX_ATTEMPTS
      invariant 0 <= attempt <= MAX_ATTEMPTS && AtTop(ctx, now, tr, world, attempt)
      invariant attempt > 0 ==> lastErr == Some(tr.sends[attempt - 1].reply)
    {
      var done, last;
      done, tr, last := Iterate(ctx, now, tr, world, attempt);
      if done.Some? {
        return done.value, tr;
      }
      lastErr := Some(last);
      attempt := attempt + 1;
    }
    // The "no last error" exit of the source is unreachable.
    ExhaustedIsFinished(ctx, now, tr);
    res := FinalResult(lastErr.value);
    tr := tr.(observed := [Label(res)]);
  }

  /**
   `Complete`. Whatever the world does, the call makes at most four sends, keeps every pause it owes,
   ends by its deadline, observes exactly one outcome, named after its result, and counts tokens only
   on success.
   */
  method Complete(asked: int, parent: Ctx, now: int, prompt: string, marshals: bool, world: nat -> Attempt)
    returns (res: Result, tr: Trace)
    requires asked <= MAX_DURATION
    ensures Text.Blank(prompt) ==> res == Err(BadRequest) && tr == Trace([], [], [], [], now)
    ensures !Text.Blank(prompt) && !marshals ==> res == Err(Marshal) && tr == Trace([], [], [], [], now)
    ensures !Text.Blank(prompt) && marshals ==> Over(WithTimeout(parent, now, CallTimeout(asked)), now, res, tr, world)
  {
    tr := Trace([], [], [], [], now);
    if Text.Blank(prompt) {
      return Err(BadRequest), tr;
    }
    var ctx := WithTimeout(parent, now, CallTimeout(asked));
    if !marshals {
      return Err(Marshal), tr;
    }
    res, tr := RetryLoop(ctx, now, world);
  }

  // ----- what a caller can rely on

  /** The time a call has: what its client was configured with, or eight seconds. */
  lemma TimeoutIs(asked: int, parent: Ctx, now: int)
    requires asked <= MAX_DURATION && parent.deadline.None?
    ensures WithTimeout(parent, now, CallTimeout(asked)) ==
            Ctx(Some(now + if asked > 0 then asked else 8_000_000_000), parent.cancelAt)
  {
  }

  /** Everything ends by the earlier of the caller's deadline and `now + timeout`, or at once if that has passed. */
  lemma FinishesInTime(parent: Ctx, now: int, timeout: int, res: Result, tr: Trace)
    requires 0 < timeout <= MAX_DURATION && !OutOfRange(parent, now, timeout)
    requires Finished(WithTimeout(parent, now, timeout), now, res, tr)
    ensures tr.finish <= now + timeout
    ensures parent.deadline.Some? ==> tr.finish <= (if now < parent.deadline.value then parent.deadline.value else now)
    ensures parent.cancelAt.Some? ==> tr.finish <= (if now < parent.cancelAt.value then parent.cancelAt.value else now)
    ensures forall i :: 0 <= i < |tr.naps| ==> tr.naps[i].until <= now + timeout
  {
    DeadlineIsTheEarlier(parent, now, timeout);
  }

  /** The reply to the last send, if anything was sent. */
  function LastReply(tr: Trace): Option<Reply> {
    if tr.sends == [] then None else Some(tr.sends[|tr.sends| - 1].reply)
  }

  /** The last response was final: no retry follows it, whatever the context says. */
  predicate LastIsFinal(tr: Trace) {
    match LastReply(tr)
    case Some(Http(status, _, _)) => (status != 429 && status < 500) || |tr.sends| == 4
    case _ => false
  }

  /** The deadline has passed, and no cancellation came before it. */
  predicate DeadlineHit(ctx: Ctx, t: int) {
    ctx.deadline.Some? && ctx.deadline.value <= t && (ctx.cancelAt.Some? ==> ctx.deadline.value <= ctx.cancelAt.value)
  }

  predicate CancelHit(ctx: Ctx, t: int) {
    ctx.cancelAt.Some? && ctx.cancelAt.value <= t && (ctx.deadline.Some? ==> ctx.cancelAt.value < ctx.deadline.value)
  }

  /** A call answers with a completion exactly if the last response is a 200 that has one, and with that one. */
  lemma CompletionIsTheLastReply(ctx: Ctx, now: int, res: Result, tr: Trace)
    requires Finished(ctx, now, res, tr)
    ensures match LastReply(tr)
            case Some(Http(200, _, Payload(choices, tokensIn, tokensOut))) =>
              if |choices| > 0 && choices[0] != "" then res == Ok(Completion(choices[0], tokensIn, tokensOut))
              else res == Err(InvalidResponse)
            case Some(Http(200, _, Undecodable)) => res == Err(InvalidResponse)
            case _ => !res.Ok? && res != Err(InvalidResponse)
    ensures res.Ok? ==> tr.tokens == [(if res.c.tokensIn < 0 then 0 else res.c.tokensIn, if res.c.tokensOut < 0 then 0 else res.c.tokensOut)]
    ensures !res.Ok? ==> tr.tokens == []
  {
  }

  /** Each error class is returned exactly if the last reply, the number of sends and the context say so. */
  lemma ErrorsMeanWhatTheySay(ctx: Ctx, now: int, res: Result, tr: Trace)
    requires Finished(ctx, now, res, tr)
    ensures |tr.sends| <= 4 && res != Err(Marshal)
    ensures res == Err(BadRequest) <==> LastReply(tr).Some? && LastReply(tr).value.Http?
                                        && LastReply(tr).value.status !in {200, 429} && LastReply(tr).value.status < 500
    ensures res == Err(RateLimited) <==> |tr.sends| == 4 && LastReply(tr).value.Http? && LastReply(tr).value.status == 429
    ensures res == Err(Upstream5xx) <==>
            |tr.sends| == 4 && (match LastReply(tr).value
                                case Http(status, _, _) => status >= 500
                                case NetError(transient) => transient && !DeadlineHit(ctx, tr.finish) && !CancelHit(ctx, tr.finish))
    ensures res == Err(SendFailed) <==>
            LastReply(tr) == Some(NetError(false)) && !DeadlineHit(ctx, tr.finish) && !CancelHit(ctx, tr.finish)
    ensures res == Err(Timeout) <==> !LastIsFinal(tr) && DeadlineHit(ctx, tr.finish)
    ensures res == Err(Cancelled) <==> !LastIsFinal(tr) && CancelHit(ctx, tr.finish)
  {
  }

  /** The one label a call is observed under. */
  lemma ObservedAs(ctx: Ctx, now: int, res: Result, tr: Trace)
    requires Finished(ctx, now, res, tr)
    ensures tr.observed ==
            [match res
             case Ok(_) => "ok"
             case Err(Timeout) => "timeout"
             case Err(Cancelled) => "canceled"
             case Err(RateLimited) => "rate_limited"
             case Err(Upstream5xx) => "upstream_5xx"
             case Err(InvalidResponse) => "invalid_response"
             case Err(BadRequest) => "bad_request"
             case Err(SendFailed) => "bad_request"
             case Err(Marshal) => ""]
  {
  }

  /** The backoffs, in nanoseconds. */
  function Backoff(i: nat): int {
    if i == 0 then 250_000_000 else if i == 1 then 500_000_000 else 1_000_000_000
  }

  function Larger(x: int, y: int): int {
    if x < y then y else x
  }

  /**
   Every attempt but the last failed with a 429, a 5xx or a transient network error, and the next one came
   exactly after the larger of the backoff and what the server asked for, neither sooner nor later.
   */
  lemma PausesAreKept(ctx: Ctx, now: int, res: Result, tr: Trace, i: nat)
    requires Finished(ctx, now, res, tr) && i + 1 < |tr.sends|
    ensures i < 3
    ensures match tr.sends[i].reply
            case Http(status, _, _) => status == 429 || status >= 500
            case NetError(transient) => transient
    ensures var gap := tr.sends[i + 1].start - tr.sends[i].end;
            gap >= Backoff(i)
            && match tr.sends[i].reply
               case Http(_, Number(n), _) => n <= 9_223_372_036 ==> gap == Larger(n * 1_000_000_000, Backoff(i))
               case Http(_, Date(at), _) => at - tr.sends[i].end <= MAX_DURATION ==> gap == Larger(at - tr.sends[i].end, Backoff(i))
               case _ => gap == Backoff(i)
    ensures i < |tr.naps| && tr.naps[i].from == tr.sends[i].end && tr.naps[i].asked == tr.sends[i + 1].start - tr.sends[i].end
  {
    var h := if tr.sends[i].reply.Http? then tr.sends[i].reply.retryAfter else Unusable;
    if h.Number? && 0 < h.n <= MAX_DURATION {
      RetryAfterWraps(h.n, tr.sends[i].end);
    }
  }

  /** An attempt lasts as long as the world takes, or until the context ends if that is sooner. */
  lemma AttemptsLast(ctx: Ctx, now: int, res: Result, tr: Trace, world: nat -> Attempt, i: nat)
    requires Over(ctx, now, res, tr, world) && i < |tr.sends|
    ensures tr.sends[i].reply == world(i).reply
    ensures var full := tr.sends[i].start + world(i).took;
            && tr.sends[i].end <= full
            && (tr.sends[i].end < full ==> ctx.deadline == Some(tr.sends[i].end) || ctx.cancelAt == Some(tr.sends[i].end))
            && (ctx.deadline.Some? ==> tr.sends[i].end <= ctx.deadline.value)
            && (ctx.cancelAt.Some? ==> tr.sends[i].end <= ctx.cancelAt.value)
            && (i == 0 ==> tr.sends[i].start == now)
  {
  }
}
