/**
 The recording decorator under concurrency (internal/aipolicy/audit.go). Its read, its write and each of
 its Record calls are separate transactions, so those of other calls may come in between; nothing ties
 the order of the log to the order of the writes.
 */
module ConcurrentRecords {
  import opened Options
  import opened Fates
  import opened PolicyAudit
  import opened AuditMerge
  import R = RecordingRepository

  /** `Recording(prev, k)`: the write is done, having found `prev` before it, and k changes are logged. */
  datatype Phase = Begun | Got(prev: Option<Policy>) | Recording(prev: Option<Policy>, k: nat) | Returned(err: Option<R.Error>)

  /** The faults in `op` play no part here: each step says how it ends. */
  datatype Call = Call(op: R.Op, phase: Phase)

  datatype State = State(store: map<Scope, Policy>, log: seq<AuditEvent>, calls: seq<Call>)

  datatype Step =
    | Begin(op: R.Op)
    | Get(c: nat, fails: bool)
    | Store(c: nat, fate: Fate)
    | Record(c: nat, fate: Fate)

  function ScopeOf(call: Call): Scope {
    R.ScopeOf(call.op)
  }

  ghost predicate Enabled(s: State, step: Step) {
    match step
    case Begin(_) => true
    case Get(c, _) => c < |s.calls| && s.calls[c].phase.Begun?
    case Store(c, _) => c < |s.calls| && s.calls[c].phase.Got?
    case Record(c, _) =>
      && c < |s.calls| && s.calls[c].phase.Recording? && s.calls[c].op.actor.Some?
      && s.calls[c].phase.k < |R.Due(s.calls[c].phase.prev, s.calls[c].op)|
  }

  function At(s: State, c: nat, phase: Phase): State
    requires c < |s.calls|
  {
    s.(calls := s.calls[c := s.calls[c].(phase := phase)])
  }

  /** Whether a write that went well is followed by Record calls: a delete logs only a row it saw and removed. */
  ghost predicate Logs(s: State, call: Call)
    requires call.phase.Got?
  {
    R.Due(call.phase.prev, call.op) != [] && (call.op.Delete? ==> ScopeOf(call) in s.store)
  }

  ghost function Event(call: Call): AuditEvent
    requires call.phase.Recording? && call.op.actor.Some? && call.phase.k < |R.Due(call.phase.prev, call.op)|
  {
    AuditEvent(ScopeOf(call), R.Due(call.phase.prev, call.op)[call.phase.k], call.op.actor.value, call.op.at)
  }

  ghost function AfterRecord(call: Call): Phase
    requires call.phase.Recording?
  {
    var Recording(prev, k) := call.phase;
    if k + 1 < |R.Due(prev, call.op)| then Recording(prev, k + 1) else Returned(None)
  }

  ghost function Do(s: State, step: Step): State
    requires Enabled(s, step)
  {
    match step
    case Begin(op) =>
      s.(calls := s.calls + [Call(op, if R.Refusal(op).Some? then Returned(R.Refusal(op)) else Begun)])
    case Get(c, fails) =>
      At(s, c, if fails then Returned(Some(R.Storage)) else Got(R.Lookup(s.store, ScopeOf(s.calls[c]))))
    case Store(c, fate) =>
      var call := s.calls[c];
      var store := R.Stored(s.store, ScopeOf(call), R.Target(call.op));
      (match fate
       case Fails => At(s, c, Returned(Some(R.Storage)))
       case Lands => At(s, c, Returned(Some(R.Storage))).(store := store)
       case Fine =>
         At(s, c, if Logs(s, call) then Recording(call.phase.prev, 0) else Returned(None)).(store := store))
    case Record(c, fate) =>
      var call := s.calls[c];
      (match fate
       case Fails => At(s, c, Returned(Some(R.RecordFailed)))
       case Lands => At(s, c, Returned(Some(R.RecordFailed))).(log := s.log + [Event(call)])
       case Fine => At(s, c, AfterRecord(call)).(log := s.log + [Event(call)]))
  }

  /** A stretch of steps from any state. */
  ghost predicate Run(ss: seq<State>, steps: seq<Step>) {
    && |ss| == |steps| + 1
    && forall i :: 0 <= i < |steps| ==> Follows(ss[i], steps[i], ss[i + 1])
  }

  ghost predicate Follows(s: State, step: Step, s': State) {
    Enabled(s, step) && s' == Do(s, step)
  }

  // ----- one scope of the log

  /** What the log tells of a scope, and what the store holds there. */
  function Told(log: seq<AuditEvent>, x: Scope): Option<Audited> {
    R.Lookup(R.Replay(log), x)
  }

  function Held(store: map<Scope, Policy>, x: Scope): Option<Audited> {
    Projected(R.Lookup(store, x))
  }

  ghost predicate TruthfulOn(s: State, x: Scope) {
    Told(s.log, x) == Held(s.store, x)
  }

  lemma ToldAppend(log: seq<AuditEvent>, ev: AuditEvent, x: Scope)
    ensures Told(log + [ev], x) == if ev.scope == x then ApplyChange(Told(log, x), ev.change) else Told(log, x)
  {
    assert (log + [ev])[..|log|] == log;
    var m := R.Replay(log);
    R.PlacedTwice(m, ev.scope, ApplyChange(R.Lookup(m, ev.scope), ev.change), None);
  }

  /** The log is truthful exactly when it is so scope by scope. */
  lemma TruthfulScopeByScope(s: State)
    ensures R.Truthful(R.State(s.store, s.log)) <==> forall x :: TruthfulOn(s, x)
  {
    var m, v := R.Replay(s.log), R.View(s.store);
    forall x ensures R.Lookup(v, x) == Held(s.store, x) { R.ViewStored(s.store, x, None); }
    if forall x :: TruthfulOn(s, x) {
      forall x ensures R.Lookup(m, x) == R.Lookup(v, x) { assert TruthfulOn(s, x); }
      SameLookups(m, v);
    }
  }

  lemma SameLookups(m: map<Scope, Audited>, v: map<Scope, Audited>)
    requires forall x :: R.Lookup(m, x) == R.Lookup(v, x)
    ensures m == v
  {
    forall x ensures x in m <==> x in v { assert R.Lookup(m, x) == R.Lookup(v, x); }
    forall x | x in m ensures m[x] == v[x] { assert R.Lookup(m, x) == R.Lookup(v, x); }
  }

  // ----- calls whose spans on a scope do not overlap

  /** The call is between its read and its return. */
  predicate Spans(call: Call, x: Scope) {
    ScopeOf(call) == x && (call.phase.Got? || call.phase.Recording?)
  }

  /** At most one call at a time is within its span on the scope. */
  ghost predicate Apart(s: State, x: Scope) {
    forall c, d :: 0 <= c < d < |s.calls| ==> !(Spans(s.calls[c], x) && Spans(s.calls[d], x))
  }

  /** The step loses nothing: no write takes effect behind an error, and no Record call fails. */
  predicate Lossless(step: Step) {
    (step.Store? ==> !step.fate.Lands?) && (step.Record? ==> step.fate.Fine?)
  }

  /** Where the log stands on the scope while this call is within its span. */
  ghost predicate SpanOk(s: State, call: Call, x: Scope) {
    match call.phase
    case Got(prev) => TruthfulOn(s, x) && prev == R.Lookup(s.store, x)
    case Recording(prev, k) =>
      && k < |R.Due(prev, call.op)|
      && Told(s.log, x) == ApplyAll(Projected(prev), R.Due(prev, call.op)[..k])
      && Held(s.store, x) == Projected(R.Target(call.op))
    case _ => true
  }

  ghost predicate SerialInv(s: State, x: Scope) {
    && ((forall c :: 0 <= c < |s.calls| ==> !Spans(s.calls[c], x)) ==> TruthfulOn(s, x))
    && forall c :: 0 <= c < |s.calls| && Spans(s.calls[c], x) ==> SpanOk(s, s.calls[c], x)
  }

  /** The step moves a call on the scope. */
  predicate On(s: State, step: Step, x: Scope) {
    !step.Begin? && step.c < |s.calls| && ScopeOf(s.calls[step.c]) == x
  }

  /** Nothing else is seen of the scope: same log, same store, and the same calls within their spans. */
  ghost predicate SameOn(s: State, s': State, x: Scope) {
    && Told(s'.log, x) == Told(s.log, x) && R.Lookup(s'.store, x) == R.Lookup(s.store, x)
    && |s.calls| <= |s'.calls|
    && (forall c :: 0 <= c < |s.calls| ==> Spans(s'.calls[c], x) == Spans(s.calls[c], x))
    && (forall c :: 0 <= c < |s.calls| && Spans(s.calls[c], x) ==> s'.calls[c] == s.calls[c])
    && (forall c :: |s.calls| <= c < |s'.calls| ==> !Spans(s'.calls[c], x))
  }

  lemma OffAt(s: State, c: nat, phase: Phase, s': State, x: Scope)
    requires c < |s.calls| && ScopeOf(s.calls[c]) != x && s'.calls == At(s, c, phase).calls
    requires Told(s'.log, x) == Told(s.log, x) && R.Lookup(s'.store, x) == R.Lookup(s.store, x)
    ensures SameOn(s, s', x)
  {
  }

  lemma OffScope(s: State, step: Step, x: Scope)
    requires Enabled(s, step) && !On(s, step, x)
    ensures SameOn(s, Do(s, step), x)
  {
    var s' := Do(s, step);
    if !step.Begin? {
      if step.Record? {
        ToldAppend(s.log, Event(s.calls[step.c]), x);
      }
      OffAt(s, step.c, s'.calls[step.c].phase, s', x);
    }
  }

  lemma SameKeepsInv(s: State, s': State, x: Scope)
    requires SerialInv(s, x) && SameOn(s, s', x)
    ensures SerialInv(s', x)
  {
    if forall c :: 0 <= c < |s'.calls| ==> !Spans(s'.calls[c], x) {
      assert forall c :: 0 <= c < |s.calls| ==> !Spans(s.calls[c], x);
    }
    forall c | 0 <= c < |s'.calls| && Spans(s'.calls[c], x) ensures SpanOk(s', s'.calls[c], x) {
      assert SpanOk(s, s.calls[c], x);
    }
  }

  /** What the scope's only active call leaves when it moves on: still within its span, or the log truthful. */
  ghost predicate MovedOk(s': State, c: nat, x: Scope) {
    c < |s'.calls| && if Spans(s'.calls[c], x) then SpanOk(s', s'.calls[c], x) else TruthfulOn(s', x)
  }

  lemma OnlyOneKeepsInv(s: State, s': State, c: nat, x: Scope)
    requires c < |s.calls| == |s'.calls| && ScopeOf(s.calls[c]) == x
    requires forall d :: 0 <= d < |s.calls| && d != c ==> s'.calls[d] == s.calls[d] && !Spans(s.calls[d], x)
    requires MovedOk(s', c, x)
    ensures SerialInv(s', x)
  {
  }

  lemma GetMoves(s: State, c: nat, fails: bool, x: Scope)
    requires SerialInv(s, x) && Enabled(s, Get(c, fails)) && ScopeOf(s.calls[c]) == x
    requires forall d :: 0 <= d < |s.calls| ==> !Spans(s.calls[d], x)
    ensures MovedOk(Do(s, Get(c, fails)), c, x)
  {
  }

  lemma WriteMoves(s: State, c: nat, fate: Fate, x: Scope)
    requires Enabled(s, Store(c, fate)) && ScopeOf(s.calls[c]) == x && SpanOk(s, s.calls[c], x) && !fate.Lands?
    ensures MovedOk(Do(s, Store(c, fate)), c, x)
  {
    var call := s.calls[c];
    var prev := call.phase.prev;
    var due := R.Due(prev, call.op);
    R.DueIsExact(prev, call.op, 0);
    assert due[..0] == [];
  }

  lemma RecordMoves(s: State, c: nat, x: Scope)
    requires Enabled(s, Record(c, Fine)) && ScopeOf(s.calls[c]) == x && SpanOk(s, s.calls[c], x)
    ensures MovedOk(Do(s, Record(c, Fine)), c, x)
  {
    var call := s.calls[c];
    var Recording(prev, k) := call.phase;
    var due := R.Due(prev, call.op);
    ToldAppend(s.log, Event(call), x);
    assert due[..k + 1][..k] == due[..k];
    R.DueIsExact(prev, call.op, k + 1);
  }

  lemma StepKeepsSerial(s: State, step: Step, x: Scope)
    requires SerialInv(s, x) && Enabled(s, step) && Apart(s, x) && Apart(Do(s, step), x)
    requires On(s, step, x) ==> Lossless(step)
    ensures SerialInv(Do(s, step), x)
  {
    var s' := Do(s, step);
    if !On(s, step, x) {
      OffScope(s, step, x);
      SameKeepsInv(s, s', x);
    } else {
      var c := step.c;
      match step {
        case Get(_, fails) =>
          if fails || exists d :: 0 <= d < |s.calls| && Spans(s.calls[d], x) {
            NobodyElse(s, s', c, x);
          } else {
            GetMoves(s, c, fails, x);
            OnlyOneKeepsInv(s, s', c, x);
          }
        case Store(_, fate) =>
          AloneInSpan(s, c, x);
          WriteMoves(s, c, fate, x);
          OnlyOneKeepsInv(s, s', c, x);
        case Record(_, _) =>
          AloneInSpan(s, c, x);
          RecordMoves(s, c, x);
          OnlyOneKeepsInv(s, s', c, x);
      }
    }
  }

  lemma AloneInSpan(s: State, c: nat, x: Scope)
    requires Apart(s, x) && c < |s.calls| && Spans(s.calls[c], x)
    ensures forall d :: 0 <= d < |s.calls| && d != c ==> !Spans(s.calls[d], x)
  {
  }

  /** A read that fails changes nothing of the scope, and one beside another span is ruled out. */
  lemma NobodyElse(s: State, s': State, c: nat, x: Scope)
    requires c < |s.calls| && s.calls[c].phase.Begun? && ScopeOf(s.calls[c]) == x && SerialInv(s, x) && Apart(s', x)
    requires s'.store == s.store && s'.log == s.log && |s'.calls| == |s.calls| && s'.calls == s.calls[c := s'.calls[c]]
    requires s'.calls[c].op == s.calls[c].op && (s'.calls[c].phase.Returned? || s'.calls[c].phase.Got?)
    requires s'.calls[c].phase.Returned? || exists d :: 0 <= d < |s.calls| && Spans(s.calls[d], x)
    ensures SerialInv(s', x)
  {
    if s'.calls[c].phase.Got? {
      var d :| 0 <= d < |s.calls| && Spans(s.calls[d], x);
      assert d != c && Spans(s'.calls[d], x) && Spans(s'.calls[c], x);
      assert false;
    } else {
      assert SameOn(s, s', x);
      SameKeepsInv(s, s', x);
    }
  }

  /**
   Calls whose spans on a scope never overlap keep its log truthful: from a truthful start, with nothing lost
   on the way, the log tells what the store holds whenever no call is within its span, whatever calls on
   other scopes do meanwhile.
   */
  lemma {:induction false} ApartIsTruthful(ss: seq<State>, steps: seq<Step>, n: nat, x: Scope)
    requires Run(ss, steps) && n < |ss|
    requires TruthfulOn(ss[0], x) && forall c :: 0 <= c < |ss[0].calls| ==> !Spans(ss[0].calls[c], x)
    requires forall i :: 0 <= i < |ss| ==> Apart(ss[i], x)
    requires forall i :: 0 <= i < |steps| && On(ss[i], steps[i], x) ==> Lossless(steps[i])
    ensures SerialInv(ss[n], x)
    ensures (forall c :: 0 <= c < |ss[n].calls| ==> !Spans(ss[n].calls[c], x)) ==> TruthfulOn(ss[n], x)
    decreases n
  {
    if n > 0 {
      ApartIsTruthful(ss, steps, n - 1, x);
      assert Follows(ss[n - 1], steps[n - 1], ss[n]);
      assert Apart(ss[n - 1], x) && Apart(ss[n], x);
      StepKeepsSerial(ss[n - 1], steps[n - 1], x);
    }
  }

  // ----- any number of calls, overlapping as they like

  /** The changes the log has on the scope, in order. */
  function RowsOn(log: seq<AuditEvent>, x: Scope): seq<Change> {
    if log == [] then []
    else RowsOn(log[..|log| - 1], x) + (if log[|log| - 1].scope == x then [log[|log| - 1].change] else [])
  }

  function WriterOf(prev: Option<Policy>, op: R.Op): Writer {
    Writer(prev, R.Target(op))
  }

  /** What a call has to log is what its topics say. */
  lemma DueIsTopics(prev: Option<Policy>, op: R.Op)
    ensures |R.Due(prev, op)| == |Topics(WriterOf(prev, op))|
    ensures forall i :: 0 <= i < |Topics(WriterOf(prev, op))| ==>
              R.Due(prev, op)[i] == RowOn(WriterOf(prev, op), Topics(WriterOf(prev, op))[i])
              && Apt(Mark(0, WriterOf(prev, op), Topics(WriterOf(prev, op))[i]))
  {
  }

  lemma RowsOneMore(m: seq<Mark>, mark: Mark, prior: Option<Audited>)
    ensures RowsOf(m + [mark]) == RowsOf(m) + [RowOn(mark.who, mark.w)]
    ensures ApplyAll(prior, RowsOf(m + [mark])) == ApplyChange(ApplyAll(prior, RowsOf(m)), RowOn(mark.who, mark.w))
  {
    assert RowsOf(m + [mark])[..|m|] == RowsOf(m);
  }

  /** The step takes effect in the store on the scope. */
  predicate StoresOn(s: State, step: Step, x: Scope) {
    step.Store? && On(s, step, x) && !step.fate.Fails?
  }

  /** What the last write on the scope left there. */
  ghost function LastTarget(ss: seq<State>, steps: seq<Step>, n: nat, x: Scope): Option<Policy>
    requires n <= |steps| < |ss|
    decreases n
  {
    if n == 0 then R.Lookup(ss[0].store, x)
    else if StoresOn(ss[n - 1], steps[n - 1], x) then R.Target(ss[n - 1].calls[steps[n - 1].c].op)
    else LastTarget(ss, steps, n - 1, x)
  }

  lemma {:induction false} StoreIsLastTarget(ss: seq<State>, steps: seq<Step>, n: nat, x: Scope)
    requires Run(ss, steps) && n < |ss|
    ensures R.Lookup(ss[n].store, x) == LastTarget(ss, steps, n, x)
    decreases n
  {
    if n > 0 {
      StoreIsLastTarget(ss, steps, n - 1, x);
      assert Follows(ss[n - 1], steps[n - 1], ss[n]);
      StepOnStore(ss[n - 1], steps[n - 1], x);
    }
  }

  lemma StepOnStore(s: State, step: Step, x: Scope)
    requires Enabled(s, step)
    ensures R.Lookup(Do(s, step).store, x) ==
            if StoresOn(s, step, x) then R.Target(s.calls[step.c].op) else R.Lookup(s.store, x)
  {
  }

  /** The step adds a row to the log on the scope. */
  predicate LogsOn(s: State, step: Step, x: Scope) {
    step.Record? && On(s, step, x) && !step.fate.Fails?
  }

  /** The row a Record call adds, as a mark. */
  ghost function MarkOf(s: State, step: Step): Mark
    requires Enabled(s, step) && step.Record?
  {
    var call := s.calls[step.c];
    DueIsTopics(call.phase.prev, call.op);
    Mark(step.c, WriterOf(call.phase.prev, call.op), Topics(WriterOf(call.phase.prev, call.op))[call.phase.k])
  }

  /** The log tells of the scope what the rows `m` make of what it told before. */
  ghost predicate Reads(log: seq<AuditEvent>, from: seq<AuditEvent>, x: Scope, m: seq<Mark>) {
    && AllApt(m) && RowsOn(log, x) == RowsOn(from, x) + RowsOf(m)
    && Told(log, x) == ApplyAll(Told(from, x), RowsOf(m))
  }

  lemma EventIsMark(s: State, step: Step)
    requires Enabled(s, step) && step.Record?
    ensures Event(s.calls[step.c]).change == RowOn(MarkOf(s, step).who, MarkOf(s, step).w) && Apt(MarkOf(s, step))
  {
    DueIsTopics(s.calls[step.c].phase.prev, s.calls[step.c].op);
  }

  lemma StepOnLog(s: State, step: Step, from: seq<AuditEvent>, x: Scope, m: seq<Mark>)
    requires Enabled(s, step) && Reads(s.log, from, x, m)
    ensures Reads(Do(s, step).log, from, x, Grown(m, s, step, x))
  {
    if step.Record? && !step.fate.Fails? {
      EventIsMark(s, step);
      ReadsOneMore(s.log, from, x, m, Event(s.calls[step.c]), MarkOf(s, step));
    }
  }

  lemma ReadsOneMore(log: seq<AuditEvent>, from: seq<AuditEvent>, x: Scope, m: seq<Mark>, ev: AuditEvent, mark: Mark)
    requires Reads(log, from, x, m) && Apt(mark) && ev.change == RowOn(mark.who, mark.w)
    ensures Reads(log + [ev], from, x, if ev.scope == x then m + [mark] else m)
  {
    ToldAppend(log, ev, x);
    assert (log + [ev])[..|log|] == log;
    RowsOneMore(m, mark, Told(from, x));
  }

  ghost function Grown(m: seq<Mark>, s: State, step: Step, x: Scope): seq<Mark>
    requires Enabled(s, step)
  {
    if LogsOn(s, step, x) then m + [MarkOf(s, step)] else m
  }

  /** The rows that reached the log on the scope in the first n steps, in order. */
  ghost function MarksIn(ss: seq<State>, steps: seq<Step>, n: nat, x: Scope): seq<Mark>
    requires Run(ss, steps) && n <= |steps|
    decreases n
  {
    if n == 0 then []
    else
      assert Follows(ss[n - 1], steps[n - 1], ss[n]);
      Grown(MarksIn(ss, steps, n - 1, x), ss[n - 1], steps[n - 1], x)
  }

  lemma {:induction false} LogIsMarks(ss: seq<State>, steps: seq<Step>, n: nat, x: Scope)
    requires Run(ss, steps) && n < |ss|
    ensures Reads(ss[n].log, ss[0].log, x, MarksIn(ss, steps, n, x))
    decreases n
  {
    if n == 0 {
      assert RowsOf([]) == [];
    } else {
      LogIsMarks(ss, steps, n - 1, x);
      assert Follows(ss[n - 1], steps[n - 1], ss[n]);
      StepOnLog(ss[n - 1], steps[n - 1], ss[0].log, x, MarksIn(ss, steps, n - 1, x));
    }
  }

  /**
   Any number of upserts and deletes, interleaved and failing in any way: at every point the log tells what
   the store holds on a scope exactly when its last creation or deletion fits the last write there and, if
   that left a policy, the last row on each slot since carries its value.
   */
  lemma TruthfulExactly(ss: seq<State>, steps: seq<Step>, n: nat, x: Scope)
    requires Run(ss, steps) && n < |ss|
    ensures TruthfulOn(ss[n], x) <==> Ends(Told(ss[0].log, x), MarksIn(ss, steps, n, x), LastTarget(ss, steps, n, x))
  {
    LogIsMarks(ss, steps, n, x);
    StoreIsLastTarget(ss, steps, n, x);
    RowsTellExactly(Told(ss[0].log, x), MarksIn(ss, steps, n, x), LastTarget(ss, steps, n, x));
  }

  // ----- two calls on a scope, step by step

  predicate Wrote(call: Call) {
    call.phase.Recording? || call.phase.Returned?
  }

  /** Nothing goes wrong, and no further call begins. */
  predicate Smooth(step: Step) {
    match step
    case Begin(_) => false
    case Get(_, fails) => !fails
    case Store(_, fate) => fate.Fine?
    case Record(_, fate) => fate.Fine?
  }

  /** How many of the call's rows are in the log. */
  function Done(call: Call, all: nat): nat {
    match call.phase
    case Begun => 0
    case Got(_) => 0
    case Recording(_, k) => k
    case Returned(_) => all
  }

  ghost predicate CallAt(call: Call, op: R.Op, prev: Option<Policy>) {
    && call.op == op && R.Refusal(op).None?
    && match call.phase
       case Begun => true
       case Got(q) => q == prev
       case Recording(q, k) => q == prev && k < |Topics(WriterOf(prev, op))|
       case Returned(err) => err.None?
  }

  /** Calls `p`, the first to write, and `q` on scope x, which held `a`; `q` read `y`. At least one is an upsert. */
  datatype Two = Two(p: R.Op, q: R.Op, a: Option<Policy>, y: Option<Policy>)

  function First(w: Two): Writer {
    WriterOf(w.a, w.p)
  }

  function Second(w: Two): Writer {
    WriterOf(w.y, w.q)
  }

  predicate Apposite(w: Two, x: Scope) {
    R.ScopeOf(w.p) == x && R.ScopeOf(w.q) == x && (w.p.Upsert? || w.q.Upsert?)
  }

  ghost predicate CallsOk(s: State, w: Two, x: Scope) {
    && |s.calls| == 2 && Apposite(w, x) && CallAt(s.calls[0], w.p, w.a) && CallAt(s.calls[1], w.q, w.y)
    && R.Lookup(s.store, x) ==
       (if Wrote(s.calls[1]) then R.Target(w.q) else if Wrote(s.calls[0]) then R.Target(w.p) else w.a)
    && (Wrote(s.calls[1]) ==> Wrote(s.calls[0]))
    && (!s.calls[1].phase.Begun? ==> w.y == w.a || w.y == R.Target(w.p))
  }

  /** The rows so far: j of the first call, k of the second. */
  ghost predicate RowsOk(w: Two, m: seq<Mark>, j: nat, k: nat) {
    && j <= |Topics(First(w))| && k <= |Topics(Second(w))| && Between(First(w), Second(w), m)
    && TopicsOf(m, 0) == Topics(First(w))[..j] && TopicsOf(m, 1) == Topics(Second(w))[..k]
  }

  ghost predicate TwoOk(s: State, w: Two, x: Scope, m: seq<Mark>) {
    && CallsOk(s, w, x)
    && RowsOk(w, m, Done(s.calls[0], |Topics(First(w))|), Done(s.calls[1], |Topics(Second(w))|))
  }

  lemma GetTwo(s: State, c: nat, w: Two, x: Scope, m: seq<Mark>)
    requires TwoOk(s, w, x, m) && Enabled(s, Get(c, false))
    requires c == 1 ==> R.Lookup(s.store, x) == w.y
    ensures TwoOk(Do(s, Get(c, false)), w, x, m)
  {
    if c == 0 {
      assert !Wrote(s.calls[0]);
    }
  }

  lemma StoreTwo(s: State, c: nat, w: Two, x: Scope, m: seq<Mark>)
    requires TwoOk(s, w, x, m) && Enabled(s, Store(c, Fine)) && (c == 1 ==> Wrote(s.calls[0]))
    ensures TwoOk(Do(s, Store(c, Fine)), w, x, m)
  {
    DueIsTopics(w.a, w.p);
    DueIsTopics(w.y, w.q);
    var s' := Do(s, Store(c, Fine));
    StepOnStore(s, Store(c, Fine), x);
    LogsAll(s, c, w, x);
    assert s'.calls[1 - c] == s.calls[1 - c];
  }

  /** A call of the pair logs whatever it has to. */
  lemma LogsAll(s: State, c: nat, w: Two, x: Scope)
    requires CallsOk(s, w, x) && Enabled(s, Store(c, Fine)) && (c == 1 ==> Wrote(s.calls[0]))
    ensures Logs(s, s.calls[c]) <==> R.Due(s.calls[c].phase.prev, s.calls[c].op) != []
  {
  }

  lemma TopicsOneMore(m: seq<Mark>, mark: Mark, c: nat)
    ensures TopicsOf(m + [mark], c) == TopicsOf(m, c) + (if mark.c == c then [mark.w] else [])
  {
    assert (m + [mark])[..|m|] == m;
  }

  lemma OneLonger(ws: seq<Topic>, n: nat)
    requires n < |ws|
    ensures ws[..n + 1] == ws[..n] + [ws[n]]
  {
  }

  lemma RowsOkOneMore(w: Two, m: seq<Mark>, j: nat, k: nat, mark: Mark)
    requires RowsOk(w, m, j, k)
    requires mark.c == 0 ==> j < |Topics(First(w))| && mark == Mark(0, First(w), Topics(First(w))[j])
    requires mark.c == 1 ==> k < |Topics(Second(w))| && mark == Mark(1, Second(w), Topics(Second(w))[k])
    requires mark.c < 2
    ensures RowsOk(w, m + [mark], if mark.c == 0 then j + 1 else j, if mark.c == 1 then k + 1 else k)
  {
    TopicsOneMore(m, mark, 0);
    TopicsOneMore(m, mark, 1);
    if mark.c == 0 {
      OneLonger(Topics(First(w)), j);
    } else {
      OneLonger(Topics(Second(w)), k);
    }
  }

  lemma RecordCalls(s: State, c: nat, w: Two, x: Scope)
    requires CallsOk(s, w, x) && Enabled(s, Record(c, Fine))
    ensures var s' := Do(s, Record(c, Fine));
            CallsOk(s', w, x)
            && Done(s'.calls[0], |Topics(First(w))|) == Done(s.calls[0], |Topics(First(w))|) + (if c == 0 then 1 else 0)
            && Done(s'.calls[1], |Topics(Second(w))|) == Done(s.calls[1], |Topics(Second(w))|) + (if c == 1 then 1 else 0)
    ensures MarkOf(s, Record(c, Fine)) ==
            if c == 0 then Mark(0, First(w), Topics(First(w))[s.calls[0].phase.k])
            else Mark(1, Second(w), Topics(Second(w))[s.calls[1].phase.k])
  {
    DueIsTopics(w.a, w.p);
    DueIsTopics(w.y, w.q);
  }

  lemma RecordTwo(s: State, c: nat, w: Two, x: Scope, m: seq<Mark>)
    requires TwoOk(s, w, x, m) && Enabled(s, Record(c, Fine))
    ensures TwoOk(Do(s, Record(c, Fine)), w, x, m + [MarkOf(s, Record(c, Fine))])
  {
    RecordCalls(s, c, w, x);
    RowsOkOneMore(w, m, Done(s.calls[0], |Topics(First(w))|), Done(s.calls[1], |Topics(Second(w))|), MarkOf(s, Record(c, Fine)));
  }

  /** The first call is the first to write, and the second has read `y`. */
  ghost predicate Ordered(s: State, y: Option<Policy>) {
    |s.calls| == 2 ==>
      && (Wrote(s.calls[1]) ==> Wrote(s.calls[0]))
      && (s.calls[1].phase.Got? ==> s.calls[1].phase.prev == y)
  }

  /** A smooth run of the two calls from a truthful start. */
  ghost predicate TwoRun(ss: seq<State>, steps: seq<Step>, w: Two, x: Scope) {
    && Run(ss, steps) && (forall i :: 0 <= i < |steps| ==> Smooth(steps[i]))
    && Apposite(w, x) && R.Refusal(w.p).None? && R.Refusal(w.q).None? && w.a == R.Lookup(ss[0].store, x)
    && ss[0].calls == [Call(w.p, Begun), Call(w.q, Begun)] && TruthfulOn(ss[0], x)
    && (forall i :: 0 <= i < |ss| ==> Ordered(ss[i], w.y))
  }

  lemma TwoStep(s: State, step: Step, s': State, w: Two, x: Scope, m: seq<Mark>)
    requires TwoOk(s, w, x, m) && Smooth(step) && Enabled(s, step) && s' == Do(s, step) && Ordered(s', w.y)
    ensures TwoOk(s', w, x, Grown(m, s, step, x))
  {
    match step
    case Get(c, _) => GetTwo(s, c, w, x, m);
    case Store(c, _) => StoreTwo(s, c, w, x, m);
    case Record(c, _) => RecordTwo(s, c, w, x, m);
  }

  lemma TwoRunAt(ss: seq<State>, steps: seq<Step>, w: Two, x: Scope, i: nat)
    requires TwoRun(ss, steps, w, x) && i < |steps|
    ensures Smooth(steps[i]) && Follows(ss[i], steps[i], ss[i + 1]) && Ordered(ss[i + 1], w.y)
  {
  }

  lemma {:induction false} TwoRunOk(ss: seq<State>, steps: seq<Step>, w: Two, x: Scope, n: nat)
    requires TwoRun(ss, steps, w, x) && n < |ss|
    ensures TwoOk(ss[n], w, x, MarksIn(ss, steps, n, x))
    decreases n
  {
    if n > 0 {
      TwoRunOk(ss, steps, w, x, n - 1);
      TwoRunAt(ss, steps, w, x, n - 1);
      TwoStep(ss[n - 1], steps[n - 1], ss[n], w, x, MarksIn(ss, steps, n - 1, x));
    }
  }

  predicate BothReturned(s: State) {
    |s.calls| == 2 && s.calls[0].phase.Returned? && s.calls[1].phase.Returned?
  }

  /**
   Once both have returned: neither reports an error, the store holds the second one's target, the rows are
   complete, and the log is right exactly when they tell of that target.
   */
  lemma TwoEnd(ss: seq<State>, steps: seq<Step>, w: Two, x: Scope, n: nat)
    requires TwoRun(ss, steps, w, x) && n < |ss| && BothReturned(ss[n])
    ensures ss[n].calls[0].phase.err.None? && ss[n].calls[1].phase.err.None?
    ensures R.Lookup(ss[n].store, x) == R.Target(w.q) && (w.y == w.a || w.y == R.Target(w.p))
    ensures Complete(First(w), Second(w), MarksIn(ss, steps, n, x))
    ensures TruthfulOn(ss[n], x) <==> ApplyAll(Projected(w.a), RowsOf(MarksIn(ss, steps, n, x))) == Projected(R.Target(w.q))
  {
    TwoRunOk(ss, steps, w, x, n);
    LogIsMarks(ss, steps, n, x);
    assert Topics(First(w))[..|Topics(First(w))|] == Topics(First(w));
    assert Topics(Second(w))[..|Topics(Second(w))|] == Topics(Second(w));
  }

  /**
   Two upserts in any interleaving of their steps, with no error anywhere: once both have returned, the log
   is right exactly when every slot is harmless for the order in which their rows reached it.
   */
  lemma TwoUpsertsExactly(ss: seq<State>, steps: seq<Step>, w: Two, x: Scope, n: nat)
    requires TwoRun(ss, steps, w, x) && n < |ss| && BothReturned(ss[n]) && w.p.Upsert? && w.q.Upsert?
    ensures ss[n].calls[0].phase.err.None? && ss[n].calls[1].phase.err.None?
    ensures TruthfulOn(ss[n], x) <==> forall t :: Harmless(First(w), Second(w), MarksIn(ss, steps, n, x), t)
  {
    TwoEnd(ss, steps, w, x, n);
    UpsertsTellExactly(w.a, First(w), Second(w), MarksIn(ss, steps, n, x));
  }

  /**
   An upsert and a delete in any interleaving, with no error anywhere: once both have returned, the log is
   right exactly when its last creation or deletion is the kind of the call that wrote last. If both read the
   same row that is so exactly if there was one and the delete wrote last, or none and the upsert did.
   */
  lemma UpsertAndDeleteExactly(ss: seq<State>, steps: seq<Step>, w: Two, x: Scope, n: nat)
    requires TwoRun(ss, steps, w, x) && n < |ss| && BothReturned(ss[n]) && w.p.Upsert? != w.q.Upsert?
    ensures ss[n].calls[0].phase.err.None? && ss[n].calls[1].phase.err.None?
    ensures TruthfulOn(ss[n], x) <==> LastLife(MarksIn(ss, steps, n, x)) == Some(if w.q.Upsert? then All else Gone)
    ensures w.y == w.a ==> (TruthfulOn(ss[n], x) <==> (w.a.Some? <==> w.q.Delete?))
  {
    TwoEnd(ss, steps, w, x, n);
    MixedTellsExactly(w.a, First(w), Second(w), MarksIn(ss, steps, n, x));
    if w.y == w.a {
      MixedBothReadSame(w.a, First(w), Second(w), MarksIn(ss, steps, n, x));
    }
  }

  // ----- runs that drift, with no error anywhere

  lemma OneSlotDiff(a: Policy, b: Policy, t: Slot)
    requires forall u :: Read(Project(a), u) != Read(Project(b), u) <==> u == t
    ensures Diff(Some(a), b) == [ChangeOf(Project(a), Project(b), t)]
  {
    var ts := DiffSlots(Project(a), Project(b));
    DiffSlotsExact(Project(a), Project(b));
    assert t in ts;
    forall i | 0 <= i < |ts| ensures ts[i] == t {
      assert ts[i] in ts;
      assert Read(Project(a), ts[i]) != Read(Project(b), ts[i]);
    }
    assert ts[|ts| - 1] == ts[0];
  }

  /** The log and store after `a` was created at its scope. */
  function Created(a: Policy, actor: Actor, calls: seq<Call>): State {
    State(map[a.scope := a], [AuditEvent(a.scope, Change(CREATED, Nil, Snap(TakeSnapshot(a))), actor, 0)], calls)
  }

  lemma CreatedIsTruthful(a: Policy, actor: Actor, calls: seq<Call>)
    ensures Told(Created(a, actor, calls).log, a.scope) == Some(Project(a)) == Held(Created(a, actor, calls).store, a.scope)
  {
    var log := Created(a, actor, calls).log;
    assert log == [] + [log[0]];
    ToldAppend([], log[0], a.scope);
  }

  /** The model and the tone of a policy edited at once: each edit on top of the same row. */
  predicate Edits(a: Policy, u: R.Op, v: R.Op) {
    && u.Upsert? && v.Upsert? && R.Refusal(u).None? && R.Refusal(v).None?
    && u.p == a.(model := u.p.model) && u.p.model != a.model
    && v.p == a.(tone := v.p.tone) && v.p.tone != a.tone
  }

  lemma EditDiffs(a: Policy, u: R.Op, v: R.Op)
    requires Edits(a, u, v)
    ensures R.Due(Some(a), u) == [Change("model", Str(a.model), Str(u.p.model))]
    ensures R.Due(Some(a), v) == [Change("tone", Str(a.tone), Str(v.p.tone))]
  {
    OneSlotDiff(a, u.p, Col(Model));
    OneSlotDiff(a, v.p, Col(Tone));
  }

  const DRIFT: seq<Step> := [Get(0, false), Get(1, false), Store(0, Fine), Store(1, Fine), Record(0, Fine), Record(1, Fine)]

  /**
   Two admins edit different columns of one policy at once. Their rows even reach the log in the order of
   the writes, and neither call fails, yet the log tells of a model the store does not have.
   */
  lemma DifferentColumnsDrift(a: Policy, actor: Actor, u: R.Op, v: R.Op) returns (ss: seq<State>)
    requires Edits(a, u, v)
    ensures Run(ss, DRIFT) && ss[0] == Created(a, actor, [Call(u, Begun), Call(v, Begun)]) && TruthfulOn(ss[0], a.scope)
    ensures BothReturned(ss[6]) && ss[6].calls[0].phase.err.None? && ss[6].calls[1].phase.err.None?
    ensures ss[6].store == map[a.scope := v.p] && !TruthfulOn(ss[6], a.scope)
  {
    CreatedIsTruthful(a, actor, [Call(u, Begun), Call(v, Begun)]);
    var begin := ReadAndWrite(a, actor, u, v);
    var end := RecordBoth(a, actor, u, v);
    RunsJoin(begin, DRIFT[..4], end, DRIFT[4..]);
    ss := begin + end[1..];
    assert DRIFT == DRIFT[..4] + DRIFT[4..];
    assert ss[6] == end[2] && ss[0] == begin[0];
  }

  lemma RunsJoin(ss: seq<State>, steps: seq<Step>, ts: seq<State>, more: seq<Step>)
    requires Run(ss, steps) && Run(ts, more) && ss[|steps|] == ts[0]
    ensures Run(ss + ts[1..], steps + more)
  {
    var all, those := ss + ts[1..], steps + more;
    forall i | 0 <= i < |those| ensures Follows(all[i], those[i], all[i + 1]) {
      if i < |steps| {
        assert all[i] == ss[i] && all[i + 1] == ss[i + 1] && those[i] == steps[i];
      } else {
        var j := i - |steps|;
        assert all[i] == ts[j] && all[i + 1] == ts[j + 1] && those[i] == more[j];
      }
    }
  }

  /** Both have read `a` and written; nothing is logged yet. */
  function BothWritten(a: Policy, actor: Actor, u: R.Op, v: R.Op): State
    requires v.Upsert?
  {
    Created(a, actor, [Call(u, Recording(Some(a), 0)), Call(v, Recording(Some(a), 0))]).(store := map[a.scope := v.p])
  }

  lemma ReadAndWrite(a: Policy, actor: Actor, u: R.Op, v: R.Op) returns (ss: seq<State>)
    requires Edits(a, u, v)
    ensures Run(ss, DRIFT[..4]) && ss[4] == BothWritten(a, actor, u, v)
    ensures ss[0] == Created(a, actor, [Call(u, Begun), Call(v, Begun)])
  {
    EditDiffs(a, u, v);
    var s0 := Created(a, actor, [Call(u, Begun), Call(v, Begun)]);
    var s1 := Do(s0, DRIFT[0]);
    var s2 := Do(s1, DRIFT[1]);
    assert s2.calls == [Call(u, Got(Some(a))), Call(v, Got(Some(a)))];
    var s3 := Do(s2, DRIFT[2]);
    assert s3.calls == [Call(u, Recording(Some(a), 0)), Call(v, Got(Some(a)))];
    assert s3.store == map[a.scope := u.p];
    var s4 := Do(s3, DRIFT[3]);
    assert s4.store == map[a.scope := v.p];
    ss := [s0, s1, s2, s3, s4];
  }

  lemma RecordBoth(a: Policy, actor: Actor, u: R.Op, v: R.Op) returns (ss: seq<State>)
    requires Edits(a, u, v)
    ensures Run(ss, DRIFT[4..]) && |ss| == 3 && ss[0] == BothWritten(a, actor, u, v)
    ensures BothReturned(ss[2]) && ss[2].calls[0].phase.err.None? && ss[2].calls[1].phase.err.None?
    ensures ss[2].store == map[a.scope := v.p] && !TruthfulOn(ss[2], a.scope)
  {
    EditDiffs(a, u, v);
    var s4 := BothWritten(a, actor, u, v);
    var s5 := Do(s4, Record(0, Fine));
    var s6 := Do(s5, Record(1, Fine));
    ss := [s4, s5, s6];
    CreatedIsTruthful(a, actor, []);
    ToldBoth(a, s4.log, Event(s4.calls[0]), Event(s5.calls[1]));
  }

  lemma ToldBoth(a: Policy, log: seq<AuditEvent>, e0: AuditEvent, e1: AuditEvent)
    requires Told(log, a.scope) == Some(Project(a)) && e0.scope == e1.scope == a.scope
    requires e0.change.field == "model" && e0.change.after.Str? && e1.change.field == "tone" && e1.change.after.Str?
    ensures Told(log + [e0] + [e1], a.scope) ==
            Some(Project(a).(model := e0.change.after.s, tone := e1.change.after.s))
  {
    ToldAppend(log, e0, a.scope);
    ToldAppend(log + [e0], e1, a.scope);
  }

  // ----- an edit and a delete that both read the row

  /** A delete and an edit of one policy. */
  predicate EditAndDelete(a: Policy, d: R.Op, u: R.Op) {
    && d.Delete? && u.Upsert? && R.Refusal(d).None? && R.Refusal(u).None? && d.scope == a.scope
    && u.p == a.(model := u.p.model) && u.p.model != a.model
  }

  const LOST: seq<Step> := [Get(0, false), Get(1, false), Store(0, Fine), Record(0, Fine), Store(1, Fine), Record(1, Fine)]

  /** Both have read `a`; the delete is done and logged. */
  function DeletedBetween(a: Policy, actor: Actor, d: R.Op, u: R.Op): State
    requires d.actor.Some?
  {
    State(map[], Created(a, actor, []).log + [AuditEvent(a.scope, Change(DELETED, Snap(TakeSnapshot(a)), Nil), d.actor.value, d.at)],
          [Call(d, Returned(None)), Call(u, Got(Some(a)))])
  }

  lemma DeletesBetween(a: Policy, actor: Actor, d: R.Op, u: R.Op) returns (ss: seq<State>)
    requires EditAndDelete(a, d, u)
    ensures Run(ss, LOST[..4]) && ss[0] == Created(a, actor, [Call(d, Begun), Call(u, Begun)])
    ensures ss[4] == DeletedBetween(a, actor, d, u)
  {
    var s0 := Created(a, actor, [Call(d, Begun), Call(u, Begun)]);
    var s1 := Do(s0, LOST[0]);
    var s2 := Do(s1, LOST[1]);
    assert s2.calls == [Call(d, Got(Some(a))), Call(u, Got(Some(a)))];
    var s3 := Do(s2, LOST[2]);
    assert s3.calls == [Call(d, Recording(Some(a), 0)), Call(u, Got(Some(a)))];
    assert s3.store == map[];
    var s4 := Do(s3, LOST[3]);
    assert s4.calls == [Call(d, Returned(None)), Call(u, Got(Some(a)))];
    ss := [s0, s1, s2, s3, s4];
  }

  lemma EditsAfter(a: Policy, actor: Actor, d: R.Op, u: R.Op) returns (ss: seq<State>)
    requires EditAndDelete(a, d, u)
    ensures Run(ss, LOST[4..]) && |ss| == 3 && ss[0] == DeletedBetween(a, actor, d, u)
    ensures ss[2].calls == [Call(d, Returned(None)), Call(u, Returned(None))]
    ensures ss[2].store == map[a.scope := u.p] && Told(ss[2].log, a.scope) == None
  {
    OneSlotDiff(a, u.p, Col(Model));
    var s4 := DeletedBetween(a, actor, d, u);
    var s5 := Do(s4, Store(1, Fine));
    assert s5.calls == [Call(d, Returned(None)), Call(u, Recording(Some(a), 0))];
    var s6 := Do(s5, Record(1, Fine));
    ss := [s4, s5, s6];
    ToldNothing(Created(a, actor, []).log, s4.log[1], Event(s5.calls[1]), a.scope);
  }

  /** A row on a slot after a deletion tells of nothing. */
  lemma ToldNothing(log: seq<AuditEvent>, gone: AuditEvent, edit: AuditEvent, x: Scope)
    requires gone.scope == edit.scope == x && gone.change.field == DELETED && edit.change.field == "model"
    ensures Told(log + [gone] + [edit], x) == None
  {
    ToldAppend(log, gone, x);
    ToldAppend(log + [gone], edit, x);
  }

  /** A delete and an edit that both read the row: both succeed, both are logged, and the log tells of no policy while the store has one. */
  lemma EditOutlivesDelete(a: Policy, actor: Actor, d: R.Op, u: R.Op) returns (ss: seq<State>)
    requires EditAndDelete(a, d, u)
    ensures Run(ss, LOST) && ss[0] == Created(a, actor, [Call(d, Begun), Call(u, Begun)]) && TruthfulOn(ss[0], a.scope)
    ensures ss[6].calls == [Call(d, Returned(None)), Call(u, Returned(None))]
    ensures ss[6].store == map[a.scope := u.p] && Told(ss[6].log, a.scope) == None
  {
    CreatedIsTruthful(a, actor, [Call(d, Begun), Call(u, Begun)]);
    var begin := DeletesBetween(a, actor, d, u);
    var end := EditsAfter(a, actor, d, u);
    RunsJoin(begin, LOST[..4], end, LOST[4..]);
    ss := begin + end[1..];
    assert LOST == LOST[..4] + LOST[4..];
    assert ss[6] == end[2] && ss[0] == begin[0];
  }

  // ----- a delete that found nothing

  /** The delete has read nothing; the upsert has created the row and logged it. */
  function CreatedBetween(u: R.Op, d: R.Op): State
    requires u.Upsert? && u.actor.Some?
  {
    State(map[u.p.scope := u.p], [AuditEvent(u.p.scope, Change(CREATED, Nil, Snap(TakeSnapshot(u.p))), u.actor.value, u.at)],
          [Call(d, Got(None)), Call(u, Returned(None))])
  }

  predicate Races(u: R.Op, d: R.Op) {
    u.Upsert? && d.Delete? && d.scope == u.p.scope && R.Refusal(u).None? && R.Refusal(d).None?
  }

  const RACE: seq<Step> := [Get(0, false), Get(1, false), Store(1, Fine), Record(1, Fine)]

  lemma CreatesBetween(u: R.Op, d: R.Op) returns (ss: seq<State>)
    requires Races(u, d)
    ensures Run(ss, RACE) && ss[0] == State(map[], [], [Call(d, Begun), Call(u, Begun)]) && ss[4] == CreatedBetween(u, d)
  {
    var s0 := State(map[], [], [Call(d, Begun), Call(u, Begun)]);
    var s1 := Do(s0, RACE[0]);
    var s2 := Do(s1, RACE[1]);
    assert s2 == State(map[], [], [Call(d, Got(None)), Call(u, Got(None))]);
    var s3 := Do(s2, RACE[2]);
    assert s3 == State(map[u.p.scope := u.p], [], [Call(d, Got(None)), Call(u, Recording(None, 0))]);
    var s4 := Do(s3, RACE[3]);
    assert s4 == CreatedBetween(u, d);
    ss := [s0, s1, s2, s3, s4];
  }

  /** It happens: the delete reads, an upsert creates the row and logs it, the delete removes it without a trace. */
  lemma DeleteRaces(u: R.Op, d: R.Op) returns (ss: seq<State>)
    requires Races(u, d)
    ensures Run(ss, RACE + [Store(0, Fine)]) && ss[0] == State(map[], [], [Call(d, Begun), Call(u, Begun)])
    ensures ss[5].calls == [Call(d, Returned(None)), Call(u, Returned(None))]
    ensures ss[5].store == map[] && Told(ss[5].log, u.p.scope) == Some(Project(u.p))
  {
    var begin := CreatesBetween(u, d);
    var s4 := CreatedBetween(u, d);
    var s5 := s4.(store := map[], calls := [Call(d, Returned(None)), Call(u, Returned(None))]);
    assert s4.store - {u.p.scope} == map[];
    assert Do(s4, Store(0, Fine)) == s5;
    RunsJoin(begin, RACE, [s4, s5], [Store(0, Fine)]);
    ss := begin + [s4, s5][1..];
    ToldAppend([], s4.log[0], u.p.scope);
    assert [] + [s4.log[0]] == s4.log;
  }
}
