/**
 The consent ledger (internal/aipolicy/consent_service.go) over its store, one row per scope. Recording
 reads the row and then writes it, in two separate transactions, so concurrent calls may come between.
 The digest of the preview is a parameter, and so is the store's clock.
 */
module Consent {
  import opened Fates
  import opened Options
  import Text
  import opened PolicyAudit
  import opened Uuids

  datatype Error =
    | InvalidTenant | InvalidScopeType | InvalidScopeId
    | InvalidAnonymizerVersion | InvalidPromptVersion | StoreFailed

  datatype Answer = Has(yes: bool) | Refused(why: Error)

  datatype Row = Row(actor: Option<Id>, hash: string, anonymizer: string, prompt: string, acceptedAt: int)

  datatype Call = Call(scope: Scope, actor: Option<Id>, preview: string, anonymizer: string, prompt: string)

  type Table = map<Scope, Row>

  const KINDS := {"tenant", "team", "channel"}

  function ScopeError(scope: Scope): Option<Error> {
    if scope.tenant == NIL_ID then Some(InvalidTenant)
    else if scope.kind !in KINDS then Some(InvalidScopeType)
    else if Text.Blank(scope.id) then Some(InvalidScopeId)
    else None
  }

  /** The checks both operations make before they touch the store. */
  function InputError(scope: Scope, anonymizer: string, prompt: string): Option<Error> {
    if ScopeError(scope).Some? then ScopeError(scope)
    else if Text.Blank(anonymizer) then Some(InvalidAnonymizerVersion)
    else if Text.Blank(prompt) then Some(InvalidPromptVersion)
    else None
  }

  function CallError(call: Call): Option<Error> {
    InputError(call.scope, call.anonymizer, call.prompt)
  }

  /** The row already says what the call asks for, whoever asked. */
  predicate Says(sha: string -> string, row: Row, call: Call) {
    row.hash == sha(call.preview) && row.anonymizer == call.anonymizer && row.prompt == call.prompt
  }

  function RowFor(sha: string -> string, call: Call, now: int): Row {
    Row(call.actor, sha(call.preview), call.anonymizer, call.prompt, now)
  }

  function HasConsent(t: Table, scope: Scope, anonymizer: string, prompt: string, getFails: bool): Answer {
    var bad := InputError(scope, anonymizer, prompt);
    if bad.Some? then Refused(bad.value)
    else if getFails then Refused(StoreFailed)
    else Has(scope in t && t[scope].anonymizer == anonymizer && t[scope].prompt == prompt)
  }

  /** One undisturbed `RecordConsent`: the new table and the error, if any. */
  function Recorded(sha: string -> string, t: Table, call: Call, getFails: bool, fate: Fate, now: int)
    : (Table, Option<Error>)
  {
    if CallError(call).Some? then (t, CallError(call))
    else if getFails then (t, Some(StoreFailed))
    else if call.scope in t && Says(sha, t[call.scope], call) then (t, None)
    else if fate.Fails? then (t, Some(StoreFailed))
    else (t[call.scope := RowFor(sha, call, now)], if fate.Lands? then Some(StoreFailed) else None)
  }

  class Service {
    var rows: Table

    method RecordConsent(sha: string -> string, call: Call, getFails: bool, fate: Fate, now: int)
      returns (err: Option<Error>)
      modifies this
      ensures (rows, err) == Recorded(sha, old(rows), call, getFails, fate, now)
      ensures forall scope :: scope != call.scope ==> (scope in rows <==> scope in old(rows))
      ensures forall scope :: scope != call.scope && scope in rows ==> rows[scope] == old(rows)[scope]
      ensures err.None? ==>
                && call.scope in rows && rows[call.scope].hash == sha(call.preview)
                && rows[call.scope].anonymizer == call.anonymizer && rows[call.scope].prompt == call.prompt
      ensures err.Some? && !fate.Lands? ==> rows == old(rows)
    {
      err := CallError(call);
      if err.Some? {
        return;
      }
      if getFails {
        return Some(StoreFailed);
      }
      if call.scope in rows && Says(sha, rows[call.scope], call) {
        return None;
      }
      if fate.Fails? {
        return Some(StoreFailed);
      }
      rows := rows[call.scope := RowFor(sha, call, now)];
      if fate.Lands? {
        return Some(StoreFailed);
      }
    }
  }

  /** Recording the same preview and versions again leaves the row alone, actor and time included. */
  lemma RecordingAgainChangesNothing(sha: string -> string, t: Table, call: Call, again: Call,
                                     fate: Fate, fate': Fate, now: int, now': int)
    requires Recorded(sha, t, call, false, fate, now).1.None?
    requires again.scope == call.scope && again.preview == call.preview
    requires again.anonymizer == call.anonymizer && again.prompt == call.prompt
    ensures var after := Recorded(sha, t, call, false, fate, now).0;
            Recorded(sha, after, again, false, fate', now') == (after, None)
  {
    var after := Recorded(sha, t, call, false, fate, now).0;
    assert Says(sha, after[call.scope], again);
    assert CallError(again) == CallError(call);
  }

  // ----- any number of concurrent calls

  datatype Phase = Checked | Missed | Returned(err: Option<Error>)

  datatype Running = Running(call: Call, phase: Phase)

  /**
   A call at the instant it took effect; `wrote` unless the row already said so, and `acked` unless its write
   landed behind an error.
   */
  datatype Effect = Effect(id: nat, call: Call, wrote: bool, at: int, acked: bool)

  datatype State = State(rows: Table, calls: seq<Running>, effects: seq<Effect>)

  datatype Step =
    | Begin(call: Call)
    | Look(id: nat, fails: bool)
    | Store(id: nat, fate: Fate, now: int)

  const INIT := State(map[], [], [])

  predicate Enabled(s: State, step: Step) {
    match step
    case Begin(_) => true
    case Look(id, _) => id < |s.calls| && s.calls[id].phase == Checked
    case Store(id, _, _) => id < |s.calls| && s.calls[id].phase == Missed
  }

  function At(s: State, id: nat, phase: Phase): State
    requires id < |s.calls|
  {
    s.(calls := s.calls[id := s.calls[id].(phase := phase)])
  }

  function Reply(acked: bool): Phase {
    Returned(if acked then None else Some(StoreFailed))
  }

  function Do(sha: string -> string, s: State, step: Step): State
    requires Enabled(s, step)
  {
    match step
    case Begin(call) =>
      s.(calls := s.calls + [Running(call, if CallError(call).Some? then Returned(CallError(call)) else Checked)])
    case Look(id, fails) =>
      var call := s.calls[id].call;
      if fails then At(s, id, Returned(Some(StoreFailed)))
      else if call.scope in s.rows && Says(sha, s.rows[call.scope], call) then
        At(s, id, Returned(None)).(effects := s.effects + [Effect(id, call, false, 0, true)])
      else At(s, id, Missed)
    case Store(id, fate, now) =>
      var call := s.calls[id].call;
      if fate.Fails? then At(s, id, Returned(Some(StoreFailed)))
      else
        At(s, id, Reply(fate.Fine?)).(
          rows := s.rows[call.scope := RowFor(sha, call, now)],
          effects := s.effects + [Effect(id, call, true, now, fate.Fine?)])
  }

  ghost predicate Run(sha: string -> string, ss: seq<State>, steps: seq<Step>) {
    && |ss| == |steps| + 1 && ss[0] == INIT
    && forall i :: 0 <= i < |steps| ==> Enabled(ss[i], steps[i]) && ss[i + 1] == Do(sha, ss[i], steps[i])
  }

  /** The last call that took effect on a scope, and the last that wrote. */
  function LastOn(acc: seq<Effect>, scope: Scope): Option<Effect> {
    if acc == [] then None
    else if acc[|acc| - 1].call.scope == scope then Some(acc[|acc| - 1])
    else LastOn(acc[..|acc| - 1], scope)
  }

  function LastWriteOn(acc: seq<Effect>, scope: Scope): Option<Effect> {
    if acc == [] then None
    else if acc[|acc| - 1].call.scope == scope && acc[|acc| - 1].wrote then Some(acc[|acc| - 1])
    else LastWriteOn(acc[..|acc| - 1], scope)
  }

  /** What the calls in effect say the row of one scope must be. */
  ghost predicate RowOk(sha: string -> string, s: State, scope: Scope) {
    var last, write := LastOn(s.effects, scope), LastWriteOn(s.effects, scope);
    && (scope in s.rows <==> last.Some?)
    && (scope in s.rows <==> write.Some?)
    && (scope in s.rows ==>
          && s.rows[scope] == RowFor(sha, write.value.call, write.value.at)
          && Says(sha, s.rows[scope], last.value.call))
  }

  /** Each call takes effect at most once, and exactly the acknowledged ones return nil. */
  ghost predicate LogOk(s: State) {
    && (forall k :: 0 <= k < |s.effects| ==>
          s.effects[k].id < |s.calls| && s.calls[s.effects[k].id] == Running(s.effects[k].call, Reply(s.effects[k].acked)))
    && (forall j, k :: 0 <= j < k < |s.effects| ==> s.effects[j].id != s.effects[k].id)
    && (forall id :: 0 <= id < |s.calls| && s.calls[id].phase == Returned(None) ==>
          exists k :: 0 <= k < |s.effects| && s.effects[k].id == id && s.effects[k].acked)
  }

  /** A call that took effect without writing asked for what the last writer before it had put there. */
  ghost predicate QuietOk(sha: string -> string, acc: seq<Effect>, j: nat)
    requires j < |acc|
  {
    var w := LastWriteOn(acc[..j], acc[j].call.scope);
    acc[j].wrote || (w.Some? && Says(sha, RowFor(sha, w.value.call, w.value.at), acc[j].call))
  }

  ghost predicate AllQuietOk(sha: string -> string, acc: seq<Effect>) {
    forall j :: 0 <= j < |acc| ==> QuietOk(sha, acc, j)
  }

  ghost predicate Inv(sha: string -> string, s: State) {
    && (forall scope :: RowOk(sha, s, scope))
    && LogOk(s)
    && AllQuietOk(sha, s.effects)
    && (forall id :: 0 <= id < |s.calls| && s.calls[id].phase in {Checked, Missed, Returned(None)} ==>
          CallError(s.calls[id].call).None?)
  }

  lemma LastAfter(acc: seq<Effect>, a: Effect, scope: Scope)
    ensures LastOn(acc + [a], scope) == if a.call.scope == scope then Some(a) else LastOn(acc, scope)
    ensures LastWriteOn(acc + [a], scope) ==
            if a.call.scope == scope && a.wrote then Some(a) else LastWriteOn(acc, scope)
  {
    assert (acc + [a])[..|acc|] == acc;
  }

  lemma StepKeepsRows(sha: string -> string, s: State, step: Step, scope: Scope)
    requires Enabled(s, step) && RowOk(sha, s, scope)
    ensures RowOk(sha, Do(sha, s, step), scope)
  {
    if step.Look? {
      LastAfter(s.effects, Effect(step.id, s.calls[step.id].call, false, 0, true), scope);
    } else if step.Store? {
      LastAfter(s.effects, Effect(step.id, s.calls[step.id].call, true, step.now, step.fate.Fine?), scope);
    }
  }

  lemma EffectKeepsLog(s: State, id: nat, wrote: bool, at: int, acked: bool)
    requires LogOk(s) && id < |s.calls| && s.calls[id].phase in {Checked, Missed}
    ensures LogOk(At(s, id, Reply(acked)).(effects := s.effects + [Effect(id, s.calls[id].call, wrote, at, acked)]))
  {
    var s' := At(s, id, Reply(acked)).(effects := s.effects + [Effect(id, s.calls[id].call, wrote, at, acked)]);
    forall i | 0 <= i < |s'.calls| && s'.calls[i].phase == Returned(None)
      ensures exists k :: 0 <= k < |s'.effects| && s'.effects[k].id == i && s'.effects[k].acked
    {
      if i == id {
        assert s'.effects[|s.effects|].id == id;
      } else {
        var k :| 0 <= k < |s.effects| && s.effects[k].id == i && s.effects[k].acked;
        assert s'.effects[k].id == i;
      }
    }
  }

  lemma StepKeepsLog(sha: string -> string, s: State, step: Step)
    requires Enabled(s, step) && LogOk(s)
    ensures LogOk(Do(sha, s, step))
  {
    match step
    case Begin(_) =>
    case Look(id, _) => EffectKeepsLog(s, id, false, 0, true);
    case Store(id, fate, now) => EffectKeepsLog(s, id, true, now, fate.Fine?);
  }

  lemma AppendKeepsQuiet(sha: string -> string, acc: seq<Effect>, a: Effect)
    requires AllQuietOk(sha, acc) && QuietOk(sha, acc + [a], |acc|)
    ensures AllQuietOk(sha, acc + [a])
  {
    forall j | 0 <= j < |acc| ensures QuietOk(sha, acc + [a], j) {
      assert QuietOk(sha, acc, j);
      assert (acc + [a])[..j] == acc[..j];
    }
  }

  lemma StepKeepsQuiet(sha: string -> string, s: State, step: Step)
    requires Enabled(s, step) && (forall scope :: RowOk(sha, s, scope)) && AllQuietOk(sha, s.effects)
    ensures AllQuietOk(sha, Do(sha, s, step).effects)
  {
    var acc, acc' := s.effects, Do(sha, s, step).effects;
    if acc' != acc {
      var a := acc'[|acc|];
      assert acc' == acc + [a] && acc'[..|acc|] == acc;
      assert RowOk(sha, s, a.call.scope);
      AppendKeepsQuiet(sha, acc, a);
    }
  }

  lemma StepKeepsInv(sha: string -> string, s: State, step: Step)
    requires Enabled(s, step) && Inv(sha, s)
    ensures Inv(sha, Do(sha, s, step))
  {
    forall scope ensures RowOk(sha, Do(sha, s, step), scope) { StepKeepsRows(sha, s, step, scope); }
    StepKeepsLog(sha, s, step);
    StepKeepsQuiet(sha, s, step);
  }

  lemma {:induction false} ReachableInv(sha: string -> string, ss: seq<State>, steps: seq<Step>, n: nat)
    requires Run(sha, ss, steps) && n < |ss|
    ensures Inv(sha, ss[n])
    decreases n
  {
    if n > 0 {
      ReachableInv(sha, ss, steps, n - 1);
      StepKeepsInv(sha, ss[n - 1], steps[n - 1]);
    }
  }

  lemma {:induction false} LastIsAnEffect(acc: seq<Effect>, scope: Scope)
    ensures LastOn(acc, scope).Some? ==> LastOn(acc, scope).value in acc
    decreases |acc|
  {
    if acc != [] {
      LastIsAnEffect(acc[..|acc| - 1], scope);
    }
  }

  // ----- what a run guarantees

  /**
   In every reachable state of any number of concurrent calls, a scope has consent for versions
   (anonymizer, prompt) exactly when the last call that took effect on that scope recorded those versions;
   that call returned nil, unless its write landed behind an error.
   */
  lemma ConsentIsLastRecord(sha: string -> string, ss: seq<State>, steps: seq<Step>, n: nat,
                            scope: Scope, anonymizer: string, prompt: string)
    requires Run(sha, ss, steps) && n < |ss|
    requires InputError(scope, anonymizer, prompt).None?
    ensures var last := LastOn(ss[n].effects, scope);
            HasConsent(ss[n].rows, scope, anonymizer, prompt, false) == Has(true) <==>
            last.Some? && last.value.call.anonymizer == anonymizer && last.value.call.prompt == prompt
    ensures var last := LastOn(ss[n].effects, scope);
            last.Some? ==> last.value.id < |ss[n].calls|
                           && ss[n].calls[last.value.id] == Running(last.value.call, Reply(last.value.acked))
  {
    ReachableInv(sha, ss, steps, n);
    assert RowOk(sha, ss[n], scope);
    LastIsAnEffect(ss[n].effects, scope);
  }

  /** A call returned nil exactly when it took effect and was acknowledged, and only a well-formed call can. */
  lemma NilMeansInEffect(sha: string -> string, ss: seq<State>, steps: seq<Step>, n: nat, id: nat)
    requires Run(sha, ss, steps) && n < |ss| && id < |ss[n].calls|
    ensures ss[n].calls[id].phase == Returned(None) <==>
            exists k :: 0 <= k < |ss[n].effects| && ss[n].effects[k].id == id && ss[n].effects[k].acked
    ensures ss[n].calls[id].phase == Returned(None) ==> CallError(ss[n].calls[id].call).None?
  {
    ReachableInv(sha, ss, steps, n);
  }

  /**
   The whole row, actor and time included, is the one the last writing call put there; and a call
   that took effect without writing asked for the digest and versions of the last writer before it.
   */
  lemma RowIsTheLastWriters(sha: string -> string, ss: seq<State>, steps: seq<Step>, n: nat, scope: Scope, j: nat)
    requires Run(sha, ss, steps) && n < |ss| && j < |ss[n].effects|
    ensures var w := LastWriteOn(ss[n].effects, scope);
            && (scope in ss[n].rows <==> w.Some?)
            && (w.Some? ==>
                  var call := w.value.call;
                  ss[n].rows[scope] == Row(call.actor, sha(call.preview), call.anonymizer, call.prompt, w.value.at))
    ensures var quiet := ss[n].effects[j];
            var w := LastWriteOn(ss[n].effects[..j], quiet.call.scope);
            !quiet.wrote ==>
              && w.Some? && sha(w.value.call.preview) == sha(quiet.call.preview)
              && w.value.call.anonymizer == quiet.call.anonymizer && w.value.call.prompt == quiet.call.prompt
  {
    ReachableInv(sha, ss, steps, n);
    assert RowOk(sha, ss[n], scope);
    assert QuietOk(sha, ss[n].effects, j);
  }

  /** The effects on record that wrote are exactly the stores that took effect, at their time. */
  lemma {:induction false} WritesAreStores(sha: string -> string, ss: seq<State>, steps: seq<Step>, n: nat, k: nat) returns (i: nat)
    requires Run(sha, ss, steps) && n < |ss| && k < |ss[n].effects| && ss[n].effects[k].wrote
    ensures i < n && steps[i].Store? && !steps[i].fate.Fails?
    ensures var e := ss[n].effects[k];
            && steps[i].id == e.id < |ss[i].calls| && ss[i].calls[e.id].call == e.call
            && e.at == steps[i].now && e.acked == steps[i].fate.Fine?
    decreases n
  {
    assert ss[n] == Do(sha, ss[n - 1], steps[n - 1]);
    if k < |ss[n - 1].effects| {
      i := WritesAreStores(sha, ss, steps, n - 1, k);
    } else {
      i := n - 1;
    }
  }

  /** What is wrong with an input, in the order it is looked for. */
  lemma InputErrorSpelledOut(scope: Scope, anonymizer: string, prompt: string)
    ensures var badKind := scope.kind != "tenant" && scope.kind != "team" && scope.kind != "channel";
            InputError(scope, anonymizer, prompt) ==
            if scope.tenant == NIL_ID then Some(InvalidTenant)
            else if badKind then Some(InvalidScopeType)
            else if forall k :: 0 <= k < |scope.id| ==> Text.IsSpace(scope.id[k]) then Some(InvalidScopeId)
            else if forall k :: 0 <= k < |anonymizer| ==> Text.IsSpace(anonymizer[k]) then Some(InvalidAnonymizerVersion)
            else if forall k :: 0 <= k < |prompt| ==> Text.IsSpace(prompt[k]) then Some(InvalidPromptVersion)
            else None
  {
    Text.BlankIs(scope.id);
    Text.BlankIs(anonymizer);
    Text.BlankIs(prompt);
  }

  /** What an undisturbed call leaves and returns, fault by fault. */
  lemma RecordedSpelledOut(sha: string -> string, t: Table, call: Call, getFails: bool, fate: Fate, now: int)
    ensures var bad := InputError(call.scope, call.anonymizer, call.prompt);
            var row := Row(call.actor, sha(call.preview), call.anonymizer, call.prompt, now);
            var known := call.scope in t && t[call.scope].hash == row.hash && t[call.scope].anonymizer == row.anonymizer && t[call.scope].prompt == row.prompt;
            && (bad.Some? ==> Recorded(sha, t, call, getFails, fate, now) == (t, bad))
            && (bad.None? && getFails ==> Recorded(sha, t, call, getFails, fate, now) == (t, Some(StoreFailed)))
            && (bad.None? && !getFails && known ==> Recorded(sha, t, call, getFails, fate, now) == (t, None))
            && (bad.None? && !getFails && !known ==>
                  Recorded(sha, t, call, getFails, fate, now) ==
                  match fate
                  case Fine => (t[call.scope := row], None)
                  case Fails => (t, Some(StoreFailed))
                  case Lands => (t[call.scope := row], Some(StoreFailed)))
  {
  }

  /** In every run a call with a bad input has returned just that error, and the question is refused likewise. */
  lemma BadInputIsRefused(sha: string -> string, ss: seq<State>, steps: seq<Step>, n: nat, id: nat, getFails: bool)
    requires Run(sha, ss, steps) && n < |ss| && id < |ss[n].calls|
    requires var call := ss[n].calls[id].call; InputError(call.scope, call.anonymizer, call.prompt).Some?
    ensures var call := ss[n].calls[id].call;
            var e := InputError(call.scope, call.anonymizer, call.prompt);
            ss[n].calls[id].phase == Returned(e) && HasConsent(ss[n].rows, call.scope, call.anonymizer, call.prompt, getFails) == Refused(e.value)
  {
    ReturnedAtOnce(sha, ss, steps, n, id);
  }

  lemma {:induction false} ReturnedAtOnce(sha: string -> string, ss: seq<State>, steps: seq<Step>, n: nat, id: nat)
    requires Run(sha, ss, steps) && n < |ss| && id < |ss[n].calls| && CallError(ss[n].calls[id].call).Some?
    ensures ss[n].calls[id].phase == Returned(CallError(ss[n].calls[id].call))
    decreases n
  {
    assert ss[n] == Do(sha, ss[n - 1], steps[n - 1]);
    if id < |ss[n - 1].calls| {
      ReturnedAtOnce(sha, ss, steps, n - 1, id);
    }
  }

  /** A step of one call leaves the rows of every other scope alone. */
  lemma OtherScopesUntouched(sha: string -> string, s: State, step: Step, scope: Scope)
    requires Enabled(s, step)
    requires step.Begin? || s.calls[step.id].call.scope != scope
    ensures var s' := Do(sha, s, step);
            (scope in s'.rows <==> scope in s.rows) && (scope in s.rows ==> s'.rows[scope] == s.rows[scope])
  {
  }

  /** A call nobody interrupts does what the undisturbed operation says. */
  lemma AloneIsRecorded(sha: string -> string, s: State, call: Call, getFails: bool, fate: Fate, now: int)
    ensures var id := |s.calls|;
            var begun := Do(sha, s, Begin(call));
            var looked := if Enabled(begun, Look(id, getFails)) then Do(sha, begun, Look(id, getFails)) else begun;
            var stored := if Enabled(looked, Store(id, fate, now))
                          then Do(sha, looked, Store(id, fate, now)) else looked;
            && id < |stored.calls|
            && Recorded(sha, s.rows, call, getFails, fate, now).0 == stored.rows
            && stored.calls[id] == Running(call, Returned(Recorded(sha, s.rows, call, getFails, fate, now).1))
  {
  }
}
