/**
 One call of the recording decorator that nobody interrupts (internal/aipolicy/audit.go): the steps of the
 concurrent model, taken by themselves, come to the sequential operation, fault by fault.
 */
module RecordsAlone {
  import opened Options
  import opened Fates
  import opened PolicyAudit
  import R = RecordingRepository
  import opened ConcurrentRecords

  // ----- a call nobody interrupts

  /** How the environment that `f` describes ends the Record of change k. */
  function RecordFate(f: R.Faults, k: nat): Fate {
    if f.recordFailsAt != Some(k) then Fine else if f.recordLands then Lands else Fails
  }

  predicate OwnSteps(steps: seq<Step>, c: nat) {
    forall i :: 0 <= i < |steps| ==> !steps[i].Begin? && steps[i].c == c
  }

  ghost function Rest(call: Call, f: R.Faults): seq<AuditEvent>
    requires call.phase.Recording? && call.op.actor.Some? && call.phase.k <= R.Written(|R.Due(call.phase.prev, call.op)|, f)
  {
    var cs := R.Due(call.phase.prev, call.op);
    R.Stamp(ScopeOf(call), call.op.actor.value, call.op.at, cs[call.phase.k..R.Written(|cs|, f)])
  }

  lemma RestOneMore(call: Call, f: R.Faults)
    requires call.phase.Recording? && call.op.actor.Some? && call.phase.k < R.Written(|R.Due(call.phase.prev, call.op)|, f)
    ensures Rest(call, f) == [Event(call)] + Rest(call.(phase := Recording(call.phase.prev, call.phase.k + 1)), f)
  {
  }

  /** What one call adds to the log in two strokes it might as well add in one. */
  lemma MovedTwice(s: State, c: nat, p: Phase, a: seq<AuditEvent>, q: Phase, b: seq<AuditEvent>)
    requires c < |s.calls|
    ensures var s' := At(s, c, p).(log := s.log + a);
            At(s', c, q).(log := s'.log + b) == At(s, c, q).(log := s.log + (a + b))
  {
    assert s.log + a + b == s.log + (a + b);
    assert s.calls[c := s.calls[c].(phase := p)][c := s.calls[c].(phase := q)] == s.calls[c := s.calls[c].(phase := q)];
  }

  /** The Record calls of a call that nobody interrupts, from change k on. */
  lemma {:induction false} RecordsAlone(s: State, c: nat, f: R.Faults) returns (ss: seq<State>, steps: seq<Step>)
    requires c < |s.calls| && s.calls[c].phase.Recording? && s.calls[c].op.actor.Some?
    requires var n := |R.Due(s.calls[c].phase.prev, s.calls[c].op)|;
             s.calls[c].phase.k < n && (R.RecordErrs(n, f) ==> s.calls[c].phase.k <= f.recordFailsAt.value)
    ensures Run(ss, steps) && ss[0] == s && OwnSteps(steps, c)
    ensures var n := |R.Due(s.calls[c].phase.prev, s.calls[c].op)|;
            ss[|steps|] == At(s, c, Returned(if R.RecordErrs(n, f) then Some(R.RecordFailed) else None)).(log := s.log + Rest(s.calls[c], f))
    decreases |R.Due(s.calls[c].phase.prev, s.calls[c].op)| - s.calls[c].phase.k
  {
    var call := s.calls[c];
    var Recording(prev, k) := call.phase;
    var n := |R.Due(prev, call.op)|;
    var step := Record(c, RecordFate(f, k));
    var s' := Do(s, step);
    assert Follows(s, step, s');
    if RecordFate(f, k).Fine? && k + 1 < n {
      RestOneMore(call, f);
      var ts, more := RecordsAlone(s', c, f);
      RunsJoin([s, s'], [step], ts, more);
      ss, steps := [s, s'] + ts[1..], [step] + more;
      assert ss[|steps|] == ts[|more|];
      MovedTwice(s, c, Recording(prev, k + 1), [Event(call)], Returned(if R.RecordErrs(n, f) then Some(R.RecordFailed) else None), Rest(s'.calls[c], f));
    } else {
      ss, steps := [s, s'], [step];
      LastRecord(s, c, f);
    }
  }

  lemma LastRecord(s: State, c: nat, f: R.Faults)
    requires c < |s.calls| && s.calls[c].phase.Recording? && s.calls[c].op.actor.Some?
    requires var n := |R.Due(s.calls[c].phase.prev, s.calls[c].op)|;
             var k := s.calls[c].phase.k;
             k < n && (R.RecordErrs(n, f) ==> k <= f.recordFailsAt.value) && (RecordFate(f, k).Fine? ==> k + 1 == n)
    ensures var n := |R.Due(s.calls[c].phase.prev, s.calls[c].op)|;
            Do(s, Record(c, RecordFate(f, s.calls[c].phase.k))) ==
            At(s, c, Returned(if R.RecordErrs(n, f) then Some(R.RecordFailed) else None)).(log := s.log + Rest(s.calls[c], f))
  {
    var call := s.calls[c];
    var k, cs := call.phase.k, R.Due(call.phase.prev, call.op);
    if R.Written(|cs|, f) == k {
      assert s.log + Rest(call, f) == s.log;
    } else {
      assert R.Written(|cs|, f) == k + 1;
      assert Rest(call, f) == [Event(call)];
    }
  }

  /** The state after a call that got this far, its row in the table of calls aside. */
  ghost function Ended(s: State, op: R.Op, r: R.Result): State {
    State(r.s.store, r.s.log, s.calls + [Call(op, Returned(r.err))])
  }

  lemma StoreAlone(s: State, op: R.Op) returns (ss: seq<State>, steps: seq<Step>)
    requires R.Refusal(op).None? && !op.f.getFails
    ensures var prev := R.Lookup(s.store, R.ScopeOf(op));
            && Run(ss, steps) && ss[0] == s.(calls := s.calls + [Call(op, Got(prev))]) && OwnSteps(steps, |s.calls|)
            && ss[|steps|] == Ended(s, op, R.Apply(R.State(s.store, s.log), op))
  {
    var c, prev := |s.calls|, R.Lookup(s.store, R.ScopeOf(op));
    var s2 := s.(calls := s.calls + [Call(op, Got(prev))]);
    var step := Store(c, op.f.write);
    var s3 := Do(s2, step);
    assert Follows(s2, step, s3);
    assert prev.None? ==> s.store - {R.ScopeOf(op)} == s.store;
    if op.f.write.Fine? && Logs(s2, s2.calls[c]) {
      var ts, more := RecordsAlone(s3, c, op.f);
      RunsJoin([s2, s3], [step], ts, more);
      ss, steps := [s2, s3] + ts[1..], [step] + more;
      assert ss[|steps|] == ts[|more|];
      LoggedAlone(s, op, prev);
    } else {
      ss, steps := [s2, s3], [step];
      QuietAlone(s, op, prev);
    }
  }

  lemma LoggedAlone(s: State, op: R.Op, prev: Option<Policy>)
    requires R.Refusal(op).None? && !op.f.getFails && op.f.write.Fine? && prev == R.Lookup(s.store, R.ScopeOf(op)) && R.Due(prev, op) != []
    ensures var cs := R.Due(prev, op);
            var store := R.Stored(s.store, R.ScopeOf(op), R.Target(op));
            && R.Apply(R.State(s.store, s.log), op).s == R.State(store, s.log + Rest(Call(op, Recording(prev, 0)), op.f))
            && R.Apply(R.State(s.store, s.log), op).err == if R.RecordErrs(|cs|, op.f) then Some(R.RecordFailed) else None
  {
    var cs := R.Due(prev, op);
    assert cs[0..R.Written(|cs|, op.f)] == cs[..R.Written(|cs|, op.f)];
  }

  lemma QuietAlone(s: State, op: R.Op, prev: Option<Policy>)
    requires R.Refusal(op).None? && !op.f.getFails && prev == R.Lookup(s.store, R.ScopeOf(op))
    requires op.f.write.Fine? ==> R.Due(prev, op) == []
    ensures var r := R.Apply(R.State(s.store, s.log), op);
            && r.s.log == s.log && r.err == (if op.f.write.Fine? then None else Some(R.Storage))
            && r.s.store == if op.f.write.Fails? then s.store else R.Stored(s.store, R.ScopeOf(op), R.Target(op))
  {
    if op.Delete? && prev.None? {
      assert s.store - {op.scope} == s.store;
    } else if op.f.write.Fine? {
      assert s.log + R.Stamp(R.ScopeOf(op), op.actor.value, op.at, []) == s.log;
    }
  }

  /**
   From any state a call can begin, and if nobody interrupts it its steps, with the faults it meets, leave the
   store, the log and the answer that the sequential operation gives.
   */
  lemma CallAlone(s: State, op: R.Op) returns (ss: seq<State>, steps: seq<Step>)
    ensures Run(ss, [Begin(op)] + steps) && ss[0] == s && OwnSteps(steps, |s.calls|)
    ensures ss[|steps| + 1] == Ended(s, op, R.Apply(R.State(s.store, s.log), op))
  {
    var c := |s.calls|;
    var s1 := Do(s, Begin(op));
    assert Follows(s, Begin(op), s1);
    if R.Refusal(op).Some? {
      ss, steps := [s, s1], [];
    } else {
      var step := Get(c, op.f.getFails);
      var s2 := Do(s1, step);
      assert Follows(s1, step, s2);
      if op.f.getFails {
        ss, steps := [s, s1, s2], [step];
      } else {
        var ts, more := StoreAlone(s, op);
        assert s2 == ts[0];
        RunsJoin([s, s1, s2], [Begin(op), step], ts, more);
        ss, steps := [s, s1, s2] + ts[1..], [step] + more;
        assert [Begin(op)] + steps == [Begin(op), step] + more;
        assert ss[|steps| + 1] == ts[|more|];
      }
    }
  }
}
