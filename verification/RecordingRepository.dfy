/**
 The recording decorator itself: Upsert and Delete on the wrapped store, each followed by its audit
 rows (internal/aipolicy/audit.go). Writes are not transactional with the log, so a failing Record
 leaves a gap; the theorems say exactly what that costs.
 */
module RecordingRepository {
  import opened Options
  import opened Ordering
  import opened Fates
  import opened PolicyAudit
  import opened Uuids

  datatype Error = InvalidScopeType | InvalidTenant | MissingActor | Storage | RecordFailed

  /** What the environment does to one call: to the read, to the write, and to its k-th Record. */
  datatype Faults = Faults(getFails: bool, write: Fate, recordFailsAt: Option<nat>, recordLands: bool)

  datatype State = State(store: map<Scope, Policy>, log: seq<AuditEvent>)

  datatype Result = Result(s: State, removed: bool, err: Option<Error>)

  datatype Op =
    | Upsert(p: Policy, actor: Option<Actor>, at: int, f: Faults)
    | Delete(scope: Scope, actor: Option<Actor>, at: int, f: Faults)

  predicate ValidScopeType(kind: string) {
    kind in {"tenant", "team", "channel"}
  }

  predicate ActorOk(actor: Option<Actor>) {
    actor.Some? && actor.value.user != NIL_ID
  }

  function Lookup<T>(m: map<Scope, T>, scope: Scope): Option<T> {
    if scope in m then Some(m[scope]) else None
  }

  function Stamp(scope: Scope, actor: Actor, at: int, cs: seq<Change>): seq<AuditEvent> {
    seq(|cs|, i requires 0 <= i < |cs| => AuditEvent(scope, cs[i], actor, at))
  }

  /** How many of `n` records get written. */
  function Written(n: nat, f: Faults): nat {
    if f.recordFailsAt.Some? && f.recordFailsAt.value < n
    then f.recordFailsAt.value + (if f.recordLands then 1 else 0) else n
  }

  predicate RecordErrs(n: nat, f: Faults) {
    f.recordFailsAt.Some? && f.recordFailsAt.value < n
  }

  function Stored(store: map<Scope, Policy>, scope: Scope, next: Option<Policy>): map<Scope, Policy> {
    match next case Some(p) => store[scope := p] case None => store - {scope}
  }

  /** Write a scope (None removes it) and log as many of its changes as Record takes. */
  function Logged(s: State, scope: Scope, next: Option<Policy>, cs: seq<Change>, actor: Actor, at: int, f: Faults): Result {
    match f.write
    case Fails => Result(s, false, Some(Storage))
    case Lands => Result(State(Stored(s.store, scope, next), s.log), false, Some(Storage))
    case Fine =>
      Result(State(Stored(s.store, scope, next), s.log + Stamp(scope, actor, at, cs[..Written(|cs|, f)])), next.None?,
             if RecordErrs(|cs|, f) then Some(RecordFailed) else None)
  }

  /** The input checks, which come in a different order in the two operations. */
  function Refusal(op: Op): Option<Error> {
    match op
    case Upsert(p, actor, _, _) =>
      if !ValidScopeType(p.scope.kind) then Some(InvalidScopeType)
      else if p.scope.tenant == NIL_ID then Some(InvalidTenant)
      else if !ActorOk(actor) then Some(MissingActor)
      else None
    case Delete(scope, actor, _, _) =>
      if scope.tenant == NIL_ID then Some(InvalidTenant)
      else if !ValidScopeType(scope.kind) then Some(InvalidScopeType)
      else if !ActorOk(actor) then Some(MissingActor)
      else None
  }

  function ScopeOf(op: Op): Scope {
    if op.Upsert? then op.p.scope else op.scope
  }

  /** The changes a call must log, given the row it finds. */
  ghost function Due(prev: Option<Policy>, op: Op): seq<Change> {
    match op
    case Upsert(p, _, _, _) => Diff(prev, p)
    case Delete(_, _, _, _) => if prev.None? then [] else [Change(DELETED, Snap(TakeSnapshot(prev.value)), Nil)]
  }

  function Target(op: Op): Option<Policy> {
    if op.Upsert? then Some(op.p) else None
  }

  ghost function Apply(s: State, op: Op): Result {
    var prev := Lookup(s.store, ScopeOf(op));
    if Refusal(op).Some? then Result(s, false, Refusal(op))
    else if op.f.getFails then Result(s, false, Some(Storage))
    else if op.Delete? && prev.None? then Result(s, false, if op.f.write.Fine? then None else Some(Storage))
    else Logged(s, ScopeOf(op), Target(op), Due(prev, op), op.actor.value, op.at, op.f)
  }

  // ----- the imperative decorator

  /** The set a slice is loaded into before it is compared. */
  method ToSet(names: seq<string>) returns (s: set<string>)
    ensures s == Elements(names)
  {
    s := {};
    for i := 0 to |names|
      invariant s == Elements(names[..i])
    {
      assert names[..i + 1] == names[..i] + [names[i]];
      s := s + {names[i]};
    }
    assert names[..|names|] == names;
  }

  /** The keys of a map in the arbitrary order iteration yields them. */
  method Keys<V>(m: map<string, V>) returns (names: seq<string>)
    ensures Elements(names) == m.Keys
    ensures forall i, j :: 0 <= i < j < |names| ==> names[i] != names[j]
  {
    names := [];
    var todo := m.Keys;
    while todo != {}
      invariant todo <= m.Keys
      invariant forall x :: x in names <==> x in m.Keys && x !in todo
      invariant forall i, j :: 0 <= i < j < |names| ==> names[i] != names[j]
      decreases |todo|
    {
      var f :| f in todo;
      names, todo := names + [f], todo - {f};
    }
  }

  /** `diffStructuredFields`: two sets, a map of flips, its keys sorted, one row each. */
  method DiffStructuredFields(prev: seq<string>, next: seq<string>) returns (out: seq<Change>)
    ensures out == FlipChanges(Listing(FlippedNames(prev, next)), prev, next)
  {
    var prevSet := ToSet(prev);
    var nextSet := ToSet(next);
    var changed := (map f | f in prevSet && f !in nextSet :: (true, false))
                 + (map f | f in nextSet && f !in prevSet :: (false, true));
    assert changed.Keys == FlippedNames(prev, next);
    var keys := Keys(changed);
    var names := SortStrings(keys);
    ListingIsUnique(names, Listing(FlippedNames(prev, next)));
    assert forall f :: f in names ==> f in Elements(names);
    out := FlipRows(names, changed, prev, next);
  }

  method FlipRows(names: seq<string>, changed: map<string, (bool, bool)>, ghost prev: seq<string>, ghost next: seq<string>)
    returns (out: seq<Change>)
    requires forall f :: f in names ==> f in changed && changed[f] == (f in prev, f in next)
    ensures out == FlipChanges(names, prev, next)
  {
    out := [];
    for i := 0 to |names|
      invariant out == FlipChanges(names[..i], prev, next)
    {
      var c := changed[names[i]];
      out := out + [Change(FieldOptInName(names[i]), Bool(c.0), Bool(c.1))];
    }
    assert names[..|names|] == names;
  }

  /** The text columns of `DiffPolicies`. */
  method DiffTexts(p: Policy, next: Policy) returns (events: seq<Change>)
    ensures events == ColumnRows(p, next, 4)
  {
    events := [];
    ghost var n := 0;
    if p.model != next.model {
      events := events + [Change("model", Str(p.model), Str(next.model))];
    }
    n := n + 1;
    assert events == ColumnRows(p, next, n);
    if p.promptVersion != next.promptVersion {
      events := events + [Change("prompt_version", Str(p.promptVersion), Str(next.promptVersion))];
    }
    n := n + 1;
    assert events == ColumnRows(p, next, n);
    if p.tone != next.tone {
      events := events + [Change("tone", Str(p.tone), Str(next.tone))];
    }
    n := n + 1;
    assert events == ColumnRows(p, next, n);
    if p.language != next.language {
      events := events + [Change("language", Str(p.language), Str(next.language))];
    }
    n := n + 1;
    assert events == ColumnRows(p, next, n);
  }

  /** Its switches. */
  method DiffSwitches(p: Policy, next: Policy, texts: seq<Change>) returns (events: seq<Change>)
    requires texts == ColumnRows(p, next, 4)
    ensures events == ColumnRows(p, next, 7)
  {
    events := texts;
    ghost var n := 4;
    if p.aiEnabled != next.aiEnabled {
      events := events + [Change("ai_enabled", Bool(p.aiEnabled), Bool(next.aiEnabled))];
    }
    n := n + 1;
    assert events == ColumnRows(p, next, n);
    if p.anonymize != next.anonymize {
      events := events + [Change("anonymize", Bool(p.anonymize), Bool(next.anonymize))];
    }
    n := n + 1;
    assert events == ColumnRows(p, next, n);
    if p.optIn != next.optIn {
      events := events + [Change("opt_in", Bool(p.optIn), Bool(next.optIn))];
    }
    n := n + 1;
    assert events == ColumnRows(p, next, n);
  }

  /** `DiffPolicies`: the seven comparisons in order, then the opt-in flips. */
  method DiffPolicies(prev: Option<Policy>, next: Policy) returns (events: seq<Change>)
    ensures events == Diff(prev, next)
  {
    if prev.None? {
      return [Change(CREATED, Nil, Snap(TakeSnapshot(next)))];
    }
    var p := prev.value;
    events := DiffTexts(p, next);
    events := DiffSwitches(p, next, events);
    var flips := DiffStructuredFields(p.structuredFields, next.structuredFields);
    DiffIsRowsAndFlips(p, next);
    events := events + flips;
  }

  class Repository {
    var store: map<Scope, Policy>
    var log: seq<AuditEvent>

    function Value(): State reads this { State(store, log) }

    constructor ()
      ensures Value() == State(map[], [])
    {
      store, log := map[], [];
    }

    /** `Upsert`: read the old row, write the new one, then record change by change until one fails. */
    method Upsert(p: Policy, actor: Option<Actor>, at: int, f: Faults) returns (err: Option<Error>)
      modifies this
      ensures var r := Apply(old(Value()), Op.Upsert(p, actor, at, f)); Value() == r.s && err == r.err
    {
      if !ValidScopeType(p.scope.kind) { return Some(InvalidScopeType); }
      if p.scope.tenant == NIL_ID { return Some(InvalidTenant); }
      if actor.None? { return Some(MissingActor); }
      if actor.value.user == NIL_ID { return Some(MissingActor); }
      if f.getFails { return Some(Storage); }
      var prev := Lookup(store, p.scope);
      if f.write.Fails? { return Some(Storage); }
      store := store[p.scope := p];
      if f.write.Lands? { return Some(Storage); }
      var events := DiffPolicies(prev, p);
      err := RecordAll(p.scope, events, actor.value, at, f);
    }

    method RecordAll(scope: Scope, events: seq<Change>, actor: Actor, at: int, f: Faults) returns (err: Option<Error>)
      modifies this
      ensures store == old(store)
      ensures log == old(log) + Stamp(scope, actor, at, events[..Written(|events|, f)])
      ensures err == if RecordErrs(|events|, f) then Some(RecordFailed) else None
    {
      var i := 0;
      while i < |events|
        invariant 0 <= i <= |events| && (RecordErrs(|events|, f) ==> i <= f.recordFailsAt.value)
        invariant store == old(store)
        invariant log == old(log) + Stamp(scope, actor, at, events[..i])
      {
        if f.recordFailsAt == Some(i) {
          if f.recordLands {
            log := log + [AuditEvent(scope, events[i], actor, at)];
          }
          return Some(RecordFailed);
        }
        log := log + [AuditEvent(scope, events[i], actor, at)];
        i := i + 1;
      }
      return None;
    }

    /** `Delete`: nothing to log when there was no row. */
    method Delete(scope: Scope, actor: Option<Actor>, at: int, f: Faults) returns (removed: bool, err: Option<Error>)
      modifies this
      ensures var r := Apply(old(Value()), Op.Delete(scope, actor, at, f));
              Value() == r.s && removed == r.removed && err == r.err
    {
      if scope.tenant == NIL_ID { return false, Some(InvalidTenant); }
      if !ValidScopeType(scope.kind) { return false, Some(InvalidScopeType); }
      if actor.None? { return false, Some(MissingActor); }
      if actor.value.user == NIL_ID { return false, Some(MissingActor); }
      if f.getFails { return false, Some(Storage); }
      var prev := Lookup(store, scope);
      if f.write.Fails? { return false, Some(Storage); }
      assert prev.None? ==> store - {scope} == store;
      store := store - {scope};
      if f.write.Lands? { return false, Some(Storage); }
      if prev.None? { return false, None; }
      removed := true;
      err := RecordAll(scope, [Change(DELETED, Snap(TakeSnapshot(prev.value)), Nil)], actor.value, at, f);
    }
  }

  // ----- does the log tell what the policies are?

  /** Put a scope's content back into a map. */
  function Placed(m: map<Scope, Audited>, scope: Scope, st: Option<Audited>): map<Scope, Audited> {
    match st
    case Some(a) => m[scope := a]
    case None => m - {scope}
  }

  /** Reading the whole log from an empty start. */
  function Replay(log: seq<AuditEvent>): map<Scope, Audited> {
    if log == [] then map[]
    else
      var m, ev := Replay(log[..|log| - 1]), log[|log| - 1];
      Placed(m, ev.scope, ApplyChange(Lookup(m, ev.scope), ev.change))
  }

  /** The audited projection of every stored policy. */
  function View(store: map<Scope, Policy>): map<Scope, Audited> {
    map scope | scope in store :: Project(store[scope])
  }

  lemma PlacedTwice(m: map<Scope, Audited>, scope: Scope, x: Option<Audited>, y: Option<Audited>)
    ensures Placed(Placed(m, scope, x), scope, y) == Placed(m, scope, y)
    ensures Lookup(Placed(m, scope, x), scope) == x
    ensures Placed(m, scope, Lookup(m, scope)) == m
  {
  }

  lemma {:induction false} ReplayStamped(log: seq<AuditEvent>, scope: Scope, actor: Actor, at: int, cs: seq<Change>)
    ensures Replay(log + Stamp(scope, actor, at, cs))
            == Placed(Replay(log), scope, ApplyAll(Lookup(Replay(log), scope), cs))
    decreases |cs|
  {
    var longer := log + Stamp(scope, actor, at, cs);
    var before := Lookup(Replay(log), scope);
    if cs == [] {
      assert longer == log;
      PlacedTwice(Replay(log), scope, before, before);
    } else {
      var n := |cs| - 1;
      ReplayStamped(log, scope, actor, at, cs[..n]);
      assert longer[..|longer| - 1] == log + Stamp(scope, actor, at, cs[..n]);
      assert longer[|longer| - 1] == AuditEvent(scope, cs[n], actor, at);
      PlacedTwice(Replay(log), scope, ApplyAll(before, cs[..n]), ApplyAll(before, cs));
    }
  }

  ghost predicate Truthful(s: State) {
    Replay(s.log) == View(s.store)
  }

  /** How many of the due changes reach the log once the write has taken effect. */
  function Reached(n: nat, f: Faults): nat {
    if f.write.Lands? then 0 else Written(n, f)
  }

  ghost function Rebuilt(s: State, scope: Scope, cs: seq<Change>): Option<Audited> {
    ApplyAll(Lookup(View(s.store), scope), cs)
  }

  lemma ViewStored(store: map<Scope, Policy>, scope: Scope, next: Option<Policy>)
    ensures View(Stored(store, scope, next)) == Placed(View(store), scope, Projected(next))
    ensures Lookup(View(store), scope) == Projected(Lookup(store, scope))
  {
  }

  /** What a call leaves once its write has taken effect. */
  lemma LoggedState(s: State, scope: Scope, next: Option<Policy>, cs: seq<Change>, actor: Actor, at: int, f: Faults)
    requires !f.write.Fails?
    ensures Logged(s, scope, next, cs, actor, at, f).s
            == State(Stored(s.store, scope, next), s.log + Stamp(scope, actor, at, cs[..Reached(|cs|, f)]))
  {
    assert Stamp(scope, actor, at, cs[..0]) == [];
    assert s.log + [] == s.log;
  }

  /** Writing a scope and logging changes keeps the log truthful exactly when they rebuild that scope. */
  lemma LoggedIsTruthful(s: State, scope: Scope, next: Option<Policy>, cs: seq<Change>, actor: Actor, at: int, f: Faults)
    requires Truthful(s) && !f.write.Fails?
    ensures Truthful(Logged(s, scope, next, cs, actor, at, f).s)
            <==> Rebuilt(s, scope, cs[..Reached(|cs|, f)]) == Projected(next)
  {
    var done := cs[..Reached(|cs|, f)];
    LoggedState(s, scope, next, cs, actor, at, f);
    ReplayStamped(s.log, scope, actor, at, done);
    ViewStored(s.store, scope, next);
    PlacedSame(View(s.store), scope, Rebuilt(s, scope, done), Projected(next));
  }

  lemma PlacedSame(m: map<Scope, Audited>, scope: Scope, x: Option<Audited>, y: Option<Audited>)
    ensures Placed(m, scope, x) == Placed(m, scope, y) <==> x == y
  {
    PlacedTwice(m, scope, x, x);
    PlacedTwice(m, scope, y, y);
  }

  /** The due changes rebuild the target, and no shorter stretch of them does. */
  lemma DueIsExact(prev: Option<Policy>, op: Op, k: nat)
    requires k <= |Due(prev, op)|
    ensures ApplyAll(Projected(prev), Due(prev, op)[..k]) == Projected(Target(op)) <==> k == |Due(prev, op)|
  {
    var cs := Due(prev, op);
    assert cs[..|cs|] == cs;
    if op.Upsert? {
      DiffRebuilds(prev, op.p);
      if k < |cs| && prev.Some? {
        DiffCutShort(prev.value, op.p, k);
      }
    }
  }

  /** The call changes the store and the log misses some of it: told by the faults and the row it finds. */
  ghost predicate Lossy(s: State, op: Op) {
    && Refusal(op).None? && !op.f.getFails && !op.f.write.Fails?
    && var n := |Due(Lookup(s.store, ScopeOf(op)), op)|; Reached(n, op.f) < n
  }

  /** A lossy call always returns a storage or Record error; any other error leaves store and log as they were. */
  lemma LossIsAnnounced(s: State, op: Op)
    ensures Lossy(s, op) ==> Apply(s, op).err in {Some(Storage), Some(RecordFailed)}
    ensures Apply(s, op).err.Some? && Apply(s, op).err !in {Some(Storage), Some(RecordFailed)} ==> Apply(s, op).s == s
  {
  }

  /** One call on a truthful log: it stays truthful exactly when the call is not lossy. */
  lemma TruthfulUnlessLossy(s: State, op: Op)
    requires Truthful(s)
    ensures Truthful(Apply(s, op).s) <==> !Lossy(s, op)
  {
    var scope := ScopeOf(op);
    var prev := Lookup(s.store, scope);
    var cs := Due(prev, op);
    if Refusal(op).None? && !op.f.getFails && !op.f.write.Fails? && !(op.Delete? && prev.None?) {
      LoggedIsTruthful(s, scope, Target(op), cs, op.actor.value, op.at, op.f);
      ViewStored(s.store, scope, None);
      DueIsExact(prev, op, Reached(|cs|, op.f));
    }
  }

  /** The state after a run of calls. */
  ghost function After(ops: seq<Op>): State {
    if ops == [] then State(map[], []) else Apply(After(ops[..|ops| - 1]), ops[|ops| - 1]).s
  }

  ghost predicate LossyAt(ops: seq<Op>, i: nat) {
    i < |ops| && Lossy(After(ops[..i]), ops[i])
  }

  /**
   Over any run, any number of scopes: if no call was lossy, reading the log from empty gives exactly the
   stored policies, on the audited projection.
   */
  lemma {:induction false} LogTellsState(ops: seq<Op>)
    requires forall i :: 0 <= i < |ops| ==> !LossyAt(ops, i)
    ensures Replay(After(ops).log) == View(After(ops).store)
    decreases |ops|
  {
    if ops != [] {
      var n := |ops| - 1;
      var init := ops[..n];
      forall i | 0 <= i < |init|
        ensures !LossyAt(init, i)
      {
        assert init[..i] == ops[..i];
        assert !LossyAt(ops, i);
      }
      LogTellsState(init);
      assert !LossyAt(ops, n);
      TruthfulUnlessLossy(After(init), ops[n]);
    }
  }

  /** The first lossy call is the first lie, and it returned an error. */
  lemma FirstLossIsFirstLie(ops: seq<Op>, n: nat)
    requires LossyAt(ops, n)
    requires forall i :: 0 <= i < n ==> !LossyAt(ops, i)
    ensures Replay(After(ops[..n]).log) == View(After(ops[..n]).store)
    ensures Replay(After(ops[..n + 1]).log) != View(After(ops[..n + 1]).store)
    ensures Apply(After(ops[..n]), ops[n]).err in {Some(Storage), Some(RecordFailed)}
  {
    forall i | 0 <= i < n
      ensures !LossyAt(ops[..n], i)
    {
      assert ops[..n][..i] == ops[..i];
      assert !LossyAt(ops, i);
    }
    LogTellsState(ops[..n]);
    assert ops[..n + 1][..n] == ops[..n];
    TruthfulUnlessLossy(After(ops[..n]), ops[n]);
    LossIsAnnounced(After(ops[..n]), ops[n]);
  }

  /** If no call returned a storage or Record error the log tells the state: a lie was always announced. */
  lemma LiesAreAnnounced(ops: seq<Op>)
    requires forall i :: 0 <= i < |ops| ==> Quiet(ops, i)
    ensures Replay(After(ops).log) == View(After(ops).store)
  {
    forall i | 0 <= i < |ops| ensures !LossyAt(ops, i) {
      assert Quiet(ops, i);
      LossIsAnnounced(After(ops[..i]), ops[i]);
    }
    LogTellsState(ops);
  }

  ghost predicate Quiet(ops: seq<Op>, i: nat) {
    i < |ops| && Apply(After(ops[..i]), ops[i]).err !in {Some(Storage), Some(RecordFailed)}
  }

  lemma NothingToLog(s: State, p: Policy, actor: Actor, at: int, f: Faults)
    requires p.scope in s.store && s.store[p.scope] == p
    ensures Logged(s, p.scope, Some(p), [], actor, at, f).s == s
  {
    assert s.store[p.scope := p] == s.store;
    if !f.write.Fails? {
      LoggedState(s, p.scope, Some(p), [], actor, at, f);
      assert s.log + Stamp(p.scope, actor, at, []) == s.log;
    }
  }

  /** Repeating an upsert that lost its changes heals nothing: the second diff is empty, so the gap stays. */
  lemma RetryingHealsNothing(s: State, op: Op, again: Op)
    requires Truthful(s) && Lossy(s, op) && op.Upsert?
    requires again.Upsert? && again.p == op.p
    ensures Apply(Apply(s, op).s, again).s == Apply(s, op).s && !Truthful(Apply(s, op).s)
  {
    TruthfulUnlessLossy(s, op);
    DiffIsExact(op.p, op.p);
    var s' := Apply(s, op).s;
    assert Lookup(s'.store, op.p.scope) == Some(op.p);
    if Refusal(again).None? {
      NothingToLog(s', op.p, again.actor.value, again.at, again.f);
    }
  }

  // ----- the calls, spelled out

  /** A call refuses its input exactly so: upserts look at the scope type first, deletes at the tenant. */
  lemma RefusedExactly(s: State, op: Op)
    ensures var scope := if op.Upsert? then op.p.scope else op.scope;
            var badType := scope.kind != "tenant" && scope.kind != "team" && scope.kind != "channel";
            var noActor := op.actor.None? || op.actor.value.user == NIL_ID;
            && (Apply(s, op).err == Some(InvalidScopeType) <==> badType && (op.Delete? ==> scope.tenant != NIL_ID))
            && (Apply(s, op).err == Some(InvalidTenant) <==> scope.tenant == NIL_ID && (op.Upsert? ==> !badType))
            && (Apply(s, op).err == Some(MissingActor) <==> !badType && scope.tenant != NIL_ID && noActor)
  {
  }

  /** A call to which nothing happens. */
  predicate Smooth(op: Op) {
    op.f == Faults(false, Fine, None, op.f.recordLands) && Refusal(op).None?
  }

  /** An upsert to which nothing happens stores the policy and logs its diff, stamped with scope, actor and time. */
  lemma SmoothUpsert(s: State, op: Op)
    requires op.Upsert? && Smooth(op)
    ensures var r := Apply(s, op);
            var cs := Diff(if op.p.scope in s.store then Some(s.store[op.p.scope]) else None, op.p);
            && r.err.None? && r.s.store == s.store[op.p.scope := op.p]
            && |r.s.log| == |s.log| + |cs| && r.s.log[..|s.log|] == s.log
            && forall i :: 0 <= i < |cs| ==> r.s.log[|s.log| + i] == AuditEvent(op.p.scope, cs[i], op.actor.value, op.at)
  {
  }

  /** A delete to which nothing happens removes the policy, says whether there was one, and logs the whole of it. */
  lemma SmoothDelete(s: State, op: Op)
    requires op.Delete? && Smooth(op)
    ensures var r := Apply(s, op);
            && r.err.None? && r.removed == (op.scope in s.store) && r.s.store == s.store - {op.scope}
            && (op.scope !in s.store ==> r.s.log == s.log)
            && (op.scope in s.store ==>
                  var p := s.store[op.scope];
                  r.s.log == s.log + [AuditEvent(op.scope, Change("__deleted__", Snap(
                    Snapshot(p.model, p.promptVersion, p.tone, p.language, p.aiEnabled, p.anonymize, p.optIn, p.structuredFields)), Nil),
                    op.actor.value, op.at)])
  {
    if op.scope !in s.store {
      assert s.store - {op.scope} == s.store;
    }
  }

  /** Over any run without a lossy call the log tells of each scope whether it has a policy, and all its audited fields. */
  lemma LogTellsFields(ops: seq<Op>, scope: Scope)
    requires forall i :: 0 <= i < |ops| ==> !LossyAt(ops, i)
    ensures var m, store := Replay(After(ops).log), After(ops).store;
            && (scope in m <==> scope in store)
            && (scope in store ==>
                  var a, p := m[scope], store[scope];
                  && a.model == p.model && a.promptVersion == p.promptVersion && a.tone == p.tone && a.language == p.language
                  && a.aiEnabled == p.aiEnabled && a.anonymize == p.anonymize && a.optIn == p.optIn
                  && forall name :: name in a.fields <==> name in p.structuredFields)
  {
    LogTellsState(ops);
    if scope in After(ops).store {
      ProjectionSpelledOut(After(ops).store[scope]);
    }
  }
}
