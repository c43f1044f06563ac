/**
 The audited policy repository (internal/aipolicy/audit.go): a diff over policies, a decorator that
 logs one event per change, and the question whether the log alone tells what the policies are.
 */
module PolicyAudit {
  import opened Options
  import opened Ordering
  import opened Uuids

  datatype Scope = Scope(tenant: Id, kind: string, id: string)

  datatype Policy = Policy(
    scope: Scope,
    model: string, promptVersion: string, tone: string, language: string,
    aiEnabled: bool, anonymize: bool, optIn: bool,
    structuredFields: seq<string>,
    consentRequired: bool)

  datatype Actor = Actor(user: Id, master: bool)

  /** What `policySnapshot` renders; the slice is copied as it stands. */
  datatype Snapshot = Snapshot(
    model: string, promptVersion: string, tone: string, language: string,
    aiEnabled: bool, anonymize: bool, optIn: bool, structuredFields: seq<string>)

  /** The dynamic types the two value columns carry. */
  datatype Value = Nil | Str(s: string) | Bool(b: bool) | Snap(snapshot: Snapshot)

  datatype Change = Change(field: string, before: Value, after: Value)

  datatype AuditEvent = AuditEvent(scope: Scope, change: Change, actor: Actor, at: int)

  const CREATED := "__created__"
  const DELETED := "__deleted__"
  const OPT_IN_PREFIX := "field_opt_in."

  /** `FieldOptInName`. */
  function FieldOptInName(field: string): string {
    OPT_IN_PREFIX + field
  }

  function TakeSnapshot(p: Policy): Snapshot {
    Snapshot(p.model, p.promptVersion, p.tone, p.language, p.aiEnabled, p.anonymize, p.optIn, p.structuredFields)
  }

  // ----- the audited part of a policy, as a set of independent slots

  datatype Audited = Audited(
    model: string, promptVersion: string, tone: string, language: string,
    aiEnabled: bool, anonymize: bool, optIn: bool, fields: set<string>)

  function OfSnapshot(s: Snapshot): Audited {
    Audited(s.model, s.promptVersion, s.tone, s.language, s.aiEnabled, s.anonymize, s.optIn, Elements(s.structuredFields))
  }

  /** The audited projection: ConsentRequired and the order of StructuredFields are not in it. */
  function Project(p: Policy): Audited {
    OfSnapshot(TakeSnapshot(p))
  }

  function Projected(p: Option<Policy>): Option<Audited> {
    match p case Some(q) => Some(Project(q)) case None => None
  }

  datatype Column = Model | PromptVersion | Tone | Language | AiEnabled | Anonymize | OptIn

  const COLUMNS: seq<Column> := [Model, PromptVersion, Tone, Language, AiEnabled, Anonymize, OptIn]

  function ColumnName(c: Column): string {
    match c
    case Model => "model"
    case PromptVersion => "prompt_version"
    case Tone => "tone"
    case Language => "language"
    case AiEnabled => "ai_enabled"
    case Anonymize => "anonymize"
    case OptIn => "opt_in"
  }

  /** One thing an audit row can be about. */
  datatype Slot = Col(c: Column) | Field(name: string)

  function SlotName(t: Slot): string {
    match t
    case Col(c) => ColumnName(c)
    case Field(name) => FieldOptInName(name)
  }

  function Read(a: Audited, t: Slot): Value {
    match t
    case Col(Model) => Str(a.model)
    case Col(PromptVersion) => Str(a.promptVersion)
    case Col(Tone) => Str(a.tone)
    case Col(Language) => Str(a.language)
    case Col(AiEnabled) => Bool(a.aiEnabled)
    case Col(Anonymize) => Bool(a.anonymize)
    case Col(OptIn) => Bool(a.optIn)
    case Field(name) => Bool(name in a.fields)
  }

  /** Store a value in a slot; a value of the wrong type leaves the slot alone. */
  function Write(a: Audited, t: Slot, v: Value): Audited {
    match (t, v)
    case (Col(Model), Str(s)) => a.(model := s)
    case (Col(PromptVersion), Str(s)) => a.(promptVersion := s)
    case (Col(Tone), Str(s)) => a.(tone := s)
    case (Col(Language), Str(s)) => a.(language := s)
    case (Col(AiEnabled), Bool(b)) => a.(aiEnabled := b)
    case (Col(Anonymize), Bool(b)) => a.(anonymize := b)
    case (Col(OptIn), Bool(b)) => a.(optIn := b)
    case (Field(name), Bool(b)) => a.(fields := if b then a.fields + {name} else a.fields - {name})
    case _ => a
  }

  lemma SlotsDecideAll(a: Audited, b: Audited)
    requires forall t :: Read(a, t) == Read(b, t)
    ensures a == b
  {
    assert Read(a, Col(Model)) == Read(b, Col(Model)) && Read(a, Col(PromptVersion)) == Read(b, Col(PromptVersion));
    assert Read(a, Col(Tone)) == Read(b, Col(Tone)) && Read(a, Col(Language)) == Read(b, Col(Language));
    assert Read(a, Col(AiEnabled)) == Read(b, Col(AiEnabled)) && Read(a, Col(Anonymize)) == Read(b, Col(Anonymize));
    assert Read(a, Col(OptIn)) == Read(b, Col(OptIn));
    assert forall x :: x in a.fields <==> Read(a, Field(x)) == Bool(true);
    assert forall x :: x in b.fields <==> Read(b, Field(x)) == Bool(true);
    assert forall x :: x in a.fields <==> x in b.fields;
    assert a.fields == b.fields;
  }

  /** Slots are independent: writing one slot changes that slot and no other. */
  lemma WriteThenRead(a: Audited, b: Audited, t: Slot, u: Slot)
    ensures Read(Write(a, t, Read(b, t)), u) == if u == t then Read(b, t) else Read(a, u)
  {
    if t.Col? {
      match t.c
      case Model => case PromptVersion => case Tone => case Language => case AiEnabled => case Anonymize => case OptIn =>
    }
  }

  // ----- field names

  /** How a reader of the audit table recovers the slot from the field column. */
  function SlotOf(field: string): Option<Slot> {
    if field == "model" then Some(Col(Model))
    else if field == "prompt_version" then Some(Col(PromptVersion))
    else if field == "tone" then Some(Col(Tone))
    else if field == "language" then Some(Col(Language))
    else if field == "ai_enabled" then Some(Col(AiEnabled))
    else if field == "anonymize" then Some(Col(Anonymize))
    else if field == "opt_in" then Some(Col(OptIn))
    else if OPT_IN_PREFIX <= field then Some(Field(field[|OPT_IN_PREFIX|..]))
    else None
  }

  /** Field names decode uniquely, and no opt-in name clashes with a column or a lifecycle marker. */
  lemma NamesDecode(t: Slot)
    ensures SlotOf(SlotName(t)) == Some(t)
    ensures SlotName(t) != CREATED && SlotName(t) != DELETED
  {
    if t.Field? {
      var n := SlotName(t);
      assert n[0] == 'f' && |n| >= 13;
      assert n[|OPT_IN_PREFIX|..] == t.name;
    }
  }

  lemma NamesAreInjective(t: Slot, u: Slot)
    requires SlotName(t) == SlotName(u)
    ensures t == u
  {
    NamesDecode(t);
    NamesDecode(u);
  }

  // ----- the diff

  /** Change of slot `t` on the way from `a` to `b`. */
  function ChangeOf(a: Audited, b: Audited, t: Slot): Change {
    Change(SlotName(t), Read(a, t), Read(b, t))
  }

  function ChangesOf(a: Audited, b: Audited, ts: seq<Slot>): seq<Change> {
    seq(|ts|, i requires 0 <= i < |ts| => ChangeOf(a, b, ts[i]))
  }

  /** The columns among the first `n` that differ. */
  function ColumnSlots(a: Audited, b: Audited, n: nat): (ts: seq<Slot>)
    requires n <= |COLUMNS|
  {
    if n == 0 then []
    else
      var t := Col(COLUMNS[n - 1]);
      ColumnSlots(a, b, n - 1) + (if Read(a, t) != Read(b, t) then [t] else [])
  }

  function Flipped(a: Audited, b: Audited): set<string> {
    (a.fields - b.fields) + (b.fields - a.fields)
  }

  function FieldSlots(names: seq<string>): seq<Slot> {
    seq(|names|, i requires 0 <= i < |names| => Field(names[i]))
  }

  /** The slots in which two policies differ, in the order the diff lists them. */
  ghost function DiffSlots(a: Audited, b: Audited): seq<Slot> {
    ColumnSlots(a, b, 7) + FieldSlots(Listing(Flipped(a, b)))
  }

  /** `DiffPolicies`, as a function of what it depends on. */
  ghost function Diff(prev: Option<Policy>, next: Policy): seq<Change> {
    match prev
    case None => [Change(CREATED, Nil, Snap(TakeSnapshot(next)))]
    case Some(p) => ChangesOf(Project(p), Project(next), DiffSlots(Project(p), Project(next)))
  }

  lemma EveryColumnListed(c: Column)
    ensures c in COLUMNS[..7]
  {
    var i := match c case Model => 0 case PromptVersion => 1 case Tone => 2 case Language => 3
             case AiEnabled => 4 case Anonymize => 5 case OptIn => 6;
    assert COLUMNS[..7][i] == c;
  }

  lemma {:induction false} ColumnSlotsExact(a: Audited, b: Audited, n: nat)
    requires n <= 7
    ensures forall t :: t in ColumnSlots(a, b, n) <==> t.Col? && t.c in COLUMNS[..n] && Read(a, t) != Read(b, t)
    ensures forall i, j :: 0 <= i < j < |ColumnSlots(a, b, n)| ==> ColumnSlots(a, b, n)[i] != ColumnSlots(a, b, n)[j]
    decreases n
  {
    if n > 0 {
      ColumnSlotsExact(a, b, n - 1);
      assert COLUMNS[..n] == COLUMNS[..n - 1] + [COLUMNS[n - 1]];
      assert COLUMNS[n - 1] !in COLUMNS[..n - 1];
    }
  }

  /** The diff lists exactly the slots that differ, each of them once. */
  lemma DiffSlotsExact(a: Audited, b: Audited)
    ensures forall t :: t in DiffSlots(a, b) <==> Read(a, t) != Read(b, t)
    ensures forall i, j :: 0 <= i < j < |DiffSlots(a, b)| ==> DiffSlots(a, b)[i] != DiffSlots(a, b)[j]
  {
    ColumnSlotsExact(a, b, 7);
    var cols, names := ColumnSlots(a, b, 7), Listing(Flipped(a, b));
    var fs := FieldSlots(names);
    forall t
      ensures t in DiffSlots(a, b) <==> Read(a, t) != Read(b, t)
    {
      assert t in DiffSlots(a, b) <==> t in cols || t in fs;
      match t
      case Col(c) => EveryColumnListed(c);
      case Field(name) =>
        assert name in Elements(names) <==> name in Flipped(a, b);
        if name in names {
          var i :| 0 <= i < |names| && names[i] == name;
          assert fs[i] == t;
        }
    }
    forall i, j | 0 <= i < j < |DiffSlots(a, b)|
      ensures DiffSlots(a, b)[i] != DiffSlots(a, b)[j]
    {
      if i >= |cols| {
        LessTrichotomy(names[i - |cols|], names[j - |cols|]);
      } else if j >= |cols| {
        assert cols[i] in cols;
      }
    }
  }

  // ----- reading the log back

  /** What a reader of the log makes of one change to a scope; None is "no policy at this scope". */
  function ApplyChange(st: Option<Audited>, c: Change): Option<Audited> {
    if c.field == CREATED && c.after.Snap? then Some(OfSnapshot(c.after.snapshot))
    else if c.field == DELETED then None
    else if st.None? || SlotOf(c.field).None? then st
    else Some(Write(st.value, SlotOf(c.field).value, c.after))
  }

  function ApplyAll(st: Option<Audited>, cs: seq<Change>): Option<Audited> {
    if cs == [] then st else ApplyChange(ApplyAll(st, cs[..|cs| - 1]), cs[|cs| - 1])
  }

  lemma ApplyOne(z: Audited, a: Audited, b: Audited, t: Slot)
    ensures ApplyChange(Some(z), ChangeOf(a, b, t)) == Some(Write(z, t, Read(b, t)))
  {
    NamesDecode(t);
  }

  /** `z` is `x` with the slots `ts` taken from `b`. */
  ghost predicate Overwritten(z: Audited, x: Audited, b: Audited, ts: seq<Slot>) {
    forall u :: Read(z, u) == if u in ts then Read(b, u) else Read(x, u)
  }

  lemma OverwriteOneMore(z: Audited, x: Audited, b: Audited, ts: seq<Slot>, t: Slot)
    requires Overwritten(z, x, b, ts)
    ensures Overwritten(Write(z, t, Read(b, t)), x, b, ts + [t])
  {
    forall u
      ensures Read(Write(z, t, Read(b, t)), u) == if u in ts + [t] then Read(b, u) else Read(x, u)
    {
      WriteThenRead(z, b, t, u);
      assert u in ts + [t] <==> u in ts || u == t;
    }
  }

  /** Applying changes taken between `a` and `b` to any `x` overwrites exactly their slots. */
  lemma {:induction false} ApplySlots(x: Audited, a: Audited, b: Audited, ts: seq<Slot>) returns (y: Audited)
    ensures ApplyAll(Some(x), ChangesOf(a, b, ts)) == Some(y)
    ensures Overwritten(y, x, b, ts)
    decreases |ts|
  {
    if ts == [] {
      y := x;
    } else {
      var n := |ts| - 1;
      var z := ApplySlots(x, a, b, ts[..n]);
      assert ChangesOf(a, b, ts)[..n] == ChangesOf(a, b, ts[..n]);
      ApplyOne(z, a, b, ts[n]);
      OverwriteOneMore(z, x, b, ts[..n], ts[n]);
      assert ts == ts[..n] + [ts[n]];
      y := Write(z, ts[n], Read(b, ts[n]));
    }
  }

  /** Applying the diff of two policies to the first gives the second, on the audited projection. */
  lemma DiffRebuilds(prev: Option<Policy>, next: Policy)
    ensures ApplyAll(Projected(prev), Diff(prev, next)) == Some(Project(next))
  {
    match prev
    case None =>
    case Some(p) =>
      var a, b := Project(p), Project(next);
      DiffSlotsExact(a, b);
      var y := ApplySlots(a, a, b, DiffSlots(a, b));
      SlotsDecideAll(y, b);
  }

  /** The diff is empty exactly when the projections agree; each field occurs once and really changes. */
  lemma DiffIsExact(p: Policy, q: Policy)
    ensures Diff(Some(p), q) == [] <==> Project(p) == Project(q)
    ensures forall i :: 0 <= i < |Diff(Some(p), q)| ==> Diff(Some(p), q)[i].before != Diff(Some(p), q)[i].after
    ensures forall i, j :: 0 <= i < j < |Diff(Some(p), q)| ==> Diff(Some(p), q)[i].field != Diff(Some(p), q)[j].field
  {
    var a, b := Project(p), Project(q);
    var ts := DiffSlots(a, b);
    DiffSlotsExact(a, b);
    if ts == [] {
      forall t ensures Read(a, t) == Read(b, t) { assert t !in ts; }
      SlotsDecideAll(a, b);
    } else {
      assert ts[0] in ts;
    }
    forall i | 0 <= i < |ts|
      ensures Read(a, ts[i]) != Read(b, ts[i])
    {
      assert ts[i] in ts;
    }
    forall i, j | 0 <= i < j < |ts|
      ensures SlotName(ts[i]) != SlotName(ts[j])
    {
      if SlotName(ts[i]) == SlotName(ts[j]) { NamesAreInjective(ts[i], ts[j]); }
    }
  }

  /** Every event of the diff is needed: a log that stops short of the last one rebuilds something else. */
  lemma DiffCutShort(p: Policy, q: Policy, k: nat)
    requires k < |Diff(Some(p), q)|
    ensures ApplyAll(Some(Project(p)), Diff(Some(p), q)[..k]) != Some(Project(q))
  {
    var a, b := Project(p), Project(q);
    var ts := DiffSlots(a, b);
    DiffSlotsExact(a, b);
    var y := ApplySlots(a, a, b, ts[..k]);
    assert ChangesOf(a, b, ts)[..k] == ChangesOf(a, b, ts[..k]);
    assert ts[k] in ts && ts[k] !in ts[..k];
    assert Read(y, ts[k]) != Read(b, ts[k]);
  }

  lemma {:induction false} ColumnSlotsSymmetric(a: Audited, b: Audited, n: nat)
    requires n <= 7
    ensures ColumnSlots(a, b, n) == ColumnSlots(b, a, n)
    decreases n
  {
    if n > 0 {
      ColumnSlotsSymmetric(a, b, n - 1);
    }
  }

  /** Swapping the policies swaps before and after in every event, in the same order. */
  lemma DiffReverses(p: Policy, q: Policy)
    ensures |Diff(Some(q), p)| == |Diff(Some(p), q)|
    ensures forall i :: 0 <= i < |Diff(Some(p), q)| ==>
                          var c := Diff(Some(p), q)[i]; Diff(Some(q), p)[i] == Change(c.field, c.after, c.before)
  {
    var a, b := Project(p), Project(q);
    ColumnSlotsSymmetric(a, b, 7);
    assert Flipped(a, b) == Flipped(b, a);
  }

  /** The change rows of a list of opt-in names, as the flips of `prev` and `next`. */
  function FlipChanges(names: seq<string>, prev: seq<string>, next: seq<string>): seq<Change> {
    seq(|names|, i requires 0 <= i < |names| =>
                   Change(FieldOptInName(names[i]), Bool(names[i] in prev), Bool(names[i] in next)))
  }

  /** The names in exactly one of the two lists. */
  function FlippedNames(prev: seq<string>, next: seq<string>): set<string> {
    (Elements(prev) - Elements(next)) + (Elements(next) - Elements(prev))
  }

  lemma FlipsAreFieldChanges(p: Policy, q: Policy)
    ensures FlipChanges(Listing(FlippedNames(p.structuredFields, q.structuredFields)), p.structuredFields, q.structuredFields)
            == ChangesOf(Project(p), Project(q), FieldSlots(Listing(Flipped(Project(p), Project(q)))))
  {
    var a, b := Project(p), Project(q);
    var names := Listing(Flipped(a, b));
    forall i | 0 <= i < |names|
      ensures Bool(names[i] in p.structuredFields) == Read(a, Field(names[i]))
      ensures Bool(names[i] in q.structuredFields) == Read(b, Field(names[i]))
    {
      assert names[i] in Elements(p.structuredFields) <==> names[i] in p.structuredFields;
    }
  }

  /**
   The diff is at most seven column changes followed by the opt-in flips: one row for each name in
   exactly one of the two lists, ascending by name.
   */
  lemma DiffEndsWithFlips(p: Policy, q: Policy) returns (columns: seq<Change>, names: seq<string>)
    ensures Diff(Some(p), q) == columns + FlipChanges(names, p.structuredFields, q.structuredFields)
    ensures Ascending(names) && Elements(names) == FlippedNames(p.structuredFields, q.structuredFields)
    ensures |columns| <= 7
    ensures forall i :: 0 <= i < |columns| ==> SlotOf(columns[i].field).Some? && SlotOf(columns[i].field).value.Col?
  {
    var a, b := Project(p), Project(q);
    var cols := ColumnSlots(a, b, 7);
    columns := ChangesOf(a, b, cols);
    names := Listing(FlippedNames(p.structuredFields, q.structuredFields));
    FlipsAreFieldChanges(p, q);
    ColumnSlotsExact(a, b, 7);
    ColumnSlotsBound(a, b, 7);
    forall i | 0 <= i < |columns|
      ensures SlotOf(columns[i].field).Some? && SlotOf(columns[i].field).value.Col?
    {
      assert cols[i] in cols;
      NamesDecode(cols[i]);
    }
  }

  lemma {:induction false} ColumnSlotsBound(a: Audited, b: Audited, n: nat)
    requires n <= 7
    ensures |ColumnSlots(a, b, n)| <= n
    decreases n
  {
    if n > 0 {
      ColumnSlotsBound(a, b, n - 1);
    }
  }

  // ----- the diff, spelled out on the policies themselves

  /** The seven columns of two policies side by side. */
  function Column7(p: Policy, q: Policy, i: nat): Change
    requires i < 7
  {
    match i
    case 0 => Change("model", Str(p.model), Str(q.model))
    case 1 => Change("prompt_version", Str(p.promptVersion), Str(q.promptVersion))
    case 2 => Change("tone", Str(p.tone), Str(q.tone))
    case 3 => Change("language", Str(p.language), Str(q.language))
    case 4 => Change("ai_enabled", Bool(p.aiEnabled), Bool(q.aiEnabled))
    case 5 => Change("anonymize", Bool(p.anonymize), Bool(q.anonymize))
    case _ => Change("opt_in", Bool(p.optIn), Bool(q.optIn))
  }

  /** Those among the first `n` that differ, in order. */
  function ColumnRows(p: Policy, q: Policy, n: nat): seq<Change>
    requires n <= 7
  {
    if n == 0 then []
    else
      var c := Column7(p, q, n - 1);
      ColumnRows(p, q, n - 1) + (if c.before != c.after then [c] else [])
  }

  lemma ColumnSpelledOut(p: Policy, q: Policy, i: nat)
    requires i < 7
    ensures ChangeOf(Project(p), Project(q), Col(COLUMNS[i])) == Column7(p, q, i)
  {
  }

  lemma {:induction false} ColumnsSpelledOut(p: Policy, q: Policy, n: nat)
    requires n <= 7
    ensures ColumnRows(p, q, n) == ChangesOf(Project(p), Project(q), ColumnSlots(Project(p), Project(q), n))
    decreases n
  {
    if n > 0 {
      ColumnsSpelledOut(p, q, n - 1);
      ColumnSpelledOut(p, q, n - 1);
    }
  }

  /** The whole diff of two policies: the column rows, then one row per flipped name, ascending. */
  lemma DiffSpelledOut(p: Policy, q: Policy) returns (names: seq<string>, flips: seq<Change>)
    ensures Diff(Some(p), q) == ColumnRows(p, q, 7) + flips && |flips| == |names| && Ascending(names)
    ensures forall name :: name in names <==> (name in p.structuredFields) != (name in q.structuredFields)
    ensures forall i :: 0 <= i < |names| ==>
              flips[i] == Change("field_opt_in." + names[i], Bool(names[i] in p.structuredFields), Bool(names[i] in q.structuredFields))
  {
    names := Listing(FlippedNames(p.structuredFields, q.structuredFields));
    flips := FlipChanges(names, p.structuredFields, q.structuredFields);
    DiffIsRowsAndFlips(p, q);
    forall name ensures name in names <==> (name in p.structuredFields) != (name in q.structuredFields) {
      assert name in Elements(names) <==> name in FlippedNames(p.structuredFields, q.structuredFields);
    }
  }

  lemma DiffIsRowsAndFlips(p: Policy, q: Policy)
    ensures Diff(Some(p), q) == ColumnRows(p, q, 7)
            + FlipChanges(Listing(FlippedNames(p.structuredFields, q.structuredFields)), p.structuredFields, q.structuredFields)
  {
    var n := |COLUMNS|;
    ColumnsSpelledOut(p, q, n);
    FlipsAreFieldChanges(p, q);
  }

  /** Every column and every opt-in has its row in the diff exactly if it differs. */
  lemma DiffListsExactly(p: Policy, q: Policy)
    ensures Change("model", Str(p.model), Str(q.model)) in Diff(Some(p), q) <==> p.model != q.model
    ensures Change("prompt_version", Str(p.promptVersion), Str(q.promptVersion)) in Diff(Some(p), q) <==> p.promptVersion != q.promptVersion
    ensures Change("tone", Str(p.tone), Str(q.tone)) in Diff(Some(p), q) <==> p.tone != q.tone
    ensures Change("language", Str(p.language), Str(q.language)) in Diff(Some(p), q) <==> p.language != q.language
    ensures Change("ai_enabled", Bool(p.aiEnabled), Bool(q.aiEnabled)) in Diff(Some(p), q) <==> p.aiEnabled != q.aiEnabled
    ensures Change("anonymize", Bool(p.anonymize), Bool(q.anonymize)) in Diff(Some(p), q) <==> p.anonymize != q.anonymize
    ensures Change("opt_in", Bool(p.optIn), Bool(q.optIn)) in Diff(Some(p), q) <==> p.optIn != q.optIn
    ensures forall name :: Change("field_opt_in." + name, Bool(name in p.structuredFields), Bool(name in q.structuredFields)) in Diff(Some(p), q)
                           <==> (name in p.structuredFields) != (name in q.structuredFields)
  {
    var a, b := Project(p), Project(q);
    ListedExactly(p, q, Col(Model));
    assert ChangeOf(a, b, Col(Model)) == Change("model", Str(p.model), Str(q.model));
    ListedExactly(p, q, Col(PromptVersion));
    assert ChangeOf(a, b, Col(PromptVersion)) == Change("prompt_version", Str(p.promptVersion), Str(q.promptVersion));
    ListedExactly(p, q, Col(Tone));
    assert ChangeOf(a, b, Col(Tone)) == Change("tone", Str(p.tone), Str(q.tone));
    ListedExactly(p, q, Col(Language));
    assert ChangeOf(a, b, Col(Language)) == Change("language", Str(p.language), Str(q.language));
    ListedExactly(p, q, Col(AiEnabled));
    assert ChangeOf(a, b, Col(AiEnabled)) == Change("ai_enabled", Bool(p.aiEnabled), Bool(q.aiEnabled));
    ListedExactly(p, q, Col(Anonymize));
    assert ChangeOf(a, b, Col(Anonymize)) == Change("anonymize", Bool(p.anonymize), Bool(q.anonymize));
    ListedExactly(p, q, Col(OptIn));
    assert ChangeOf(a, b, Col(OptIn)) == Change("opt_in", Bool(p.optIn), Bool(q.optIn));
    forall name
      ensures Change("field_opt_in." + name, Bool(name in p.structuredFields), Bool(name in q.structuredFields)) in Diff(Some(p), q)
              <==> (name in p.structuredFields) != (name in q.structuredFields)
    {
      ListedExactly(p, q, Field(name));
      assert ChangeOf(a, b, Field(name)) == Change("field_opt_in." + name, Bool(name in p.structuredFields), Bool(name in q.structuredFields));
    }
  }

  lemma ListedExactly(p: Policy, q: Policy, t: Slot)
    ensures ChangeOf(Project(p), Project(q), t) in Diff(Some(p), q) <==> Read(Project(p), t) != Read(Project(q), t)
  {
    var a, b := Project(p), Project(q);
    var ts := DiffSlots(a, b);
    DiffSlotsExact(a, b);
    if t in ts {
      var i :| 0 <= i < |ts| && ts[i] == t;
      assert Diff(Some(p), q)[i] == ChangeOf(a, b, t);
    }
    if ChangeOf(a, b, t) in Diff(Some(p), q) {
      var i :| 0 <= i < |ts| && Diff(Some(p), q)[i] == ChangeOf(a, b, t);
      NamesAreInjective(ts[i], t);
      assert ts[i] in ts;
    }
  }

  /** There is nothing to log exactly if the seven columns and the set of opted-in fields are unchanged. */
  lemma NothingToLogExactly(p: Policy, q: Policy)
    ensures Diff(Some(p), q) == [] <==>
            && p.model == q.model && p.promptVersion == q.promptVersion && p.tone == q.tone && p.language == q.language
            && p.aiEnabled == q.aiEnabled && p.anonymize == q.anonymize && p.optIn == q.optIn
            && forall name :: name in p.structuredFields <==> name in q.structuredFields
  {
    DiffIsExact(p, q);
    assert Elements(p.structuredFields) == Elements(q.structuredFields) <==>
           forall name :: name in p.structuredFields <==> name in q.structuredFields by {
      forall name ensures name in p.structuredFields <==> name in Elements(p.structuredFields) {}
      forall name ensures name in q.structuredFields <==> name in Elements(q.structuredFields) {}
    }
  }

  /** A new policy is logged as one row with the whole of it. */
  lemma CreationSpelledOut(q: Policy)
    ensures Diff(None, q) ==
            [Change("__created__", Nil, Snap(Snapshot(q.model, q.promptVersion, q.tone, q.language, q.aiEnabled, q.anonymize, q.optIn, q.structuredFields)))]
  {
  }

  /** What a reader of the log knows of a policy: each column, and which fields are opted in. */
  lemma ProjectionSpelledOut(p: Policy)
    ensures var a := Project(p);
            && a.model == p.model && a.promptVersion == p.promptVersion && a.tone == p.tone && a.language == p.language
            && a.aiEnabled == p.aiEnabled && a.anonymize == p.anonymize && a.optIn == p.optIn
            && forall name :: name in a.fields <==> name in p.structuredFields
  {
  }
}
