/**
 The log rows of overlapping calls on one scope (internal/aipolicy/audit.go), in whatever order they reach the
 log: what a reader then makes of the policy, and when that is what the store holds.
 */
module AuditMerge {
  import opened Options
  import opened PolicyAudit

  /** What a row is about: the policy's creation or deletion, or one slot. */
  datatype Topic = All | Gone | One(t: Slot)

  /** What a call found and what it wrote; a delete writes None. */
  datatype Writer = Writer(prev: Option<Policy>, next: Option<Policy>)

  /** A row in the log: its call's index, that call as a writer, and what the row is about. */
  datatype Mark = Mark(c: nat, who: Writer, w: Topic)

  /** The rows a call has to log, in order. */
  ghost function Topics(who: Writer): seq<Topic> {
    match who.next
    case None => if who.prev.None? then [] else [Gone]
    case Some(q) =>
      match who.prev
      case None => [All]
      case Some(p) =>
        var ts := DiffSlots(Project(p), Project(q));
        seq(|ts|, i requires 0 <= i < |ts| => One(ts[i]))
  }

  function SlotIn(p: Option<Policy>, t: Slot): Value {
    if p.None? then Nil else Read(Project(p.value), t)
  }

  function Snapped(p: Option<Policy>): Value {
    if p.None? then Nil else Snap(TakeSnapshot(p.value))
  }

  function RowOn(who: Writer, w: Topic): Change {
    match w
    case All => Change(CREATED, Nil, Snapped(who.next))
    case Gone => Change(DELETED, Snapped(who.prev), Nil)
    case One(t) => Change(SlotName(t), SlotIn(who.prev, t), SlotIn(who.next, t))
  }

  function RowsOf(m: seq<Mark>): seq<Change> {
    seq(|m|, i requires 0 <= i < |m| => RowOn(m[i].who, m[i].w))
  }

  /** Only a call that wrote a policy logs one. */
  predicate Apt(mark: Mark) {
    mark.w.Gone? || mark.who.next.Some?
  }

  ghost predicate AllApt(m: seq<Mark>) {
    forall i :: 0 <= i < |m| ==> Apt(m[i])
  }

  // ----- what a reader makes of the rows

  /** Whether the last creation or deletion in the log is one or the other. */
  function LastLife(m: seq<Mark>): Option<Topic> {
    if m == [] then None
    else if !m[|m| - 1].w.One? then Some(m[|m| - 1].w)
    else LastLife(m[..|m| - 1])
  }

  predicate Covers(w: Topic, t: Slot) {
    !w.One? || w.t == t
  }

  /** The last row that says something about the slot. */
  function LastOn(m: seq<Mark>, t: Slot): Option<Mark> {
    if m == [] then None
    else if Covers(m[|m| - 1].w, t) then Some(m[|m| - 1])
    else LastOn(m[..|m| - 1], t)
  }

  predicate Alive(prior: Option<Audited>, m: seq<Mark>) {
    match LastLife(m)
    case None => prior.Some?
    case Some(w) => w == All
  }

  function ValueOn(prior: Option<Audited>, m: seq<Mark>, t: Slot): Value {
    match LastOn(m, t)
    case Some(mark) => SlotIn(mark.who.next, t)
    case None => if prior.None? then Nil else Read(prior.value, t)
  }

  /** `st` is what the log tells once the rows `m` follow a log that told `prior`. */
  ghost predicate Merged(prior: Option<Audited>, m: seq<Mark>, st: Option<Audited>) {
    && (st.Some? <==> Alive(prior, m))
    && (st.Some? ==> forall t :: Read(st.value, t) == ValueOn(prior, m, t))
  }

  lemma MergedOneMore(prior: Option<Audited>, m: seq<Mark>, mark: Mark, st: Option<Audited>)
    requires Merged(prior, m, st) && Apt(mark)
    ensures Merged(prior, m + [mark], ApplyChange(st, RowOn(mark.who, mark.w)))
  {
    var m' := m + [mark];
    assert m'[..|m|] == m;
    if mark.w.One? {
      NamesDecode(mark.w.t);
      if st.Some? {
        var next := Project(mark.who.next.value);
        forall t ensures Read(Write(st.value, mark.w.t, Read(next, mark.w.t)), t) == ValueOn(prior, m', t) {
          WriteThenRead(st.value, next, mark.w.t, t);
        }
      }
    }
  }

  lemma {:induction false} MergedAll(prior: Option<Audited>, m: seq<Mark>)
    requires AllApt(m)
    ensures Merged(prior, m, ApplyAll(prior, RowsOf(m)))
    decreases |m|
  {
    if m != [] {
      var n := |m| - 1;
      MergedAll(prior, m[..n]);
      assert Apt(m[n]);
      MergedOneMore(prior, m[..n], m[n], ApplyAll(prior, RowsOf(m[..n])));
      assert m == m[..n] + [m[n]];
      assert RowsOf(m)[..n] == RowsOf(m[..n]);
    }
  }

  /** The rows end with what `final` says: gone if it is None, else there, and right in every slot. */
  ghost predicate Ends(prior: Option<Audited>, m: seq<Mark>, final: Option<Policy>) {
    match final
    case None => !Alive(prior, m)
    case Some(p) => Alive(prior, m) && forall t :: ValueOn(prior, m, t) == Read(Project(p), t)
  }

  /**
   Any number of calls, their rows in any order: the log tells of `final` exactly when the last creation or
   deletion is the right one and, if it is there, the last row on each slot since carries its value.
   */
  lemma RowsTellExactly(prior: Option<Audited>, m: seq<Mark>, final: Option<Policy>)
    requires AllApt(m)
    ensures ApplyAll(prior, RowsOf(m)) == Projected(final) <==> Ends(prior, m, final)
  {
    MergedAll(prior, m);
    var st := ApplyAll(prior, RowsOf(m));
    if Ends(prior, m, final) && final.Some? {
      SlotsDecideAll(st.value, Project(final.value));
    }
  }

  // ----- two calls

  function TopicsOf(m: seq<Mark>, c: nat): seq<Topic> {
    if m == [] then []
    else
      var n := |m| - 1;
      TopicsOf(m[..n], c) + (if m[n].c == c then [m[n].w] else [])
  }

  /** The marks are those of the two writers. */
  ghost predicate Between(u: Writer, v: Writer, m: seq<Mark>) {
    forall i :: 0 <= i < |m| ==> (m[i].c == 0 && m[i].who == u) || (m[i].c == 1 && m[i].who == v)
  }

  /** Both calls have logged all their rows, each its own in order. */
  ghost predicate Complete(u: Writer, v: Writer, m: seq<Mark>) {
    Between(u, v, m) && TopicsOf(m, 0) == Topics(u) && TopicsOf(m, 1) == Topics(v)
  }

  ghost predicate Marked(m: seq<Mark>, c: nat, w: Topic) {
    exists i :: 0 <= i < |m| && m[i].c == c && m[i].w == w
  }

  lemma {:induction false} MarkedIsTopic(m: seq<Mark>, c: nat, w: Topic)
    ensures Marked(m, c, w) <==> w in TopicsOf(m, c)
    decreases |m|
  {
    if m != [] {
      var n := |m| - 1;
      MarkedIsTopic(m[..n], c, w);
      if Marked(m, c, w) {
        var i :| 0 <= i < |m| && m[i].c == c && m[i].w == w;
        if i < n {
          assert m[..n][i] == m[i];
        }
      }
      if Marked(m[..n], c, w) {
        var i :| 0 <= i < n && m[..n][i].c == c && m[..n][i].w == w;
        assert m[i] == m[..n][i];
      }
    }
  }

  lemma CompleteIsApt(u: Writer, v: Writer, m: seq<Mark>)
    requires Complete(u, v, m)
    ensures AllApt(m)
  {
    forall i | 0 <= i < |m| ensures Apt(m[i]) {
      MarkedIsTopic(m, m[i].c, m[i].w);
      assert Marked(m, m[i].c, m[i].w);
    }
  }

  /** The last creation or deletion is a row of the log; there is none only if the log has none. */
  lemma {:induction false} LastLifeIsMarked(m: seq<Mark>) returns (i: int)
    ensures LastLife(m).Some? ==> 0 <= i < |m| && m[i].w == LastLife(m).value && !m[i].w.One?
    ensures LastLife(m).None? ==> forall j :: 0 <= j < |m| ==> m[j].w.One?
    decreases |m|
  {
    i := |m| - 1;
    if m != [] && m[i].w.One? {
      var n := i;
      i := LastLifeIsMarked(m[..n]);
      assert forall j :: 0 <= j < n ==> m[..n][j] == m[j];
    }
  }

  lemma LifeIsThere(m: seq<Mark>, c: nat, w: Topic)
    requires w in TopicsOf(m, c) && !w.One?
    ensures LastLife(m).Some?
  {
    MarkedIsTopic(m, c, w);
    var i := LastLifeIsMarked(m);
    var j :| 0 <= j < |m| && m[j].c == c && m[j].w == w;
  }

  lemma {:induction false} LastOnIsMarked(m: seq<Mark>, t: Slot) returns (i: int)
    ensures LastOn(m, t).Some? ==> 0 <= i < |m| && m[i] == LastOn(m, t).value && Covers(m[i].w, t)
    ensures LastOn(m, t).Some? ==> forall j :: i < j < |m| ==> !Covers(m[j].w, t)
    ensures LastOn(m, t).None? ==> forall j :: 0 <= j < |m| ==> !Covers(m[j].w, t)
    decreases |m|
  {
    i := |m| - 1;
    if m != [] && !Covers(m[i].w, t) {
      var n := i;
      i := LastOnIsMarked(m[..n], t);
      assert forall j :: 0 <= j < n ==> m[..n][j] == m[j];
    }
  }

  // ----- two upserts

  /** The writer changes the slot. */
  predicate Changed(who: Writer, t: Slot) {
    who.next.Some? && (who.prev.None? || SlotIn(who.prev, t) != SlotIn(who.next, t))
  }

  ghost predicate HasRow(m: seq<Mark>, c: nat, t: Slot) {
    exists i :: 0 <= i < |m| && m[i].c == c && Covers(m[i].w, t)
  }

  lemma ChangedIsTopic(who: Writer, t: Slot)
    requires who.next.Some?
    ensures Changed(who, t) <==> All in Topics(who) || One(t) in Topics(who)
    ensures Gone !in Topics(who)
  {
    if who.prev.Some? {
      var ts := DiffSlots(Project(who.prev.value), Project(who.next.value));
      DiffSlotsExact(Project(who.prev.value), Project(who.next.value));
      if t in ts {
        var i :| 0 <= i < |ts| && ts[i] == t;
        assert Topics(who)[i] == One(t);
      }
    }
  }

  /** In a complete log an upsert has a row on exactly the slots it changes. */
  lemma RowsAreChanges(u: Writer, v: Writer, m: seq<Mark>, c: nat, t: Slot)
    requires Complete(u, v, m) && c < 2 && (if c == 0 then u else v).next.Some?
    ensures HasRow(m, c, t) <==> Changed(if c == 0 then u else v, t)
  {
    ChangedIsTopic(if c == 0 then u else v, t);
    MarkedIsTopic(m, c, All);
    MarkedIsTopic(m, c, One(t));
    MarkedIsTopic(m, c, Gone);
    if HasRow(m, c, t) {
      var i :| 0 <= i < |m| && m[i].c == c && Covers(m[i].w, t);
      assert Marked(m, c, m[i].w);
      assert m[i].w == All || m[i].w == Gone || m[i].w == One(t);
    }
    if Changed(if c == 0 then u else v, t) {
      if Marked(m, c, All) {
        var i :| 0 <= i < |m| && m[i].c == c && m[i].w == All;
        assert Covers(m[i].w, t);
      } else {
        var i :| 0 <= i < |m| && m[i].c == c && m[i].w == One(t);
        assert Covers(m[i].w, t);
      }
    }
  }

  /** Two upserts on a scope that held `a`: the first read `a`, the second `a` or what the first wrote. */
  predicate Upserts(a: Option<Policy>, u: Writer, v: Writer) {
    u.next.Some? && v.next.Some? && u.prev == a && (v.prev == a || v.prev == u.next)
  }

  predicate LastIsSecond(m: seq<Mark>, t: Slot) {
    LastOn(m, t).Some? && LastOn(m, t).value.c == 1
  }

  /** The slot ends right: the first left it alone, both agree on it, or the second one's row on it comes last. */
  ghost predicate Harmless(u: Writer, v: Writer, m: seq<Mark>, t: Slot) {
    !Changed(u, t) || SlotIn(u.next, t) == SlotIn(v.next, t) || LastIsSecond(m, t)
  }

  lemma SlotEndsRight(a: Option<Policy>, u: Writer, v: Writer, m: seq<Mark>, t: Slot)
    requires Upserts(a, u, v) && Complete(u, v, m)
    ensures ValueOn(Projected(a), m, t) == SlotIn(v.next, t) <==> Harmless(u, v, m, t)
  {
    RowsAreChanges(u, v, m, 0, t);
    RowsAreChanges(u, v, m, 1, t);
    var i := LastOnIsMarked(m, t);
    if LastOn(m, t).None? {
      assert !HasRow(m, 0, t) && !HasRow(m, 1, t);
    } else {
      assert HasRow(m, m[i].c, t);
    }
  }

  lemma UpsertsLeaveARow(a: Option<Policy>, u: Writer, v: Writer, m: seq<Mark>)
    requires Upserts(a, u, v) && Complete(u, v, m)
    ensures Alive(Projected(a), m)
  {
    ChangedIsTopic(u, Col(Model));
    ChangedIsTopic(v, Col(Model));
    MarkedIsTopic(m, 0, Gone);
    MarkedIsTopic(m, 1, Gone);
    var i := LastLifeIsMarked(m);
    if a.None? {
      LifeIsThere(m, 0, All);
    }
    if LastLife(m).Some? {
      assert Marked(m, m[i].c, m[i].w);
    }
  }

  /** Two upserts, rows merged in any order: the log tells the truth exactly when every slot is harmless. */
  lemma UpsertsTellExactly(a: Option<Policy>, u: Writer, v: Writer, m: seq<Mark>)
    requires Upserts(a, u, v) && Complete(u, v, m)
    ensures ApplyAll(Projected(a), RowsOf(m)) == Projected(v.next) <==> forall t :: Harmless(u, v, m, t)
  {
    CompleteIsApt(u, v, m);
    RowsTellExactly(Projected(a), m, v.next);
    UpsertsLeaveARow(a, u, v, m);
    forall t ensures ValueOn(Projected(a), m, t) == SlotIn(v.next, t) <==> Harmless(u, v, m, t) {
      SlotEndsRight(a, u, v, m, t);
    }
    if forall t :: Harmless(u, v, m, t) {
      forall t ensures ValueOn(Projected(a), m, t) == Read(Project(v.next.value), t) { assert Harmless(u, v, m, t); }
    } else {
      var t :| !Harmless(u, v, m, t);
      assert ValueOn(Projected(a), m, t) != Read(Project(v.next.value), t);
    }
  }

  /** All rows of the call with index `c` come after all rows of the other. */
  ghost predicate Split(m: seq<Mark>, k: nat, c: nat) {
    k <= |m| && (forall i :: 0 <= i < k ==> m[i].c != c) && forall i :: k <= i < |m| ==> m[i].c == c
  }

  /**
   Rows in the order of the writes: the truth exactly when every slot the first writer changed is agreed on or
   changed by the second as well. So it is told whenever the second read what the first wrote; but if
   both read the same row, editing different columns is enough to make the log wrong.
   */
  lemma InWriteOrder(a: Option<Policy>, u: Writer, v: Writer, m: seq<Mark>, k: nat)
    requires Upserts(a, u, v) && Complete(u, v, m) && Split(m, k, 1)
    ensures ApplyAll(Projected(a), RowsOf(m)) == Projected(v.next) <==>
            forall t :: Changed(u, t) ==> SlotIn(u.next, t) == SlotIn(v.next, t) || Changed(v, t)
    ensures v.prev == u.next ==> ApplyAll(Projected(a), RowsOf(m)) == Projected(v.next)
  {
    UpsertsTellExactly(a, u, v, m);
    forall t ensures LastIsSecond(m, t) <==> Changed(v, t) {
      RowsAreChanges(u, v, m, 1, t);
      var i := LastOnIsMarked(m, t);
      if HasRow(m, 1, t) {
        var j :| 0 <= j < |m| && m[j].c == 1 && Covers(m[j].w, t);
        assert j >= k && LastOn(m, t).Some? && i >= j;
      }
      if LastIsSecond(m, t) {
        assert HasRow(m, 1, t);
      }
    }
    assert forall t :: Harmless(u, v, m, t) <==>
        (Changed(u, t) ==> SlotIn(u.next, t) == SlotIn(v.next, t) || Changed(v, t));
  }

  /** Rows against the order of the writes: the truth exactly when the two agree on every slot the first changed. */
  lemma AgainstWriteOrder(a: Option<Policy>, u: Writer, v: Writer, m: seq<Mark>, k: nat)
    requires Upserts(a, u, v) && Complete(u, v, m) && Split(m, k, 0)
    ensures ApplyAll(Projected(a), RowsOf(m)) == Projected(v.next) <==>
            forall t :: Changed(u, t) ==> SlotIn(u.next, t) == SlotIn(v.next, t)
  {
    UpsertsTellExactly(a, u, v, m);
    forall t ensures LastIsSecond(m, t) ==> !Changed(u, t) {
      RowsAreChanges(u, v, m, 0, t);
      var i := LastOnIsMarked(m, t);
      if HasRow(m, 0, t) {
        var j :| 0 <= j < |m| && m[j].c == 0 && Covers(m[j].w, t);
        assert j >= k && LastOn(m, t).Some? && i >= j;
      }
    }
    assert forall t :: Harmless(u, v, m, t) <==> (Changed(u, t) ==> SlotIn(u.next, t) == SlotIn(v.next, t));
  }

  // ----- an upsert and a delete

  /** An upsert of `b` and a delete overlap on a scope that held `a`; `u` writes first, `v` last. */
  predicate Mixed(a: Option<Policy>, u: Writer, v: Writer) {
    u.next.Some? != v.next.Some? && u.prev == a && (v.prev == a || v.prev == u.next)
  }

  lemma UpsertWritesLast(a: Option<Policy>, u: Writer, v: Writer, m: seq<Mark>)
    requires Mixed(a, u, v) && Complete(u, v, m) && v.next.Some?
    ensures Ends(Projected(a), m, v.next) <==> LastLife(m) == Some(All)
  {
    var i := LastLifeIsMarked(m);
    if a.Some? {
      LifeIsThere(m, 0, Gone);
    }
    if LastLife(m) == Some(All) {
      MarkedIsTopic(m, 0, All);
      MarkedIsTopic(m, 1, All);
      assert Marked(m, m[i].c, All);
      assert v.prev.None?;
      forall j | 0 <= j < |m| ensures !m[j].w.One? {
        MarkedIsTopic(m, m[j].c, m[j].w);
        assert Marked(m, m[j].c, m[j].w);
      }
      forall t ensures ValueOn(Projected(a), m, t) == Read(Project(v.next.value), t) {
        assert LastOn(m, t) == Some(m[|m| - 1]) && m[|m| - 1].w == All;
        MarkedIsTopic(m, m[|m| - 1].c, All);
        assert Marked(m, m[|m| - 1].c, All);
      }
    }
  }

  lemma DeleteWritesLast(a: Option<Policy>, u: Writer, v: Writer, m: seq<Mark>)
    requires Mixed(a, u, v) && Complete(u, v, m) && v.next.None?
    ensures Ends(Projected(a), m, v.next) <==> LastLife(m) == Some(Gone)
  {
    var i := LastLifeIsMarked(m);
    if a.None? {
      LifeIsThere(m, 0, All);
    }
  }

  /**
   An upsert and a delete, rows merged in any order: the log tells the truth exactly when its last creation or
   deletion is a creation if the upsert wrote last, and a deletion if the delete did.
   */
  lemma MixedTellsExactly(a: Option<Policy>, u: Writer, v: Writer, m: seq<Mark>)
    requires Mixed(a, u, v) && Complete(u, v, m)
    ensures ApplyAll(Projected(a), RowsOf(m)) == Projected(v.next) <==> LastLife(m) == Some(if v.next.Some? then All else Gone)
  {
    CompleteIsApt(u, v, m);
    RowsTellExactly(Projected(a), m, v.next);
    if v.next.Some? {
      UpsertWritesLast(a, u, v, m);
    } else {
      DeleteWritesLast(a, u, v, m);
    }
  }

  /**
   If both read the same row the order of the rows does not matter: the log is right exactly if there was a
   row and the delete wrote last, or none and the upsert did.
   */
  lemma MixedBothReadSame(a: Option<Policy>, u: Writer, v: Writer, m: seq<Mark>)
    requires Mixed(a, u, v) && Complete(u, v, m) && v.prev == a
    ensures ApplyAll(Projected(a), RowsOf(m)) == Projected(v.next) <==> (a.Some? <==> v.next.None?)
  {
    MixedTellsExactly(a, u, v, m);
    var i := LastLifeIsMarked(m);
    MarkedIsTopic(m, 0, Gone);
    MarkedIsTopic(m, 1, Gone);
    MarkedIsTopic(m, 0, All);
    MarkedIsTopic(m, 1, All);
    if LastLife(m).Some? {
      assert Marked(m, m[i].c, m[i].w);
    }
    if a.None? {
      LifeIsThere(m, if u.next.Some? then 0 else 1, All);
    } else {
      LifeIsThere(m, if u.next.Some? then 1 else 0, Gone);
    }
  }

  // ----- what a caller can tell beforehand

  /** All rows of one call, in order. */
  ghost function MarksOf(c: nat, who: Writer): seq<Mark> {
    seq(|Topics(who)|, i requires 0 <= i < |Topics(who)| => Mark(c, who, Topics(who)[i]))
  }

  lemma {:induction false} TopicsOfCat(m: seq<Mark>, m': seq<Mark>, c: nat)
    ensures TopicsOf(m + m', c) == TopicsOf(m, c) + TopicsOf(m', c)
    decreases |m'|
  {
    if m' == [] {
      assert m + m' == m;
    } else {
      var n := |m'| - 1;
      TopicsOfCat(m, m'[..n], c);
      assert (m + m')[..|m| + n] == m + m'[..n];
    }
  }

  lemma {:induction false} TopicsOfOne(m: seq<Mark>, c: nat)
    requires forall i :: 0 <= i < |m| ==> m[i].c == m[0].c
    ensures |m| > 0 && m[0].c == c ==> TopicsOf(m, c) == seq(|m|, i requires 0 <= i < |m| => m[i].w)
    ensures |m| > 0 && m[0].c != c ==> TopicsOf(m, c) == []
    decreases |m|
  {
    if |m| > 1 {
      var n := |m| - 1;
      assert m[..n][0] == m[0];
      TopicsOfOne(m[..n], c);
    }
  }

  /** The rows of the second writer, then those of the first: a complete log. */
  lemma LateFirst(u: Writer, v: Writer) returns (m: seq<Mark>, k: nat)
    ensures Complete(u, v, m) && Split(m, k, 0)
  {
    var late, early := MarksOf(0, u), MarksOf(1, v);
    m, k := early + late, |early|;
    TopicsOfOne(early, 0);
    TopicsOfOne(early, 1);
    TopicsOfOne(late, 0);
    TopicsOfOne(late, 1);
    TopicsOfCat(early, late, 0);
    TopicsOfCat(early, late, 1);
  }

  /** However their rows are merged, the log of two upserts tells what the second to write wrote. */
  ghost predicate AlwaysTold(a: Option<Policy>, u: Writer, v: Writer) {
    forall m :: Complete(u, v, m) ==> ApplyAll(Projected(a), RowsOf(m)) == Projected(v.next)
  }

  lemma AlwaysToldExactly(a: Option<Policy>, u: Writer, v: Writer)
    requires Upserts(a, u, v)
    ensures AlwaysTold(a, u, v) <==> forall t :: Changed(u, t) ==> SlotIn(u.next, t) == SlotIn(v.next, t)
  {
    var late, k := LateFirst(u, v);
    AgainstWriteOrder(a, u, v, late, k);
    if forall t :: Changed(u, t) ==> SlotIn(u.next, t) == SlotIn(v.next, t) {
      forall m | Complete(u, v, m) ensures ApplyAll(Projected(a), RowsOf(m)) == Projected(v.next) {
        UpsertsTellExactly(a, u, v, m);
        assert forall t :: Harmless(u, v, m, t);
      }
    }
  }

  /**
   Two upserts that both read `a`: whichever writes first and however their rows are merged, the log is
   right, exactly if they write the same on the audited projection.
   */
  lemma SafeExactlyIfSame(a: Option<Policy>, b: Policy, c: Policy)
    ensures var u, v := Writer(a, Some(b)), Writer(a, Some(c));
            AlwaysTold(a, u, v) && AlwaysTold(a, v, u) <==> Project(b) == Project(c)
  {
    var u, v := Writer(a, Some(b)), Writer(a, Some(c));
    AlwaysToldExactly(a, u, v);
    AlwaysToldExactly(a, v, u);
    if AlwaysTold(a, u, v) && AlwaysTold(a, v, u) {
      forall t ensures Read(Project(b), t) == Read(Project(c), t) {
        assert Changed(u, t) ==> SlotIn(u.next, t) == SlotIn(v.next, t);
        assert Changed(v, t) ==> SlotIn(v.next, t) == SlotIn(u.next, t);
      }
      SlotsDecideAll(Project(b), Project(c));
    }
  }
}
