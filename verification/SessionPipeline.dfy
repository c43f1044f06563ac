/**
 The session event pipeline (cmd/server/wa_session_wire.go): a chain of relay goroutines between the
 Manager's event channel and the inbound pump, each with a one-slot output channel, all stopped by
 one context. The chain may hold any tees in any number: production runs [MetricTee, AuditTee], a
 boot without metrics or without an auditor runs one of them, and tests run none.

 Every select is a nondeterministic choice, so one step moves one goroutine once.
 */
module SessionPipeline {
  import opened Options
  import opened Picking
  import opened SessionEvents

  /** A relay between two steps: waiting, holding an event not yet reported, holding a reported one, gone. */
  datatype Hand = Idle | Got(ev: Event) | Ready(ev: Event) | Exited(lost: seq<Event>)

  /**
   `slot` is the relay's output channel; it is closed once the relay has exited. `notes` is what the
   tee has told its observer, and `seen` the events it had then received and reported on.
   */
  datatype Relay = Relay(role: Role, hand: Hand, slot: seq<Event>, notes: seq<Note>, seen: seq<Event>)

  datatype State = State(
    source: seq<Event>,   // everything the Manager has emitted
    unread: seq<Event>,   // the part no goroutine has received yet
    relays: seq<Relay>,   // relays[0] reads the Manager's channel
    delivered: seq<Event>,
    handed: seq<SessionMessage>,
    codes: map<Tenant, QrCode>,
    warnings: nat,        // audit writes that failed
    cancelled: bool,
    pumpStopped: bool)

  datatype Step =
    | Emit(ev: Event)
    | Cancel
    | Receive(i: nat)
    | Report(i: nat, failed: bool)
    | Forward(i: nat)
    | Quit(i: nat)
    | PumpReceive
    | PumpQuit

  /** The channel goroutine `i` reads; goroutine `|relays|` is the pump. */
  function Input(s: State, i: nat): seq<Event>
    requires i <= |s.relays|
  {
    if i == 0 then s.unread else s.relays[i - 1].slot
  }

  /** The Manager never closes its channel; a relay closes its slot when it exits. */
  predicate InputEnded(s: State, i: nat)
    requires i <= |s.relays|
  {
    i > 0 && s.relays[i - 1].slot == [] && s.relays[i - 1].hand.Exited?
  }

  function TakeInput(s: State, i: nat): State
    requires i <= |s.relays| && Input(s, i) != []
  {
    if i == 0 then s.(unread := s.unread[1..])
    else s.(relays := s.relays[i - 1 := s.relays[i - 1].(slot := s.relays[i - 1].slot[1..])])
  }

  predicate Enabled(s: State, step: Step) {
    match step
    case Emit(_) => true
    case Cancel => true
    case Receive(i) => i < |s.relays| && s.relays[i].hand.Idle? && Input(s, i) != []
    case Report(i, failed) => i < |s.relays| && s.relays[i].hand.Got? && (failed ==> s.relays[i].role == AuditTee)
    case Forward(i) => i < |s.relays| && s.relays[i].hand.Ready? && s.relays[i].slot == []
    case Quit(i) =>
      && i < |s.relays|
      && (|| (s.cancelled && (s.relays[i].hand.Idle? || s.relays[i].hand.Ready?))
          || (s.relays[i].hand.Idle? && InputEnded(s, i)))
    case PumpReceive => !s.pumpStopped && Input(s, |s.relays|) != []
    case PumpQuit => !s.pumpStopped && (s.cancelled || InputEnded(s, |s.relays|))
  }

  function SetRelay(s: State, i: nat, r: Relay): State
    requires i < |s.relays|
  {
    s.(relays := s.relays[i := r])
  }

  function Do(s: State, step: Step): State
    requires Enabled(s, step)
  {
    match step
    case Emit(ev) => s.(source := s.source + [ev], unread := s.unread + [ev])
    case Cancel => s.(cancelled := true)
    case Receive(i) =>
      var ev := Input(s, i)[0];
      SetRelay(TakeInput(s, i), i, s.relays[i].(hand := Got(ev)))
    case Report(i, failed) =>
      var r := s.relays[i];
      SetRelay(s, i, r.(hand := Ready(r.hand.ev),
                         notes := r.notes + NotesOn(r.role, r.hand.ev),
                         seen := r.seen + [r.hand.ev]))
        .(warnings := s.warnings + if failed then |NotesOn(r.role, r.hand.ev)| else 0)
    case Forward(i) =>
      var r := s.relays[i];
      SetRelay(s, i, r.(hand := Idle, slot := [r.hand.ev]))
    case Quit(i) =>
      var r := s.relays[i];
      SetRelay(s, i, r.(hand := Exited(Held(r.hand))))
    case PumpReceive =>
      var ev := Input(s, |s.relays|)[0];
      TakeInput(s, |s.relays|)
        .(delivered := s.delivered + [ev],
          handed := s.handed + MessagesOn(ev),
          codes := CodesAfterOne(s.codes, ev))
    case PumpQuit => s.(pumpStopped := true)
  }

  // ----- where the events are

  function Held(h: Hand): seq<Event> {
    match h
    case Idle => []
    case Got(ev) => [ev]
    case Ready(ev) => [ev]
    case Exited(lost) => lost
  }

  /** The held event, once its tee has reported it. */
  function Reported(h: Hand): seq<Event> {
    if h.Got? then [] else Held(h)
  }

  /** A relay's events, oldest first. */
  function Content(r: Relay): seq<Event> {
    r.slot + Held(r.hand)
  }

  /** Events inside relays `k` and later, oldest first. */
  function Inside(rs: seq<Relay>, k: nat): seq<Event>
    decreases |rs| - k
  {
    if k >= |rs| then [] else Inside(rs, k + 1) + Content(rs[k])
  }

  /** Everything relay `k` has finished reporting, in order. */
  function Past(delivered: seq<Event>, rs: seq<Relay>, k: nat): seq<Event>
    requires k < |rs|
  {
    delivered + Inside(rs, k + 1) + (rs[k].slot + Reported(rs[k].hand))
  }

  predicate RelayOk(r: Relay, cancelled: bool) {
    && |r.slot| <= 1
    && |Held(r.hand)| <= 1
    && (r.hand.Exited? ==> cancelled)
    && r.notes == NotesOf(r.role, r.seen)
  }

  predicate AllRelaysOk(rs: seq<Relay>, cancelled: bool) {
    forall k :: 0 <= k < |rs| ==> RelayOk(rs[k], cancelled)
  }

  predicate SeenOk(delivered: seq<Event>, rs: seq<Relay>, k: nat) {
    k < |rs| && rs[k].seen == Past(delivered, rs, k)
  }

  predicate AllSeen(delivered: seq<Event>, rs: seq<Relay>) {
    forall k :: 0 <= k < |rs| ==> SeenOk(delivered, rs, k)
  }

  ghost predicate Inv(s: State) {
    && s.source == s.delivered + Inside(s.relays, 0) + s.unread
    && AllRelaysOk(s.relays, s.cancelled)
    && AllSeen(s.delivered, s.relays)
    && s.handed == MessagesOf(s.delivered)
    && s.codes == CodesAfter(map[], s.delivered)
    && (s.pumpStopped ==> s.cancelled)
  }

  // ----- moving events along the chain

  /** Relays with equal contents from `k` on: equal insides. */
  lemma {:induction false} InsideSame(rs: seq<Relay>, rs': seq<Relay>, k: nat)
    requires |rs| == |rs'|
    requires forall j :: k <= j < |rs| ==> Content(rs[j]) == Content(rs'[j])
    ensures Inside(rs, k) == Inside(rs', k)
    decreases |rs| - k
  {
    if k < |rs| {
      InsideSame(rs, rs', k + 1);
    }
  }

  lemma Shifted(a: seq<Event>, b: seq<Event>, ev: Event, c: seq<Event>)
    ensures a + (b + [ev]) + c == a + b + ([ev] + c)
  {
  }

  /** An event that moves from the slot of relay `p` to the hand of the next keeps its place in the order. */
  lemma {:induction false} InsideMoved(rs: seq<Relay>, rs': seq<Relay>, p: nat, ev: Event, k: nat)
    requires k <= p && p + 1 < |rs| == |rs'|
    requires forall j :: 0 <= j < |rs| && j != p && j != p + 1 ==> rs[j] == rs'[j]
    requires Content(rs[p]) == [ev] + Content(rs'[p])
    requires Content(rs'[p + 1]) == Content(rs[p + 1]) + [ev]
    ensures Inside(rs, k) == Inside(rs', k)
    decreases p - k
  {
    if k < p {
      InsideMoved(rs, rs', p, ev, k + 1);
    } else {
      InsideSame(rs, rs', p + 2);
      Shifted(Inside(rs, p + 2), Content(rs[p + 1]), ev, Content(rs'[p]));
    }
  }

  lemma Assoc(a: seq<Event>, b: seq<Event>, c: seq<Event>)
    ensures a + b + c == a + (b + c)
  {
  }

  lemma NothingInFront(a: seq<Event>)
    ensures [] + a == a
  {
  }

  /** Events inside relays `k` and later, the last one aside. */
  function Before(rs: seq<Relay>, k: nat): seq<Event>
    decreases |rs| - k
  {
    if k + 1 >= |rs| then [] else Before(rs, k + 1) + Content(rs[k])
  }

  lemma {:induction false} InsideSplit(rs: seq<Relay>, k: nat)
    requires k < |rs|
    ensures Inside(rs, k) == Content(rs[|rs| - 1]) + Before(rs, k)
    decreases |rs| - k
  {
    if k + 1 < |rs| {
      InsideSplit(rs, k + 1);
      Assoc(Content(rs[|rs| - 1]), Before(rs, k + 1), Content(rs[k]));
    } else {
      NothingInFront(Content(rs[k]));
    }
  }

  lemma {:induction false} BeforeSame(rs: seq<Relay>, rs': seq<Relay>, k: nat)
    requires |rs| == |rs'|
    requires forall j :: 0 <= j < |rs| - 1 ==> rs[j] == rs'[j]
    ensures Before(rs, k) == Before(rs', k)
    decreases |rs| - k
  {
    if k + 1 < |rs| {
      BeforeSame(rs, rs', k + 1);
    }
  }

  lemma FrontOut(x: seq<Event>, x': seq<Event>, rest: seq<Event>, ev: Event, whole: seq<Event>, whole': seq<Event>)
    requires x == [ev] + x' && whole == x + rest && whole' == x' + rest
    ensures whole == [ev] + whole'
  {
  }

  /** The oldest event in a chain whose last slot is full is the one in that slot. */
  lemma InsideLast(rs: seq<Relay>, rs': seq<Relay>, ev: Event, k: nat)
    requires k < |rs| == |rs'|
    requires forall j :: 0 <= j < |rs| - 1 ==> rs[j] == rs'[j]
    requires Content(rs[|rs| - 1]) == [ev] + Content(rs'[|rs| - 1])
    ensures Inside(rs, k) == [ev] + Inside(rs', k)
  {
    InsideSplit(rs, k);
    InsideSplit(rs', k);
    BeforeSame(rs, rs', k);
    FrontOut(Content(rs[|rs| - 1]), Content(rs'[|rs| - 1]), Before(rs, k), ev, Inside(rs, k), Inside(rs', k));
  }

  // ----- each goroutine's step keeps the books

  lemma LocalSeenAt(d: seq<Event>, rs: seq<Relay>, i: nat, r: Relay, k: nat)
    requires i < |rs| && SeenOk(d, rs, k)
    requires Content(r) == Content(rs[i])
    requires r.seen == d + Inside(rs, i + 1) + (r.slot + Reported(r.hand))
    ensures SeenOk(d, rs[i := r], k)
  {
    InsideSame(rs, rs[i := r], k + 1);
  }

  /** Changing one relay without changing its content. */
  lemma LocalSeen(d: seq<Event>, rs: seq<Relay>, i: nat, r: Relay)
    requires i < |rs| && AllSeen(d, rs)
    requires Content(r) == Content(rs[i])
    requires r.seen == d + Inside(rs, i + 1) + (r.slot + Reported(r.hand))
    ensures AllSeen(d, rs[i := r])
  {
    var rs' := rs[i := r];
    forall k | 0 <= k < |rs'|
      ensures SeenOk(d, rs', k)
    {
      assert SeenOk(d, rs, k);
      LocalSeenAt(d, rs, i, r, k);
    }
  }

  /** A step inside relay `i` that keeps its content in order. */
  lemma LocalStep(s: State, i: nat, r: Relay)
    requires Inv(s) && i < |s.relays|
    requires Content(r) == Content(s.relays[i])
    requires RelayOk(r, s.cancelled)
    requires r.seen == s.delivered + Inside(s.relays, i + 1) + (r.slot + Reported(r.hand))
    ensures Inv(SetRelay(s, i, r))
  {
    LocalSeen(s.delivered, s.relays, i, r);
    InsideSame(s.relays, s.relays[i := r], 0);
  }

  /** The first relay takes an event from the Manager's channel. */
  lemma FirstSeen(d: seq<Event>, rs: seq<Relay>, ev: Event)
    requires 0 < |rs| && AllSeen(d, rs) && rs[0].hand.Idle?
    ensures AllSeen(d, rs[0 := rs[0].(hand := Got(ev))])
    ensures Inside(rs[0 := rs[0].(hand := Got(ev))], 0) == Inside(rs, 1) + (Content(rs[0]) + [ev])
  {
    var rs' := rs[0 := rs[0].(hand := Got(ev))];
    InsideSame(rs, rs', 1);
    assert Content(rs'[0]) == Content(rs[0]) + [ev];
    forall k | 0 <= k < |rs'|
      ensures SeenOk(d, rs', k)
    {
      assert SeenOk(d, rs, k);
      InsideSame(rs, rs', k + 1);
    }
  }

  lemma ReceiveFirst(s: State)
    requires Inv(s) && Enabled(s, Receive(0))
    ensures Inv(Do(s, Receive(0)))
  {
    FirstSeen(s.delivered, s.relays, s.unread[0]);
    TookFirst(s.delivered, Inside(s.relays, 1), Content(s.relays[0]), s.unread[0], s.unread);
  }

  lemma TookFirst(d: seq<Event>, tail: seq<Event>, c: seq<Event>, ev: Event, unread: seq<Event>)
    requires unread != [] && unread[0] == ev
    ensures d + (tail + c) + unread == d + (tail + (c + [ev])) + unread[1..]
  {
    assert unread == [ev] + unread[1..];
  }

  /** A later relay takes an event from the slot before it. */
  ghost predicate HandsOver(rs: seq<Relay>, rs': seq<Relay>, p: nat, ev: Event) {
    && p + 1 < |rs| == |rs'|
    && (forall j :: 0 <= j < |rs| && j != p && j != p + 1 ==> rs[j] == rs'[j])
    && rs[p].slot == [ev] && rs'[p] == rs[p].(slot := [])
    && rs[p + 1].hand.Idle? && rs'[p + 1] == rs[p + 1].(hand := Got(ev))
  }

  lemma HandOverContents(rs: seq<Relay>, rs': seq<Relay>, p: nat, ev: Event)
    requires HandsOver(rs, rs', p, ev)
    ensures Content(rs'[p + 1]) == Content(rs[p + 1]) + [ev]
    ensures Content(rs[p]) == [ev] + Content(rs'[p])
  {
  }

  lemma NextSeenHere(d: seq<Event>, rs: seq<Relay>, rs': seq<Relay>, p: nat, ev: Event)
    requires HandsOver(rs, rs', p, ev)
    ensures Past(d, rs', p) == Past(d, rs, p)
  {
    var tail, c := Inside(rs, p + 2), Content(rs[p + 1]);
    assert Inside(rs, p + 1) == tail + c;
    assert Inside(rs', p + 1) == tail + (c + [ev]) by {
      InsideSame(rs, rs', p + 2);
      HandOverContents(rs, rs', p, ev);
    }
    HandOver(d, tail, c, ev, Reported(rs[p].hand));
  }

  lemma NextSeen(d: seq<Event>, rs: seq<Relay>, rs': seq<Relay>, p: nat, ev: Event, k: nat)
    requires HandsOver(rs, rs', p, ev) && SeenOk(d, rs, k)
    ensures SeenOk(d, rs', k)
  {
    if k < p {
      HandOverContents(rs, rs', p, ev);
      InsideMoved(rs, rs', p, ev, k + 1);
    } else if k == p {
      NextSeenHere(d, rs, rs', p, ev);
    } else {
      InsideSame(rs, rs', k + 1);
    }
  }

  lemma HandOver(d: seq<Event>, tail: seq<Event>, c: seq<Event>, ev: Event, h: seq<Event>)
    ensures d + (tail + (c + [ev])) + ([] + h) == d + (tail + c) + ([ev] + h)
  {
  }

  lemma ReceiveNext(s: State, i: nat)
    requires Inv(s) && i > 0 && Enabled(s, Receive(i))
    ensures Inv(Do(s, Receive(i)))
  {
    var rs, rs', ev := s.relays, Do(s, Receive(i)).relays, s.relays[i - 1].slot[0];
    assert RelayOk(rs[i - 1], s.cancelled) && RelayOk(rs[i], s.cancelled);
    assert HandsOver(rs, rs', i - 1, ev);
    NextAllSeen(s.delivered, rs, rs', i - 1, ev);
  }

  lemma NextAllSeen(d: seq<Event>, rs: seq<Relay>, rs': seq<Relay>, p: nat, ev: Event)
    requires HandsOver(rs, rs', p, ev) && AllSeen(d, rs)
    ensures AllSeen(d, rs') && Inside(rs', 0) == Inside(rs, 0)
  {
    HandOverContents(rs, rs', p, ev);
    InsideMoved(rs, rs', p, ev, 0);
    forall k | 0 <= k < |rs'|
      ensures SeenOk(d, rs', k)
    {
      assert SeenOk(d, rs, k);
      NextSeen(d, rs, rs', p, ev, k);
    }
  }

  lemma TookLast(d: seq<Event>, ev: Event, inside: seq<Event>, unread: seq<Event>)
    ensures d + ([ev] + inside) + unread == d + [ev] + inside + unread
  {
  }

  lemma TookOwn(d: seq<Event>, ev: Event, h: seq<Event>)
    ensures d + [ev] + [] + ([] + h) == d + [] + ([ev] + h)
  {
  }

  /** The pump takes the event in the last slot. */
  ghost predicate Takes(rs: seq<Relay>, rs': seq<Relay>, ev: Event) {
    && 0 < |rs| == |rs'|
    && (forall j :: 0 <= j < |rs| - 1 ==> rs[j] == rs'[j])
    && rs[|rs| - 1].slot == [ev] && rs'[|rs| - 1] == rs[|rs| - 1].(slot := [])
  }

  lemma TakenContent(rs: seq<Relay>, rs': seq<Relay>, ev: Event)
    requires Takes(rs, rs', ev)
    ensures Content(rs[|rs| - 1]) == [ev] + Content(rs'[|rs| - 1])
  {
  }

  /** Taking the oldest event out of the chain does not change what any tee has behind it. */
  lemma PumpPast(d: seq<Event>, rs: seq<Relay>, rs': seq<Relay>, ev: Event, k: nat)
    requires Takes(rs, rs', ev) && k < |rs|
    ensures Past(d + [ev], rs', k) == Past(d, rs, k)
  {
    if k == |rs| - 1 {
      TookOwn(d, ev, Reported(rs[k].hand));
    } else {
      TakenContent(rs, rs', ev);
      InsideLast(rs, rs', ev, k + 1);
      TookLast(d, ev, Inside(rs', k + 1), rs[k].slot + Reported(rs[k].hand));
    }
  }

  lemma PumpSeenAt(d: seq<Event>, rs: seq<Relay>, rs': seq<Relay>, ev: Event, k: nat)
    requires Takes(rs, rs', ev) && SeenOk(d, rs, k)
    ensures SeenOk(d + [ev], rs', k)
  {
    PumpPast(d, rs, rs', ev, k);
  }

  lemma PumpSeen(d: seq<Event>, rs: seq<Relay>, rs': seq<Relay>, ev: Event)
    requires Takes(rs, rs', ev) && AllSeen(d, rs)
    ensures AllSeen(d + [ev], rs')
  {
    forall k | 0 <= k < |rs'|
      ensures SeenOk(d + [ev], rs', k)
    {
      assert SeenOk(d, rs, k);
      PumpSeenAt(d, rs, rs', ev, k);
    }
  }

  /** The pump's effects grow with the delivered events. */
  lemma EffectsAppend(d: seq<Event>, ev: Event)
    ensures MessagesOf(d + [ev]) == MessagesOf(d) + MessagesOn(ev)
    ensures CodesAfter(map[], d + [ev]) == CodesAfterOne(CodesAfter(map[], d), ev)
  {
    assert (d + [ev])[..|d|] == d;
  }

  lemma PumpKeepsInv(s: State)
    requires Inv(s) && Enabled(s, PumpReceive)
    ensures Inv(Do(s, PumpReceive))
  {
    var n := |s.relays|;
    var ev := Input(s, n)[0];
    EffectsAppend(s.delivered, ev);
    if n == 0 {
      PumpTakesUnread(s, ev);
    } else {
      PumpTakesLast(s, ev);
    }
  }

  lemma PumpTakesUnread(s: State, ev: Event)
    requires Inv(s) && s.relays == [] && s.unread != [] && ev == s.unread[0]
    ensures s.source == s.delivered + [ev] + Inside(s.relays, 0) + s.unread[1..]
  {
    assert s.unread == [ev] + s.unread[1..];
    assert Inside(s.relays, 0) == [];
    assert s.delivered + [] + ([ev] + s.unread[1..]) == s.delivered + [ev] + [] + s.unread[1..];
  }

  lemma PumpTakesLast(s: State, ev: Event)
    requires Inv(s) && Enabled(s, PumpReceive) && s.relays != [] && ev == Input(s, |s.relays|)[0]
    ensures var s' := Do(s, PumpReceive);
            && s'.source == s'.delivered + Inside(s'.relays, 0) + s'.unread
            && AllRelaysOk(s'.relays, s.cancelled) && AllSeen(s'.delivered, s'.relays)
  {
    var rs := s.relays;
    var rs' := TakeInput(s, |rs|).relays;
    assert RelayOk(rs[|rs| - 1], s.cancelled);
    assert rs[|rs| - 1].slot == [ev];
    PumpSeen(s.delivered, rs, rs', ev);
    TakenContent(rs, rs', ev);
    InsideLast(rs, rs', ev, 0);
    TookLast(s.delivered, ev, Inside(rs', 0), s.unread);
  }

  lemma OneMoreReported(a: seq<Event>, slot: seq<Event>, ev: Event)
    ensures a + (slot + []) + [ev] == a + (slot + [ev])
  {
  }

  lemma ReportKeepsInv(s: State, i: nat, failed: bool)
    requires Inv(s) && Enabled(s, Report(i, failed))
    ensures Inv(Do(s, Report(i, failed)))
  {
    var r := s.relays[i];
    var ev := r.hand.ev;
    assert RelayOk(r, s.cancelled);
    NotesOfAppend(r.role, r.seen, ev);
    assert SeenOk(s.delivered, s.relays, i);
    OneMoreReported(s.delivered + Inside(s.relays, i + 1), r.slot, ev);
    LocalStep(s, i, r.(hand := Ready(ev), notes := r.notes + NotesOn(r.role, ev), seen := r.seen + [ev]));
  }

  lemma ForwardKeepsInv(s: State, i: nat)
    requires Inv(s) && Enabled(s, Forward(i))
    ensures Inv(Do(s, Forward(i)))
  {
    var r := s.relays[i];
    assert RelayOk(r, s.cancelled) && SeenOk(s.delivered, s.relays, i);
    assert [] + [r.hand.ev] == [r.hand.ev] + [];
    LocalStep(s, i, r.(hand := Idle, slot := [r.hand.ev]));
  }

  lemma QuitKeepsInv(s: State, i: nat)
    requires Inv(s) && Enabled(s, Quit(i))
    ensures Inv(Do(s, Quit(i)))
  {
    var r := s.relays[i];
    assert RelayOk(r, s.cancelled) && SeenOk(s.delivered, s.relays, i);
    LocalStep(s, i, r.(hand := Exited(Held(r.hand))));
  }

  lemma StepKeepsInv(s: State, step: Step)
    requires Inv(s) && Enabled(s, step)
    ensures Inv(Do(s, step))
  {
    match step
    case Receive(i) => if i == 0 { ReceiveFirst(s); } else { ReceiveNext(s, i); }
    case Report(i, failed) => ReportKeepsInv(s, i, failed);
    case Forward(i) => ForwardKeepsInv(s, i);
    case Quit(i) => QuitKeepsInv(s, i);
    case PumpReceive => PumpKeepsInv(s);
    case Emit(ev) =>
    case Cancel =>
    case PumpQuit =>
  }

  // ----- whole runs

  function Fresh(roles: seq<Role>): seq<Relay> {
    seq(|roles|, k requires 0 <= k < |roles| => Relay(roles[k], Idle, [], [], []))
  }

  function Boot(roles: seq<Role>): State {
    State([], [], Fresh(roles), [], [], map[], 0, false, false)
  }

  ghost predicate Run(roles: seq<Role>, ss: seq<State>, steps: seq<Step>) {
    && |ss| == |steps| + 1
    && ss[0] == Boot(roles)
    && forall i :: 0 <= i < |steps| ==> Enabled(ss[i], steps[i]) && ss[i + 1] == Do(ss[i], steps[i])
  }

  lemma {:induction false} FreshIsEmpty(roles: seq<Role>, k: nat)
    ensures Inside(Fresh(roles), k) == []
    decreases |roles| - k
  {
    if k < |roles| {
      FreshIsEmpty(roles, k + 1);
    }
  }

  lemma BootInv(roles: seq<Role>)
    ensures Inv(Boot(roles))
  {
    FreshIsEmpty(roles, 0);
    forall k | 0 <= k < |roles|
      ensures SeenOk([], Fresh(roles), k)
    {
      FreshIsEmpty(roles, k + 1);
    }
  }

  /** The chain is the one that was booted, tee for tee. */
  ghost predicate Chain(roles: seq<Role>, rs: seq<Relay>) {
    |rs| == |roles| && forall k :: 0 <= k < |rs| ==> rs[k].role == roles[k]
  }

  lemma StepKeepsChain(roles: seq<Role>, s: State, step: Step)
    requires Chain(roles, s.relays) && Enabled(s, step)
    ensures Chain(roles, Do(s, step).relays)
  {
  }

  lemma {:induction false} ReachableInv(roles: seq<Role>, ss: seq<State>, steps: seq<Step>, i: nat)
    requires Run(roles, ss, steps) && i < |ss|
    ensures Inv(ss[i]) && Chain(roles, ss[i].relays)
    decreases i
  {
    if i == 0 {
      BootInv(roles);
    } else {
      ReachableInv(roles, ss, steps, i - 1);
      StepKeepsInv(ss[i - 1], steps[i - 1]);
      StepKeepsChain(roles, ss[i - 1], steps[i - 1]);
    }
  }

  lemma {:induction false} InsideIsBounded(rs: seq<Relay>, cancelled: bool, k: nat)
    requires k <= |rs| && AllRelaysOk(rs, cancelled)
    ensures |Inside(rs, k)| <= 2 * (|rs| - k)
    decreases |rs| - k
  {
    if k < |rs| {
      InsideIsBounded(rs, cancelled, k + 1);
      assert RelayOk(rs[k], cancelled);
    }
  }

  /**
   In every reachable state of every chain the pump has received a prefix of what the Manager emitted,
   in order and without repetition, and at most two events per tee are under way. Whatever shutdown
   loses besides unread events is among those: four with both tees.
   */
  lemma DeliveredInOrder(roles: seq<Role>, ss: seq<State>, steps: seq<Step>, i: nat)
    requires Run(roles, ss, steps) && i < |ss|
    ensures ss[i].source == ss[i].delivered + Inside(ss[i].relays, 0) + ss[i].unread
    ensures ss[i].delivered <= ss[i].source
    ensures |Inside(ss[i].relays, 0)| <= 2 * |roles|
    ensures ss[i].handed == MessagesOf(ss[i].delivered)
    ensures ss[i].codes == CodesAfter(map[], ss[i].delivered)
  {
    ReachableInv(roles, ss, steps, i);
    InsideIsBounded(ss[i].relays, ss[i].cancelled, 0);
  }

  lemma {:induction false} NotesOfPrefix(role: Role, a: seq<Event>, b: seq<Event>)
    requires a <= b
    ensures NotesOf(role, a) <= NotesOf(role, b)
    decreases |b|
  {
    if a != b {
      NotesOfPrefix(role, a, b[..|b| - 1]);
    }
  }

  /** The events behind tee `k` are delivered or further down the chain. */
  lemma {:induction false} PastIsInside(d: seq<Event>, rs: seq<Relay>, k: nat, m: nat)
    requires m <= k < |rs|
    ensures d <= Past(d, rs, k) <= d + Inside(rs, m)
    decreases k - m
  {
    if m < k {
      PastIsInside(d, rs, k, m + 1);
      PrefixOfLonger(Past(d, rs, k), d, Inside(rs, m + 1), Content(rs[m]));
    } else {
      ReportedIsHeld(d, Inside(rs, k + 1), rs[k].slot, Reported(rs[k].hand), Held(rs[k].hand));
    }
  }

  lemma PrefixOfLonger(a: seq<Event>, d: seq<Event>, b: seq<Event>, c: seq<Event>)
    requires a <= d + b
    ensures a <= d + (b + c)
  {
    assert d + (b + c) == (d + b) + c;
  }

  lemma ReportedIsHeld(d: seq<Event>, tail: seq<Event>, slot: seq<Event>, reported: seq<Event>, held: seq<Event>)
    requires reported <= held
    ensures d <= d + tail + (slot + reported) <= d + (tail + (slot + held))
  {
    assert d + (tail + (slot + held)) == d + tail + (slot + reported) + held[|reported|..];
  }

  /**
   Every event the pump received had first been reported by every tee of the chain: the notes of tee k
   are those of its role on some stretch of the stream, in order, that reaches at least as far as the pump.
   */
  lemma ReportedBeforeDelivery(roles: seq<Role>, ss: seq<State>, steps: seq<Step>, i: nat, k: nat)
    requires Run(roles, ss, steps) && i < |ss| && k < |roles|
    ensures |ss[i].relays| == |roles| && ss[i].relays[k].role == roles[k]
    ensures var r := ss[i].relays[k];
            && ss[i].delivered <= r.seen <= ss[i].source
            && r.notes == NotesOf(roles[k], r.seen)
            && NotesOf(roles[k], ss[i].delivered) <= r.notes <= NotesOf(roles[k], ss[i].source)
  {
    ReachableInv(roles, ss, steps, i);
    var s, r := ss[i], ss[i].relays[k];
    assert SeenOk(s.delivered, s.relays, k);
    PastIsInside(s.delivered, s.relays, k, 0);
    assert RelayOk(r, s.cancelled);
    assert r.seen <= s.source;
    NotesOfPrefix(r.role, s.delivered, r.seen);
    NotesOfPrefix(r.role, r.seen, s.source);
  }

  /** In production: what the pump received was counted by the metric tee and audited, where due, before that. */
  lemma CountedAndAuditedFirst(ss: seq<State>, steps: seq<Step>, i: nat)
    requires Run([MetricTee, AuditTee], ss, steps) && i < |ss|
    ensures |ss[i].relays| == 2
    ensures NotesOf(MetricTee, ss[i].delivered) <= ss[i].relays[0].notes <= NotesOf(MetricTee, ss[i].source)
    ensures NotesOf(AuditTee, ss[i].delivered) <= ss[i].relays[1].notes <= NotesOf(AuditTee, ss[i].source)
  {
    ReportedBeforeDelivery([MetricTee, AuditTee], ss, steps, i, 0);
    ReportedBeforeDelivery([MetricTee, AuditTee], ss, steps, i, 1);
  }

  /**
   In production, over every run: each ban and each disconnect that reached the pump has by then exactly one
   audit row, with its own tenant, statuses and reason, in the order of the stream; no other event has one;
   and each status event has been counted once, under the status it leads to.
   */
  lemma EndsAreAudited(ss: seq<State>, steps: seq<Step>, i: nat) returns (counted: seq<nat>, audited: seq<nat>)
    requires Run([MetricTee, AuditTee], ss, steps) && i < |ss|
    ensures |ss[i].relays| == 2
    ensures ss[i].delivered <= ss[i].relays[0].seen <= ss[i].source && ss[i].delivered <= ss[i].relays[1].seen <= ss[i].source
    ensures Told(ss[i].relays[0].notes, counted, ss[i].relays[0].seen, ChangesStatus, TellsStatus)
    ensures Told(ss[i].relays[1].notes, audited, ss[i].relays[1].seen, EndsSession, TellsEnd)
  {
    ReportedBeforeDelivery([MetricTee, AuditTee], ss, steps, i, 0);
    ReportedBeforeDelivery([MetricTee, AuditTee], ss, steps, i, 1);
    counted := CountsSpelledOut(ss[i].relays[0].seen);
    audited := AuditsSpelledOut(ss[i].relays[1].seen);
  }

  /** Over every run and chain: one message per inbound event that reached the pump, with its own fields, in order. */
  lemma InboundIsHandedOn(roles: seq<Role>, ss: seq<State>, steps: seq<Step>, i: nat) returns (at: seq<nat>)
    requires Run(roles, ss, steps) && i < |ss|
    ensures Told(ss[i].handed, at, ss[i].delivered, BringsMessage, Carries)
  {
    ReachableInv(roles, ss, steps, i);
    at := MessagesSpelledOut(ss[i].delivered);
  }

  /** Over every run and chain: the last event of a tenant that reached the pump settles its pending code. */
  lemma CodeIsSettled(roles: seq<Role>, ss: seq<State>, steps: seq<Step>, i: nat, t: Tenant, k: nat)
    requires Run(roles, ss, steps) && i < |ss|
    requires k < |ss[i].delivered| && ss[i].delivered[k].tenant == t && forall j :: k < j < |ss[i].delivered| ==> ss[i].delivered[j].tenant != t
    ensures var ev := ss[i].delivered[k];
            && (ev.kind == KindQr && ev.qr.Some? && ev.qr.value.code != "" ==> t in ss[i].codes && ss[i].codes[t] == ev.qr.value)
            && (StatusTo(ev, "connected") || StatusTo(ev, "banned") ==> t !in ss[i].codes)
  {
    ReachableInv(roles, ss, steps, i);
    PairingSpelledOut(map[], ss[i].delivered, t, k);
  }

  predicate Emits(step: Step) {
    step.Emit?
  }

  predicate EmittedBy(ev: Event, step: Step) {
    step == Emit(ev)
  }

  /** Over every run and chain: the source is exactly what the Manager emitted, in order. */
  lemma {:induction false} SourceIsEmitted(roles: seq<Role>, ss: seq<State>, steps: seq<Step>, i: nat) returns (at: seq<nat>)
    requires Run(roles, ss, steps) && i < |ss|
    ensures Told(ss[i].source, at, steps[..i], Emits, EmittedBy)
    decreases i
  {
    at := [];
    if i > 0 {
      at := SourceIsEmitted(roles, ss, steps, i - 1);
      var before, step := ss[i - 1].source, steps[i - 1];
      assert steps[..i][..i - 1] == steps[..i - 1] && ss[i] == Do(ss[i - 1], step);
      ToldOneMore(before, at, steps[..i], Emits, EmittedBy, if step.Emit? then step.ev else Event(KindOther, "", None, None, None));
      if step.Emit? {
        at := at + [i - 1];
      }
    }
  }

  /** The Manager can always emit, and the context can be cancelled at any time; it is cancelled by that and nothing else. */
  lemma {:induction false} CancelledExactly(roles: seq<Role>, ss: seq<State>, steps: seq<Step>, i: nat, ev: Event)
    requires Run(roles, ss, steps) && i < |ss|
    ensures Enabled(ss[i], Emit(ev)) && Enabled(ss[i], Cancel)
    ensures ss[i].cancelled <==> Cancel in steps[..i]
    decreases i
  {
    if i > 0 {
      CancelledExactly(roles, ss, steps, i - 1, ev);
      assert ss[i] == Do(ss[i - 1], steps[i - 1]);
      assert steps[..i] == steps[..i - 1] + [steps[i - 1]];
    }
  }

  /** Warnings come from failed audit writes only. */
  lemma {:induction false} NoFailureNoWarning(roles: seq<Role>, ss: seq<State>, steps: seq<Step>, i: nat)
    requires Run(roles, ss, steps) && i < |ss|
    requires forall j :: 0 <= j < i && steps[j].Report? ==> !steps[j].failed
    ensures ss[i].warnings == 0
    decreases i
  {
    if i > 0 {
      NoFailureNoWarning(roles, ss, steps, i - 1);
      assert ss[i] == Do(ss[i - 1], steps[i - 1]);
    }
  }

  /** A failed audit write raises the warning count by one, exactly if there was something to audit. */
  lemma WarnedExactly(s: State, i: nat, failed: bool)
    requires Enabled(s, Report(i, failed))
    ensures Do(s, Report(i, failed)).warnings == s.warnings + if failed && EndsSession(s.relays[i].hand.ev) then 1 else 0
  {
  }

  /** With or without tees, the same stream: two chains fed alike deliver one a prefix of the other. */
  lemma TeesAreTransparent(roles: seq<Role>, ss: seq<State>, steps: seq<Step>, i: nat,
                           roles': seq<Role>, ss': seq<State>, steps': seq<Step>, i': nat)
    requires Run(roles, ss, steps) && i < |ss| && Run(roles', ss', steps') && i' < |ss'|
    requires ss[i].source == ss'[i'].source
    ensures ss[i].delivered <= ss'[i'].delivered || ss'[i'].delivered <= ss[i].delivered
    ensures |ss[i].delivered| - |ss'[i'].delivered| <= 2 * |roles'| + |ss'[i'].unread|
  {
    DeliveredInOrder(roles, ss, steps, i);
    DeliveredInOrder(roles', ss', steps', i');
  }

  /** Steps that agree except on whether an audit write failed. */
  predicate SameButFailures(a: Step, b: Step) {
    a == b || (a.Report? && b.Report? && a.i == b.i)
  }

  lemma FailureIsInvisible(s: State, s': State, a: Step, b: Step)
    requires s == s'.(warnings := s.warnings) && SameButFailures(a, b) && Enabled(s, a) && Enabled(s', b)
    ensures Do(s, a) == Do(s', b).(warnings := Do(s, a).warnings)
  {
  }

  /** Failing audit writes only raise the warning count: nothing else of the pipeline can tell. */
  lemma {:induction false} AuditFailuresAreInvisible(roles: seq<Role>, ss: seq<State>, steps: seq<Step>,
                                                     ss': seq<State>, steps': seq<Step>, i: nat)
    requires Run(roles, ss, steps) && Run(roles, ss', steps') && |steps| == |steps'| && i < |ss|
    requires forall j :: 0 <= j < |steps| ==> SameButFailures(steps[j], steps'[j])
    ensures ss[i] == ss'[i].(warnings := ss[i].warnings)
    decreases i
  {
    if i > 0 {
      AuditFailuresAreInvisible(roles, ss, steps, ss', steps', i - 1);
      FailureIsInvisible(ss[i - 1], ss'[i - 1], steps[i - 1], steps'[i - 1]);
    }
  }

  // ----- nothing gets stuck

  /** How many goroutine moves separate an event at each place from the pump, `d` relays to go. */
  function Moves(r: Relay, d: nat): nat {
    (if r.slot == [] then 0 else 3 * d + 1) +
    (match r.hand
     case Got(_) => 3 * d + 3
     case Ready(_) => 3 * d + 2
     case _ => 0)
  }

  function MovesFrom(rs: seq<Relay>, k: nat): nat
    decreases |rs| - k
  {
    if k >= |rs| then 0 else MovesFrom(rs, k + 1) + Moves(rs[k], |rs| - 1 - k)
  }

  function UnreadMoves(unread: nat, n: nat): nat {
    if unread == 0 then 0 else UnreadMoves(unread - 1, n) + 3 * n + 1
  }

  /** The moves left until every emitted event has reached the pump. */
  function Rank(s: State): nat {
    UnreadMoves(|s.unread|, |s.relays|) + MovesFrom(s.relays, 0)
  }

  predicate Internal(step: Step) {
    step.Receive? || step.Report? || step.Forward? || step.PumpReceive?
  }

  lemma {:induction false} MovesUpdate(rs: seq<Relay>, i: nat, r: Relay, k: nat)
    requires k <= i < |rs|
    ensures MovesFrom(rs[i := r], k) == MovesFrom(rs, k) - Moves(rs[i], |rs| - 1 - i) + Moves(r, |rs| - 1 - i)
    decreases i - k
  {
    if k < i {
      MovesUpdate(rs, i, r, k + 1);
    } else {
      MovesAfter(rs, i, r, k + 1);
    }
  }

  lemma {:induction false} MovesAfter(rs: seq<Relay>, i: nat, r: Relay, k: nat)
    requires i < k && i < |rs|
    ensures MovesFrom(rs[i := r], k) == MovesFrom(rs, k)
    decreases |rs| - k
  {
    if k < |rs| {
      MovesAfter(rs, i, r, k + 1);
    }
  }

  lemma ReceiveLowersRank(s: State, i: nat)
    requires Enabled(s, Receive(i)) && (i > 0 ==> |s.relays[i - 1].slot| <= 1)
    ensures Rank(Do(s, Receive(i))) == Rank(s) - 1
  {
    var rs, rs' := s.relays, Do(s, Receive(i)).relays;
    if i == 0 {
      MovesUpdate(rs, 0, rs'[0], 0);
      assert rs' == rs[0 := rs'[0]];
    } else {
      var mid := rs[i - 1 := rs'[i - 1]];
      MovesUpdate(rs, i - 1, rs'[i - 1], 0);
      MovesUpdate(mid, i, rs'[i], 0);
      assert rs' == mid[i := rs'[i]];
    }
  }

  lemma PumpLowersRank(s: State)
    requires Enabled(s, PumpReceive) && (s.relays != [] ==> |s.relays[|s.relays| - 1].slot| <= 1)
    ensures Rank(Do(s, PumpReceive)) == Rank(s) - 1
  {
    var n := |s.relays|;
    if n > 0 {
      MovesUpdate(s.relays, n - 1, Do(s, PumpReceive).relays[n - 1], 0);
    }
  }

  /** Every goroutine move brings some event exactly one move closer. */
  lemma MoveLowersRank(s: State, step: Step)
    requires AllRelaysOk(s.relays, s.cancelled) && Enabled(s, step) && Internal(step)
    ensures Rank(Do(s, step)) == Rank(s) - 1
  {
    match step
    case Report(i, _) => MovesUpdate(s.relays, i, Do(s, step).relays[i], 0);
    case Forward(i) => MovesUpdate(s.relays, i, Do(s, step).relays[i], 0);
    case Receive(i) =>
      assert i > 0 ==> RelayOk(s.relays[i - 1], s.cancelled);
      ReceiveLowersRank(s, i);
    case PumpReceive =>
      assert s.relays != [] ==> RelayOk(s.relays[|s.relays| - 1], s.cancelled);
      PumpLowersRank(s);
  }

  lemma {:induction false} EmptyIfNoMoves(rs: seq<Relay>, k: nat)
    requires forall j :: k <= j < |rs| ==> rs[j].slot == [] && rs[j].hand.Idle?
    ensures Inside(rs, k) == []
    decreases |rs| - k
  {
    if k < |rs| {
      EmptyIfNoMoves(rs, k + 1);
    }
  }

  /** Before shutdown, the goroutine nearest the pump that has something to do can do it. */
  lemma {:induction false} NearestCanMove(s: State, k: nat) returns (step: Step)
    requires AllRelaysOk(s.relays, s.cancelled) && !s.cancelled && !s.pumpStopped && k <= |s.relays|
    requires forall j :: k <= j < |s.relays| ==> s.relays[j].slot == [] && s.relays[j].hand.Idle?
    requires s.unread == [] ==> Inside(s.relays, 0) != []
    ensures Internal(step) && Enabled(s, step)
    decreases k
  {
    if k == 0 {
      EmptyIfNoMoves(s.relays, 0);
      step := if |s.relays| == 0 then PumpReceive else Receive(0);
    } else {
      var r := s.relays[k - 1];
      assert RelayOk(r, s.cancelled);
      if r.slot != [] {
        step := if k == |s.relays| then PumpReceive else Receive(k);
      } else if r.hand.Got? {
        step := Report(k - 1, false);
      } else if r.hand.Ready? {
        step := Forward(k - 1);
      } else {
        step := NearestCanMove(s, k - 1);
      }
    }
  }

  /** Before shutdown, if some event has not arrived, some goroutine can move. */
  lemma SomeoneCanMove(s: State) returns (step: Step)
    requires Inv(s) && !s.cancelled && s.delivered != s.source
    ensures Internal(step) && Enabled(s, step)
  {
    assert s.unread == [] && Inside(s.relays, 0) == [] ==> s.source == s.delivered;
    step := NearestCanMove(s, |s.relays|);
  }

  /**
   Before shutdown nothing is lost and nothing is stuck: a run in which only the goroutines move is at
   most `Rank` steps long, and where none of them can move any more the pump has received everything.
   */
  lemma {:induction false} EverythingArrives(s: State, ss: seq<State>, steps: seq<Step>)
    requires Inv(s) && !s.cancelled
    requires |ss| == |steps| + 1 && ss[0] == s
    requires forall i :: 0 <= i < |steps| ==> Internal(steps[i]) && Enabled(ss[i], steps[i]) && ss[i + 1] == Do(ss[i], steps[i])
    ensures |steps| <= Rank(s)
    ensures (forall step :: Internal(step) ==> !Enabled(ss[|steps|], step)) ==> ss[|steps|].delivered == s.source
    decreases |steps|
  {
    if steps == [] {
      if s.delivered != s.source {
        var step := SomeoneCanMove(s);
      }
    } else {
      StepKeepsInv(s, steps[0]);
      MoveLowersRank(s, steps[0]);
      assert ss[1] == Do(s, steps[0]);
      EverythingArrives(ss[1], ss[1..], steps[1..]);
    }
  }

  // ----- shutdown

  /** The goroutines still running. */
  function Running(rs: seq<Relay>, k: nat): nat
    decreases |rs| - k
  {
    if k >= |rs| then 0 else Running(rs, k + 1) + (if rs[k].hand.Exited? then 0 else 1)
  }

  function Goroutines(s: State): nat {
    Running(s.relays, 0) + (if s.pumpStopped then 0 else 1)
  }

  /** A step of the goroutines themselves, whichever way their selects go. */
  predicate OfGoroutine(step: Step) {
    Internal(step) || step.Quit? || step.PumpQuit?
  }

  lemma {:induction false} RunningSame(rs: seq<Relay>, rs': seq<Relay>, k: nat)
    requires |rs| == |rs'| && forall j :: k <= j < |rs| ==> rs[j].hand.Exited? == rs'[j].hand.Exited?
    ensures Running(rs, k) == Running(rs', k)
    decreases |rs| - k
  {
    if k < |rs| {
      RunningSame(rs, rs', k + 1);
    }
  }

  lemma {:induction false} OneLessRunning(rs: seq<Relay>, i: nat, r: Relay, k: nat)
    requires k <= i < |rs| && !rs[i].hand.Exited? && r.hand.Exited?
    ensures Running(rs[i := r], k) == Running(rs, k) - 1
    decreases i - k
  {
    if k < i {
      OneLessRunning(rs, i, r, k + 1);
    } else {
      RunningSame(rs, rs[i := r], k + 1);
    }
  }

  lemma QuitLowers(s: State, i: nat)
    requires AllRelaysOk(s.relays, s.cancelled) && Enabled(s, Quit(i))
    ensures Rank(Do(s, Quit(i))) <= Rank(s) && Goroutines(Do(s, Quit(i))) == Goroutines(s) - 1
  {
    var r := Do(s, Quit(i)).relays[i];
    MovesUpdate(s.relays, i, r, 0);
    OneLessRunning(s.relays, i, r, 0);
  }

  lemma InternalKeepsRunning(s: State, step: Step)
    requires Enabled(s, step) && Internal(step)
    ensures Goroutines(Do(s, step)) == Goroutines(s)
  {
    RunningSame(s.relays, Do(s, step).relays, 0);
  }

  lemma GoroutineStepLowers(s: State, step: Step)
    requires Inv(s) && Enabled(s, step) && OfGoroutine(step)
    ensures Rank(Do(s, step)) + Goroutines(Do(s, step)) < Rank(s) + Goroutines(s)
  {
    match step
    case Quit(i) => QuitLowers(s, i);
    case PumpQuit =>
    case _ =>
      MoveLowersRank(s, step);
      InternalKeepsRunning(s, step);
  }

  /** After cancellation each goroutine still running can report what it holds or leave. */
  lemma CanReportOrLeave(s: State, k: nat)
    requires Inv(s) && s.cancelled
    ensures k < |s.relays| && !s.relays[k].hand.Exited? ==> Enabled(s, Quit(k)) || Enabled(s, Report(k, false))
    ensures !s.pumpStopped ==> Enabled(s, PumpQuit)
  {
    if k < |s.relays| {
      assert RelayOk(s.relays[k], s.cancelled);
    }
  }

  /**
   No goroutine leaks: after cancellation, whichever way the selects go, the goroutines take at most
   `Rank + Goroutines` steps, and where none of them can take another every relay has exited and the pump
   has stopped.
   */
  lemma {:induction false} ShutdownCompletes(s: State, ss: seq<State>, steps: seq<Step>)
    requires Inv(s) && s.cancelled
    requires |ss| == |steps| + 1 && ss[0] == s
    requires forall i :: 0 <= i < |steps| ==> OfGoroutine(steps[i]) && Enabled(ss[i], steps[i]) && ss[i + 1] == Do(ss[i], steps[i])
    ensures |steps| <= Rank(s) + Goroutines(s)
    ensures (forall step :: OfGoroutine(step) ==> !Enabled(ss[|steps|], step)) ==>
              ss[|steps|].pumpStopped && forall k :: 0 <= k < |ss[|steps|].relays| ==> ss[|steps|].relays[k].hand.Exited?
    decreases |steps|
  {
    if steps == [] {
      if forall step :: OfGoroutine(step) ==> !Enabled(s, step) {
        CanReportOrLeave(s, 0);
        assert OfGoroutine(PumpQuit);
        forall k | 0 <= k < |s.relays| ensures s.relays[k].hand.Exited? {
          CanReportOrLeave(s, k);
          assert OfGoroutine(Quit(k)) && OfGoroutine(Report(k, false));
        }
      }
    } else {
      StepKeepsInv(s, steps[0]);
      GoroutineStepLowers(s, steps[0]);
      assert ss[1] == Do(s, steps[0]);
      ShutdownCompletes(ss[1], ss[1..], steps[1..]);
    }
  }
}
