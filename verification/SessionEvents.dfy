/** The WhatsApp session event union and what each consumer makes of it (internal/wasession). */
module SessionEvents {
  import opened Options
  import opened Picking

  type Tenant = string
  type Instant = int

  const CONNECTED := "connected"
  const DISCONNECTED := "disconnected"
  const BANNED := "banned"

  datatype Kind = KindInbound | KindStatus | KindQr | KindOther

  datatype InboundMessage = InboundMessage(
    externalId: string, sender: string, senderName: string, body: string,
    occurredAt: Instant, hasMedia: bool, fromMe: bool)

  datatype StatusChange = StatusChange(from: string, to: string, reason: string)

  /** `expiresAt == 0` is the zero time: a code that does not expire. */
  datatype QrCode = QrCode(code: string, expiresAt: Instant)

  /** The tagged struct of the source: a nil payload is None, whatever the tag says. */
  datatype Event = Event(
    kind: Kind, tenant: Tenant,
    inbound: Option<InboundMessage>, status: Option<StatusChange>, qr: Option<QrCode>)

  datatype SessionMessage = SessionMessage(
    tenant: Tenant, messageId: string, senderPhone: string, senderName: string, body: string,
    timestamp: Instant, hasMedia: bool, fromMe: bool)

  /** The two tees between the Manager and the pump. */
  datatype Role = MetricTee | AuditTee

  datatype Note =
    | Counted(to: string)
    | Audited(tenant: Tenant, event: string, from: string, to: string, reason: string)

  /** `waTerminalAuditEvent`. */
  function TerminalAuditEvent(to: string): Option<string> {
    if to == BANNED then Some("wa_session.banned")
    else if to == DISCONNECTED then Some("wa_session.disconnected")
    else None
  }

  /** What a tee reports about one event: at most one note. */
  function NotesOn(role: Role, ev: Event): (notes: seq<Note>)
    ensures |notes| <= 1
  {
    if ev.kind != KindStatus || ev.status.None? then []
    else
      var sc := ev.status.value;
      match role
      case MetricTee => [Counted(sc.to)]
      case AuditTee =>
        match TerminalAuditEvent(sc.to)
        case Some(evt) => [Audited(ev.tenant, evt, sc.from, sc.to, sc.reason)]
        case None => []
  }

  function NotesOf(role: Role, evs: seq<Event>): seq<Note> {
    if evs == [] then [] else NotesOf(role, evs[..|evs| - 1]) + NotesOn(role, evs[|evs| - 1])
  }

  lemma NotesOfAppend(role: Role, evs: seq<Event>, ev: Event)
    ensures NotesOf(role, evs + [ev]) == NotesOf(role, evs) + NotesOn(role, ev)
  {
    assert (evs + [ev])[..|evs|] == evs;
  }

  // ----- the pump's two effects

  /** The message the pump hands to the inbox adapter for an event, if any. */
  function MessagesOn(ev: Event): (msgs: seq<SessionMessage>)
    ensures |msgs| <= 1
  {
    if ev.kind != KindInbound || ev.inbound.None? then []
    else
      var m := ev.inbound.value;
      [SessionMessage(ev.tenant, m.externalId, m.sender, m.senderName, m.body, m.occurredAt, m.hasMedia, m.fromMe)]
  }

  function MessagesOf(evs: seq<Event>): seq<SessionMessage> {
    if evs == [] then [] else MessagesOf(evs[..|evs| - 1]) + MessagesOn(evs[|evs| - 1])
  }

  predicate OffersCode(ev: Event) {
    ev.kind == KindQr && ev.qr.Some? && ev.qr.value.code != ""
  }

  predicate EndsPairing(ev: Event) {
    ev.kind == KindStatus && ev.status.Some? && ev.status.value.to in {CONNECTED, BANNED}
  }

  /** The pending pairing codes after one more event. */
  function CodesAfterOne(codes: map<Tenant, QrCode>, ev: Event): map<Tenant, QrCode> {
    if OffersCode(ev) then codes[ev.tenant := ev.qr.value]
    else if EndsPairing(ev) then codes - {ev.tenant}
    else codes
  }

  function CodesAfter(start: map<Tenant, QrCode>, evs: seq<Event>): map<Tenant, QrCode> {
    if evs == [] then start else CodesAfterOne(CodesAfter(start, evs[..|evs| - 1]), evs[|evs| - 1])
  }

  /** Index `i` is the last event that matters for the tenant's pairing code. */
  predicate LastWord(evs: seq<Event>, t: Tenant, i: int) {
    && 0 <= i < |evs| && evs[i].tenant == t && (OffersCode(evs[i]) || EndsPairing(evs[i]))
    && forall j :: i < j < |evs| && evs[j].tenant == t ==> !OffersCode(evs[j]) && !EndsPairing(evs[j])
  }

  /**
   When some event of the tenant concerns pairing, the tenant has a pending code exactly if the last
   such event offers one, and it is that very code; otherwise nothing changed. Events of other
   tenants play no part.
   */
  lemma {:induction false} PendingCodeIsLastWord(start: map<Tenant, QrCode>, evs: seq<Event>, t: Tenant)
    ensures forall i :: LastWord(evs, t, i) ==> (t in CodesAfter(start, evs) <==> OffersCode(evs[i]))
    ensures forall i :: LastWord(evs, t, i) && OffersCode(evs[i]) ==> CodesAfter(start, evs)[t] == evs[i].qr.value
    ensures (forall i :: !LastWord(evs, t, i)) ==> (t in CodesAfter(start, evs) <==> t in start)
    ensures (forall i :: !LastWord(evs, t, i)) && t in start ==> CodesAfter(start, evs)[t] == start[t]
    decreases |evs|
  {
    if evs != [] {
      var n := |evs| - 1;
      var init := evs[..n];
      PendingCodeIsLastWord(start, init, t);
      if evs[n].tenant == t && (OffersCode(evs[n]) || EndsPairing(evs[n])) {
        assert LastWord(evs, t, n);
      } else {
        assert forall i :: LastWord(evs, t, i) <==> LastWord(init, t, i);
      }
    }
  }

  // ----- what the consumers make of a stream, spelled out

  predicate ChangesStatus(ev: Event) {
    ev.kind == KindStatus && ev.status.Some?
  }

  predicate BringsMessage(ev: Event) {
    ev.kind == KindInbound && ev.inbound.Some?
  }

  predicate StatusTo(ev: Event, to: string) {
    ev.kind == KindStatus && ev.status.Some? && ev.status.value.to == to
  }

  predicate TellsStatus(note: Note, ev: Event) {
    ev.status.Some? && note == Counted(ev.status.value.to)
  }

  /** The metric tee counts every status event, under the status it leads to. */
  lemma {:induction false} CountsSpelledOut(evs: seq<Event>) returns (at: seq<nat>)
    ensures Told(NotesOf(MetricTee, evs), at, evs, ChangesStatus, TellsStatus)
    decreases |evs|
  {
    at := [];
    if evs != [] {
      var n := |evs| - 1;
      at := CountsSpelledOut(evs[..n]);
      var before := NotesOf(MetricTee, evs[..n]);
      if ChangesStatus(evs[n]) {
        ToldOneMore(before, at, evs, ChangesStatus, TellsStatus, NotesOn(MetricTee, evs[n])[0]);
        at := at + [n];
      } else {
        ToldOneMore(before, at, evs, ChangesStatus, TellsStatus, Counted(""));
      }
    }
  }

  predicate EndsSession(ev: Event) {
    StatusTo(ev, "banned") || StatusTo(ev, "disconnected")
  }

  /** The row the audit tee writes about the end of a session: all of it the event's own. */
  predicate TellsEnd(note: Note, ev: Event) {
    && ev.status.Some?
    && note == Audited(ev.tenant, if ev.status.value.to == "banned" then "wa_session.banned" else "wa_session.disconnected",
                       ev.status.value.from, ev.status.value.to, ev.status.value.reason)
  }

  /** The audit tee writes one row about every ban and every disconnect, and none about anything else. */
  lemma {:induction false} AuditsSpelledOut(evs: seq<Event>) returns (at: seq<nat>)
    ensures Told(NotesOf(AuditTee, evs), at, evs, EndsSession, TellsEnd)
    decreases |evs|
  {
    at := [];
    if evs != [] {
      var n := |evs| - 1;
      at := AuditsSpelledOut(evs[..n]);
      var before := NotesOf(AuditTee, evs[..n]);
      if EndsSession(evs[n]) {
        ToldOneMore(before, at, evs, EndsSession, TellsEnd, NotesOn(AuditTee, evs[n])[0]);
        at := at + [n];
      } else {
        ToldOneMore(before, at, evs, EndsSession, TellsEnd, Counted(""));
      }
    }
  }

  /** The message handed on for an inbound event: every field the event's own. */
  predicate Carries(m: SessionMessage, ev: Event) {
    && ev.inbound.Some? && m.tenant == ev.tenant && m.messageId == ev.inbound.value.externalId
    && m.senderPhone == ev.inbound.value.sender && m.senderName == ev.inbound.value.senderName && m.body == ev.inbound.value.body
    && m.timestamp == ev.inbound.value.occurredAt && m.hasMedia == ev.inbound.value.hasMedia && m.fromMe == ev.inbound.value.fromMe
  }

  /** The pump hands on one message per inbound event, and nothing else. */
  lemma {:induction false} MessagesSpelledOut(evs: seq<Event>) returns (at: seq<nat>)
    ensures Told(MessagesOf(evs), at, evs, BringsMessage, Carries)
    decreases |evs|
  {
    at := [];
    if evs != [] {
      var n := |evs| - 1;
      at := MessagesSpelledOut(evs[..n]);
      var before := MessagesOf(evs[..n]);
      if BringsMessage(evs[n]) {
        ToldOneMore(before, at, evs, BringsMessage, Carries, MessagesOn(evs[n])[0]);
        at := at + [n];
      } else {
        ToldOneMore(before, at, evs, BringsMessage, Carries, SessionMessage("", "", "", "", "", 0, false, false));
      }
    }
  }

  /**
   The last event of a tenant settles its code: a non-empty code is pending, "connected" and "banned" leave
   none pending, and any other event leaves what was pending.
   */
  lemma {:induction false} PairingSpelledOut(start: map<Tenant, QrCode>, evs: seq<Event>, t: Tenant, i: nat)
    requires i < |evs| && evs[i].tenant == t && forall j :: i < j < |evs| ==> evs[j].tenant != t
    ensures var before, after := CodesAfter(start, evs[..i]), CodesAfter(start, evs);
            if evs[i].kind == KindQr && evs[i].qr.Some? && evs[i].qr.value.code != "" then t in after && after[t] == evs[i].qr.value
            else if StatusTo(evs[i], "connected") || StatusTo(evs[i], "banned") then t !in after
            else (t in after <==> t in before) && (t in before ==> after[t] == before[t])
    decreases |evs|
  {
    var n := |evs| - 1;
    if i < n {
      assert evs[..n][..i] == evs[..i];
      PairingSpelledOut(start, evs[..n], t, i);
    }
  }

  /** The QR cache object: the pump writes it, the provisioning page reads it. */
  class QrCache {
    var codes: map<Tenant, QrCode>

    constructor ()
      ensures codes == map[]
    {
      codes := map[];
    }

    method Put(t: Tenant, qr: QrCode)
      modifies this
      ensures codes == if qr.code == "" then old(codes) else old(codes)[t := qr]
    {
      if qr.code == "" { return; }
      codes := codes[t := qr];
    }

    method Clear(t: Tenant)
      modifies this
      ensures codes == old(codes) - {t}
    {
      codes := codes - {t};
    }

    /** An expired code is never served, and is dropped on the way. */
    method Get(t: Tenant, now: Instant) returns (qr: Option<QrCode>)
      modifies this
      ensures qr.Some? <==> t in old(codes) && (old(codes)[t].expiresAt == 0 || now <= old(codes)[t].expiresAt)
      ensures qr.Some? ==> qr.value == old(codes)[t] && codes == old(codes)
      ensures qr.None? ==> codes == old(codes) - {t}
    {
      if t !in codes {
        assert codes - {t} == codes;
        return None;
      }
      var found := codes[t];
      if found.expiresAt != 0 && now > found.expiresAt {
        Clear(t);
        return None;
      }
      return Some(found);
    }
  }

  /**
   The pump over a batch of events: what is handed to the inbox adapter and what the cache holds are
   functions of the events alone (a delivery the adapter rejects is only logged).
   */
  method Pump(events: seq<Event>, cache: QrCache) returns (handed: seq<SessionMessage>)
    modifies cache
    ensures handed == MessagesOf(events)
    ensures cache.codes == CodesAfter(old(cache.codes), events)
  {
    handed := [];
    var k := 0;
    while k < |events|
      invariant 0 <= k <= |events|
      invariant handed == MessagesOf(events[..k])
      invariant cache.codes == CodesAfter(old(cache.codes), events[..k])
    {
      var ev := events[k];
      assert events[..k + 1][..k] == events[..k] && events[..k + 1][k] == ev;
      k := k + 1;
      match ev.kind
      case KindInbound =>
        if ev.inbound.None? { continue; }
        var m := ev.inbound.value;
        handed := handed + [SessionMessage(ev.tenant, m.externalId, m.sender, m.senderName, m.body,
                                           m.occurredAt, m.hasMedia, m.fromMe)];
      case KindStatus =>
        if ev.status.Some? {
          if ev.status.value.to == CONNECTED || ev.status.value.to == BANNED {
            cache.Clear(ev.tenant);
          }
        }
      case KindQr =>
        if ev.qr.Some? {
          cache.Put(ev.tenant, ev.qr.value);
        }
      case KindOther =>
    }
    assert events[..|events|] == events;
  }
}
