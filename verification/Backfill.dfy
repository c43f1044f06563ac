/**
 The contact-name backfill (cmd/backfill-contact-names/main.go) over its compare-and-set store
 (internal/adapter/db/postgres/contactbackfill/store.go). The graph fetchers answer as they please, an
 update may fail, and operators rename contacts while the tool runs: a round is one candidate together
 with what the world does around it.
 */
module Backfill {
  import opened Fates
  import opened Options
  import opened Picking
  import Text
  import opened Uuids

  datatype Contact = Contact(tenant: Id, id: Id)

  datatype Candidate = Candidate(contact: Contact, channel: string, externalId: string)

  datatype Config = Config(tenant: Id, limit: int, apply: bool, messenger: bool, instagram: bool)

  type Names = map<Contact, string>

  /** `reply` is the fetcher's answer, None for an error; `renames` happen before the update. */
  datatype Round = Round(candidate: Candidate, reply: Option<string>, renames: Names, fate: Fate)

  datatype Fetched = NoFetcher | NoAnswer | Answer(name: string)

  datatype Outcome = SkippedNoFetcher | SkippedNoName | WouldApply | Errors | SkippedChanged | Applied

  datatype Summary = Summary(
    scanned: nat, resolved: nat, applied: nat, wouldApply: nat,
    skippedNoName: nat, skippedNoFetcher: nat, skippedChanged: nat, errors: nat)

  function FetchName(cfg: Config, c: Candidate, reply: Option<string>): Fetched {
    if c.channel == "messenger" && !cfg.messenger then NoFetcher
    else if c.channel == "instagram" && !cfg.instagram then NoFetcher
    else if c.channel != "messenger" && c.channel != "instagram" then NoAnswer
    else if reply.None? then NoAnswer
    else Answer(reply.value)
  }

  predicate Resolves(cfg: Config, r: Round) {
    var f := FetchName(cfg, r.candidate, r.reply);
    f.Answer? && !Text.Blank(f.name)
  }

  // ----- what a run ought to do

  predicate Wanted(cfg: Config, r: Round) {
    cfg.tenant == NIL_ID || r.candidate.contact.tenant == cfg.tenant
  }

  function Matching(cfg: Config, rounds: seq<Round>): seq<Round> {
    if rounds == [] then []
    else
      var n := |rounds| - 1;
      Matching(cfg, rounds[..n]) + (if Wanted(cfg, rounds[n]) then [rounds[n]] else [])
  }

  /** The rounds that count: those of the wanted tenant, at most `limit` of them if that is positive. */
  function Handled(cfg: Config, rounds: seq<Round>): seq<Round> {
    var m := Matching(cfg, rounds);
    if cfg.limit > 0 && |m| > cfg.limit then m[..cfg.limit] else m
  }

  /** The compare-and-set hits: the contact exists and still carries its external id as its name. */
  predicate StillRaw(names: Names, c: Candidate) {
    c.contact in names && names[c.contact] == c.externalId
  }

  function OutcomeOf(cfg: Config, before: Names, r: Round): Outcome {
    var f := FetchName(cfg, r.candidate, r.reply);
    if f.NoFetcher? then SkippedNoFetcher
    else if !Resolves(cfg, r) then SkippedNoName
    else if !cfg.apply then WouldApply
    else if !r.fate.Fine? then Errors
    else if StillRaw(before + r.renames, r.candidate) then Applied
    else SkippedChanged
  }

  function NamesAfter(cfg: Config, before: Names, r: Round): Names {
    if Resolves(cfg, r) && cfg.apply && !r.fate.Fails? && StillRaw(before + r.renames, r.candidate)
    then (before + r.renames)[r.candidate.contact := r.reply.value]
    else before + r.renames
  }

  function Play(cfg: Config, names: Names, hs: seq<Round>): Names {
    if hs == [] then names else NamesAfter(cfg, Play(cfg, names, hs[..|hs| - 1]), hs[|hs| - 1])
  }

  function Outcomes(cfg: Config, names: Names, hs: seq<Round>): seq<Outcome> {
    if hs == [] then []
    else
      Outcomes(cfg, names, hs[..|hs| - 1])
      + [OutcomeOf(cfg, Play(cfg, names, hs[..|hs| - 1]), hs[|hs| - 1])]
  }

  function Count(os: seq<Outcome>, o: Outcome): nat {
    if os == [] then 0 else Count(os[..|os| - 1], o) + (if os[|os| - 1] == o then 1 else 0)
  }

  /** One more round ended with outcome `o`. */
  function Bump(sum: Summary, o: Outcome): Summary {
    var s := sum.(scanned := sum.scanned + 1);
    match o
    case SkippedNoFetcher => s.(skippedNoFetcher := s.skippedNoFetcher + 1)
    case SkippedNoName => s.(skippedNoName := s.skippedNoName + 1)
    case WouldApply => s.(resolved := s.resolved + 1, wouldApply := s.wouldApply + 1)
    case Errors => s.(resolved := s.resolved + 1, errors := s.errors + 1)
    case SkippedChanged => s.(resolved := s.resolved + 1, skippedChanged := s.skippedChanged + 1)
    case Applied => s.(resolved := s.resolved + 1, applied := s.applied + 1)
  }

  const ZERO := Summary(0, 0, 0, 0, 0, 0, 0, 0)

  function Tally(os: seq<Outcome>): Summary {
    if os == [] then ZERO else Bump(Tally(os[..|os| - 1]), os[|os| - 1])
  }

  // ----- the program

  class Store {
    var names: Names

    /** The operators' part of a round. */
    method Rename(renames: Names)
      modifies this
      ensures names == old(names) + renames
    {
      names := names + renames;
    }

    /** None is an error, which may come after the update has taken effect; otherwise whether a row changed. */
    method UpdateDisplayName(c: Candidate, newName: string, fate: Fate) returns (updated: Option<bool>)
      modifies this
      ensures updated == if fate.Fine? then Some(StillRaw(old(names), c)) else None
      ensures names == if !fate.Fails? && StillRaw(old(names), c) then old(names)[c.contact := newName] else old(names)
    {
      if fate.Fails? {
        return None;
      }
      updated := Some(false);
      if c.contact in names && names[c.contact] == c.externalId {
        names := names[c.contact := newName];
        updated := Some(true);
      }
      if fate.Lands? {
        return None;
      }
    }
  }

  method Handle(cfg: Config, store: Store, r: Round, sum: Summary) returns (sum': Summary)
    modifies store
    ensures sum' == Bump(sum, OutcomeOf(cfg, old(store.names), r))
    ensures store.names == NamesAfter(cfg, old(store.names), r)
  {
    sum' := sum.(scanned := sum.scanned + 1);
    store.Rename(r.renames);
    var f := FetchName(cfg, r.candidate, r.reply);
    if !f.Answer? || Text.TrimSpace(f.name) == "" {
      if f.NoFetcher? {
        sum' := sum'.(skippedNoFetcher := sum'.skippedNoFetcher + 1);
      } else {
        sum' := sum'.(skippedNoName := sum'.skippedNoName + 1);
      }
      return;
    }
    sum' := sum'.(resolved := sum'.resolved + 1);
    if !cfg.apply {
      sum' := sum'.(wouldApply := sum'.wouldApply + 1);
      return;
    }
    var updated := store.UpdateDisplayName(r.candidate, f.name, r.fate);
    match updated {
      case None => sum' := sum'.(errors := sum'.errors + 1);
      case Some(true) => sum' := sum'.(applied := sum'.applied + 1);
      case Some(false) => sum' := sum'.(skippedChanged := sum'.skippedChanged + 1);
    }
  }

  /** Where the loop stands after handling the rounds `hs`. */
  ghost predicate After(cfg: Config, names: Names, hs: seq<Round>, sum: Summary, now: Names) {
    sum.scanned == |hs| && sum == Tally(Outcomes(cfg, names, hs)) && now == Play(cfg, names, hs)
  }

  lemma OneMore(cfg: Config, names: Names, hs: seq<Round>, r: Round, sum: Summary, now: Names)
    requires After(cfg, names, hs, sum, now)
    ensures After(cfg, names, hs + [r], Bump(sum, OutcomeOf(cfg, now, r)), NamesAfter(cfg, now, r))
  {
    assert (hs + [r])[..|hs|] == hs;
    var os, o := Outcomes(cfg, names, hs), OutcomeOf(cfg, now, r);
    assert (os + [o])[..|os|] == os;
  }

  /** `listed` is None when listing the candidates fails. */
  method RunWith(cfg: Config, store: Store, listed: Option<seq<Round>>) returns (sum: Summary, failed: bool)
    modifies store
    ensures failed == listed.None?
    ensures failed ==> sum == ZERO && store.names == old(store.names)
    ensures !failed ==> sum == Tally(Outcomes(cfg, old(store.names), Handled(cfg, listed.value)))
    ensures !failed ==> store.names == Play(cfg, old(store.names), Handled(cfg, listed.value))
  {
    sum, failed := ZERO, listed.None?;
    if failed {
      return;
    }
    var rounds := listed.value;
    ghost var names := store.names;
    for k := 0 to |rounds|
      invariant After(cfg, names, Matching(cfg, rounds[..k]), sum, store.names)
      invariant cfg.limit > 0 ==> sum.scanned <= cfg.limit
    {
      MatchingStep(cfg, rounds, k);
      if cfg.tenant != NIL_ID && rounds[k].candidate.contact.tenant != cfg.tenant {
        continue;
      }
      if cfg.limit > 0 && sum.scanned >= cfg.limit {
        MatchingPrefix(cfg, rounds, k);
        return;
      }
      OneMore(cfg, names, Matching(cfg, rounds[..k]), rounds[k], sum, store.names);
      sum := Handle(cfg, store, rounds[k], sum);
    }
    assert rounds[..|rounds|] == rounds;
  }

  lemma MatchingStep(cfg: Config, rounds: seq<Round>, k: nat)
    requires k < |rounds|
    ensures Matching(cfg, rounds[..k + 1]) ==
            if Wanted(cfg, rounds[k]) then Matching(cfg, rounds[..k]) + [rounds[k]] else Matching(cfg, rounds[..k])
  {
    assert rounds[..k + 1][..k] == rounds[..k];
  }

  lemma {:induction false} MatchingPrefix(cfg: Config, rounds: seq<Round>, k: nat)
    requires k <= |rounds|
    ensures var m := Matching(cfg, rounds[..k]);
            |m| <= |Matching(cfg, rounds)| && Matching(cfg, rounds)[..|m|] == m
    ensures k < |rounds| && Wanted(cfg, rounds[k]) ==> |Matching(cfg, rounds[..k])| < |Matching(cfg, rounds)|
    decreases |rounds|
  {
    var n := |rounds| - 1;
    if k == |rounds| {
      assert rounds[..k] == rounds;
    } else {
      MatchingPrefix(cfg, rounds[..n], k);
      assert rounds[..n][..k] == rounds[..k];
    }
  }

  // ----- what the design promises

  lemma {:induction false} OutcomesAre(cfg: Config, names: Names, hs: seq<Round>, i: nat)
    requires i < |hs|
    ensures |Outcomes(cfg, names, hs)| == |hs|
    ensures Outcomes(cfg, names, hs)[i] == OutcomeOf(cfg, Play(cfg, names, hs[..i]), hs[i])
    decreases |hs|
  {
    var n := |hs| - 1;
    if n > 0 {
      OutcomesAre(cfg, names, hs[..n], if i < n then i else 0);
      if i < n {
        assert hs[..n][..i] == hs[..i];
      }
    }
  }

  function Counter(sum: Summary, o: Outcome): nat {
    match o
    case SkippedNoFetcher => sum.skippedNoFetcher
    case SkippedNoName => sum.skippedNoName
    case WouldApply => sum.wouldApply
    case Errors => sum.errors
    case SkippedChanged => sum.skippedChanged
    case Applied => sum.applied
  }

  /** Each counter is the number of rounds that ended that way. */
  lemma {:induction false} CountersCount(os: seq<Outcome>, o: Outcome)
    ensures Counter(Tally(os), o) == Count(os, o)
    decreases |os|
  {
    if os != [] {
      CountersCount(os[..|os| - 1], o);
    }
  }

  /** The counters add up. */
  lemma {:induction false} CountersAddUp(os: seq<Outcome>)
    ensures var sum := Tally(os);
            && sum.scanned == |os| == sum.resolved + sum.skippedNoName + sum.skippedNoFetcher
            && sum.resolved == sum.applied + sum.wouldApply + sum.skippedChanged + sum.errors
    decreases |os|
  {
    if os != [] {
      CountersAddUp(os[..|os| - 1]);
    }
  }

  /** `scanned` is the number of the wanted tenant's candidates, capped by a positive limit. */
  lemma ScannedIsCapped(cfg: Config, names: Names, rounds: seq<Round>)
    ensures Tally(Outcomes(cfg, names, Handled(cfg, rounds))).scanned ==
            if 0 < cfg.limit < |Matching(cfg, rounds)| then cfg.limit else |Matching(cfg, rounds)|
  {
    CountersAddUp(Outcomes(cfg, names, Handled(cfg, rounds)));
    if Handled(cfg, rounds) != [] {
      OutcomesAre(cfg, names, Handled(cfg, rounds), 0);
    }
  }

  /** Only the operators' renames, with the tool away. */
  function RenamedOnly(names: Names, hs: seq<Round>): Names {
    if hs == [] then names else RenamedOnly(names, hs[..|hs| - 1]) + hs[|hs| - 1].renames
  }

  /** Without `apply` the tool writes nothing: the names are those the operators leave. */
  lemma {:induction false} DryRunWritesNothing(cfg: Config, names: Names, hs: seq<Round>)
    requires !cfg.apply
    ensures Play(cfg, names, hs) == RenamedOnly(names, hs)
    decreases |hs|
  {
    if hs != [] {
      DryRunWritesNothing(cfg, names, hs[..|hs| - 1]);
    }
  }

  /**
   When a round changes a contact's name to anything but what the operators just gave it, that contact
   was the candidate, its name at that moment was still the candidate's external id, and the new name
   is the non-blank one fetched.
   */
  lemma OnlyRawNamesAreReplaced(cfg: Config, names: Names, hs: seq<Round>, i: nat, c: Contact)
    requires i < |hs|
    ensures var before := Play(cfg, names, hs[..i]) + hs[i].renames;
            var after := Play(cfg, names, hs[..i + 1]);
            (c in after <==> c in before)
            && (c in before && after[c] != before[c] ==>
                 && c == hs[i].candidate.contact && before[c] == hs[i].candidate.externalId
                 && hs[i].reply == Some(after[c]) && !Text.Blank(after[c]) && cfg.apply)
  {
    assert hs[..i + 1][..i] == hs[..i];
  }

  lemma RoundKeeps(cfg: Config, before: Names, r: Round, c: Contact, name: string)
    requires c in before + r.renames && (before + r.renames)[c] == name
    requires r.candidate.contact == c ==> r.candidate.externalId != name
    ensures c in NamesAfter(cfg, before, r) && NamesAfter(cfg, before, r)[c] == name
  {
  }

  /**
   A name an operator gives in round i, if it is not the external id of that contact in any round from
   then on and is not changed again by an operator, is the contact's name at the end.
   */
  lemma {:induction false} RenamesSurvive(cfg: Config, names: Names, hs: seq<Round>, i: nat, c: Contact, name: string)
    requires i < |hs| && c in hs[i].renames && hs[i].renames[c] == name
    requires forall j :: i < j < |hs| ==> c !in hs[j].renames
    requires forall j :: i <= j < |hs| && hs[j].candidate.contact == c ==> hs[j].candidate.externalId != name
    ensures c in Play(cfg, names, hs) && Play(cfg, names, hs)[c] == name
    decreases |hs|
  {
    var n := |hs| - 1;
    if i < n {
      RenamesSurvive(cfg, names, hs[..n], i, c, name);
    }
    RoundKeeps(cfg, Play(cfg, names, hs[..n]), hs[n], c, name);
  }

  /**
   Conversely a contact that is a candidate in round i with a usable reply, whose name is still raw then,
   gets the fetched name, and nobody else a new one, unless the tool runs dry or the update has no effect.
   */
  lemma RawNamesAreFilled(cfg: Config, names: Names, hs: seq<Round>, i: nat)
    requires i < |hs| && Resolves(cfg, hs[i])
    requires StillRaw(Play(cfg, names, hs[..i]) + hs[i].renames, hs[i].candidate)
    ensures var before := Play(cfg, names, hs[..i]) + hs[i].renames;
            Play(cfg, names, hs[..i + 1]) ==
            if cfg.apply && !hs[i].fate.Fails? then before[hs[i].candidate.contact := hs[i].reply.value] else before
  {
    assert hs[..i + 1][..i] == hs[..i];
  }

  // ----- spelled out

  /** Each channel is asked through its own fetcher, and no other channel has one. */
  lemma FetchSpelledOut(cfg: Config, c: Candidate, reply: Option<string>)
    ensures FetchName(cfg, c, reply) ==
            match c.channel
            case "messenger" => if !cfg.messenger then NoFetcher else if reply.Some? then Answer(reply.value) else NoAnswer
            case "instagram" => if !cfg.instagram then NoFetcher else if reply.Some? then Answer(reply.value) else NoAnswer
            case _ => NoAnswer
  {
  }

  /** The channel is one the tool can ask, and the fetcher for it is configured. */
  predicate CanAsk(cfg: Config, c: Candidate) {
    (c.channel == "messenger" && cfg.messenger) || (c.channel == "instagram" && cfg.instagram)
  }

  /** The fetcher answered with something other than white space. */
  predicate Named(r: Round) {
    r.reply.Some? && exists k :: 0 <= k < |r.reply.value| && !Text.IsSpace(r.reply.value[k])
  }

  /** How a round ends, read off the candidate, the reply, the name in the store and the update's fate. */
  lemma OutcomeSpelledOut(cfg: Config, before: Names, r: Round)
    ensures var o, c := OutcomeOf(cfg, before, r), r.candidate;
            var now := if c.contact in r.renames then Some(r.renames[c.contact])
                       else if c.contact in before then Some(before[c.contact]) else None;
            && (o == SkippedNoFetcher <==> c.channel in {"messenger", "instagram"} && !CanAsk(cfg, c))
            && (o == SkippedNoName <==> (c.channel in {"messenger", "instagram"} ==> CanAsk(cfg, c) && !Named(r)))
            && (o == WouldApply <==> CanAsk(cfg, c) && Named(r) && !cfg.apply)
            && (o == Errors <==> CanAsk(cfg, c) && Named(r) && cfg.apply && !r.fate.Fine?)
            && (o == Applied <==> CanAsk(cfg, c) && Named(r) && cfg.apply && r.fate.Fine? && now == Some(c.externalId))
            && (o == SkippedChanged <==> CanAsk(cfg, c) && Named(r) && cfg.apply && r.fate.Fine? && now != Some(c.externalId))
  {
    if r.reply.Some? {
      Text.BlankIs(r.reply.value);
    }
  }

  /** The rounds that match are those of the wanted tenant, or all if none is named, in order. */
  lemma {:induction false} MatchingSpelledOut(cfg: Config, rounds: seq<Round>) returns (at: seq<nat>)
    ensures Told(Matching(cfg, rounds), at, rounds,
                 (r: Round) => cfg.tenant == NIL_ID || r.candidate.contact.tenant == cfg.tenant, (x: Round, r: Round) => x == r)
    decreases |rounds|
  {
    at := [];
    if rounds != [] {
      var n := |rounds| - 1;
      at := MatchingSpelledOut(cfg, rounds[..n]);
      ToldOneMore(Matching(cfg, rounds[..n]), at, rounds,
                  (r: Round) => cfg.tenant == NIL_ID || r.candidate.contact.tenant == cfg.tenant, (x: Round, r: Round) => x == r, rounds[n]);
      if Wanted(cfg, rounds[n]) {
        at := at + [n];
      }
    }
  }
}
