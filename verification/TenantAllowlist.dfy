/**
 The session tenant allowlist (cmd/server/wa_session_wire.go): a comma-separated list in which blank and
 malformed entries are skipped and repeats collapsed. Parsing and printing an id belong to the UUID
 library and are parameters.
 */
module TenantAllowlist {
  import opened Options
  import Text

  /** A UUID, as the 128-bit number it is. */
  type TenantId = x: int | 0 <= x < 0x1_0000_0000_0000_0000_0000_0000_0000_0000

  /** What an entry contributes. */
  function IdOf(parse: string -> Option<TenantId>, entry: string): Option<TenantId> {
    if Text.TrimSpace(entry) == "" then None else parse(Text.TrimSpace(entry))
  }

  /** `ids` lists the valid ids of the entries, each once, in the order of first occurrence. */
  ghost predicate FirstOccurrences(parse: string -> Option<TenantId>, entries: seq<string>, ids: seq<TenantId>) {
    && (forall id :: id in ids <==> exists k :: 0 <= k < |entries| && IdOf(parse, entries[k]) == Some(id))
    && (forall i, j :: 0 <= i < j < |ids| ==> First(parse, entries, ids[i]) < First(parse, entries, ids[j]))
  }

  /** The position of the first entry that gives an id; the number of entries if none does. */
  function First(parse: string -> Option<TenantId>, entries: seq<string>, id: TenantId): nat {
    if entries == [] then 0
    else if IdOf(parse, entries[0]) == Some(id) then 0
    else 1 + First(parse, entries[1..], id)
  }

  lemma {:induction false} FirstIs(parse: string -> Option<TenantId>, entries: seq<string>, id: TenantId)
    ensures var f := First(parse, entries, id);
            && f <= |entries|
            && (f < |entries| ==> IdOf(parse, entries[f]) == Some(id))
            && forall k :: 0 <= k < f ==> IdOf(parse, entries[k]) != Some(id)
    decreases |entries|
  {
    if entries != [] && IdOf(parse, entries[0]) != Some(id) {
      FirstIs(parse, entries[1..], id);
      assert forall k :: 1 <= k < |entries| ==> entries[k] == entries[1..][k - 1];
    }
  }

  method Parse(parse: string -> Option<TenantId>, value: string) returns (out: seq<TenantId>)
    ensures FirstOccurrences(parse, Text.Split(value, ','), out)
  {
    var entries := Text.Split(value, ',');
    var seen: set<TenantId> := {};
    out := [];
    for k := 0 to |entries|
      invariant forall id :: id in seen <==> id in out
      invariant forall id :: id in out <==> First(parse, entries, id) < k
      invariant forall i, j :: 0 <= i < j < |out| ==> First(parse, entries, out[i]) < First(parse, entries, out[j])
    {
      forall id: TenantId ensures First(parse, entries, id) < k + 1 <==>
                        First(parse, entries, id) < k || IdOf(parse, entries[k]) == Some(id) {
        FirstIs(parse, entries, id);
      }
      var s := Text.TrimSpace(entries[k]);
      if s == "" {
        continue;
      }
      var id := parse(s);
      if id.None? || id.value in seen {
        continue;
      }
      seen := seen + {id.value};
      out := out + [id.value];
    }
    forall id: TenantId ensures id in out <==> exists k :: 0 <= k < |entries| && IdOf(parse, entries[k]) == Some(id) {
      FirstIs(parse, entries, id);
    }
  }

  lemma NextAgrees(parse: string -> Option<TenantId>, entries: seq<string>, a: seq<TenantId>, b: seq<TenantId>, m: nat)
    requires FirstOccurrences(parse, entries, a) && FirstOccurrences(parse, entries, b)
    requires m < |a| && m <= |b| && a[..m] == b[..m]
    ensures m < |b| && a[m] == b[m]
  {
    assert forall i :: 0 <= i < m ==> a[i] == a[..m][i] == b[..m][i] == b[i];
    assert a[m] in a && a[m] in b;
    var i :| 0 <= i < |b| && b[i] == a[m];
    assert i >= m;
    assert b[m] in b && b[m] in a;
    var j :| 0 <= j < |a| && a[j] == b[m];
    assert j >= m;
  }

  lemma {:induction false} ListsAgree(parse: string -> Option<TenantId>, entries: seq<string>, a: seq<TenantId>, b: seq<TenantId>, n: nat)
    requires FirstOccurrences(parse, entries, a) && FirstOccurrences(parse, entries, b)
    requires n <= |a|
    ensures n <= |b| && a[..n] == b[..n]
    decreases n
  {
    if n > 0 {
      ListsAgree(parse, entries, a, b, n - 1);
      NextAgrees(parse, entries, a, b, n - 1);
      assert a[..n] == a[..n - 1] + [a[n - 1]] && b[..n] == b[..n - 1] + [b[n - 1]];
    }
  }

  /** There is only one such list, so the contract of `Parse` says exactly what it returns. */
  lemma OnlyOneList(parse: string -> Option<TenantId>, entries: seq<string>, a: seq<TenantId>, b: seq<TenantId>)
    requires FirstOccurrences(parse, entries, a) && FirstOccurrences(parse, entries, b)
    ensures a == b
  {
    ListsAgree(parse, entries, a, b, |a|);
    ListsAgree(parse, entries, b, a, |b|);
    assert a == a[..|a|] && b == b[..|b|];
  }

  // ----- printing and reading back

  function Shown(show: TenantId -> string, ids: seq<TenantId>): seq<string> {
    seq(|ids|, k requires 0 <= k < |ids| => show(ids[k]))
  }

  /** What is asked of the UUID library's printer: its text parses back and needs no trimming or quoting. */
  ghost predicate Faithful(parse: string -> Option<TenantId>, show: TenantId -> string) {
    forall id: TenantId :: parse(show(id)) == Some(id) && show(id) != "" && Text.Trimmed(show(id)) && ',' !in show(id)
  }

  /** Any list without repeats, printed with commas, is read back as it was. */
  lemma PrintedListIsReadBack(parse: string -> Option<TenantId>, show: TenantId -> string, ids: seq<TenantId>)
    requires Faithful(parse, show)
    requires forall i, j :: 0 <= i < j < |ids| ==> ids[i] != ids[j]
    ensures FirstOccurrences(parse, Text.Split(Text.Join(Shown(show, ids), ','), ','), ids)
  {
    var entries := Text.Split(Text.Join(Shown(show, ids), ','), ',');
    if ids == [] {
      assert Shown(show, ids) == [];
      assert entries == [""];
    } else {
      Text.SplitJoin(Shown(show, ids), ',');
      forall k | 0 <= k < |ids| ensures IdOf(parse, entries[k]) == Some(ids[k]) {
        Text.TrimmedIsFixed(show(ids[k]));
      }
      forall k | 0 <= k < |ids| ensures First(parse, entries, ids[k]) == k {
        FirstIs(parse, entries, ids[k]);
      }
    }
  }

  /** Printing what was parsed and parsing it again gives the same list. */
  lemma ParsingAgainChangesNothing(parse: string -> Option<TenantId>, show: TenantId -> string, value: string,
                                   out: seq<TenantId>, again: seq<TenantId>)
    requires Faithful(parse, show)
    requires FirstOccurrences(parse, Text.Split(value, ','), out)
    requires FirstOccurrences(parse, Text.Split(Text.Join(Shown(show, out), ','), ','), again)
    ensures again == out
  {
    PrintedListIsReadBack(parse, show, out);
    OnlyOneList(parse, Text.Split(Text.Join(Shown(show, out), ','), ','), out, again);
  }
}
