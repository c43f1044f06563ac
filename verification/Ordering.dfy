/** The order `sort.Strings` sorts by, and the one ascending listing every set of strings has. */
module Ordering {

  /** Lexicographic order by code point, which is also the byte order of UTF-8. */
  predicate Less(a: string, b: string) {
    b != "" && (a == "" || a[0] < b[0] || (a[0] == b[0] && Less(a[1..], b[1..])))
  }

  lemma {:induction false} LessTransitive(a: string, b: string, c: string)
    requires Less(a, b) && Less(b, c)
    ensures Less(a, c)
    decreases |a|
  {
    if a != "" && a[0] == b[0] && b[0] == c[0] {
      LessTransitive(a[1..], b[1..], c[1..]);
    }
  }

  lemma {:induction false} LessTrichotomy(a: string, b: string)
    ensures a == b || Less(a, b) || Less(b, a)
    ensures !(Less(a, b) && Less(b, a)) && (a == b ==> !Less(a, b))
    decreases |a|
  {
    if a != "" && b != "" && a[0] == b[0] {
      LessTrichotomy(a[1..], b[1..]);
      assert a == [a[0]] + a[1..] && b == [b[0]] + b[1..];
    }
  }

  predicate Ascending(s: seq<string>) {
    forall i, j :: 0 <= i < j < |s| ==> Less(s[i], s[j])
  }

  function Elements(s: seq<string>): set<string> {
    set x | x in s
  }

  /** A set has at most one ascending listing, so sorting makes the iteration order of a map invisible. */
  lemma {:induction false} ListingIsUnique(s: seq<string>, t: seq<string>)
    requires Ascending(s) && Ascending(t) && Elements(s) == Elements(t)
    ensures s == t
    decreases |s|
  {
    assert t != [] ==> t[0] in Elements(t);
    if s != [] {
      assert s[0] in Elements(t);
      assert t != [];
      assert t[0] in Elements(s);
      HeadIsLeast(s, t[0]);
      HeadIsLeast(t, s[0]);
      LessTrichotomy(s[0], t[0]);
      TailElements(s);
      TailElements(t);
      ListingIsUnique(s[1..], t[1..]);
      assert s == [s[0]] + s[1..] && t == [t[0]] + t[1..];
    }
  }

  lemma HeadIsLeast(s: seq<string>, x: string)
    requires Ascending(s) && x in s
    ensures x == s[0] || Less(s[0], x)
  {
  }

  lemma TailElements(s: seq<string>)
    requires Ascending(s) && s != []
    ensures Elements(s[1..]) == Elements(s) - {s[0]}
  {
    assert s == [s[0]] + s[1..];
    forall x | x in s[1..]
      ensures x != s[0]
    {
      var j :| 0 <= j < |s[1..]| && s[1..][j] == x;
      LessTrichotomy(s[0], s[j + 1]);
    }
  }

  function Insert(x: string, s: seq<string>): seq<string> {
    if s == [] || Less(x, s[0]) then [x] + s else [s[0]] + Insert(x, s[1..])
  }

  lemma {:induction false} InsertListing(x: string, s: seq<string>)
    requires Ascending(s) && x !in s
    ensures Ascending(Insert(x, s))
    ensures Elements(Insert(x, s)) == Elements(s) + {x}
    decreases |s|
  {
    if s == [] {
    } else if Less(x, s[0]) {
      forall j | 0 <= j < |s|
        ensures Less(x, s[j])
      {
        if j > 0 { LessTransitive(x, s[0], s[j]); }
      }
    } else {
      LessTrichotomy(x, s[0]);
      InsertListing(x, s[1..]);
      var r := Insert(x, s[1..]);
      forall j | 0 <= j < |r|
        ensures Less(s[0], r[j])
      {
        assert r[j] in Elements(r);
      }
      assert s == [s[0]] + s[1..];
    }
  }

  /** `sort.Strings` on distinct strings. */
  method SortStrings(names: seq<string>) returns (sorted: seq<string>)
    requires forall i, j :: 0 <= i < j < |names| ==> names[i] != names[j]
    ensures Ascending(sorted)
    ensures Elements(sorted) == Elements(names)
  {
    sorted := [];
    for k := 0 to |names|
      invariant Ascending(sorted)
      invariant Elements(sorted) == Elements(names[..k])
    {
      assert names[..k + 1] == names[..k] + [names[k]];
      assert names[k] in sorted <==> names[k] in Elements(sorted);
      InsertListing(names[k], sorted);
      sorted := Insert(names[k], sorted);
    }
    assert names[..|names|] == names;
  }

  /** Every finite set of strings has an ascending listing. */
  lemma {:induction false} ListingExists(s: set<string>) returns (l: seq<string>)
    ensures Ascending(l) && Elements(l) == s
    decreases |s|
  {
    if s == {} {
      l := [];
    } else {
      var x :| x in s;
      l := ListingExists(s - {x});
      assert x in l <==> x in Elements(l);
      InsertListing(x, l);
      l := Insert(x, l);
    }
  }

  ghost function Listing(s: set<string>): (l: seq<string>)
    ensures Ascending(l) && Elements(l) == s
  {
    assert exists l :: Ascending(l) && Elements(l) == s by {
      var l := ListingExists(s);
    }
    var l :| Ascending(l) && Elements(l) == s;
    l
  }
}
