/**
 Reading the campaign marker key (cmd/server/campaigns_public_wire.go): the environment value is
 base64 in any of four variants, tried in a fixed order. The alphabets and padding are those of
 sections 3.2, 4 and 5 of RFC 4648; as in Go's decoder, line breaks are skipped and the unused bits of a
 final partial group are ignored.
 */
module MarkerKey {
  import opened Options
  import Text

  type Byte = x: int | 0 <= x < 256
  type Digit = x: int | 0 <= x < 64

  datatype Variant = Variant(url: bool, padded: bool)

  const STD := Variant(false, true)
  const RAW_STD := Variant(false, false)
  const URL := Variant(true, true)
  const RAW_URL := Variant(true, false)

  /** The order the source tries them in. */
  const VARIANTS: seq<Variant> := [STD, RAW_STD, URL, RAW_URL]

  const MIN_KEY_BYTES := 32

  // ----- alphabets

  function CharOf(d: Digit, url: bool): char {
    if d < 26 then (d + 65) as char
    else if d < 52 then (d - 26 + 97) as char
    else if d < 62 then (d - 52 + 48) as char
    else if d == 62 then (if url then '-' else '+')
    else if url then '_' else '/'
  }

  function DigitOf(c: char, url: bool): Option<Digit> {
    if 'A' <= c <= 'Z' then Some(c as int - 65)
    else if 'a' <= c <= 'z' then Some(c as int - 97 + 26)
    else if '0' <= c <= '9' then Some(c as int - 48 + 52)
    else if c == (if url then '-' else '+') then Some(62)
    else if c == (if url then '_' else '/') then Some(63)
    else None
  }

  /** Every digit reads back, and no character means different digits in the two alphabets. */
  lemma AlphabetsAgree(d: Digit, c: char, url: bool)
    ensures DigitOf(CharOf(d, url), url) == Some(d)
    ensures CharOf(d, url) != '=' && !Text.IsSpace(CharOf(d, url))
    ensures DigitOf(c, true).Some? && DigitOf(c, false).Some? ==> DigitOf(c, true) == DigitOf(c, false)
    ensures DigitOf('=', url).None?
  {
  }

  function Show(ds: seq<Digit>, url: bool): string {
    if ds == [] then "" else [CharOf(ds[0], url)] + Show(ds[1..], url)
  }

  /** None if some character is no digit of the alphabet. */
  function DigitsOf(s: string, url: bool): (r: Option<seq<Digit>>)
    ensures r.Some? ==> |r.value| == |s|
  {
    if s == "" then Some([])
    else
      var head, rest := DigitOf(s[0], url), DigitsOf(s[1..], url);
      if head.None? || rest.None? then None else Some([head.value] + rest.value)
  }

  lemma {:induction false} DigitsShown(ds: seq<Digit>, url: bool)
    ensures DigitsOf(Show(ds, url), url) == Some(ds)
    ensures |Show(ds, url)| == |ds|
    ensures forall c :: c in Show(ds, url) ==> c != '=' && !Text.IsSpace(c)
    decreases |ds|
  {
    if ds != [] {
      AlphabetsAgree(ds[0], '=', url);
      DigitsShown(ds[1..], url);
      assert Show(ds, url)[1..] == Show(ds[1..], url);
      assert ds == [ds[0]] + ds[1..];
    }
  }

  lemma {:induction false} NoDigits(s: string, i: nat, url: bool)
    requires i < |s| && s[i] == '='
    ensures DigitsOf(s, url).None?
    decreases i
  {
    AlphabetsAgree(0, '=', url);
    if i > 0 {
      NoDigits(s[1..], i - 1, url);
    }
  }

  // ----- groups of three bytes and four digits

  /** Up to three bytes as one more digit; the bits left over in the last digit are zero. */
  function Sextets(g: seq<Byte>): (ds: seq<Digit>)
    requires 1 <= |g| <= 3
    ensures |ds| == |g| + 1
  {
    if |g| == 1 then [g[0] / 4, g[0] % 4 * 16]
    else if |g| == 2 then [g[0] / 4, g[0] % 4 * 16 + g[1] / 16, g[1] % 16 * 4]
    else [g[0] / 4, g[0] % 4 * 16 + g[1] / 16, g[1] % 16 * 4 + g[2] / 64, g[2] % 64]
  }

  /** One byte from two digits, two from three, three from four; left-over bits are dropped. */
  function Octets(ds: seq<Digit>): (g: seq<Byte>)
    requires 2 <= |ds| <= 4
    ensures |g| == |ds| - 1
  {
    var d0: int, d1: int := ds[0], ds[1];
    var b0: Byte := d0 * 4 + d1 / 16;
    if |ds| == 2 then [b0]
    else
      var d2: int := ds[2];
      var b1: Byte := d1 % 16 * 16 + d2 / 4;
      if |ds| == 3 then [b0, b1]
      else
        var d3: int := ds[3];
        var b2: Byte := d2 % 4 * 64 + d3;
        [b0, b1, b2]
  }

  lemma OctetsOfSextets(g: seq<Byte>)
    requires 1 <= |g| <= 3
    ensures Octets(Sextets(g)) == g
  {
    var ds := Sextets(g);
    assert ds[1] / 16 == g[0] % 4;
    if |g| >= 2 {
      assert ds[1] % 16 == g[1] / 16 && ds[2] / 4 == g[1] % 16;
    }
    if |g| == 3 {
      assert ds[2] % 4 == g[2] / 64;
    }
  }

  function Padding(n: nat, padded: bool): string {
    if !padded then "" else if n == 1 then "==" else if n == 2 then "=" else ""
  }

  function Encode(key: seq<Byte>, v: Variant): string {
    if key == [] then ""
    else if |key| <= 3 then Show(Sextets(key), v.url) + Padding(|key|, v.padded)
    else Show(Sextets(key[..3]), v.url) + Encode(key[3..], v)
  }

  function Group(s: string, url: bool): Option<seq<Byte>>
    requires 2 <= |s| <= 4
  {
    var ds := DigitsOf(s, url);
    if ds.None? then None else Some(Octets(ds.value))
  }

  /** The last, possibly shorter, group. */
  function LastGroup(s: string, v: Variant): Option<seq<Byte>>
    requires 0 < |s| <= 4
  {
    if v.padded then
      if |s| < 4 then None
      else if s[3] != '=' then Group(s, v.url)
      else if s[2] != '=' then Group(s[..3], v.url)
      else Group(s[..2], v.url)
    else if |s| == 1 then None
    else Group(s, v.url)
  }

  /** `DecodeString` on text without line breaks. */
  function Decode(s: string, v: Variant): Option<seq<Byte>> {
    if s == "" then Some([])
    else if |s| <= 4 then LastGroup(s, v)
    else
      var head, rest := Group(s[..4], v.url), Decode(s[4..], v);
      if head.None? || rest.None? then None else Some(head.value + rest.value)
  }

  function WithoutBreaks(s: string): string {
    if s == "" then ""
    else (if s[0] == '\n' || s[0] == '\r' then "" else [s[0]]) + WithoutBreaks(s[1..])
  }

  function DecodeString(s: string, v: Variant): Option<seq<Byte>> {
    Decode(WithoutBreaks(s), v)
  }

  // ----- the reader

  function FirstLongEnough(raw: string, vs: seq<Variant>): Option<seq<Byte>> {
    if vs == [] then None
    else
      var k := DecodeString(raw, vs[0]);
      if k.Some? && |k.value| >= MIN_KEY_BYTES then k else FirstLongEnough(raw, vs[1..])
  }

  /** `readMarkerSigningKey`; None is the zero key. */
  function ReadKey(env: string): Option<seq<Byte>> {
    var raw := Text.TrimSpace(env);
    if raw == "" then None else FirstLongEnough(raw, VARIANTS)
  }

  // ----- round trip

  lemma LastGroupRoundTrip(key: seq<Byte>, v: Variant)
    requires 1 <= |key| <= 3
    ensures 2 <= |Encode(key, v)| <= 4 && LastGroup(Encode(key, v), v) == Some(key)
  {
    var shown := Show(Sextets(key), v.url);
    DigitsShown(Sextets(key), v.url);
    OctetsOfSextets(key);
    var s := Encode(key, v);
    assert s[..|key| + 1] == shown;
    assert shown[|key|] in shown;
    assert s[..|s|] == s;
  }

  lemma {:induction false} DecodeEncode(key: seq<Byte>, v: Variant)
    ensures Decode(Encode(key, v), v) == Some(key)
    ensures key != [] ==> Encode(key, v) != ""
    decreases |key|
  {
    if 1 <= |key| <= 3 {
      LastGroupRoundTrip(key, v);
    } else if |key| > 3 {
      var shown, rest := Show(Sextets(key[..3]), v.url), Encode(key[3..], v);
      DigitsShown(Sextets(key[..3]), v.url);
      OctetsOfSextets(key[..3]);
      DecodeEncode(key[3..], v);
      assert (shown + rest)[..4] == shown && (shown + rest)[4..] == rest;
      assert key == key[..3] + key[3..];
    }
  }

  // ----- the order of the variants does not matter

  lemma {:induction false} DigitsAgree(s: string, u: bool, u': bool)
    ensures DigitsOf(s, u).Some? && DigitsOf(s, u').Some? ==> DigitsOf(s, u) == DigitsOf(s, u')
    decreases |s|
  {
    if s != "" {
      AlphabetsAgree(0, s[0], u);
      DigitsAgree(s[1..], u, u');
    }
  }

  lemma LastGroupsAgree(s: string, v: Variant, v': Variant)
    requires 0 < |s| <= 4
    requires LastGroup(s, v).Some? && LastGroup(s, v').Some?
    ensures LastGroup(s, v) == LastGroup(s, v')
  {
    if |s| == 4 && s[3] == '=' {
      NoDigits(s, 3, v.url);
      NoDigits(s, 3, v'.url);
    }
    DigitsAgree(s, v.url, v'.url);
    if |s| == 4 {
      DigitsAgree(s[..3], v.url, v'.url);
      DigitsAgree(s[..2], v.url, v'.url);
    }
  }

  /** Two variants that accept the same text read the same bytes from it. */
  lemma {:induction false} VariantsAgree(s: string, v: Variant, v': Variant)
    requires Decode(s, v).Some? && Decode(s, v').Some?
    ensures Decode(s, v) == Decode(s, v')
    decreases |s|
  {
    if 0 < |s| <= 4 {
      LastGroupsAgree(s, v, v');
    } else if |s| > 4 {
      DigitsAgree(s[..4], v.url, v'.url);
      VariantsAgree(s[4..], v, v');
    }
  }

  lemma {:induction false} FirstIsAny(raw: string, vs: seq<Variant>, v: Variant, key: seq<Byte>)
    requires DecodeString(raw, v) == Some(key) && |key| >= MIN_KEY_BYTES
    ensures v in vs ==> FirstLongEnough(raw, vs) == Some(key)
    ensures FirstLongEnough(raw, vs).Some? ==> FirstLongEnough(raw, vs) == Some(key)
    decreases |vs|
  {
    if vs != [] {
      FirstIsAny(raw, vs[1..], v, key);
      assert v in vs <==> v == vs[0] || v in vs[1..];
      if DecodeString(raw, vs[0]).Some? {
        VariantsAgree(WithoutBreaks(raw), v, vs[0]);
      }
    }
  }

  lemma {:induction false} FirstHasVariant(raw: string, vs: seq<Variant>)
    requires FirstLongEnough(raw, vs).Some?
    ensures |FirstLongEnough(raw, vs).value| >= 32
    ensures exists v :: v in vs && DecodeString(raw, v) == FirstLongEnough(raw, vs)
    decreases |vs|
  {
    var k := DecodeString(raw, vs[0]);
    if k.Some? && |k.value| >= MIN_KEY_BYTES {
      assert vs[0] in vs;
    } else {
      FirstHasVariant(raw, vs[1..]);
    }
  }

  lemma EveryVariantListed(v: Variant)
    ensures v in VARIANTS
  {
    assert VARIANTS[0] == STD && VARIANTS[1] == RAW_STD && VARIANTS[2] == URL && VARIANTS[3] == RAW_URL;
    assert v == VARIANTS[(if v.url then 2 else 0) + (if v.padded then 0 else 1)];
  }

  /**
   The reader returns a key exactly when the trimmed text is, in some variant, the base64 of at least
   32 bytes, and then it returns those bytes: the order of the list cannot be observed.
   */
  lemma ReadKeyExactly(env: string, key: seq<Byte>)
    ensures ReadKey(env) == Some(key) <==>
            Text.TrimSpace(env) != "" && |key| >= 32
            && exists v: Variant :: DecodeString(Text.TrimSpace(env), v) == Some(key)
  {
    var raw := Text.TrimSpace(env);
    if raw != "" {
      if FirstLongEnough(raw, VARIANTS) == Some(key) {
        FirstHasVariant(raw, VARIANTS);
      }
      if v: Variant :| DecodeString(raw, v) == Some(key) && |key| >= MIN_KEY_BYTES {
        EveryVariantListed(v);
        FirstIsAny(raw, VARIANTS, v, key);
      }
    }
  }

  lemma {:induction false} EncodedHasNoSpace(key: seq<Byte>, v: Variant)
    ensures forall c :: c in Encode(key, v) ==> !Text.IsSpace(c)
    decreases |key|
  {
    if 1 <= |key| <= 3 {
      DigitsShown(Sextets(key), v.url);
    } else if |key| > 3 {
      DigitsShown(Sextets(key[..3]), v.url);
      EncodedHasNoSpace(key[3..], v);
    }
  }

  lemma {:induction false} NothingToStrip(s: string)
    requires forall c :: c in s ==> !Text.IsSpace(c)
    ensures WithoutBreaks(s) == s
    decreases |s|
  {
    if s != "" {
      assert s[0] in s;
      NothingToStrip(s[1..]);
      assert s == [s[0]] + s[1..];
    }
  }

  /** Any key of at least 32 bytes, encoded in any of the four variants, is read back. */
  lemma EncodedKeyIsRead(key: seq<Byte>, v: Variant)
    requires |key| >= 32
    ensures ReadKey(Encode(key, v)) == Some(key)
  {
    var s := Encode(key, v);
    EncodedHasNoSpace(key, v);
    DecodeEncode(key, v);
    assert s[0] in s && s[|s| - 1] in s;
    Text.TrimmedIsFixed(s);
    NothingToStrip(s);
    EveryVariantListed(v);
    FirstIsAny(s, VARIANTS, v, key);
  }

  // ----- line breaks

  lemma {:induction false} BreaksAreDropped(head: string, c: char, rest: string)
    requires c == '\n' || c == '\r'
    ensures WithoutBreaks(head + [c] + rest) == WithoutBreaks(head + rest)
    decreases |head|
  {
    if head == "" {
      assert (head + [c] + rest)[1..] == rest && head + rest == rest;
    } else {
      BreaksAreDropped(head[1..], c, rest);
      assert (head + [c] + rest)[1..] == head[1..] + [c] + rest && (head + rest)[1..] == head[1..] + rest;
    }
  }

  lemma {:induction false} RestIsKept(s: string)
    requires '\n' !in s && '\r' !in s
    ensures WithoutBreaks(s) == s
    decreases |s|
  {
    if s != "" {
      RestIsKept(s[1..]);
      assert s == [s[0]] + s[1..];
    }
  }

  /** A line break anywhere in the text makes no difference to what is decoded, and nothing else is skipped. */
  lemma LineBreaksAreSkipped(head: string, c: char, rest: string, v: Variant)
    requires c == '\n' || c == '\r'
    ensures DecodeString(head + [c] + rest, v) == DecodeString(head + rest, v)
    ensures '\n' !in head && '\r' !in head ==> DecodeString(head, v) == Decode(head, v)
  {
    BreaksAreDropped(head, c, rest);
    if '\n' !in head && '\r' !in head {
      RestIsKept(head);
    }
  }

  // ----- against RFC 4648

  /** The digits are the letters, upper case first, then the figures, each in order, and two signs. */
  lemma AlphabetsAreInOrder(d: Digit, url: bool)
    ensures CharOf(0, url) == 'A' && CharOf(25, url) == 'Z' && CharOf(26, url) == 'a' && CharOf(51, url) == 'z'
    ensures CharOf(52, url) == '0' && CharOf(61, url) == '9'
    ensures CharOf(62, false) == '+' && CharOf(63, false) == '/' && CharOf(62, true) == '-' && CharOf(63, true) == '_'
    ensures d < 61 && d != 25 && d != 51 ==> CharOf(d + 1, url) as int == CharOf(d, url) as int + 1
  {
  }

  /** The first letters of "foobar", as section 10 has them. */
  lemma TestVectors()
    ensures Encode([0x66], STD) == "Zg==" && Encode([0x66, 0x6f], STD) == "Zm8=" && Encode([0x66, 0x6f, 0x6f], STD) == "Zm9v"
  {
  }

  /** The other variants differ in the last two digits and in the padding. */
  lemma VariantVectors()
    ensures Encode([0xfb, 0xff], URL) == "-_8=" && Encode([0xfb, 0xff], RAW_STD) == "+/8"
  {
  }
}
