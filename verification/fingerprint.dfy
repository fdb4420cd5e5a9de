/**
 * `hashFile`: the cheap identity token of a file, built from the lower-case
 * hex of its first 1024 bytes, its name and its decimal size, joined by `_`.
 * A read failure gives the empty token.
 */
module Fingerprint {
  import opened Optional
  import opened Strings
  import opened Model

  /** Only this many leading bytes take part in the token. */
  const PrefixLimit: nat := 1024

  /* ---------------------------------------------------------------- */
  /* Hex encoding                                                      */
  /* ---------------------------------------------------------------- */

  predicate IsHexDigit(c: char) { '0' <= c <= '9' || 'a' <= c <= 'f' }

  predicate AllHex(s: string) { forall i :: 0 <= i < |s| ==> IsHexDigit(s[i]) }

  function HexDigit(d: nat): (c: char)
    requires d < 16
    ensures IsHexDigit(c)
  {
    if d < 10 then (d + '0' as int) as char else (d - 10 + 'a' as int) as char
  }

  function HexValue(c: char): (d: nat)
    requires IsHexDigit(c)
    ensures d < 16
  {
    if '0' <= c <= '9' then c as int - '0' as int else c as int - 'a' as int + 10
  }

  /** A byte as two lower-case hex digits, zero-padded on the left (utils.ts:37-41). */
  function HexByte(b: Byte): (r: string)
    ensures |r| == 2 && AllHex(r)
    ensures HexValue(r[0]) * 16 + HexValue(r[1]) == b
  {
    [HexDigit(b / 16), HexDigit(b % 16)]
  }

  /** The bytes, two lower-case hex digits each, concatenated. */
  function Hex(bytes: seq<Byte>): (r: string)
    ensures |r| == 2 * |bytes|
    ensures AllHex(r)
    decreases |bytes|
  {
    if |bytes| == 0 then ""
    else Hex(bytes[..|bytes| - 1]) + HexByte(bytes[|bytes| - 1])
  }

  /** The byte written as the hex digits `hi` and `lo`. */
  function PairValue(hi: char, lo: char): (v: Byte)
    requires IsHexDigit(hi) && IsHexDigit(lo)
  {
    HexValue(hi) * 16 + HexValue(lo)
  }

  /** Reads a string of hex-digit pairs back into bytes. */
  function Unhex(s: string): seq<Byte>
    requires |s| % 2 == 0 && AllHex(s)
    decreases |s|
  {
    if |s| == 0 then []
    else Unhex(s[..|s| - 2]) + [PairValue(s[|s| - 2], s[|s| - 1])]
  }

  /** The two hex digits of a byte read back to that byte. */
  lemma UnhexByte(b: Byte)
    ensures Unhex(HexByte(b)) == [b]
  {
    var hb := HexByte(b);
    assert hb[..0] == [];
    assert PairValue(hb[0], hb[1]) == b;
  }

  /** Unhex distributes over concatenation of even-length hex strings. */
  lemma {:induction false} UnhexAppend(s: string, t: string)
    requires |s| % 2 == 0 && AllHex(s) && |t| % 2 == 0 && AllHex(t)
    ensures AllHex(s + t) && Unhex(s + t) == Unhex(s) + Unhex(t)
    decreases |t|
  {
    HexConcat(s, t);
    if |t| > 0 {
      var u := s + t;
      var t' := t[..|t| - 2];
      assert u[..|u| - 2] == s + t';
      assert u[|u| - 2] == t[|t| - 2] && u[|u| - 1] == t[|t| - 1];
      UnhexAppend(s, t');
    } else {
      assert s + t == s;
    }
  }

  /** Two strings of hex digits join to one. */
  lemma HexConcat(s: string, t: string)
    requires AllHex(s) && AllHex(t)
    ensures AllHex(s + t)
  {
    forall k | 0 <= k < |s + t| ensures IsHexDigit((s + t)[k]) {
      if k < |s| { assert (s + t)[k] == s[k]; } else { assert (s + t)[k] == t[k - |s|]; }
    }
  }

  lemma {:induction false} UnhexHex(bytes: seq<Byte>)
    ensures Unhex(Hex(bytes)) == bytes
    decreases |bytes|
  {
    if |bytes| > 0 {
      var init := bytes[..|bytes| - 1];
      var b := bytes[|bytes| - 1];
      assert Hex(bytes) == Hex(init) + HexByte(b);
      UnhexHex(init);
      UnhexByte(b);
      UnhexAppend(Hex(init), HexByte(b));
      assert bytes == init + [b];
    }
  }

  /* ---------------------------------------------------------------- */
  /* The token                                                         */
  /* ---------------------------------------------------------------- */

  /** The part of the contents that is hashed: at most the first 1024 bytes. */
  function ContentPrefix(bytes: seq<Byte>): (p: seq<Byte>)
    ensures |p| == Min(PrefixLimit, |bytes|)
    ensures p <= bytes
  {
    bytes[..Min(PrefixLimit, |bytes|)]
  }

  function Token(prefix: seq<Byte>, name: string, size: nat): string
  {
    Hex(prefix) + "_" + name + "_" + Decimal(size)
  }

  /** The fingerprint of a file (utils.ts:25-49), with the read of the file's bytes given as `content`. */
  function FingerprintOf(name: string, size: nat, content: Content): (token: string)
    ensures token == "" <==> content.Unreadable?
  {
    match content
    case Unreadable => ""
    case Readable(bytes) => Token(ContentPrefix(bytes), name, size)
  }

  /* ---------------------------------------------------------------- */
  /* Reading a token back                                              */
  /* ---------------------------------------------------------------- */

  datatype TokenParts = TokenParts(prefix: seq<Byte>, name: string, size: nat)

  /**
   * Splits a token at its first and last `_`: hex digits and decimal digits
   * never contain `_`, so the name is whatever lies between, `_` included.
   */
  function ParseToken(t: string): Option<TokenParts>
  {
    match FirstIndexOf(t, '_')
    case None => None
    case Some(i) =>
      match LastIndexOf(t, '_')
      case None => None
      case Some(j) => if i < j then FieldsAt(t, i, j) else None
  }

  /** The fields of `t` around separators at `i` and `j`, if the outer two are well formed. */
  function FieldsAt(t: string, i: nat, j: nat): Option<TokenParts>
    requires i < j < |t|
  {
    Fields(t[..i], t[i + 1..j], t[j + 1..])
  }

  /** The fields, if the hex digits come in pairs and the size is a non-empty run of digits. */
  function Fields(hex: string, name: string, digits: string): Option<TokenParts>
  {
    if |hex| % 2 == 0 && AllHex(hex) && |digits| >= 1 && AllDigits(digits)
    then Some(TokenParts(Unhex(hex), name, DigitsValue(digits)))
    else None
  }

  /** In `h_name_d` with `_`-free `h` and `d`, the first `_` ends `h` and the last one starts `d`. */
  lemma Separators(h: string, name: string, d: string)
    requires '_' !in h && '_' !in d
    ensures var t := h + "_" + name + "_" + d;
      && FirstIndexOf(t, '_') == Some(|h|)
      && LastIndexOf(t, '_') == Some(|h| + 1 + |name|)
  {
    FirstSeparator(h, name, d);
    LastSeparator(h + "_" + name, d);
  }

  /** In `h_name_d` with `_`-free `h`, the first `_` ends `h`. */
  lemma FirstSeparator(h: string, name: string, d: string)
    requires '_' !in h
    ensures FirstIndexOf(h + "_" + name + "_" + d, '_') == Some(|h|)
  {
    var t := h + "_" + name + "_" + d;
    assert t[|h|] == '_' && t[..|h|] == h;
    FirstIndexAt(t, '_', |h|);
  }

  /** In `init_d` with `_`-free `d`, the last `_` starts `d`. */
  lemma LastSeparator(init: string, d: string)
    requires '_' !in d
    ensures LastIndexOf(init + "_" + d, '_') == Some(|init|)
  {
    var t := init + "_" + d;
    assert t[|init|] == '_' && t[|init| + 1..] == d;
    LastIndexAt(t, '_', |init|);
  }

  /** Parsing `h_name_d` recovers the three fields. */
  lemma ParseJoined(h: string, name: string, d: string)
    requires |h| % 2 == 0 && AllHex(h) && '_' !in h
    requires |d| >= 1 && AllDigits(d) && '_' !in d
    ensures ParseToken(h + "_" + name + "_" + d) == Some(TokenParts(Unhex(h), name, DigitsValue(d)))
  {
    Separators(h, name, d);
    ParseAt(h + "_" + name + "_" + d, |h|, |h| + 1 + |name|);
    JoinedFields(h, name, d);
    FieldsHold(h, name, d);
  }

  /** Well-formed hex and digit fields parse. */
  lemma FieldsHold(h: string, name: string, d: string)
    requires |h| % 2 == 0 && AllHex(h) && |d| >= 1 && AllDigits(d)
    ensures Fields(h, name, d) == Some(TokenParts(Unhex(h), name, DigitsValue(d)))
  {
  }

  /** With its first `_` at `i` and its last at `j > i`, a token parses to the fields around them. */
  lemma ParseAt(t: string, i: nat, j: nat)
    requires FirstIndexOf(t, '_') == Some(i) && LastIndexOf(t, '_') == Some(j) && i < j
    ensures j < |t| && ParseToken(t) == FieldsAt(t, i, j)
  {
  }

  /** The fields of `h_name_d` around its two separators are `h`, `name` and `d`. */
  lemma JoinedFields(h: string, name: string, d: string)
    ensures var t := h + "_" + name + "_" + d;
      FieldsAt(t, |h|, |h| + 1 + |name|) == Fields(h, name, d)
  {
    var t := h + "_" + name + "_" + d;
    assert t[..|h|] == h;
    assert t[|h| + 1..|h| + 1 + |name|] == name;
    assert t[|h| + 1 + |name| + 1..] == d;
  }

  /**
   * A successful token begins with exactly 2·min(1024, |bytes|) hex digits,
   * and determines the hashed prefix, the name and the size.
   */
  lemma TokenRoundTrip(name: string, size: nat, bytes: seq<Byte>)
    ensures var t := FingerprintOf(name, size, Readable(bytes));
      && FirstIndexOf(t, '_') == Some(2 * Min(PrefixLimit, |bytes|))
      && AllHex(t[..2 * Min(PrefixLimit, |bytes|)])
      && ParseToken(t) == Some(TokenParts(ContentPrefix(bytes), name, size))
  {
    var p := ContentPrefix(bytes);
    var h := Hex(p);
    var d := Decimal(size);
    var t := h + "_" + name + "_" + d;
    assert FingerprintOf(name, size, Readable(bytes)) == t;
    assert |h| % 2 == 0 by {
      assert |h| == 2 * |p|;
    }
    JoinedRoundTrip(h, name, d);
    UnhexHex(p);
  }

  /** A token made of well-formed hex and decimal fields splits back into them at its first and last `_`. */
  lemma JoinedRoundTrip(h: string, name: string, d: string)
    requires |h| % 2 == 0 && AllHex(h) && |d| >= 1 && AllDigits(d)
    ensures var t := h + "_" + name + "_" + d;
      && FirstIndexOf(t, '_') == Some(|h|)
      && t[..|h|] == h
      && ParseToken(t) == Some(TokenParts(Unhex(h), name, DigitsValue(d)))
  {
    var t := h + "_" + name + "_" + d;
    NoSeparatorIn(h, d);
    Separators(h, name, d);
    assert t[..|h|] == h;
    ParseJoined(h, name, d);
  }

  /** Hex digits and decimal digits are never `_`. */
  lemma NoSeparatorIn(h: string, d: string)
    requires AllHex(h) && AllDigits(d)
    ensures '_' !in h && '_' !in d
  {
    assert '_' !in h by {
      forall k | 0 <= k < |h| ensures h[k] != '_' { assert IsHexDigit(h[k]); }
    }
    assert '_' !in d by {
      forall k | 0 <= k < |d| ensures d[k] != '_' { assert IsDigit(d[k]); }
    }
  }

  /** Two readable files get the same token only if prefix, name and size all agree. */
  lemma TokenInjective(n1: string, s1: nat, b1: seq<Byte>, n2: string, s2: nat, b2: seq<Byte>)
    requires FingerprintOf(n1, s1, Readable(b1)) == FingerprintOf(n2, s2, Readable(b2))
    ensures ContentPrefix(b1) == ContentPrefix(b2) && n1 == n2 && s1 == s2
  {
    TokenRoundTrip(n1, s1, b1);
    TokenRoundTrip(n2, s2, b2);
  }

  /** The token depends on nothing beyond the first 1024 bytes. */
  lemma TokenIgnoresTail(name: string, size: nat, b1: seq<Byte>, b2: seq<Byte>)
    requires ContentPrefix(b1) == ContentPrefix(b2)
    ensures FingerprintOf(name, size, Readable(b1)) == FingerprintOf(name, size, Readable(b2))
  {
  }
}
