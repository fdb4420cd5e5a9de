/**
 * String helpers with the JavaScript semantics the scanner relies on:
 * `String.prototype.split` / `Array.prototype.join` on a one-character
 * separator, ASCII `toLowerCase`, decimal rendering of a non-negative integer
 * and searching for the first / last occurrence of a character.
 */
module Strings {
  import opened Optional

  /* ---------------------------------------------------------------- */
  /* Lower-casing                                                      */
  /* ---------------------------------------------------------------- */

  predicate IsUpper(c: char) { 'A' <= c <= 'Z' }

  function LowerChar(c: char): char
  {
    if IsUpper(c) then (c as int + 32) as char else c
  }

  /** `toLowerCase` restricted to the ASCII letters. */
  function Lower(s: string): (r: string)
    ensures |r| == |s|
    ensures forall i :: 0 <= i < |s| ==> r[i] == LowerChar(s[i])
  {
    seq(|s|, i requires 0 <= i < |s| => LowerChar(s[i]))
  }

  /* ---------------------------------------------------------------- */
  /* split / join                                                      */
  /* ---------------------------------------------------------------- */

  /**
   * JavaScript's `split` on one separator: the maximal separator-free pieces of `s`, in order.
   * The empty string splits into one empty piece, as in JavaScript.
   */
  function Split(s: string, sep: char): (parts: seq<string>)
    ensures |parts| >= 1
    ensures forall i :: 0 <= i < |parts| ==> sep !in parts[i]
    decreases |s|
  {
    if |s| == 0 then [""]
    else
      var init := Split(s[..|s| - 1], sep);
      var c := s[|s| - 1];
      if c == sep then init + [""]
      else init[..|init| - 1] + [init[|init| - 1] + [c]]
  }

  /** JavaScript's `join`: the pieces with `sep` between them; an empty list joins to the empty string. */
  function Join(parts: seq<string>, sep: char): string
    decreases |parts|
  {
    if |parts| == 0 then ""
    else if |parts| == 1 then parts[0]
    else Join(parts[..|parts| - 1], sep) + [sep] + parts[|parts| - 1]
  }

  function Last<T>(s: seq<T>): T
    requires |s| > 0
  {
    s[|s| - 1]
  }

  /** Joining the pieces of a split gives back the original string. */
  lemma {:induction false} JoinSplit(s: string, sep: char)
    ensures Join(Split(s, sep), sep) == s
    decreases |s|
  {
    if |s| > 0 {
      var init := Split(s[..|s| - 1], sep);
      JoinSplit(s[..|s| - 1], sep);
      var c := s[|s| - 1];
      if c == sep {
        assert (init + [""])[..|init|] == init;
      } else {
        var parts := init[..|init| - 1] + [init[|init| - 1] + [c]];
        if |init| > 1 {
          assert parts[..|parts| - 1] == init[..|init| - 1];
        }
      }
      assert s == s[..|s| - 1] + [c];
    }
  }

  /** Splitting `t + sep + x`, where `x` holds no separator, adds `x` as a last piece. */
  lemma {:induction false} SplitSnoc(t: string, sep: char, x: string)
    requires sep !in x
    ensures Split(t + [sep] + x, sep) == Split(t, sep) + [x]
    decreases |x|
  {
    var s := t + [sep] + x;
    if |x| == 0 {
      assert s[..|s| - 1] == t;
    } else {
      var x' := x[..|x| - 1];
      assert s[..|s| - 1] == t + [sep] + x';
      SplitSnoc(t, sep, x');
      assert x == x' + [x[|x| - 1]];
    }
  }

  /** A non-empty list of separator-free pieces is recovered by splitting its join. */
  lemma {:induction false} SplitJoin(parts: seq<string>, sep: char)
    requires |parts| >= 1
    requires forall i :: 0 <= i < |parts| ==> sep !in parts[i]
    ensures Split(Join(parts, sep), sep) == parts
    decreases |parts|
  {
    if |parts| == 1 {
      SplitFree(parts[0], sep);
    } else {
      var init := parts[..|parts| - 1];
      SplitJoin(init, sep);
      SplitSnoc(Join(init, sep), sep, parts[|parts| - 1]);
    }
  }

  /** A separator-free string splits into itself. */
  lemma {:induction false} SplitFree(s: string, sep: char)
    requires sep !in s
    ensures Split(s, sep) == [s]
    decreases |s|
  {
    if |s| > 0 {
      SplitFree(s[..|s| - 1], sep);
      assert s == s[..|s| - 1] + [s[|s| - 1]];
    }
  }

  /**
   * The last piece of a split is the longest separator-free suffix: it is a
   * suffix of `s`, and it is either all of `s` or preceded by a separator.
   */
  lemma {:induction false} LastPieceIsTail(s: string, sep: char)
    ensures var p := Last(Split(s, sep));
      && |p| <= |s|
      && s[|s| - |p|..] == p
      && (|p| == |s| || s[|s| - |p| - 1] == sep)
    decreases |s|
  {
    if |s| > 0 {
      var s' := s[..|s| - 1];
      LastPieceIsTail(s', sep);
      var init := Split(s', sep);
      var c := s[|s| - 1];
      var p' := Last(init);
      if c != sep {
        var p := p' + [c];
        assert Last(Split(s, sep)) == p;
        assert s[|s| - |p|..] == s'[|s'| - |p'|..] + [c];
      }
    }
  }

  /** The first piece of a non-empty string is empty exactly when it starts with the separator. */
  lemma {:induction false} FirstPieceEmpty(s: string, sep: char)
    requires |s| > 0
    ensures Split(s, sep)[0] == "" <==> s[0] == sep
    ensures s[0] == sep ==> |Split(s, sep)| >= 2
    decreases |s|
  {
    var s' := s[..|s| - 1];
    var c := s[|s| - 1];
    var init := Split(s', sep);
    if |s'| == 0 {
      assert init == [""];
    } else {
      FirstPieceEmpty(s', sep);
      if c != sep && |init| == 1 {
        JoinSplit(s', sep);
        assert init[0] == s';
        assert s'[0] in init[0];
      }
    }
  }

  /* ---------------------------------------------------------------- */
  /* Decimal rendering of a non-negative integer                       */
  /* ---------------------------------------------------------------- */

  predicate IsDigit(c: char) { '0' <= c <= '9' }

  predicate AllDigits(s: string) { forall i :: 0 <= i < |s| ==> IsDigit(s[i]) }

  function DigitChar(d: nat): (c: char)
    requires d < 10
    ensures IsDigit(c) && c as int - '0' as int == d
  {
    (d + '0' as int) as char
  }

  /** A number as JavaScript prints it: the decimal digits of `n`, most significant first, no leading zero. */
  function Decimal(n: nat): (s: string)
    ensures |s| >= 1 && AllDigits(s)
    ensures DigitsValue(s) == n
    ensures n > 0 ==> s[0] != '0'
    decreases n
  {
    if n < 10 then [DigitChar(n)] else Decimal(n / 10) + [DigitChar(n % 10)]
  }

  /** The value of a string of decimal digits. */
  function DigitsValue(s: string): nat
    requires AllDigits(s)
    decreases |s|
  {
    if |s| == 0 then 0
    else DigitsValue(s[..|s| - 1]) * 10 + (s[|s| - 1] as int - '0' as int)
  }

  /* ---------------------------------------------------------------- */
  /* Searching for a character                                         */
  /* ---------------------------------------------------------------- */

  /** Position of the first occurrence of `c` in `s`. */
  function FirstIndexOf(s: string, c: char): (r: Option<nat>)
    ensures r.None? <==> c !in s
    ensures r.Some? ==> r.value < |s| && s[r.value] == c && c !in s[..r.value]
    decreases |s|
  {
    if |s| == 0 then None
    else if s[0] == c then Some(0)
    else
      match FirstIndexOf(s[1..], c)
      case None => None
      case Some(i) => assert s[..i + 1] == [s[0]] + s[1..][..i]; Some(i + 1)
  }

  /** Position of the last occurrence of `c` in `s`. */
  function LastIndexOf(s: string, c: char): (r: Option<nat>)
    ensures r.None? <==> c !in s
    ensures r.Some? ==> r.value < |s| && s[r.value] == c && c !in s[r.value + 1..]
    decreases |s|
  {
    if |s| == 0 then None
    else if s[|s| - 1] == c then Some(|s| - 1)
    else
      match LastIndexOf(s[..|s| - 1], c)
      case None => None
      case Some(i) => assert s[i + 1..] == s[..|s| - 1][i + 1..] + [s[|s| - 1]]; Some(i)
  }

  /** The first occurrence is the one with no earlier occurrence. */
  lemma FirstIndexAt(s: string, c: char, k: nat)
    requires k < |s| && s[k] == c && c !in s[..k]
    ensures FirstIndexOf(s, c) == Some(k)
  {
    assert c in s;
  }

  /** The last occurrence is the one with no later occurrence. */
  lemma LastIndexAt(s: string, c: char, k: nat)
    requires k < |s| && s[k] == c && c !in s[k + 1..]
    ensures LastIndexOf(s, c) == Some(k)
  {
    assert c in s;
  }
}
