/**
 * The pieces of java.lang that the chat client's protocol code leans on:
 * String.startsWith, String.split(":"), String.trim, Integer.toString,
 * Integer.parseInt and int division, each with the semantics the JDK gives it.
 */
module JavaLang {

  datatype Option<+T> = None | Some(value: T)

  const MinInt32: int := -0x8000_0000
  const MaxInt32: int := 0x7fff_ffff

  /** A value a Java `int` can hold. */
  predicate IsInt32(n: int) {
    MinInt32 <= n <= MaxInt32
  }

  /** String.startsWith(prefix). */
  predicate StartsWith(s: string, prefix: string) {
    |prefix| <= |s| && s[..|prefix|] == prefix
  }

  /** A two-field frame built after a tag starts with that tag. */
  lemma StartsWithFrame2(tag: string, a: string, b: string)
    ensures StartsWith(tag + a + ":" + b, tag)
  {
    var s := tag + a + ":" + b;
    assert s[..|tag|] == tag by {
      forall k | 0 <= k < |tag| ensures s[k] == tag[k] {
      }
    }
  }

  /** A four-field frame built after a tag starts with that tag. */
  lemma StartsWithFrame(tag: string, a: string, b: string, c: string, d: string)
    ensures StartsWith(tag + a + ":" + b + ":" + c + ":" + d, tag)
  {
    var s := tag + a + ":" + b + ":" + c + ":" + d;
    assert s[..|tag|] == tag by {
      forall k | 0 <= k < |tag| ensures s[k] == tag[k] {
      }
    }
  }

  // ---------------------------------------------------------------------------
  // String.split(":")
  // ---------------------------------------------------------------------------

  /** A field of a colon-separated frame: it holds no separator. */
  predicate NoColon(s: string) {
    forall i :: 0 <= i < |s| ==> s[i] != ':'
  }

  predicate AllNoColon(fs: seq<string>) {
    forall k :: 0 <= k < |fs| ==> NoColon(fs[k])
  }

  /** The fields separated by ':' with joining ':' between consecutive fields. */
  function Join(fs: seq<string>): string
    requires |fs| >= 1
  {
    if |fs| == 1 then fs[0] else fs[0] + ":" + Join(fs[1..])
  }

  /**
   * Every maximal colon-free piece of `s`, empty pieces included
   * (the split before Java drops the trailing empty strings).
   */
  function Pieces(s: string): (r: seq<string>)
    ensures |r| >= 1
    ensures AllNoColon(r)
    ensures Join(r) == s
    decreases |s|
  {
    if |s| == 0 then [""]
    else if s[0] == ':' then
      var rest := Pieces(s[1..]);
      assert s == [':'] + s[1..];
      [""] + rest
    else
      var rest := Pieces(s[1..]);
      var r := [[s[0]] + rest[0]] + rest[1..];
      assert r[1..] == rest[1..];
      assert s == [s[0]] + s[1..];
      if |rest| == 1 then r
      else
        assert Join(rest) == rest[0] + ":" + Join(rest[1..]);
        r
  }

  /** Drops empty strings from the end, as split with limit 0 does. */
  function DropTrailingEmpty(fs: seq<string>): (r: seq<string>)
    ensures |r| <= |fs| && r == fs[..|r|]
    ensures r == [] || r[|r| - 1] != ""
    ensures forall k :: |r| <= k < |fs| ==> fs[k] == ""
  {
    if |fs| > 0 && fs[|fs| - 1] == "" then DropTrailingEmpty(fs[..|fs| - 1]) else fs
  }

  /**
   * String.split(":"): a string without a separator comes back as the single
   * field `[s]` (even when it is empty); otherwise the pieces between
   * separators, keeping empty inner and leading pieces and dropping the
   * trailing empty ones.
   */
  function Split(s: string): (r: seq<string>)
    ensures AllNoColon(r)
    ensures NoColon(s) ==> r == [s]
  {
    if NoColon(s) then [s] else DropTrailingEmpty(Pieces(s))
  }

  lemma {:induction false} JoinHasColon(fs: seq<string>)
    requires |fs| >= 2
    ensures !NoColon(Join(fs))
  {
    var j := Join(fs);
    assert j == fs[0] + ":" + Join(fs[1..]);
    assert j[|fs[0]|] == ':';
  }

  /** Pieces undoes Join when no field holds a separator. */
  lemma {:induction false} PiecesJoin(fs: seq<string>)
    requires |fs| >= 1 && AllNoColon(fs)
    ensures Pieces(Join(fs)) == fs
    decreases |fs|, |fs[0]|
  {
    var s := Join(fs);
    if |fs| == 1 {
      PiecesNoColon(fs[0]);
    } else if fs[0] == "" {
      assert s == ":" + Join(fs[1..]);
      assert s[1..] == Join(fs[1..]);
      PiecesJoin(fs[1..]);
      assert fs == [""] + fs[1..];
    } else {
      var tail := [fs[0][1..]] + fs[1..];
      assert AllNoColon(tail) by {
        forall k | 0 <= k < |tail| ensures NoColon(tail[k]) {
          if k > 0 { assert tail[k] == fs[k]; }
        }
      }
      assert tail[1..] == fs[1..];
      assert Join(tail) == fs[0][1..] + ":" + Join(fs[1..]);
      assert s == fs[0] + ":" + Join(fs[1..]);
      assert s[0] == fs[0][0];
      assert s[1..] == Join(tail);
      PiecesJoin(tail);
      assert fs[0] == [fs[0][0]] + fs[0][1..];
      assert fs == [fs[0]] + fs[1..];
    }
  }

  lemma {:induction false} PiecesNoColon(s: string)
    requires NoColon(s)
    ensures Pieces(s) == [s]
    decreases |s|
  {
    if |s| > 0 {
      PiecesNoColon(s[1..]);
      assert s == [s[0]] + s[1..];
    }
  }

  /**
   * Splitting a joined frame gives its fields back, provided no field holds a
   * separator and the last one is not empty (or it is the only one).
   */
  lemma SplitJoin(fs: seq<string>)
    requires |fs| >= 1 && AllNoColon(fs)
    requires |fs| == 1 || fs[|fs| - 1] != ""
    ensures Split(Join(fs)) == fs
  {
    if |fs| == 1 {
    } else {
      JoinHasColon(fs);
      PiecesJoin(fs);
    }
  }

  /** A frame of three colon-free fields, the last one non-empty, splits back into them. */
  lemma SplitFrame3(a: string, b: string, c: string)
    requires NoColon(a) && NoColon(b) && NoColon(c) && c != ""
    ensures Split(a + ":" + b + ":" + c) == [a, b, c]
  {
    var fs := [a, b, c];
    assert Join(fs[2..]) == c by { assert fs[2..] == [c]; }
    assert Join(fs[1..]) == b + ":" + c by { assert fs[1..][1..] == fs[2..]; }
    assert Join(fs) == a + ":" + (b + ":" + c);
    assert a + ":" + b + ":" + c == a + ":" + (b + ":" + c);
    SplitJoin(fs);
  }

  /** A frame of five colon-free fields, the last one non-empty, splits back into them. */
  lemma SplitFrame5(a: string, b: string, c: string, d: string, e: string)
    requires NoColon(a) && NoColon(b) && NoColon(c) && NoColon(d) && NoColon(e) && e != ""
    ensures Split(a + ":" + b + ":" + c + ":" + d + ":" + e) == [a, b, c, d, e]
  {
    var fs := [a, b, c, d, e];
    assert Join(fs[4..]) == e by { assert fs[4..] == [e]; }
    assert Join(fs[3..]) == d + ":" + e by { assert fs[3..][1..] == fs[4..]; }
    assert Join(fs[2..]) == c + ":" + (d + ":" + e) by { assert fs[2..][1..] == fs[3..]; }
    assert Join(fs[1..]) == b + ":" + (c + ":" + (d + ":" + e)) by { assert fs[1..][1..] == fs[2..]; }
    assert Join(fs) == a + ":" + (b + ":" + (c + ":" + (d + ":" + e)));
    var ab := a + ":" + b;
    var abc := ab + ":" + c;
    assert abc + ":" + d == ab + ":" + (c + ":" + d);
    assert abc + ":" + d + ":" + e == ab + ":" + (c + ":" + (d + ":" + e));
    assert ab + ":" + (c + ":" + (d + ":" + e)) == a + ":" + (b + ":" + (c + ":" + (d + ":" + e)));
    SplitJoin(fs);
  }

  /** The first field of a frame is its tag when the frame starts with tag + ":". */
  lemma {:induction false} SplitTag(s: string, tag: string)
    requires tag != "" && NoColon(tag) && StartsWith(s, tag + ":")
    ensures |Split(s)| >= 1 && Split(s)[0] == tag
  {
    assert s[|tag|] == ':';
    var rest := s[|tag| + 1..];
    var p := Pieces(rest);
    var fs := [tag] + p;
    assert fs[1..] == p;
    assert AllNoColon(fs) by {
      forall k | 0 <= k < |fs| ensures NoColon(fs[k]) {
        if k > 0 { assert fs[k] == p[k - 1]; }
      }
    }
    assert Join(fs) == tag + ":" + Join(p);
    assert s == tag + ":" + rest;
    PiecesJoin(fs);
  }

  // ---------------------------------------------------------------------------
  // String.trim()
  // ---------------------------------------------------------------------------

  /** The characters String.trim() removes: every char at or below U+0020. */
  predicate IsTrimmed(c: char) {
    c <= ' '
  }

  function TrimStart(s: string): (r: string)
    ensures |r| <= |s| && r == s[|s| - |r|..]
    ensures r == [] || !IsTrimmed(r[0])
    ensures forall k :: 0 <= k < |s| - |r| ==> IsTrimmed(s[k])
  {
    if |s| > 0 && IsTrimmed(s[0]) then
      var r := TrimStart(s[1..]);
      assert s[1..][|s| - 1 - |r|..] == s[|s| - |r|..];
      r
    else s
  }

  function TrimEnd(s: string): (r: string)
    ensures |r| <= |s| && r == s[..|r|]
    ensures r == [] || !IsTrimmed(r[|r| - 1])
    ensures forall k :: |r| <= k < |s| ==> IsTrimmed(s[k])
  {
    if |s| > 0 && IsTrimmed(s[|s| - 1]) then TrimEnd(s[..|s| - 1]) else s
  }

  /**
   * String.trim(): the longest middle part of `s` that neither starts nor ends
   * with a char at or below U+0020.
   */
  function Trim(s: string): (r: string)
    ensures r == [] || (!IsTrimmed(r[0]) && !IsTrimmed(r[|r| - 1]))
    ensures r == [] <==> forall k :: 0 <= k < |s| ==> IsTrimmed(s[k])
    ensures |r| <= |s|
  {
    TrimMiddle(s);
    TrimEnd(TrimStart(s))
  }

  lemma TrimMiddle(s: string)
    ensures TrimEnd(TrimStart(s)) == [] <==> forall k :: 0 <= k < |s| ==> IsTrimmed(s[k])
  {
    var a := TrimStart(s);
    if TrimEnd(a) == [] {
      assert a == [];
    }
  }

  // ---------------------------------------------------------------------------
  // Integer.toString and Integer.parseInt
  // ---------------------------------------------------------------------------

  predicate IsDigit(c: char) {
    '0' <= c <= '9'
  }

  predicate AllDigits(s: string) {
    forall k :: 0 <= k < |s| ==> IsDigit(s[k])
  }

  function DigitChar(d: int): (c: char)
    requires 0 <= d < 10
    ensures IsDigit(c) && c as int - '0' as int == d
  {
    ('0' as int + d) as char
  }

  /** The decimal digits of n, most significant first, without leading zeros. */
  function NatToString(n: nat): (s: string)
    ensures |s| >= 1 && AllDigits(s)
  {
    if n < 10 then [DigitChar(n)] else NatToString(n / 10) + [DigitChar(n % 10)]
  }

  /** Integer.toString(n): an optional minus sign followed by the digits of |n|. */
  function IntToString(n: int): (s: string)
    ensures |s| >= 1 && NoColon(s)
  {
    if n < 0 then "-" + NatToString(-n) else NatToString(n)
  }

  /** The value of a string of decimal digits. */
  function DigitsValue(s: string): nat
    requires AllDigits(s)
  {
    if |s| == 0 then 0
    else DigitsValue(s[..|s| - 1]) * 10 + (s[|s| - 1] as int - '0' as int)
  }

  /**
   * Integer.parseInt(s): an optional '+' or '-' followed by at least one
   * decimal digit, whose value must fit in an int; None stands for the
   * NumberFormatException thrown otherwise.
   */
  function ParseInt(s: string): (r: Option<int>)
    ensures r.Some? ==> IsInt32(r.value)
    ensures s == [] ==> r.None?
  {
    var signed := |s| > 0 && (s[0] == '-' || s[0] == '+');
    var digits := if signed then s[1..] else s;
    if |digits| == 0 || !AllDigits(digits) then None
    else
      var v: int := if signed && s[0] == '-' then -(DigitsValue(digits) as int) else DigitsValue(digits);
      if IsInt32(v) then Some(v) else None
  }

  lemma {:induction false} DigitsValueOfNat(n: nat)
    ensures DigitsValue(NatToString(n)) == n
  {
    if n >= 10 {
      var s := NatToString(n);
      assert s[..|s| - 1] == NatToString(n / 10);
      DigitsValueOfNat(n / 10);
    }
  }

  /** Integer.parseInt reads back every int that Integer.toString writes. */
  lemma ParseIntToString(n: int)
    requires IsInt32(n)
    ensures ParseInt(IntToString(n)) == Some(n)
  {
    var s := IntToString(n);
    if n < 0 {
      assert s[1..] == NatToString(-n);
      DigitsValueOfNat(-n);
    } else {
      DigitsValueOfNat(n);
    }
  }

  // ---------------------------------------------------------------------------
  // int division
  // ---------------------------------------------------------------------------

  /** Java's `a / b` on ints: the quotient rounded toward zero. */
  function Quot(a: int, b: int): (q: int)
    requires b > 0
    ensures a >= 0 ==> 0 <= q && q * b <= a < (q + 1) * b
    ensures a < 0 ==> q <= 0 && (q - 1) * b < a <= q * b
  {
    if a >= 0 then
      DivBounds(a, b);
      a / b
    else
      DivBounds(-a, b);
      var m := (-a) / b;
      assert (-m) * b == -(m * b) && (-m - 1) * b == -((m + 1) * b);
      -m
  }

  /** Euclidean division of a non-negative number by a positive one. */
  lemma {:induction false} DivBounds(n: int, d: int)
    requires 0 <= n && 0 < d
    ensures 0 <= n / d && (n / d) * d <= n < (n / d + 1) * d
  {
    var q, r := n / d, n % d;
    assert n == q * d + r && 0 <= r < d;
    assert (q + 1) * d == q * d + d;
    if q < 0 {
      MulMono(q + 1, 0, d);
      assert false;
    }
  }

  lemma {:induction false} MulMono(a: int, b: int, d: int)
    requires a <= b && 0 < d
    ensures a * d <= b * d
  {
    var k := b - a;
    assert b * d == a * d + k * d;
  }

  /** The quotient is the only q with n == q * d + r for a remainder 0 <= r < d. */
  lemma {:induction false} DivUnique(n: int, d: int, a: int, r: int)
    requires 0 <= n && 0 < d && 0 <= r < d && n == a * d + r
    ensures n / d == a
  {
    DivBounds(n, d);
    var a' := n / d;
    if a' < a {
      MulMono(a' + 1, a, d);
      assert false;
    } else if a' > a {
      MulMono(a + 1, a', d);
      assert false;
    }
  }
}
