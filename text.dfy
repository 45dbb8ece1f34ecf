/**
 * The three string helpers of Go's `strings` package that the plugin uses on
 * configuration text: `Split(s, ",")`, `TrimSpace` and `ToLower`.
 */
module Text {

  const Comma: char := ','

  /** Go's `unicode.IsSpace`: the Latin-1 spaces plus the Unicode White_Space runes. */
  predicate IsSpace(c: char) {
    || c == ' '
    || ('\t' <= c <= '\r')
    || c == '\U{0085}' || c == '\U{00A0}' || c == '\U{1680}'
    || ('\U{2000}' <= c <= '\U{200A}')
    || c == '\U{2028}' || c == '\U{2029}' || c == '\U{202F}' || c == '\U{205F}' || c == '\U{3000}'
  }

  /** Neither end of `s` is a space. */
  predicate IsTrimmed(s: string) {
    s == [] || (!IsSpace(s[0]) && !IsSpace(s[|s| - 1]))
  }

  /** Drops the leading spaces. */
  function TrimLeft(s: string): (r: string)
    ensures |r| <= |s|
    ensures r == [] || !IsSpace(r[0])
  {
    if s != [] && IsSpace(s[0]) then TrimLeft(s[1..]) else s
  }

  /** Drops the trailing spaces. */
  function TrimRight(s: string): (r: string)
    ensures |r| <= |s|
    ensures r == [] || !IsSpace(r[|r| - 1])
  {
    if s != [] && IsSpace(s[|s| - 1]) then TrimRight(s[..|s| - 1]) else s
  }

  /** `TrimLeft` keeps a suffix and everything it drops is a space. */
  lemma {:induction false} TrimLeftDropsSpaces(s: string)
    ensures TrimLeft(s) == s[|s| - |TrimLeft(s)|..]
    ensures forall k :: 0 <= k < |s| - |TrimLeft(s)| ==> IsSpace(s[k])
  {
    if s != [] && IsSpace(s[0]) {
      TrimLeftDropsSpaces(s[1..]);
    }
  }

  /** `TrimRight` keeps a prefix and everything it drops is a space. */
  lemma {:induction false} TrimRightDropsSpaces(s: string)
    ensures TrimRight(s) == s[..|TrimRight(s)|]
    ensures forall k :: |TrimRight(s)| <= k < |s| ==> IsSpace(s[k])
  {
    if s != [] && IsSpace(s[|s| - 1]) {
      TrimRightDropsSpaces(s[..|s| - 1]);
    }
  }

  /** `r` is `s[i..j]` for some `i <= j`, and everything outside `i..j` is a space. */
  predicate StripsEnds(s: string, r: string) {
    exists i, j :: 0 <= i <= j <= |s| && r == s[i..j] && AllSpaces(s[..i]) && AllSpaces(s[j..])
  }

  /** Every character of `s` is a space. */
  predicate AllSpaces(s: string) {
    forall k :: 0 <= k < |s| ==> IsSpace(s[k])
  }

  /** `strings.TrimSpace`: no space is left at either end. */
  function TrimSpace(s: string): (r: string)
    ensures |r| <= |s|
    ensures IsTrimmed(r)
  {
    var l := TrimLeft(s);
    TrimRightDropsSpaces(l);
    TrimRight(l)
  }

  /**
   * What `TrimSpace` removes: the result is `s` with its leading and
   * trailing spaces dropped, and nothing else.
   */
  lemma {:induction false} TrimSpaceStripsEnds(s: string)
    ensures StripsEnds(s, TrimSpace(s))
  {
    var l := TrimLeft(s);
    var r := TrimRight(l);
    var i := |s| - |l|;
    var j := i + |r|;
    assert l == s[i..] && AllSpaces(s[..i]) by {
      TrimLeftDropsSpaces(s);
      forall k | 0 <= k < i
        ensures s[..i][k] == s[k] && IsSpace(s[k])
      {
      }
    }
    assert r == l[..|r|] && AllSpaces(l[|r|..]) by {
      TrimRightDropsSpaces(l);
      forall k | 0 <= k < |l| - |r|
        ensures l[|r|..][k] == l[|r| + k] && IsSpace(l[|r| + k])
      {
      }
    }
    assert r == s[i..j] && s[j..] == l[|r|..];
    StripsEndsIntro(s, r, i, j);
  }

  /** A witness pair for `StripsEnds`. */
  lemma StripsEndsIntro(s: string, r: string, i: int, j: int)
    requires 0 <= i <= j <= |s| && r == s[i..j] && AllSpaces(s[..i]) && AllSpaces(s[j..])
    ensures StripsEnds(s, r)
  {
  }

  /** `TrimSpace` gives the empty string exactly for a string made of spaces only. */
  lemma {:induction false} TrimSpaceEmpty(s: string)
    ensures TrimSpace(s) == [] <==> forall k :: 0 <= k < |s| ==> IsSpace(s[k])
  {
    var l := TrimLeft(s);
    TrimLeftDropsSpaces(s);
    TrimRightDropsSpaces(l);
    if TrimSpace(s) == [] {
      assert l == [];
    }
  }

  /** The inverse of `Split`: the pieces glued back together with commas. */
  function Join(parts: seq<string>): string
    requires |parts| >= 1
  {
    if |parts| == 1 then parts[0] else parts[0] + [Comma] + Join(parts[1..])
  }

  /**
   * `strings.Split(s, ",")`: the pieces between the commas, left to right;
   * the empty string gives one empty piece.
   */
  function Split(s: string): (parts: seq<string>)
    ensures |parts| >= 1
  {
    if s == [] then [""]
    else
      var rest := Split(s[1..]);
      if s[0] == Comma then [""] + rest
      else [[s[0]] + rest[0]] + rest[1..]
  }

  /** No piece of `Split(s)` holds a comma, and joining the pieces with commas gives `s` back. */
  lemma {:induction false} SplitPieces(s: string)
    ensures Join(Split(s)) == s
    ensures forall i :: 0 <= i < |Split(s)| ==> Comma !in Split(s)[i]
  {
    if s != [] {
      var rest := Split(s[1..]);
      SplitPieces(s[1..]);
      var parts := Split(s);
      if s[0] == Comma {
        assert parts == [""] + rest;
        assert parts[1..] == rest;
      } else {
        assert parts == [[s[0]] + rest[0]] + rest[1..];
        assert parts[1..] == rest[1..];
        assert |rest| > 1 ==> Join(rest) == rest[0] + [Comma] + Join(rest[1..]);
        assert s == [s[0]] + s[1..];
        forall i | 0 <= i < |parts|
          ensures Comma !in parts[i]
        {
          if i > 0 {
            assert parts[i] == rest[i];
          }
        }
      }
    }
  }

  /** A string without a comma splits into itself alone. */
  lemma {:induction false} SplitNoComma(a: string)
    requires Comma !in a
    ensures Split(a) == [a]
  {
    if a != [] {
      SplitNoComma(a[1..]);
      assert a == [a[0]] + a[1..];
    }
  }

  /** Splitting `a + "," + b` with `a` comma-free gives `a` then the pieces of `b`. */
  lemma {:induction false} SplitAtComma(a: string, b: string)
    requires Comma !in a
    ensures Split(a + [Comma] + b) == [a] + Split(b)
  {
    if a == [] {
      assert a + [Comma] + b == [Comma] + b;
      assert ([Comma] + b)[1..] == b;
    } else {
      var w := a + [Comma] + b;
      SplitAtComma(a[1..], b);
      assert w[0] == a[0] && w[0] != Comma;
      assert w[1..] == a[1..] + [Comma] + b;
      var rest := Split(w[1..]);
      assert rest == [a[1..]] + Split(b);
      assert rest[0] == a[1..] && rest[1..] == Split(b);
      assert Split(w) == [[a[0]] + rest[0]] + rest[1..];
      assert [a[0]] + a[1..] == a;
    }
  }

  /** Round trip the other way: comma-free pieces survive `Join` then `Split`. */
  lemma {:induction false} SplitJoin(parts: seq<string>)
    requires |parts| >= 1
    requires forall i :: 0 <= i < |parts| ==> Comma !in parts[i]
    ensures Split(Join(parts)) == parts
  {
    if |parts| == 1 {
      SplitNoComma(parts[0]);
    } else {
      SplitJoin(parts[1..]);
      SplitAtComma(parts[0], Join(parts[1..]));
      assert [parts[0]] + parts[1..] == parts;
    }
  }

  /**
   * Go's `unicode.ToLower` restricted to what can matter when the result is
   * compared with an ASCII word: ASCII capitals, and the two non-ASCII runes
   * whose lower case is ASCII (U+0130 to 'i', the Kelvin sign U+212A to 'k').
   */
  function LowerChar(c: char): (d: char)
    ensures 'A' <= c <= 'Z' ==> d as int == c as int + 32
    ensures !('A' <= d <= 'Z')
  {
    if 'A' <= c <= 'Z' then (c as int + 32) as char
    else if c == '\U{0130}' then 'i'
    else if c == '\U{212A}' then 'k'
    else c
  }

  /** `strings.ToLower`, rune by rune. */
  function ToLower(s: string): (r: string)
    ensures |r| == |s|
    ensures forall i :: 0 <= i < |s| ==> r[i] == LowerChar(s[i])
  {
    if s == [] then [] else [LowerChar(s[0])] + ToLower(s[1..])
  }
}
