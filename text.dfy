/**
 * Character-level helpers shared by the form validators, the tag editor and the
 * query builder.  White space is a fixed set of code points (the ones JavaScript's
 * `String.prototype.trim` and the regular-expression class `\s` treat as blank in
 * the ASCII and Latin-1 ranges, plus the byte-order mark and the line/paragraph
 * separators); lower-casing is ASCII-only.
 */
module Text {

  predicate IsSpace(c: char) {
    c == ' ' || c == '\t' || c == '\n' || c == '\r' || c == '\U{B}' || c == '\U{C}'
    || c == '\U{A0}' || c == '\U{FEFF}' || c == '\U{2028}' || c == '\U{2029}'
  }

  predicate AllSpace(s: string) {
    forall i :: 0 <= i < |s| ==> IsSpace(s[i])
  }

  predicate NoSpace(s: string) {
    forall i :: 0 <= i < |s| ==> !IsSpace(s[i])
  }

  /** Drops leading white space. */
  function TrimStart(s: string): (r: string)
    ensures |r| <= |s|
    ensures r == [] <==> AllSpace(s)
    ensures r == [] || !IsSpace(r[0])
  {
    if s != [] && IsSpace(s[0]) then
      assert AllSpace(s[1..]) ==> AllSpace(s) by {
        if AllSpace(s[1..]) {
          forall i | 0 <= i < |s| ensures IsSpace(s[i]) {
            if i > 0 { assert s[i] == s[1..][i - 1]; }
          }
        }
      }
      TrimStart(s[1..])
    else
      s
  }

  /** Drops trailing white space; a non-empty result keeps the first character. */
  function TrimEnd(s: string): (r: string)
    ensures |r| <= |s|
    ensures r == [] <==> AllSpace(s)
    ensures r == [] || (!IsSpace(r[|r| - 1]) && r[0] == s[0])
  {
    if s != [] && IsSpace(s[|s| - 1]) then
      var init := s[..|s| - 1];
      assert AllSpace(init) ==> AllSpace(s) by {
        if AllSpace(init) {
          forall i | 0 <= i < |s| ensures IsSpace(s[i]) {
            if i < |s| - 1 { assert s[i] == init[i]; }
          }
        }
      }
      TrimEnd(init)
    else
      s
  }

  /** `s.trim()`: the result is empty exactly for an all-blank string, and otherwise
      starts and ends with a non-blank character. */
  function Trim(s: string): (r: string)
    ensures |r| <= |s|
    ensures r == [] <==> AllSpace(s)
    ensures r == [] || (!IsSpace(r[0]) && !IsSpace(r[|r| - 1]))
  {
    TrimEnd(TrimStart(s))
  }

  /** `TrimStart` removes exactly the leading white space: the result is a suffix,
      and everything before it is blank. */
  lemma {:induction false} TrimStartIsSuffix(s: string)
    ensures TrimStart(s) == s[|s| - |TrimStart(s)|..]
    ensures AllSpace(s[..|s| - |TrimStart(s)|])
    decreases |s|
  {
    if s != [] && IsSpace(s[0]) {
      var k := |s| - |TrimStart(s)|;
      TrimStartIsSuffix(s[1..]);
      assert s[1..][k - 1..] == s[k..];
      forall i | 0 <= i < k ensures IsSpace(s[..k][i]) {
        if i > 0 {
          assert s[..k][i] == s[1..][..k - 1][i - 1];
        }
      }
    }
  }

  /** `TrimEnd` removes exactly the trailing white space: the result is a prefix,
      and everything after it is blank. */
  lemma {:induction false} TrimEndIsPrefix(s: string)
    ensures TrimEnd(s) == s[..|TrimEnd(s)|]
    ensures AllSpace(s[|TrimEnd(s)|..])
    decreases |s|
  {
    if s != [] && IsSpace(s[|s| - 1]) {
      var init := s[..|s| - 1];
      var n := |TrimEnd(s)|;
      TrimEndIsPrefix(init);
      assert init[..n] == s[..n];
      forall i | 0 <= i < |s| - n ensures IsSpace(s[n..][i]) {
        if n + i < |s| - 1 {
          assert s[n..][i] == init[n..][i];
        }
      }
    }
  }

  /** `s.trim()` cuts `s` into blank leading text, the result, and blank trailing
      text, and removes nothing else. */
  lemma TrimIsInfix(s: string)
    ensures var i := |s| - |TrimStart(s)|; var j := i + |Trim(s)|;
      && j <= |s| && Trim(s) == s[i..j] && s == s[..i] + Trim(s) + s[j..]
      && AllSpace(s[..i]) && AllSpace(s[j..])
  {
    TrimStartIsSuffix(s);
    TrimEndIsPrefix(TrimStart(s));
    BlankFrame(s, TrimStart(s), Trim(s));
  }

  /** A suffix `t` of `s` behind blank text, and a prefix `r` of `t` before blank
      text, leave `s` as blank + `r` + blank. */
  lemma BlankFrame(s: string, t: string, r: string)
    requires |t| <= |s| && t == s[|s| - |t|..] && AllSpace(s[..|s| - |t|])
    requires |r| <= |t| && r == t[..|r|] && AllSpace(t[|r|..])
    ensures var i := |s| - |t|; var j := i + |r|;
      && j <= |s| && r == s[i..j] && s == s[..i] + r + s[j..]
      && AllSpace(s[..i]) && AllSpace(s[j..])
  {
    var i := |s| - |t|;
    var j := i + |r|;
    assert t[|r|..] == s[j..];
    assert s == s[..i] + s[i..j] + s[j..];
  }

  /** A string that has no blank at either end (or is empty) is its own trim. */
  lemma {:induction false} TrimOfTrimmed(s: string)
    requires s == [] || (!IsSpace(s[0]) && !IsSpace(s[|s| - 1]))
    ensures Trim(s) == s
  {
    assert TrimStart(s) == s;
    assert TrimEnd(s) == s;
  }

  /** `!s.trim()`: by `Trim`'s contract the trimmed string is empty exactly when
      every character of `s` is white space. */
  predicate IsBlank(s: string) {
    AllSpace(s)
  }

  function LowerChar(c: char): (r: char)
    ensures IsSpace(r) <==> IsSpace(c)
    ensures !('A' <= r <= 'Z')
  {
    if 'A' <= c <= 'Z' then (c as int + 32) as char else c
  }

  /** ASCII `toLowerCase`: every letter A-Z is replaced by its lower-case form. */
  function ToLower(s: string): (r: string)
    ensures |r| == |s|
    ensures forall i :: 0 <= i < |s| ==> r[i] == LowerChar(s[i])
  {
    seq(|s|, i requires 0 <= i < |s| => LowerChar(s[i]))
  }

  /** Lower-casing twice is lower-casing once. */
  lemma ToLowerIdempotent(s: string)
    ensures ToLower(ToLower(s)) == ToLower(s)
  {
  }

  /** The tag normalisation `s.trim().toLowerCase()`. */
  function Normalize(s: string): (r: string)
    ensures |r| <= |s|
    ensures r == [] <==> AllSpace(s)
  {
    ToLower(Trim(s))
  }

  /** What survives normalisation: the lower-cased text between the blank leading
      and trailing runs. */
  lemma NormalizeKeepsCore(s: string)
    ensures var i := |s| - |TrimStart(s)|; var j := i + |Trim(s)|;
      && j <= |s| && Normalize(s) == ToLower(s[i..j])
      && AllSpace(s[..i]) && AllSpace(s[j..])
  {
    TrimIsInfix(s);
  }

  /** A normalised string is a fixed point of normalisation. */
  lemma {:induction false} NormalizeIdempotent(s: string)
    ensures Normalize(Normalize(s)) == Normalize(s)
  {
    var t := Trim(s);
    var l := ToLower(t);
    LowerKeepsEnds(t);
    calc {
      Normalize(Normalize(s));
      Normalize(l);
      ToLower(Trim(l));
      { TrimOfTrimmed(l); }
      ToLower(l);
      { ToLowerIdempotent(t); }
      l;
    }
  }

  /** Lower-casing keeps a string free of white space at both ends. */
  lemma LowerKeepsEnds(t: string)
    requires t == [] || (!IsSpace(t[0]) && !IsSpace(t[|t| - 1]))
    ensures var l := ToLower(t); l == [] || (!IsSpace(l[0]) && !IsSpace(l[|l| - 1]))
  {
  }

  /** `needle` occurs as a contiguous substring of `hay`. */
  predicate Contains(hay: string, needle: string) {
    exists i :: 0 <= i <= |hay| - |needle| && OccursAt(hay, needle, i)
  }

  predicate OccursAt(hay: string, needle: string, i: int)
    requires 0 <= i <= |hay| - |needle|
  {
    hay[i..i + |needle|] == needle
  }

  /** Case-insensitive (ASCII) substring test. */
  predicate ContainsIgnoringCase(hay: string, needle: string) {
    Contains(ToLower(hay), ToLower(needle))
  }

  /** Index of the first occurrence of `c` in `s`. */
  function IndexOf(s: string, c: char): (k: nat)
    requires c in s
    ensures k < |s| && s[k] == c && c !in s[..k]
  {
    if s[0] == c then 0 else
      assert c in s[1..] by { var j :| 0 <= j < |s| && s[j] == c; assert s[1..][j - 1] == c; }
      1 + IndexOf(s[1..], c)
  }

  /** `s.split(sep)` for a one-character separator: the pieces between separators,
      at least one, none containing `sep`. */
  function Split(s: string, sep: char): (parts: seq<string>)
    ensures |parts| >= 1
    ensures forall i :: 0 <= i < |parts| ==> sep !in parts[i]
    ensures |parts| == 1 <==> sep !in s
    ensures |parts[0]| <= |s|
    ensures parts[0] == s[..|parts[0]|] && (parts[0] == s || s[|parts[0]|] == sep)
    decreases |s|
  {
    if sep !in s then [s]
    else
      var k := IndexOf(s, sep);
      [s[..k]] + Split(s[k + 1..], sep)
  }

  /** `parts.join(sep)`. */
  function Join(parts: seq<string>, sep: char): string
    requires |parts| >= 1
  {
    if |parts| == 1 then parts[0] else parts[0] + [sep] + Join(parts[1..], sep)
  }

  /** Splitting loses nothing: joining the pieces back gives the original string. */
  lemma {:induction false} JoinSplit(s: string, sep: char)
    ensures Join(Split(s, sep), sep) == s
    decreases |s|
  {
    if sep in s {
      var k := IndexOf(s, sep);
      var head, tail := s[..k], s[k + 1..];
      assert s == head + [sep] + tail;
      SplitAfterPiece(head, sep, tail);
      JoinSplit(tail, sep);
      JoinCons(head, Split(tail, sep), sep);
    }
  }

  /** Joining a leading piece in front of a non-empty list of pieces. */
  lemma JoinCons(head: string, rest: seq<string>, sep: char)
    requires |rest| >= 1
    ensures Join([head] + rest, sep) == head + [sep] + Join(rest, sep)
  {
    assert ([head] + rest)[1..] == rest;
  }

  /** Splitting a string that contains no separator gives that string alone, and
      a separator in front of it adds one leading piece. */
  lemma {:induction false} SplitAfterPiece(head: string, sep: char, tail: string)
    requires sep !in head
    ensures Split(head + [sep] + tail, sep) == [head] + Split(tail, sep)
  {
    var s := head + [sep] + tail;
    assert s[|head|] == sep;
    var k := IndexOf(s, sep);
    assert s[..|head|] == head;
    assert s[k + 1..] == tail;
  }

  function DigitChar(d: nat): char
    requires d < 10
  {
    ('0' as int + d) as char
  }

  function DigitValue(c: char): int {
    c as int - '0' as int
  }

  /** Reading a string of decimal digits back as a number. */
  function DecimalValue(s: string): int {
    if s == [] then 0 else 10 * DecimalValue(s[..|s| - 1]) + DigitValue(s[|s| - 1])
  }

  /** The decimal rendering of a natural number, as a template literal prints it:
      digits only, with no leading zero. */
  function NatToString(n: nat): (r: string)
    ensures |r| >= 1
    ensures forall i :: 0 <= i < |r| ==> '0' <= r[i] <= '9'
    ensures n > 0 ==> r[0] != '0'
  {
    if n < 10 then [DigitChar(n)] else NatToString(n / 10) + [DigitChar(n % 10)]
  }

  /** The rendering reads back as the number it renders. */
  lemma {:induction false} NatToStringValue(n: nat)
    ensures DecimalValue(NatToString(n)) == n
    decreases n
  {
    var r := NatToString(n);
    if n < 10 {
      assert r[..0] == [];
    } else {
      NatToStringValue(n / 10);
      assert r[..|r| - 1] == NatToString(n / 10);
      assert DigitValue(r[|r| - 1]) == n % 10;
    }
  }

  /** JavaScript's `s.length`: UTF-16 code units, two for a character outside the
      Basic Multilingual Plane. */
  function Utf16Units(c: char): nat {
    if c as int >= 0x1_0000 then 2 else 1
  }

  function Utf16Length(s: string): (n: nat)
    ensures |s| <= n <= 2 * |s|
    ensures n == 0 <==> s == []
  {
    if s == [] then 0 else Utf16Units(s[0]) + Utf16Length(s[1..])
  }

  /** Inside the Basic Multilingual Plane the length is the number of characters. */
  lemma {:induction false} BmpLength(s: string)
    requires forall i :: 0 <= i < |s| ==> s[i] as int < 0x1_0000
    ensures Utf16Length(s) == |s|
  {
    if s != [] {
      assert forall i :: 0 <= i < |s| - 1 ==> s[1..][i] == s[i + 1];
      BmpLength(s[1..]);
    }
  }

  /** Lengths add up over concatenation. */
  lemma {:induction false} Utf16LengthAppend(a: string, b: string)
    ensures Utf16Length(a + b) == Utf16Length(a) + Utf16Length(b)
  {
    if a != [] {
      assert (a + b)[1..] == a[1..] + b;
      Utf16LengthAppend(a[1..], b);
    } else {
      assert a + b == b;
    }
  }
}
