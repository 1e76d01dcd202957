/** The pieces of Python's string library that the collector and the
    analyzer rely on: `str.isspace`, `str.strip`, `str.lower` (on ASCII),
    `str.split` on one character, `sep.join`, the `in` operator on strings,
    and the word characters of the regular-expression escape `\b`. */
module Text {

  /** The characters for which Python's `str.isspace()` holds; `str.strip()`
      removes exactly these, and the regex class `\s` matches exactly these. */
  predicate IsSpace(c: char) {
    || c == ' '
    || ('\t' <= c <= '\r')
    || ('\U{1C}' <= c <= '\U{1F}')
    || c == '\U{85}' || c == '\U{A0}' || c == '\U{1680}'
    || ('\U{2000}' <= c <= '\U{200A}')
    || c == '\U{2028}' || c == '\U{2029}' || c == '\U{202F}' || c == '\U{205F}' || c == '\U{3000}'
  }

  /** A word character for `\b`: an ASCII letter, a digit or the underscore. */
  predicate IsWordChar(c: char) {
    ('a' <= c <= 'z') || ('A' <= c <= 'Z') || ('0' <= c <= '9') || c == '_'
  }

  function LowerChar(c: char): char {
    if 'A' <= c <= 'Z' then (c as int + 32) as char else c
  }

  /** `str.lower()` restricted to ASCII letters: no upper-case ASCII letter
      is left, and every other character is kept. */
  function Lower(s: string): (r: string)
    ensures |r| == |s|
    ensures forall k :: 0 <= k < |r| ==> !('A' <= r[k] <= 'Z')
    ensures forall k :: 0 <= k < |s| && !('A' <= s[k] <= 'Z') ==> r[k] == s[k]
  {
    seq(|s|, i requires 0 <= i < |s| => LowerChar(s[i]))
  }

  /** Each upper-case ASCII letter becomes its own lower-case letter, 32 code
      points further on. */
  lemma {:induction false} LowerFolds(s: string)
    ensures forall k :: 0 <= k < |s| && 'A' <= s[k] <= 'Z' ==>
      'a' <= Lower(s)[k] <= 'z' && Lower(s)[k] as int == s[k] as int + 32
  {
  }

  // ---------------------------------------------------------------------
  // strip
  // ---------------------------------------------------------------------

  /** `str.lstrip()`: the longest suffix of `s` that does not start with whitespace. */
  function TrimLeft(s: string): (r: string)
    ensures |r| <= |s| && r == s[|s| - |r|..]
    ensures r == [] || !IsSpace(r[0])
    ensures forall k :: 0 <= k < |s| - |r| ==> IsSpace(s[k])
    decreases |s|
  {
    if s != [] && IsSpace(s[0]) then TrimLeft(s[1..]) else s
  }

  /** `str.rstrip()`: the longest prefix of `s` that does not end with whitespace. */
  function TrimRight(s: string): (r: string)
    ensures |r| <= |s| && r == s[..|r|]
    ensures r == [] || !IsSpace(r[|r| - 1])
    ensures forall k :: |r| <= k < |s| ==> IsSpace(s[k])
    decreases |s|
  {
    if s != [] && IsSpace(s[|s| - 1]) then TrimRight(s[..|s| - 1]) else s
  }

  /** A string with no whitespace at either end. */
  predicate IsStripped(s: string) {
    s == [] || (!IsSpace(s[0]) && !IsSpace(s[|s| - 1]))
  }

  /** An item of a comma-separated list as `strip()` leaves it: non-empty,
      without a comma and without whitespace at either end. */
  predicate IsName(x: string) {
    x != [] && ',' !in x && IsStripped(x)
  }

  /** The number of whitespace characters at the start of `s`. */
  function LeadingSpace(s: string): nat {
    |s| - |TrimLeft(s)|
  }

  /** `str.strip()`: `s` without its leading and trailing whitespace. The
      result has no whitespace at either end, and it is empty exactly when
      `s` is all whitespace. */
  function Strip(s: string): (r: string)
    ensures IsStripped(r)
    ensures r == [] <==> forall k :: 0 <= k < |s| ==> IsSpace(s[k])
  {
    TrimRight(TrimLeft(s))
  }

  /** The stripped text is the infix of `s` that starts after the leading
      whitespace and ends before the trailing whitespace. */
  lemma StripIsInfix(s: string)
    ensures LeadingSpace(s) + |Strip(s)| <= |s|
    ensures Strip(s) == s[LeadingSpace(s)..LeadingSpace(s) + |Strip(s)|]
    ensures forall k :: 0 <= k < LeadingSpace(s) ==> IsSpace(s[k])
    ensures forall k :: LeadingSpace(s) + |Strip(s)| <= k < |s| ==> IsSpace(s[k])
  {
  }

  lemma StripKeepsCharsOut(s: string, c: char)
    requires c !in s
    ensures c !in Strip(s)
  {
    StripIsInfix(s);
    var r, a := Strip(s), LeadingSpace(s);
    forall k | 0 <= k < |r| ensures r[k] != c {
      assert r[k] == s[a + k];
    }
  }

  /** Stripping a string that is already stripped changes nothing. */
  lemma StripOfStripped(s: string)
    requires IsStripped(s)
    ensures Strip(s) == s
  {
    assert TrimLeft(s) == s;
    assert TrimRight(s) == s;
  }

  /** One leading blank goes away under `strip()`. */
  lemma StripLeadingBlank(s: string)
    requires IsStripped(s)
    ensures Strip(" " + s) == s
  {
    assert (" " + s)[1..] == s;
    assert TrimLeft(" " + s) == TrimLeft(s) == s;
    assert TrimRight(s) == s;
  }

  // ---------------------------------------------------------------------
  // join and split
  // ---------------------------------------------------------------------

  /** `sep.join(xs)`. */
  function Join(xs: seq<string>, sep: string): string
    decreases |xs|
  {
    if |xs| == 0 then "" else if |xs| == 1 then xs[0] else xs[0] + sep + Join(xs[1..], sep)
  }

  /** `s.split(sep)` for a one-character separator: the pieces that lie
      between the separators, so there is always at least one piece, no piece
      contains the separator, and joining the pieces with the separator gives
      back `s`. */
  function Split(s: string, sep: char): (parts: seq<string>)
    ensures |parts| >= 1
    ensures forall k :: 0 <= k < |parts| ==> sep !in parts[k]
    ensures Join(parts, [sep]) == s
    decreases |s|
  {
    if s == [] then [""]
    else
      var rest := Split(s[1..], sep);
      if s[0] == sep then
        assert ([""] + rest)[1..] == rest;
        [""] + rest
      else
        var first := [s[0]] + rest[0];
        assert ([first] + rest[1..])[1..] == rest[1..];
        assert s == [s[0]] + s[1..];
        [first] + rest[1..]
  }

  lemma {:induction false} SplitOfPiece(x: string, sep: char)
    requires sep !in x
    ensures Split(x, sep) == [x]
    decreases |x|
  {
    if x != [] {
      SplitOfPiece(x[1..], sep);
      assert [x[0]] + x[1..] == x;
    }
  }

  lemma {:induction false} SplitOfPieceThenSep(x: string, sep: char, s: string)
    requires sep !in x
    ensures Split(x + [sep] + s, sep) == [x] + Split(s, sep)
    decreases |x|
  {
    if x == [] {
      assert x + [sep] + s == [sep] + s;
      assert ([sep] + s)[1..] == s;
    } else {
      var t := x + [sep] + s;
      assert t[1..] == x[1..] + [sep] + s;
      SplitOfPieceThenSep(x[1..], sep, s);
      assert [x[0]] + x[1..] == x;
    }
  }

  /** Splitting undoes joining: pieces that do not contain the separator are
      recovered exactly from their join. */
  lemma {:induction false} SplitOfJoin(parts: seq<string>, sep: char)
    requires |parts| >= 1
    requires forall k :: 0 <= k < |parts| ==> sep !in parts[k]
    ensures Split(Join(parts, [sep]), sep) == parts
    decreases |parts|
  {
    if |parts| == 1 {
      SplitOfPiece(parts[0], sep);
    } else {
      SplitOfJoin(parts[1..], sep);
      SplitOfPieceThenSep(parts[0], sep, Join(parts[1..], [sep]));
      assert [parts[0]] + parts[1..] == parts;
    }
  }

  lemma {:induction false} JoinFirstChar(xs: seq<string>, sep: string)
    requires |xs| >= 1 && xs[0] != []
    ensures Join(xs, sep) != [] && Join(xs, sep)[0] == xs[0][0]
  {
  }

  lemma {:induction false} JoinLastChar(xs: seq<string>, sep: string)
    requires |xs| >= 1 && xs[|xs| - 1] != []
    ensures Join(xs, sep) != [] && Join(xs, sep)[|Join(xs, sep)| - 1] == xs[|xs| - 1][|xs[|xs| - 1]| - 1]
    decreases |xs|
  {
    if |xs| > 1 {
      JoinLastChar(xs[1..], sep);
    }
  }

  // ---------------------------------------------------------------------
  // substring search: Python's `needle in haystack`
  // ---------------------------------------------------------------------

  predicate OccursAt(s: string, needle: string, i: int) {
    0 <= i && i + |needle| <= |s| && s[i..i + |needle|] == needle
  }

  /** Python's `needle in s` for strings. */
  predicate Contains(s: string, needle: string) {
    exists i | 0 <= i <= |s| - |needle| :: OccursAt(s, needle, i)
  }

  /** A needle with a character that the haystack lacks is not in it. */
  lemma AbsentCharExcludes(s: string, needle: string, c: char)
    requires c in needle && c !in s
    ensures !Contains(s, needle)
  {
  }

  lemma OccursInLeft(a: string, b: string, needle: string, i: int)
    requires OccursAt(a, needle, i)
    ensures OccursAt(a + b, needle, i)
  {
    assert (a + b)[i..i + |needle|] == a[i..i + |needle|];
  }

  lemma OccursInRight(a: string, b: string, needle: string, i: int)
    requires OccursAt(b, needle, i)
    ensures OccursAt(a + b, needle, |a| + i)
  {
    assert (a + b)[|a| + i..|a| + i + |needle|] == b[i..i + |needle|];
  }

  /** A theme name that contains a needle makes the joined list contain it. */
  lemma {:induction false} ContainsInJoin(xs: seq<string>, sep: string, j: int, needle: string)
    requires 0 <= j < |xs| && Contains(xs[j], needle)
    ensures Contains(Join(xs, sep), needle)
    decreases |xs|
  {
    if |xs| == 1 {
    } else if j == 0 {
      var i :| 0 <= i <= |xs[0]| - |needle| && OccursAt(xs[0], needle, i);
      OccursInLeft(xs[0], sep + Join(xs[1..], sep), needle, i);
      assert xs[0] + sep + Join(xs[1..], sep) == xs[0] + (sep + Join(xs[1..], sep));
    } else {
      ContainsInJoin(xs[1..], sep, j - 1, needle);
      var rest := Join(xs[1..], sep);
      var i :| 0 <= i <= |rest| - |needle| && OccursAt(rest, needle, i);
      OccursInRight(xs[0] + sep, rest, needle, i);
    }
  }

  lemma SeparatorAt(x: string, rest: string)
    ensures (x + ", " + rest)[|x|] == ',' && (x + ", " + rest)[|x| + 1] == ' '
  {
  }

  /** Conversely, a needle without a comma and without a leading blank that
      occurs in a ", "-joined list occurs inside one of the listed names:
      it cannot straddle a separator. */
  lemma {:induction false} ContainsInJoinOnlyWithin(xs: seq<string>, needle: string)
    requires needle != [] && needle[0] != ' ' && ',' !in needle
    requires Contains(Join(xs, ", "), needle)
    ensures exists j :: 0 <= j < |xs| && Contains(xs[j], needle)
    decreases |xs|
  {
    if |xs| == 0 {
    } else if |xs| == 1 {
      assert Contains(xs[0], needle);
    } else {
      var x, rest := xs[0], Join(xs[1..], ", ");
      var s := Join(xs, ", ");
      assert s == x + ", " + rest;
      var i :| 0 <= i <= |s| - |needle| && OccursAt(s, needle, i);
      if i + |needle| <= |x| {
        assert x[i..i + |needle|] == s[i..i + |needle|];
        assert OccursAt(x, needle, i);
      } else if i <= |x| {
        SeparatorAt(x, rest);
        assert false;  // the needle would have to contain the comma at s[|x|]
      } else if i == |x| + 1 {
        assert false;  // the needle would have to start with the blank at s[|x| + 1]
      } else {
        var i' := i - |x| - 2;
        assert rest[i'..i' + |needle|] == s[i..i + |needle|];
        assert OccursAt(rest, needle, i');
        ContainsInJoinOnlyWithin(xs[1..], needle);
        var j :| 0 <= j < |xs[1..]| && Contains(xs[1..][j], needle);
        assert Contains(xs[j + 1], needle);
      }
    }
  }
}
