/** `extract_secret` in mct_media_collector.py: the value of a line
    `KEY = "value"` in the text of the secrets file, found by the regular
    expression `KEY\s*=\s*"(.*?)"`. Reading the file is outside the model:
    its text is a parameter. */
module Secrets {
  import opened Wrappers
  import opened Text

  /** The keys the collector looks up are plain words, so the pattern
      matches them literally. */
  predicate IsKey(key: string) {
    key != [] && forall c :: c in key ==> IsWordChar(c)
  }

  /** The first position at or after `j` that is not whitespace (`\s*`). */
  function SkipSpace(s: string, j: nat): (k: nat)
    requires j <= |s|
    ensures j <= k <= |s|
    ensures forall m :: j <= m < k ==> IsSpace(s[m])
    ensures k == |s| || !IsSpace(s[k])
    decreases |s| - j
  {
    if j == |s| || !IsSpace(s[j]) then j else SkipSpace(s, j + 1)
  }

  /** The first position at or after `q` holding a quote or a line break:
      where the lazy `(.*?)"` stops, since `.` does not match a line break. */
  function StopAt(s: string, q: nat): (k: nat)
    requires q <= |s|
    ensures q <= k <= |s|
    ensures forall m :: q <= m < k ==> s[m] != '"' && s[m] != '\n'
    ensures k == |s| || s[k] == '"' || s[k] == '\n'
    decreases |s| - q
  {
    if q == |s| || s[q] == '"' || s[q] == '\n' then q else StopAt(s, q + 1)
  }

  /** The match of the pattern starting at position `i`, if there is one:
      the key, optional whitespace, "=", then what `AfterEquals` reads. */
  function MatchAt(content: string, key: string, i: nat): (r: Option<string>)
    ensures r.Some? ==> OccursAt(content, key, i)
    ensures r.Some? ==> '"' !in r.value && '\n' !in r.value
  {
    if !OccursAt(content, key, i) then None
    else
      var p := SkipSpace(content, i + |key|);
      if p == |content| || content[p] != '=' then None
      else AfterEquals(content, p + 1)
  }

  /** After the "=": optional whitespace, a quote, and the shortest text up
      to the next quote on the same line. */
  function AfterEquals(content: string, j: nat): Option<string>
    requires j <= |content|
  {
    var q := SkipSpace(content, j);
    if q == |content| || content[q] != '"' then None
    else
      var k := StopAt(content, q + 1);
      if k == |content| || content[k] != '"' then None
      else Some(content[q + 1..k])
  }

  /** The text at `i` has the shape the pattern describes, with `value`
      between the quotes: `key`, whitespace up to `p`, "=", whitespace up to
      `q`, a quote, `value` without quotes or line breaks, a quote. */
  predicate Shaped(content: string, key: string, i: nat, p: nat, q: nat, value: string) {
    && OccursAt(content, key, i)
    && i + |key| <= p < q < |content|
    && (forall m :: i + |key| <= m < p ==> IsSpace(content[m]))
    && content[p] == '='
    && (forall m :: p < m < q ==> IsSpace(content[m]))
    && content[q] == '"'
    && q + 1 + |value| < |content|
    && content[q + 1..q + 1 + |value|] == value
    && content[q + 1 + |value|] == '"'
    && '"' !in value && '\n' !in value
  }

  /** A match at `i` has the shape of the pattern... */
  lemma MatchAtShaped(content: string, key: string, i: nat)
    requires MatchAt(content, key, i).Some?
    ensures exists p, q :: Shaped(content, key, i, p, q, MatchAt(content, key, i).value)
  {
    var p := SkipSpace(content, i + |key|);
    var q := SkipSpace(content, p + 1);
    var value := MatchAt(content, key, i).value;
    assert Shaped(content, key, i, p, q, value);
  }

  /** ...and text of that shape is matched at `i`, with exactly that value:
      the whitespace runs end where the pattern says, and the value stops
      at the first quote. */
  lemma ShapedMatches(content: string, key: string, i: nat, p: nat, q: nat, value: string)
    requires Shaped(content, key, i, p, q, value)
    ensures MatchAt(content, key, i) == Some(value)
  {
    SkipSpaceLands(content, i + |key|, p);
    QuotedMatches(content, p, q, value);
  }

  lemma QuotedMatches(content: string, p: nat, q: nat, value: string)
    requires p < q && q + 1 + |value| < |content|
    requires forall m :: p < m < q ==> IsSpace(content[m])
    requires content[q] == '"' && content[q + 1..q + 1 + |value|] == value
    requires content[q + 1 + |value|] == '"' && '"' !in value && '\n' !in value
    ensures AfterEquals(content, p + 1) == Some(value)
  {
    SkipSpaceLands(content, p + 1, q);
    var k := q + 1 + |value|;
    forall m | q + 1 <= m < k ensures content[m] != '"' && content[m] != '\n' {
      assert content[m] == value[m - q - 1];
    }
    StopAtLands(content, q + 1, k);
  }

  lemma SkipSpaceLands(s: string, j: nat, p: nat)
    requires j <= p < |s| && !IsSpace(s[p])
    requires forall m :: j <= m < p ==> IsSpace(s[m])
    ensures SkipSpace(s, j) == p
    decreases p - j
  {
    if j < p {
      SkipSpaceLands(s, j + 1, p);
    }
  }

  lemma StopAtLands(s: string, q: nat, k: nat)
    requires q <= k < |s| && s[k] == '"'
    requires forall m :: q <= m < k ==> s[m] != '"' && s[m] != '\n'
    ensures StopAt(s, q) == k
    decreases k - q
  {
    if q < k {
      StopAtLands(s, q + 1, k);
    }
  }

  /** The first of `f(i), ..., f(n)` that is not None: `re.search` tries
      the start positions from left to right. */
  function FirstSome<T>(f: nat -> Option<T>, i: nat, n: nat): (r: Option<T>)
    requires i <= n
    ensures r.None? <==> forall j :: i <= j <= n ==> f(j).None?
    ensures r.Some? ==> exists j :: i <= j <= n && f(j) == r && forall j' :: i <= j' < j ==> f(j').None?
    decreases n - i
  {
    if f(i).Some? then f(i)
    else if i == n then None
    else FirstSome(f, i + 1, n)
  }

  /** `extract_secret(key)`: the value of the leftmost `key = "value"`
      occurrence, or None when there is none. */
  function ExtractSecret(content: string, key: string): (r: Option<string>)
    requires IsKey(key)
    ensures r.None? <==> forall i :: 0 <= i <= |content| ==> MatchAt(content, key, i).None?
    ensures r.Some? ==> exists i :: 0 <= i <= |content| && MatchAt(content, key, i) == r
                         && forall j :: 0 <= j < i ==> MatchAt(content, key, j).None?
  {
    var f := i => MatchAt(content, key, i);
    assert forall i :: f(i) == MatchAt(content, key, i);
    FirstSome(f, 0, |content|)
  }

  /** A value found is the text between the opening quote and the first
      quote after it: it holds no quote and no line break. */
  lemma SecretIsOneQuotedLine(content: string, key: string)
    requires IsKey(key) && ExtractSecret(content, key).Some?
    ensures '"' !in ExtractSecret(content, key).value
    ensures '\n' !in ExtractSecret(content, key).value
  {
    var i :| 0 <= i <= |content| && MatchAt(content, key, i) == ExtractSecret(content, key);
    MatchAtShaped(content, key, i);
  }

  /** A secrets line written as `KEY = "value"` gives back its value, for any
      value without quotes or line breaks. */
  lemma {:induction false} SecretLineRoundTrip(key: string, value: string, rest: string)
    requires IsKey(key) && '"' !in value && '\n' !in value
    ensures ExtractSecret(key + " = \"" + value + "\"" + rest, key) == Some(value)
  {
    var content := key + " = \"" + value + "\"" + rest;
    var n := |key|;
    assert content[..n] == key;
    assert content[n] == ' ' && content[n + 1] == '=' && content[n + 2] == ' ' && content[n + 3] == '"';
    assert content[n + 4..n + 4 + |value|] == value;
    assert content[n + 4 + |value|] == '"';
    assert Shaped(content, key, 0, n + 1, n + 3, value);
    ShapedMatches(content, key, 0, n + 1, n + 3, value);
  }
}
