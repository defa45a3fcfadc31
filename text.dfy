/**
 * Character classes and string helpers shared by both video-portfolio implementations:
 * the video-identifier alphabet, JavaScript's `String.prototype.trim`, and the
 * "run of characters up to a delimiter" that the older extractor captures.
 */
module Text {

  /** One character of the class `[a-zA-Z0-9_-]`. */
  predicate IsIdChar(c: char) {
    ('a' <= c <= 'z') || ('A' <= c <= 'Z') || ('0' <= c <= '9') || c == '_' || c == '-'
  }

  /** Exactly eleven characters of `[a-zA-Z0-9_-]`: the shape of a video identifier. */
  predicate IsVideoId(s: string) {
    |s| == 11 && forall i :: 0 <= i < |s| ==> IsIdChar(s[i])
  }

  /** `v` occurs in `s` starting at position `j`. */
  predicate OccursAt(s: string, j: nat, v: string) {
    j + |v| <= |s| && s[j..j + |v|] == v
  }

  /** Where the middle piece of a concatenation sits, and what comes before and after it. */
  lemma ConcatParts(a: string, b: string, c: string)
    ensures OccursAt(a + b + c, |a|, b)
    ensures forall k :: 0 <= k < |a| ==> (a + b + c)[k] == a[k]
    ensures (a + b + c)[|a| + |b|..] == c
  {
    assert (a + b + c)[|a|..|a| + |b|] == b;
  }

  /**
   * A character that `String.prototype.trim` removes: the WhiteSpace and
   * LineTerminator productions of ECMAScript (tab, vertical tab, form feed,
   * the Unicode space separators, the byte-order mark, and the four line
   * terminators).
   */
  predicate IsSpace(c: char) {
    c == '\t' || c == '\n' || c == '\U{000B}' || c == '\U{000C}' || c == '\r' || c == ' '
    || c == '\U{00A0}' || c == '\U{1680}' || ('\U{2000}' <= c <= '\U{200A}')
    || c == '\U{2028}' || c == '\U{2029}' || c == '\U{202F}' || c == '\U{205F}'
    || c == '\U{3000}' || c == '\U{FEFF}'
  }

  predicate AllSpace(s: string) {
    forall i :: 0 <= i < |s| ==> IsSpace(s[i])
  }

  /** `s` without its leading white space. */
  function TrimStart(s: string): (r: string)
    ensures |r| <= |s|
    ensures r == [] || !IsSpace(r[0])
  {
    if s != [] && IsSpace(s[0]) then TrimStart(s[1..]) else s
  }

  /** What `TrimStart` removes is a prefix of white space; what it keeps is the rest. */
  lemma {:induction false} TrimStartDropsSpace(s: string)
    ensures var n := |s| - |TrimStart(s)|;
      TrimStart(s) == s[n..] && AllSpace(s[..n])
  {
    if s != [] && IsSpace(s[0]) {
      TrimStartDropsSpace(s[1..]);
      var n := |s| - |TrimStart(s)|;
      assert s[1..][n - 1..] == s[n..];
      assert forall i :: 1 <= i < n ==> s[i] == s[1..][..n - 1][i - 1];
    }
  }

  /** `s` without its trailing white space. */
  function TrimEnd(s: string): (r: string)
    ensures |r| <= |s|
    ensures r == [] || (r[0] == s[0] && !IsSpace(r[|r| - 1]))
  {
    if s != [] && IsSpace(s[|s| - 1]) then TrimEnd(s[..|s| - 1]) else s
  }

  /** What `TrimEnd` removes is a suffix of white space; what it keeps is the front. */
  lemma {:induction false} TrimEndDropsSpace(s: string)
    ensures var n := |TrimEnd(s)|;
      TrimEnd(s) == s[..n] && AllSpace(s[n..])
  {
    if s != [] && IsSpace(s[|s| - 1]) {
      var p := s[..|s| - 1];
      TrimEndDropsSpace(p);
      var n := |TrimEnd(s)|;
      assert p[..n] == s[..n];
      assert forall i :: n <= i < |s| - 1 ==> s[i] == p[n..][i - n];
    }
  }

  /** `String.prototype.trim`: the result neither starts nor ends with white space. */
  function Trim(s: string): (r: string)
    ensures |r| <= |s|
    ensures r == [] || (!IsSpace(r[0]) && !IsSpace(r[|r| - 1]))
  {
    TrimEnd(TrimStart(s))
  }

  /** What `trim` keeps is a slice of its input with only white space around it. */
  lemma TrimIsSlice(s: string) returns (a: nat)
    ensures a + |Trim(s)| <= |s| && Trim(s) == s[a..a + |Trim(s)|]
    ensures AllSpace(s[..a]) && AllSpace(s[a + |Trim(s)|..])
  {
    var t := TrimStart(s);
    var r := TrimEnd(t);
    a := |s| - |t|;
    TrimStartDropsSpace(s);
    TrimEndDropsSpace(t);
    SuffixSlices(s, a, |r|);
  }

  lemma SuffixSlices<T>(s: seq<T>, a: nat, n: nat)
    requires a + n <= |s|
    ensures s[a..][..n] == s[a..a + n] && s[a..][n..] == s[a + n..]
  {
  }

  lemma {:induction false} TrimStartOfPadded(w: string, t: string)
    requires AllSpace(w)
    requires t == [] || !IsSpace(t[0])
    ensures TrimStart(w + t) == t
  {
    if w != [] {
      assert (w + t)[1..] == w[1..] + t;
      TrimStartOfPadded(w[1..], t);
    }
  }

  lemma {:induction false} TrimEndOfPadded(t: string, w: string)
    requires AllSpace(w)
    requires t == [] || !IsSpace(t[|t| - 1])
    ensures TrimEnd(t + w) == t
  {
    if w != [] {
      assert (t + w)[..|t + w| - 1] == t + w[..|w| - 1];
      TrimEndOfPadded(t, w[..|w| - 1]);
    }
  }

  /** Trimming recovers the core of any string that is white space, a core, white space. */
  lemma TrimOfPadded(w1: string, r: string, w2: string)
    requires AllSpace(w1) && AllSpace(w2)
    requires r == [] || (!IsSpace(r[0]) && !IsSpace(r[|r| - 1]))
    ensures Trim(w1 + r + w2) == r
  {
    if r == [] {
      assert w1 + r + w2 == (w1 + w2) + [];
      TrimStartOfPadded(w1 + w2, []);
    } else {
      assert w1 + r + w2 == w1 + (r + w2);
      TrimStartOfPadded(w1, r + w2);
      TrimEndOfPadded(r, w2);
    }
  }

  lemma AllSpaceConcat(x: string, y: string)
    requires AllSpace(x) && AllSpace(y)
    ensures AllSpace(x + y)
  {
    forall i | 0 <= i < |x + y| ensures IsSpace((x + y)[i]) {
      if i >= |x| { assert (x + y)[i] == y[i - |x|]; }
    }
  }

  /** Surrounding white space never changes what `trim` returns. */
  lemma TrimIgnoresSurroundingSpace(w1: string, s: string, w2: string)
    requires AllSpace(w1) && AllSpace(w2)
    ensures Trim(w1 + s + w2) == Trim(s)
  {
    var lead, r, trail := TrimSplit(s);
    Regroup(w1, lead, r, trail, w2);
    AllSpaceConcat(w1, lead);
    AllSpaceConcat(trail, w2);
    TrimOfPadded(w1 + lead, r, trail + w2);
  }

  lemma Regroup(a: string, b: string, c: string, d: string, e: string)
    ensures a + (b + c + d) + e == (a + b) + c + (d + e)
  {
  }

  /** `TrimIsSlice` as a split of `s` into white space, the trimmed core, white space. */
  lemma TrimSplit(s: string) returns (lead: string, r: string, trail: string)
    ensures s == lead + r + trail && r == Trim(s)
    ensures AllSpace(lead) && AllSpace(trail)
  {
    r := Trim(s);
    var a := TrimIsSlice(s);
    lead, trail := s[..a], s[a + |r|..];
    ThreeSlices(s, a, a + |r|);
  }

  lemma ThreeSlices<T>(s: seq<T>, a: nat, b: nat)
    requires a <= b <= |s|
    ensures s == s[..a] + s[a..b] + s[b..]
  {
  }

  /** A string that neither starts nor ends with white space is its own trim. */
  lemma TrimOfTrimmed(s: string)
    requires s == [] || (!IsSpace(s[0]) && !IsSpace(s[|s| - 1]))
    ensures Trim(s) == s
  {
    assert [] + s + [] == s;
    TrimOfPadded([], s, []);
  }

  /**
   * When `s` starts with a non-space character, `trim` keeps every character
   * up to any later non-space character.
   */
  lemma TrimKeepsFront(s: string, k: nat)
    requires k < |s| && !IsSpace(s[0]) && !IsSpace(s[k])
    ensures k < |Trim(s)| && Trim(s)[..k + 1] == s[..k + 1]
  {
    var a := TrimIsSlice(s);
    var t := Trim(s);
    assert t[..k + 1] == s[a..a + |t|][..k + 1];
  }

  /** A character that may appear in `[^&\n?#]`. */
  predicate IsRunChar(c: char) {
    c != '&' && c != '\n' && c != '?' && c != '#'
  }

  /**
   * The longest prefix of `s` free of `&`, `?`, `#` and newline: what the
   * greedy group `([^&\n?#]+)` takes when it starts at the front of `s`.
   */
  function Run(s: string): (r: string)
    ensures |r| <= |s| && r == s[..|r|]
    ensures forall i :: 0 <= i < |r| ==> IsRunChar(r[i])
    ensures |r| == |s| || !IsRunChar(s[|r|])
  {
    if s == [] || !IsRunChar(s[0]) then [] else [s[0]] + Run(s[1..])
  }

  /** A run followed by a delimiter (or by nothing) is exactly what `Run` takes. */
  lemma RunOfDelimited(v: string, rest: string)
    requires forall i :: 0 <= i < |v| ==> IsRunChar(v[i])
    requires rest == [] || !IsRunChar(rest[0])
    ensures Run(v + rest) == v
  {
    assert (v + rest)[..|v|] == v;
  }
}
