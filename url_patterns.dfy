/**
 * The link patterns of both extractors all have one shape: a fixed marker
 * (or an alternation of markers) followed by one capturing group. The
 * anchored bare-identifier patterns are not of this shape; `IsVideoId`
 * models them directly.
 * `String.prototype.match` with such an expression (no `g` flag) returns the
 * capture of the match that starts at the LEFTMOST position; at one position
 * the alternatives are tried in the order written. This module models exactly
 * that, for the two capturing groups the sources use, without a general
 * regular-expression engine.
 */
module UrlPatterns {
  import opened Wrappers
  import opened Text

  /** The capturing group that follows the marker. */
  datatype Capture =
    | ElevenIdChars   // ([a-zA-Z0-9_-]{11})
    | UntilDelimiter  // ([^&\n?#]+), greedy

  /** The link markers both extractors look for. */
  const WatchMarker := "youtube.com/watch?v="
  const ShortMarker := "youtu.be/"
  const EmbedMarker := "youtube.com/embed/"

  /** `(?:m1|m2|...)(group)`, unanchored. */
  datatype Pattern = Pattern(markers: seq<string>, capture: Capture)

  /** What it means for `v` to be what the group `cap` captures at position `k` of `s`. */
  predicate Captures(s: string, k: nat, cap: Capture, v: string) {
    OccursAt(s, k, v) &&
    match cap
    case ElevenIdChars => IsVideoId(v)
    case UntilDelimiter =>
      v != [] && (forall i :: 0 <= i < |v| ==> IsRunChar(v[i]))
      && (k + |v| == |s| || !IsRunChar(s[k + |v|]))
  }

  /** The group `cap` tried at position `k` of `s`. */
  function CaptureAt(s: string, k: nat, cap: Capture): (r: Option<string>)
    ensures r.Some? ==> Captures(s, k, cap, r.value)
  {
    if k > |s| then None
    else match cap
      case ElevenIdChars =>
        if k + 11 <= |s| && IsVideoId(s[k..k + 11]) then Some(s[k..k + 11]) else None
      case UntilDelimiter =>
        var run := Run(s[k..]);
        assert run == s[k..k + |run|];
        if run != [] then Some(run) else None
  }

  /** The group captures exactly one thing, and `CaptureAt` finds it whenever there is one. */
  lemma CaptureAtIsTheCapture(s: string, k: nat, cap: Capture, v: string)
    requires Captures(s, k, cap, v)
    ensures CaptureAt(s, k, cap) == Some(v)
  {
    if cap.UntilDelimiter? {
      var run := Run(s[k..]);
      assert s[k..] == v + s[k + |v|..];
      RunOfDelimited(v, s[k + |v|..]);
    }
  }

  /** The alternatives `markers` tried in order at position `i`, each followed by `cap`. */
  function MatchAt(s: string, i: nat, markers: seq<string>, cap: Capture): Option<string> {
    if markers == [] then None
    else
      var here := if OccursAt(s, i, markers[0]) then CaptureAt(s, i + |markers[0]|, cap) else None;
      if here.Some? then here else MatchAt(s, i, markers[1..], cap)
  }

  /** A match at `i` is the capture behind one of the markers present there. */
  lemma {:induction false} MatchAtWitness(s: string, i: nat, markers: seq<string>, cap: Capture) returns (n: nat)
    requires MatchAt(s, i, markers, cap).Some?
    ensures n < |markers| && OccursAt(s, i, markers[n])
    ensures MatchAt(s, i, markers, cap) == CaptureAt(s, i + |markers[n]|, cap)
  {
    if OccursAt(s, i, markers[0]) && CaptureAt(s, i + |markers[0]|, cap).Some? {
      n := 0;
    } else {
      var m := MatchAtWitness(s, i, markers[1..], cap);
      n := m + 1;
    }
  }

  /** No match at `i`: behind every marker present there the group captures nothing. */
  lemma {:induction false} MatchAtFails(s: string, i: nat, markers: seq<string>, cap: Capture, n: nat)
    requires MatchAt(s, i, markers, cap).None?
    requires n < |markers| && OccursAt(s, i, markers[n])
    ensures CaptureAt(s, i + |markers[n]|, cap).None?
  {
    if n > 0 {
      assert markers[1..][n - 1] == markers[n];
      MatchAtFails(s, i, markers[1..], cap, n - 1);
    }
  }

  /**
   * When marker `n` is the first of the alternatives present at `i`, the
   * match at `i` is whatever the group captures behind that marker.
   */
  lemma {:induction false} MatchAtFirstMarker(s: string, i: nat, markers: seq<string>, cap: Capture, n: nat)
    requires n < |markers| && OccursAt(s, i, markers[n])
    requires forall m :: 0 <= m < n ==> !OccursAt(s, i, markers[m])
    requires CaptureAt(s, i + |markers[n]|, cap).Some?
    ensures MatchAt(s, i, markers, cap) == CaptureAt(s, i + |markers[n]|, cap)
    decreases n
  {
    if n > 0 {
      assert forall m :: 0 <= m < n - 1 ==> markers[1..][m] == markers[m + 1];
      MatchAtFirstMarker(s, i, markers[1..], cap, n - 1);
    }
  }

  /** The pattern matched at exactly position `i` (its capture), if it matches there. */
  function PatternAt(s: string, i: nat, p: Pattern): Option<string> {
    MatchAt(s, i, p.markers, p.capture)
  }

  /**
   * The first success of `at` among the positions `i`, `i + 1`, ..., `n`:
   * the leftmost-match rule of `String.prototype.match`.
   */
  function Leftmost<T>(i: nat, n: nat, at: nat -> Option<T>): (r: Option<T>)
    requires i <= n
    decreases n - i
  {
    if at(i).Some? || i == n then at(i) else Leftmost(i + 1, n, at)
  }

  /** What `Leftmost` returns is the result at some position in range. */
  lemma {:induction false} LeftmostWitness<T>(i: nat, n: nat, at: nat -> Option<T>) returns (j: nat)
    requires i <= n && Leftmost(i, n, at).Some?
    ensures i <= j <= n && at(j) == Leftmost(i, n, at)
    decreases n - i
  {
    if at(i).Some? || i == n {
      j := i;
    } else {
      j := LeftmostWitness(i + 1, n, at);
    }
  }

  /** With no success in range, `Leftmost` returns nothing. */
  lemma {:induction false} LeftmostFails<T>(i: nat, n: nat, at: nat -> Option<T>)
    requires i <= n
    requires forall j :: i <= j <= n ==> at(j).None?
    ensures Leftmost(i, n, at).None?
    decreases n - i
  {
    if i < n {
      LeftmostFails(i + 1, n, at);
    }
  }

  /** The first success is what `Leftmost` returns. */
  lemma {:induction false} LeftmostFinds<T>(i: nat, n: nat, at: nat -> Option<T>, j: nat)
    requires i <= j <= n && at(j).Some?
    requires forall k :: i <= k < j ==> at(k).None?
    ensures Leftmost(i, n, at) == at(j)
    decreases j - i
  {
    if i < j {
      LeftmostFinds(i + 1, n, at, j);
    }
  }

  /** `v` is what the group of `p` captures behind its marker `n`, found at position `j` of `s`. */
  predicate CapturedBehind(s: string, p: Pattern, j: nat, n: nat, v: string) {
    j <= |s| && n < |p.markers| && OccursAt(s, j, p.markers[n]) && Captures(s, j + |p.markers[n]|, p.capture, v)
  }

  /**
   * `s.match(p)`, reduced to its capture: the capture of the leftmost match.
   * Whatever it returns was captured right after one of the markers.
   */
  function Search(s: string, p: Pattern): (r: Option<string>)
    ensures r.Some? ==> exists j, n :: CapturedBehind(s, p, j, n, r.value)
  {
    SearchCaptures(s, p);
    Leftmost(0, |s|, (j: nat) => PatternAt(s, j, p))
  }

  lemma SearchCaptures(s: string, p: Pattern)
    ensures var r := Leftmost(0, |s|, (j: nat) => PatternAt(s, j, p));
      r.Some? ==> exists j, n :: CapturedBehind(s, p, j, n, r.value)
  {
    var at := (j: nat) => PatternAt(s, j, p);
    var r := Leftmost(0, |s|, at);
    if r.Some? {
      var j := LeftmostWitness(0, |s|, at);
      var n := MatchAtWitness(s, j, p.markers, p.capture);
      assert CapturedBehind(s, p, j, n, r.value);
    }
  }

  /** A match at `j` with none further left is what `Search` returns. */
  lemma SearchFinds(s: string, p: Pattern, j: nat)
    requires j <= |s| && PatternAt(s, j, p).Some?
    requires forall k :: 0 <= k < j ==> PatternAt(s, k, p).None?
    ensures Search(s, p) == PatternAt(s, j, p)
  {
    var at := (k: nat) => PatternAt(s, k, p);
    LeftmostFinds(0, |s|, at, j);
  }

  /** A pattern that matches nowhere in `s` makes `Search` return nothing. */
  lemma SearchFails(s: string, p: Pattern)
    requires forall j :: 0 <= j <= |s| ==> PatternAt(s, j, p).None?
    ensures Search(s, p).None?
  {
    var at := (k: nat) => PatternAt(s, k, p);
    assert forall j :: 0 <= j <= |s| ==> at(j).None?;
    LeftmostFails(0, |s|, at);
  }

  /** A marker cannot occur where `s` differs from it. */
  lemma NotMarkedAt(s: string, i: nat, m: string, d: nat)
    requires d < |m|
    requires i + d < |s| ==> s[i + d] != m[d]
    ensures !OccursAt(s, i, m)
  {
    assert i + |m| <= |s| ==> s[i..i + |m|][d] == s[i + d];
  }

  /** A pattern is absent where none of its markers occurs. */
  lemma NoMarkerNoMatch(s: string, i: nat, p: Pattern)
    requires forall n :: 0 <= n < |p.markers| ==> !OccursAt(s, i, p.markers[n])
    ensures PatternAt(s, i, p).None?
  {
    NoMarkerNoMatchAt(s, i, p.markers, p.capture);
  }

  lemma {:induction false} NoMarkerNoMatchAt(s: string, i: nat, markers: seq<string>, cap: Capture)
    requires forall n :: 0 <= n < |markers| ==> !OccursAt(s, i, markers[n])
    ensures MatchAt(s, i, markers, cap).None?
  {
    if markers != [] {
      assert forall n :: 0 <= n < |markers| - 1 ==> markers[1..][n] == markers[n + 1];
      NoMarkerNoMatchAt(s, i, markers[1..], cap);
    }
  }

  /** A marker with a character outside `[a-zA-Z0-9_-]`. */
  predicate HasNonIdChar(m: string) {
    exists d :: 0 <= d < |m| && !IsIdChar(m[d])
  }

  /**
   * Text made only of identifier characters contains no marker that has a
   * character outside that class, so no such pattern matches it.
   */
  lemma NoMatchInIdText(s: string, p: Pattern)
    requires forall i :: 0 <= i < |s| ==> IsIdChar(s[i])
    requires forall n :: 0 <= n < |p.markers| ==> HasNonIdChar(p.markers[n])
    ensures Search(s, p).None?
  {
    forall j | 0 <= j <= |s| ensures PatternAt(s, j, p).None? {
      forall n | 0 <= n < |p.markers| ensures !OccursAt(s, j, p.markers[n]) {
        var m := p.markers[n];
        var d :| 0 <= d < |m| && !IsIdChar(m[d]);
        NotMarkedAt(s, j, m, d);
      }
      NoMarkerNoMatch(s, j, p);
    }
    SearchFails(s, p);
  }

  /** Markers that all begin with `c` cannot match before the first `c` of `s`. */
  lemma NoMatchBefore(s: string, p: Pattern, n: nat, c: char)
    requires n <= |s|
    requires forall i :: 0 <= i < |p.markers| ==> |p.markers[i]| > 0 && p.markers[i][0] == c
    requires forall k :: 0 <= k < n ==> s[k] != c
    ensures forall k :: 0 <= k < n ==> PatternAt(s, k, p).None?
  {
    forall k | 0 <= k < n ensures PatternAt(s, k, p).None? {
      forall i | 0 <= i < |p.markers| ensures !OccursAt(s, k, p.markers[i]) {
        NotMarkedAt(s, k, p.markers[i], 0);
      }
      NoMarkerNoMatch(s, k, p);
    }
  }

  /**
   * No match starts at a position `j` in `[lo, hi)` when every marker has
   * `c` at offset `d` and `s` has something else at `j + d`.
   */
  lemma NoMatchWithout(s: string, p: Pattern, lo: nat, hi: nat, d: nat, c: char)
    requires forall i :: 0 <= i < |p.markers| ==> d < |p.markers[i]| && p.markers[i][d] == c
    requires forall k :: lo + d <= k < hi + d && k < |s| ==> s[k] != c
    ensures forall j :: lo <= j < hi ==> PatternAt(s, j, p).None?
  {
    forall j | lo <= j < hi ensures PatternAt(s, j, p).None? {
      assert j + d < |s| ==> s[j + d] != c;
      forall i | 0 <= i < |p.markers| ensures !OccursAt(s, j, p.markers[i]) {
        NotMarkedAt(s, j, p.markers[i], d);
      }
      NoMarkerNoMatch(s, j, p);
    }
  }

  /**
   * In `pre + marker + v + rest`, where no marker can start inside `pre`,
   * marker `n` is the first alternative present right after `pre` and the
   * group captures `v` behind it, `Search` returns `v`.
   */
  lemma SearchFindsAfterPrefix(pre: string, p: Pattern, n: nat, v: string, rest: string, c: char)
    requires n < |p.markers|
    requires forall i :: 0 <= i < |p.markers| ==> |p.markers[i]| > 0 && p.markers[i][0] == c
    requires forall k :: 0 <= k < |pre| ==> pre[k] != c
    requires forall i :: 0 <= i < n ==> !OccursAt(pre + p.markers[n] + v + rest, |pre|, p.markers[i])
    requires Captures(pre + p.markers[n] + v + rest, |pre| + |p.markers[n]|, p.capture, v)
    ensures Search(pre + p.markers[n] + v + rest, p) == Some(v)
  {
    var m := p.markers[n];
    var s := pre + m + v + rest;
    assert s == pre + m + (v + rest);
    ConcatParts(pre, m, v + rest);
    CaptureAtIsTheCapture(s, |pre| + |m|, p.capture, v);
    MatchAtFirstMarker(s, |pre|, p.markers, p.capture, n);
    NoMatchBefore(s, p, |pre|, c);
    SearchFinds(s, p, |pre|);
  }

  /** `SearchFindsAfterPrefix` for the eleven-character group: any identifier behind the marker is found. */
  lemma IdAfterPrefix(pre: string, p: Pattern, n: nat, id: string, rest: string, c: char)
    requires p.capture == ElevenIdChars && IsVideoId(id)
    requires n < |p.markers|
    requires forall i :: 0 <= i < |p.markers| ==> |p.markers[i]| > 0 && p.markers[i][0] == c
    requires forall k :: 0 <= k < |pre| ==> pre[k] != c
    requires forall i :: 0 <= i < n ==> !OccursAt(pre + p.markers[n] + id + rest, |pre|, p.markers[i])
    ensures Search(pre + p.markers[n] + id + rest, p) == Some(id)
  {
    ConcatParts(pre + p.markers[n], id, rest);
    SearchFindsAfterPrefix(pre, p, n, id, rest, c);
  }

  /** `SearchFindsAfterPrefix` for the delimited group: a run behind the marker, ended by a delimiter or the end, is found. */
  lemma RunAfterPrefix(pre: string, p: Pattern, n: nat, v: string, rest: string, c: char)
    requires p.capture == UntilDelimiter
    requires v != [] && forall i :: 0 <= i < |v| ==> IsRunChar(v[i])
    requires rest == [] || !IsRunChar(rest[0])
    requires n < |p.markers|
    requires forall i :: 0 <= i < |p.markers| ==> |p.markers[i]| > 0 && p.markers[i][0] == c
    requires forall k :: 0 <= k < |pre| ==> pre[k] != c
    requires forall i :: 0 <= i < n ==> !OccursAt(pre + p.markers[n] + v + rest, |pre|, p.markers[i])
    ensures Search(pre + p.markers[n] + v + rest, p) == Some(v)
  {
    var s := pre + p.markers[n] + v + rest;
    ConcatParts(pre + p.markers[n], v, rest);
    assert rest != [] ==> s[|pre| + |p.markers[n]| + |v|] == rest[0];
    SearchFindsAfterPrefix(pre, p, n, v, rest, c);
  }
}
