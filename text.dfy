/** Text primitives shared by the chunker and the local speaker: JavaScript's
    `\s` class and `trim()`, the sentence pattern `/[^.!?]+[.!?]+(\s|$)/g`
    as an explicit scanner, and `split(/\s+/)`. */
module Text {
  import opened Wrappers

  predicate IsTerminator(c: char)
  {
    c == '.' || c == '!' || c == '?'
  }

  /** JavaScript's `\s` (WhiteSpace and LineTerminator), which is also the set
      `trim()` removes. */
  predicate IsSpace(c: char)
  {
    || c == ' ' || c == '\t' || c == '\n' || c == '\r' || c == '\U{000B}' || c == '\U{000C}'
    || c == '\U{00A0}' || c == '\U{1680}' || ('\U{2000}' <= c <= '\U{200A}')
    || c == '\U{2028}' || c == '\U{2029}' || c == '\U{202F}' || c == '\U{205F}'
    || c == '\U{3000}' || c == '\U{FEFF}'
  }

  lemma SpaceIsNotTerminator(c: char)
    ensures IsSpace(c) ==> !IsTerminator(c)
  {
  }

  ghost predicate AllSpace(s: string)
  {
    forall k :: 0 <= k < |s| ==> IsSpace(s[k])
  }

  // ---------------------------------------------------------------------
  // trim()

  /** Number of leading white-space characters. */
  function LeadingSpace(s: string): (i: nat)
    ensures i <= |s|
    ensures forall k :: 0 <= k < i ==> IsSpace(s[k])
    ensures i < |s| ==> !IsSpace(s[i])
  {
    if s == [] || !IsSpace(s[0]) then 0 else 1 + LeadingSpace(s[1..])
  }

  /** Index just after the last non-white-space character (0 if none). */
  function TrailingStart(s: string): (j: nat)
    ensures j <= |s|
    ensures forall k :: j <= k < |s| ==> IsSpace(s[k])
    ensures j > 0 ==> !IsSpace(s[j - 1])
  {
    if s == [] || !IsSpace(s[|s| - 1]) then |s| else TrailingStart(s[..|s| - 1])
  }

  /** `s.trim()`: `s` without its leading and trailing white space. */
  function Trim(s: string): (r: string)
    ensures |r| <= |s|
    ensures r == [] <==> AllSpace(s)
    ensures r != [] ==> !IsSpace(r[0]) && !IsSpace(r[|r| - 1])
    ensures LeadingSpace(s) + |r| <= |s|
    ensures r == s[LeadingSpace(s)..LeadingSpace(s) + |r|]
    ensures AllSpace(s[LeadingSpace(s) + |r|..])
  {
    var i, j := LeadingSpace(s), TrailingStart(s);
    if i == |s| then
      []
    else
      assert !IsSpace(s[i]);
      assert i < j;
      assert !AllSpace(s);
      s[i..j]
  }

  /** A string holding a non-white-space character survives trimming. */
  lemma TrimKeepsText(s: string, k: nat)
    requires k < |s| && !IsSpace(s[k])
    ensures Trim(s) != []
  {
  }

  // ---------------------------------------------------------------------
  // The sentence pattern /[^.!?]+[.!?]+(\s|$)/g

  /** End of the run of non-terminators starting at `p`. */
  function NonTerminatorRun(s: string, p: nat): (q: nat)
    requires p <= |s|
    ensures p <= q <= |s|
    ensures forall k :: p <= k < q ==> !IsTerminator(s[k])
    ensures q < |s| ==> IsTerminator(s[q])
    decreases |s| - p
  {
    if p == |s| || IsTerminator(s[p]) then p else NonTerminatorRun(s, p + 1)
  }

  /** End of the run of terminators starting at `p`. */
  function TerminatorRun(s: string, p: nat): (q: nat)
    requires p <= |s|
    ensures p <= q <= |s|
    ensures forall k :: p <= k < q ==> IsTerminator(s[k])
    ensures q < |s| ==> !IsTerminator(s[q])
    decreases |s| - p
  {
    if p == |s| || !IsTerminator(s[p]) then p else TerminatorRun(s, p + 1)
  }

  /** The declarative reading of the pattern: `s[i..e]` is one or more
      non-terminators (`s[i..a]`), one or more terminators (`s[a..b]`), and
      then either one white-space character or the end of the string. */
  ghost predicate Shape(s: string, i: nat, a: nat, b: nat, e: nat)
  {
    && i < a < b <= |s|
    && (forall k :: i <= k < a ==> !IsTerminator(s[k]))
    && (forall k :: a <= k < b ==> IsTerminator(s[k]))
    && ((b == |s| && e == b) || (b < |s| && IsSpace(s[b]) && e == b + 1))
  }

  ghost predicate IsMatch(s: string, i: nat, e: nat)
  {
    exists a: nat, b: nat :: Shape(s, i, a, b, e)
  }

  /** The pattern matched at position `p`, as the backtracking engine finds
      it: both character runs are taken maximally (a shorter run can never be
      followed by what the pattern needs next). Gives the end of the match. */
  function MatchAt(s: string, p: nat): (r: Option<nat>)
    requires p <= |s|
    ensures r.Some? ==> p < r.value <= |s|
  {
    var a := NonTerminatorRun(s, p);
    var b := TerminatorRun(s, a);
    if a == p || b == a then None
    else if b == |s| then Some(b)
    else if IsSpace(s[b]) then Some(b + 1)
    else None
  }

  /** The scanner agrees with the declarative reading of the pattern, in both
      directions. */
  lemma MatchAtCorrect(s: string, p: nat, e: nat)
    requires p <= |s|
    ensures MatchAt(s, p) == Some(e) <==> IsMatch(s, p, e)
  {
    var a := NonTerminatorRun(s, p);
    var b := TerminatorRun(s, a);
    if MatchAt(s, p) == Some(e) {
      assert Shape(s, p, a, b, e);
    }
    if IsMatch(s, p, e) {
      var a': nat, b': nat :| Shape(s, p, a', b', e);
      NonTerminatorRunEndsAt(s, p, a');
      if b' < |s| {
        SpaceIsNotTerminator(s[b']);
      }
      TerminatorRunEndsAt(s, a', b');
    }
  }

  lemma {:induction false} NonTerminatorRunEndsAt(s: string, p: nat, a: nat)
    requires p <= a < |s| && IsTerminator(s[a])
    requires forall k :: p <= k < a ==> !IsTerminator(s[k])
    ensures NonTerminatorRun(s, p) == a
    decreases a - p
  {
    if p < a {
      NonTerminatorRunEndsAt(s, p + 1, a);
    }
  }

  lemma {:induction false} TerminatorRunEndsAt(s: string, p: nat, b: nat)
    requires p <= b <= |s| && (b < |s| ==> !IsTerminator(s[b]))
    requires forall k :: p <= k < b ==> IsTerminator(s[k])
    ensures TerminatorRun(s, p) == b
    decreases b - p
  {
    if p < b {
      TerminatorRunEndsAt(s, p + 1, b);
    }
  }

  /** The `[start, end)` positions of the successive matches of the global
      pattern from `p` on: each search resumes where the previous match ended,
      and a position where no match starts is skipped. */
  function Spans(s: string, p: nat): (r: seq<(nat, nat)>)
    requires p <= |s|
    ensures forall i :: 0 <= i < |r| ==> p <= r[i].0 < r[i].1 <= |s|
    ensures forall i :: 0 <= i < |r| ==> MatchAt(s, r[i].0) == Some(r[i].1)
    ensures forall i, j :: 0 <= i < j < |r| ==> r[i].1 <= r[j].0
    decreases |s| - p
  {
    if p == |s| then []
    else
      match MatchAt(s, p)
      case Some(e) => [(p, e)] + Spans(s, e)
      case None => Spans(s, p + 1)
  }

  ghost predicate Covered(r: seq<(nat, nat)>, k: nat)
  {
    exists i :: 0 <= i < |r| && r[i].0 <= k < r[i].1
  }

  lemma CoveredCons(x: (nat, nat), r: seq<(nat, nat)>, k: nat)
    requires Covered(r, k) || x.0 <= k < x.1
    ensures Covered([x] + r, k)
  {
    if x.0 <= k < x.1 {
      assert ([x] + r)[0] == x;
    } else {
      var i :| 0 <= i < |r| && r[i].0 <= k < r[i].1;
      assert ([x] + r)[i + 1] == r[i];
    }
  }

  /** The scan is leftmost: every position where the pattern matches lies
      inside a reported match. */
  lemma {:induction false} SpansLeftmost(s: string, p: nat, k: nat)
    requires p <= k < |s|
    ensures MatchAt(s, k).Some? ==> Covered(Spans(s, p), k)
    decreases |s| - p
  {
    var m := MatchAt(s, p);
    if m.Some? {
      var e := m.value;
      var t := Spans(s, e);
      assert Spans(s, p) == [(p, e)] + t;
      if e <= k {
        SpansLeftmost(s, e, k);
      }
      if MatchAt(s, k).Some? {
        CoveredCons((p, e), t, k);
      }
    } else if k > p {
      assert Spans(s, p) == Spans(s, p + 1);
      SpansLeftmost(s, p + 1, k);
    }
  }

  function Slices(s: string, r: seq<(nat, nat)>): (ms: seq<string>)
    requires forall i :: 0 <= i < |r| ==> r[i].0 <= r[i].1 <= |s|
    ensures |ms| == |r|
    ensures forall i :: 0 <= i < |r| ==> ms[i] == s[r[i].0..r[i].1]
  {
    if r == [] then [] else [s[r[0].0..r[0].1]] + Slices(s, r[1..])
  }

  /** `s.match(/[^.!?]+[.!?]+(\s|$)/g) || []`: the matched texts in order. */
  function SentenceMatches(s: string): (ms: seq<string>)
  {
    Slices(s, Spans(s, 0))
  }

  /** Every match holds a terminator (so it is not blank) and starts with a
      non-terminator. */
  lemma MatchesHaveTerminator(s: string, i: nat)
    requires i < |SentenceMatches(s)|
    ensures var m := SentenceMatches(s)[i];
      |m| >= 2 && !IsTerminator(m[0]) && exists k :: 0 < k < |m| && IsTerminator(m[k])
  {
    var r := Spans(s, 0);
    var m := SentenceMatches(s)[i];
    var a := NonTerminatorRun(s, r[i].0);
    assert MatchAt(s, r[i].0) == Some(r[i].1);
    assert m == s[r[i].0..r[i].1];
    assert IsTerminator(m[a - r[i].0]);
  }

  lemma MatchesNotBlank(s: string, i: nat)
    requires i < |SentenceMatches(s)|
    ensures Trim(SentenceMatches(s)[i]) != []
  {
    MatchesHaveTerminator(s, i);
    var m := SentenceMatches(s)[i];
    var k :| 0 < k < |m| && IsTerminator(m[k]);
    SpaceIsNotTerminator(m[k]);
  }

  /** A string that holds a sentence holds a terminator. */
  lemma MatchImpliesTerminator(s: string)
    ensures SentenceMatches(s) != [] ==> exists k :: 0 <= k < |s| && IsTerminator(s[k])
  {
    if SentenceMatches(s) != [] {
      MatchesHaveTerminator(s, 0);
      var r := Spans(s, 0);
      var m := SentenceMatches(s)[0];
      var k :| 0 < k < |m| && IsTerminator(m[k]);
      assert m[k] == s[r[0].0 + k];
    }
  }

  /** A string with no terminator holds no sentence. */
  lemma NoTerminatorNoMatch(s: string)
    requires forall k :: 0 <= k < |s| ==> !IsTerminator(s[k])
    ensures SentenceMatches(s) == []
  {
    MatchImpliesTerminator(s);
  }

  // ---------------------------------------------------------------------
  // split(/\s+/)

  /** End of the run of white space starting at `p`. */
  function SpaceRun(s: string, p: nat): (q: nat)
    requires p <= |s|
    ensures p <= q <= |s|
    ensures forall k :: p <= k < q ==> IsSpace(s[k])
    ensures q < |s| ==> !IsSpace(s[q])
    decreases |s| - p
  {
    if p == |s| || !IsSpace(s[p]) then p else SpaceRun(s, p + 1)
  }

  /** Index of the first white-space character (`|s|` if none). */
  function FirstSpace(s: string): (i: nat)
    ensures i <= |s|
    ensures forall k :: 0 <= k < i ==> !IsSpace(s[k])
    ensures i < |s| ==> IsSpace(s[i])
  {
    if s == [] || IsSpace(s[0]) then 0 else 1 + FirstSpace(s[1..])
  }

  /** `s.split(/\s+/)`: the pieces between maximal white-space runs; the
      empty string gives one empty piece. */
  function SplitOnSpace(s: string): (r: seq<string>)
    ensures |r| >= 1
    decreases |s|
  {
    var i := FirstSpace(s);
    if i == |s| then [s]
    else [s[..i]] + SplitOnSpace(s[SpaceRun(s, i)..])
  }

  /** Splitting a trimmed, non-empty string gives non-empty pieces without
      white space: the words. */
  lemma {:induction false} SplitTrimmedGivesWords(s: string)
    requires s != [] && !IsSpace(s[0]) && !IsSpace(s[|s| - 1])
    ensures forall w :: w in SplitOnSpace(s) ==> w != [] && forall k :: 0 <= k < |w| ==> !IsSpace(w[k])
    decreases |s|
  {
    var i := FirstSpace(s);
    if i < |s| {
      var j := SpaceRun(s, i);
      assert j < |s|;
      SplitTrimmedGivesWords(s[j..]);
    }
  }

  /** Number of word starts in `s[p..]`: positions holding a non-space
      character whose predecessor is a space (`prevSpace` for `p` itself). */
  function WordStarts(s: string, p: nat, prevSpace: bool): nat
    requires p <= |s|
    decreases |s| - p
  {
    if p == |s| then 0
    else (if !IsSpace(s[p]) && prevSpace then 1 else 0) + WordStarts(s, p + 1, IsSpace(s[p]))
  }

  lemma {:induction false} WordStartsSkipWord(s: string, p: nat, q: nat)
    requires p <= q <= |s|
    requires forall k :: p <= k < q ==> !IsSpace(s[k])
    ensures WordStarts(s, p, false) == WordStarts(s, q, false)
    decreases q - p
  {
    if p < q {
      WordStartsSkipWord(s, p + 1, q);
    }
  }

  lemma {:induction false} WordStartsSkipSpace(s: string, p: nat, q: nat, b: bool)
    requires p < q <= |s|
    requires forall k :: p <= k < q ==> IsSpace(s[k])
    ensures WordStarts(s, p, b) == WordStarts(s, q, true)
    decreases q - p
  {
    if p + 1 < q {
      WordStartsSkipSpace(s, p + 1, q, true);
    }
  }

  lemma {:induction false} WordStartsShift(s: string, j: nat, p: nat, b: bool)
    requires j + p <= |s|
    ensures WordStarts(s[j..], p, b) == WordStarts(s, j + p, b)
    decreases |s| - j - p
  {
    if j + p < |s| {
      assert s[j..][p] == s[j + p];
      WordStartsShift(s, j, p + 1, IsSpace(s[j + p]));
    }
  }

  /** On a trimmed, non-empty string, `split(/\s+/)` yields one piece per word. */
  lemma {:induction false} SplitCountsWords(s: string)
    requires s != [] && !IsSpace(s[0]) && !IsSpace(s[|s| - 1])
    ensures |SplitOnSpace(s)| == WordStarts(s, 0, true)
    decreases |s|
  {
    var i := FirstSpace(s);
    WordStartsSkipWord(s, 1, i);
    if i < |s| {
      var j := SpaceRun(s, i);
      WordStartsSkipSpace(s, i, j, false);
      WordStartsShift(s, j, 0, true);
      SplitCountsWords(s[j..]);
    }
  }
}
