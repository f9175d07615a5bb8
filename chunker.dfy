/** `chunkText` and the word count of `estimateDuration` (App.tsx). */
module Chunker {
  import opened Lists
  import opened Text

  /** The default `maxLength` of `chunkText`, the one the streaming
      controller uses. */
  const DefaultMaxLength: int := 200

  /** The greedy packing of the sentences `ss` into groups, the sentences of
      `cur` being already buffered: a sentence joins the buffer unless the
      buffer is non-empty and would grow past `maxLength`, in which case the
      buffer is closed first. */
  function Groups(ss: seq<string>, maxLength: int, cur: seq<string>): seq<seq<string>>
    decreases |ss|
  {
    if ss == [] then (if Flatten(cur) != [] then [cur] else [])
    else if |Flatten(cur) + ss[0]| > maxLength && Flatten(cur) != [] then
      [cur] + Groups(ss[1..], maxLength, [ss[0]])
    else Groups(ss[1..], maxLength, cur + [ss[0]])
  }

  /** One trimmed chunk per group: its sentences concatenated, then trimmed. */
  function TrimmedChunks(gs: seq<seq<string>>): (cs: seq<string>)
    ensures |cs| == |gs|
  {
    seq(|gs|, i requires 0 <= i < |gs| => Trim(Flatten(gs[i])))
  }

  lemma TrimmedChunksSnoc(gs: seq<seq<string>>, g: seq<string>)
    ensures TrimmedChunks(gs + [g]) == TrimmedChunks(gs) + [Trim(Flatten(g))]
  {
    var l, r := TrimmedChunks(gs + [g]), TrimmedChunks(gs) + [Trim(Flatten(g))];
    forall i | 0 <= i < |l| ensures l[i] == r[i] {
      if i < |gs| {
        assert (gs + [g])[i] == gs[i];
      }
    }
  }

  /** `chunkText(text, maxLength)`: with no sentence match the whole text (or
      nothing, for the empty text); otherwise the trimmed greedy groups. */
  function Chunk(text: string, maxLength: int): (cs: seq<string>)
  {
    var ss := SentenceMatches(text);
    if ss == [] then (if text == [] then [] else [text])
    else TrimmedChunks(Groups(ss, maxLength, []))
  }

  ghost predicate NonEmptyParts(ss: seq<string>)
  {
    forall k :: 0 <= k < |ss| ==> ss[k] != []
  }

  lemma FlattenEmpty(cur: seq<string>)
    requires NonEmptyParts(cur)
    ensures Flatten(cur) == [] <==> cur == []
  {
    if cur != [] {
      assert Flatten(cur) == cur[0] + Flatten(cur[1..]);
    }
  }

  lemma FlattenOne<T>(x: seq<T>)
    ensures Flatten([x]) == x
  {
    assert Flatten([x]) == x + Flatten([x][1..]);
  }

  /** One step of the packing, spelled out. */
  lemma GroupsStep(ss: seq<string>, maxLength: int, cur: seq<string>)
    requires ss != []
    ensures |Flatten(cur) + ss[0]| > maxLength && Flatten(cur) != [] ==>
      Groups(ss, maxLength, cur) == [cur] + Groups(ss[1..], maxLength, [ss[0]])
    ensures !(|Flatten(cur) + ss[0]| > maxLength && Flatten(cur) != []) ==>
      Groups(ss, maxLength, cur) == Groups(ss[1..], maxLength, cur + [ss[0]])
  {
  }

  /** The groups partition the buffered and the remaining sentences, in order. */
  lemma {:induction false} GroupsPartition(ss: seq<string>, maxLength: int, cur: seq<string>)
    requires NonEmptyParts(ss) && NonEmptyParts(cur)
    ensures Flatten(Groups(ss, maxLength, cur)) == cur + ss
    decreases |ss|
  {
    FlattenEmpty(cur);
    if ss == [] {
      if cur != [] {
        FlattenOne(cur);
      }
    } else {
      GroupsStep(ss, maxLength, cur);
      assert [ss[0]] + ss[1..] == ss;
      if |Flatten(cur) + ss[0]| > maxLength && Flatten(cur) != [] {
        GroupsPartition(ss[1..], maxLength, [ss[0]]);
      } else {
        GroupsPartition(ss[1..], maxLength, cur + [ss[0]]);
        assert (cur + [ss[0]]) + ss[1..] == cur + ss;
      }
    }
  }

  /** The first group starts with the buffered sentences. */
  lemma {:induction false} GroupsHead(ss: seq<string>, maxLength: int, cur: seq<string>)
    requires NonEmptyParts(ss) && NonEmptyParts(cur) && cur != []
    ensures Groups(ss, maxLength, cur) != []
    ensures |cur| <= |Groups(ss, maxLength, cur)[0]|
    ensures Groups(ss, maxLength, cur)[0][..|cur|] == cur
    decreases |ss|
  {
    FlattenEmpty(cur);
    if ss != [] {
      GroupsStep(ss, maxLength, cur);
      if !(|Flatten(cur) + ss[0]| > maxLength && Flatten(cur) != []) {
        GroupsHead(ss[1..], maxLength, cur + [ss[0]]);
        var g := Groups(ss, maxLength, cur)[0];
        assert g[..|cur|] == g[..|cur| + 1][..|cur|];
      }
    }
  }

  /** No group is empty. */
  lemma {:induction false} GroupsNonEmpty(ss: seq<string>, maxLength: int, cur: seq<string>)
    requires NonEmptyParts(ss) && NonEmptyParts(cur)
    ensures forall i :: 0 <= i < |Groups(ss, maxLength, cur)| ==> Groups(ss, maxLength, cur)[i] != []
    decreases |ss|
  {
    FlattenEmpty(cur);
    if ss != [] {
      GroupsStep(ss, maxLength, cur);
      if |Flatten(cur) + ss[0]| > maxLength && Flatten(cur) != [] {
        GroupsNonEmpty(ss[1..], maxLength, [ss[0]]);
      } else {
        GroupsNonEmpty(ss[1..], maxLength, cur + [ss[0]]);
      }
    }
  }

  /** A group of two or more sentences fits in `maxLength`. */
  lemma {:induction false} GroupsFit(ss: seq<string>, maxLength: int, cur: seq<string>)
    requires NonEmptyParts(ss) && NonEmptyParts(cur)
    requires |cur| >= 2 ==> |Flatten(cur)| <= maxLength
    ensures forall i :: 0 <= i < |Groups(ss, maxLength, cur)| && |Groups(ss, maxLength, cur)[i]| >= 2 ==>
      |Flatten(Groups(ss, maxLength, cur)[i])| <= maxLength
    decreases |ss|
  {
    FlattenEmpty(cur);
    if ss != [] {
      GroupsStep(ss, maxLength, cur);
      if |Flatten(cur) + ss[0]| > maxLength && Flatten(cur) != [] {
        GroupsFit(ss[1..], maxLength, [ss[0]]);
        var gs := Groups(ss, maxLength, cur);
        var rest := Groups(ss[1..], maxLength, [ss[0]]);
        assert forall i :: 1 <= i < |gs| ==> gs[i] == rest[i - 1];
      } else {
        FlattenSnoc(cur, ss[0]);
        GroupsFit(ss[1..], maxLength, cur + [ss[0]]);
      }
    }
  }

  /** Each group but the last was closed only because the next sentence
      would have made it longer than `maxLength`. */
  ghost predicate ClosedWhenFull(gs: seq<seq<string>>, maxLength: int)
  {
    forall i, j :: 0 <= i < j < |gs| && j == i + 1 ==>
      gs[j] != [] && |Flatten(gs[i]) + gs[j][0]| > maxLength
  }

  /** A group is closed only because its next sentence would overflow it. */
  lemma {:induction false} GroupsClosedWhenFull(ss: seq<string>, maxLength: int, cur: seq<string>)
    requires NonEmptyParts(ss) && NonEmptyParts(cur)
    ensures ClosedWhenFull(Groups(ss, maxLength, cur), maxLength)
    decreases |ss|
  {
    FlattenEmpty(cur);
    if ss != [] {
      GroupsStep(ss, maxLength, cur);
      var gs := Groups(ss, maxLength, cur);
      if |Flatten(cur) + ss[0]| > maxLength && Flatten(cur) != [] {
        var rest := Groups(ss[1..], maxLength, [ss[0]]);
        GroupsNonEmpty(ss[1..], maxLength, [ss[0]]);
        GroupsClosedWhenFull(ss[1..], maxLength, [ss[0]]);
        GroupsHead(ss[1..], maxLength, [ss[0]]);
        assert rest[0][..1] == [ss[0]];
        forall i, j | 0 <= i < j < |gs| && j == i + 1
          ensures gs[j] != [] && |Flatten(gs[i]) + gs[j][0]| > maxLength
        {
          if i > 0 {
            assert gs[i] == rest[i - 1] && gs[j] == rest[j - 1];
          }
        }
      } else {
        GroupsClosedWhenFull(ss[1..], maxLength, cur + [ss[0]]);
      }
    }
  }

  /** A group's first sentence is one of the sentences. */
  lemma GroupHeadIsSentence(gs: seq<seq<string>>, ss: seq<string>, i: nat)
    requires Flatten(gs) == ss
    requires i < |gs| && gs[i] != []
    ensures exists k :: 0 <= k < |ss| && ss[k] == gs[i][0]
  {
    FlattenContains(gs, i, 0);
  }

  /** A chunk made of a non-blank first sentence is not empty. */
  lemma ChunkNotEmpty(g: seq<string>)
    requires g != [] && Trim(g[0]) != []
    ensures Trim(Flatten(g)) != []
  {
    var k :| 0 <= k < |g[0]| && !IsSpace(g[0][k]);
    assert Flatten(g) == g[0] + Flatten(g[1..]);
    assert Flatten(g)[k] == g[0][k];
    TrimKeepsText(Flatten(g), k);
  }

  lemma MatchesNonEmpty(text: string)
    ensures NonEmptyParts(SentenceMatches(text))
  {
    forall k | 0 <= k < |SentenceMatches(text)| ensures SentenceMatches(text)[k] != [] {
      MatchesNotBlank(text, k);
    }
  }

  /** The properties `chunkText` promises. Without a sentence match: nothing
      for the empty text and the untrimmed text otherwise. With matches: the
      chunks are, in order, the trimmed concatenations of consecutive groups
      that partition the matches; no chunk is empty; a group of two or more
      sentences is at most `maxLength` long before trimming, and so is its
      chunk (only a single sentence may exceed it); and a group is closed
      only when the next sentence would not fit. Together these determine
      the greedy grouping. */
  lemma ChunkSpec(text: string, maxLength: int)
    ensures var ss := SentenceMatches(text);
      ss == [] ==> Chunk(text, maxLength) == (if text == [] then [] else [text])
    ensures var ss := SentenceMatches(text); var gs := Groups(ss, maxLength, []);
      var cs := Chunk(text, maxLength);
      ss != [] ==>
        && cs == TrimmedChunks(gs)
        && Flatten(gs) == ss
        && (forall i :: 0 <= i < |cs| ==> gs[i] != [] && cs[i] != [])
        && (forall i :: 0 <= i < |cs| && |gs[i]| >= 2 ==> |cs[i]| <= maxLength)
        && (forall i :: 0 <= i < |gs| && |gs[i]| >= 2 ==> |Flatten(gs[i])| <= maxLength)
        && ClosedWhenFull(gs, maxLength)
  {
    var ss := SentenceMatches(text);
    if ss != [] {
      var gs := Groups(ss, maxLength, []);
      MatchesNonEmpty(text);
      GroupsPartition(ss, maxLength, []);
      GroupsNonEmpty(ss, maxLength, []);
      GroupsFit(ss, maxLength, []);
      GroupsClosedWhenFull(ss, maxLength, []);
      assert [] + ss == ss;
      GroupsNotBlank(text, gs);
    }
  }

  /** Every group of sentences holds a character that is not whitespace. */
  lemma GroupsNotBlank(text: string, gs: seq<seq<string>>)
    requires Flatten(gs) == SentenceMatches(text)
    requires forall i :: 0 <= i < |gs| ==> gs[i] != []
    ensures forall i :: 0 <= i < |gs| ==> Trim(Flatten(gs[i])) != []
  {
    var ss := SentenceMatches(text);
    forall i | 0 <= i < |gs| ensures Trim(Flatten(gs[i])) != [] {
      GroupHeadIsSentence(gs, ss, i);
      var k :| 0 <= k < |ss| && ss[k] == gs[i][0];
      MatchesNotBlank(text, k);
      ChunkNotEmpty(gs[i]);
    }
  }

  /** A grouping of sentences with the properties `ChunkSpec` states: no
      group is empty, a group of two or more sentences fits, and a group is
      closed only when the next sentence would not fit. */
  ghost predicate Packing(hs: seq<seq<string>>, maxLength: int)
  {
    && (forall i :: 0 <= i < |hs| ==> hs[i] != [])
    && (forall i :: 0 <= i < |hs| && |hs[i]| >= 2 ==> |Flatten(hs[i])| <= maxLength)
    && ClosedWhenFull(hs, maxLength)
  }

  lemma PackingTail(hs: seq<seq<string>>, maxLength: int)
    requires Packing(hs, maxLength) && hs != []
    ensures Packing(hs[1..], maxLength)
  {
    var t := hs[1..];
    forall i, j | 0 <= i < j < |t| && j == i + 1
      ensures t[j] != [] && |Flatten(t[i]) + t[j][0]| > maxLength
    {
      assert t[i] == hs[i + 1] && t[j] == hs[j + 1];
    }
  }

  /** A group that starts with `cur` and holds more than `cur` continues
      with the next sentence, and is at least as long as `cur` plus it. */
  lemma GroupExtends(hs: seq<seq<string>>, cur: seq<string>, ss: seq<string>)
    requires hs != [] && Flatten(hs) == cur + ss
    requires |cur| < |hs[0]| && hs[0][..|cur|] == cur
    ensures ss != [] && hs[0][..|cur| + 1] == cur + [ss[0]]
    ensures |Flatten(hs[0])| >= |Flatten(cur) + ss[0]|
  {
    var g := hs[0];
    assert Flatten(hs) == g + Flatten(hs[1..]);
    assert Flatten(hs)[|cur|] == g[|cur|];
    assert (cur + ss)[|cur|] == g[|cur|];
    assert g[..|cur| + 1] == cur + [ss[0]];
    assert g == (cur + [ss[0]]) + g[|cur| + 1..];
    FlattenAppend(cur + [ss[0]], g[|cur| + 1..]);
    FlattenSnoc(cur, ss[0]);
  }

  /** A grouping without empty groups flattens to nothing only when it is empty. */
  lemma NoEmptyGroups(hs: seq<seq<string>>)
    requires forall i :: 0 <= i < |hs| ==> hs[i] != []
    ensures Flatten(hs) == [] ==> hs == []
  {
    if hs != [] {
      assert Flatten(hs) == hs[0] + Flatten(hs[1..]);
    }
  }

  /** The greedy packing is the only packing: any grouping of the buffered
      and the remaining sentences, whose first group starts with the buffer,
      that has the properties above is the one `Groups` builds. */
  lemma {:induction false} GreedyUnique(ss: seq<string>, maxLength: int, cur: seq<string>, hs: seq<seq<string>>)
    requires NonEmptyParts(ss) && NonEmptyParts(cur)
    requires Packing(hs, maxLength) && Flatten(hs) == cur + ss
    requires cur != [] ==> hs != [] && |cur| <= |hs[0]| && hs[0][..|cur|] == cur
    ensures hs == Groups(ss, maxLength, cur)
    decreases |ss|, 1
  {
    FlattenEmpty(cur);
    if hs != [] {
      assert Flatten(hs) == hs[0] + Flatten(hs[1..]);
    }
    if cur == [] {
      if ss != [] {
        GreedyUniqueFirst(ss, maxLength, hs);
      }
    } else if |hs[0]| == |cur| {
      GreedyUniqueClosed(ss, maxLength, cur, hs);
    } else {
      GreedyUniqueGrows(ss, maxLength, cur, hs);
    }
  }

  /** With nothing buffered, the first sentence opens the first group. */
  lemma {:induction false} GreedyUniqueFirst(ss: seq<string>, maxLength: int, hs: seq<seq<string>>)
    requires NonEmptyParts(ss) && ss != []
    requires Packing(hs, maxLength) && Flatten(hs) == ss
    ensures hs == Groups(ss, maxLength, [])
    decreases |ss|, 0
  {
    assert hs != [] && hs[0] != [];
    assert Flatten(hs) == hs[0] + Flatten(hs[1..]);
    assert hs[0][0] == ss[0] by {
      assert Flatten(hs)[0] == hs[0][0];
    }
    assert hs[0][..1] == [ss[0]];
    assert [ss[0]] + ss[1..] == ss;
    GreedyUnique(ss[1..], maxLength, [ss[0]], hs);
    GroupsStep(ss, maxLength, []);
    assert [] + [ss[0]] == [ss[0]];
  }

  /** A first group that is exactly the buffer was closed, so the buffer
      could not take the next sentence. */
  lemma {:induction false} GreedyUniqueClosed(ss: seq<string>, maxLength: int, cur: seq<string>, hs: seq<seq<string>>)
    requires NonEmptyParts(ss) && NonEmptyParts(cur) && cur != []
    requires Packing(hs, maxLength) && Flatten(hs) == cur + ss
    requires hs != [] && hs[0] == cur
    ensures hs == Groups(ss, maxLength, cur)
    decreases |ss|, 0
  {
    FlattenEmpty(cur);
    var t := hs[1..];
    assert Flatten(hs) == cur + Flatten(t);
    assert Flatten(t) == ss by {
      assert (cur + Flatten(t))[|cur|..] == Flatten(t);
      assert (cur + ss)[|cur|..] == ss;
    }
    if ss == [] {
      NoEmptyGroups(t);
      assert hs == [cur];
    } else {
      assert t != [] && t[0] != [];
      assert Flatten(t) == t[0] + Flatten(t[1..]);
      assert t[0][0] == ss[0] by {
        assert Flatten(t)[0] == t[0][0];
      }
      assert hs[1] == t[0];
      assert |Flatten(cur) + ss[0]| > maxLength;
      PackingTail(hs, maxLength);
      assert t[0][..1] == [ss[0]];
      assert [ss[0]] + ss[1..] == ss;
      GreedyUnique(ss[1..], maxLength, [ss[0]], t);
      GroupsStep(ss, maxLength, cur);
      assert hs == [cur] + t;
    }
  }

  /** A first group longer than the buffer holds the next sentence too,
      which therefore fits. */
  lemma {:induction false} GreedyUniqueGrows(ss: seq<string>, maxLength: int, cur: seq<string>, hs: seq<seq<string>>)
    requires NonEmptyParts(ss) && NonEmptyParts(cur) && cur != []
    requires Packing(hs, maxLength) && Flatten(hs) == cur + ss
    requires hs != [] && |cur| < |hs[0]| && hs[0][..|cur|] == cur
    ensures hs == Groups(ss, maxLength, cur)
    decreases |ss|, 0
  {
    FlattenEmpty(cur);
    GroupExtends(hs, cur, ss);
    assert |hs[0]| >= 2;
    GroupsStep(ss, maxLength, cur);
    assert (cur + [ss[0]]) + ss[1..] == cur + ss;
    GreedyUnique(ss[1..], maxLength, cur + [ss[0]], hs);
  }

  /** Only the greedy grouping of the matches has the properties `ChunkSpec`
      states, so those properties determine `chunkText`'s result. */
  lemma ChunkGroupingUnique(text: string, maxLength: int, hs: seq<seq<string>>)
    requires Packing(hs, maxLength) && Flatten(hs) == SentenceMatches(text)
    ensures hs == Groups(SentenceMatches(text), maxLength, [])
  {
    MatchesNonEmpty(text);
    assert [] + SentenceMatches(text) == SentenceMatches(text);
    GreedyUnique(SentenceMatches(text), maxLength, [], hs);
  }

  /** A non-empty text always yields at least one chunk. */
  lemma ChunkOfTextNonEmpty(text: string, maxLength: int)
    requires text != []
    ensures Chunk(text, maxLength) != []
  {
    ChunkSpec(text, maxLength);
  }

  /** One iteration of the packing loop, on the groups still to come. */
  lemma PackStep(ss: seq<string>, i: nat, maxLength: int, group: seq<string>,
                 done: seq<seq<string>>, target: seq<seq<string>>)
    requires i < |ss|
    requires done + Groups(ss[i..], maxLength, group) == target
    ensures |Flatten(group) + ss[i]| > maxLength && Flatten(group) != [] ==>
      (done + [group]) + Groups(ss[i + 1..], maxLength, [ss[i]]) == target
    ensures !(|Flatten(group) + ss[i]| > maxLength && Flatten(group) != []) ==>
      done + Groups(ss[i + 1..], maxLength, group + [ss[i]]) == target
  {
    assert ss[i..][0] == ss[i] && ss[i..][1..] == ss[i + 1..];
    GroupsStep(ss[i..], maxLength, group);
  }

  /** `chunkText` as written: one pass over the matches, a growing buffer,
      and a flush when the next sentence would overflow a non-empty buffer. */
  method ChunkText(text: string, maxLength: int) returns (chunks: seq<string>)
    ensures chunks == Chunk(text, maxLength)
  {
    var sentences := SentenceMatches(text);
    if |sentences| == 0 {
      chunks := if text != [] then [text] else [];
      return;
    }
    chunks := [];
    var current: string := [];
    ghost var done: seq<seq<string>> := [];
    ghost var group: seq<string> := [];
    ghost var target := Groups(sentences, maxLength, []);
    for i := 0 to |sentences|
      invariant current == Flatten(group)
      invariant chunks == TrimmedChunks(done)
      invariant done + Groups(sentences[i..], maxLength, group) == target
    {
      PackStep(sentences, i, maxLength, group, done, target);
      var sentence := sentences[i];
      if |current + sentence| > maxLength && current != [] {
        TrimmedChunksSnoc(done, group);
        done := done + [group];
        chunks := chunks + [Trim(current)];
        current := [];
        group := [];
        assert group + [sentence] == [sentence];
      }
      FlattenSnoc(group, sentence);
      current := current + sentence;
      group := group + [sentence];
    }
    assert sentences[|sentences|..] == [];
    if current != [] {
      TrimmedChunksSnoc(done, group);
      done := done + [group];
      chunks := chunks + [Trim(current)];
    }
  }

  // ---------------------------------------------------------------------
  // estimateDuration

  /** The word count inside `estimateDuration`: 0 for the empty text, else
      the number of pieces the trimmed text splits into at runs of white
      space (1 for blank text). */
  function WordCount(text: string): (n: nat)
  {
    if text == [] then 0 else |SplitOnSpace(Trim(text))|
  }

  /** The word count is 0 exactly for the empty text, 1 for blank text, and
      otherwise the number of words, counted independently as word starts. */
  lemma WordCountSpec(text: string)
    ensures WordCount(text) == 0 <==> text == []
    ensures text != [] && AllSpace(text) ==> WordCount(text) == 1
    ensures !AllSpace(text) ==> WordCount(text) == WordStarts(Trim(text), 0, true)
    ensures !AllSpace(text) ==> forall w :: w in SplitOnSpace(Trim(text)) ==>
      w != [] && forall k :: 0 <= k < |w| ==> !IsSpace(w[k])
  {
    if !AllSpace(text) {
      SplitCountsWords(Trim(text));
      SplitTrimmedGivesWords(Trim(text));
    } else if text != [] {
      assert Trim(text) == [];
    }
  }
}
