/** The language list of components/VoiceFilters.tsx: the primary subtag of
    every voice's language, without repeats, in the default string order. */
module VoiceFilters {
  import opened Lists
  import opened Sorting
  import opened Voices
  import opened Preferences

  /** `lang.split('-')[0]`: the text before the first `-`, or the whole tag
      when it has none. */
  function PrimarySubtag(lang: string): (r: string)
    ensures StartsWith(lang, r)
    ensures '-' !in r
    ensures |r| < |lang| ==> lang[|r|] == '-'
  {
    if lang == [] || lang[0] == '-' then []
    else
      var rest := PrimarySubtag(lang[1..]);
      assert lang[1..][..|rest|] == rest;
      [lang[0]] + rest
  }

  /** `Array.from(new Set(xs))`: each value once, in order of first occurrence. */
  function Dedupe(xs: seq<string>): (r: seq<string>)
    ensures Distinct(r)
    ensures forall x :: x in r <==> x in xs
    decreases |xs|
  {
    if xs == [] then []
    else
      var init := xs[..|xs| - 1];
      var last := xs[|xs| - 1];
      assert xs == init + [last];
      var r := Dedupe(init);
      if last in r then r else r + [last]
  }

  /** `voices.map(v => v.lang.split('-')[0])`. */
  function Subtags(voices: seq<Voice>): (r: seq<string>)
    ensures |r| == |voices|
  {
    seq(|voices|, i requires 0 <= i < |voices| => PrimarySubtag(voices[i].lang))
  }

  /** `languages`: the distinct primary subtags, sorted by `sort()`. */
  function Languages(voices: seq<Voice>): seq<string>
  {
    Sort(Dedupe(Subtags(voices)), LexLe)
  }

  /** The list is strictly ascending in the default string order (so holds
      no repeat), and a value is in it exactly when it is the primary subtag
      of some voice's language. */
  lemma LanguagesSpec(voices: seq<Voice>)
    ensures var r := Languages(voices);
      && (forall i, j :: 0 <= i < j < |r| ==> LexLe(r[i], r[j]) && r[i] != r[j])
      && (forall l :: l in r <==> exists k :: 0 <= k < |voices| && PrimarySubtag(voices[k].lang) == l)
  {
    var d := Dedupe(Subtags(voices));
    var r := Languages(voices);
    LexLeIsTotalPreorder();
    SortSorted(d, LexLe);
    DistinctCounts(d);
    DistinctCounts(r);
    forall l ensures l in r <==> l in d {
      assert l in r <==> l in multiset(r);
      assert l in d <==> l in multiset(d);
    }
    forall l ensures l in d <==> exists k :: 0 <= k < |voices| && PrimarySubtag(voices[k].lang) == l {
      if l in d {
        var k :| 0 <= k < |Subtags(voices)| && Subtags(voices)[k] == l;
      }
      if exists k :: 0 <= k < |voices| && PrimarySubtag(voices[k].lang) == l {
        var k :| 0 <= k < |voices| && PrimarySubtag(voices[k].lang) == l;
        assert Subtags(voices)[k] == l;
      }
    }
  }

  /** Choosing any language the list offers leaves at least one voice of
      the engine in the filtered list. */
  lemma OfferedLanguageHasVoice(engine: Engine, browserVoices: seq<Voice>, l: string)
    requires l in Languages(EngineVoices(engine, browserVoices))
    ensures FilteredVoices(engine, browserVoices, l, AnyGender) != []
  {
    var vs := EngineVoices(engine, browserVoices);
    LanguagesSpec(vs);
    var k :| 0 <= k < |vs| && PrimarySubtag(vs[k].lang) == l;
    assert VoiceMatches(vs[k], l, AnyGender);
    MatchingVoicesSpec(vs, l, AnyGender);
    assert vs[k] in MatchingVoices(vs, l, AnyGender);
  }
}
