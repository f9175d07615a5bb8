/** The favourites toggle and the voice filter of App.tsx. */
module Preferences {
  import opened Lists
  import opened Voices

  // ---------------------------------------------------------------------
  // toggleFavorite

  /** `toggleFavorite`: an id already listed is removed (every copy of it),
      any other id is appended at the end. */
  function ToggleFavorite(favorites: seq<string>, voiceURI: string): (r: seq<string>)
    ensures voiceURI in r <==> voiceURI !in favorites
    ensures forall x :: x != voiceURI ==> (x in r <==> x in favorites)
  {
    if voiceURI in favorites then
      var kept := Filter(favorites, (v: string) => v != voiceURI);
      forall x | x != voiceURI ensures x in kept <==> x in favorites {
        assert multiset(kept)[x] == multiset(favorites)[x];
        assert x in kept <==> x in multiset(kept);
        assert x in favorites <==> x in multiset(favorites);
      }
      kept
    else favorites + [voiceURI]
  }

  /** Toggling an id that is not a favourite twice gives back the original list. */
  lemma ToggleTwiceRestores(favorites: seq<string>, voiceURI: string)
    requires voiceURI !in favorites
    ensures ToggleFavorite(ToggleFavorite(favorites, voiceURI), voiceURI) == favorites
  {
    var p := (v: string) => v != voiceURI;
    FilterAppend(favorites, [voiceURI], p);
    FilterKeepsAll(favorites, p);
    assert Filter([voiceURI], p) == [] by {
      assert [voiceURI][1..] == [];
    }
  }

  /** Toggling never introduces a duplicate into a duplicate-free list. */
  lemma ToggleKeepsDistinct(favorites: seq<string>, voiceURI: string)
    requires Distinct(favorites)
    ensures Distinct(ToggleFavorite(favorites, voiceURI))
  {
    var r := ToggleFavorite(favorites, voiceURI);
    DistinctCounts(favorites);
    forall x ensures multiset(r)[x] <= 1 {
      if voiceURI !in favorites {
        assert multiset(r) == multiset(favorites) + multiset{voiceURI};
      }
    }
    DistinctCounts(r);
  }

  // ---------------------------------------------------------------------
  // filteredVoices

  /** A gender the filter can select: the filter's values are male and
      female, never neutral. */
  type FilterGender = g: Gender | !g.NeutralGender? witness Male

  /** The gender filter: `'all'`, `'male'` or `'female'`. */
  datatype GenderFilter = AnyGender | OnlyGender(gender: FilterGender)

  predicate StartsWith(s: string, prefix: string)
  {
    |prefix| <= |s| && s[..|prefix|] == prefix
  }

  /** The predicate of `filteredVoices`: the language filter is `'all'` or a
      prefix of the voice's language, and the gender filter is `'all'` or the
      voice has that gender (a browser voice has none). */
  predicate VoiceMatches(v: Voice, languageFilter: string, genderFilter: GenderFilter)
  {
    && (languageFilter == "all" || StartsWith(v.lang, languageFilter))
    && (genderFilter.AnyGender? || (v.gender.Some? && v.gender.value == genderFilter.gender))
  }

  /** The voices offered for the engine: the browser's own list or the AI voices. */
  function EngineVoices(engine: Engine, browserVoices: seq<Voice>): seq<Voice>
  {
    if engine == BrowserEngine then browserVoices else AIVoices
  }

  /** The voices of a list that pass both filters, in order. */
  function MatchingVoices(voices: seq<Voice>, languageFilter: string, genderFilter: GenderFilter): seq<Voice>
  {
    Filter(voices, (v: Voice) => VoiceMatches(v, languageFilter, genderFilter))
  }

  /** `filteredVoices`: the engine's voices that pass both filters, in order. */
  function FilteredVoices(engine: Engine, browserVoices: seq<Voice>,
                          languageFilter: string, genderFilter: GenderFilter): seq<Voice>
  {
    MatchingVoices(EngineVoices(engine, browserVoices), languageFilter, genderFilter)
  }

  /** The filtered list holds every matching voice as often as the engine's
      list does, no other voice, and keeps the engine's order. */
  lemma MatchingVoicesSpec(vs: seq<Voice>, languageFilter: string, genderFilter: GenderFilter)
    ensures var r := MatchingVoices(vs, languageFilter, genderFilter);
      && (forall i :: 0 <= i < |r| ==> VoiceMatches(r[i], languageFilter, genderFilter))
      && (forall v :: VoiceMatches(v, languageFilter, genderFilter) ==>
            multiset(r)[v] == multiset(vs)[v])
      && (forall v :: v in r <==> v in vs && VoiceMatches(v, languageFilter, genderFilter))
      && IsSubsequence(r, vs)
  {
    var p := (v: Voice) => VoiceMatches(v, languageFilter, genderFilter);
    var r := Filter(vs, p);
    forall v ensures v in r <==> v in vs && p(v) {
      assert v in r <==> multiset(r)[v] > 0;
      assert v in vs <==> multiset(vs)[v] > 0;
    }
    FilterIsSubsequence(vs, p);
  }

  /** With both filters at `'all'` every voice of the list is offered. */
  lemma NoFilterKeepsAll(vs: seq<Voice>)
    ensures MatchingVoices(vs, "all", AnyGender) == vs
  {
    FilterKeepsAll(vs, (v: Voice) => VoiceMatches(v, "all", AnyGender));
  }

  /** Browser voices carry no gender, so a gender filter left on while the
      browser engine is active hides every browser voice. */
  lemma GenderFilterHidesBrowserVoices(browserVoices: seq<Voice>, languageFilter: string, g: FilterGender)
    requires forall i :: 0 <= i < |browserVoices| ==> browserVoices[i].gender.None?
    ensures FilteredVoices(BrowserEngine, browserVoices, languageFilter, OnlyGender(g)) == []
  {
    var r := MatchingVoices(browserVoices, languageFilter, OnlyGender(g));
    forall v ensures multiset(r)[v] == 0 {
      if VoiceMatches(v, languageFilter, OnlyGender(g)) {
        assert v !in browserVoices;
      }
    }
    assert multiset(r) == multiset{};
  }
}
