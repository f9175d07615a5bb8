/** The voice list of components/VoiceSelector.tsx: favourites first, then
    the other voices, each group sorted by name, and the selected voice. */
module VoiceSelector {
  import opened Wrappers
  import opened Lists
  import opened Sorting
  import opened Voices

  /** The comparator `(a, b) => a.name.localeCompare(b.name)`, read as an
      order on voices; the locale order on names is the parameter `nameLe`. */
  function ByName(nameLe: (string, string) -> bool): (Voice, Voice) -> bool
  {
    (a: Voice, b: Voice) => nameLe(a.name, b.name)
  }

  /** `favoriteVoices`: the voices whose URI is a favourite, sorted by name. */
  function FavoriteVoices(voices: seq<Voice>, favorites: seq<string>,
                          nameLe: (string, string) -> bool): seq<Voice>
  {
    Sort(Filter(voices, (v: Voice) => v.voiceURI in favorites), ByName(nameLe))
  }

  /** `otherVoices`: the remaining voices, sorted by name. */
  function OtherVoices(voices: seq<Voice>, favorites: seq<string>,
                       nameLe: (string, string) -> bool): seq<Voice>
  {
    Sort(Filter(voices, (v: Voice) => v.voiceURI !in favorites), ByName(nameLe))
  }

  /** `selectedVoice`: the first voice whose URI is the selected value; none
      when nothing is selected (`null` equals no URI) or no voice has it. */
  function SelectedVoice(voices: seq<Voice>, selected: Option<string>): (r: Option<Voice>)
    ensures r.None? <==> selected.None? || forall j :: 0 <= j < |voices| ==> voices[j].voiceURI != selected.value
    ensures r.Some? ==> selected.Some? && r.value.voiceURI == selected.value
    ensures r.Some? ==> exists i :: 0 <= i < |voices| && voices[i] == r.value
                                    && forall j :: 0 <= j < i ==> voices[j].voiceURI != r.value.voiceURI
  {
    if selected.None? then None else FindVoice(voices, selected.value)
  }

  /** The separator line between the two groups. */
  predicate ShowSeparator(voices: seq<Voice>, favorites: seq<string>,
                          nameLe: (string, string) -> bool)
  {
    |FavoriteVoices(voices, favorites, nameLe)| > 0 && |OtherVoices(voices, favorites, nameLe)| > 0
  }

  /** Every voice lands in exactly one of the two groups, as often as it is
      listed: together they are a permutation of the voices. A favourite's URI
      is in `favorites`, no other voice's is. */
  lemma PartitionSpec(voices: seq<Voice>, favorites: seq<string>, nameLe: (string, string) -> bool)
    ensures var fav := FavoriteVoices(voices, favorites, nameLe);
      var other := OtherVoices(voices, favorites, nameLe);
      && multiset(fav) + multiset(other) == multiset(voices)
      && |fav| + |other| == |voices|
      && (forall i :: 0 <= i < |fav| ==> fav[i].voiceURI in favorites)
      && (forall i :: 0 <= i < |other| ==> other[i].voiceURI !in favorites)
  {
    var fav := FavoriteVoices(voices, favorites, nameLe);
    var other := OtherVoices(voices, favorites, nameLe);
    var f := Filter(voices, (v: Voice) => v.voiceURI in favorites);
    var o := Filter(voices, (v: Voice) => v.voiceURI !in favorites);
    assert multiset(f) + multiset(o) == multiset(voices) by {
      forall x ensures (multiset(f) + multiset(o))[x] == multiset(voices)[x] {
      }
    }
    assert |multiset(fav)| == |fav| && |multiset(other)| == |other|;
    forall i | 0 <= i < |fav| ensures fav[i].voiceURI in favorites {
      assert fav[i] in multiset(f);
    }
    forall i | 0 <= i < |other| ensures other[i].voiceURI !in favorites {
      assert other[i] in multiset(o);
    }
  }

  lemma ByNameIsTotalPreorder(nameLe: (string, string) -> bool)
    requires TotalPreorder(nameLe)
    ensures TotalPreorder(ByName(nameLe))
  {
    var le := ByName(nameLe);
    forall a, b ensures le(a, b) || le(b, a) {
      assert nameLe(a.name, b.name) || nameLe(b.name, a.name);
    }
    forall a, b, c | le(a, b) && le(b, c) ensures le(a, c) {
      assert nameLe(a.name, b.name) && nameLe(b.name, c.name);
    }
  }

  /** For any total order on names, both groups are ordered by name. */
  lemma GroupsSortedByName(voices: seq<Voice>, favorites: seq<string>, nameLe: (string, string) -> bool)
    requires TotalPreorder(nameLe)
    ensures var fav := FavoriteVoices(voices, favorites, nameLe);
      forall i, j :: 0 <= i < j < |fav| ==> nameLe(fav[i].name, fav[j].name)
    ensures var other := OtherVoices(voices, favorites, nameLe);
      forall i, j :: 0 <= i < j < |other| ==> nameLe(other[i].name, other[j].name)
  {
    ByNameIsTotalPreorder(nameLe);
    SortSorted(Filter(voices, (v: Voice) => v.voiceURI in favorites), ByName(nameLe));
    SortSorted(Filter(voices, (v: Voice) => v.voiceURI !in favorites), ByName(nameLe));
  }

  /** The separator is shown exactly when some voice is a favourite and some
      voice is not. */
  lemma SeparatorSpec(voices: seq<Voice>, favorites: seq<string>, nameLe: (string, string) -> bool)
    ensures ShowSeparator(voices, favorites, nameLe) <==>
      (exists i :: 0 <= i < |voices| && voices[i].voiceURI in favorites) &&
      (exists j :: 0 <= j < |voices| && voices[j].voiceURI !in favorites)
  {
    FilterNonEmpty(voices, (v: Voice) => v.voiceURI in favorites);
    FilterNonEmpty(voices, (v: Voice) => v.voiceURI !in favorites);
  }
}
