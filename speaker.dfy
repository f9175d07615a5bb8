/** The browser speech hook of hooks/useSpeechSynthesis.ts: the text is cut
    into sentences, one utterance per sentence is handed to the engine, and
    the engine's callbacks (`onstart`, `onend`, `onpause`, `onresume`,
    `onerror`) and the pause timer drive the flags. */
module Speaker {
  import opened Wrappers
  import opened Lists
  import opened Text

  // ---------------------------------------------------------------------
  // The sentence split

  function NonEmpty(x: string): bool { x != [] }

  /** The trimmed matches, in order. */
  function TrimAll(ms: seq<string>): (r: seq<string>)
    ensures |r| == |ms|
    ensures forall i :: 0 <= i < |ms| ==> r[i] == Trim(ms[i])
  {
    seq(|ms|, i requires 0 <= i < |ms| => Trim(ms[i]))
  }

  /** The sentences of the hook: the trimmed sentence matches that are not
      blank, or, when nothing matches, the trimmed text if it is not blank. An empty array is truthy, so the fallback
      applies only when nothing matched. */
  function SplitSentences(text: string): (r: seq<string>)
    ensures forall i :: 0 <= i < |r| ==> r[i] != []
  {
    Filter(TrimAll(Pieces(text)), NonEmpty)
  }

  /** The sentence matches, or the whole text when nothing matches. */
  function Pieces(text: string): seq<string>
  {
    var ms := SentenceMatches(text);
    if ms != [] then ms else [text]
  }

  /** What is left of trimmed pieces once the empty ones are dropped. */
  lemma TrimmedPieces(xs: seq<string>, i: nat)
    requires i < |Filter(TrimAll(xs), NonEmpty)|
    ensures var x := Filter(TrimAll(xs), NonEmpty)[i];
      exists j :: 0 <= j < |xs| && x == Trim(xs[j])
    ensures var x := Filter(TrimAll(xs), NonEmpty)[i];
      x != [] && !IsSpace(x[0]) && !IsSpace(x[|x| - 1])
  {
    var x := Filter(TrimAll(xs), NonEmpty)[i];
    assert x in multiset(Filter(TrimAll(xs), NonEmpty));
    assert x in TrimAll(xs);
    var j :| 0 <= j < |xs| && TrimAll(xs)[j] == x;
  }

  /** Every sentence is a trimmed match (or the trimmed text): it neither
      starts nor ends with white space. */
  lemma SentencesTrimmed(text: string, i: nat)
    requires i < |SplitSentences(text)|
    ensures var x := SplitSentences(text)[i];
      !IsSpace(x[0]) && !IsSpace(x[|x| - 1])
  {
    TrimmedPieces(Pieces(text), i);
  }

  /** There is nothing to speak exactly when the text is blank. */
  lemma SplitSentencesEmpty(text: string)
    ensures SplitSentences(text) == [] <==> AllSpace(text)
  {
    var ms := SentenceMatches(text);
    if ms != [] {
      MatchesNotBlank(text, 0);
      FilterNonEmpty(TrimAll(ms), NonEmpty);
      MatchImpliesTerminator(text);
      var k :| 0 <= k < |text| && IsTerminator(text[k]);
      SpaceIsNotTerminator(text[k]);
    } else {
      FilterNonEmpty(TrimAll([text]), NonEmpty);
      assert TrimAll([text])[0] == Trim(text);
    }
  }

  /** A text without `.`, `!` or `?` is spoken as one trimmed sentence. */
  lemma NoTerminatorOneSentence(text: string)
    requires forall k :: 0 <= k < |text| ==> !IsTerminator(text[k])
    requires !AllSpace(text)
    ensures SplitSentences(text) == [Trim(text)]
  {
    NoTerminatorNoMatch(text);
    assert TrimAll([text]) == [Trim(text)];
    FilterKeepsAll([Trim(text)], NonEmpty);
  }

  // ---------------------------------------------------------------------
  // The hook's state

  /** The hook's flags and error, the closure state of the last `speak`
      (its sentences, the counter `sentenceIndex`, the pause), whether an
      utterance of `sentences[index]` is with the engine, whether the pause
      timer is pending, and the sentences handed to the engine since the
      last `speak`, in order. */
  datatype Speech = Speech(preparing: bool, speaking: bool, paused: bool, error: Option<string>,
                           sentences: seq<string>, index: nat, sentencePause: real,
                           uttering: bool, timerPending: bool, spoken: seq<string>)

  /** What every reachable state satisfies. */
  predicate Consistent(s: Speech)
  {
    && !(s.preparing && s.speaking)
    && s.index <= |s.sentences|
    && !(s.uttering && s.timerPending)
    && |s.spoken| <= |s.sentences| && s.spoken == s.sentences[..|s.spoken|]
    && (s.uttering ==> s.index < |s.sentences| && |s.spoken| == s.index + 1)
    && (s.timerPending ==> s.index < |s.sentences| && |s.spoken| == s.index)
  }

  /** `cancel`: the pending timer is cleared, the engine drops its utterance,
      and the three flags are false; the error and the sentences stay. */
  function Cancelled(s: Speech): (r: Speech)
    ensures !r.timerPending && !r.uttering
    ensures !r.preparing && !r.speaking && !r.paused
    ensures r.error == s.error && r.sentences == s.sentences && r.index == s.index
  {
    s.(timerPending := false, uttering := false, preparing := false, speaking := false, paused := false)
  }

  /** `speakNext`: hands `sentences[index]` to the engine, or does nothing
      once every sentence has been handed over. */
  function SpeakNext(s: Speech): (r: Speech)
    ensures s.index < |s.sentences| ==> r.uttering && r.spoken == s.spoken + [s.sentences[s.index]]
    ensures s.index >= |s.sentences| ==> r == s
  {
    if s.index >= |s.sentences| then s
    else s.(uttering := true, spoken := s.spoken + [s.sentences[s.index]])
  }

  /** `speak`: nothing without text or voice; otherwise the steps of
      `Begin` on the sentences of the text. `hasVoice` stands for the voice
      argument being present. */
  function Spoken(s: Speech, text: string, hasVoice: bool, sentencePause: real): Speech
  {
    if text == [] || !hasVoice then s
    else Begin(s, SplitSentences(text), sentencePause)
  }

  /** The body of `speak` once the text is split: cancel, clear the error,
      mark preparing, and either stop preparing (no sentence) or hand the
      first sentence to the engine. */
  function Begin(s: Speech, ss: seq<string>, sentencePause: real): Speech
  {
    var c := Cancelled(s).(error := None, preparing := true);
    if ss == [] then c.(preparing := false, sentences := [], index := 0, spoken := [])
    else SpeakNext(c.(sentences := ss, index := 0, sentencePause := sentencePause, spoken := []))
  }

  /** `onstart` of the live utterance. */
  function Started(s: Speech): Speech
  {
    if !s.uttering then s else s.(preparing := false, speaking := true, paused := false)
  }

  /** `onend` of the live utterance: the counter moves on by one; with more
      sentences left, a positive pause sets the timer and no pause speaks the
      next one at once; after the last one speaking and paused are cleared. */
  function Ended(s: Speech): Speech
  {
    if !s.uttering then s
    else
      var t := s.(uttering := false, index := s.index + 1);
      if t.index < |t.sentences| then
        if t.sentencePause > 0.0 then t.(timerPending := true) else SpeakNext(t)
      else t.(speaking := false, paused := false)
  }

  /** The pause timer fires and calls `speakNext`. */
  function TimerFired(s: Speech): Speech
  {
    if !s.timerPending then s else SpeakNext(s.(timerPending := false))
  }

  /** `onpause` of the live utterance. */
  function PausedByEngine(s: Speech): Speech
  {
    if !s.uttering then s else s.(paused := true)
  }

  /** `onresume` of the live utterance. */
  function ResumedByEngine(s: Speech): Speech
  {
    if !s.uttering then s else s.(paused := false)
  }

  /** `onerror` of the live utterance: `'canceled'` is ignored; any other
      error is recorded and clears the three flags, and the utterance is over. */
  function Failed(s: Speech, e: string): Speech
  {
    if !s.uttering || e == "canceled" then s
    else s.(error := Some(e), preparing := false, speaking := false, paused := false, uttering := false)
  }

  /** `pause` asks the engine to pause only while speaking and not paused. */
  predicate PauseRequested(s: Speech)
  {
    s.speaking && !s.paused
  }

  /** `resume` asks the engine to resume only while paused. */
  predicate ResumeRequested(s: Speech)
  {
    s.paused
  }

  datatype Event =
    | Speak(text: string, hasVoice: bool, sentencePause: real)
    | Cancel
    | UtteranceStart
    | UtteranceEnd
    | Timer
    | UtterancePause
    | UtteranceResume
    | UtteranceError(error: string)

  function Apply(s: Speech, e: Event): Speech
  {
    match e
    case Speak(text, hasVoice, p) => Spoken(s, text, hasVoice, p)
    case Cancel => Cancelled(s)
    case UtteranceStart => Started(s)
    case UtteranceEnd => Ended(s)
    case Timer => TimerFired(s)
    case UtterancePause => PausedByEngine(s)
    case UtteranceResume => ResumedByEngine(s)
    case UtteranceError(err) => Failed(s, err)
  }

  // ---------------------------------------------------------------------
  // Properties

  lemma BeginKeepsConsistent(s: Speech, ss: seq<string>, p: real)
    ensures Consistent(Begin(s, ss, p))
  {
    if ss != [] {
      assert ss[..1] == [ss[0]];
    }
  }

  /** Every handler keeps the state consistent; in particular preparing and
      speaking are never both true. */
  lemma ApplyKeepsConsistent(s: Speech, e: Event)
    requires Consistent(s)
    ensures Consistent(Apply(s, e))
  {
    match e
    case Speak(text, hasVoice, p) => {
      if text != [] && hasVoice {
        BeginKeepsConsistent(s, SplitSentences(text), p);
      }
    }
    case UtteranceEnd => EndedKeepsConsistent(s);
    case Timer => TimerFiredKeepsConsistent(s);
    case _ =>
  }

  lemma EndedKeepsConsistent(s: Speech)
    requires Consistent(s)
    ensures Consistent(Ended(s))
  {
    if s.uttering {
      var i := s.index + 1;
      if i < |s.sentences| {
        assert s.sentences[..i] + [s.sentences[i]] == s.sentences[..i + 1];
      }
    }
  }

  lemma TimerFiredKeepsConsistent(s: Speech)
    requires Consistent(s)
    ensures Consistent(TimerFired(s))
  {
    if s.timerPending {
      assert s.sentences[..s.index] + [s.sentences[s.index]] == s.sentences[..s.index + 1];
    }
  }

  /** `speak` without text or without a voice changes nothing; with a blank
      text it ends not preparing, not speaking, with nothing sent to the engine. */
  lemma SpeakGuards(s: Speech, text: string, hasVoice: bool, p: real)
    ensures text == [] || !hasVoice ==> Spoken(s, text, hasVoice, p) == s
    ensures text != [] && hasVoice && AllSpace(text) ==>
      var r := Spoken(s, text, hasVoice, p);
      !r.preparing && !r.speaking && !r.uttering && !r.timerPending && r.error == None
  {
    SplitSentencesEmpty(text);
  }

  /** `speak` of a text that is not blank hands exactly its first sentence
      to the engine and is preparing until the engine starts. */
  lemma SpeakStartsFirstSentence(s: Speech, text: string, p: real)
    requires !AllSpace(text)
    ensures var r := Spoken(s, text, true, p);
      && r.preparing && !r.speaking && r.uttering && r.error == None
      && r.sentences == SplitSentences(text) && r.index == 0
      && r.spoken == [SplitSentences(text)[0]]
  {
    SplitSentencesEmpty(text);
  }

  /** After `onend`, a positive pause leaves the next sentence to the timer
      and hands nothing to the engine; no pause hands it over at once. */
  lemma EndSchedulesNext(s: Speech)
    requires Consistent(s) && s.uttering && s.index + 1 < |s.sentences|
    ensures s.sentencePause > 0.0 ==>
      Ended(s).timerPending && !Ended(s).uttering && Ended(s).spoken == s.spoken
    ensures s.sentencePause <= 0.0 ==>
      !Ended(s).timerPending && Ended(s).uttering && Ended(s).spoken == s.spoken + [s.sentences[s.index + 1]]
    ensures Ended(s).index == s.index + 1
  {
  }

  /** One sentence as the engine plays it: `onstart`, then `onend`, then the
      pause timer if one was set. */
  function Advance(s: Speech): Speech
  {
    TimerFired(Ended(Started(s)))
  }

  function AdvanceTimes(s: Speech, k: nat): Speech
    decreases k
  {
    if k == 0 then s else AdvanceTimes(Advance(s), k - 1)
  }

  /** One sentence after the live utterance is handed over: the counter
      moves on by one and nothing is preparing any more; the next sentence is
      being uttered, or after the last one every flag is clear and nothing
      more was handed to the engine. */
  lemma AdvanceSpec(s: Speech)
    requires Consistent(s) && s.uttering
    ensures var n := Advance(s);
      && Consistent(n) && n.sentences == s.sentences && n.index == s.index + 1 && !n.preparing
      && (n.index < |s.sentences| ==> n.uttering)
      && (n.index == |s.sentences| ==>
            !n.speaking && !n.paused && !n.uttering && !n.timerPending && n.spoken == s.spoken)
  {
    EndedKeepsConsistent(Started(s));
    TimerFiredKeepsConsistent(Ended(Started(s)));
  }

  /** Sentences are spoken strictly in order: from an utterance of sentence
      `index`, the remaining sentence boundaries hand every later sentence to
      the engine in turn, and after the last `onend` preparing, speaking and
      paused are false and nothing is pending. */
  lemma {:induction false} SpeaksRestInOrder(s: Speech, k: nat)
    requires Consistent(s) && s.uttering
    requires k == |s.sentences| - s.index
    ensures var t := AdvanceTimes(s, k);
      && t.spoken == s.sentences && t.index == |s.sentences|
      && !t.preparing && !t.speaking && !t.paused && !t.uttering && !t.timerPending
    decreases k
  {
    var n := Advance(s);
    AdvanceSpec(s);
    assert AdvanceTimes(s, k) == AdvanceTimes(n, k - 1);
    if k == 1 {
      assert s.sentences[..|s.spoken|] == s.sentences;
    } else {
      SpeaksRestInOrder(n, k - 1);
    }
  }

  /** A whole run of `speak` followed by one boundary per sentence speaks
      exactly the sentences of the text, in order. */
  lemma SpeakRunSpeaksAll(s: Speech, text: string, p: real)
    requires !AllSpace(text)
    ensures var t := AdvanceTimes(Spoken(s, text, true, p), |SplitSentences(text)|);
      t.spoken == SplitSentences(text) && !t.preparing && !t.speaking && !t.paused && !t.uttering
  {
    SplitSentencesEmpty(text);
    BeginRunSpeaksAll(s, SplitSentences(text), p);
  }

  /** The same for the sentences `speak` starts on, whatever they are. */
  lemma BeginRunSpeaksAll(s: Speech, ss: seq<string>, p: real)
    requires ss != []
    ensures var t := AdvanceTimes(Begin(s, ss, p), |ss|);
      t.spoken == ss && !t.preparing && !t.speaking && !t.paused && !t.uttering
  {
    var r := Begin(s, ss, p);
    BeginKeepsConsistent(s, ss, p);
    SpeaksRestInOrder(r, |ss|);
  }

  /** `cancel` is idempotent, and after it no callback or timer changes anything. */
  lemma CancelSilences(s: Speech, err: string)
    ensures Cancelled(Cancelled(s)) == Cancelled(s)
    ensures var c := Cancelled(s);
      Started(c) == c && Ended(c) == c && TimerFired(c) == c &&
      PausedByEngine(c) == c && ResumedByEngine(c) == c && Failed(c, err) == c
  {
  }

  /** A `'canceled'` error changes nothing; any other error on the live
      utterance records it and clears every flag. */
  lemma ErrorSpec(s: Speech, err: string)
    ensures Failed(s, "canceled") == s
    ensures s.uttering && err != "canceled" ==>
      var r := Failed(s, err);
      r.error == Some(err) && !r.preparing && !r.speaking && !r.paused && !r.uttering
  {
  }

  /** A pause request on a speaking utterance, answered by the engine, makes
      a resume request possible, and its answer restores the state. */
  lemma PauseThenResume(s: Speech)
    requires s.uttering && PauseRequested(s)
    ensures ResumeRequested(PausedByEngine(s))
    ensures !PauseRequested(PausedByEngine(s))
    ensures ResumedByEngine(PausedByEngine(s)) == s
  {
  }

  // ---------------------------------------------------------------------
  // The hook as an object

  /** The hook's state and its callbacks, updated in place. */
  class SentenceSpeaker {
    var preparing: bool
    var speaking: bool
    var paused: bool
    var error: Option<string>
    var sentences: seq<string>
    var index: nat
    var sentencePause: real
    var uttering: bool
    var timerPending: bool
    var spoken: seq<string>

    function State(): Speech
      reads this
    {
      Speech(preparing, speaking, paused, error, sentences, index, sentencePause,
             uttering, timerPending, spoken)
    }

    predicate Valid()
      reads this
    {
      Consistent(State())
    }

    constructor ()
      ensures Valid()
      ensures State() == Speech(false, false, false, None, [], 0, 0.0, false, false, [])
    {
      preparing, speaking, paused, error := false, false, false, None;
      sentences, index, sentencePause := [], 0, 0.0;
      uttering, timerPending, spoken := false, false, [];
    }

    method Cancel()
      requires Valid()
      modifies this
      ensures State() == Cancelled(old(State()))
      ensures Valid()
    {
      timerPending := false;
      uttering := false;
      preparing := false;
      speaking := false;
      paused := false;
    }

    method SpeakNextSentence()
      modifies this
      ensures State() == SpeakNext(old(State()))
    {
      if index < |sentences| {
        uttering := true;
        spoken := spoken + [sentences[index]];
      }
    }

    method Speak(text: string, hasVoice: bool, pause: real)
      requires Valid()
      modifies this
      ensures State() == Spoken(old(State()), text, hasVoice, pause)
      ensures Valid()
    {
      if text == [] || !hasVoice {
        return;
      }
      var ss := SplitSentences(text);
      BeginSession(ss, pause);
    }

    /** The steps of `speak` after the split. */
    method BeginSession(ss: seq<string>, pause: real)
      requires Valid()
      modifies this
      ensures State() == Begin(old(State()), ss, pause)
      ensures Valid()
    {
      BeginKeepsConsistent(State(), ss, pause);
      Cancel();
      error := None;
      preparing := true;
      if |ss| == 0 {
        preparing := false;
        sentences, index, spoken := [], 0, [];
        return;
      }
      sentences, index, sentencePause, spoken := ss, 0, pause, [];
      SpeakNextSentence();
    }

    method OnStart()
      requires Valid()
      modifies this
      ensures State() == Started(old(State()))
      ensures Valid()
    {
      ApplyKeepsConsistent(State(), UtteranceStart);
      if uttering {
        preparing := false;
        speaking := true;
        paused := false;
      }
    }

    method OnEnd()
      requires Valid()
      modifies this
      ensures State() == Ended(old(State()))
      ensures Valid()
    {
      ApplyKeepsConsistent(State(), UtteranceEnd);
      if !uttering {
        return;
      }
      uttering := false;
      index := index + 1;
      if index < |sentences| {
        if sentencePause > 0.0 {
          timerPending := true;
        } else {
          SpeakNextSentence();
        }
      } else {
        speaking := false;
        paused := false;
      }
    }

    method OnTimer()
      requires Valid()
      modifies this
      ensures State() == TimerFired(old(State()))
      ensures Valid()
    {
      ApplyKeepsConsistent(State(), Timer);
      if timerPending {
        timerPending := false;
        SpeakNextSentence();
      }
    }

    method OnPause()
      requires Valid()
      modifies this
      ensures State() == PausedByEngine(old(State()))
      ensures Valid()
    {
      ApplyKeepsConsistent(State(), UtterancePause);
      if uttering {
        paused := true;
      }
    }

    method OnResume()
      requires Valid()
      modifies this
      ensures State() == ResumedByEngine(old(State()))
      ensures Valid()
    {
      ApplyKeepsConsistent(State(), UtteranceResume);
      if uttering {
        paused := false;
      }
    }

    method OnError(e: string)
      requires Valid()
      modifies this
      ensures State() == Failed(old(State()), e)
      ensures Valid()
    {
      ApplyKeepsConsistent(State(), UtteranceError(e));
      if !uttering || e == "canceled" {
        return;
      }
      error := Some(e);
      preparing := false;
      speaking := false;
      paused := false;
      uttering := false;
    }

    /** `pause`: whether the engine is asked to pause; the state is unchanged. */
    method Pause() returns (requested: bool)
      ensures requested == PauseRequested(State())
    {
      requested := speaking && !paused;
    }

    /** `resume`: whether the engine is asked to resume; the state is unchanged. */
    method Resume() returns (requested: bool)
      ensures requested == ResumeRequested(State())
    {
      requested := paused;
    }
  }
}
