/** The records of types.ts, the built-in AI voices of App.tsx and the
    lookup of a voice by its URI (`voices.find(v => v.voiceURI === uri)`). */
module Voices {
  import opened Wrappers

  datatype Gender = Male | Female | NeutralGender

  datatype DownloadFormat = Mp3 | Wav | Ogg

  datatype Engine = AiEngine | BrowserEngine

  /** A voice of either engine. Browser voices carry no gender, so `gender`
      is `None` for them; `isDefault` stands for the optional `default`. */
  datatype Voice = Voice(name: string, lang: string, voiceURI: string,
                         gender: Option<Gender>, isDefault: bool)

  datatype HistoryItem = HistoryItem(id: string, text: string, voiceName: string,
                                     audioUrl: string, timestamp: int,
                                     format: DownloadFormat, engine: Engine)

  /** The six voices of the simulated AI back end. */
  const AIVoices: seq<Voice> := [
    Voice("Aria", "en-US", "ai-aria", Some(Female), true),
    Voice("Leo", "en-US", "ai-leo", Some(Male), false),
    Voice("Nova", "en-GB", "ai-nova", Some(Female), false),
    Voice("Orion", "en-AU", "ai-orion", Some(Male), false),
    Voice("Elara", "fr-FR", "ai-elara", Some(Female), false),
    Voice("Mateo", "es-ES", "ai-mateo", Some(Male), false)
  ]

  /** The position of the first voice at or after `from` whose URI is `uri`. */
  function IndexOfURI(voices: seq<Voice>, uri: string, from: nat): (r: Option<nat>)
    requires from <= |voices|
    ensures r.Some? ==> from <= r.value < |voices| && voices[r.value].voiceURI == uri
    ensures r.Some? ==> forall j :: from <= j < r.value ==> voices[j].voiceURI != uri
    ensures r.None? ==> forall j :: from <= j < |voices| ==> voices[j].voiceURI != uri
    decreases |voices| - from
  {
    if from == |voices| then None
    else if voices[from].voiceURI == uri then Some(from)
    else IndexOfURI(voices, uri, from + 1)
  }

  /** `voices.find(v => v.voiceURI === uri)`: the first voice with that URI,
      or none when no voice has it. */
  function FindVoice(voices: seq<Voice>, uri: string): (r: Option<Voice>)
    ensures r.None? <==> forall j :: 0 <= j < |voices| ==> voices[j].voiceURI != uri
    ensures r.Some? ==> exists i :: 0 <= i < |voices| && voices[i] == r.value
                                    && r.value.voiceURI == uri
                                    && forall j :: 0 <= j < i ==> voices[j].voiceURI != uri
  {
    match IndexOfURI(voices, uri, 0)
    case Some(i) => Some(voices[i])
    case None => None
  }
}
