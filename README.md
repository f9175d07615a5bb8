# TTS-Synthetiser core, modelled in Dafny

TTS-Synthetiser is a React front end for text-to-speech with two engines:
the browser's own speech engine and a simulated streaming AI back end. This
project models its core in Dafny and proves properties of the model.

- **Chunker** (`chunker.dfy`, with the text primitives of `text.dfy`):
  - `chunkText` of App.tsx. The sentence pattern `/[^.!?]+[.!?]+(\s|$)/g` is an explicit scanner, proved equal to a declarative reading of the pattern and to find every match.
  - The sentences are packed greedily into chunks of at most `maxLength` characters, then trimmed.
  - The word count of `estimateDuration`.
- **Streaming player** (`streaming.dfy`): `handleAIStop`, `handleAIStream` and its asynchronous `generateAndQueue` loop, the playback effect with its `onended` handler, and the history entry written with the first chunk.
  - The state is a `Stream` value with one transition function per event. The class `StreamingController` holds the same state in fields, and each of its methods is proved to perform that transition.
  - Every run of `generateAndQueue` that is waiting on a chunk request is a suspended `Request`. All runs share one stop flag, as `stopStreamingRef` does.
- **Sentence speaker** (`speaker.dfy`): the `useSpeechSynthesis` hook.
  - The sentence split and `speak` with its per-utterance handlers and the pause timer between sentences.
  - `cancel`, `pause` and `resume`.
  - As in the streaming player, a `Speech` value with its transition functions, and the class `SentenceSpeaker`.
- **Preferences** (`preferences.dfy`): `toggleFavorite` and the `filteredVoices` predicate of App.tsx.
- **Components** (`voice_selector.dfy`, `voice_filters.dfy`, `history_panel.dfy`):
  - the favourites/others partition of the voice dropdown, with its sort, the selected voice and the separator;
  - the language list of the filters;
  - history deletion.
- **Shared definitions**:
  - `voices.dfy`: the records of types.ts and the six AI voices;
  - `lists.dfy`: filtering, flattening and sub-sequences;
  - `sorting.dfy`: a stable sort and the default string order;
  - `wrappers.dfy`: `Option`.

React behaviour is modelled as follows:
- The state updates of one callback are applied together.
- The playback effect runs after every event.
  - `StepAsWritten` is one event followed by the effect as the code writes it (`ReconciledAsWritten`, the class method `ReconcileAsWritten`).
  - `Step` is one event followed by the effect with the corrected end-of-playback guard (`Reconciled`, the class method `Reconcile`). `RunRequest`, `ResolveAll` and `PlaysQueueInOrder` also use the corrected guard.
- The clock readings that make a history entry (`new Date().toISOString()`, `Date.now()`) are parameters of the `Resolve` event.
- The audio URL a request resolves with is also a parameter.
- The locale order of `localeCompare` is a parameter `nameLe`. Only `GroupsSortedByName` and `ByNameIsTotalPreorder` assume it is a total preorder.

Where the code departs from what the app evidently intends, the model follows the code:
- Starting with an empty text does nothing; it does not report an invalid-input error (App.tsx:210).
- The stop flag is one shared flag, and every start lowers it again (App.tsx:212). A run of `generateAndQueue` suspended before a stop and a restart therefore survives both, and its next chunk joins the new stream's queue. `StaleRequestLeaks` proves this.
- The history entry is written over the history that the run's closure captured at the start (App.tsx:255). A deletion made while the first request is pending is undone (`FirstChunkOverwritesHistory`).
- A failing synthesis request is not handled: the simulated request never fails.
- When the queue runs dry before the last chunk arrives, playback does not wait for it (App.tsx:276). This is modelled as written in `ReconciledAsWritten` and `StepAsWritten`. The corrected guard is the one `Step` uses. See "Findings".

## Model

| member | source | states |
|---|---|---|
| Chunker.Chunk | App.tsx:37-57 | `chunkText` as a function: the whole text when nothing matches, else the trimmed greedy groups. Characterised by `ChunkSpec`. |
| Chunker.Groups | App.tsx:43-55 | The greedy packing of the matches into groups. Characterised by `ChunkSpec`, which proves they partition the matches, fit before trimming when they hold two or more sentences, and close only when full. |
| Chunker.ChunkText | App.tsx:37-57 | The buffering loop returns exactly `Chunk(text, maxLength)`. A chunk is flushed when the next sentence would push a non-empty buffer past `maxLength`, and the last buffer is flushed at the end. |
| Chunker.ChunkSpec | App.tsx:37-57 | See the list below this table. |
| Chunker.ChunkGroupingUnique | App.tsx:43-55 | Any grouping of the matches with no empty group, whose groups of two or more sentences fit in `maxLength` and which closes a group only when the next sentence would not fit, is the greedy one `Groups` builds. |
| Chunker.GreedyUnique | App.tsx:43-55 | The same uniqueness from any point of the loop: a packing of the buffer and the remaining sentences whose first group starts with the buffer is what `Groups` builds from there. |
| Chunker.ChunkOfTextNonEmpty | App.tsx:39-41 | A non-empty text always yields at least one chunk. |
| Chunker.WordCount | App.tsx:60-63 | The word count of `estimateDuration`. Characterised by `WordCountSpec`. |
| Chunker.WordCountSpec | App.tsx:60-63 | See the list below this table. |
| Text.IsSpace | App.tsx:62 | The white-space class of JavaScript regular expressions and `trim()`. `SpaceIsNotTerminator` separates it from the terminators. |
| Text.SplitOnSpace | App.tsx:62 | `split(/\s+/)`. Characterised by `SplitTrimmedGivesWords` and `SplitCountsWords`. |
| Text.MatchAt | App.tsx:38 | One attempt of the sentence pattern at a position. Characterised by `MatchAtCorrect`. |
| Text.SentenceMatches | App.tsx:38 | The strings `match` returns for the global sentence pattern. Characterised by `Spans`, `SpansLeftmost`, `MatchesHaveTerminator` and `MatchesNotBlank`. |
| Text.Trim | App.tsx:48 | `trim()` removes exactly the leading and the trailing white space. The result is empty exactly for blank input, and otherwise starts and ends with a non-space character. |
| Text.MatchAtCorrect | App.tsx:38 | The scanner finds a match from `p` to `e` exactly when `s[p..e]` is non-terminators, then terminators, then one white-space character or the end. |
| Text.Spans | App.tsx:38 | The reported matches are real matches, in increasing order, and never overlap. |
| Text.SpansLeftmost | App.tsx:38 | Every position where the pattern matches lies inside a reported match. |
| Text.MatchesHaveTerminator | App.tsx:38 | Every match starts with a non-terminator and holds a terminator. |
| Text.MatchesNotBlank | App.tsx:38 | No match is blank, so no trimmed match is empty. |
| Text.NoTerminatorNoMatch | App.tsx:38-40 | A text without `.`, `!` or `?` has no match, so it falls back to the whole text. |
| Text.SplitTrimmedGivesWords | App.tsx:62 | `split(/\s+/)` of a trimmed non-empty string gives non-empty pieces without white space. |
| Text.SplitCountsWords | App.tsx:62 | On a trimmed non-empty string, `split(/\s+/)` yields one piece per word start. |
| Speaker.TrimAll | hooks/useSpeechSynthesis.ts:64 | `map(s => s.trim())`: one trimmed string per match, in order. |
| Speaker.Pieces | hooks/useSpeechSynthesis.ts:64 | The matches, or the text alone when nothing matches. Characterised by `TrimmedPieces`, `SplitSentencesEmpty` and `NoTerminatorOneSentence`. |
| Speaker.SplitSentences | hooks/useSpeechSynthesis.ts:64 | No sentence is empty. |
| Speaker.TrimmedPieces | hooks/useSpeechSynthesis.ts:64 | Each kept piece is the trim of some match. It is non-empty, and neither end is white space. |
| Speaker.SentencesTrimmed | hooks/useSpeechSynthesis.ts:64 | Every sentence neither starts nor ends with white space. |
| Speaker.SplitSentencesEmpty | hooks/useSpeechSynthesis.ts:64-69 | The split is empty exactly when the text is blank. The `\|\|` fallback applies only when nothing matched. |
| Speaker.NoTerminatorOneSentence | hooks/useSpeechSynthesis.ts:64 | A non-blank text without terminators is spoken as the one trimmed text. |
| Speaker.Spoken | hooks/useSpeechSynthesis.ts:57-69 | `speak`. Characterised by `SpeakGuards`, `SpeakStartsFirstSentence` and `SpeakRunSpeaksAll`. |
| Speaker.Begin | hooks/useSpeechSynthesis.ts:60-71 | `speak` after the split. Characterised by `BeginKeepsConsistent` and `BeginRunSpeaksAll`. |
| Speaker.Started | hooks/useSpeechSynthesis.ts:85-89 | `onstart`: speaking, no longer preparing. Used by `Advance`, so the run lemmas cover it. |
| Speaker.Ended | hooks/useSpeechSynthesis.ts:91-103 | `onend`. Characterised by `EndedKeepsConsistent`, `EndSchedulesNext` and `AdvanceSpec`. |
| Speaker.TimerFired | hooks/useSpeechSynthesis.ts:95 | The pause timer. Characterised by `TimerFiredKeepsConsistent` and `AdvanceSpec`. |
| Speaker.PausedByEngine | hooks/useSpeechSynthesis.ts:105 | `onpause`. Characterised by `PauseThenResume`. |
| Speaker.ResumedByEngine | hooks/useSpeechSynthesis.ts:106 | `onresume`. Characterised by `PauseThenResume`. |
| Speaker.Failed | hooks/useSpeechSynthesis.ts:108-120 | `onerror`. Characterised by `ErrorSpec`. |
| Speaker.PauseRequested | hooks/useSpeechSynthesis.ts:129-133 | The guard of `pause`. Used by `PauseThenResume` and `SentenceSpeaker.Pause`. |
| Speaker.ResumeRequested | hooks/useSpeechSynthesis.ts:135-139 | The guard of `resume`. Used by `PauseThenResume` and `SentenceSpeaker.Resume`. |
| Speaker.Apply | hooks/useSpeechSynthesis.ts:57-139 | Dispatches a call or callback to its handler. Characterised by `ApplyKeepsConsistent` and `CancelSilences`. |
| Speaker.Cancelled | hooks/useSpeechSynthesis.ts:32-43 | `cancel` clears the timer, drops the utterance and clears the three flags. The error and the sentences stay. |
| Speaker.SpeakNext | hooks/useSpeechSynthesis.ts:73-79 | `speakNext` hands `sentences[index]` to the engine, or changes nothing once every sentence has been handed over. |
| Speaker.BeginKeepsConsistent | hooks/useSpeechSynthesis.ts:60-71 | The steps of `speak` after the split give a consistent state from any state. |
| Speaker.EndedKeepsConsistent | hooks/useSpeechSynthesis.ts:91-103 | `onend` keeps the state consistent. |
| Speaker.TimerFiredKeepsConsistent | hooks/useSpeechSynthesis.ts:95 | The pause timer keeps the state consistent. |
| Speaker.ApplyKeepsConsistent | hooks/useSpeechSynthesis.ts:57-127 | Every call and callback keeps `Consistent`. See the list below this table. |
| Speaker.SpeakGuards | hooks/useSpeechSynthesis.ts:58-69 | No text or no voice changes nothing. A blank text ends with nothing preparing, speaking or handed to the engine, and the error cleared. |
| Speaker.SpeakStartsFirstSentence | hooks/useSpeechSynthesis.ts:60-71 | A non-blank text hands over exactly its first sentence, with index 0 and the error cleared. It is preparing and not yet speaking. |
| Speaker.EndSchedulesNext | hooks/useSpeechSynthesis.ts:91-99 | After `onend` with sentences left, a positive pause sets the timer and hands over nothing. No pause hands over the next sentence at once. |
| Speaker.Advance | hooks/useSpeechSynthesis.ts:85-102 | One sentence as the engine plays it: `onstart`, `onend`, then the pause timer if one was set. Characterised by `AdvanceSpec`. |
| Speaker.AdvanceSpec | hooks/useSpeechSynthesis.ts:85-102 | One sentence, started and ended by the engine, moves the counter on by one, keeps consistency and leaves nothing preparing. Either the next sentence is being uttered, or every flag is clear and nothing more was spoken. |
| Speaker.SpeaksRestInOrder | hooks/useSpeechSynthesis.ts:73-103 | From any utterance, `onstart` and `onend` of each remaining sentence hand every sentence over in order. Then preparing, speaking and paused are false and nothing is pending. |
| Speaker.BeginRunSpeaksAll | hooks/useSpeechSynthesis.ts:57-127 | Starting on any non-empty sentence list and playing every sentence speaks exactly that list, and ends with every flag clear. |
| Speaker.SpeakRunSpeaksAll | hooks/useSpeechSynthesis.ts:57-127 | `speak` of a non-blank text, then `onstart` and `onend` of each sentence, speaks exactly the split of the text, in order, and ends with every flag clear. |
| Speaker.CancelSilences | hooks/useSpeechSynthesis.ts:32-43 | `cancel` is idempotent, and after it no callback changes anything. |
| Speaker.ErrorSpec | hooks/useSpeechSynthesis.ts:108-120 | A `'canceled'` error is ignored. Any other error on the live utterance is recorded and clears every flag. |
| Speaker.PauseThenResume | hooks/useSpeechSynthesis.ts:129-139 | A pause request answered by the engine makes a resume possible, and its answer restores the state exactly. |
| Speaker.SentenceSpeaker.constructor | hooks/useSpeechSynthesis.ts:14-19 | Initial flags false, no error, no sentences, no timer. |
| Speaker.SentenceSpeaker.Cancel | hooks/useSpeechSynthesis.ts:32-43 | Performs `Cancelled` in place and keeps `Valid`. |
| Speaker.SentenceSpeaker.SpeakNextSentence | hooks/useSpeechSynthesis.ts:73-122 | Performs `SpeakNext` in place. |
| Speaker.SentenceSpeaker.Speak | hooks/useSpeechSynthesis.ts:57-69 | Performs `Spoken` in place and keeps `Valid`. |
| Speaker.SentenceSpeaker.BeginSession | hooks/useSpeechSynthesis.ts:60-71 | Performs `Begin` in place and establishes `Valid`. |
| Speaker.SentenceSpeaker.OnStart | hooks/useSpeechSynthesis.ts:85-89 | Performs `Started` and keeps `Valid`. |
| Speaker.SentenceSpeaker.OnEnd | hooks/useSpeechSynthesis.ts:91-103 | Performs `Ended` and keeps `Valid`. |
| Speaker.SentenceSpeaker.OnTimer | hooks/useSpeechSynthesis.ts:95 | Performs `TimerFired` and keeps `Valid`. |
| Speaker.SentenceSpeaker.OnPause | hooks/useSpeechSynthesis.ts:105 | Performs `PausedByEngine` and keeps `Valid`. |
| Speaker.SentenceSpeaker.OnResume | hooks/useSpeechSynthesis.ts:106 | Performs `ResumedByEngine` and keeps `Valid`. |
| Speaker.SentenceSpeaker.OnError | hooks/useSpeechSynthesis.ts:108-120 | Performs `Failed` and keeps `Valid`. |
| Speaker.SentenceSpeaker.Pause | hooks/useSpeechSynthesis.ts:129-133 | Asks the engine to pause exactly when `PauseRequested` holds, and changes nothing. |
| Speaker.SentenceSpeaker.Resume | hooks/useSpeechSynthesis.ts:135-139 | Asks the engine to resume exactly when `ResumeRequested` holds, and changes nothing. |
| Streaming.HistoryText | App.tsx:245 | See the list below this table. |
| Streaming.VoiceLabel | App.tsx:249 | The voice label is never empty. |
| Streaming.VoiceLabelSpec | App.tsx:244-249 | Each AI voice is labelled with its own name, and an unknown URI gets `'Unknown AI Voice'`. |
| Streaming.HistoryEntry | App.tsx:246-254 | The first chunk's history record, built from the run's text, voice label and format and the clock readings. Used by `ResolveSpec`. |
| Streaming.NewHistory | App.tsx:255 | The new entry comes first, followed by the older entries in order, up to 50 in all. |
| Streaming.Started | App.tsx:209-221 | `handleAIStream`. Characterised by `StartSpec` and `StaleRequestLeaks`. |
| Streaming.ChunksFor | App.tsx:215 | The whole input in SSML mode, else `chunkText`. `StartSpec` states both cases. |
| Streaming.Launch | App.tsx:211-228 | `handleAIStream` once its chunks are known. Characterised by `StartSpec`. |
| Streaming.Opened | App.tsx:212-228 | The part after the stop. Characterised by `OpenedKeepsConsistent` and `StartSpec`. |
| Streaming.Resolved | App.tsx:225-260 | A chunk request of `generateAndQueue` completing. Characterised by `ResolveSpec`, `ResolveAfterStop` and `StepResolveSpec`. |
| Streaming.FirstChunk | App.tsx:239-257 | What the first chunk does besides queueing. Characterised by `ResolveSpec` and `FirstChunkOverwritesHistory`. |
| Streaming.Queued | App.tsx:225-259 | A chunk joins the queue and its run moves on. Characterised by `ResolveSpec` and `QueuedKeepsConsistent`. |
| Streaming.PlaybackFailed | App.tsx:286-289 | A rejected `play()` of the current audio stops the player. Characterised by `ApplyKeepsConsistent`; the stop itself by `Stopped`. |
| Streaming.HistoryDeleted | components/HistoryPanel.tsx:15-19 | Deletion on the shared history. Characterised by `HistoryPanel.DeleteItemSpec`. |
| Streaming.PrimaryAction | App.tsx:336-342 | The AI branch of `handlePrimaryAction`. Characterised by `PrimaryActionSpec`. |
| Streaming.PrimaryActionSpec | App.tsx:336-342 | A busy player is stopped, keeping its history and runs. An idle one streams a non-empty text and becomes busy, so the next press stops it. An empty text changes nothing. |
| Streaming.Stopped | App.tsx:191-207 | See the list below this table. |
| Streaming.StopIdempotent | App.tsx:191-207 | Stopping twice is stopping once. |
| Streaming.Finished | App.tsx:308-310 | `onended` of the current audio moves the index on by one. With no current audio nothing changes. |
| Streaming.ReconciledWith | App.tsx:267-283 | See the list below this table. |
| Streaming.ProgressComplete | App.tsx:276 | The guard as written: the progress counter equals the total, or there is no progress (`undefined === undefined`). Used by `ReconciledAsWritten`. |
| Streaming.AllArrived | App.tsx:276 | The corrected guard: every chunk has reached the queue. Used by `Reconciled`. |
| Streaming.ReconciledAsWritten | App.tsx:267-283 | The effect with the guard of line 276. Characterised by `ReconciledWith` and `LastChunkDroppedAsWritten`. |
| Streaming.Reconciled | App.tsx:267-283 | The effect with the corrected guard. Characterised by `ReconciledWith`, `PlaysQueueInOrder` and `LastChunkPlayed`. |
| Streaming.Apply | App.tsx:191-311 | Dispatches an event to its handler. Characterised by `ApplyKeepsConsistent`. |
| Streaming.Step | App.tsx:191-311 | An event followed by the corrected effect. Characterised by `StepKeepsConsistent` and `StepResolveSpec`. |
| Streaming.StepAsWritten | App.tsx:191-311 | An event followed by the effect as written. Characterised by `StepKeepsConsistent`. |
| Streaming.OpenedKeepsConsistent | App.tsx:212-228 | Starting a run after a stop keeps the state consistent. |
| Streaming.DroppedKeepsConsistent | App.tsx:237 | Ending a run keeps the state consistent. |
| Streaming.QueuedKeepsConsistent | App.tsx:259 | Queueing a chunk and moving its run on keeps the state consistent. |
| Streaming.ResolvedKeepsConsistent | App.tsx:231-260 | A completing request keeps the state consistent. |
| Streaming.ReconciledKeepsConsistent | App.tsx:267-283 | The effect keeps the state consistent. |
| Streaming.ApplyKeepsConsistent | App.tsx:191-310 | Every event keeps the state consistent. See the list below this table. |
| Streaming.StepKeepsConsistent | App.tsx:191-311 | Every event followed by the effect, as written or as intended, keeps the state consistent. |
| Streaming.StartSpec | App.tsx:209-228 | See the list below this table. |
| Streaming.ResolveAfterStop | App.tsx:237 | With the stop flag up, a completing request only ends its run. The queue, the history and all flags are unchanged. |
| Streaming.ResolveSpec | App.tsx:225-260 | See the list below this table. |
| Streaming.StepResolveSpec | App.tsx:225-260 | A completing request followed by the effect appends its URL. It keeps consistency, and either advances the run with the progress at the next chunk or ends it. |
| Streaming.FirstChunkOverwritesHistory | App.tsx:255 | The first chunk's history ignores every change made to the history since the run started. |
| Streaming.StaleRequestLeaks | App.tsx:226-237 | After a stop and a new start, a run suspended before them is still there with the flag down, and its next chunk joins the new queue. |
| Streaming.ResolveAll | App.tsx:225-260 | Every remaining request of one run completing in turn, the corrected effect after each. Characterised by `ResolveAllAppendsInOrder`. |
| Streaming.ResolveAllAppendsInOrder | App.tsx:225-260 | A run left alone appends one URL per remaining chunk, in chunk order, and then ends. After two or more chunks the progress shows the last one. |
| Streaming.PlaysQueueInOrder | App.tsx:267-311 | See the list below this table. |
| Streaming.LastChunkDroppedAsWritten | App.tsx:275-278 | As written, a chunk that arrives after the queue ran dry is never played. See "Findings". |
| Streaming.LastChunkDroppedFrom | App.tsx:275-278 | The same trace for any two chunks, from the launch of their run. |
| Streaming.LastChunkPlayed | App.tsx:275-278 | With the corrected guard, the same events play both chunks and then end playing. |
| Streaming.LastChunkPlayedFrom | App.tsx:275-278 | The same trace for any two chunks, from the launch of their run. |
| Streaming.StreamingController.constructor | App.tsx:84-103 | The initial player state, with the history read back from storage. |
| Streaming.StreamingController.Stop | App.tsx:191-207 | Performs `Stopped` in place and keeps `Valid`. |
| Streaming.StreamingController.Start | App.tsx:209-221 | Performs `Started`: stop, snapshot, `chunkText` by the chunking loop, launch. Keeps `Valid`. |
| Streaming.StreamingController.Open | App.tsx:212-228 | Performs `Opened`: lowers the flag, marks loading, and starts the run on the first chunk. |
| Streaming.StreamingController.Resolve | App.tsx:231-260 | Performs `Resolved` in place and keeps `Valid`. |
| Streaming.StreamingController.RecordFirstChunk | App.tsx:239-257 | Performs `FirstChunk`: download URL, loading off, playing on, the history entry. |
| Streaming.StreamingController.QueueChunk | App.tsx:225-259 | Performs `Queued`: appends the URL and moves the run on or ends it. |
| Streaming.StreamingController.OnEnded | App.tsx:308-310 | Performs `Finished` and keeps `Valid`. |
| Streaming.StreamingController.OnPlayFailed | App.tsx:286-289 | A rejected `play()` of the current audio calls `handleAIStop`: performs `PlaybackFailed`. |
| Streaming.StreamingController.DeleteHistory | components/HistoryPanel.tsx:15-17 | Performs `HistoryDeleted` on the shared history. |
| Streaming.StreamingController.Reconcile | App.tsx:267-283 | Performs the corrected effect `Reconciled` in place, the one `Step` uses. Keeps `Valid`. |
| Streaming.StreamingController.ReconcileAsWritten | App.tsx:267-283 | Performs the effect as written, `ReconciledAsWritten`, in place. Keeps `Valid`. |
| Streaming.StreamingController.RunRequest | App.tsx:225-260 | The loop of `generateAndQueue` with the effect after each resolution: the state becomes `ResolveAll`. |
| Preferences.ToggleFavorite | App.tsx:349-352 | The toggled id is a favourite afterwards exactly when it was not before. Every other id keeps its membership. |
| Preferences.ToggleTwiceRestores | App.tsx:349-352 | Toggling an id that is not a favourite twice restores the list exactly. |
| Preferences.ToggleKeepsDistinct | App.tsx:349-352 | Toggling never introduces a duplicate into a duplicate-free list. |
| Preferences.StartsWith | App.tsx:360 | `startsWith`, the language-prefix test. Used by `VoiceMatches`. |
| Preferences.VoiceMatches | App.tsx:358-362 | The predicate of `filteredVoices`. Characterised by `MatchingVoicesSpec`, `NoFilterKeepsAll` and `GenderFilterHidesBrowserVoices`. |
| Preferences.EngineVoices | App.tsx:358 | The browser's voices or the AI voices, by engine. |
| Preferences.MatchingVoices | App.tsx:359-363 | The voices passing both filters. Characterised by `MatchingVoicesSpec`. |
| Preferences.FilteredVoices | App.tsx:357-364 | `filteredVoices` for the engine's voice list. Characterised by `MatchingVoicesSpec`. |
| Preferences.MatchingVoicesSpec | App.tsx:357-363 | See the list below this table. |
| Preferences.NoFilterKeepsAll | App.tsx:360-362 | With both filters at `'all'` every voice is kept, in order. |
| Preferences.GenderFilterHidesBrowserVoices | App.tsx:361 | Browser voices have no gender, so a gender filter hides all of them. |
| VoiceFilters.Subtags | components/VoiceFilters.tsx:15 | The primary subtag of every voice, in order. Characterised by `LanguagesSpec`. |
| VoiceFilters.Languages | components/VoiceFilters.tsx:14-17 | The sorted distinct languages. Characterised by `LanguagesSpec` and `OfferedLanguageHasVoice`. |
| VoiceFilters.PrimarySubtag | components/VoiceFilters.tsx:15 | `split('-')[0]` is a prefix of the tag without `-`, and the tag continues with `-` when longer. |
| VoiceFilters.Dedupe | components/VoiceFilters.tsx:15-16 | `Array.from(new Set(xs))` has no repeats and holds exactly the values of `xs`. |
| VoiceFilters.LanguagesSpec | components/VoiceFilters.tsx:15-16 | The languages are strictly ascending in the default string order. A value is listed exactly when it is the primary subtag of some voice's language. |
| VoiceFilters.OfferedLanguageHasVoice | components/VoiceFilters.tsx:15-16 | Choosing any offered language leaves at least one voice in `filteredVoices`. |
| VoiceSelector.ByName | components/VoiceSelector.tsx:40 | The name comparator. Characterised by `ByNameIsTotalPreorder`. |
| VoiceSelector.FavoriteVoices | components/VoiceSelector.tsx:38-40 | The favourite group. Characterised by `PartitionSpec` and `GroupsSortedByName`. |
| VoiceSelector.OtherVoices | components/VoiceSelector.tsx:42-44 | The other group. Characterised by `PartitionSpec` and `GroupsSortedByName`. |
| VoiceSelector.ShowSeparator | components/VoiceSelector.tsx:96-98 | The separator condition. Characterised by `SeparatorSpec`. |
| VoiceSelector.SelectedVoice | components/VoiceSelector.tsx:46 | The selected voice has the selected URI and is the first such voice. There is none exactly when nothing is selected or no voice has that URI. |
| VoiceSelector.PartitionSpec | components/VoiceSelector.tsx:38-44 | Together the two groups are a permutation of the voices. Favourites have a favourite URI and the others do not. |
| VoiceSelector.ByNameIsTotalPreorder | components/VoiceSelector.tsx:40 | The name comparator orders voices totally whenever the name order does. |
| VoiceSelector.GroupsSortedByName | components/VoiceSelector.tsx:40-44 | Both groups are ordered by name. |
| VoiceSelector.SeparatorSpec | components/VoiceSelector.tsx:96-98 | The separator shows exactly when some voice is a favourite and some is not. |
| Voices.IndexOfURI | components/VoiceSelector.tsx:46 | The position `find` stops at. Used by `FindVoice`, whose contract states the result. |
| Voices.FindVoice | components/VoiceSelector.tsx:46 | `find` by URI gives the first voice with that URI, and none exactly when no voice has it. |
| HistoryPanel.DeleteItem | components/HistoryPanel.tsx:15-19 | `deleteItem`. Characterised by `DeleteItemSpec`, `DeleteAbsent` and `DeleteIdempotent`. |
| HistoryPanel.DeleteItemSpec | components/HistoryPanel.tsx:16 | See the list below this table. |
| HistoryPanel.DeleteAbsent | components/HistoryPanel.tsx:16 | Deleting an id that no item has changes nothing. |
| HistoryPanel.DeleteIdempotent | components/HistoryPanel.tsx:16 | Deleting the same id twice is deleting it once. |
| Sorting.Sort | components/VoiceSelector.tsx:40 | The sort of both groups. Its contract makes the result a permutation, and `SortSorted` makes it ordered. |
| Sorting.LexLe | components/VoiceFilters.tsx:16 | The default order of `sort()`. Characterised by `LexLeIsTotalPreorder`. |
| Sorting.SortSorted | components/VoiceSelector.tsx:40 | For a total preorder, the sort's result is ordered. Its contract also makes it a permutation. |
| Sorting.LexLeIsTotalPreorder | components/VoiceFilters.tsx:16 | The default string order of `sort()` is total and transitive. |

The clauses of the longer contracts:

- `Chunker.ChunkSpec`:
  - with no match, the result is the whole text, or nothing for the empty text;
  - otherwise the chunks are the trimmed groups, and the groups partition the matches in order;
  - no chunk is empty;
  - a group of two or more sentences is at most `maxLength` long before trimming, and so is its chunk; only a single sentence can be longer;
  - a group is closed only when the next sentence would not fit.
  With the fit before trimming, these clauses single out the greedy grouping (`ChunkGroupingUnique`).
- `Chunker.WordCountSpec`:
  - the count is 0 exactly for the empty text, and 1 for a blank text;
  - otherwise it equals the number of word starts, and every piece is a word.
- `Speaker.ApplyKeepsConsistent`:
  - preparing and speaking are never both true;
  - an utterance and a pending timer never coexist;
  - what was spoken is a prefix of the sentences.
- `Streaming.HistoryText`:
  - SSML input gives `'[SSML Input]'`;
  - a text of at most 100 characters is kept;
  - a longer text becomes exactly its first 97 characters followed by `'...'`, 100 in all.
- `Streaming.Stopped`:
  - raises the stop flag, clears loading, playing, the progress, the queue, the index, the download URL and the current audio;
  - keeps the history and the suspended runs.
- `Streaming.ReconciledWith`, the effect:
  - only `playing` and the current audio change;
  - a chunk plays exactly when playing with a chunk at the index;
  - playing goes on unless the queue is played out and the end condition holds.
- `Streaming.ApplyKeepsConsistent`:
  - the index is within the queue;
  - the current audio is the chunk at the index;
  - every suspended run has a chunk left to request.
- `Streaming.StartSpec`, for a non-empty text:
  - stops;
  - lowers the flag;
  - keeps the history;
  - suspends exactly one new run under a fresh key on chunk 0 of at least one chunk, with loading on and the progress at 1.
- `Streaming.ResolveSpec`:
  - the URL is appended;
  - only the first chunk sets the download URL, ends loading, starts playing, and writes the capped history over the run's snapshot;
  - the run moves on with the progress at the next chunk, which never passes the total, or it ends.
- `Streaming.PlaysQueueInOrder`:
  - while playing, each end plays the next queued chunk, until the queue is played out;
  - playing then goes on exactly when chunks are still missing.
- `Preferences.MatchingVoicesSpec`:
  - the filtered voices all match;
  - each matching voice is kept as often as it is listed, and no other voice;
  - the list order is kept.
- `HistoryPanel.DeleteItemSpec`:
  - no item with the id remains;
  - every other item is kept as often as it was;
  - the order is kept, and the list never grows.

## Left out

- Rendering, icons and styling are not modelled. Neither is any component not listed above (header, tabs, sliders, custom voices panel).
- Timing is not modelled:
  - the 800–1300 ms request delay and `Math.random`;
  - the 250 ms position sampler;
  - `playerCurrentTime`, `chunkDurations`, `onloadedmetadata` and `estimatedTotalDuration`.

  These involve floating-point durations and the clock. Only the word count of `estimateDuration` is modelled, not its division by the words per minute.
- The `Audio` element is abstracted to the queue index it plays (`active`):
  - its creation and `pause()` are not modelled;
  - neither are the extra effect runs that re-create it when an unrelated dependency changes;
  - `play()` rejecting is the `AudioError` event, which stops the player only while some audio is current.
    A late rejection from an `Audio` that a later effect run already replaced also calls `handleAIStop` in the app; the model ignores it.
- The browser speech engine's internals are not modelled (`speechSynthesis.speaking`/`pending`, queueing, voice loading through `onvoiceschanged`). Callbacks are assumed to arrive only for the live utterance, and `cancel` drops it.
- `localStorage` reads and writes, `fetch`/download, and the browser-engine download are left out. They are I/O.
- `playAIAudioFromHistory` and `handleStop` are not modelled: the history replay player is outside this model.
- `Intl.DisplayNames` is left out. `localeCompare` is a parameter, because the locale collation is not available.
- Strings are sequences of Unicode characters. JavaScript counts UTF-16 code units, so the 100- and 200-character limits differ for text outside the Basic Multilingual Plane, and so does the order of `sort()`.
- React re-render timing is not modelled:
  - the state updates of one callback are applied together;
  - the effect runs once after every event;
  - an interleaving where the effect sees a partially updated state is not modelled.
- `Sorting.Sort`: stability is not proved. The contract gives a permutation, which is ordered for a total preorder.
- `Streaming.VoiceLabel`: computed when the run starts rather than when the first chunk arrives. `aiVoices` is constant, so the label is the same.
- `Streaming.StreamingController.RunRequest`: covers only the schedule in which each request of one run completes before any other event.

## Findings

| source | as written | input that shows it | evidently intended | confidence | as-written member | corrected member |
|---|---|---|---|---|---|---|
| App.tsx:276 | Once the queue is played out, playing ends when `synthesisProgress.current === synthesisProgress.total`. The progress reaches the total when the last request is issued, before its audio arrives. | A text of two chunks whose first chunk finishes playing before the second request completes. Playing ends, the second URL is queued but never played, and later end events change nothing. | Playing ends only when every chunk has arrived and been played, so `audioQueue.length >= total`. | not executed | Streaming.LastChunkDroppedAsWritten | Streaming.LastChunkPlayed |
