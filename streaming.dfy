/** The AI streaming player of App.tsx: `handleAIStop`, `handleAIStream`
    with its asynchronous `generateAndQueue` loop, the playback effect that
    plays `audioQueue[currentQueueIndex]`, and the history it writes.

    Every run of `generateAndQueue` that is waiting on a chunk request is a
    `Request` in `requests`, keyed by the order in which runs were started;
    the completion of that request is the `Resolve` event. All runs share
    the single stop flag `stopStreamingRef`. */
module Streaming {
  import opened Wrappers
  import opened Voices
  import opened Chunker
  import opened HistoryPanel

  /** `synthesisProgress`: the chunk being requested and the number of chunks. */
  datatype Progress = Progress(current: nat, total: nat)

  /** A run of `generateAndQueue` suspended on the request for `chunks[next]`,
      with what its closure captured when it was started: the text and input
      mode, the label of the selected AI voice, the download format, and the
      history. The label is looked up in the fixed list of AI voices, so
      looking it up at the start gives what the closure finds later. */
  datatype Request = Request(chunks: seq<string>, next: nat, text: string, ssml: bool,
                             voiceLabel: string, format: DownloadFormat, snapshot: seq<HistoryItem>)

  /** The component state the streaming player reads and writes. `active` is
      the queue position the current `Audio` element plays, if any. */
  datatype Stream = Stream(stopFlag: bool, loading: bool, playing: bool,
                           progress: Option<Progress>, queue: seq<string>, index: nat,
                           downloadUrl: Option<string>, history: seq<HistoryItem>,
                           active: Option<nat>, requests: map<nat, Request>, nextRequest: nat)

  /** The history keeps at most this many entries. */
  const HistoryCap: nat := 50

  // ---------------------------------------------------------------------
  // The history entry written with the first chunk

  /** The history text: a placeholder for SSML input, otherwise the text,
      cut to its first 97 characters and an ellipsis when longer than 100. */
  function HistoryText(text: string, ssml: bool): (r: string)
    ensures ssml ==> r == "[SSML Input]"
    ensures !ssml ==> |r| <= 100
    ensures !ssml && |text| <= 100 ==> r == text
    ensures !ssml && |text| > 100 ==> |r| == 100 && r[..97] == text[..97] && r[97..] == "..."
  {
    if ssml then "[SSML Input]"
    else if |text| > 100 then text[..97] + "..." else text
  }

  /** The name of the AI voice with this URI, or the fallback label when no
      AI voice has it or its name is empty. */
  function VoiceLabel(voiceURI: string): (r: string)
    ensures r != []
  {
    match FindVoice(AIVoices, voiceURI)
    case Some(v) => if v.name != [] then v.name else "Unknown AI Voice"
    case None => "Unknown AI Voice"
  }

  /** Each AI voice is labelled with its own name; an unknown URI gets the
      fallback label. */
  lemma VoiceLabelSpec(voiceURI: string)
    ensures forall i :: 0 <= i < |AIVoices| ==> VoiceLabel(AIVoices[i].voiceURI) == AIVoices[i].name
    ensures (forall i :: 0 <= i < |AIVoices| ==> AIVoices[i].voiceURI != voiceURI) ==>
      VoiceLabel(voiceURI) == "Unknown AI Voice"
  {
    forall i | 0 <= i < |AIVoices| ensures VoiceLabel(AIVoices[i].voiceURI) == AIVoices[i].name {
      var u := AIVoices[i].voiceURI;
      var v := FindVoice(AIVoices, u);
      var j :| 0 <= j < |AIVoices| && AIVoices[j] == v.value && v.value.voiceURI == u
               && forall m :: 0 <= m < j ==> AIVoices[m].voiceURI != u;
      assert AIVoices[j].voiceURI == AIVoices[i].voiceURI;
      assert j == i;
    }
  }

  /** The history record of run `r`'s first chunk, for the AI engine. */
  function HistoryEntry(r: Request, url: string, id: string, timestamp: int): HistoryItem
  {
    HistoryItem(id, HistoryText(r.text, r.ssml), r.voiceLabel, url, timestamp, r.format, AiEngine)
  }

  /** The history after a new entry: the entry first, then as many of the
      older entries, in order, as fit under the cap of 50. */
  function NewHistory(item: HistoryItem, history: seq<HistoryItem>): (r: seq<HistoryItem>)
    ensures |r| == if |history| < HistoryCap then |history| + 1 else HistoryCap
    ensures r[0] == item
    ensures r[1..] == history[..|r| - 1]
  {
    var full := [item] + history;
    if |full| > HistoryCap then full[..HistoryCap] else full
  }

  // ---------------------------------------------------------------------
  // The handlers

  /** `handleAIStop`: raises the stop flag and resets the player. Runs
      already waiting on a request stay suspended, and the history stays. */
  function Stopped(s: Stream): (r: Stream)
    ensures r.stopFlag && !r.loading && !r.playing
    ensures r.progress.None? && r.queue == [] && r.index == 0 && r.downloadUrl.None? && r.active.None?
    ensures r.history == s.history && r.requests == s.requests && r.nextRequest == s.nextRequest
  {
    s.(stopFlag := true, loading := false, playing := false, progress := None,
       queue := [], index := 0, downloadUrl := None, active := None)
  }

  /** The chunks a text is sent in: the whole input in SSML mode, otherwise
      `chunkText(text)`. */
  function ChunksFor(text: string, ssml: bool): seq<string>
  {
    if ssml then [text] else Chunk(text, DefaultMaxLength)
  }

  /** `handleAIStream` once its chunks are known: stop, lower the stop flag
      again, mark loading; with no chunk stop loading, otherwise start a new
      run of `generateAndQueue`, which raises the progress to the first chunk
      and waits on its request. */
  function Launch(s: Stream, chunks: seq<string>, text: string, ssml: bool,
                  voiceLabel: string, format: DownloadFormat): Stream
  {
    Opened(Stopped(s), chunks, text, ssml, voiceLabel, format, s.history)
  }

  /** The part of `handleAIStream` after the stop, with the history its
      closure captured before it. */
  function Opened(s: Stream, chunks: seq<string>, text: string, ssml: bool,
                  voiceLabel: string, format: DownloadFormat, snapshot: seq<HistoryItem>): Stream
  {
    var t := s.(stopFlag := false, loading := true);
    if chunks == [] then t.(loading := false)
    else t.(progress := Some(Progress(1, |chunks|)),
            requests := t.requests[t.nextRequest := Request(chunks, 0, text, ssml, voiceLabel, format, snapshot)],
            nextRequest := t.nextRequest + 1)
  }

  /** `handleAIStream`: nothing for an empty text. */
  function Started(s: Stream, text: string, ssml: bool, voiceURI: string, format: DownloadFormat): Stream
  {
    if text == [] then s else Launch(s, ChunksFor(text, ssml), text, ssml, VoiceLabel(voiceURI), format)
  }

  /** The request run `k` waits on completes with `url`. If the stop flag is
      up the run ends. Otherwise the first chunk sets the download URL, ends
      loading, starts playing and writes the history entry over the history
      the run captured; every chunk is appended to the queue; then the run
      either raises the progress and waits on the next chunk or ends. `id`
      and `timestamp` stand for the clock readings of the history entry. */
  function Resolved(s: Stream, k: nat, url: string, id: string, timestamp: int): Stream
  {
    if k !in s.requests then s
    else
      var r := s.requests[k];
      if s.stopFlag then s.(requests := s.requests - {k})
      else Queued(if r.next == 0 then FirstChunk(s, r, url, id, timestamp) else s, k, r, url)
  }

  /** What the first chunk of run `r` does besides queueing its audio. */
  function FirstChunk(s: Stream, r: Request, url: string, id: string, timestamp: int): Stream
  {
    s.(downloadUrl := Some(url), loading := false, playing := true,
       history := NewHistory(HistoryEntry(r, url, id, timestamp), r.snapshot))
  }

  /** Chunk `r.next` of run `k` joins the queue, and the run moves on to its
      next chunk or ends. */
  function Queued(s: Stream, k: nat, r: Request, url: string): Stream
  {
    if r.next + 1 < |r.chunks| then
      s.(queue := s.queue + [url], progress := Some(Progress(r.next + 2, |r.chunks|)),
         requests := s.requests[k := r.(next := r.next + 1)])
    else s.(queue := s.queue + [url], requests := s.requests - {k})
  }

  /** `onended` of the current audio: the queue index moves on by one. */
  function Finished(s: Stream): (r: Stream)
    ensures s.active.Some? ==> r == s.(index := s.index + 1, active := None)
    ensures s.active.None? ==> r == s
  {
    if s.active.Some? then s.(index := s.index + 1, active := None) else s
  }

  /** A rejected `audio.play()` of the current audio calls `handleAIStop`. */
  function PlaybackFailed(s: Stream): Stream
  {
    if s.active.Some? then Stopped(s) else s
  }

  /** `deleteItem` of the history panel, on the shared history. */
  function HistoryDeleted(s: Stream, id: string): Stream
  {
    s.(history := DeleteItem(s.history, id))
  }

  /** `handlePrimaryAction` for the AI engine: stop while busy, else stream. */
  function PrimaryAction(s: Stream, text: string, ssml: bool, voiceURI: string, format: DownloadFormat): Stream
  {
    if s.playing || s.loading then Stopped(s) else Started(s, text, ssml, voiceURI, format)
  }

  // ---------------------------------------------------------------------
  // The playback effect

  /** The effect run after every change: while playing with a chunk at the
      index, that chunk plays; otherwise no audio is current, and when the
      queue is played out and `done` holds, playing ends. */
  function ReconciledWith(s: Stream, done: bool): (r: Stream)
    ensures r == s.(playing := r.playing, active := r.active)
    ensures r.active.Some? <==> s.playing && s.index < |s.queue|
    ensures r.active.Some? ==> r.active.value == s.index
    ensures r.playing <==> s.playing && (s.index < |s.queue| || !done)
  {
    if !s.playing || s.index >= |s.queue| then
      var t := s.(active := None);
      if s.playing && s.index >= |s.queue| && done then t.(playing := false) else t
    else s.(active := Some(s.index))
  }

  /** The guard of the effect as written: the progress counter equals the
      total; with no progress both sides are undefined, and equal. */
  predicate ProgressComplete(s: Stream)
  {
    s.progress.None? || s.progress.value.current == s.progress.value.total
  }

  /** Every chunk of the stream has reached the queue. */
  predicate AllArrived(s: Stream)
  {
    s.progress.None? || |s.queue| >= s.progress.value.total
  }

  /** The effect as written: playing ends once the progress counter has
      reached the last chunk, whether or not that chunk has arrived. */
  function ReconciledAsWritten(s: Stream): Stream
  {
    ReconciledWith(s, ProgressComplete(s))
  }

  /** The effect as intended: playing ends only once every chunk has
      arrived and been played. */
  function Reconciled(s: Stream): Stream
  {
    ReconciledWith(s, AllArrived(s))
  }

  // ---------------------------------------------------------------------
  // Events

  datatype Event =
    | Start(text: string, ssml: bool, voiceURI: string, format: DownloadFormat)
    | Stop
    | Resolve(key: nat, url: string, id: string, timestamp: int)
    | AudioEnd
    | AudioError
    | DeleteHistory(historyId: string)

  function Apply(s: Stream, e: Event): Stream
  {
    match e
    case Start(text, ssml, voiceURI, format) => Started(s, text, ssml, voiceURI, format)
    case Stop => Stopped(s)
    case Resolve(k, url, id, ts) => Resolved(s, k, url, id, ts)
    case AudioEnd => Finished(s)
    case AudioError => PlaybackFailed(s)
    case DeleteHistory(id) => HistoryDeleted(s, id)
  }

  /** One event followed by the playback effect. */
  function Step(s: Stream, e: Event): Stream
  {
    Reconciled(Apply(s, e))
  }

  function StepAsWritten(s: Stream, e: Event): Stream
  {
    ReconciledAsWritten(Apply(s, e))
  }

  /** What every reachable state satisfies: the index is within the queue,
      the current audio is the chunk at the index, and every suspended run
      has a chunk left to request and a key below the next one. */
  predicate Consistent(s: Stream)
  {
    && s.index <= |s.queue|
    && (s.active.Some? ==> s.playing && s.active.value == s.index && s.index < |s.queue|)
    && (forall k :: k in s.requests ==> k < s.nextRequest && s.requests[k].next < |s.requests[k].chunks|)
  }

  // ---------------------------------------------------------------------
  // Properties

  lemma ApplyKeepsConsistent(s: Stream, e: Event)
    requires Consistent(s)
    ensures Consistent(Apply(s, e))
  {
    match e
    case Start(text, ssml, voiceURI, format) =>
      if text != [] {
        OpenedKeepsConsistent(Stopped(s), ChunksFor(text, ssml), text, ssml, VoiceLabel(voiceURI), format, s.history);
      }
    case Resolve(k, url, id, ts) => ResolvedKeepsConsistent(s, k, url, id, ts);
    case _ =>
  }

  lemma OpenedKeepsConsistent(s: Stream, chunks: seq<string>, text: string, ssml: bool,
                              voiceLabel: string, format: DownloadFormat, snapshot: seq<HistoryItem>)
    requires Consistent(s) && s.index == 0 && s.queue == [] && s.active.None?
    ensures Consistent(Opened(s, chunks, text, ssml, voiceLabel, format, snapshot))
  {
    var t := Opened(s, chunks, text, ssml, voiceLabel, format, snapshot);
    forall k | k in t.requests ensures k < t.nextRequest && t.requests[k].next < |t.requests[k].chunks| {
    }
  }

  lemma ResolvedKeepsConsistent(s: Stream, k: nat, url: string, id: string, timestamp: int)
    requires Consistent(s)
    ensures Consistent(Resolved(s, k, url, id, timestamp))
  {
    if k in s.requests {
      var r := s.requests[k];
      if s.stopFlag {
        DroppedKeepsConsistent(s, k);
      } else if r.next == 0 {
        QueuedKeepsConsistent(FirstChunk(s, r, url, id, timestamp), k, r, url);
      } else {
        QueuedKeepsConsistent(s, k, r, url);
      }
    }
  }

  lemma DroppedKeepsConsistent(s: Stream, k: nat)
    requires Consistent(s)
    ensures Consistent(s.(requests := s.requests - {k}))
  {
    var t := s.(requests := s.requests - {k});
    forall j | j in t.requests ensures j < t.nextRequest && t.requests[j].next < |t.requests[j].chunks| {
      assert j in s.requests;
    }
  }

  lemma QueuedKeepsConsistent(s: Stream, k: nat, r: Request, url: string)
    requires Consistent(s) && k in s.requests && s.requests[k] == r
    ensures Consistent(Queued(s, k, r, url))
  {
    var t := Queued(s, k, r, url);
    forall j | j in t.requests ensures j < t.nextRequest && t.requests[j].next < |t.requests[j].chunks| {
      assert j in s.requests;
    }
  }

  lemma ReconciledKeepsConsistent(s: Stream, done: bool)
    requires Consistent(s)
    ensures Consistent(ReconciledWith(s, done))
  {
  }

  /** Every event followed by the effect, in either form, keeps the state consistent. */
  lemma StepKeepsConsistent(s: Stream, e: Event)
    requires Consistent(s)
    ensures Consistent(Step(s, e)) && Consistent(StepAsWritten(s, e))
  {
    ApplyKeepsConsistent(s, e);
    ReconciledKeepsConsistent(Apply(s, e), AllArrived(Apply(s, e)));
    ReconciledKeepsConsistent(Apply(s, e), ProgressComplete(Apply(s, e)));
  }

  /** Stopping twice is stopping once. */
  lemma StopIdempotent(s: Stream)
    ensures Stopped(Stopped(s)) == Stopped(s)
  {
  }

  /** Starting a non-empty text stops whatever ran before, lowers the stop
      flag, and suspends one new run on its first chunk with a fresh key;
      there is always at least one chunk, so loading is on and the progress
      shows the first of them. */
  lemma StartSpec(s: Stream, text: string, ssml: bool, voiceURI: string, format: DownloadFormat)
    requires Consistent(s) && text != []
    ensures var t := Started(s, text, ssml, voiceURI, format);
      var chunks := if ssml then [text] else Chunk(text, DefaultMaxLength);
      && !t.stopFlag && t.loading && !t.playing && t.queue == [] && t.index == 0
      && t.active.None? && t.downloadUrl.None? && t.history == s.history
      && s.nextRequest !in s.requests
      && t.requests == s.requests[s.nextRequest := Request(chunks, 0, text, ssml, VoiceLabel(voiceURI), format, s.history)]
      && t.progress == Some(Progress(1, |chunks|)) && |chunks| >= 1
  {
    if !ssml {
      ChunkOfTextNonEmpty(text, DefaultMaxLength);
    }
  }

  /** The AI primary button stops a busy player and keeps its history and
      suspended runs. On an idle player it streams the text, which leaves
      the player busy, so the next press stops it; an empty text leaves the
      player as it was. */
  lemma PrimaryActionSpec(s: Stream, text: string, ssml: bool, voiceURI: string, format: DownloadFormat)
    requires Consistent(s)
    ensures var t := PrimaryAction(s, text, ssml, voiceURI, format);
      && (s.playing || s.loading ==>
            t.stopFlag && !t.playing && !t.loading && t.queue == [] && t.active.None?
            && t.history == s.history && t.requests == s.requests)
      && (!s.playing && !s.loading && text == [] ==> t == s)
      && (!s.playing && !s.loading && text != [] ==>
            && !t.stopFlag && t.loading && t.history == s.history
            && s.nextRequest !in s.requests && s.nextRequest in t.requests
            && PrimaryAction(t, text, ssml, voiceURI, format).stopFlag)
  {
    if !s.playing && !s.loading && text != [] {
      StartSpec(s, text, ssml, voiceURI, format);
    }
  }

  /** Once the stop flag is up, a completing request only ends its run: the
      queue, the history and every flag stay as they are. */
  lemma ResolveAfterStop(s: Stream, k: nat, url: string, id: string, timestamp: int)
    requires s.stopFlag && k in s.requests
    ensures Resolved(s, k, url, id, timestamp) == s.(requests := s.requests - {k})
  {
  }

  /** A completing request while the flag is down appends its URL to the
      queue; only the first chunk of a run writes the history, sets the
      download URL, ends loading and starts playing, and the history it
      writes is the new entry over at most 49 entries of the history the run
      captured. The run then waits on the next chunk with the progress at
      that chunk, which never passes the total, or ends after its last. */
  lemma ResolveSpec(s: Stream, k: nat, url: string, id: string, timestamp: int)
    requires Consistent(s) && !s.stopFlag && k in s.requests
    ensures var r := s.requests[k];
      var t := Resolved(s, k, url, id, timestamp);
      && t.queue == s.queue + [url]
      && t.index == s.index && t.active == s.active && !t.stopFlag
      && (r.next == 0 ==>
            && t.downloadUrl == Some(url) && !t.loading && t.playing
            && t.history == NewHistory(HistoryEntry(r, url, id, timestamp), r.snapshot)
            && |t.history| <= HistoryCap)
      && (r.next > 0 ==>
            t.history == s.history && t.downloadUrl == s.downloadUrl
            && t.loading == s.loading && t.playing == s.playing)
      && (r.next + 1 < |r.chunks| ==>
            && t.progress == Some(Progress(r.next + 2, |r.chunks|)) && r.next + 2 <= |r.chunks|
            && t.requests == s.requests[k := r.(next := r.next + 1)])
      && (r.next + 1 == |r.chunks| ==>
            t.progress == s.progress && t.requests == s.requests - {k})
  {
  }

  /** The history written with the first chunk ignores every change made
      to the history since the run started: an entry deleted in the
      meantime comes back. */
  lemma FirstChunkOverwritesHistory(s: Stream, h: seq<HistoryItem>, k: nat, url: string, id: string, timestamp: int)
    requires !s.stopFlag && k in s.requests && s.requests[k].next == 0
    ensures Resolved(s.(history := h), k, url, id, timestamp).history ==
            NewHistory(HistoryEntry(s.requests[k], url, id, timestamp), s.requests[k].snapshot)
  {
  }

  /** The stop flag is shared by all runs and lowered again by every start:
      a run suspended before a stop and a restart survives both, and its
      next chunk, cut from the old text, lands in the new stream's queue. */
  lemma StaleRequestLeaks(s: Stream, k: nat, text: string, ssml: bool, voiceURI: string,
                          format: DownloadFormat, url: string, id: string, timestamp: int)
    requires Consistent(s) && k in s.requests && text != []
    ensures var t := Apply(Apply(s, Stop), Start(text, ssml, voiceURI, format));
      && k in t.requests && t.requests[k] == s.requests[k] && !t.stopFlag
      && Resolved(t, k, url, id, timestamp).queue == t.queue + [url]
  {
    var t := Apply(Apply(s, Stop), Start(text, ssml, voiceURI, format));
    StartSpec(Stopped(s), text, ssml, voiceURI, format);
    assert k != s.nextRequest;
    ResolveSpec(t, k, url, id, timestamp) by {
      ApplyKeepsConsistent(s, Stop);
      ApplyKeepsConsistent(Stopped(s), Start(text, ssml, voiceURI, format));
    }
  }

  /** One completing request followed by the effect, while the flag is down. */
  lemma StepResolveSpec(s: Stream, k: nat, url: string, id: string, timestamp: int)
    requires Consistent(s) && !s.stopFlag && k in s.requests
    ensures var r := s.requests[k];
      var n := Step(s, Resolve(k, url, id, timestamp));
      && Consistent(n) && !n.stopFlag && n.queue == s.queue + [url]
      && (r.next + 1 < |r.chunks| ==>
            k in n.requests && n.requests[k] == r.(next := r.next + 1)
            && n.progress == Some(Progress(r.next + 2, |r.chunks|)))
      && (r.next + 1 == |r.chunks| ==> k !in n.requests && n.progress == s.progress)
  {
    var t := Resolved(s, k, url, id, timestamp);
    ResolveSpec(s, k, url, id, timestamp);
    ResolvedKeepsConsistent(s, k, url, id, timestamp);
    ReconciledKeepsConsistent(t, AllArrived(t));
  }

  /** The remaining requests of run `k` complete one after another, each
      followed by the effect. */
  function ResolveAll(s: Stream, k: nat, urls: seq<string>, id: string, timestamp: int): Stream
    decreases |urls|
  {
    if urls == [] then s
    else ResolveAll(Step(s, Resolve(k, urls[0], id, timestamp)), k, urls[1..], id, timestamp)
  }

  /** A run that is left alone appends one URL per remaining chunk, in
      chunk order, and then ends; after two or more chunks the progress
      shows the last one. */
  lemma {:induction false} ResolveAllAppendsInOrder(s: Stream, k: nat, urls: seq<string>, id: string, timestamp: int)
    requires Consistent(s) && !s.stopFlag && k in s.requests
    requires |urls| == |s.requests[k].chunks| - s.requests[k].next
    ensures var t := ResolveAll(s, k, urls, id, timestamp);
      && t.queue == s.queue + urls && k !in t.requests && !t.stopFlag && Consistent(t)
      && (|urls| == 1 ==> t.progress == s.progress)
      && (|urls| >= 2 ==> t.progress == Some(Progress(|s.requests[k].chunks|, |s.requests[k].chunks|)))
    decreases |urls|
  {
    var n := Step(s, Resolve(k, urls[0], id, timestamp));
    StepResolveSpec(s, k, urls[0], id, timestamp);
    assert ResolveAll(s, k, urls, id, timestamp) == ResolveAll(n, k, urls[1..], id, timestamp);
    if |urls| == 1 {
      assert urls[1..] == [];
      assert ResolveAll(n, k, [], id, timestamp) == n;
      assert s.queue + urls == s.queue + [urls[0]];
    } else {
      ResolveAllAppendsInOrder(n, k, urls[1..], id, timestamp);
      assert s.queue + urls == n.queue + urls[1..];
    }
  }

  /** The audio ends `m` times in a row, each time followed by the effect. */
  function EndTimes(s: Stream, m: nat): Stream
    decreases m
  {
    if m == 0 then s else EndTimes(Step(s, AudioEnd), m - 1)
  }

  /** While playing, the queue is played through in order: each end moves
      the index on by one and the next chunk plays. Once the queue is played
      out, playing goes on exactly when chunks are still to come. */
  lemma {:induction false} PlaysQueueInOrder(s: Stream, m: nat)
    requires Consistent(s) && s.playing && s.active == Some(s.index)
    requires m == |s.queue| - s.index
    ensures var t := EndTimes(s, m);
      && t.queue == s.queue && t.index == |s.queue| && t.active.None?
      && t.progress == s.progress && t.requests == s.requests
      && (t.playing <==> !AllArrived(s))
    decreases m
  {
    var n := Step(s, AudioEnd);
    StepKeepsConsistent(s, AudioEnd);
    if m > 1 {
      PlaysQueueInOrder(n, m - 1);
    }
  }

  // ---------------------------------------------------------------------
  // The last chunk of a two-chunk stream

  /** As written: when the first chunk finishes playing before the second
      request completes, the effect sees the progress at 2 of 2 and ends
      playing; the second chunk then reaches the queue but never plays, and
      no later end event changes that. */
  lemma LastChunkDroppedAsWritten(s: Stream, text: string, voiceURI: string, format: DownloadFormat,
                                  u0: string, u1: string, id: string, timestamp: int)
    requires text != [] && |Chunk(text, DefaultMaxLength)| == 2
    ensures var k := s.nextRequest;
      var s1 := StepAsWritten(s, Start(text, false, voiceURI, format));
      var s2 := StepAsWritten(s1, Resolve(k, u0, id, timestamp));
      var s3 := StepAsWritten(s2, AudioEnd);
      var s4 := StepAsWritten(s3, Resolve(k, u1, id, timestamp));
      && s2.playing && s2.active == Some(0)
      && !s3.playing && k in s3.requests
      && s4.queue == [u0, u1] && s4.index == 1 && !s4.playing && s4.active.None?
      && k !in s4.requests && StepAsWritten(s4, AudioEnd) == s4
  {
    LastChunkDroppedFrom(s, Chunk(text, DefaultMaxLength), text, VoiceLabel(voiceURI), format, u0, u1, id, timestamp);
  }

  /** The same trace for any two chunks, from the launch of their run. */
  lemma LastChunkDroppedFrom(s: Stream, chunks: seq<string>, text: string, voiceLabel: string, format: DownloadFormat,
                             u0: string, u1: string, id: string, timestamp: int)
    requires |chunks| == 2
    ensures var k := s.nextRequest;
      var s1 := ReconciledAsWritten(Launch(s, chunks, text, false, voiceLabel, format));
      var s2 := StepAsWritten(s1, Resolve(k, u0, id, timestamp));
      var s3 := StepAsWritten(s2, AudioEnd);
      var s4 := StepAsWritten(s3, Resolve(k, u1, id, timestamp));
      && s2.playing && s2.active == Some(0)
      && !s3.playing && k in s3.requests
      && s4.queue == [u0, u1] && s4.index == 1 && !s4.playing && s4.active.None?
      && k !in s4.requests && StepAsWritten(s4, AudioEnd) == s4
  {
    var k := s.nextRequest;
    var s1 := ReconciledAsWritten(Launch(s, chunks, text, false, voiceLabel, format));
    assert s1.requests[k] == Request(chunks, 0, text, false, voiceLabel, format, s.history);
    var s2 := StepAsWritten(s1, Resolve(k, u0, id, timestamp));
    assert s2.queue == [u0];
    assert s2.requests[k].next == 1;
    var s3 := StepAsWritten(s2, AudioEnd);
    assert s3.requests[k] == s2.requests[k];
  }

  /** As intended: the same events leave playing on until the second chunk
      arrives; it then plays, and its end finishes the stream. */
  lemma LastChunkPlayed(s: Stream, text: string, voiceURI: string, format: DownloadFormat,
                        u0: string, u1: string, id: string, timestamp: int)
    requires text != [] && |Chunk(text, DefaultMaxLength)| == 2
    ensures var k := s.nextRequest;
      var s1 := Step(s, Start(text, false, voiceURI, format));
      var s2 := Step(s1, Resolve(k, u0, id, timestamp));
      var s3 := Step(s2, AudioEnd);
      var s4 := Step(s3, Resolve(k, u1, id, timestamp));
      var s5 := Step(s4, AudioEnd);
      && s2.playing && s2.active == Some(0)
      && s3.playing && s3.active.None? && k in s3.requests
      && s4.queue == [u0, u1] && s4.playing && s4.active == Some(1)
      && s5.index == 2 && !s5.playing && s5.active.None?
  {
    LastChunkPlayedFrom(s, Chunk(text, DefaultMaxLength), text, VoiceLabel(voiceURI), format, u0, u1, id, timestamp);
  }

  /** The same trace for any two chunks, from the launch of their run. */
  lemma LastChunkPlayedFrom(s: Stream, chunks: seq<string>, text: string, voiceLabel: string, format: DownloadFormat,
                            u0: string, u1: string, id: string, timestamp: int)
    requires |chunks| == 2
    ensures var k := s.nextRequest;
      var s1 := Reconciled(Launch(s, chunks, text, false, voiceLabel, format));
      var s2 := Step(s1, Resolve(k, u0, id, timestamp));
      var s3 := Step(s2, AudioEnd);
      var s4 := Step(s3, Resolve(k, u1, id, timestamp));
      var s5 := Step(s4, AudioEnd);
      && s2.playing && s2.active == Some(0)
      && s3.playing && s3.active.None? && k in s3.requests
      && s4.queue == [u0, u1] && s4.playing && s4.active == Some(1)
      && s5.index == 2 && !s5.playing && s5.active.None?
  {
    var k := s.nextRequest;
    var s1 := Reconciled(Launch(s, chunks, text, false, voiceLabel, format));
    assert s1.requests[k] == Request(chunks, 0, text, false, voiceLabel, format, s.history);
    var s2 := Step(s1, Resolve(k, u0, id, timestamp));
    assert s2.queue == [u0];
    assert s2.requests[k].next == 1;
    var s3 := Step(s2, AudioEnd);
    assert s3.requests[k] == s2.requests[k];
  }

  // ---------------------------------------------------------------------
  // The player as an object

  /** The component's streaming state, updated in place by the handlers
      and the effect. */
  class StreamingController {
    var stopFlag: bool
    var loading: bool
    var playing: bool
    var progress: Option<Progress>
    var queue: seq<string>
    var index: nat
    var downloadUrl: Option<string>
    var history: seq<HistoryItem>
    var active: Option<nat>
    var requests: map<nat, Request>
    var nextRequest: nat

    function State(): Stream
      reads this
    {
      Stream(stopFlag, loading, playing, progress, queue, index, downloadUrl,
             history, active, requests, nextRequest)
    }

    predicate Valid()
      reads this
    {
      Consistent(State())
    }

    /** The initial state, with the history read back from storage. */
    constructor (storedHistory: seq<HistoryItem>)
      ensures Valid()
      ensures State() == Stream(false, false, false, None, [], 0, None, storedHistory, None, map[], 0)
    {
      stopFlag, loading, playing, progress := false, false, false, None;
      queue, index, downloadUrl := [], 0, None;
      history, active, requests, nextRequest := storedHistory, None, map[], 0;
    }

    method Stop()
      requires Valid()
      modifies this
      ensures State() == Stopped(old(State()))
      ensures Valid()
    {
      stopFlag, active, loading, playing := true, None, false, false;
      downloadUrl, progress, queue, index := None, None, [], 0;
    }

    method Start(text: string, ssml: bool, voiceURI: string, format: DownloadFormat)
      requires Valid()
      modifies this
      ensures State() == Started(old(State()), text, ssml, voiceURI, format)
      ensures Valid()
    {
      if text == [] {
        return;
      }
      var snapshot := history;
      Stop();
      var chunks := [text];
      if !ssml {
        chunks := ChunkText(text, DefaultMaxLength);
      }
      Open(chunks, text, ssml, VoiceLabel(voiceURI), format, snapshot);
    }

    /** Lowers the stop flag, marks loading and, when there is a chunk,
        starts run `nextRequest` on the first of them. */
    method Open(chunks: seq<string>, text: string, ssml: bool, voiceLabel: string,
                format: DownloadFormat, snapshot: seq<HistoryItem>)
      requires Valid() && index == 0 && queue == [] && active.None?
      modifies this
      ensures State() == Opened(old(State()), chunks, text, ssml, voiceLabel, format, snapshot)
      ensures Valid()
    {
      OpenedKeepsConsistent(State(), chunks, text, ssml, voiceLabel, format, snapshot);
      stopFlag := false;
      loading := true;
      if |chunks| == 0 {
        loading := false;
        return;
      }
      progress := Some(Progress(1, |chunks|));
      requests := requests[nextRequest := Request(chunks, 0, text, ssml, voiceLabel, format, snapshot)];
      nextRequest := nextRequest + 1;
    }

    method Resolve(k: nat, url: string, id: string, timestamp: int)
      requires Valid()
      modifies this
      ensures State() == Resolved(old(State()), k, url, id, timestamp)
      ensures Valid()
    {
      if k !in requests {
        return;
      }
      var r := requests[k];
      if stopFlag {
        DroppedKeepsConsistent(State(), k);
        requests := requests - {k};
        return;
      }
      if r.next == 0 {
        RecordFirstChunk(r, url, id, timestamp);
      }
      QueueChunk(k, r, url);
    }

    /** The first chunk sets the download URL, ends loading, starts playing
        and writes the history entry. */
    method RecordFirstChunk(r: Request, url: string, id: string, timestamp: int)
      requires Valid()
      modifies this
      ensures State() == FirstChunk(old(State()), r, url, id, timestamp)
      ensures Valid()
    {
      downloadUrl, loading, playing := Some(url), false, true;
      history := NewHistory(HistoryEntry(r, url, id, timestamp), r.snapshot);
    }

    /** Appends the chunk's audio and moves run `k` on. */
    method QueueChunk(k: nat, r: Request, url: string)
      requires Valid() && k in requests && requests[k] == r
      modifies this
      ensures State() == Queued(old(State()), k, r, url)
      ensures Valid()
    {
      QueuedKeepsConsistent(State(), k, r, url);
      if r.next + 1 < |r.chunks| {
        queue, progress := queue + [url], Some(Progress(r.next + 2, |r.chunks|));
        requests := requests[k := r.(next := r.next + 1)];
      } else {
        queue, requests := queue + [url], requests - {k};
      }
    }

    method OnEnded()
      requires Valid()
      modifies this
      ensures State() == Finished(old(State()))
      ensures Valid()
    {
      if active.Some? {
        index := index + 1;
        active := None;
      }
    }

    method OnPlayFailed()
      requires Valid()
      modifies this
      ensures State() == PlaybackFailed(old(State()))
      ensures Valid()
    {
      if active.Some? {
        Stop();
      }
    }

    method DeleteHistory(id: string)
      requires Valid()
      modifies this
      ensures State() == HistoryDeleted(old(State()), id)
      ensures Valid()
    {
      history := DeleteItem(history, id);
    }

    /** The playback effect with the corrected guard, the one the other
        methods and `Step` use. */
    method Reconcile()
      requires Valid()
      modifies this
      ensures State() == Reconciled(old(State()))
      ensures Valid()
    {
      ReconciledKeepsConsistent(State(), AllArrived(State()));
      if !playing || index >= |queue| {
        active := None;
        if playing && index >= |queue| && (progress.None? || |queue| >= progress.value.total) {
          playing := false;
        }
      } else {
        active := Some(index);
      }
    }

    /** The playback effect as App.tsx writes it, with the guard of line 276. */
    method ReconcileAsWritten()
      requires Valid()
      modifies this
      ensures State() == ReconciledAsWritten(old(State()))
      ensures Valid()
    {
      ReconciledKeepsConsistent(State(), ProgressComplete(State()));
      if !playing || index >= |queue| {
        active := None;
        if playing && index >= |queue| && (progress.None? || progress.value.current == progress.value.total) {
          playing := false;
        }
      } else {
        active := Some(index);
      }
    }

    /** The loop of `generateAndQueue` for run `k` when each of its requests
        completes before anything else happens, the effect running after each. */
    method RunRequest(k: nat, urls: seq<string>, id: string, timestamp: int)
      requires Valid()
      modifies this
      ensures State() == ResolveAll(old(State()), k, urls, id, timestamp)
      ensures Valid()
    {
      ghost var target := ResolveAll(State(), k, urls, id, timestamp);
      for i := 0 to |urls|
        invariant Valid()
        invariant ResolveAll(State(), k, urls[i..], id, timestamp) == target
      {
        assert urls[i..][0] == urls[i] && urls[i..][1..] == urls[i + 1..];
        Resolve(k, urls[i], id, timestamp);
        Reconcile();
      }
      assert urls[|urls|..] == [];
    }
  }
}
