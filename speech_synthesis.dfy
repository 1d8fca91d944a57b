/** `generateSpeech` (a bounded retry loop around one speech request) and the
    synthesis half of `generateSpeechFromLongText` (chunks synthesised one at
    a time, in order, then concatenated). Each network request is abstracted
    as the outcome it yields; waits are recorded as their durations. */
module SpeechSynthesis {
  import opened Wrappers
  import opened ByteBuffers
  import SpeechChunker

  /** What one request yields: the decoded binary string of the returned
      audio, or the error it throws (a transport error or a failed decode). */
  datatype CallOutcome = Delivered(decoded: string) | Threw(message: string)

  /** The error `generateSpeech` throws when its loop never runs. */
  const ExhaustedMessage: string := "Failed to generate speech after all retries"

  const DefaultRetries: int := 3
  const BackoffStepMs: nat := 3000
  const InterChunkDelayMs: nat := 2000

  /** What a run of `generateSpeech` did: its result, how many requests it
      made, and the waits between them in milliseconds. */
  datatype RetryRun = RetryRun(result: Result<seq<byte>>, attempts: nat, waits: seq<nat>)

  /** The run of the retry loop from attempt number `attempt` on. */
  function RetryFrom(call: nat -> CallOutcome, retries: int, attempt: nat): (run: RetryRun)
    requires attempt >= 1
    decreases if attempt <= retries then retries - attempt + 1 else 0
  {
    if attempt > retries then RetryRun(Failure(ExhaustedMessage), 0, [])
    else match call(attempt)
      case Delivered(decoded) => RetryRun(Success(ByteValues(decoded)), 1, [])
      case Threw(message) =>
        if attempt == retries then RetryRun(Failure(message), 1, [])
        else
          var rest := RetryFrom(call, retries, attempt + 1);
          RetryRun(rest.result, rest.attempts + 1, [attempt * BackoffStepMs] + rest.waits)
  }

  function Retry(call: nat -> CallOutcome, retries: int): RetryRun
  {
    RetryFrom(call, retries, 1)
  }

  /** `generateSpeech(text, voiceName, retries)`; `call(k)` is what request
      number k (counting from 1) yields. */
  method GenerateSpeech(call: nat -> CallOutcome, retries: int)
    returns (result: Result<seq<byte>>, attempts: nat, waits: seq<nat>)
    ensures RetryRun(result, attempts, waits) == Retry(call, retries)
  {
    var attempt := 1;
    attempts, waits := 0, [];
    while attempt <= retries
      invariant 1 <= attempt
      invariant attempts == attempt - 1
      invariant attempt <= retries + 1 || attempt == 1
      invariant var run := RetryFrom(call, retries, attempt);
        Retry(call, retries) == RetryRun(run.result, run.attempts + attempts, waits + run.waits)
      decreases retries - attempt + 1
    {
      attempts := attempts + 1;
      match call(attempt)
      case Delivered(decoded) =>
        var bytes := DecodeBinaryString(decoded);
        assert bytes[..] == ByteValues(decoded);
        return Success(bytes[..]), attempts, waits;
      case Threw(message) =>
        if attempt == retries {
          return Failure(message), attempts, waits;
        }
        var backoffMs := attempt * BackoffStepMs;
        assert waits + ([backoffMs] + RetryFrom(call, retries, attempt + 1).waits)
            == (waits + [backoffMs]) + RetryFrom(call, retries, attempt + 1).waits;
        waits := waits + [backoffMs];
        attempt := attempt + 1;
    }
    return Failure(ExhaustedMessage), attempts, waits;
  }

  /** The retry loop makes at most `retries` requests (none when `retries` is
      below 1, and then it throws the "after all retries" error), at least
      one otherwise, and waits `k * 3000` ms after failed request k before
      the next one: the waits grow linearly (3 s, 6 s, 9 s, ...). */
  lemma {:induction false} RetryShape(call: nat -> CallOutcome, retries: int, attempt: nat)
    requires attempt >= 1
    ensures var run := RetryFrom(call, retries, attempt);
      && (attempt > retries ==> run.attempts == 0 && run.result == Failure(ExhaustedMessage))
      && (attempt <= retries ==> 1 <= run.attempts <= retries - attempt + 1)
      && |run.waits| == (if run.attempts == 0 then 0 else run.attempts - 1)
      && forall j :: 0 <= j < |run.waits| ==> run.waits[j] == (attempt + j) * BackoffStepMs
    decreases if attempt <= retries then retries - attempt + 1 else 0
  {
    if attempt <= retries && call(attempt).Threw? && attempt < retries {
      RetryShape(call, retries, attempt + 1);
      var rest := RetryFrom(call, retries, attempt + 1);
      var run := RetryFrom(call, retries, attempt);
      assert run.waits == [attempt * BackoffStepMs] + rest.waits;
      forall j | 0 <= j < |run.waits|
        ensures run.waits[j] == (attempt + j) * BackoffStepMs
      {
        if j > 0 {
          assert run.waits[j] == rest.waits[j - 1];
        }
      }
    }
  }

  /** The retry loop returns the bytes of the first request that delivers
      audio, after exactly that many requests; it fails when every one of
      the `retries` requests throws, and then rethrows the last request's
      error after exactly `retries` requests. */
  lemma {:induction false} RetryFirstSuccess(call: nat -> CallOutcome, retries: int, attempt: nat)
    requires 1 <= attempt <= retries
    ensures var run := RetryFrom(call, retries, attempt);
      && (run.result.Success? <==> exists k :: attempt <= k <= retries && call(k).Delivered?)
      && (forall k :: (attempt <= k <= retries && call(k).Delivered? &&
                       (forall m :: attempt <= m < k ==> call(m).Threw?)) ==>
            run.result == Success(ByteValues(call(k).decoded)) && run.attempts == k - attempt + 1)
      && ((forall k :: attempt <= k <= retries ==> call(k).Threw?) ==>
            run.result == Failure(call(retries).message) && run.attempts == retries - attempt + 1)
    decreases retries - attempt
  {
    if call(attempt).Threw? && attempt < retries {
      RetryFirstSuccess(call, retries, attempt + 1);
      var run := RetryFrom(call, retries, attempt);
      var rest := RetryFrom(call, retries, attempt + 1);
      assert run.result == rest.result;
      if run.result.Success? {
        var k :| attempt + 1 <= k <= retries && call(k).Delivered?;
      }
      forall k | attempt <= k <= retries && call(k).Delivered? &&
            (forall m :: attempt <= m < k ==> call(m).Threw?)
        ensures run.result == Success(ByteValues(call(k).decoded)) && run.attempts == k - attempt + 1
      {
        assert k != attempt;
      }
    }
  }

  /** The requests for chunk i. */
  function ChunkCall(call: (nat, nat) -> CallOutcome, i: nat): nat -> CallOutcome
  {
    (k: nat) => call(i, k)
  }

  /** What happened to one chunk: the progress report that preceded it,
      the pause before its first request, and its retry run. */
  datatype ChunkRecord = ChunkRecord(progress: nat, total: nat, pauseMs: nat, text: string, run: RetryRun)

  /** The synthesis loop from chunk i on: records of the chunks it reached,
      and the audio of every chunk when all of them succeed. A chunk whose
      retries are exhausted ends the loop with its error. */
  function SynthesizeFrom(chunks: seq<string>, call: (nat, nat) -> CallOutcome, i: nat)
    : (r: (Result<seq<seq<byte>>>, seq<ChunkRecord>))
    requires i <= |chunks|
    decreases |chunks| - i
  {
    if i == |chunks| then (Success([]), [])
    else
      var run := Retry(ChunkCall(call, i), DefaultRetries);
      var record := ChunkRecord(i + 1, |chunks|, if i > 0 then InterChunkDelayMs else 0, chunks[i], run);
      match run.result
      case Failure(message) => (Failure(message), [record])
      case Success(bytes) =>
        var (rest, records) := SynthesizeFrom(chunks, call, i + 1);
        match rest
        case Failure(message) => (Failure(message), [record] + records)
        case Success(audio) => (Success([bytes] + audio), [record] + records)
  }

  /** The loop's outcome from chunk i on, behind the audio and records of
      the chunks before i. */
  function Behind(audio: seq<seq<byte>>, records: seq<ChunkRecord>, r: (Result<seq<seq<byte>>>, seq<ChunkRecord>))
    : (Result<seq<seq<byte>>>, seq<ChunkRecord>)
  {
    (match r.0 case Success(more) => Success(audio + more) case Failure(m) => Failure(m), records + r.1)
  }

  lemma BehindNothing(r: (Result<seq<seq<byte>>>, seq<ChunkRecord>))
    ensures Behind([], [], r) == r
  {
    assert [] + r.1 == r.1;
    match r.0
    case Success(more) => assert [] + more == more;
    case Failure(_) =>
  }

  lemma {:induction false} BehindStep(chunks: seq<string>, call: (nat, nat) -> CallOutcome, i: nat,
                                      audio: seq<seq<byte>>, records: seq<ChunkRecord>, bytes: seq<byte>, record: ChunkRecord)
    requires i < |chunks|
    requires record == ChunkRecord(i + 1, |chunks|, if i > 0 then InterChunkDelayMs else 0, chunks[i],
                                   Retry(ChunkCall(call, i), DefaultRetries))
    requires record.run.result == Success(bytes)
    ensures Behind(audio, records, SynthesizeFrom(chunks, call, i))
         == Behind(audio + [bytes], records + [record], SynthesizeFrom(chunks, call, i + 1))
  {
    var next := SynthesizeFrom(chunks, call, i + 1);
    assert SynthesizeFrom(chunks, call, i) == Behind([bytes], [record], next);
    assert records + ([record] + next.1) == (records + [record]) + next.1;
    match next.0
    case Success(more) =>
      assert audio + ([bytes] + more) == (audio + [bytes]) + more;
    case Failure(_) =>
  }

  /** Everything `generateSpeechFromLongText` produces for a text: its chunks,
      the per-chunk records, and the concatenated audio or the error. */
  function LongTextSpeech(text: string, call: (nat, nat) -> CallOutcome)
    : (r: (seq<string>, Result<seq<byte>>, seq<ChunkRecord>))
  {
    var chunks := SpeechChunker.Chunks(text);
    var (audio, records) := SynthesizeFrom(chunks, call, 0);
    (chunks, Concatenated(audio), records)
  }

  /** The audio of all chunks laid end to end, or the error. */
  function Concatenated(audio: Result<seq<seq<byte>>>): (r: Result<seq<byte>>)
    ensures r.Success? == audio.Success?
  {
    match audio case Success(parts) => Success(Flatten(parts)) case Failure(m) => Failure(m)
  }

  /** `generateSpeechFromLongText(text, voiceName, onProgress)`; `call(i, k)`
      is what request number k for chunk i yields. The records are the
      calls of `onProgress` and the waits, in the order they happen. */
  method GenerateSpeechFromLongText(text: string, call: (nat, nat) -> CallOutcome)
    returns (audio: Result<seq<byte>>, chunks: seq<string>, records: seq<ChunkRecord>)
    ensures (chunks, audio, records) == LongTextSpeech(text, call)
  {
    var totalProcessedChars;
    chunks, totalProcessedChars := SpeechChunker.SplitIntoChunks(text);
    var audioChunks: seq<seq<byte>> := [];
    records := [];
    var totalChunks := |chunks|;
    var i := 0;
    BehindNothing(SynthesizeFrom(chunks, call, 0));
    while i < totalChunks
      invariant 0 <= i <= totalChunks
      invariant |audioChunks| == i
      invariant SynthesizeFrom(chunks, call, 0) == Behind(audioChunks, records, SynthesizeFrom(chunks, call, i))
      decreases totalChunks - i
    {
      var pauseMs := if i > 0 then InterChunkDelayMs else 0;
      var result, attempts, waits := GenerateSpeech(ChunkCall(call, i), DefaultRetries);
      var record := ChunkRecord(i + 1, totalChunks, pauseMs, chunks[i], RetryRun(result, attempts, waits));
      match result
      case Failure(message) =>
        records := records + [record];
        return Failure(message), chunks, records;
      case Success(audioData) =>
        BehindStep(chunks, call, i, audioChunks, records, audioData, record);
        records := records + [record];
        audioChunks := audioChunks + [audioData];
        i := i + 1;
    }
    assert audioChunks + [] == audioChunks && records + [] == records;
    assert SynthesizeFrom(chunks, call, 0) == (Success(audioChunks), records);
    var concatenatedAudio := Concatenate(audioChunks);
    audio := Success(concatenatedAudio[..]);
  }

  /** The synthesis loop visits the chunks strictly in order from chunk i:
      record j is chunk i + j, reported to `onProgress` as (i + j + 1, total)
      before its requests, preceded by a 2000 ms pause unless it is chunk 0,
      and synthesised with the default of three attempts. */
  lemma {:induction false} SynthesisOrder(chunks: seq<string>, call: (nat, nat) -> CallOutcome, i: nat)
    requires i <= |chunks|
    ensures var records := SynthesizeFrom(chunks, call, i).1;
      && |records| <= |chunks| - i
      && (i < |chunks| ==> |records| >= 1)
      && forall j :: 0 <= j < |records| ==>
           records[j] == ChunkRecord(i + j + 1, |chunks|, if i + j > 0 then InterChunkDelayMs else 0,
                                     chunks[i + j], Retry(ChunkCall(call, i + j), DefaultRetries))
    decreases |chunks| - i
  {
    if i < |chunks| && Retry(ChunkCall(call, i), DefaultRetries).result.Success? {
      SynthesisOrder(chunks, call, i + 1);
      var records := SynthesizeFrom(chunks, call, i).1;
      var more := SynthesizeFrom(chunks, call, i + 1).1;
      assert records[1..] == more;
    }
  }

  /** How a synthesis loop over n chunks can end: it passed a chunk only
      when that chunk succeeded; it succeeded exactly when it reached all n
      chunks and every one succeeded, part j of its audio then being chunk
      j's audio; a failure is the error of the last chunk it reached. */
  ghost predicate Stopped(result: Result<seq<seq<byte>>>, records: seq<ChunkRecord>, n: nat)
  {
    && (forall j :: 0 <= j < |records| - 1 ==> records[j].run.result.Success?)
    && (result.Success? <==>
          |records| == n && forall j :: 0 <= j < |records| ==> records[j].run.result.Success?)
    && (result.Failure? ==> |records| >= 1 && records[|records| - 1].run.result == Failure(result.error))
    && (result.Success? ==>
          && |result.value| == |records|
          && forall j :: 0 <= j < |records| ==> Success(result.value[j]) == records[j].run.result)
  }

  lemma StoppedFailure(record: ChunkRecord, n: nat)
    requires n >= 1 && record.run.result.Failure?
    ensures Stopped(Failure(record.run.result.error), [record], n)
  {
    var records := [record];
    assert records[|records| - 1] == record;
    assert !records[0].run.result.Success?;
  }

  /** A chunk that succeeded, in front of a loop that ended well over the
      remaining chunks, gives a loop that ended well over one chunk more. */
  lemma StoppedStep(bytes: seq<byte>, record: ChunkRecord, r: (Result<seq<seq<byte>>>, seq<ChunkRecord>), n: nat)
    requires record.run.result == Success(bytes)
    requires Stopped(r.0, r.1, n)
    ensures Stopped(Behind([bytes], [record], r).0, Behind([bytes], [record], r).1, n + 1)
  {
    var more := r.1;
    var records := [record] + more;
    assert records == Behind([bytes], [record], r).1;
    assert records[0] == record;
    assert forall j :: 1 <= j < |records| ==> records[j] == more[j - 1];
    match r.0
    case Success(rest) =>
      var audio := [bytes] + rest;
      assert Behind([bytes], [record], r).0 == Success(audio);
      assert forall j :: 1 <= j < |audio| ==> audio[j] == rest[j - 1];
      assert forall j :: 0 <= j < |records| ==> records[j].run.result.Success?;
      assert forall j :: 0 <= j < |records| ==> Success(audio[j]) == records[j].run.result;
    case Failure(m) =>
      assert Behind([bytes], [record], r).0 == Failure(m);
      assert records[|records| - 1] == more[|more| - 1];
  }

  /** The loop from chunk i ends as `Stopped` describes over the remaining
      chunks. */
  lemma {:induction false} SynthesisStops(chunks: seq<string>, call: (nat, nat) -> CallOutcome, i: nat)
    requires i <= |chunks|
    ensures Stopped(SynthesizeFrom(chunks, call, i).0, SynthesizeFrom(chunks, call, i).1, |chunks| - i)
    decreases |chunks| - i
  {
    if i < |chunks| {
      var run := Retry(ChunkCall(call, i), DefaultRetries);
      var record := ChunkRecord(i + 1, |chunks|, if i > 0 then InterChunkDelayMs else 0, chunks[i], run);
      match run.result
      case Failure(_) =>
        StoppedFailure(record, |chunks| - i);
      case Success(bytes) =>
        SynthesisStops(chunks, call, i + 1);
        var next := SynthesizeFrom(chunks, call, i + 1);
        assert SynthesizeFrom(chunks, call, i) == Behind([bytes], [record], next);
        StoppedStep(bytes, record, next, |chunks| - i - 1);
    }
  }

  /** A text that needs no chunks is never sent: empty text gives empty
      audio after no request and no progress report. */
  lemma EmptyTextNoRequests(call: (nat, nat) -> CallOutcome)
    ensures LongTextSpeech("", call) == ([], Success([]), [])
  {
    SpeechChunker.ChunkBounds("");
  }

  /** The whole pipeline: the chunks are the chunker's, one record per chunk
      reached, in chunk order, with its progress report and pause. */
  lemma LongTextSpeechShape(text: string, call: (nat, nat) -> CallOutcome)
    ensures var r := LongTextSpeech(text, call);
      && SpeechChunker.Join(r.0) == text
      && |r.2| <= |r.0|
      && (forall j :: 0 <= j < |r.2| ==>
            && r.2[j].text == r.0[j]
            && r.2[j].progress == j + 1
            && r.2[j].total == |r.0|
            && r.2[j].pauseMs == (if j == 0 then 0 else InterChunkDelayMs))
  {
    var chunks := SpeechChunker.Chunks(text);
    SpeechChunker.ChunksRoundTrip(text);
    SynthesisOrder(chunks, call, 0);
    var records := SynthesizeFrom(chunks, call, 0).1;
    ReportedFromStart(chunks, call, records);
    assert LongTextSpeech(text, call).0 == chunks && LongTextSpeech(text, call).2 == records;
  }

  lemma ReportedFromStart(chunks: seq<string>, call: (nat, nat) -> CallOutcome, records: seq<ChunkRecord>)
    requires |records| <= |chunks|
    requires forall j :: 0 <= j < |records| ==>
      records[j] == ChunkRecord(0 + j + 1, |chunks|, if 0 + j > 0 then InterChunkDelayMs else 0,
                                chunks[0 + j], Retry(ChunkCall(call, 0 + j), DefaultRetries))
    ensures forall j :: 0 <= j < |records| ==>
      && records[j].text == chunks[j]
      && records[j].progress == j + 1
      && records[j].total == |chunks|
      && records[j].pauseMs == (if j == 0 then 0 else InterChunkDelayMs)
  {
  }

  /** The pipeline succeeds exactly when every chunk was reached and
      succeeded. A failure leaves no audio at all, only the error of the
      chunk whose three attempts all failed. On success the audio is every
      chunk's audio laid end to end, chunk j occupying the bytes after the
      earlier chunks' bytes. */
  lemma LongTextSpeechOutcome(text: string, call: (nat, nat) -> CallOutcome)
    ensures var r := LongTextSpeech(text, call);
      PipelineOutcome(r.0, r.1, r.2)
  {
    var chunks := SpeechChunker.Chunks(text);
    SynthesisStops(chunks, call, 0);
    var loop := SynthesizeFrom(chunks, call, 0);
    StoppedOutcome(chunks, loop.0, loop.1);
  }

  /** What the pipeline's audio or error says about its records. */
  ghost predicate PipelineOutcome(chunks: seq<string>, audio: Result<seq<byte>>, records: seq<ChunkRecord>)
  {
    && (audio.Failure? ==> |records| >= 1 && records[|records| - 1].run.result == Failure(audio.error))
    && (audio.Success? <==> |records| == |chunks| && forall j :: 0 <= j < |records| ==> records[j].run.result.Success?)
    && (audio.Success? ==> exists parts: seq<seq<byte>> ::
          && |parts| == |records|
          && audio.value == Flatten(parts)
          && (forall j :: 0 <= j < |parts| ==> Success(parts[j]) == records[j].run.result)
          && |audio.value| == TotalLength(parts))
  }

  lemma StoppedOutcome(chunks: seq<string>, result: Result<seq<seq<byte>>>, records: seq<ChunkRecord>)
    requires Stopped(result, records, |chunks|)
    ensures PipelineOutcome(chunks, Concatenated(result), records)
  {
    if result.Success? {
      FlattenLength(result.value);
    }
  }
}
