/**
 * The stream loops of analyzeModelCode and of runStream in
 * optimizeModelWithRL (services/geminiService.ts). A response stream is the
 * sequence of chunk texts it delivers (an absent `chunk.text` is ""); a
 * transport or SDK failure is an ErrorInfo raised after the chunks
 * delivered so far. The progress and chunk callbacks become the sequence of
 * values they are called with.
 */
module Streams {
  import opened Wrappers
  import opened Text
  import opened JsonValue
  import opened RobustDecoder
  import opened TaggedBlocks
  import opened ErrorMapping

  const NoResponse: string := "No response generated from Gemini API."
  const InvalidFormat: string := "Invalid response format from AI"
  /** "API_KEY is missing. Please set the API_KEY environment variable." */
  const MissingKeyError: string := MissingKey + ". Please set the API_KEY environment variable."

  /**
   * getAiClient: the error it throws when `process.env.API_KEY` is unset or
   * empty (both are the empty text here), and nothing otherwise.
   */
  function ClientError(apiKey: string): (r: Option<ErrorInfo>)
    ensures r.Some? <==> apiKey == ""
    ensures r.Some? ==> r.value == Plain(MissingKeyError)
  {
    if apiKey == "" then Some(Plain(MissingKeyError)) else None
  }

  /** The missing-key error carries the marker the analysis classifier rethrows unchanged. */
  lemma MissingKeyMarked()
    ensures MessageIncludes(Plain(MissingKeyError), MissingKey)
  {
    assert MissingKeyError[..|MissingKey|] == MissingKey;
    assert OccursAt(MissingKeyError, 0, MissingKey);
  }

  /** The analysis loop appends every non-empty chunk. */
  predicate NonEmpty(chunk: string) {
    chunk != ""
  }

  /** `/^0+$/`: one or more `0` and nothing else. */
  predicate AllZeros(chunk: string) {
    chunk != [] && forall i :: 0 <= i < |chunk| ==> chunk[i] == '0'
  }

  /** The optimisation loop appends a non-empty chunk unless it is a run of more than 20 zeros. */
  predicate KeptChunk(chunk: string)
    ensures KeptChunk(chunk) <==> chunk != "" && (|chunk| <= 20 || exists i :: 0 <= i < |chunk| && chunk[i] != '0')
  {
    chunk != "" && !(|chunk| > 20 && AllZeros(chunk))
  }

  /** `fullText` after the loop: the kept chunks, in order. */
  function Accumulated(chunks: seq<string>, keep: string -> bool): string
    decreases |chunks|
  {
    if chunks == [] then ""
    else
      var last := chunks[|chunks| - 1];
      Accumulated(chunks[..|chunks| - 1], keep) + (if keep(last) then last else "")
  }

  /** The values of `fullText` the callback sees: one after each kept chunk. */
  function Snapshots(chunks: seq<string>, keep: string -> bool): seq<string>
    decreases |chunks|
  {
    if chunks == [] then []
    else
      var last := chunks[|chunks| - 1];
      Snapshots(chunks[..|chunks| - 1], keep) + (if keep(last) then [Accumulated(chunks, keep)] else [])
  }

  /** Every kept chunk is non-empty. */
  ghost predicate KeepsOnlyNonEmpty(keep: string -> bool) {
    forall c :: keep(c) ==> c != ""
  }

  /**
   * The text only grows: each snapshot is a proper prefix of every later one,
   * and the last is the final text. (Without snapshots the final text is empty.)
   */
  lemma {:induction false} SnapshotsGrow(chunks: seq<string>, keep: string -> bool)
    requires KeepsOnlyNonEmpty(keep)
    ensures var ss := Snapshots(chunks, keep);
      && (forall i, j :: 0 <= i < j < |ss| ==> ss[i] < ss[j])
      && (ss != [] ==> ss[|ss| - 1] == Accumulated(chunks, keep))
      && (ss == [] ==> Accumulated(chunks, keep) == "")
    decreases |chunks|
  {
    if chunks != [] {
      var init := chunks[..|chunks| - 1];
      var last := chunks[|chunks| - 1];
      SnapshotsGrow(init, keep);
      var prev := Snapshots(init, keep);
      var acc := Accumulated(chunks, keep);
      if keep(last) {
        var ss := prev + [acc];
        assert acc == Accumulated(init, keep) + last && last != "";
        forall i, j | 0 <= i < j < |ss|
          ensures ss[i] < ss[j]
        {
          if j == |ss| - 1 {
            if prev != [] {
              assert prev[i] <= prev[|prev| - 1];
            }
            assert Accumulated(init, keep) < acc;
          } else {
            assert ss[i] == prev[i] && ss[j] == prev[j];
          }
        }
        assert Snapshots(chunks, keep) == ss;
      } else {
        assert Snapshots(chunks, keep) == prev && acc == Accumulated(init, keep);
      }
    }
  }

  /** Every earlier value of the text is a prefix of the final one. */
  lemma {:induction false} AccumulatedPrefix(chunks: seq<string>, k: nat, keep: string -> bool)
    requires k <= |chunks|
    ensures Accumulated(chunks[..k], keep) <= Accumulated(chunks, keep)
    decreases |chunks| - k
  {
    if k < |chunks| {
      AccumulatedPrefix(chunks, k + 1, keep);
      assert chunks[..k + 1][..k] == chunks[..k];
    } else {
      assert chunks[..k] == chunks;
    }
  }

  /** The lengths of a sequence of texts. */
  function Lengths(ss: seq<string>): (ns: seq<nat>)
    ensures |ns| == |ss| && forall i :: 0 <= i < |ss| ==> ns[i] == |ss[i]|
  {
    seq(|ss|, i requires 0 <= i < |ss| => |ss[i]|)
  }

  /**
   * The accumulation loop of analyzeModelCode: the non-empty chunks are
   * concatenated and the length so far is reported after each.
   */
  method AccumulateAnalysis(chunks: seq<string>) returns (fullText: string, progress: seq<nat>)
    ensures fullText == Accumulated(chunks, NonEmpty)
    ensures progress == Lengths(Snapshots(chunks, NonEmpty))
  {
    fullText := "";
    progress := [];
    for k := 0 to |chunks|
      invariant fullText == Accumulated(chunks[..k], NonEmpty)
      invariant progress == Lengths(Snapshots(chunks[..k], NonEmpty))
    {
      assert chunks[..k + 1][..k] == chunks[..k];
      var text := chunks[k];
      if text != "" {
        fullText := fullText + text;
        progress := progress + [|fullText|];
      }
    }
    assert chunks[..|chunks|] == chunks;
  }

  /** Reported progress strictly increases and ends at the length of the final text. */
  lemma ProgressIncreases(chunks: seq<string>)
    ensures var ps := Lengths(Snapshots(chunks, NonEmpty));
      && (forall i, j :: 0 <= i < j < |ps| ==> ps[i] < ps[j])
      && (ps != [] ==> ps[|ps| - 1] == |Accumulated(chunks, NonEmpty)|)
  {
    SnapshotsGrow(chunks, NonEmpty);
  }

  /**
   * The accumulation loop of runStream: like the analysis loop, but a chunk of
   * more than 20 zeros is skipped, and the callback receives the whole text so far.
   */
  method AccumulateOptimization(chunks: seq<string>) returns (fullText: string, snapshots: seq<string>)
    ensures fullText == Accumulated(chunks, KeptChunk)
    ensures snapshots == Snapshots(chunks, KeptChunk)
  {
    fullText := "";
    snapshots := [];
    for k := 0 to |chunks|
      invariant fullText == Accumulated(chunks[..k], KeptChunk)
      invariant snapshots == Snapshots(chunks[..k], KeptChunk)
    {
      assert chunks[..k + 1][..k] == chunks[..k];
      var text := chunks[k];
      if text != "" {
        if |text| > 20 && AllZeros(text) {
          continue;
        }
        fullText := fullText + text;
        snapshots := snapshots + [fullText];
      }
    }
    assert chunks[..|chunks|] == chunks;
  }

  /** A run of zeros longer than 20 adds nothing to the text and triggers no callback. */
  lemma {:induction false} ZeroRunIgnored(chunks: seq<string>, z: string)
    requires |z| > 20 && AllZeros(z)
    ensures Accumulated(chunks + [z], KeptChunk) == Accumulated(chunks, KeptChunk)
    ensures Snapshots(chunks + [z], KeptChunk) == Snapshots(chunks, KeptChunk)
  {
    assert (chunks + [z])[..|chunks|] == chunks;
  }

  /** A chunk that is not a long zero run is appended and reported. */
  lemma ShortOrMixedChunkKept(chunks: seq<string>, c: string)
    requires c != "" && (|c| <= 20 || exists i :: 0 <= i < |c| && c[i] != '0')
    ensures Accumulated(chunks + [c], KeptChunk) == Accumulated(chunks, KeptChunk) + c
    ensures Snapshots(chunks + [c], KeptChunk) == Snapshots(chunks, KeptChunk) + [Accumulated(chunks, KeptChunk) + c]
  {
    assert (chunks + [c])[..|chunks|] == chunks;
  }

  /** The text after the stream and its checks: empty, undecodable and non-object results are errors. */
  function AnalysisOutcome(fullText: string, parse: string -> Option<Json>): (r: Result<Json>)
    ensures fullText == "" <==> r == Failure(NoResponse)
    ensures r.Success? ==> IsObjectLike(r.value) && Decode(fullText, parse) == r
    ensures r.Failure? ==> r.error in {NoResponse, InvalidFormat, Unrecoverable}
    ensures fullText != "" && Decode(fullText, parse).Success? && IsObjectLike(Decode(fullText, parse).value) ==>
      r == Decode(fullText, parse)
    ensures fullText != "" && Decode(fullText, parse).Success? && !IsObjectLike(Decode(fullText, parse).value) ==>
      r == Failure(InvalidFormat)
    ensures fullText != "" && Decode(fullText, parse).Failure? ==> r == Failure(Unrecoverable)
  {
    if fullText == "" then Failure(NoResponse)
    else
      match Decode(fullText, parse)
      case Failure(_) => Failure(Unrecoverable)
      case Success(v) => if IsObjectLike(v) then Success(v) else Failure(InvalidFormat)
  }

  /**
   * analyzeModelCode: building the client and streaming both happen inside
   * its `try`, so a missing key and a raised failure are both classified;
   * otherwise the outcome of the accumulated text, whose own errors pass
   * through the same classifier.
   */
  function AnalysisResult(apiKey: string, chunks: seq<string>, failure: Option<ErrorInfo>, parse: string -> Option<Json>): (r: Result<Json>)
    ensures r.Success? ==> apiKey != "" && failure.None? && IsObjectLike(r.value)
    ensures r.Success? ==> r == Decode(Accumulated(chunks, NonEmpty), parse)
  {
    match ClientError(apiKey)
    case Some(e) => Failure(ClassifyAnalysisError(e))
    case None =>
      match failure
      case Some(e) => Failure(ClassifyAnalysisError(e))
      case None =>
        match AnalysisOutcome(Accumulated(chunks, NonEmpty), parse)
        case Success(v) => Success(v)
        case Failure(m) => Failure(ClassifyAnalysisError(Plain(m)))
  }

  /** Without an API key the analysis rejects with the key error itself. */
  lemma MissingKeyAnalysis(chunks: seq<string>, failure: Option<ErrorInfo>, parse: string -> Option<Json>)
    ensures AnalysisResult("", chunks, failure, parse) == Failure(MissingKeyError)
  {
    MissingKeyMarked();
  }

  lemma NoResponseUnmarked()
    ensures Unmarked(NoResponse)
  {
  }

  lemma InvalidFormatUnmarked()
    ensures Unmarked(InvalidFormat)
  {
  }

  lemma UnrecoverableUnmarked()
    ensures Unmarked(Unrecoverable)
  {
  }

  /**
   * The errors the analysis raises itself reach the caller verbatim: the
   * classifier finds none of its markers in them.
   */
  lemma InternalErrorsPassThrough(apiKey: string, chunks: seq<string>, parse: string -> Option<Json>)
    requires apiKey != ""
    ensures AnalysisResult(apiKey, chunks, None, parse) == AnalysisOutcome(Accumulated(chunks, NonEmpty), parse)
  {
    var r := AnalysisOutcome(Accumulated(chunks, NonEmpty), parse);
    if r.Failure? {
      if r.error == NoResponse {
        NoResponseUnmarked();
      } else if r.error == InvalidFormat {
        InvalidFormatUnmarked();
      } else {
        UnrecoverableUnmarked();
      }
      UnmarkedMessagePassesThrough(r.error);
    }
  }

  /** A stream that delivers no text ends with "No response generated from Gemini API.". */
  lemma EmptyStreamFails(apiKey: string, chunks: seq<string>, parse: string -> Option<Json>)
    requires apiKey != ""
    requires forall i :: 0 <= i < |chunks| ==> chunks[i] == ""
    ensures AnalysisResult(apiKey, chunks, None, parse) == Failure(NoResponse)
  {
    EmptyChunksAccumulateNothing(chunks);
    InternalErrorsPassThrough(apiKey, chunks, parse);
  }

  /** Empty chunks are skipped, so a stream of them accumulates nothing. */
  lemma {:induction false} EmptyChunksAccumulateNothing(chunks: seq<string>)
    requires forall i :: 0 <= i < |chunks| ==> chunks[i] == ""
    ensures Accumulated(chunks, NonEmpty) == ""
    decreases |chunks|
  {
    if chunks != [] {
      EmptyChunksAccumulateNothing(chunks[..|chunks| - 1]);
    }
  }

  /**
   * analyzeModelCode: build the client, accumulate with progress, then decode
   * and check, classifying every error. Without a key no stream starts.
   */
  method AnalyzeModelCode(apiKey: string, chunks: seq<string>, failure: Option<ErrorInfo>, parse: string -> Option<Json>)
    returns (progress: seq<nat>, r: Result<Json>)
    ensures progress == if apiKey == "" then [] else Lengths(Snapshots(chunks, NonEmpty))
    ensures r == AnalysisResult(apiKey, chunks, failure, parse)
  {
    var clientError := ClientError(apiKey);
    if clientError.Some? {
      return [], Failure(ClassifyAnalysisError(clientError.value));
    }
    var fullText;
    fullText, progress := AccumulateAnalysis(chunks);
    if failure.Some? {
      return progress, Failure(ClassifyAnalysisError(failure.value));
    }
    if fullText != "" {
      var result := ParseJsonRobust(fullText, parse);
      if result.Failure? {
        return progress, Failure(ClassifyAnalysisError(Plain(result.error)));
      }
      if !IsObjectLike(result.value) {
        return progress, Failure(ClassifyAnalysisError(Plain(InvalidFormat)));
      }
      return progress, Success(result.value);
    }
    return progress, Failure(ClassifyAnalysisError(Plain(NoResponse)));
  }

  /** runStream: a raised failure is classified; otherwise the tagged text decodes without error. */
  function RlResult(chunks: seq<string>, failure: Option<ErrorInfo>): (r: Result<OptimizationReport>)
    ensures r.Success? <==> failure.None?
    ensures r.Success? ==> r.value.iterations == Episodes(Accumulated(chunks, KeptChunk))
    ensures r.Failure? ==> r.error == RlQuotaExceeded || StartsWith(r.error, RlFailurePrefix)
  {
    match failure
    case Some(e) => Failure(ClassifyRlError(e))
    case None => Success(DecodeTagged(Accumulated(chunks, KeptChunk)))
  }

  /** runStream: accumulate with snapshots, then parse the structured text. */
  method RunStream(chunks: seq<string>, failure: Option<ErrorInfo>)
    returns (snapshots: seq<string>, r: Result<OptimizationReport>)
    ensures snapshots == Snapshots(chunks, KeptChunk)
    ensures r == RlResult(chunks, failure)
  {
    var fullText;
    fullText, snapshots := AccumulateOptimization(chunks);
    if failure.Some? {
      return snapshots, Failure(ClassifyRlError(failure.value));
    }
    var result := ParseStructuredText(fullText);
    return snapshots, Success(result);
  }

  /**
   * optimizeModelWithRL: the client is built before runStream and outside
   * its `try`, so a missing key rejects with the raw key error, unclassified,
   * and no chunk is ever received.
   */
  function OptimizationResult(apiKey: string, chunks: seq<string>, failure: Option<ErrorInfo>): Result<OptimizationReport> {
    match ClientError(apiKey)
    case Some(e) => Failure(e.message.value)
    case None => RlResult(chunks, failure)
  }

  /** The texts the RL callback receives: none without a key, otherwise one per kept chunk. */
  function OptimizationSnapshots(apiKey: string, chunks: seq<string>): seq<string> {
    if apiKey == "" then [] else Snapshots(chunks, KeptChunk)
  }

  /**
   * Without an API key the RL run rejects with the key error itself, not with
   * the "Failed to run RL simulation: " message that runStream's classifier
   * would build from it.
   */
  lemma MissingKeyOptimization(chunks: seq<string>, failure: Option<ErrorInfo>)
    ensures OptimizationResult("", chunks, failure) == Failure(MissingKeyError)
    ensures OptimizationResult("", chunks, failure) != RlResult(chunks, Some(Plain(MissingKeyError)))
    ensures OptimizationSnapshots("", chunks) == []
  {
    var classified := ClassifyRlError(Plain(MissingKeyError));
    assert classified == RlQuotaExceeded || StartsWith(classified, RlFailurePrefix);
    assert classified[0] != 'A';
    assert MissingKeyError[0] == MissingKey[0] == 'A';
  }

  /** optimizeModelWithRL: build the client, then run the stream. */
  method OptimizeModelWithRl(apiKey: string, chunks: seq<string>, failure: Option<ErrorInfo>)
    returns (snapshots: seq<string>, r: Result<OptimizationReport>)
    ensures snapshots == OptimizationSnapshots(apiKey, chunks)
    ensures r == OptimizationResult(apiKey, chunks, failure)
  {
    var clientError := ClientError(apiKey);
    if clientError.Some? {
      return [], Failure(clientError.value.message.value);
    }
    snapshots, r := RunStream(chunks, failure);
  }

  /** Every snapshot the RL callback receives is a prefix of the text finally decoded. */
  lemma RlSnapshotsArePrefixes(chunks: seq<string>)
    ensures forall i :: 0 <= i < |Snapshots(chunks, KeptChunk)| ==>
      Snapshots(chunks, KeptChunk)[i] <= Accumulated(chunks, KeptChunk)
  {
    SnapshotsGrow(chunks, KeptChunk);
  }
}
