/**
 * The RL optimisation panel of components/AnalysisPanel.tsx: the salvage of
 * partial episodes from the text streamed so far, and the reset, stream and
 * commit sequence of handleRLOptimization over the panel's state.
 */
module RlPanelState {
  import opened Wrappers
  import opened Text
  import opened JsonValue
  import opened Patterns
  import opened TaggedBlocks
  import opened ErrorMapping
  import opened Streams

  const LogLimit: nat := 500
  const PieceSeparator: string := "},"
  const InitialLog: string := "Initializing Environment..."
  const CriticalPrefix: string := "Critical Error: "

  /** `text.slice(-500)`: the last 500 characters, or all of a shorter text. */
  function LogTail(text: string): (r: string)
    ensures |r| == if |text| < LogLimit then |text| else LogLimit
    ensures EndsWith(text, r)
  {
    if |text| <= LogLimit then text else text[|text| - LogLimit..]
  }

  /** `s` with a `}` appended unless it already ends with one. */
  function Braced(s: string): (r: string)
    ensures EndsWith(r, "}")
    ensures r == s || r == s + "}"
    ensures EndsWith(s, "}") <==> r == s
  {
    if EndsWith(s, "}") then s else s + "}"
  }

  /** The braces of `Braced(s)` are those of `s`. */
  lemma BracedKeepsBraces(s: string)
    ensures forall i :: 0 <= i < |Braced(s)| ==> (Braced(s)[i] == '{' <==> i < |s| && s[i] == '{')
  {
  }

  /** An occurrence of "{" is a `{` character. */
  lemma BraceOccurrences(b: string)
    ensures forall i :: 0 <= i < |b| ==> (OccursAt(b, i, "{") <==> b[i] == '{')
  {
    forall i | 0 <= i < |b|
      ensures OccursAt(b, i, "{") <==> b[i] == '{'
    {
      assert b[i..i + 1] == [b[i]];
    }
  }

  /**
   * One piece of the split capture, made ready for parsing: trimmed, dropped
   * when blank, closed with `}`, and cut to start at its first `{` (dropped
   * when it has none).
   */
  function NormalizePiece(chunk: string): (r: Option<string>)
    ensures r.None? <==> Lacks(Trim(chunk), '{')
    ensures r.Some? ==> |r.value| >= 2 && r.value[0] == '{' && r.value[|r.value| - 1] == '}'
  {
    var t := Trim(chunk);
    FromFirstBrace(t)
  }

  /**
   * The steps of NormalizePiece after the trim: a blank piece, and a piece
   * with no `{`, is dropped; a kept piece starts with `{` and ends with `}`.
   */
  function FromFirstBrace(s: string): (r: Option<string>)
    ensures r.None? <==> Lacks(s, '{')
    ensures r.Some? ==> |r.value| >= 2 && r.value[0] == '{' && r.value[|r.value| - 1] == '}'
  {
    if s == "" then None
    else
      var b := Braced(s);
      BracedKeepsBraces(s);
      BraceOccurrences(b);
      if StartsWith(b, "{") then
        assert b[0] == '{' && s[0] == '{';
        Some(b)
      else
        match Find(b, "{", 0)
        case None =>
          assert forall i :: 0 <= i < |s| ==> s[i] != '{';
          None
        case Some(i) =>
          assert b[i] == '{' && s[i] == '{';
          Some(b[i..])
  }

  /** The piece is cut exactly at its first `{`: what is dropped holds none. */
  lemma NormalizePieceCutsAtFirstBrace(chunk: string)
    requires NormalizePiece(chunk).Some?
    ensures var b := Braced(Trim(chunk));
      exists k :: 0 <= k < |b| && NormalizePiece(chunk).value == b[k..] && forall j :: 0 <= j < k ==> b[j] != '{'
  {
    var b := Braced(Trim(chunk));
    BraceOccurrences(b);
    if StartsWith(b, "{") {
      assert NormalizePiece(chunk).value == b[0..];
    } else {
      var i := Find(b, "{", 0).value;
      assert NormalizePiece(chunk).value == b[i..];
    }
  }

  /** `JSON.parse(s)` of a normalised piece, null when it is dropped or does not parse. */
  function ParsePiece(chunk: string, parse: string -> Option<Json>): (r: Option<Json>)
    ensures Lacks(Trim(chunk), '{') ==> r.None?
    ensures NormalizePiece(chunk).Some? ==> r == parse(NormalizePiece(chunk).value)
  {
    match NormalizePiece(chunk)
    case None => None
    case Some(s) => parse(s)
  }

  /** A piece's contribution: its parse, when there is one and it is truthy. */
  function Survives(chunk: string, parse: string -> Option<Json>): (r: seq<Json>)
    ensures |r| <= 1
    ensures r != [] ==> ParsePiece(chunk, parse) == Some(r[0]) && Truthy(r[0])
    ensures ParsePiece(chunk, parse).Some? && Truthy(ParsePiece(chunk, parse).value) ==> r == [ParsePiece(chunk, parse).value]
  {
    match ParsePiece(chunk, parse)
    case Some(v) => if Truthy(v) then [v] else []
    case None => []
  }

  /** The pieces that survive `map(...).filter(Boolean)`, in order. */
  function Survivors(pieces: seq<string>, parse: string -> Option<Json>): (r: seq<Json>)
    ensures |r| <= |pieces|
    ensures forall i :: 0 <= i < |r| ==> Truthy(r[i])
    decreases |pieces|
  {
    if pieces == [] then [] else Survives(pieces[0], parse) + Survivors(pieces[1..], parse)
  }

  /** Pieces are parsed independently: the survivors of a concatenation are the survivors of each part, in order. */
  lemma {:induction false} SurvivorsAppend(a: seq<string>, b: seq<string>, parse: string -> Option<Json>)
    ensures Survivors(a + b, parse) == Survivors(a, parse) + Survivors(b, parse)
    decreases |a|
  {
    if a == [] {
      assert a + b == b;
    } else {
      assert (a + b)[0] == a[0] && (a + b)[1..] == a[1..] + b;
      SurvivorsAppend(a[1..], b, parse);
    }
  }

  /** A piece that survives on its own is kept in the survivors of the list. */
  lemma {:induction false} SurvivorsKeep(pieces: seq<string>, parse: string -> Option<Json>, i: nat)
    requires i < |pieces| && Survives(pieces[i], parse) != []
    ensures Survives(pieces[i], parse)[0] in Survivors(pieces, parse)
    decreases i
  {
    var head := Survives(pieces[0], parse);
    var rest := Survivors(pieces[1..], parse);
    assert Survivors(pieces, parse) == head + rest;
    if i > 0 {
      assert pieces[1..][i - 1] == pieces[i];
      SurvivorsKeep(pieces[1..], parse, i - 1);
    }
  }

  /** Every piece whose parse is truthy is kept. */
  lemma SurvivorsKeepTruthy(pieces: seq<string>, parse: string -> Option<Json>, i: nat)
    requires i < |pieces|
    requires ParsePiece(pieces[i], parse).Some? && Truthy(ParsePiece(pieces[i], parse).value)
    ensures ParsePiece(pieces[i], parse).value in Survivors(pieces, parse)
  {
    assert Survives(pieces[i], parse) == [ParsePiece(pieces[i], parse).value];
    SurvivorsKeep(pieces, parse, i);
  }

  /**
   * The onChunk salvage: the episodes parsed from the lazily matched
   * `"iterations"` array of the text so far, or the previous list when there
   * is no match or no piece survives.
   */
  function SalvagePartial(text: string, parse: string -> Option<Json>, prev: seq<Json>): (r: seq<Json>)
    ensures r == prev || (r != [] && forall i :: 0 <= i < |r| ==> Truthy(r[i]))
    ensures Search(IterationsArray, text, 0).None? ==> r == prev
  {
    match Search(IterationsArray, text, 0)
    case None => prev
    case Some(h) =>
      var valid := Survivors(Split(text[h.lo..h.hi], PieceSeparator), parse);
      if |valid| > 0 then valid else prev
  }

  /** The salvage of a text whose "iterations" array is found at `h`. */
  lemma SalvageOfHit(text: string, parse: string -> Option<Json>, prev: seq<Json>, h: Hit)
    requires Search(IterationsArray, text, 0) == Some(h)
    ensures h.lo <= h.hi <= |text|
    ensures var valid := Survivors(Split(text[h.lo..h.hi], PieceSeparator), parse);
      SalvagePartial(text, parse, prev) == if |valid| > 0 then valid else prev
  {
  }

  /** The previous list is kept exactly when nothing survives from the text; otherwise the survivors replace it. */
  lemma SalvageKeepsPrevious(text: string, parse: string -> Option<Json>, prev: seq<Json>)
    ensures var found := SalvagePartial(text, parse, []);
      SalvagePartial(text, parse, prev) == if found == [] then prev else found
  {
    match Search(IterationsArray, text, 0)
    case None =>
    case Some(h) =>
      SalvageOfHit(text, parse, prev, h);
      SalvageOfHit(text, parse, [], h);
  }

  /** A piece of the captured array that parses to a truthy value replaces the previous list. */
  lemma SalvageReplacesWhenFound(text: string, parse: string -> Option<Json>, prev: seq<Json>, h: Hit, i: nat)
    requires Search(IterationsArray, text, 0) == Some(h)
    requires h.lo <= h.hi <= |text| && i < |Split(text[h.lo..h.hi], PieceSeparator)|
    requires var piece := Split(text[h.lo..h.hi], PieceSeparator)[i];
      ParsePiece(piece, parse).Some? && Truthy(ParsePiece(piece, parse).value)
    ensures SalvagePartial(text, parse, prev) == Survivors(Split(text[h.lo..h.hi], PieceSeparator), parse)
    ensures SalvagePartial(text, parse, prev) != []
  {
    SurvivorsKeepTruthy(Split(text[h.lo..h.hi], PieceSeparator), parse, i);
    SalvageOfHit(text, parse, prev, h);
  }

  /** The lazy array pattern needs a closing `]`: before one arrives, the previous list stays. */
  lemma SalvageWaitsForBracket(text: string, parse: string -> Option<Json>, prev: seq<Json>)
    requires Lacks(text, ']')
    ensures SalvagePartial(text, parse, prev) == prev
  {
    if Search(IterationsArray, text, 0).Some? {
      assert false;
    }
  }

  /** The episodes the callback salvages from one snapshot, empty when there are none. */
  method SalvageEpisodes(text: string, parse: string -> Option<Json>) returns (valid: seq<Json>)
    ensures valid == SalvagePartial(text, parse, [])
  {
    valid := [];
    var iterationsMatch := Search(IterationsArray, text, 0);
    if iterationsMatch.Some? {
      var h := iterationsMatch.value;
      SalvageOfHit(text, parse, [], h);
      var rawContent := text[h.lo..h.hi];
      var chunks := Split(rawContent, PieceSeparator);
      valid := Survivors(chunks, parse);
    }
  }

  /**
   * The salvage reads nothing but the captured array text: split on `},`,
   * the pieces rejoin to exactly that text, and none contains the separator.
   */
  lemma SalvagePiecesCoverCapture(text: string)
    requires Search(IterationsArray, text, 0).Some?
    ensures var h := Search(IterationsArray, text, 0).value;
      var pieces := Split(text[h.lo..h.hi], PieceSeparator);
      && Join(pieces, PieceSeparator) == text[h.lo..h.hi]
      && forall i :: 0 <= i < |pieces| ==> Find(pieces[i], PieceSeparator, 0).None?
  {
    var h := Search(IterationsArray, text, 0).value;
    SplitJoin(text[h.lo..h.hi], PieceSeparator);
    SplitPiecesFree(text[h.lo..h.hi], PieceSeparator);
  }

  /** The partial list after the callback has seen each snapshot in turn, from `start`. */
  function ReplaySalvage(snapshots: seq<string>, parse: string -> Option<Json>, start: seq<Json>): seq<Json>
    decreases |snapshots|
  {
    if snapshots == [] then start
    else SalvagePartial(snapshots[|snapshots| - 1], parse, ReplaySalvage(snapshots[..|snapshots| - 1], parse, start))
  }

  /** Replaying one more snapshot salvages from it, over the list the earlier ones left. */
  lemma ReplayStep(snapshots: seq<string>, k: nat, parse: string -> Option<Json>, start: seq<Json>)
    requires k < |snapshots|
    ensures ReplaySalvage(snapshots[..k + 1], parse, start) == SalvagePartial(snapshots[k], parse, ReplaySalvage(snapshots[..k], parse, start))
  {
    assert snapshots[..k + 1][..k] == snapshots[..k];
  }

  /** Starting from the cleared list, the partial list only ever holds truthy parsed episodes. */
  lemma {:induction false} ReplayHoldsTruthy(snapshots: seq<string>, parse: string -> Option<Json>)
    ensures forall i :: 0 <= i < |ReplaySalvage(snapshots, parse, [])| ==> Truthy(ReplaySalvage(snapshots, parse, [])[i])
    decreases |snapshots|
  {
    if snapshots != [] {
      ReplayHoldsTruthy(snapshots[..|snapshots| - 1], parse);
    }
  }

  /** The log after the callback has seen the snapshots. */
  function LogAfter(snapshots: seq<string>): string {
    if snapshots == [] then InitialLog else LogTail(snapshots[|snapshots| - 1])
  }

  /** What the episode list shows. */
  datatype Rows = Committed(episodes: seq<Episode>) | Partial(items: seq<Json>)

  /** The RL state of the panel: the four state hooks handleRLOptimization updates. */
  class RlPanel {
    var isRlLoading: bool
    var rlLog: string
    var partialEpisodes: seq<Json>
    var rlResult: Option<OptimizationReport>

    constructor()
      ensures !isRlLoading && rlLog == "" && partialEpisodes == [] && rlResult == None
    {
      isRlLoading := false;
      rlLog := "";
      partialEpisodes := [];
      rlResult := None;
    }

    /** The episode list: the committed iterations when there are any, otherwise the partial list. */
    function Displayed(): (r: Rows)
      reads this
      ensures rlResult.Some? && |rlResult.value.iterations| > 0 <==> r.Committed?
      ensures r.Committed? ==> r.episodes == rlResult.value.iterations
      ensures r.Partial? ==> r.items == partialEpisodes
    {
      if rlResult.Some? && |rlResult.value.iterations| > 0 then Committed(rlResult.value.iterations)
      else Partial(partialEpisodes)
    }

    /** The streaming callback: show the tail of the text and salvage partial episodes from it. */
    method OnChunk(text: string, parse: string -> Option<Json>)
      modifies this
      ensures rlLog == LogTail(text)
      ensures partialEpisodes == SalvagePartial(text, parse, old(partialEpisodes))
      ensures isRlLoading == old(isRlLoading) && rlResult == old(rlResult)
    {
      rlLog := LogTail(text);
      var valid := SalvageEpisodes(text, parse);
      SalvageKeepsPrevious(text, parse, partialEpisodes);
      if |valid| > 0 {
        partialEpisodes := valid;
      }
    }

    /** The callback applied to each snapshot of the stream in turn. */
    method ReceiveSnapshots(snapshots: seq<string>, parse: string -> Option<Json>)
      modifies this
      ensures rlLog == if snapshots == [] then old(rlLog) else LogTail(snapshots[|snapshots| - 1])
      ensures partialEpisodes == ReplaySalvage(snapshots, parse, old(partialEpisodes))
      ensures isRlLoading == old(isRlLoading) && rlResult == old(rlResult)
    {
      ghost var log0 := rlLog;
      ghost var start := partialEpisodes;
      for k := 0 to |snapshots|
        invariant rlLog == if k == 0 then log0 else LogTail(snapshots[k - 1])
        invariant partialEpisodes == ReplaySalvage(snapshots[..k], parse, start)
        invariant isRlLoading == old(isRlLoading) && rlResult == old(rlResult)
      {
        ReplayStep(snapshots, k, parse, start);
        OnChunk(snapshots[k], parse);
      }
      assert snapshots[..|snapshots|] == snapshots;
    }

    /**
     * handleRLOptimization: nothing without code; otherwise reset, stream
     * with the callback, then commit the result or log the error, and stop
     * loading in every case.
     */
    method HandleRlOptimization(code: string, apiKey: string, chunks: seq<string>, failure: Option<ErrorInfo>, parse: string -> Option<Json>)
      modifies this
      ensures code == "" ==> unchanged(this)
      ensures code != "" ==> !isRlLoading
      ensures code != "" && OptimizationResult(apiKey, chunks, failure).Success? ==>
        && rlResult == Some(OptimizationResult(apiKey, chunks, failure).value) && partialEpisodes == []
        && rlLog == LogAfter(OptimizationSnapshots(apiKey, chunks))
      ensures code != "" && OptimizationResult(apiKey, chunks, failure).Failure? ==>
        && rlResult == None && rlLog == CriticalPrefix + OptimizationResult(apiKey, chunks, failure).error
        && partialEpisodes == ReplaySalvage(OptimizationSnapshots(apiKey, chunks), parse, [])
      ensures code != "" && apiKey == "" ==>
        rlResult == None && partialEpisodes == [] && rlLog == CriticalPrefix + MissingKeyError
    {
      if code == "" {
        return;
      }
      isRlLoading := true;
      rlLog := InitialLog;
      partialEpisodes := [];
      rlResult := None;
      var snapshots, optimization := OptimizeModelWithRl(apiKey, chunks, failure);
      ReceiveSnapshots(snapshots, parse);
      Settle(optimization);
    }

    /** After the stream: commit the result and clear the partial list, or log the error; loading ends. */
    method Settle(optimization: Result<OptimizationReport>)
      modifies this
      ensures !isRlLoading
      ensures optimization.Success? ==>
        rlResult == Some(optimization.value) && partialEpisodes == [] && rlLog == old(rlLog)
      ensures optimization.Failure? ==>
        && rlResult == old(rlResult) && partialEpisodes == old(partialEpisodes)
        && rlLog == CriticalPrefix + optimization.error
    {
      if optimization.Success? {
        rlResult := Some(optimization.value);
        partialEpisodes := [];
      } else {
        rlLog := CriticalPrefix + optimization.error;
      }
      isRlLoading := false;
    }
  }

  /**
   * After a successful run the list shows the committed iterations, or an
   * empty partial list when the run produced none: partial episodes never
   * outlive a committed result.
   */
  lemma CommittedRunDisplay(p: RlPanel, report: OptimizationReport)
    requires p.rlResult == Some(report) && p.partialEpisodes == []
    ensures p.Displayed() == if |report.iterations| > 0 then Committed(report.iterations) else Partial([])
  {
  }
}
