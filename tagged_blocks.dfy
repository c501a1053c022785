/**
 * The tagged-block decoder of optimizeModelWithRL (services/geminiService.ts):
 * after the stream ends, the accumulated text is read as closed
 * `<EPISODE>…</EPISODE>` records, the first `<FINAL_CODE>` block and the
 * first `<STATS>` block. Every regular expression is one of the scanners of
 * module Patterns.
 */
module TaggedBlocks {
  import opened Wrappers
  import opened Text
  import opened Patterns

  /** One simulated optimisation step (an element of RLOptimizationResult.iterations). */
  datatype Episode = Episode(episode: nat, action: string, reward: int, outcome: string)

  datatype FinalStats = FinalStats(securityGain: string, performanceImpact: string)

  /** RLOptimizationResult of types.ts. */
  datatype OptimizationReport = OptimizationReport(optimizedCode: string, iterations: seq<Episode>, finalStats: FinalStats)

  const EpisodeOpen: string := "<EPISODE>"
  const EpisodeClose: string := "</EPISODE>"
  const CodeOpen: string := "<FINAL_CODE>"
  const CodeClose: string := "</FINAL_CODE>"
  const StatsOpen: string := "<STATS>"
  const StatsClose: string := "</STATS>"
  const EpisodeBlock: Pattern := Block(EpisodeOpen, EpisodeClose)
  const CodeBlock: Pattern := Block(CodeOpen, CodeClose)
  const StatsBlock: Pattern := Block(StatsOpen, StatsClose)

  /** The labels of the fields inside the blocks. */
  const EpisodeKey: string := "Episode:"
  const ActionKey: string := "Action:"
  const RewardKey: string := "Reward:"
  const OutcomeKey: string := "Outcome:"
  const SecurityKey: string := "SecurityGain:"
  const ImpactKey: string := "PerformanceImpact:"

  const UnknownAction: string := "Unknown Action"
  const DefaultOutcome: string := "Processed"
  const UnknownStat: string := "Unknown"
  const IncompleteCode: string := "// Code generation incomplete or format error.\n// Check logs for partial output."

  /** The captured text of the first match: `s.match(pat)?.[1]`. */
  function Capture(pat: Pattern, s: string): Option<string> {
    match Search(pat, s, 0)
    case None => None
    case Some(h) => Some(s[h.lo..h.hi])
  }

  /** A text with no line break and no white space at either end. */
  predicate IsTrimmedLine(v: string) {
    && v != []
    && !IsSpace(v[0]) && !IsSpace(v[|v| - 1])
    && NoLineBreak(v)
  }

  /** A slice of a text without line breaks has none. */
  lemma SliceNoLineBreak(v: string, lo: nat, hi: nat)
    requires lo <= hi <= |v| && NoLineBreak(v)
    ensures NoLineBreak(v[lo..hi])
  {
    forall i | 0 <= i < hi - lo ensures !IsLineTerminator(v[lo..hi][i]) {
      assert v[lo..hi][i] == v[lo + i];
    }
  }

  /** Trimming a text without line breaks leaves none. */
  lemma TrimKeepsLine(v: string)
    requires NoLineBreak(v)
    ensures NoLineBreak(Trim(v))
  {
    var a := TrimStart(v);
    SliceNoLineBreak(v, |v| - |a|, |v|);
    var b := TrimEnd(a);
    SliceNoLineBreak(a, 0, |b|);
  }

  /**
   * `content.match(/<key>\s*(.*)/)?.[1]?.trim() || fallback`: the rest of the
   * line after the first `key`, trimmed, or the fallback when the key is
   * missing or the value blank.
   */
  function LineField(content: string, key: string, fallback: string): (r: string)
    ensures r == fallback || IsTrimmedLine(r)
    ensures Find(content, key, 0).None? ==> r == fallback
  {
    match Search(Field(key, RestOfLine), content, 0)
    case None => fallback
    case Some(h) =>
      SearchFieldCapture(key, RestOfLine, content, 0, h);
      LineCapture(content, h);
      TrimKeepsLine(content[h.lo..h.hi]);
      var t := Trim(content[h.lo..h.hi]);
      if t != "" then t else fallback
  }

  /** `parseInt(content.match(/Episode:\s*(\d+)/)?.[1] || "0")`. */
  function EpisodeNumber(content: string): (n: nat)
    ensures Find(content, EpisodeKey, 0).None? ==> n == 0
  {
    DigitsField(content, EpisodeKey)
  }

  /** The decimal value of the digits after the first `key` and white space, or 0 when no such field matches. */
  function DigitsField(content: string, key: string): (n: nat)
    ensures Find(content, key, 0).None? ==> n == 0
  {
    match Search(Field(key, Digits), content, 0)
    case None => 0
    case Some(h) =>
      SearchFieldCapture(key, Digits, content, 0, h);
      DigitsCapture(content, h);
      DigitsValue(content[h.lo..h.hi])
  }

  /** `parseInt(content.match(/Reward:\s*([+\-]?\d+)/)?.[1] || "0")`. */
  function RewardValue(content: string): (n: int)
    ensures Find(content, RewardKey, 0).None? ==> n == 0
  {
    SignedField(content, RewardKey)
  }

  /** parseInt of the optionally signed digits after the first `key` and white space, or 0 when no such field matches. */
  function SignedField(content: string, key: string): (n: int)
    ensures Find(content, key, 0).None? ==> n == 0
  {
    match Search(Field(key, SignedDigits), content, 0)
    case None => 0
    case Some(h) =>
      SearchFieldCapture(key, SignedDigits, content, 0, h);
      SignedDigitsCapture(content, h);
      var t := content[h.lo..h.hi];
      assert t[0] == content[h.lo] && t[1..] == content[h.lo + 1..h.hi];
      SignedDigitsValue(t)
  }

  /** parseInt of a `[+\-]?\d+` capture: an optional sign, then the decimal value of the digits. */
  function SignedDigitsValue(t: string): int
    requires t != [] && (if IsSign(t[0]) then AllDigits(t[1..]) else AllDigits(t))
  {
    if IsSign(t[0]) then
      var n: int := DigitsValue(t[1..]);
      if t[0] == '-' then -n else n
    else DigitsValue(t)
  }

  /** The record read from the body of one closed episode block, with the defaults for missing fields. */
  function ParseEpisode(content: string): (e: Episode)
    ensures Find(content, EpisodeKey, 0).None? ==> e.episode == 0
    ensures Find(content, ActionKey, 0).None? ==> e.action == UnknownAction
    ensures Find(content, RewardKey, 0).None? ==> e.reward == 0
    ensures Find(content, OutcomeKey, 0).None? ==> e.outcome == DefaultOutcome
    ensures e.action == UnknownAction || IsTrimmedLine(e.action)
    ensures e.outcome == DefaultOutcome || IsTrimmedLine(e.outcome)
  {
    Episode(EpisodeNumber(content),
            LineField(content, ActionKey, UnknownAction),
            RewardValue(content),
            LineField(content, OutcomeKey, DefaultOutcome))
  }

  /** The record of one block as the loop keeps it: ordinal 0 is dropped. */
  function Kept(e: Episode): (r: seq<Episode>)
    ensures r == [] || r == [e]
    ensures r != [] <==> e.episode >= 1
  {
    if e.episode > 0 then [e] else []
  }

  /**
   * The records of the closed blocks found from `from` on, in order, each
   * block body read by `read` (ParseEpisode for the decoder).
   */
  function EpisodesFrom(s: string, from: nat, read: string -> Episode): (r: seq<Episode>)
    requires from <= |s|
    ensures forall i :: 0 <= i < |r| ==> r[i].episode >= 1
    decreases |s| - from
  {
    match Search(EpisodeBlock, s, from)
    case None => []
    case Some(h) => Kept(read(s[h.lo..h.hi])) + EpisodesFrom(s, h.stop, read)
  }

  /** The records from `from` on, when the block search from `from` finds `h`. */
  lemma EpisodesFromUnfold(s: string, from: nat, h: Hit, read: string -> Episode)
    requires from <= |s|
    requires Search(EpisodeBlock, s, from) == Some(h)
    ensures from < h.stop <= |s|
    ensures EpisodesFrom(s, from, read) == Kept(read(s[h.lo..h.hi])) + EpisodesFrom(s, h.stop, read)
  {
  }

  /** One step of the `exec` loop: the record of the block found, if kept, then the records after it. */
  lemma EpisodesFromStep(s: string, from: nat, h: Hit, done: seq<Episode>, read: string -> Episode)
    requires from <= |s|
    requires Search(EpisodeBlock, s, from) == Some(h)
    ensures from < h.stop <= |s|
    ensures var e := read(s[h.lo..h.hi]);
      done + EpisodesFrom(s, from, read) == (if e.episode > 0 then done + [e] else done) + EpisodesFrom(s, h.stop, read)
  {
    var e := read(s[h.lo..h.hi]);
    var rest := EpisodesFrom(s, h.stop, read);
    EpisodesFromUnfold(s, from, h, read);
    if e.episode > 0 {
      assert done + ([e] + rest) == (done + [e]) + rest;
    } else {
      assert [] + rest == rest;
    }
  }

  /** The episode records of the whole text. */
  function Episodes(s: string): seq<Episode> {
    EpisodesFrom(s, 0, ParseEpisode)
  }

  /** A common first part keeps the prefix order. */
  lemma PrefixAfterCommonHead<T>(k: seq<T>, a: seq<T>, b: seq<T>)
    requires a <= b
    ensures k + a <= k + b
  {
    assert (k + b)[..|k + a|] == k + a;
  }

  /** Two texts whose block search from `from` finds the same block with the same body agree on its record. */
  lemma SameBlockSameHead(s: string, u: string, from: nat, h: Hit, read: string -> Episode)
    requires from <= |s| && from <= |u|
    requires Search(EpisodeBlock, s, from) == Some(h) && Search(EpisodeBlock, u, from) == Some(h)
    requires u[h.lo..h.hi] == s[h.lo..h.hi]
    ensures h.stop <= |s| && h.stop <= |u|
    ensures EpisodesFrom(s, from, read) == Kept(read(s[h.lo..h.hi])) + EpisodesFrom(s, h.stop, read)
    ensures EpisodesFrom(u, from, read) == Kept(read(s[h.lo..h.hi])) + EpisodesFrom(u, h.stop, read)
  {
    EpisodesFromUnfold(s, from, h, read);
    EpisodesFromUnfold(u, from, h, read);
  }

  /**
   * Streaming stability: the records read from the text received so far are
   * still read, first and unchanged, from any longer text.
   */
  lemma {:induction false} EpisodesStable(s: string, t: string, from: nat, read: string -> Episode)
    requires from <= |s|
    ensures EpisodesFrom(s, from, read) <= EpisodesFrom(s + t, from, read)
    decreases |s| - from
  {
    match Search(EpisodeBlock, s, from)
    case None =>
    case Some(h) =>
      BlockSearchExtend(EpisodeOpen, EpisodeClose, s, t, from);
      SliceOfAppend(s, t, h.lo, h.hi);
      SameBlockSameHead(s, s + t, from, h, read);
      EpisodesStable(s, t, h.stop, read);
      PrefixAfterCommonHead(Kept(read(s[h.lo..h.hi])), EpisodesFrom(s, h.stop, read), EpisodesFrom(s + t, h.stop, read));
  }

  /** No close tag of `s + t` ends past the end of `s`. */
  ghost predicate NoCloseBeyond(s: string, t: string) {
    forall i :: 0 <= i <= |s + t| && |s| < i + |EpisodeClose| ==> !OccursAt(s + t, i, EpisodeClose)
  }

  /** With no close tag beyond `s`, an index with no block match in `s` has none in `s + t`. */
  lemma EpisodeNoMatchUnclosedTail(s: string, t: string, p: nat)
    requires p <= |s|
    requires NoCloseBeyond(s, t)
    requires MatchAt(EpisodeBlock, s, p).None?
    ensures MatchAt(EpisodeBlock, s + t, p).None?
  {
    var m := MatchBlock(EpisodeOpen, EpisodeClose, s + t, p);
    if m.Some? {
      var h := m.value;
      assert h.hi + |EpisodeClose| <= |s|;
      assert (s + t)[p..p + |EpisodeOpen|] == s[p..p + |EpisodeOpen|];
      assert (s + t)[h.hi..h.hi + |EpisodeClose|] == s[h.hi..h.hi + |EpisodeClose|];
      assert OccursAt(s, p, EpisodeOpen) && OccursAt(s, h.hi, EpisodeClose);
      MatchBlockComplete(EpisodeOpen, EpisodeClose, s, p);
    }
  }

  /** With no close tag beyond `s`, no block starts past the end of `s`. */
  lemma NoBlockPastEnd(s: string, t: string, p: nat)
    requires |s| < p <= |s + t|
    requires NoCloseBeyond(s, t)
    ensures MatchAt(EpisodeBlock, s + t, p).None?
  {
  }

  /** With no close tag beyond `s`, the block search in `s + t` finds what it finds in `s`. */
  lemma EpisodeSearchUnclosedTail(s: string, t: string, from: nat)
    requires from <= |s|
    requires NoCloseBeyond(s, t)
    ensures Search(EpisodeBlock, s + t, from) == Search(EpisodeBlock, s, from)
  {
    if Search(EpisodeBlock, s, from).Some? {
      BlockSearchExtend(EpisodeOpen, EpisodeClose, s, t, from);
    } else {
      forall p | from <= p <= |s + t|
        ensures MatchAt(EpisodeBlock, s + t, p).None?
      {
        if p <= |s| {
          EpisodeNoMatchUnclosedTail(s, t, p);
        } else {
          NoBlockPastEnd(s, t, p);
        }
      }
    }
  }

  /**
   * An unterminated trailing block is never emitted: text appended after the
   * last close tag that brings no close tag of its own changes no record.
   */
  lemma {:induction false} UnterminatedTailIgnored(s: string, t: string, from: nat, read: string -> Episode)
    requires from <= |s|
    requires NoCloseBeyond(s, t)
    ensures EpisodesFrom(s + t, from, read) == EpisodesFrom(s, from, read)
    decreases |s| - from
  {
    EpisodeSearchUnclosedTail(s, t, from);
    match Search(EpisodeBlock, s, from)
    case None =>
    case Some(h) =>
      SliceOfAppend(s, t, h.lo, h.hi);
      SameBlockSameHead(s, s + t, from, h, read);
      UnterminatedTailIgnored(s, t, h.stop, read);
  }

  /** The decoder's records of a prefix of the stream are the first records of the whole stream. */
  lemma EpisodesOfPrefix(s: string, t: string)
    ensures Episodes(s) <= Episodes(s + t)
  {
    EpisodesStable(s, t, 0, ParseEpisode);
  }

  /** A trailing episode block whose close tag has not arrived adds no record. */
  lemma OpenTailAddsNothing(s: string, t: string)
    requires NoCloseBeyond(s, t)
    ensures Episodes(s + t) == Episodes(s)
  {
    UnterminatedTailIgnored(s, t, 0, ParseEpisode);
  }

  /** `.replace(/^```\w*\n/, '')`: an opening fence line with an optional language tag. */
  function StripFenceLine(c: string): string {
    if StartsWith(c, "```") then
      var e := SkipRun(c, 3, Word);
      if e < |c| && c[e] == '\n' then c[e + 1..] else c
    else c
  }

  /** `.replace(/\n```$/, '')`: a closing fence on its own line. */
  function StripFenceEnd(c: string): string {
    if EndsWith(c, "\n```") then c[..|c| - 4] else c
  }

  /** The final code: the block body trimmed, then a code fence stripped. */
  function CleanCode(capture: string): (c: string)
    ensures |c| <= |capture|
    ensures !StartsWith(Trim(capture), "```") && !EndsWith(Trim(capture), "\n```") ==> c == Trim(capture)
  {
    StripFenceEnd(StripFenceLine(Trim(capture)))
  }

  predicate AllWordChars(w: string) {
    forall i :: 0 <= i < |w| ==> IsWordChar(w[i])
  }

  /** An opening fence line with a word-character language tag is removed. */
  lemma FenceLineStripped(lang: string, rest: string)
    requires AllWordChars(lang)
    ensures StripFenceLine("```" + lang + "\n" + rest) == rest
  {
    var c := "```" + lang + "\n" + rest;
    assert StartsWith(c, "```");
    assert forall i :: 0 <= i < |lang| ==> c[3 + i] == lang[i];
    assert c[3 + |lang|] == '\n';
    var e := SkipRun(c, 3, Word);
    assert e == 3 + |lang|;
    assert c[e + 1..] == rest;
  }

  /** A closing fence on its own line is removed. */
  lemma FenceEndStripped(code: string)
    ensures StripFenceEnd(code + "\n```") == code
  {
    var u := code + "\n```";
    assert u[|u| - 4..] == "\n```";
    assert u[..|u| - 4] == code;
  }

  /** Code the model wrapped in a fence, with any language tag, comes back exactly. */
  lemma CodeFenceRoundTrip(lang: string, code: string)
    requires AllWordChars(lang)
    ensures CleanCode("```" + lang + "\n" + code + "\n```") == code
  {
    var c := "```" + lang + "\n" + code + "\n```";
    assert c[0] == '`' && c[|c| - 1] == '`';
    TrimUntouched(c);
    assert c == "```" + lang + "\n" + (code + "\n```");
    FenceLineStripped(lang, code + "\n```");
    FenceEndStripped(code);
  }

  /** The code of the first closed `<FINAL_CODE>` block, or the placeholder without one. */
  function FinalCode(s: string): (r: string)
    ensures Search(CodeBlock, s, 0).None? ==> r == IncompleteCode
  {
    match Capture(CodeBlock, s)
    case Some(c) => CleanCode(c)
    case None => IncompleteCode
  }

  /** The two stats lines of the first closed `<STATS>` block, "Unknown" when absent or blank. */
  function Stats(s: string): (r: FinalStats)
    ensures r.securityGain == UnknownStat || IsTrimmedLine(r.securityGain)
    ensures r.performanceImpact == UnknownStat || IsTrimmedLine(r.performanceImpact)
    ensures Search(StatsBlock, s, 0).None? ==> r == FinalStats(UnknownStat, UnknownStat)
  {
    match Capture(StatsBlock, s)
    case Some(c) => FinalStats(LineField(c, SecurityKey, UnknownStat), LineField(c, ImpactKey, UnknownStat))
    case None => FinalStats(UnknownStat, UnknownStat)
  }

  /** The report decoded from the complete text. */
  function DecodeTagged(s: string): OptimizationReport {
    OptimizationReport(FinalCode(s), Episodes(s), Stats(s))
  }

  /** The parsing half of runStream: the `exec` loop over episode blocks, then the code and the stats. */
  method ParseStructuredText(fullText: string) returns (result: OptimizationReport)
    ensures result == DecodeTagged(fullText)
  {
    var iterations: seq<Episode> := [];
    var lastIndex := 0;
    var m := Search(EpisodeBlock, fullText, lastIndex);
    while m.Some?
      invariant lastIndex <= |fullText|
      invariant m == Search(EpisodeBlock, fullText, lastIndex)
      invariant iterations + EpisodesFrom(fullText, lastIndex, ParseEpisode) == Episodes(fullText)
      decreases |fullText| - lastIndex
    {
      var content := fullText[m.value.lo..m.value.hi];
      var episode := ParseEpisode(content);
      EpisodesFromStep(fullText, lastIndex, m.value, iterations, ParseEpisode);
      if episode.episode > 0 {
        iterations := iterations + [episode];
      }
      lastIndex := m.value.stop;
      m := Search(EpisodeBlock, fullText, lastIndex);
    }
    assert iterations == Episodes(fullText);
    var optimizedCode := IncompleteCode;
    var codeMatch := Capture(CodeBlock, fullText);
    if codeMatch.Some? {
      optimizedCode := CleanCode(codeMatch.value);
    }
    var finalStats := FinalStats(UnknownStat, UnknownStat);
    var statsMatch := Capture(StatsBlock, fullText);
    if statsMatch.Some? {
      var content := statsMatch.value;
      finalStats := FinalStats(LineField(content, SecurityKey, UnknownStat),
                               LineField(content, ImpactKey, UnknownStat));
    }
    result := OptimizationReport(optimizedCode, iterations, finalStats);
  }
}
