/**
 * parseJSONRobust (services/geminiService.ts): decode model output that
 * should hold one JSON value, in layers, each tried only when the previous
 * one failed: the direct parse of the fence-stripped text, the parse of the
 * repaired text, the parse of a synthetic envelope around a salvaged
 * "iterations" array, and otherwise the "unrecoverable" error.
 */
module RobustDecoder {
  import opened Wrappers
  import opened Text
  import opened JsonValue
  import opened Patterns
  import opened JsonRepair

  const Fence: string := "```"

  const Unrecoverable: string := "Response truncated and unrecoverable."

  const EnvelopeHead: string := "{ \"iterations\": ["

  const EnvelopeTail: string :=
    "], \"finalStats\": {\"securityGain\": \"unknown\", \"performanceImpact\": \"unknown\"}, \"optimizedCode\": \"// Output Truncated\" }"

  // .replace(/^```(json)?\s*/, ""): an opening fence, its language tag and the white space after it.
  function StripOpeningFence(t: string): (r: string)
    ensures |r| <= |t|
    ensures !StartsWith(t, Fence) ==> r == t
  {
    if StartsWith(t, Fence) then
      var u := t[|Fence|..];
      TrimStart(if StartsWith(u, "json") then u[4..] else u)
    else t
  }

  /** `.replace(/\s*```$/, "")`: a closing fence and the white space before it. */
  function StripClosingFence(t: string): (r: string)
    ensures r <= t
    ensures !EndsWith(t, Fence) ==> r == t
  {
    if EndsWith(t, Fence) then TrimEnd(t[..|t| - |Fence|]) else t
  }

  /** The cleaned text every layer starts from: trimmed, fences removed. */
  function StripFences(text: string): (clean: string)
    ensures |clean| <= |text|
    ensures !StartsWith(Trim(text), Fence) && !EndsWith(Trim(text), Fence) ==> clean == Trim(text)
  {
    StripClosingFence(StripOpeningFence(Trim(text)))
  }

  /** After the fence and its tag, a text that starts on a new line loses only its leading white space. */
  lemma OpeningFenceTagged(lang: string, rest: string)
    requires lang == "" || lang == "json"
    requires rest != [] && rest[0] == '\n'
    ensures StripOpeningFence(Fence + lang + rest) == TrimStart(rest)
  {
    var t := Fence + lang + rest;
    assert t[..|Fence|] == Fence;
    assert StartsWith(t, Fence);
    var u := t[|Fence|..];
    assert u == lang + rest;
    if lang == "json" {
      assert u[..4] == "json" && StartsWith(u, "json");
      assert u[4..] == rest;
    } else {
      assert u == rest && u[0] != "json"[0];
      assert !StartsWith(u, "json");
    }
  }

  /** The opening fence and its tag go, and so does the white space that follows. */
  lemma OpeningFenceStripped(lang: string, j: string)
    requires lang == "" || lang == "json"
    ensures StripOpeningFence(Fence + lang + "\n" + j + "\n" + Fence) == TrimStart(j + "\n" + Fence)
  {
    var tail := j + "\n" + Fence;
    assert Fence + lang + "\n" + j + "\n" + Fence == Fence + lang + ("\n" + tail);
    OpeningFenceTagged(lang, "\n" + tail);
    assert AllSpace("\n");
    TrimStartAppend("\n", tail);
  }

  /** The closing fence goes, and so does the white space before it. */
  lemma ClosingFenceStripped(j: string)
    ensures StripClosingFence(TrimStart(j + "\n" + Fence)) == Trim(j)
  {
    assert j + "\n" + Fence == j + ("\n" + Fence);
    TrimStartAppend(j, "\n" + Fence);
    if AllSpace(j) {
      BareFenceStripped();
    } else {
      SomeContentStripped(TrimStart(j));
    }
  }

  /** A fence on a line of its own strips to nothing. */
  lemma BareFenceStripped()
    ensures StripClosingFence(TrimStart("\n" + Fence)) == []
  {
    var w := "\n" + Fence;
    assert IsSpace(w[0]) && w[1..] == Fence;
    assert !IsSpace(Fence[0]);
    assert TrimStart(Fence) == Fence;
    assert TrimStart(w) == Fence;
    assert Fence[|Fence| - |Fence|..] == Fence && Fence[..0] == [];
  }

  lemma SomeContentStripped(a: string)
    ensures StripClosingFence(a + ("\n" + Fence)) == TrimEnd(a)
  {
    var w := a + ("\n" + Fence);
    assert w[|w| - 3..] == Fence;
    assert w[..|w| - 3] == a + "\n";
    TrimEndAppend(a, "\n");
    assert AllSpace("\n");
  }

  /** Fencing a JSON text, with or without the `json` tag, and stripping the fences gives the text back, trimmed. */
  lemma FencedRoundTrip(lang: string, j: string)
    requires lang == "" || lang == "json"
    ensures StripFences(Fence + lang + "\n" + j + "\n" + Fence) == Trim(j)
  {
    var t := Fence + lang + "\n" + j + "\n" + Fence;
    assert t[0] == '`' && t[|t| - 1] == '`';
    TrimUntouched(t);
    OpeningFenceStripped(lang, j);
    ClosingFenceStripped(j);
  }

  /** `.replace(/,\s*$/, "")`: a trailing comma and the white space after it. */
  function DropTrailingComma(s: string): (r: string)
    ensures r <= s
    ensures r == s || (s[|r|] == ',' && AllSpace(s[|r| + 1..]))
    ensures r != s <==> exists k :: 0 <= k < |s| && s[k] == ',' && AllSpace(s[k + 1..])
    ensures EndsWith(TrimEnd(s), ",") ==> r == TrimEnd(s)[..|TrimEnd(s)| - 1]
  {
    var t := TrimEnd(s);
    if |t| > 0 && t[|t| - 1] == ',' then
      assert s[|t| - 1] == ',' && s[|t|..] == s[|t| - 1 + 1..];
      t[..|t| - 1]
    else
      CommaBeforeSpaceEndsTrim(s);
      s
  }

  /** A comma followed only by white space is the last character that trimming the end keeps. */
  lemma CommaBeforeSpaceEndsTrim(s: string)
    ensures forall k :: 0 <= k < |s| && s[k] == ',' && AllSpace(s[k + 1..]) ==> |TrimEnd(s)| == k + 1
  {
  }

  /** The synthetic envelope around salvaged array content. */
  function Envelope(body: string): (env: string)
    ensures |env| == |EnvelopeHead| + |body| + |EnvelopeTail|
    ensures EnvelopeHead <= env && EndsWith(env, EnvelopeTail)
    ensures env[|EnvelopeHead|..|env| - |EnvelopeTail|] == body
  {
    var env := EnvelopeHead + body + EnvelopeTail;
    assert env[|EnvelopeHead|..|env| - |EnvelopeTail|] == body;
    assert env[|env| - |EnvelopeTail|..] == EnvelopeTail;
    env
  }

  /**
   * The salvage layer's text: the content between `"iterations"\s*:\s*[` and
   * the first `]` after it, in the cleaned input, with a trailing comma
   * removed, wrapped in the envelope.
   */
  function SalvageText(clean: string): (r: Option<string>)
    ensures r.Some? <==> Search(IterationsArray, clean, 0).Some?
  {
    match Search(IterationsArray, clean, 0)
    case None => None
    case Some(h) => Some(Envelope(DropTrailingComma(clean[h.lo..h.hi])))
  }

  /** The salvage text is the envelope around the content of the first match. */
  lemma SalvageTextOfHit(clean: string, h: Hit)
    requires Search(IterationsArray, clean, 0) == Some(h)
    ensures SalvageText(clean) == Some(Envelope(DropTrailingComma(clean[h.lo..h.hi])))
  {
  }

  /** The array content kept by the salvage holds no `]`: it stops before the first one. */
  lemma SalvagedContentIsUnbracketed(clean: string)
    requires SalvageText(clean).Some?
    ensures var env := SalvageText(clean).value;
      Find(env[|EnvelopeHead|..|env| - |EnvelopeTail|], "]", 0).None?
  {
    var h := Search(IterationsArray, clean, 0).value;
    var body := DropTrailingComma(clean[h.lo..h.hi]);
    SearchArrayLazy(IterationsArray.key, clean, 0, h);
    NoCloseBracketBefore(clean, h.lo, h.hi, |body|);
    assert body == clean[h.lo..h.hi][..|body|];
  }

  /** A prefix of text that stops before the first `]` holds no `]`. */
  lemma NoCloseBracketBefore(s: string, lo: nat, hi: nat, n: nat)
    requires lo <= hi <= |s| && n <= hi - lo
    requires forall i :: lo <= i < hi ==> !OccursAt(s, i, "]")
    ensures Find(s[lo..hi][..n], "]", 0).None?
  {
    var b := s[lo..hi][..n];
    forall i | 0 <= i <= |b| ensures !OccursAt(b, i, "]") {
      if i < |b| {
        assert b[i] == s[lo + i];
        assert !OccursAt(s, lo + i, "]");
        assert s[lo + i..lo + i + 1] == [s[lo + i]];
        assert b[i..i + 1] == [b[i]];
      }
    }
  }

  function OptionToSeq(o: Option<string>): seq<string> {
    match o
    case Some(x) => [x]
    case None => []
  }

  /** The texts the decoder hands to the parser, in the order it tries them. */
  function Candidates(text: string): seq<string> {
    var clean := StripFences(text);
    [clean, Repair(clean)] + OptionToSeq(SalvageText(clean))
  }

  /** Reference semantics of a layered decoder: the parse of the first candidate that parses. */
  function FirstParse(cands: seq<string>, parse: string -> Option<Json>): (r: Result<Json>)
    ensures r.Failure? <==> forall i :: 0 <= i < |cands| ==> parse(cands[i]).None?
    ensures r.Failure? ==> r.error == Unrecoverable
    ensures r.Success? ==>
      exists i :: 0 <= i < |cands| && parse(cands[i]) == Some(r.value) && (forall k :: 0 <= k < i ==> parse(cands[k]).None?)
    decreases |cands|
  {
    if cands == [] then Failure(Unrecoverable)
    else match parse(cands[0])
      case Some(v) => Success(v)
      case None =>
        var r := FirstParse(cands[1..], parse);
        if r.Success? then
          var i :| 0 <= i < |cands[1..]| && parse(cands[1..][i]) == Some(r.value)
              && forall k :: 0 <= k < i ==> parse(cands[1..][k]).None?;
          assert parse(cands[i + 1]) == Some(r.value);
          r
        else r
  }

  /** The three layers over their texts, nested as the source nests its try blocks. */
  function Layered(clean: string, repaired: string, salvage: Option<string>, parse: string -> Option<Json>): Result<Json> {
    match parse(clean)
    case Some(v) => Success(v)
    case None =>
      match parse(repaired)
      case Some(v) => Success(v)
      case None =>
        match salvage
        case None => Failure(Unrecoverable)
        case Some(env) =>
          match parse(env)
          case Some(v) => Success(v)
          case None => Failure(Unrecoverable)
  }

  /** The layered decoder: direct parse, repaired parse, salvage, or "unrecoverable". */
  function Decode(text: string, parse: string -> Option<Json>): (r: Result<Json>)
    ensures parse(StripFences(text)).Some? ==> r == Success(parse(StripFences(text)).value)
    ensures r.Failure? ==> r.error == Unrecoverable
  {
    var clean := StripFences(text);
    Layered(clean, Repair(clean), SalvageText(clean), parse)
  }

  /** Nesting the layers is taking the first candidate that parses. */
  lemma LayeredIsFirstParse(clean: string, repaired: string, salvage: Option<string>, parse: string -> Option<Json>)
    ensures Layered(clean, repaired, salvage, parse) == FirstParse([clean, repaired] + OptionToSeq(salvage), parse)
  {
    var rest := OptionToSeq(salvage);
    var c := [clean, repaired] + rest;
    if parse(clean).None? {
      assert c[1..] == [repaired] + rest;
      FirstParseSkips(c, parse);
      if parse(repaired).None? {
        assert c[1..][1..] == rest;
        FirstParseSkips(c[1..], parse);
        if rest != [] && parse(rest[0]).None? {
          FirstParseSkips(rest, parse);
          assert rest[1..] == [];
        }
      }
    }
  }

  /**
   * The layers are tried strictly in order: the result is the parse of the
   * first candidate text that parses, and the error is "unrecoverable" only
   * when none does.
   */
  lemma DecodeIsFirstParse(text: string, parse: string -> Option<Json>)
    ensures Decode(text, parse) == FirstParse(Candidates(text), parse)
  {
    var clean := StripFences(text);
    LayeredIsFirstParse(clean, Repair(clean), SalvageText(clean), parse);
  }

  /** A candidate that does not parse is skipped. */
  lemma FirstParseSkips(cands: seq<string>, parse: string -> Option<Json>)
    requires cands != [] && parse(cands[0]).None?
    ensures FirstParse(cands, parse) == FirstParse(cands[1..], parse)
  {
  }

  /** A fenced JSON text that parses directly decodes to the parse of its content; no repair runs. */
  lemma FencedDirectParse(lang: string, j: string, parse: string -> Option<Json>)
    requires lang == "" || lang == "json"
    requires parse(Trim(j)).Some?
    ensures Decode(Fence + lang + "\n" + j + "\n" + Fence, parse) == Success(parse(Trim(j)).value)
  {
    FencedRoundTrip(lang, j);
  }

  /**
   * Whatever the input, the text handed to the second parse is balanced:
   * rescanning it ends outside a string with no `{` or `[` left open.
   */
  lemma RepairLayerIsBalanced(text: string)
    ensures !StackScan(Candidates(text)[1]).flags.inString
    ensures StackScan(Candidates(text)[1]).stack == []
  {
    RepairIsBalanced(StripFences(text));
  }

  /** The decoder is the layered parse of the cleaned text, its repair and its salvage. */
  lemma DecodeIsLayered(text: string, parse: string -> Option<Json>)
    ensures var clean := StripFences(text);
      Decode(text, parse) == Layered(clean, Repair(clean), SalvageText(clean), parse)
  {
  }

  /** The second layer's text: the open string closed, then every open `{` and `[`. */
  method RepairText(clean: string) returns (repaired: string)
    ensures repaired == Repair(clean)
  {
    repaired := CloseString(clean);
    repaired := CloseStructures(repaired);
  }

  /** The third layer's text: the envelope around the first "iterations" array, if there is one. */
  method SalvageEnvelope(clean: string) returns (safeJson: Option<string>)
    ensures safeJson == SalvageText(clean)
  {
    var iterMatch := Search(IterationsArray, clean, 0);
    if iterMatch.Some? {
      var iterContent := DropTrailingComma(clean[iterMatch.value.lo..iterMatch.value.hi]);
      SalvageTextOfHit(clean, iterMatch.value);
      return Some(Envelope(iterContent));
    }
    return None;
  }

  /** The nested try blocks: the first of the three texts that parses decides. */
  method TryLayers(clean: string, repaired: string, safeJson: Option<string>, parse: string -> Option<Json>) returns (r: Result<Json>)
    ensures r == Layered(clean, repaired, safeJson, parse)
    ensures r.Failure? ==> r.error == Unrecoverable
  {
    var direct := parse(clean);
    if direct.Some? {
      return Success(direct.value);
    }
    var second := parse(repaired);
    if second.Some? {
      return Success(second.value);
    }
    if safeJson.Some? {
      var third := parse(safeJson.value);
      if third.Some? {
        return Success(third.value);
      }
    }
    return Failure(Unrecoverable);
  }

  /**
   * parseJSONRobust, with its two scan loops. The repair and the salvage are
   * computed up front; both are pure, so trying them only after the earlier
   * layers fail gives the same result.
   */
  method ParseJsonRobust(text: string, parse: string -> Option<Json>) returns (r: Result<Json>)
    ensures r == Decode(text, parse)
  {
    var clean := StripFences(text);
    var repaired := RepairText(clean);
    var safeJson := SalvageEnvelope(clean);
    r := TryLayers(clean, repaired, safeJson, parse);
    DecodeIsLayered(text, parse);
  }
}
