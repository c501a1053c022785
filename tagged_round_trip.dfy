/**
 * Read-back properties of the tagged-block decoder: each field regex reads
 * back the value written after its label, an episode record written in the
 * format the prompt asks for is read back unchanged, and the code and stats
 * blocks read back their contents.
 */
module TaggedRoundTrip {
  import opened Wrappers
  import opened Text
  import opened Patterns
  import opened TaggedBlocks

  /** The label, white space, a trimmed value and the end of its line, after a text without the label: the field reads back the value. */
  lemma LineFieldReads(content: string, pre: string, y: string, key: string, ws: string, v: string, tail: string, fallback: string)
    requires content == pre + y && y == key + ws + v + tail
    requires LastCharUnique(key) && Find(pre, key, 0).None?
    requires AllSpace(ws) && IsTrimmedLine(v)
    requires tail == [] || IsLineTerminator(tail[0])
    ensures LineField(content, key, fallback) == v
  {
    var q := |pre| + |key| + |ws|;
    assert y[..|key|] == key;
    FirstOccurrenceAt(pre, y, key);
    Regroup5(pre, key, ws, v, tail);
    FieldLayout(key, RestOfLine, content, pre, ws, v, tail);
    LineFieldAtKey(content, key, |pre|, q, q + |v|, fallback);
  }

  /** The first occurrence of the label, white space, then a trimmed line up to a line break or the end: the field is that line. */
  lemma LineFieldAtKey(content: string, key: string, p: nat, q: nat, e: nat, fallback: string)
    requires Find(content, key, 0) == Some(p)
    requires p + |key| <= q <= |content|
    requires forall j :: p + |key| <= j < q ==> IsSpace(content[j])
    requires q == |content| || !IsSpace(content[q])
    requires IsFieldCapture(content, RestOfLine, Hit(p, q, e, e))
    requires e == |content| || IsLineTerminator(content[e])
    requires q <= e <= |content| && IsTrimmedLine(content[q..e])
    ensures LineField(content, key, fallback) == content[q..e]
  {
    SearchFieldAtFirstKey(key, RestOfLine, content, p, q, e);
    LineFieldOfHit(content, key, Hit(p, q, e, e), content[q..e], fallback);
  }

  /** The field whose first match captures a trimmed line is that line. */
  lemma LineFieldOfHit(content: string, key: string, h: Hit, v: string, fallback: string)
    requires Search(Field(key, RestOfLine), content, 0) == Some(h)
    requires h.lo <= h.hi <= |content| && content[h.lo..h.hi] == v && IsTrimmedLine(v)
    ensures LineField(content, key, fallback) == v
  {
    TrimUntouched(v);
  }

  /** `Episode:`, white space and a run of digits, after a text without the label: parseInt reads back their value. */
  lemma EpisodeNumberReads(content: string, pre: string, y: string, ws: string, ds: string, tail: string)
    requires content == pre + y && y == EpisodeKey + ws + ds + tail
    requires Find(pre, EpisodeKey, 0).None?
    requires AllSpace(ws) && ds != [] && AllDigits(ds)
    requires tail == [] || !IsDigit(tail[0])
    ensures EpisodeNumber(content) == DigitsValue(ds)
  {
    UniqueEnd(EpisodeKey);
    DigitsFieldReads(content, pre, y, EpisodeKey, ws, ds, tail);
  }

  /** A label, white space and a run of digits, after a text without the label: the digits field reads back their value. */
  lemma DigitsFieldReads(content: string, pre: string, y: string, key: string, ws: string, ds: string, tail: string)
    requires content == pre + y && y == key + ws + ds + tail
    requires LastCharUnique(key) && Find(pre, key, 0).None?
    requires AllSpace(ws) && ds != [] && AllDigits(ds)
    requires tail == [] || !IsDigit(tail[0])
    ensures DigitsField(content, key) == DigitsValue(ds)
  {
    var q := |pre| + |key| + |ws|;
    assert y[..|key|] == key;
    FirstOccurrenceAt(pre, y, key);
    Regroup5(pre, key, ws, ds, tail);
    FieldLayout(key, Digits, content, pre, ws, ds, tail);
    DigitsFieldAtKey(content, key, |pre|, q, q + |ds|);
    DigitsFieldOfCapture(content, key, q, ds);
  }

  /** The first label is followed by white space and a maximal run of digits: the digits field is their value. */
  lemma DigitsFieldAtKey(content: string, key: string, p: nat, q: nat, e: nat)
    requires Find(content, key, 0) == Some(p)
    requires p + |key| <= q <= |content|
    requires forall j :: p + |key| <= j < q ==> IsSpace(content[j])
    requires q == |content| || !IsSpace(content[q])
    requires IsFieldCapture(content, Digits, Hit(p, q, e, e))
    requires e == |content| || !IsDigit(content[e])
    requires q <= e <= |content| && AllDigits(content[q..e])
    ensures DigitsField(content, key) == DigitsValue(content[q..e])
  {
    SearchFieldAtFirstKey(key, Digits, content, p, q, e);
    DigitsFieldOfHit(content, key, p, q, e);
  }

  /** A digits field equal to the value of a capture that is `ds` is the value of `ds`. */
  lemma DigitsFieldOfCapture(content: string, key: string, q: nat, ds: string)
    requires q + |ds| <= |content| && AllDigits(ds)
    requires content[q..q + |ds|] == ds
    requires DigitsField(content, key) == DigitsValue(content[q..q + |ds|])
    ensures DigitsField(content, key) == DigitsValue(ds)
  {
  }

  /** The digits field whose first match captures `content[q..e]` is the value of those digits. */
  lemma DigitsFieldOfHit(content: string, key: string, p: nat, q: nat, e: nat)
    requires Search(Field(key, Digits), content, 0) == Some(Hit(p, q, e, e))
    requires q <= e <= |content|
    ensures DigitsField(content, key) == DigitsValue(content[q..e])
  {
  }

  /** `Reward:`, white space, then an optional sign and a run of digits, after a text without the label: parseInt reads that text. */
  lemma RewardValueReads(content: string, pre: string, y: string, ws: string, v: string, tail: string)
    requires content == pre + y && y == RewardKey + ws + v + tail
    requires Find(pre, RewardKey, 0).None?
    requires AllSpace(ws) && ShapeText(SignedDigits, v)
    requires tail == [] || !IsDigit(tail[0])
    ensures RewardValue(content) == SignedDigitsValue(v)
  {
    UniqueEnd(RewardKey);
    SignedFieldReads(content, pre, y, RewardKey, ws, v, tail);
  }

  /** A label, white space and optionally signed digits, after a text without the label: the signed field reads back parseInt of them. */
  lemma SignedFieldReads(content: string, pre: string, y: string, key: string, ws: string, v: string, tail: string)
    requires content == pre + y && y == key + ws + v + tail
    requires LastCharUnique(key) && Find(pre, key, 0).None?
    requires AllSpace(ws) && ShapeText(SignedDigits, v)
    requires tail == [] || !IsDigit(tail[0])
    ensures SignedField(content, key) == SignedDigitsValue(v)
  {
    var q := |pre| + |key| + |ws|;
    assert y[..|key|] == key;
    FirstOccurrenceAt(pre, y, key);
    Regroup5(pre, key, ws, v, tail);
    FieldLayout(key, SignedDigits, content, pre, ws, v, tail);
    SignedFieldAtKey(content, key, |pre|, q, q + |v|);
    SignedFieldOfCapture(content, key, q, v);
  }

  /** The first label is followed by white space and a maximal signed capture: the signed field is parseInt of that capture. */
  lemma SignedFieldAtKey(content: string, key: string, p: nat, q: nat, e: nat)
    requires Find(content, key, 0) == Some(p)
    requires p + |key| <= q <= |content|
    requires forall j :: p + |key| <= j < q ==> IsSpace(content[j])
    requires q == |content| || !IsSpace(content[q])
    requires IsFieldCapture(content, SignedDigits, Hit(p, q, e, e))
    requires e == |content| || !IsDigit(content[e])
    requires q <= e <= |content| && ShapeText(SignedDigits, content[q..e])
    ensures SignedField(content, key) == SignedDigitsValue(content[q..e])
  {
    SearchFieldAtFirstKey(key, SignedDigits, content, p, q, e);
    SignedFieldOfHit(content, key, p, q, e);
  }

  /** A signed field equal to parseInt of a capture that is `v` is parseInt of `v`. */
  lemma SignedFieldOfCapture(content: string, key: string, q: nat, v: string)
    requires q + |v| <= |content| && ShapeText(SignedDigits, v)
    requires content[q..q + |v|] == v
    requires SignedField(content, key) == SignedDigitsValue(content[q..q + |v|])
    ensures SignedField(content, key) == SignedDigitsValue(v)
  {
  }

  /** The signed field whose first match captures `content[q..e]` is parseInt of that capture. */
  lemma SignedFieldOfHit(content: string, key: string, p: nat, q: nat, e: nat)
    requires Search(Field(key, SignedDigits), content, 0) == Some(Hit(p, q, e, e))
    requires q <= e <= |content|
    ensures SignedField(content, key) == SignedDigitsValue(content[q..e])
  {
  }

  /** One `key: value` line as the prompt asks for it. */
  function FieldLine(key: string, v: string): string {
    key + " " + v + "\n"
  }

  /** A reward as the prompt writes it: always signed, as in `+10`. */
  function RewardText(r: int): (t: string)
    ensures |t| > 1 && (t[0] == '+' || t[0] == '-') && AllDigits(t[1..])
  {
    var ds := if r < 0 then NatText(-r) else NatText(r);
    var t := (if r < 0 then "-" else "+") + ds;
    assert t[1..] == ds;
    t
  }

  /** The body of an episode block in the format of the prompt. */
  function EpisodeBody(e: Episode): string {
    FieldLine(EpisodeKey, NatText(e.episode)) + FieldLine(ActionKey, e.action)
      + FieldLine(RewardKey, RewardText(e.reward)) + FieldLine(OutcomeKey, e.outcome)
  }

  /**
   * A record the format can carry: one-line trimmed action and outcome, and
   * an action that does not itself contain a later label.
   */
  predicate WellFormed(e: Episode) {
    && IsTrimmedLine(e.action) && IsTrimmedLine(e.outcome)
    && Find(e.action, RewardKey, 0).None? && Find(e.action, OutcomeKey, 0).None?
  }

  /** Each label and tag ends in a character that occurs nowhere else in it. */
  lemma UniqueEnd(w: string)
    requires || w == EpisodeKey || w == ActionKey || w == RewardKey || w == OutcomeKey
             || w == SecurityKey || w == ImpactKey || w == EpisodeOpen || w == EpisodeClose
             || w == CodeOpen || w == CodeClose || w == StatsOpen || w == StatsClose
    ensures LastCharUnique(w)
  {
  }

  /** The reward line holds no `O`. */
  lemma RewardLineLacks(r: int)
    ensures Lacks(FieldLine(RewardKey, RewardText(r)), 'O')
  {
    var t := RewardText(r);
    assert forall i :: 1 <= i < |t| ==> t[i] == t[1..][i - 1];
    LacksConcat(RewardKey, " ", 'O');
    LacksConcat(RewardKey + " ", t, 'O');
    LacksConcat(RewardKey + " " + t, "\n", 'O');
  }

  /** The episode line holds none of `A`, `R` and `O`. */
  lemma EpisodeLineLacks(n: nat, c: char)
    requires c == 'A' || c == 'R' || c == 'O'
    ensures Lacks(FieldLine(EpisodeKey, NatText(n)), c)
  {
    NumeralLacks(NatText(n), c);
    LacksConcat(EpisodeKey, " ", c);
    LacksConcat(EpisodeKey + " ", NatText(n), c);
    LacksConcat(EpisodeKey + " " + NatText(n), "\n", c);
  }

  /** The action line holds no later label that the action itself does not hold. */
  lemma ActionLineFree(action: string, w: string)
    requires w == RewardKey || w == OutcomeKey
    requires Find(action, w, 0).None?
    ensures Find(FieldLine(ActionKey, action), w, 0).None?
  {
    LacksConcat(ActionKey, " ", w[0]);
    LacksNoOccurrence(ActionKey + " ", w);
    NoOccurrenceJoin(ActionKey + " ", action, w);
    LacksNoOccurrence("\n", w);
    NoOccurrenceJoin(ActionKey + " " + action, "\n", w);
  }

  lemma EpisodeNumberOfBody(e: Episode)
    ensures EpisodeNumber(EpisodeBody(e)) == e.episode
  {
    var b := EpisodeBody(e);
    var l2 := FieldLine(ActionKey, e.action);
    var l3 := FieldLine(RewardKey, RewardText(e.reward));
    var l4 := FieldLine(OutcomeKey, e.outcome);
    Regroup5(EpisodeKey + " " + NatText(e.episode), "\n", l2, l3, l4);
    assert b == [] + b;
    EpisodeNumberReads(b, [], b, " ", NatText(e.episode), "\n" + l2 + l3 + l4);
    NatTextValue(e.episode);
  }

  lemma ActionOfBody(e: Episode)
    requires WellFormed(e)
    ensures LineField(EpisodeBody(e), ActionKey, UnknownAction) == e.action
  {
    var l1 := FieldLine(EpisodeKey, NatText(e.episode));
    var l2 := FieldLine(ActionKey, e.action);
    var l3 := FieldLine(RewardKey, RewardText(e.reward));
    var l4 := FieldLine(OutcomeKey, e.outcome);
    Regroup4(l1, l2, l3, l4);
    Regroup4(ActionKey + " " + e.action, "\n", l3, l4);
    EpisodeLineLacks(e.episode, 'A');
    LacksNoOccurrence(l1, ActionKey);
    UniqueEnd(ActionKey);
    LineFieldReads(EpisodeBody(e), l1, l2 + l3 + l4, ActionKey, " ", e.action, "\n" + l3 + l4, UnknownAction);
  }

  lemma RewardOfBody(e: Episode)
    requires WellFormed(e)
    ensures RewardValue(EpisodeBody(e)) == e.reward
  {
    var l1 := FieldLine(EpisodeKey, NatText(e.episode));
    var l2 := FieldLine(ActionKey, e.action);
    var l3 := FieldLine(RewardKey, RewardText(e.reward));
    var l4 := FieldLine(OutcomeKey, e.outcome);
    Regroup4(l1, l2, l3, l4);
    Regroup3(RewardKey + " " + RewardText(e.reward), "\n", l4);
    EpisodeLineLacks(e.episode, 'R');
    ActionLineFree(e.action, RewardKey);
    LacksNoOccurrence(l1, RewardKey);
    NoOccurrenceJoin(l1, l2, RewardKey);
    RewardTextValue(e.reward);
    RewardValueReads(EpisodeBody(e), l1 + l2, l3 + l4, " ", RewardText(e.reward), "\n" + l4);
  }

  /** parseInt reads back the signed text of a reward. */
  lemma RewardTextValue(r: int)
    ensures ShapeText(SignedDigits, RewardText(r)) && SignedDigitsValue(RewardText(r)) == r
  {
    var t := RewardText(r);
    if r < 0 {
      assert t[1..] == NatText(-r);
      NatTextValue(-r);
    } else {
      assert t[1..] == NatText(r);
      NatTextValue(r);
    }
  }

  lemma OutcomeOfBody(e: Episode)
    requires WellFormed(e)
    ensures LineField(EpisodeBody(e), OutcomeKey, DefaultOutcome) == e.outcome
  {
    var l1 := FieldLine(EpisodeKey, NatText(e.episode));
    var l2 := FieldLine(ActionKey, e.action);
    var l3 := FieldLine(RewardKey, RewardText(e.reward));
    var l4 := FieldLine(OutcomeKey, e.outcome);
    EpisodeLineLacks(e.episode, 'O');
    ActionLineFree(e.action, OutcomeKey);
    LacksNoOccurrence(l1, OutcomeKey);
    NoOccurrenceJoin(l1, l2, OutcomeKey);
    RewardLineLacks(e.reward);
    LacksNoOccurrence(l3, OutcomeKey);
    assert (l1 + l2)[|l1 + l2| - 1] == '\n';
    OutcomeKeyOneLine();
    NoOccurrenceJoin(l1 + l2, l3, OutcomeKey);
    UniqueEnd(OutcomeKey);
    LineFieldReads(EpisodeBody(e), l1 + l2 + l3, l4, OutcomeKey, " ", e.outcome, "\n", DefaultOutcome);
  }

  /** The outcome label holds no line break. */
  lemma OutcomeKeyOneLine()
    ensures Lacks(OutcomeKey, '\n')
  {
  }

  /** An episode written in the prompt's format is read back unchanged. */
  lemma ParseEpisodeRoundTrip(e: Episode)
    requires WellFormed(e)
    ensures ParseEpisode(EpisodeBody(e)) == e
  {
    EpisodeNumberOfBody(e);
    ActionOfBody(e);
    RewardOfBody(e);
    OutcomeOfBody(e);
  }

  /** The body of a stats block in the format of the prompt. */
  function StatsBody(st: FinalStats): string {
    FieldLine(SecurityKey, st.securityGain) + FieldLine(ImpactKey, st.performanceImpact)
  }

  /** Stats the format can carry: one-line trimmed texts, the first without the second label. */
  predicate StatsWellFormed(st: FinalStats) {
    IsTrimmedLine(st.securityGain) && IsTrimmedLine(st.performanceImpact)
    && Find(st.securityGain, ImpactKey, 0).None?
  }

  lemma SecurityOfBody(st: FinalStats)
    requires StatsWellFormed(st)
    ensures LineField(StatsBody(st), SecurityKey, UnknownStat) == st.securityGain
  {
    var b := StatsBody(st);
    var l2 := FieldLine(ImpactKey, st.performanceImpact);
    Regroup3(SecurityKey + " " + st.securityGain, "\n", l2);
    assert b == [] + b;
    UniqueEnd(SecurityKey);
    LineFieldReads(b, [], b, SecurityKey, " ", st.securityGain, "\n" + l2, UnknownStat);
  }

  lemma ImpactOfBody(st: FinalStats)
    requires StatsWellFormed(st)
    ensures LineField(StatsBody(st), ImpactKey, UnknownStat) == st.performanceImpact
  {
    var l1 := FieldLine(SecurityKey, st.securityGain);
    var l2 := FieldLine(ImpactKey, st.performanceImpact);
    LacksConcat(SecurityKey, " ", ImpactKey[0]);
    LacksNoOccurrence(SecurityKey + " ", ImpactKey);
    NoOccurrenceJoin(SecurityKey + " ", st.securityGain, ImpactKey);
    LacksNoOccurrence("\n", ImpactKey);
    ImpactKeyOneLine();
    NoOccurrenceJoin(SecurityKey + " " + st.securityGain, "\n", ImpactKey);
    UniqueEnd(ImpactKey);
    LineFieldReads(StatsBody(st), l1, l2, ImpactKey, " ", st.performanceImpact, "\n", UnknownStat);
  }

  /** The impact label holds no line break. */
  lemma ImpactKeyOneLine()
    ensures Lacks(ImpactKey, '\n')
  {
  }

  /** Stats written in the prompt's format inside the first closed stats block are read back unchanged. */
  lemma StatsRoundTrip(s: string, st: FinalStats)
    requires StatsWellFormed(st)
    requires Capture(StatsBlock, s) == Some(StatsBody(st))
    ensures Stats(s) == st
  {
    SecurityOfBody(st);
    ImpactOfBody(st);
  }

  /** A fenced code block inside the first closed code block yields the code inside the fence. */
  lemma FinalCodeRoundTrip(s: string, lang: string, code: string)
    requires AllWordChars(lang)
    requires Capture(CodeBlock, s) == Some("```" + lang + "\n" + code + "\n```")
    ensures FinalCode(s) == code
  {
    CodeFenceRoundTrip(lang, code);
  }
}
