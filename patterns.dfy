/**
 * Hand-written scanners for the regular expressions the decoders use.
 * `MatchAt` is one anchored attempt of a pattern at an index, with the
 * engine's backtracking worked out by hand; `Search` is what `match` and
 * `exec` do: the leftmost index at or after `from` where the attempt succeeds.
 */
module Patterns {
  import opened Wrappers
  import opened Text

  /** A match that starts at `at`, whose capture group 1 is s[lo..hi], and that ends at `stop`. */
  datatype Hit = Hit(at: nat, lo: nat, hi: nat, stop: nat)

  /** What the capture group of a labelled field matches. */
  datatype Shape =
    | Digits        // (\d+)
    | SignedDigits  // ([+\-]?\d+)
    | RestOfLine    // (.*)

  datatype Pattern =
    | ArrayField(key: string)             // /<key>\s*:\s*\[([\s\S]*?)\]/
    | Field(key: string, shape: Shape)    // /<key>\s*(<shape>)/
    | Block(open: string, close: string)  // /<open>([\s\S]*?)<close>/

  /** The pattern of the salvage: `/"iterations"\s*:\s*\[([\s\S]*?)\]/`. */
  const IterationsArray: Pattern := ArrayField("\"iterations\"")

  /** Shape of a block match: open tag, lazily captured body, first close tag after it. */
  ghost predicate IsBlockHit(s: string, open: string, close: string, h: Hit) {
    && OccursAt(s, h.at, open)
    && h.lo == h.at + |open|
    && h.lo <= h.hi
    && OccursAt(s, h.hi, close)
    && h.stop == h.hi + |close|
    && (forall i :: h.lo <= i < h.hi ==> !OccursAt(s, i, close))
  }

  predicate IsSign(c: char) {
    c == '+' || c == '-'
  }

  /** What the capture group of a field holds, by shape. */
  ghost predicate IsFieldCapture(s: string, shape: Shape, h: Hit) {
    && h.lo <= h.hi <= |s|
    && match shape
       case Digits => h.lo < h.hi && (forall j :: h.lo <= j < h.hi ==> IsDigit(s[j]))
       case SignedDigits =>
         var d := if h.lo < h.hi && IsSign(s[h.lo]) then h.lo + 1 else h.lo;
         d < h.hi && (forall j :: d <= j < h.hi ==> IsDigit(s[j]))
       case RestOfLine => forall j :: h.lo <= j < h.hi ==> !IsLineTerminator(s[j])
  }

  /** One attempt of `<key>\s*:\s*\[([\s\S]*?)\]` anchored at index `p`. */
  function MatchArray(key: string, s: string, p: nat): (r: Option<Hit>)
    requires p <= |s|
    ensures r.Some? ==> r.value.at == p <= r.value.lo <= r.value.hi < r.value.stop <= |s|
    ensures r.Some? ==> OccursAt(s, p, key) && r.value.lo > 0 && s[r.value.lo - 1] == '[' && s[r.value.hi] == ']'
  {
    if !OccursAt(s, p, key) then None
    else
      var colon := SkipRun(s, p + |key|, Space);
      if colon == |s| || s[colon] != ':' then None
      else
        var bracket := SkipRun(s, colon + 1, Space);
        if bracket == |s| || s[bracket] != '[' then None
        else
          CloseArray(s, p, bracket)
  }

  /** The lazy `([\s\S]*?)\]` after the `[` at `bracket`: everything up to the first `]`. */
  function CloseArray(s: string, p: nat, bracket: nat): (r: Option<Hit>)
    requires p <= bracket < |s|
    ensures r.Some? ==> Find(s, "]", bracket + 1) == Some(r.value.hi) && r == Some(Hit(p, bracket + 1, r.value.hi, r.value.hi + 1))
    ensures r.Some? ==> r.value.hi < |s| && s[r.value.hi] == ']'
    ensures r.None? <==> Find(s, "]", bracket + 1).None?
  {
    match Find(s, "]", bracket + 1)
    case None => None
    case Some(e) =>
      assert s[e] == s[e..e + 1][0];
      Some(Hit(p, bracket + 1, e, e + 1))
  }

  /** The capture of an array match is lazy: it stops at the first `]`. */
  lemma MatchArrayLazy(key: string, s: string, p: nat)
    requires p <= |s| && MatchArray(key, s, p).Some?
    ensures var h := MatchArray(key, s, p).value;
      forall i :: h.lo <= i < h.hi ==> !OccursAt(s, i, "]")
  {
  }

  /** The capture of the leftmost array match stops at the first `]`. */
  lemma SearchArrayLazy(key: string, s: string, from: nat, h: Hit)
    requires from <= |s| && Search(ArrayField(key), s, from) == Some(h)
    ensures h.lo <= h.hi <= |s|
    ensures forall i :: h.lo <= i < h.hi ==> !OccursAt(s, i, "]")
  {
    assert MatchArray(key, s, h.at) == Some(h);
    MatchArrayLazy(key, s, h.at);
  }

  /**
   * A key, then `\s*:\s*[`: the attempt matches exactly when a `]` follows,
   * capturing up to the first one (CloseArray).
   */
  lemma MatchArrayComplete(key: string, s: string, p: nat, colon: nat, bracket: nat)
    requires OccursAt(s, p, key)
    requires p + |key| <= colon < bracket < |s|
    requires forall j :: p + |key| <= j < colon ==> IsSpace(s[j])
    requires s[colon] == ':'
    requires forall j :: colon < j < bracket ==> IsSpace(s[j])
    requires s[bracket] == '['
    ensures MatchArray(key, s, p) == CloseArray(s, p, bracket)
  {
    SkipRunStops(s, p + |key|, colon, Space);
    SkipRunStops(s, colon + 1, bracket, Space);
    ArrayAttemptCloses(key, s, p, colon, bracket);
  }

  /** Past the key, the colon and the bracket, the attempt is the search for the closing `]`. */
  lemma ArrayAttemptCloses(key: string, s: string, p: nat, colon: nat, bracket: nat)
    requires OccursAt(s, p, key)
    requires p + |key| <= colon < bracket < |s|
    requires SkipRun(s, p + |key|, Space) == colon && s[colon] == ':'
    requires SkipRun(s, colon + 1, Space) == bracket && s[bracket] == '['
    ensures MatchArray(key, s, p) == CloseArray(s, p, bracket)
  {
    assert !(colon == |s| || s[colon] != ':');
    assert !(bracket == |s| || s[bracket] != '[');
  }

  /** The class of the characters the capture of a shape runs over. */
  function CaptureClass(shape: Shape): CharClass {
    match shape
    case Digits => Digit
    case SignedDigits => Digit
    case RestOfLine => NotLineTerminator
  }

  /** One attempt of `<key>\s*(<shape>)` anchored at index `p`. */
  function MatchField(key: string, shape: Shape, s: string, p: nat): (r: Option<Hit>)
    requires p <= |s|
    ensures r.Some? ==> r.value.at == p <= r.value.lo <= r.value.hi == r.value.stop <= |s|
  {
    if !OccursAt(s, p, key) then None
    else
      var q := SkipRun(s, p + |key|, Space);
      match shape
      case Digits =>
        var e := SkipRun(s, q, Digit);
        if e == q then None else Some(Hit(p, q, e, e))
      case SignedDigits =>
        var d := if q < |s| && IsSign(s[q]) then q + 1 else q;
        var e := SkipRun(s, d, Digit);
        if e == d then None else Some(Hit(p, q, e, e))
      case RestOfLine =>
        var e := SkipRun(s, q, NotLineTerminator);
        Some(Hit(p, q, e, e))
  }

  /**
   * A field match starts with the key, skips all the white space after it,
   * and captures the longest run of the shape's characters.
   */
  lemma MatchFieldCapture(key: string, shape: Shape, s: string, p: nat)
    requires p <= |s| && MatchField(key, shape, s, p).Some?
    ensures OccursAt(s, p, key) && IsFieldCapture(s, shape, MatchField(key, shape, s, p).value)
    ensures var h := MatchField(key, shape, s, p).value;
      && (forall j :: p + |key| <= j < h.lo ==> IsSpace(s[j]))
      && (h.lo == |s| || !IsSpace(s[h.lo]))
      && (h.hi == |s| || !InClass(s[h.hi], CaptureClass(shape)))
  {
  }

  /**
   * The converse: the key, all the white space after it, and a longest run of
   * the shape's characters make the attempt match with that capture.
   */
  lemma MatchFieldComplete(key: string, shape: Shape, s: string, p: nat, q: nat, e: nat)
    requires OccursAt(s, p, key)
    requires p + |key| <= q <= |s|
    requires forall j :: p + |key| <= j < q ==> IsSpace(s[j])
    requires q == |s| || !IsSpace(s[q])
    requires IsFieldCapture(s, shape, Hit(p, q, e, e))
    requires e == |s| || !InClass(s[e], CaptureClass(shape))
    ensures MatchField(key, shape, s, p) == Some(Hit(p, q, e, e))
  {
    SkipRunStops(s, p + |key|, q, Space);
    match shape
    case Digits => SkipRunStops(s, q, e, Digit);
    case SignedDigits =>
      var d := if q < |s| && IsSign(s[q]) then q + 1 else q;
      SkipRunStops(s, d, e, Digit);
    case RestOfLine => SkipRunStops(s, q, e, NotLineTerminator);
  }

  /** When the first occurrence of the key is followed by a capture, the search finds the field there. */
  lemma SearchFieldAtFirstKey(key: string, shape: Shape, s: string, p: nat, q: nat, e: nat)
    requires Find(s, key, 0) == Some(p)
    requires p + |key| <= q <= |s|
    requires forall j :: p + |key| <= j < q ==> IsSpace(s[j])
    requires q == |s| || !IsSpace(s[q])
    requires IsFieldCapture(s, shape, Hit(p, q, e, e))
    requires e == |s| || !InClass(s[e], CaptureClass(shape))
    ensures Search(Field(key, shape), s, 0) == Some(Hit(p, q, e, e))
  {
    MatchFieldComplete(key, shape, s, p, q, e);
    forall i | 0 <= i < p
      ensures MatchAt(Field(key, shape), s, i).None?
    {
      assert !OccursAt(s, i, key);
    }
    SearchIsLeftmost(Field(key, shape), s, 0, Hit(p, q, e, e));
  }

  /** The leftmost field match starts with the key, and its capture has the shape's characters. */
  lemma SearchFieldCapture(key: string, shape: Shape, s: string, from: nat, h: Hit)
    requires from <= |s| && Search(Field(key, shape), s, from) == Some(h)
    ensures h.at <= |s| && OccursAt(s, h.at, key) && IsFieldCapture(s, shape, h)
  {
    assert MatchField(key, shape, s, h.at) == Some(h);
    MatchFieldCapture(key, shape, s, h.at);
  }

  /** A `(\d+)` capture is a non-empty run of digits. */
  lemma DigitsCapture(s: string, h: Hit)
    requires IsFieldCapture(s, Digits, h)
    ensures h.lo < h.hi && AllDigits(s[h.lo..h.hi])
  {
    var ds := s[h.lo..h.hi];
    forall i | 0 <= i < |ds| ensures IsDigit(ds[i]) {
      assert ds[i] == s[h.lo + i];
    }
  }

  /** A `([+\-]?\d+)` capture is an optional sign, then a non-empty run of digits. */
  lemma SignedDigitsCapture(s: string, h: Hit)
    requires IsFieldCapture(s, SignedDigits, h)
    ensures h.lo < h.hi
    ensures var d := if IsSign(s[h.lo]) then h.lo + 1 else h.lo;
      d < h.hi && AllDigits(s[d..h.hi])
  {
    var d := if IsSign(s[h.lo]) then h.lo + 1 else h.lo;
    var ds := s[d..h.hi];
    forall i | 0 <= i < |ds| ensures IsDigit(ds[i]) {
      assert ds[i] == s[d + i];
    }
  }

  /** A `(.*)` capture holds no line break. */
  lemma LineCapture(s: string, h: Hit)
    requires IsFieldCapture(s, RestOfLine, h)
    ensures NoLineBreak(s[h.lo..h.hi])
  {
    var v := s[h.lo..h.hi];
    forall i | 0 <= i < |v| ensures !IsLineTerminator(v[i]) {
      assert v[i] == s[h.lo + i];
    }
  }

  /** A text that a capture of the shape can be on its own. */
  predicate ShapeText(shape: Shape, v: string) {
    match shape
    case Digits => v != [] && AllDigits(v)
    case SignedDigits => v != [] && (if IsSign(v[0]) then |v| > 1 && AllDigits(v[1..]) else AllDigits(v))
    case RestOfLine => NoLineBreak(v)
  }

  /**
   * Where the parts of `pre + key + ws + v + tail` lie: white space after
   * the key, then a capture of the shape that is exactly `v`.
   */
  lemma FieldLayout(key: string, shape: Shape, s: string, pre: string, ws: string, v: string, tail: string)
    requires s == pre + key + ws + v + tail
    requires AllSpace(ws) && v != [] && !IsSpace(v[0])
    requires ShapeText(shape, v)
    requires tail == [] || !InClass(tail[0], CaptureClass(shape))
    ensures var p := |pre|;
      var q := p + |key| + |ws|;
      var e := q + |v|;
      && e <= |s|
      && (forall j :: p + |key| <= j < q ==> IsSpace(s[j]))
      && (q == |s| || !IsSpace(s[q]))
      && IsFieldCapture(s, shape, Hit(p, q, e, e))
      && (e == |s| || !InClass(s[e], CaptureClass(shape)))
      && s[q..e] == v
  {
    var p := |pre|;
    var q := p + |key| + |ws|;
    var e := q + |v|;
    assert forall j :: p + |key| <= j < q ==> s[j] == ws[j - p - |key|];
    assert forall j :: q <= j < e ==> s[j] == v[j - q];
    assert e < |s| ==> s[e] == tail[0];
    assert s[q..e] == v;
    if shape.SignedDigits? && IsSign(v[0]) {
      assert forall j :: q + 1 <= j < e ==> s[j] == v[1..][j - q - 1];
    }
  }

  /** One attempt of `<open>([\s\S]*?)<close>` anchored at index `p`. */
  function MatchBlock(open: string, close: string, s: string, p: nat): (r: Option<Hit>)
    requires p <= |s|
    ensures r.Some? ==> r.value.at == p <= r.value.lo <= r.value.hi <= r.value.stop <= |s|
    ensures r.Some? ==> r.value.lo == p + |open| && r.value.stop == r.value.hi + |close|
  {
    var hasOpen := OccursAt(s, p, open);
    BlockAt(p, |open|, |close|, hasOpen, if hasOpen then Find(s, close, p + |open|) else None)
  }

  /** The block match at `p`, given whether the open tag is there and where the first close tag after it is. */
  function BlockAt(p: nat, openLen: nat, closeLen: nat, hasOpen: bool, closeAt: Option<nat>): Option<Hit> {
    if !hasOpen then None
    else
      match closeAt
      case None => None
      case Some(e) => Some(Hit(p, p + openLen, e, e + closeLen))
  }

  /** A block match is the open tag, the lazily captured body and the first close tag after it. */
  lemma MatchBlockIsBlockHit(open: string, close: string, s: string, p: nat)
    requires p <= |s| && MatchBlock(open, close, s, p).Some?
    ensures IsBlockHit(s, open, close, MatchBlock(open, close, s, p).value)
  {
  }

  /** An open tag followed, anywhere later, by a close tag is a match. */
  lemma MatchBlockComplete(open: string, close: string, s: string, p: nat)
    requires p <= |s| && OccursAt(s, p, open)
    requires Find(s, close, p + |open|).Some?
    ensures MatchBlock(open, close, s, p).Some?
  {
  }

  /** One attempt of `pat` anchored at index `p`. */
  function MatchAt(pat: Pattern, s: string, p: nat): (r: Option<Hit>)
    requires p <= |s|
    ensures r.Some? ==> r.value.at == p <= r.value.lo <= r.value.hi <= r.value.stop <= |s|
  {
    match pat
    case ArrayField(key) => MatchArray(key, s, p)
    case Field(key, shape) => MatchField(key, shape, s, p)
    case Block(open, close) => MatchBlock(open, close, s, p)
  }

  /** `String.prototype.match` / `RegExp.prototype.exec` from `lastIndex = from`: the leftmost match. */
  function Search(pat: Pattern, s: string, from: nat): (r: Option<Hit>)
    requires from <= |s|
    ensures r.Some? ==> from <= r.value.at <= |s| && MatchAt(pat, s, r.value.at) == r
    ensures r.Some? ==> forall p :: from <= p < r.value.at ==> MatchAt(pat, s, p).None?
    ensures r.None? ==> forall p :: from <= p <= |s| ==> MatchAt(pat, s, p).None?
    decreases |s| - from
  {
    var m := MatchAt(pat, s, from);
    if m.Some? || from == |s| then m
    else
      var r := Search(pat, s, from + 1);
      assert forall p :: from <= p <= from ==> MatchAt(pat, s, p).None?;
      r
  }

  /** The leftmost match is the only hit with no match before it. */
  lemma {:induction false} SearchIsLeftmost(pat: Pattern, s: string, from: nat, h: Hit)
    requires from <= h.at <= |s|
    requires MatchAt(pat, s, h.at) == Some(h)
    requires forall p :: from <= p < h.at ==> MatchAt(pat, s, p).None?
    ensures Search(pat, s, from) == Some(h)
    decreases h.at - from
  {
    if from < h.at {
      assert MatchAt(pat, s, from).None?;
      SearchIsLeftmost(pat, s, from + 1, h);
    }
  }

  /** A block closed inside `s` is matched at the same index, identically, in `s + t`. */
  lemma BlockMatchExtend(open: string, close: string, s: string, t: string, p: nat)
    requires p <= |s|
    requires MatchAt(Block(open, close), s, p).Some?
    ensures MatchAt(Block(open, close), s + t, p) == MatchAt(Block(open, close), s, p)
  {
    BlockAttempt(open, close, s, p);
    BlockAttempt(open, close, s + t, p);
    MatchBlockParts(open, close, s, p);
    OpenBlockExtend(open, close, s, t, p);
  }

  /** An open tag at `p` with a close tag after it inside `s` gives the same block match in `s + t`. */
  lemma OpenBlockExtend(open: string, close: string, s: string, t: string, p: nat)
    requires p + |open| <= |s| && OccursAt(s, p, open)
    requires Find(s, close, p + |open|).Some?
    ensures MatchBlock(open, close, s + t, p) == MatchBlock(open, close, s, p)
  {
    OccursAtExtend(s, t, p, open);
    FindExtend(s, t, close, p + |open|);
    MatchBlockAgrees(open, close, s, s + t, p);
  }

  /** An attempt of a block pattern is a block match. */
  lemma BlockAttempt(open: string, close: string, s: string, p: nat)
    requires p <= |s|
    ensures MatchAt(Block(open, close), s, p) == MatchBlock(open, close, s, p)
  {
  }

  /** A block match has its open tag at `p` and a close tag somewhere after it. */
  lemma MatchBlockParts(open: string, close: string, s: string, p: nat)
    requires p <= |s| && MatchBlock(open, close, s, p).Some?
    ensures OccursAt(s, p, open) && Find(s, close, p + |open|).Some?
  {
  }

  /** Two texts with the same open tag at `p` and the same first close tag after it match the same block there. */
  lemma MatchBlockAgrees(open: string, close: string, s: string, u: string, p: nat)
    requires p + |open| <= |s| && p + |open| <= |u|
    requires OccursAt(u, p, open) == OccursAt(s, p, open)
    requires Find(u, close, p + |open|) == Find(s, close, p + |open|)
    ensures MatchBlock(open, close, u, p) == MatchBlock(open, close, s, p)
  {
    var hasOpen := OccursAt(s, p, open);
    var closeAt := if hasOpen then Find(s, close, p + |open|) else None;
    assert MatchBlock(open, close, s, p) == BlockAt(p, |open|, |close|, hasOpen, closeAt);
    assert MatchBlock(open, close, u, p) == BlockAt(p, |open|, |close|, hasOpen, closeAt);
  }

  /** An index with no block match in `s`, before a closed block of `s`, has none in `s + t` either. */
  lemma BlockNoMatchExtend(open: string, close: string, s: string, t: string, p: nat, h: Hit)
    requires p < h.at <= |s|
    requires MatchAt(Block(open, close), s, h.at) == Some(h)
    requires MatchAt(Block(open, close), s, p).None?
    ensures MatchAt(Block(open, close), s + t, p).None?
  {
    assert OccursAt(s, h.hi, close);
    if p + |open| <= |s| {
      OccursAtExtend(s, t, p, open);
      if OccursAt(s, p, open) {
        MatchBlockComplete(open, close, s, p);
      }
    }
  }

  /**
   * Streaming stability of block matches: a block that is already closed in
   * `s` is matched identically once more text `t` has arrived.
   */
  lemma BlockSearchExtend(open: string, close: string, s: string, t: string, from: nat)
    requires from <= |s|
    requires Search(Block(open, close), s, from).Some?
    ensures Search(Block(open, close), s + t, from) == Search(Block(open, close), s, from)
  {
    var pat := Block(open, close);
    var h := Search(pat, s, from).value;
    BlockMatchExtend(open, close, s, t, h.at);
    forall p | from <= p < h.at
      ensures MatchAt(pat, s + t, p).None?
    {
      BlockNoMatchExtend(open, close, s, t, p, h);
    }
    SearchIsLeftmost(pat, s + t, from, h);
  }

  /** The first open tag from `from` and the first close tag after it make the block the search finds. */
  lemma BlockSearchFinds(open: string, close: string, s: string, from: nat, p: nat, e: nat)
    requires from <= |s|
    requires Find(s, open, from) == Some(p)
    requires Find(s, close, p + |open|) == Some(e)
    ensures Search(Block(open, close), s, from) == Some(Hit(p, p + |open|, e, e + |close|))
  {
    BlockAttempt(open, close, s, p);
    forall i | from <= i < p
      ensures MatchAt(Block(open, close), s, i).None?
    {
      BlockAttempt(open, close, s, i);
      assert !OccursAt(s, i, open);
    }
    SearchIsLeftmost(Block(open, close), s, from, Hit(p, p + |open|, e, e + |close|));
  }
}
