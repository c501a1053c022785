/**
 * The two repair scans of parseJSONRobust (services/geminiService.ts).
 *
 * Both scans follow the string rules of section 7 of RFC 8259: a `"` that is
 * not escaped opens or closes a string, and a `\` that is not itself escaped
 * escapes the next character. As in the source, the escape flag is kept
 * outside strings too. The second scan also keeps a stack of the closers
 * expected for the structural characters `{` and `[` (section 2 of RFC 8259).
 *
 * Each scan is specified by a left fold (`StringScan`, `StackScan`) and
 * carried out by a method with a loop (`CloseString`, `CloseStructures`).
 */
module JsonRepair {

  /** The two flags of a scan. */
  datatype Flags = Flags(inString: bool, escaped: bool)

  const Start: Flags := Flags(false, false)

  /** One character of the string-closure scan. */
  function StringStep(f: Flags, c: char): Flags {
    Flags(if c == '"' && !f.escaped then !f.inString else f.inString,
          c == '\\' && !f.escaped)
  }

  /** The flags after scanning all of `s` from the start state. */
  function StringScan(s: string): (f: Flags)
    ensures f.escaped ==> |s| > 0 && s[|s| - 1] == '\\'
    decreases |s|
  {
    if s == [] then Start else StringStep(StringScan(s[..|s| - 1]), s[|s| - 1])
  }

  /** Length of the run of backslashes that `s` ends with. */
  function TrailingBackslashes(s: string): (n: nat)
    ensures n <= |s|
    decreases |s|
  {
    if s != [] && s[|s| - 1] == '\\' then TrailingBackslashes(s[..|s| - 1]) + 1 else 0
  }

  /**
   * The escape flag is independent of the string flag: it is set exactly when
   * `s` ends with an odd number of backslashes.
   */
  lemma {:induction false} EscapedIffOddBackslashes(s: string)
    ensures StringScan(s).escaped <==> TrailingBackslashes(s) % 2 == 1
    decreases |s|
  {
    if s != [] {
      EscapedIffOddBackslashes(s[..|s| - 1]);
    }
  }

  /** The text after the string-closure repair. */
  function CloseStringSpec(s: string): string {
    var f := StringScan(s);
    if !f.inString then s
    else (if f.escaped then s[..|s| - 1] else s) + "\""
  }

  /**
   * The string-closure repair: scanning ends inside a string only if a
   * closing quote is missing; then a dangling escape is dropped and exactly
   * one quote is appended. Otherwise the text is unchanged.
   */
  method CloseString(clean: string) returns (repaired: string)
    ensures repaired == CloseStringSpec(clean)
  {
    repaired := clean;
    var inString := false;
    var escaped := false;
    for i := 0 to |clean|
      invariant Flags(inString, escaped) == StringScan(clean[..i])
    {
      assert clean[..i + 1][..i] == clean[..i];
      if clean[i] == '"' && !escaped {
        inString := !inString;
      }
      if clean[i] == '\\' && !escaped {
        escaped := true;
      } else {
        escaped := false;
      }
    }
    assert clean[..|clean|] == clean;
    if inString {
      if escaped {
        repaired := repaired[..|repaired| - 1];
      }
      repaired := repaired + "\"";
    }
  }

  /** After the string-closure repair, a rescan ends outside any string. */
  lemma CloseStringEndsOutside(s: string)
    ensures !StringScan(CloseStringSpec(s)).inString
  {
    var f := StringScan(s);
    if f.inString {
      var body := if f.escaped then s[..|s| - 1] else s;
      var r := body + "\"";
      assert r[..|r| - 1] == body;
      if f.escaped {
        assert StringScan(s) == StringStep(StringScan(body), '\\');
      }
    }
  }

  /** Flags plus the stack of expected closers, top of the stack last. */
  datatype StackState = StackState(flags: Flags, stack: seq<char>)

  const StackStart: StackState := StackState(Start, [])

  predicate IsCloser(c: char) {
    c == '}' || c == ']'
  }

  predicate AllClosers(s: seq<char>) {
    forall i :: 0 <= i < |s| ==> IsCloser(s[i])
  }

  /** One character of the structural-closure scan. */
  function StackStep(st: StackState, c: char): StackState {
    var f := StringStep(st.flags, c);
    var stack :=
      if f.inString then st.stack
      else if c == '{' then st.stack + ['}']
      else if c == '[' then st.stack + [']']
      else if IsCloser(c) && |st.stack| > 0 && st.stack[|st.stack| - 1] == c then st.stack[..|st.stack| - 1]
      else st.stack;
    StackState(f, stack)
  }

  /** The state after scanning `s` from state `st`. */
  function StackRun(st: StackState, s: string): StackState
    decreases |s|
  {
    if s == [] then st else StackStep(StackRun(st, s[..|s| - 1]), s[|s| - 1])
  }

  /** The state after scanning `s` from the start state. */
  function StackScan(s: string): StackState {
    StackRun(StackStart, s)
  }

  /** Scanning a concatenation is scanning its parts in turn. */
  lemma {:induction false} StackRunAppend(st: StackState, p: string, q: string)
    ensures StackRun(st, p + q) == StackRun(StackRun(st, p), q)
    decreases |q|
  {
    if q == [] {
      assert p + q == p;
    } else {
      assert (p + q)[..|p + q| - 1] == p + q[..|q| - 1];
      StackRunAppend(st, p, q[..|q| - 1]);
    }
  }

  /** The flags of the structural scan are those of the string scan. */
  lemma {:induction false} StackScanFlags(s: string)
    ensures StackScan(s).flags == StringScan(s)
    decreases |s|
  {
    if s != [] {
      StackScanFlags(s[..|s| - 1]);
    }
  }

  /** Only closers are ever pushed, so the stack holds nothing else. */
  lemma {:induction false} StackHoldsClosers(st: StackState, s: string)
    requires AllClosers(st.stack)
    ensures AllClosers(StackRun(st, s).stack)
    decreases |s|
  {
    if s != [] {
      StackHoldsClosers(st, s[..|s| - 1]);
    }
  }

  /** The stack popped to empty: its elements innermost (last pushed) first. */
  function Closers(stack: seq<char>): (r: seq<char>)
    ensures |r| == |stack|
    ensures forall i :: 0 <= i < |r| ==> r[i] == stack[|stack| - 1 - i]
    decreases |stack|
  {
    if stack == [] then [] else [stack[|stack| - 1]] + Closers(stack[..|stack| - 1])
  }

  /**
   * The structural-closure repair. The scan pushes the closer of each `{` and
   * `[` met outside a string and pops a closer that equals the top of the
   * stack; any other closer is ignored. The closers still open are then
   * appended, last pushed first.
   */
  method CloseStructures(text: string) returns (repaired: string)
    ensures repaired == text + Closers(StackScan(text).stack)
  {
    var stack: seq<char> := [];
    var inString := false;
    var escaped := false;
    for i := 0 to |text|
      invariant StackState(Flags(inString, escaped), stack) == StackScan(text[..i])
    {
      assert text[..i + 1][..i] == text[..i];
      var c := text[i];
      if c == '"' && !escaped {
        inString := !inString;
      }
      if !inString {
        if c == '{' {
          stack := stack + ['}'];
        } else if c == '[' {
          stack := stack + [']'];
        } else if c == '}' || c == ']' {
          if |stack| > 0 {
            var last := stack[|stack| - 1];
            if last == c {
              stack := stack[..|stack| - 1];
            }
          }
        }
      }
      if c == '\\' && !escaped {
        escaped := true;
      } else {
        escaped := false;
      }
    }
    assert text[..|text|] == text;
    repaired := text;
    while |stack| > 0
      invariant repaired + Closers(stack) == text + Closers(StackScan(text).stack)
    {
      assert Closers(stack) == [stack[|stack| - 1]] + Closers(stack[..|stack| - 1]);
      repaired := repaired + [stack[|stack| - 1]];
      stack := stack[..|stack| - 1];
    }
  }

  /** Appending the pending closers outside a string empties the stack. */
  lemma {:induction false} ClosersDrain(st: StackState)
    requires !st.flags.inString
    requires AllClosers(st.stack)
    ensures StackRun(st, Closers(st.stack)).stack == []
    ensures !StackRun(st, Closers(st.stack)).flags.inString
    decreases |st.stack|
  {
    if st.stack != [] {
      var top := st.stack[|st.stack| - 1];
      var rest := Closers(st.stack[..|st.stack| - 1]);
      assert Closers(st.stack) == [top] + rest;
      StackRunAppend(st, [top], rest);
      assert StackRun(st, [top]) == StackStep(StackRun(st, []), top);
      var next := StackStep(st, top);
      assert next.stack == st.stack[..|st.stack| - 1];
      ClosersDrain(next);
    }
  }

  /** The whole repair applied when the direct parse fails. */
  function Repair(clean: string): string {
    var closed := CloseStringSpec(clean);
    closed + Closers(StackScan(closed).stack)
  }

  /** Rescanning the repaired text ends outside any string with every `{` and `[` closed. */
  lemma RepairIsBalanced(clean: string)
    ensures !StackScan(Repair(clean)).flags.inString
    ensures StackScan(Repair(clean)).stack == []
  {
    var closed := CloseStringSpec(clean);
    var st := StackScan(closed);
    CloseStringEndsOutside(clean);
    StackScanFlags(closed);
    StackHoldsClosers(StackStart, closed);
    StackRunAppend(StackStart, closed, Closers(st.stack));
    ClosersDrain(st);
  }

  /** A possibly empty `"` followed by closers only. */
  predicate ClosingSuffix(t: string) {
    AllClosers(t) || (|t| > 0 && t[0] == '"' && AllClosers(t[1..]))
  }

  /**
   * The repair only appends: the cleaned text, minus at most one trailing
   * backslash, then an optional `"`, then a suffix of `}` and `]`. The
   * backslash is dropped only when the text ends in a string with a dangling escape.
   */
  lemma RepairOnlyAppends(clean: string)
    ensures var r := Repair(clean);
      || (clean <= r && ClosingSuffix(r[|clean|..]))
      || (StringScan(clean).inString && StringScan(clean).escaped
          && clean[..|clean| - 1] <= r && ClosingSuffix(r[|clean| - 1..]))
  {
    var closed := CloseStringSpec(clean);
    var suffix := Closers(StackScan(closed).stack);
    StackHoldsClosers(StackStart, closed);
    assert AllClosers(suffix);
    var f := StringScan(clean);
    var r := closed + suffix;
    if !f.inString {
      assert r[|clean|..] == suffix;
      assert clean <= r;
    } else {
      var body := if f.escaped then clean[..|clean| - 1] else clean;
      QuotedSuffix(body, suffix);
      if !f.escaped {
        assert clean <= r;
      }
    }
  }

  /** `body + "\"" + suffix` starts with `body` and then has a closing suffix. */
  lemma QuotedSuffix(body: string, suffix: string)
    requires AllClosers(suffix)
    ensures body <= body + "\"" + suffix
    ensures ClosingSuffix((body + "\"" + suffix)[|body|..])
  {
    var r := body + "\"" + suffix;
    assert r[|body|..] == "\"" + suffix;
    assert ("\"" + suffix)[1..] == suffix;
  }

  /** Text that ends outside any string keeps every character it had. */
  lemma RepairKeepsClosedText(clean: string)
    requires !StringScan(clean).inString
    ensures Repair(clean) == clean + Closers(StackScan(clean).stack)
  {
  }
}
