/**
 * The error-message mapping of the two catch blocks in
 * services/geminiService.ts: an ordered classifier over the code, message
 * and status of whatever was thrown.
 */
module ErrorMapping {
  import opened Wrappers
  import opened Text

  /**
   * What the catch blocks read of a thrown value: `error.code`,
   * `error.message`, `error.status` (each possibly absent) and whether it is
   * a SyntaxError.
   */
  datatype ErrorInfo = ErrorInfo(code: Option<int>, message: Option<string>, status: Option<string>, isSyntaxError: bool)

  const MissingKey: string := "API_KEY is missing"
  const QuotaExceeded: string := "Gemini Quota Exceeded. Please check your billing/quota limits."
  const AccessDenied: string := "Invalid API Key or Model Access Denied."
  const Overloaded: string := "Gemini Service is currently overloaded. Please try again in a few moments."
  const InvalidResponse: string := "The AI model generated an invalid or incomplete response. Please try again."
  const Unexpected: string := "An unexpected error occurred during analysis."
  const RlQuotaExceeded: string := "RL Simulation Quota Exceeded. Upgrade plan."
  const RlFailurePrefix: string := "Failed to run RL simulation: "

  /** `error.message?.includes(w)`: false when there is no message. */
  predicate MessageIncludes(e: ErrorInfo, w: string) {
    e.message.Some? && Find(e.message.value, w, 0).Some?
  }

  /** `error.code === 429 || error.message?.includes("429")`. */
  predicate IsRateLimited(e: ErrorInfo) {
    e.code == Some(429) || MessageIncludes(e, "429")
  }

  /** The analysis's quota check: a rate limit, or the RESOURCE_EXHAUSTED status. */
  predicate IsQuotaError(e: ErrorInfo) {
    IsRateLimited(e) || e.status == Some("RESOURCE_EXHAUSTED")
  }

  /** `error.message?.includes("403") || error.message?.includes("API key not valid")`. */
  predicate IsAccessError(e: ErrorInfo) {
    MessageIncludes(e, "403") || MessageIncludes(e, "API key not valid")
  }

  /**
   * The message of the error analyzeModelCode rejects with. Checks run in a
   * fixed order and the first that applies decides; a missing API key is
   * rethrown as it is.
   */
  function ClassifyAnalysisError(e: ErrorInfo): (r: string)
    ensures r != []
    ensures MessageIncludes(e, MissingKey) ==> r == e.message.value
    ensures !MessageIncludes(e, MissingKey) && IsQuotaError(e) ==> r == QuotaExceeded
    ensures !MessageIncludes(e, MissingKey) && !IsQuotaError(e) && IsAccessError(e) ==> r == AccessDenied
    ensures !MessageIncludes(e, MissingKey) && !IsQuotaError(e) && !IsAccessError(e) && MessageIncludes(e, "503") ==> r == Overloaded
    ensures !MessageIncludes(e, MissingKey) && !IsQuotaError(e) && !IsAccessError(e) && !MessageIncludes(e, "503") ==>
      r == if e.isSyntaxError then InvalidResponse else if e.message.Some? && e.message.value != "" then e.message.value else Unexpected
    ensures r in {QuotaExceeded, AccessDenied, Overloaded, InvalidResponse, Unexpected} || (e.message.Some? && r == e.message.value)
  {
    if MessageIncludes(e, MissingKey) then e.message.value
    else if IsQuotaError(e) then QuotaExceeded
    else if IsAccessError(e) then AccessDenied
    else if MessageIncludes(e, "503") then Overloaded
    else if e.isSyntaxError then InvalidResponse
    else if e.message.Some? && e.message.value != "" then e.message.value
    else Unexpected
  }

  /** The message of the error runStream rejects with. */
  function ClassifyRlError(e: ErrorInfo): (r: string)
    ensures IsRateLimited(e) <==> r == RlQuotaExceeded
    ensures !IsRateLimited(e) ==> StartsWith(r, RlFailurePrefix)
  {
    if IsRateLimited(e) then RlQuotaExceeded
    else
      var r := RlFailurePrefix + (if e.message.Some? then e.message.value else "undefined");
      assert r[0] != RlQuotaExceeded[0];
      r
  }

  /** The RL failure message carries the original message after its prefix. */
  lemma RlFailureKeepsMessage(e: ErrorInfo)
    requires !IsRateLimited(e) && e.message.Some?
    ensures ClassifyRlError(e)[|RlFailurePrefix|..] == e.message.value
  {
  }

  /** A plain error with message `m` (no code, no status, not a SyntaxError). */
  function Plain(m: string): ErrorInfo {
    ErrorInfo(None, Some(m), None, false)
  }

  /** No character of `m` is `_`, `4`, `5` or `k`, so none of the classifier's markers can occur in it. */
  predicate Unmarked(m: string) {
    forall i :: 0 <= i < |m| ==> m[i] != '_' && m[i] != '4' && m[i] != '5' && m[i] != 'k'
  }

  /** A non-empty unmarked message reaches the caller verbatim. */
  lemma UnmarkedMessagePassesThrough(m: string)
    requires m != [] && Unmarked(m)
    ensures ClassifyAnalysisError(Plain(m)) == m
  {
    MissingCharNoOccurrence(m, MissingKey, 3, '_');
    MissingCharNoOccurrence(m, "429", 0, '4');
    MissingCharNoOccurrence(m, "403", 0, '4');
    MissingCharNoOccurrence(m, "API key not valid", 4, 'k');
    MissingCharNoOccurrence(m, "503", 0, '5');
    var e := Plain(m);
    assert !MessageIncludes(e, MissingKey) && !IsRateLimited(e);
    assert !MessageIncludes(e, "403") && !MessageIncludes(e, "API key not valid") && !MessageIncludes(e, "503");
  }
}
