/** The texts of the judging protocol, written out: statuses, what makes a result acceptable, what a verdict shows. */
module JudgingTables {
  import opened Verdicts
  import opened GoText
  import opened JudgingProtocol

  // ---- Statuses ----

  function StatusText(status: Status): string {
    match status
    case Pending => "PENDING"
    case Judging => "JUDGING"
    case Accepted => "ACCEPTED"
    case WrongAnswer => "WRONG_ANSWER"
    case TimeLimitExceeded => "TIME_LIMIT_EXCEEDED"
    case MemoryLimitExceeded => "MEMORY_LIMIT_EXCEEDED"
    case OutputLimitExceeded => "OUTPUT_LIMIT_EXCEEDED"
    case RuntimeError => "RUNTIME_ERROR"
    case CompilationError => "COMPILATION_ERROR"
    case SystemError => "SYSTEM_ERROR"
  }

  /** A text is read as a status exactly when it is the text of that status. */
  lemma ParseStatusExactly(value: string, status: Status)
    ensures ParseStatus(value) == Some(status) <==> value == StatusText(status)
  {
    hide ParseStatus, StatusText;
    var parsed := ParseStatus(value);
    if parsed.Some? {
      ParsedHasText(value);
      StatusTextInjective(parsed.value, status);
    }
    if value == StatusText(status) {
      TextIsParsed(status);
    }
  }

  lemma ParsedHasText(value: string)
    ensures ParseStatus(value).Some? ==> value == StatusText(ParseStatus(value).value)
  {
    match ParseStatus(value)
    case None =>
    case Some(Pending) => assert value == "PENDING";
    case Some(Judging) => assert value == "JUDGING";
    case Some(Accepted) => assert value == "ACCEPTED";
    case Some(WrongAnswer) => assert value == "WRONG_ANSWER";
    case Some(TimeLimitExceeded) => assert value == "TIME_LIMIT_EXCEEDED";
    case Some(MemoryLimitExceeded) => assert value == "MEMORY_LIMIT_EXCEEDED";
    case Some(OutputLimitExceeded) => assert value == "OUTPUT_LIMIT_EXCEEDED";
    case Some(RuntimeError) => assert value == "RUNTIME_ERROR";
    case Some(CompilationError) => assert value == "COMPILATION_ERROR";
    case Some(SystemError) => assert value == "SYSTEM_ERROR";
  }

  lemma StatusTextInjective(a: Status, b: Status)
    ensures StatusText(a) == StatusText(b) ==> a == b
  {
    if StatusText(a) == StatusText(b) {
      assert |StatusText(a)| == |StatusText(b)| && StatusText(a)[0] == StatusText(b)[0];
    }
  }

  lemma TextIsParsed(status: Status)
    ensures ParseStatus(StatusText(status)) == Some(status)
  {
    var text := StatusText(status);
    var parsed := ParseStatus(text);
    assert text == "PENDING" || text == "JUDGING" || text == "ACCEPTED" || text == "WRONG_ANSWER"
           || text == "TIME_LIMIT_EXCEEDED" || text == "MEMORY_LIMIT_EXCEEDED" || text == "OUTPUT_LIMIT_EXCEEDED"
           || text == "RUNTIME_ERROR" || text == "COMPILATION_ERROR" || text == "SYSTEM_ERROR";
    assert parsed.Some?;
    assert text == StatusText(parsed.value);
    StatusTextInjective(parsed.value, status);
  }

  /** The statuses that are verdicts. */
  const VERDICTS: set<Status> := {
    Accepted, WrongAnswer, TimeLimitExceeded, MemoryLimitExceeded, OutputLimitExceeded, RuntimeError, CompilationError,
    SystemError
  }

  predicate IsVerdictText(value: string) {
    || value == "ACCEPTED" || value == "WRONG_ANSWER" || value == "TIME_LIMIT_EXCEEDED"
    || value == "MEMORY_LIMIT_EXCEEDED" || value == "OUTPUT_LIMIT_EXCEEDED" || value == "RUNTIME_ERROR"
    || value == "COMPILATION_ERROR" || value == "SYSTEM_ERROR"
  }

  lemma TerminalStatusExactly(value: string)
    ensures TerminalStatus(value).Some? <==> IsVerdictText(value)
    ensures TerminalStatus(value).Some? ==> value == StatusText(TerminalStatus(value).value)
    ensures TerminalStatus(value).Some? ==> TerminalStatus(value).value in VERDICTS
  {
    hide ParseStatus;
    var parsed := ParseStatus(value);
    if parsed.Some? {
      ParseStatusExactly(value, parsed.value);
      if !IsTerminal(parsed.value) {
        PendingIsNoVerdict();
      }
    }
    if IsVerdictText(value) {
      var status :| status in VERDICTS && value == StatusText(status);
      ParseStatusExactly(value, status);
    }
  }

  lemma PendingIsNoVerdict()
    ensures !IsVerdictText("PENDING") && !IsVerdictText("JUDGING")
  {}

  // ---- Acceptable results ----

  predicate HexDigits(s: string) {
    |s| == 64 && forall k :: 0 <= k < |s| ==> s[k] in "0123456789abcdef"
  }

  predicate GoodTest(t: TestItem) {
    t.index >= 1 && IsVerdictText(t.status) && t.status != "COMPILATION_ERROR"
  }

  /** What is asked of a result before the database is looked at. */
  predicate Acceptable(m: ResultMessage) {
    && m.submissionId >= 1 && !AllSpace(m.attemptId) && IsVerdictText(m.report.status)
    && (m.report.datasetChecksum.Some? ==> HexDigits(m.report.datasetChecksum.value))
    && forall k :: 0 <= k < |m.report.testCases| ==> GoodTest(m.report.testCases[k])
  }

  lemma HexDigestIs(s: string)
    ensures IsHexDigest(s) <==> HexDigits(s)
  {
    forall c: char ensures ('0' <= c <= '9' || 'a' <= c <= 'f') <==> c in "0123456789abcdef" {
      HexDigitIs(c);
    }
  }

  lemma HexDigitIs(c: char)
    ensures ('0' <= c <= '9' || 'a' <= c <= 'f') <==> c in "0123456789abcdef"
  {
    var digits := "0123456789abcdef";
    if '0' <= c <= '9' {
      assert digits[c as int - '0' as int] == c;
    } else if 'a' <= c <= 'f' {
      assert digits[10 + c as int - 'a' as int] == c;
    }
  }

  lemma GoodTestIs(t: TestItem)
    ensures ValidTest(t) <==> GoodTest(t)
  {
    hide TerminalStatus, IsVerdictText;
    TerminalStatusExactly(t.status);
  }

  /** The checks pass exactly for acceptable results; a status that is no verdict is told apart from other defects
      unless the ids are defective too. */
  lemma ValidateExactly(m: ResultMessage)
    ensures Validate(m) == Done <==> Acceptable(m)
    ensures Validate(m) == InvalidStatus <==>
            m.submissionId >= 1 && !AllSpace(m.attemptId) && !IsVerdictText(m.report.status)
    ensures Validate(m) in {Done, InvalidStatus, InvalidResult}
  {
    hide TrimSpace, AllSpace, TerminalStatus, IsVerdictText, ValidTest, GoodTest, IsHexDigest, HexDigits;
    TrimmedVisible(m.attemptId);
    TerminalStatusExactly(m.report.status);
    if m.report.datasetChecksum.Some? {
      HexDigestIs(m.report.datasetChecksum.value);
    }
    forall k | 0 <= k < |m.report.testCases|
      ensures ValidTest(m.report.testCases[k]) <==> GoodTest(m.report.testCases[k])
    {
      GoodTestIs(m.report.testCases[k]);
    }
  }

  // ---- What a verdict shows ----

  /** The worker's message as the user may see it, or else a fixed sentence. */
  predicate MessageOr(message: Option<string>, shown: Option<string>, sentence: string) {
    message == if shown == None then Some(sentence) else shown
  }

  /** The two texts stored with a verdict. */
  predicate TextsOf(clean: Option<string> -> Option<string>, sub: Submission, r: Report) {
    var shown := clean(r.errorMessage);
    match sub.status
    case CompilationError =>
      && sub.errorMessage == None
      && sub.compileOutput ==
           if r.compileOutput.Some? && !AllSpace(r.compileOutput.value) then r.compileOutput else None
    case RuntimeError => sub.compileOutput == None && sub.errorMessage == shown
    case TimeLimitExceeded =>
      sub.compileOutput == None && MessageOr(sub.errorMessage, shown, "Execution exceeded the time limit.")
    case MemoryLimitExceeded =>
      sub.compileOutput == None && MessageOr(sub.errorMessage, shown, "Execution exceeded the memory limit.")
    case OutputLimitExceeded =>
      sub.compileOutput == None && MessageOr(sub.errorMessage, shown, "Execution exceeded the output limit.")
    case SystemError =>
      sub.compileOutput == None && sub.errorMessage == Some("The judge could not complete this submission.")
    case _ => sub.compileOutput == None && sub.errorMessage == None
  }

  lemma CompletedTexts(clean: Option<string> -> Option<string>, sub: Submission, r: Report)
    requires TerminalStatus(r.status).Some?
    ensures TextsOf(clean, Completed(clean, sub, r), r)
    ensures r.status == StatusText(Completed(clean, sub, r).status)
    ensures Completed(clean, sub, r).status in VERDICTS
  {
    hide TerminalStatus, TrimSpace, AllSpace, StatusText;
    TerminalStatusExactly(r.status);
    if r.compileOutput.Some? {
      TrimmedVisible(r.compileOutput.value);
    }
  }
}
