/** The text the worker makes of a run, from `com.service.WorkerService`:
    `parseResult` picks the result line out of the container output or
    builds an error object from its first line (`summarizeError`), and the
    success envelope wraps the parsed result with the job id and the
    execution time. */
module WorkerCodec {
  import opened JavaLang
  import opened JavaString
  import DockerRunner

  /** What a submission prints in front of its result. */
  const ResultPrefix: string := "RESULT:"

  /** The index of the first line that starts with `RESULT:`, or the number
      of lines when none does. */
  function FirstResultLine(lines: seq<string>): (i: nat)
    ensures i <= |lines|
    ensures i < |lines| ==> StartsWith(lines[i], ResultPrefix)
    ensures forall j :: 0 <= j < i ==> !StartsWith(lines[j], ResultPrefix)
  {
    if lines == [] then 0
    else if StartsWith(lines[0], ResultPrefix) then 0
    else 1 + FirstResultLine(lines[1..])
  }

  /** `summarizeError(output)`: the first string `split` gives, with every
      double quote turned into a single quote; "Unknown error" when `split`
      gives none. */
  function SummarizeError(output: string): (r: string)
    ensures '"' !in r
  {
    var lines := Split(output);
    if |lines| > 0 then ReplaceChar(lines[0], '"', '\'') else "Unknown error"
  }

  const ErrorHead: string := "{\"status\":\"error\",\"message\":\""
  const ErrorTail: string := "\"}"

  /** The error object `parseResult` builds around a message. */
  function ErrorPayload(message: string): string
  {
    ErrorHead + message + ErrorTail
  }

  /** `parseResult(output)`: what follows `RESULT:` on the first line that
      starts with it, or else the error object for the output. */
  function ParseResult(output: string): (r: string)
    ensures (exists i :: 0 <= i < |Split(output)| && Split(output)[i] == ResultPrefix + r)
      || r == ErrorPayload(SummarizeError(output))
  {
    var lines := Split(output);
    var i := FirstResultLine(lines);
    if i < |lines| then
      assert lines[i] == ResultPrefix + lines[i][|ResultPrefix|..];
      lines[i][|ResultPrefix|..]
    else ErrorPayload(SummarizeError(output))
  }

  const EnvelopeHead: string := "{\"jobId\":\""
  const TimeField: string := "\",\"executionTimeMs\":"
  const ResultField: string := ",\"result\":"
  const EnvelopeTail: string := "}"

  /** The text published for a successful run: the job id in quotes, the
      time as a bare number and the parsed result as it is. A `null` job
      id is printed as "null". */
  function SuccessEnvelope(jobId: Nullable, executionTimeMs: Long, parsed: string): string
  {
    EnvelopeHead + Show(jobId) + TimeField + LongToString(executionTimeMs) + ResultField + parsed + EnvelopeTail
  }

  // ---------------------------------------------------------------------
  // Readers for the texts above
  // ---------------------------------------------------------------------

  /** The rest of `s` after `head`, if `s` starts with it. */
  function After(s: string, head: string): (r: Option<string>)
    ensures r.Some? ==> head + r.value == s
  {
    if StartsWith(s, head) then
      assert s == s[..|head|] + s[|head|..];
      Some(s[|head|..])
    else None
  }

  /** The message inside an error object. */
  function ReadErrorPayload(s: string): Option<string>
  {
    match After(s, ErrorHead)
    case None => None
    case Some(rest) =>
      if |rest| >= |ErrorTail| && rest[|rest| - |ErrorTail|..] == ErrorTail
      then Some(rest[..|rest| - |ErrorTail|]) else None
  }

  /** The job id, the time and the result inside a success envelope. */
  function ReadEnvelope(s: string): Option<(string, int, string)>
  {
    match After(s, EnvelopeHead)
    case None => None
    case Some(r0) =>
      match SplitAt(r0, '"')
      case None => None
      case Some((id, r1)) =>
        match After(r1, TimeField)
        case None => None
        case Some(r2) =>
          match ReadTimeAndResult(r2)
          case None => None
          case Some((ms, result)) => Some((id, ms, result))
  }

  /** The time and the result after the time field's name. */
  function ReadTimeAndResult(s: string): Option<(int, string)>
  {
    match SplitAt(s, ',')
    case None => None
    case Some((digits, r3)) =>
      match After(r3, ResultField)
      case None => None
      case Some(r4) =>
        match ParseLong(digits)
        case None => None
        case Some(ms) =>
          if r4 != [] && r4[|r4| - 1] == '}' then Some((ms, r4[..|r4| - 1])) else None
  }

  // ---------------------------------------------------------------------
  // Properties
  // ---------------------------------------------------------------------

  lemma {:induction false} AfterConcat(head: string, rest: string)
    ensures After(head + rest, head) == Some(rest)
  {
    assert (head + rest)[..|head|] == head;
    assert (head + rest)[|head|..] == rest;
  }

  /** "Unknown error" comes only from an output made of `\n` characters
      alone; any other output, the empty one too, gives its first line with
      double quotes turned into single quotes. */
  lemma {:induction false} SummarizeErrorMeaning(output: string)
    ensures SummarizeError(output) ==
      if output != "" && OnlyNewLines(output) then "Unknown error"
      else ReplaceChar(FirstLine(output), '"', '\'')
  {
    SplitEmptyIff(output);
    if Split(output) != [] {
      SplitHead(output);
    }
  }

  /** When the `k`-th line of the output is the first to start with
      `RESULT:`, the result is that line after the prefix, nothing added. */
  lemma {:induction false} ParseResultFound(output: string, k: nat)
    requires k < |Pieces(output)| && StartsWith(Pieces(output)[k], ResultPrefix)
    requires forall j :: 0 <= j < k ==> !StartsWith(Pieces(output)[j], ResultPrefix)
    ensures ParseResult(output) == Pieces(output)[k][|ResultPrefix|..]
  {
    SplitPrefixOfPieces(output);
    var lines := Split(output);
    assert !StartsWith("", ResultPrefix);
    assert forall j :: 0 <= j < |lines| ==> lines[j] == Pieces(output)[j];
    assert k < |lines|;
  }

  /** When no line of the output starts with `RESULT:`, the result is the
      error object around the summary of the output. */
  lemma {:induction false} ParseResultNotFound(output: string)
    requires forall j :: 0 <= j < |Pieces(output)| ==> !StartsWith(Pieces(output)[j], ResultPrefix)
    ensures ParseResult(output) == ErrorPayload(SummarizeError(output))
  {
    SplitPrefixOfPieces(output);
    var lines := Split(output);
    assert forall j :: 0 <= j < |lines| ==> lines[j] == Pieces(output)[j];
  }

  /** The error object gives its message back, and a summary, holding no
      double quote, cannot end the message early. */
  lemma {:induction false} ErrorPayloadRoundTrip(message: string)
    ensures ReadErrorPayload(ErrorPayload(message)) == Some(message)
  {
    AfterConcat(ErrorHead, message + ErrorTail);
    assert ErrorHead + message + ErrorTail == ErrorHead + (message + ErrorTail);
  }

  /** The success envelope gives back the job id, the time and the parsed
      result, provided the job id holds no double quote. */
  lemma {:induction false} EnvelopeRoundTrip(jobId: Nullable, executionTimeMs: Long, parsed: string)
    requires '"' !in Show(jobId)
    ensures ReadEnvelope(SuccessEnvelope(jobId, executionTimeMs, parsed)) == Some((Show(jobId), executionTimeMs as int, parsed))
  {
    var id := Show(jobId);
    var r2 := LongToString(executionTimeMs) + ResultField + parsed + EnvelopeTail;
    var r1 := TimeField + r2;
    var r0 := id + r1;
    EnvelopeParts(jobId, executionTimeMs, parsed);
    assert r1[0] == '"';
    AfterConcat(EnvelopeHead, r0);
    SplitAtConcat(id, r1, '"');
    AfterConcat(TimeField, r2);
    TimeAndResultRoundTrip(executionTimeMs, parsed);
  }

  lemma {:induction false} EnvelopeParts(jobId: Nullable, executionTimeMs: Long, parsed: string)
    ensures SuccessEnvelope(jobId, executionTimeMs, parsed) ==
      EnvelopeHead + (Show(jobId) + (TimeField + (LongToString(executionTimeMs) + ResultField + parsed + EnvelopeTail)))
  {
    Regroup(EnvelopeHead, Show(jobId), TimeField, LongToString(executionTimeMs) + ResultField + parsed + EnvelopeTail);
  }

  /** The time and the result read back from the envelope's tail. */
  lemma {:induction false} TimeAndResultRoundTrip(executionTimeMs: Long, parsed: string)
    ensures ReadTimeAndResult(LongToString(executionTimeMs) + ResultField + parsed + EnvelopeTail)
      == Some((executionTimeMs as int, parsed))
  {
    var digits := LongToString(executionTimeMs);
    var r4 := parsed + EnvelopeTail;
    var r3 := ResultField + r4;
    assert digits + ResultField + parsed + EnvelopeTail == digits + r3;
    assert ',' !in digits by {
      forall i | 0 <= i < |digits| ensures digits[i] != ',' {
        assert IsDigit(digits[i]) || digits[i] == '-';
      }
    }
    SplitAtConcat(digits, r3, ',');
    AfterConcat(ResultField, r4);
    LongRoundTrip(executionTimeMs);
    assert r4[..|r4| - 1] == parsed;
  }

  /** Dropping lines that do not start with `RESULT:` from the end does not
      move the first result line. */
  lemma {:induction false} FirstResultLineOfPrefix(a: seq<string>, b: seq<string>)
    requires a <= b
    requires forall j :: |a| <= j < |b| ==> !StartsWith(b[j], ResultPrefix)
    ensures FirstResultLine(a) == if FirstResultLine(b) < |b| then FirstResultLine(b) else |a|
  {
    var i, k := FirstResultLine(a), FirstResultLine(b);
    assert forall j :: 0 <= j < |a| ==> a[j] == b[j];
    if k < |b| {
      assert k < |a|;
      assert a[k] == b[k];
      assert i <= k;
      assert i < |a| ==> StartsWith(b[i], ResultPrefix);
    } else {
      assert forall j :: 0 <= j < |a| ==> !StartsWith(a[j], ResultPrefix);
    }
  }

  /** On the output the runner collects, the lines `split` sees are the
      lines read: the result is taken from the first of them that starts
      with `RESULT:`. */
  lemma {:induction false} ParseCapturedOutput(lines: seq<string>)
    requires forall i :: 0 <= i < |lines| ==> NewLine !in lines[i]
    ensures var k := FirstResultLine(lines);
      ParseResult(DockerRunner.Accumulated(lines)) ==
        if k < |lines| then lines[k][|ResultPrefix|..]
        else ErrorPayload(SummarizeError(DockerRunner.Accumulated(lines)))
  {
    DockerRunner.SplitCapturedOutput(lines);
    var output := DockerRunner.Accumulated(lines);
    var split := Split(output);
    if lines != [] {
      assert !StartsWith("", ResultPrefix);
      FirstResultLineOfPrefix(split, lines);
    }
  }

  /** When the runner read at least one non-empty line, the summary is the
      first line read, quotes turned; when it read none it is empty. */
  lemma {:induction false} SummarizeCapturedOutput(lines: seq<string>)
    requires forall i :: 0 <= i < |lines| ==> NewLine !in lines[i]
    ensures lines == [] ==> SummarizeError(DockerRunner.Accumulated(lines)) == ""
    ensures (exists i :: 0 <= i < |lines| && lines[i] != "") ==>
      SummarizeError(DockerRunner.Accumulated(lines)) == ReplaceChar(lines[0], '"', '\'')
  {
    DockerRunner.SplitCapturedOutput(lines);
    if exists i :: 0 <= i < |lines| && lines[i] != "" {
      var i :| 0 <= i < |lines| && lines[i] != "";
      var split := DropTrailingEmpty(lines);
      assert i < |split|;
      assert split[0] == lines[0];
    }
  }

  // ---------------------------------------------------------------------
  // The outputs of the worker's unit tests
  // ---------------------------------------------------------------------

  /** A single result line: the result is the JSON after the prefix. */
  lemma {:induction false} ResultLineExample()
    ensures ParseResult("RESULT:{\"success\":true}") == "{\"success\":true}"
  {
    var body := "{\"success\":true}";
    var s := ResultPrefix + body;
    assert s == "RESULT:{\"success\":true}";
    assert NewLine !in s;
    PiecesWithoutNewLine(s);
    assert s[..|ResultPrefix|] == ResultPrefix;
    assert s[|ResultPrefix|..] == body;
    ParseResultFound(s, 0);
  }

  /** An output of two lines, neither a result line: the first line, with
      quotes turned, becomes the message of the error object. */
  lemma {:induction false} TwoLineError(a: string, b: string)
    requires a != "" && NewLine !in a && NewLine !in b
    requires !StartsWith(a, ResultPrefix) && !StartsWith(b, ResultPrefix)
    ensures ParseResult(a + [NewLine] + b) == ErrorPayload(ReplaceChar(a, '"', '\''))
  {
    var s := a + [NewLine] + b;
    PiecesCons(a, b);
    PiecesWithoutNewLine(b);
    ParseResultNotFound(s);
    SummarizeErrorMeaning(s);
    assert s != "" && !OnlyNewLines(s) by { assert s[0] == a[0] != NewLine; }
    PiecesHead(s);
  }

  /** The first line of the worker's unit test error text, quotes turned. */
  lemma {:induction false} QuotesTurnedExample()
    ensures ReplaceChar("Error \"message\"", '"', '\'') == "Error 'message'"
  {
  }

  /** The error text of the worker's unit test. */
  lemma {:induction false} ErrorOutputExample(output: string)
    requires output == "Error \"message\"\nStack trace"
    ensures ParseResult(output) == ErrorPayload("Error 'message'")
  {
    var a, b := "Error \"message\"", "Stack trace";
    assert a + [NewLine] + b == output;
    assert NewLine !in a && NewLine !in b;
    assert !StartsWith(a, ResultPrefix) by { assert a[..7][0] != ResultPrefix[0]; }
    assert !StartsWith(b, ResultPrefix) by { assert b[..7][0] != ResultPrefix[0]; }
    TwoLineError(a, b);
    QuotesTurnedExample();
  }

  /** The worker's unit test whose container prints one result line: the
      envelope published for it carries the job id, the time and the JSON
      text after the prefix. */
  lemma {:induction false} SuccessEnvelopeExample(output: string)
    requires output == "RESULT:{\"success\":true}"
    ensures ReadEnvelope(SuccessEnvelope(Some("job-123"), 100, ParseResult(output)))
      == Some(("job-123", 100, "{\"success\":true}"))
  {
    ResultLineExample();
    assert ParseResult(output) == "{\"success\":true}";
    assert '"' !in Show(Some("job-123"));
    EnvelopeRoundTrip(Some("job-123"), 100, ParseResult(output));
  }
}
