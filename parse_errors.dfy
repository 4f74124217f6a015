/** Normalisation of the parser's raw errors into one record shape, and the per-file
    result of `parseFile`. */
module ParseErrors {
  import opened Wrappers
  import opened JsText
  import opened JsValues
  import opened ParsePositions

  /** One entry of the parser's `errors` array as `normalizeErrors` reads it. An entry that
      is `null` or `undefined` is `NullError`. `labels` lists the `start` of each label (a
      label without a numeric `start` is `NotANumber`; an absent `labels` is `[]`).
      Fields the entry lacks, or holds as `null`, are `None`. */
  datatype RawError =
    | NullError
    | RawError(message: Option<string>, labels: seq<OffsetArg>, codeframe: Option<string>,
               line: Option<int>, column: Option<int>, context: Option<LineContext>)

  /** The uniform error record: `{ message, line, column, codeframe, context }`. */
  datatype NormalizedError =
    NormalizedError(message: string, line: Option<int>, column: Option<int>,
                    codeframe: Option<string>, context: LineContext)

  const UnknownParseError := "Unknown parse error"

  /** `error?.message ?? "Unknown parse error"`. */
  function MessageOf(e: RawError): string {
    if e.RawError? && e.message.Some? then e.message.value else UnknownParseError
  }

  /** `error?.codeframe ?? null`. */
  function CodeframeOf(e: RawError): Option<string> {
    if e.RawError? then e.codeframe else None
  }

  /** `label?.start` for `label = error?.labels?.[0]`. */
  function FirstLabelStart(e: RawError): OffsetArg {
    if e.RawError? && |e.labels| > 0 then e.labels[0] else NotANumber
  }

  /** One error, normalised. With oxc the position comes from the first label's offset
      and the context is cut around it; with the TypeScript parser position and context
      are kept as they are. */
  function NormalizeOne(e: RawError, code: string, usedOxc: bool): NormalizedError {
    if usedOxc then
      var pos := LineColumnOf(code, FirstLabelStart(e));
      NormalizedError(MessageOf(e), pos.line, pos.column, CodeframeOf(e),
                      LineContextOf(code, pos.line, pos.column, 2))
    else if e.RawError? then
      NormalizedError(MessageOf(e), e.line, e.column, e.codeframe, e.context.GetOr(NoContext))
    else
      NormalizedError(UnknownParseError, None, None, None, NoContext)
  }

  /** `normalizeErrors(rawErrors, code, usedOxc)`: a missing array is empty, and every
      entry is normalised in place, so length and order are kept. */
  function NormalizeErrors(raw: Option<seq<RawError>>, code: string, usedOxc: bool): (r: seq<NormalizedError>)
    ensures |r| == |raw.GetOr([])|
    ensures forall k :: 0 <= k < |r| ==> r[k] == NormalizeOne(raw.GetOr([])[k], code, usedOxc)
  {
    var es := raw.GetOr([]);
    seq(|es|, k requires 0 <= k < |es| => NormalizeOne(es[k], code, usedOxc))
  }

  /** The message survives normalisation when present, and defaults otherwise. */
  lemma NormalizedMessages(raw: seq<RawError>, code: string, usedOxc: bool, k: int)
    requires 0 <= k < |raw|
    ensures var r := NormalizeErrors(Some(raw), code, usedOxc);
            && (raw[k].RawError? && raw[k].message.Some? ==> r[k].message == raw[k].message.value)
            && (raw[k].NullError? || raw[k].message.None? ==> r[k].message == "Unknown parse error")
  {
  }

  /** With oxc, an error whose first label has a numeric offset lands on a line of the
      file, and that line is one of its own context lines. */
  lemma OxcErrorLineInContext(e: RawError, code: string)
    requires FirstLabelStart(e).Number? && !FirstLabelStart(e).n.NaN?
    ensures var n := NormalizeOne(e, code, true);
            && n.line.Some? && 1 <= n.line.value <= |Split(code, '\n')|
            && exists k :: 0 <= k < |n.context.lines| && n.context.lines[k].line == n.line.value
  {
    var x := FirstLabelStart(e).n;
    var p := PrefixLength(code, x);
    var prefix := code[..p];
    NewlineCountIsOccurrences(prefix);
    SplitFacts(code, '\n');
    assert code == prefix + code[p..];
    assert multiset(code) == multiset(prefix) + multiset(code[p..]);
    var n := NormalizeOne(e, code, true);
    assert n.line.value == 1 + NewlineCount(prefix);
    ErrorLineInWindow(code, n.line.value, n.column, 2);
  }

  /** With oxc, the position and context the parser reported play no part: only the
      message, the first label's offset and the codeframe matter. */
  lemma OxcIgnoresReportedPosition(e: RawError, code: string, line: Option<int>, column: Option<int>,
                                   context: Option<LineContext>)
    requires e.RawError?
    ensures NormalizeOne(e.(line := line, column := column, context := context), code, true)
            == NormalizeOne(e, code, true)
  {
  }

  /** With the TypeScript parser, the file's text plays no part: the reported position
      and context are taken as they are. */
  lemma TypeScriptIgnoresCode(e: RawError, code: string, other: string)
    ensures NormalizeOne(e, code, false) == NormalizeOne(e, other, false)
  {
  }

  /** `{ file, errors }`, one per parsed file. */
  datatype FileResult = FileResult(file: string, errors: seq<NormalizedError>)

  /** What the parser gave back for a file's text: its error list (`null` or missing when
      `None`), or the exception reading or parsing threw. */
  type ParserRun = Completion<Option<seq<RawError>>>

  /** `parseFile`: the normalised errors, or a single error record naming the failure. */
  function ParseFileResult(filename: string, code: string, run: ParserRun, usedOxc: bool): FileResult {
    match run
    case Returned(raw) => FileResult(filename, NormalizeErrors(raw, code, usedOxc))
    case Threw(message) =>
      FileResult(filename, [NormalizedError("Failed to read/parse file: " + message, None, None, None, NoContext)])
  }
}
