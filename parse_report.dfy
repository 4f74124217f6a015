/** The directory-scan report: which files failed, how many errors there are, the
    human-readable listing and the one-line JSON summary. */
module ParseReport {
  import opened Wrappers
  import opened JsText
  import opened ParsePositions
  import opened ParseErrors

  /** `results.filter(r => r.errors.length > 0)`: the failing files, in order. */
  function FilesWithErrors(results: seq<FileResult>): (failing: seq<FileResult>)
    ensures |failing| <= |results|
    ensures forall k :: 0 <= k < |failing| ==> |failing[k].errors| > 0 && failing[k] in results
    ensures forall r :: r in results && |r.errors| > 0 ==> r in failing
  {
    if results == [] then []
    else
      var rest := FilesWithErrors(results[1..]);
      assert forall r :: r in results[1..] ==> r in results;
      if |results[0].errors| > 0 then [results[0]] + rest else rest
  }

  /** A single result is kept exactly when it has errors. */
  lemma FilesWithErrorsSingle(r: FileResult)
    ensures FilesWithErrors([r]) == if |r.errors| > 0 then [r] else []
  {
    assert [r][1..] == [];
  }

  /** The filter works result by result: filtering a concatenation concatenates the
      filtered parts, so the scan order is kept and no result is merged or repeated. */
  lemma {:induction false} FilesWithErrorsAppend(a: seq<FileResult>, b: seq<FileResult>)
    ensures FilesWithErrors(a + b) == FilesWithErrors(a) + FilesWithErrors(b)
  {
    if a == [] {
      assert a + b == b;
    } else {
      assert (a + b)[0] == a[0];
      assert (a + b)[1..] == a[1..] + b;
      FilesWithErrorsAppend(a[1..], b);
    }
  }

  /** Without a truthy line the headline has no location suffix. */
  lemma HeadlineWithoutLocation(file: string, err: NormalizedError)
    requires !IsTruthyNumber(err.line)
    ensures Headline(file, err) == "error: " + file + " - " + err.message
  {
    assert "error: " + file + Location(err) == "error: " + file;
  }

  /** The result of `parseFile` as the scan reports it. A read or parse failure is a
      failing file with one error, whose headline has no location. A parser that gave no
      error array leaves a passing file; one that gave errors, a failing file with as
      many errors. */
  lemma ParseFileReported(filename: string, code: string, run: ParserRun, usedOxc: bool)
    ensures var r := ParseFileResult(filename, code, run, usedOxc);
            && r.file == filename
            && (run.Threw? ==>
                  && FilesWithErrors([r]) == [r] && TotalErrors([r]) == 1
                  && Headline(filename, r.errors[0])
                     == "error: " + filename + " - " + ("Failed to read/parse file: " + run.message))
            && (run.Returned? ==> TotalErrors([r]) == |run.value.GetOr([])|)
            && (run.Returned? && run.value.None? ==> FilesWithErrors([r]) == [])
  {
    var r := ParseFileResult(filename, code, run, usedOxc);
    FilesWithErrorsSingle(r);
    assert [r][1..] == [];
    match run
    case Threw(message) =>
      var err := r.errors[0];
      assert err.line == None;
      HeadlineWithoutLocation(filename, err);
    case Returned(raw) =>
  }

  /** `filesWithErrors.reduce((sum, entry) => sum + entry.errors.length, 0)`. */
  function TotalErrors(files: seq<FileResult>): nat {
    if files == [] then 0 else |files[0].errors| + TotalErrors(files[1..])
  }

  /** Filtering out the clean files loses no error. */
  lemma {:induction false} FilterKeepsTotal(results: seq<FileResult>)
    ensures TotalErrors(FilesWithErrors(results)) == TotalErrors(results)
  {
    if results != [] {
      FilterKeepsTotal(results[1..]);
      var rest := FilesWithErrors(results[1..]);
      if |results[0].errors| > 0 {
        assert ([results[0]] + rest)[1..] == rest;
      }
    }
  }

  /** The scan succeeds, with no failing file, exactly when there is no error at all; and
      each failing file holds at least one error. */
  lemma {:induction false} NoFailingFileIffNoError(results: seq<FileResult>)
    ensures FilesWithErrors(results) == [] <==> TotalErrors(results) == 0
    ensures |FilesWithErrors(results)| <= TotalErrors(results)
  {
    if results != [] {
      NoFailingFileIffNoError(results[1..]);
      var rest := FilesWithErrors(results[1..]);
      if |results[0].errors| > 0 {
        assert |[results[0]] + rest| == 1 + |rest|;
      }
    }
  }

  /** One entry of the summary's `errors` array. */
  datatype SummaryError = SummaryError(file: string, line: Option<int>, column: Option<int>, message: string)

  /** The object `formatJsonSummary` serialises. */
  datatype JsonSummary =
    JsonSummary(passed: bool, totalFiles: nat, totalErrors: nat, filesWithErrors: nat, errors: seq<SummaryError>)

  function SummaryEntry(file: string, err: NormalizedError): SummaryError {
    SummaryError(file, err.line, err.column, err.message)
  }

  /** `entry.errors.map(...)` for one file. */
  function EntryErrors(entry: FileResult): (es: seq<SummaryError>)
    ensures |es| == |entry.errors|
    ensures forall j :: 0 <= j < |es| ==> es[j] == SummaryEntry(entry.file, entry.errors[j])
  {
    seq(|entry.errors|, j requires 0 <= j < |entry.errors| => SummaryEntry(entry.file, entry.errors[j]))
  }

  /** `filesWithErrors.flatMap(...)`. */
  function FlatErrors(files: seq<FileResult>): seq<SummaryError> {
    if files == [] then [] else EntryErrors(files[0]) + FlatErrors(files[1..])
  }

  /** The flattened list has one entry per error. */
  lemma {:induction false} FlatErrorsLength(files: seq<FileResult>)
    ensures |FlatErrors(files)| == TotalErrors(files)
  {
    if files != [] {
      FlatErrorsLength(files[1..]);
    }
  }

  /** One file contributes exactly its own entries. */
  lemma FlatErrorsSingle(f: FileResult)
    ensures FlatErrors([f]) == EntryErrors(f)
  {
    assert [f][1..] == [];
  }

  /** Flattening works file by file: the entries of `a` come first, then those of `b`. */
  lemma {:induction false} FlatErrorsAppend(a: seq<FileResult>, b: seq<FileResult>)
    ensures FlatErrors(a + b) == FlatErrors(a) + FlatErrors(b)
  {
    if a == [] {
      assert a + b == b;
    } else {
      assert (a + b)[0] == a[0];
      assert (a + b)[1..] == a[1..] + b;
      FlatErrorsAppend(a[1..], b);
      ConcatAssoc(EntryErrors(a[0]), FlatErrors(a[1..]), FlatErrors(b));
    }
  }

  /** Error counts add up over a concatenation. */
  lemma {:induction false} TotalErrorsAppend(a: seq<FileResult>, b: seq<FileResult>)
    ensures TotalErrors(a + b) == TotalErrors(a) + TotalErrors(b)
  {
    if a == [] {
      assert a + b == b;
    } else {
      assert (a + b)[0] == a[0];
      assert (a + b)[1..] == a[1..] + b;
      TotalErrorsAppend(a[1..], b);
    }
  }

  /** The `j`-th error of the `i`-th file is entry `TotalErrors(files[..i]) + j` of the
      summary, so with the length the order and the repetitions are fixed. */
  lemma FlatErrorsAt(files: seq<FileResult>, i: int, j: int)
    requires 0 <= i < |files| && 0 <= j < |files[i].errors|
    ensures TotalErrors(files[..i]) + j < |FlatErrors(files)|
    ensures FlatErrors(files)[TotalErrors(files[..i]) + j] == SummaryEntry(files[i].file, files[i].errors[j])
  {
    var before, rest := files[..i], files[i + 1..];
    assert files == before + ([files[i]] + rest);
    FlatErrorsAppend(before, [files[i]] + rest);
    FlatErrorsAppend([files[i]], rest);
    FlatErrorsSingle(files[i]);
    FlatErrorsLength(before);
    var flat := FlatErrors(files);
    assert flat == FlatErrors(before) + (EntryErrors(files[i]) + FlatErrors(rest));
    assert flat[|FlatErrors(before)| + j] == EntryErrors(files[i])[j];
  }

  /** `err`, the `j`-th error of the `i`-th file, is reported as `e`. */
  predicate ReportedAt(files: seq<FileResult>, i: int, j: int, e: SummaryError) {
    0 <= i < |files| && 0 <= j < |files[i].errors| && e == SummaryEntry(files[i].file, files[i].errors[j])
  }

  /** The summary lists every error of every file, under its file name, and nothing else. */
  lemma {:induction false} FlatErrorsMembership(files: seq<FileResult>, e: SummaryError)
    ensures e in FlatErrors(files) <==> exists i, j :: ReportedAt(files, i, j, e)
  {
    if files != [] {
      FlatErrorsMembership(files[1..], e);
      var head := EntryErrors(files[0]);
      assert FlatErrors(files) == head + FlatErrors(files[1..]);
      if e in head {
        var j :| 0 <= j < |head| && head[j] == e;
        assert ReportedAt(files, 0, j, e);
      } else if e in FlatErrors(files[1..]) {
        var i, j :| ReportedAt(files[1..], i, j, e);
        assert ReportedAt(files, i + 1, j, e);
      }
      if exists i, j :: ReportedAt(files, i, j, e) {
        var i, j :| ReportedAt(files, i, j, e);
        if i == 0 {
          assert head[j] == e;
        } else {
          assert ReportedAt(files[1..], i - 1, j, e);
        }
      }
    }
  }

  /** `formatJsonSummary(filesWithErrors, totalErrors, totalFiles)`, before serialisation. */
  function FormatJsonSummary(files: seq<FileResult>, totalErrors: nat, totalFiles: nat): (s: JsonSummary)
    ensures !s.passed && s.totalFiles == totalFiles && s.totalErrors == totalErrors
    ensures s.filesWithErrors == |files|
    ensures |s.errors| == TotalErrors(files)
    ensures forall e :: e in s.errors <==> exists i, j :: ReportedAt(files, i, j, e)
  {
    FlatErrorsLength(files);
    forall e ensures e in FlatErrors(files) <==> exists i, j :: ReportedAt(files, i, j, e) {
      FlatErrorsMembership(files, e);
    }
    JsonSummary(false, totalFiles, totalErrors, |files|, FlatErrors(files))
  }

  /** The summary's `errors` keep file order, then error order: the `j`-th error of the
      `i`-th file is entry `TotalErrors(files[..i]) + j`. With the length this fixes the list. */
  lemma JsonSummaryOrder(files: seq<FileResult>, totalErrors: nat, totalFiles: nat, i: int, j: int)
    requires 0 <= i < |files| && 0 <= j < |files[i].errors|
    ensures var s := FormatJsonSummary(files, totalErrors, totalFiles);
            && TotalErrors(files[..i]) + j < |s.errors|
            && s.errors[TotalErrors(files[..i]) + j] == SummaryEntry(files[i].file, files[i].errors[j])
  {
    FlatErrorsAt(files, i, j);
  }

  /** The error count of the summary printed by a scan agrees with its error list and
      with the results, and there are no more failing files than errors or files. */
  lemma ScanSummaryConsistent(results: seq<FileResult>)
    ensures var failing := FilesWithErrors(results);
            var s := FormatJsonSummary(failing, TotalErrors(failing), |results|);
            && s.totalErrors == |s.errors| == TotalErrors(results)
            && s.filesWithErrors <= s.totalErrors
            && s.filesWithErrors <= s.totalFiles
  {
    FilterKeepsTotal(results);
    NoFailingFileIffNoError(results);
  }

  /** The first line of the listing. */
  function Header(totalErrors: nat, fileCount: nat): string {
    "Parse error: Found " + NatToString(totalErrors) + " syntax error(s) in " + NatToString(fileCount) + " file(s):"
  }

  /** `:line:column` when both are truthy, else nothing. */
  function Location(err: NormalizedError): string {
    if IsTruthyNumber(err.line) && IsTruthyNumber(err.column)
    then ":" + IntToString(err.line.value) + ":" + IntToString(err.column.value)
    else ""
  }

  /** The location suffix appears exactly when line and column are both truthy. */
  lemma LocationOnlyWhenTruthy(err: NormalizedError)
    ensures Location(err) != [] <==> IsTruthyNumber(err.line) && IsTruthyNumber(err.column)
    ensures Location(err) != [] ==> Location(err)[0] == ':'
  {
  }

  function Headline(file: string, err: NormalizedError): string {
    "error: " + file + Location(err) + " - " + err.message
  }

  /** `err.codeframe` is truthy. */
  predicate HasCodeframe(err: NormalizedError) {
    err.codeframe.Some? && err.codeframe.value != ""
  }

  /** `"    " + piece` for each piece, in order. */
  function Indented(pieces: seq<string>): (r: seq<string>)
    ensures |r| == |pieces|
    ensures forall k :: 0 <= k < |r| ==> r[k] == "    " + pieces[k]
  {
    if pieces == [] then [] else Indented(pieces[..|pieces| - 1]) + ["    " + pieces[|pieces| - 1]]
  }

  /** The lines of a codeframe: trimmed, split at newlines and indented. */
  function FrameLines(frame: string): seq<string> {
    Indented(Split(Trim(frame), '\n'))
  }

  /** A context line matches the error when its number is `err.line`. */
  predicate OnErrorLine(err: NormalizedError, cl: ContextLine) {
    err.line == Some(cl.line)
  }

  function Marker(err: NormalizedError, cl: ContextLine): char {
    if OnErrorLine(err, cl) then '>' else ' '
  }

  function ContextLineText(err: NormalizedError, cl: ContextLine): string {
    "  " + [Marker(err, cl)] + " " + IntToString(cl.line) + " | " + cl.content
  }

  /** The listing lines for one context line: the line itself, and the caret line under the
      error line when there is a caret. */
  function ContextEntry(err: NormalizedError, cl: ContextLine): seq<string> {
    [ContextLineText(err, cl)]
    + (if OnErrorLine(err, cl) && err.context.indicator != "" then ["      | " + err.context.indicator] else [])
  }

  /** The listing lines for a run of context lines. */
  function ContextLines(err: NormalizedError, cls: seq<ContextLine>): seq<string> {
    if cls == [] then [] else ContextLines(err, cls[..|cls| - 1]) + ContextEntry(err, cls[|cls| - 1])
  }

  /** The `>` marker is on exactly the lines whose number is the error line. */
  lemma MarkerOnlyOnErrorLine(err: NormalizedError, cl: ContextLine)
    ensures ContextLineText(err, cl)[2] == '>' <==> err.line == Some(cl.line)
    ensures ContextLineText(err, cl)[2] == ' ' <==> err.line != Some(cl.line)
  {
  }

  /** How many of `cls` are on the error line. */
  function MatchCount(err: NormalizedError, cls: seq<ContextLine>): nat {
    if cls == [] then 0 else MatchCount(err, cls[..|cls| - 1]) + (if OnErrorLine(err, cls[|cls| - 1]) then 1 else 0)
  }

  /** One listing line per context line, plus one caret line per line on the error line
      when there is a caret. */
  lemma {:induction false} ContextLinesCount(err: NormalizedError, cls: seq<ContextLine>)
    ensures |ContextLines(err, cls)| == |cls| + (if err.context.indicator != "" then MatchCount(err, cls) else 0)
  {
    if cls != [] {
      ContextLinesCount(err, cls[..|cls| - 1]);
    }
  }

  /** In a window built by `getLineContext` at most one line is the error line. */
  lemma WindowMatchesOnce(code: string, line: Option<int>, column: Option<int>, err: NormalizedError)
    ensures MatchCount(err, LineContextOf(code, line, column, 2).lines) <= 1
  {
    var ls := LineContextOf(code, line, column, 2).lines;
    if IsTruthyNumber(line) {
      ConsecutiveMatchCount(err, ls, Max(1, line.value - 2));
    }
  }

  /** Consecutive line numbers match the error line at most once. */
  lemma {:induction false} ConsecutiveMatchCount(err: NormalizedError, cls: seq<ContextLine>, start: int)
    requires forall k :: 0 <= k < |cls| ==> cls[k].line == start + k
    ensures MatchCount(err, cls) <= 1
    ensures MatchCount(err, cls) == 1 ==> err.line.Some? && start <= err.line.value < start + |cls|
  {
    if cls != [] {
      var init := cls[..|cls| - 1];
      ConsecutiveMatchCount(err, init, start);
    }
  }

  /** The listing of one error. A truthy codeframe is printed instead of the context. */
  function ErrorBlock(file: string, err: NormalizedError): seq<string> {
    [Headline(file, err)]
    + if HasCodeframe(err) then FrameLines(err.codeframe.value) + [""]
      else if |err.context.lines| > 0 then ContextLines(err, err.context.lines) + [""]
      else []
  }

  /** A codeframe takes precedence: with one, the context plays no part in the listing. */
  lemma CodeframeTakesPrecedence(file: string, err: NormalizedError, context: LineContext)
    requires HasCodeframe(err)
    ensures ErrorBlock(file, err) == ErrorBlock(file, err.(context := context))
    ensures ErrorBlock(file, err) == [Headline(file, err)] + FrameLines(err.codeframe.value) + [""]
  {
  }

  /** The listings of a file's errors, in order. */
  function FileBlock(file: string, errs: seq<NormalizedError>): seq<string> {
    if errs == [] then [] else FileBlock(file, errs[..|errs| - 1]) + ErrorBlock(file, errs[|errs| - 1])
  }

  /** The listings of all failing files, in order. */
  function Blocks(files: seq<FileResult>): seq<string> {
    if files == [] then [] else Blocks(files[..|files| - 1]) + FileBlock(files[|files| - 1].file, files[|files| - 1].errors)
  }

  /** The listing of two groups of files is the listing of the first then of the second. */
  lemma {:induction false} BlocksAppend(a: seq<FileResult>, b: seq<FileResult>)
    ensures Blocks(a + b) == Blocks(a) + Blocks(b)
    decreases |b|
  {
    if b != [] {
      var b' := b[..|b| - 1];
      assert (a + b)[..|a + b| - 1] == a + b';
      BlocksAppend(a, b');
    } else {
      assert a + b == a;
    }
  }

  /** Every error contributes at least its headline. */
  lemma {:induction false} BlocksCoverErrors(files: seq<FileResult>)
    ensures |Blocks(files)| >= TotalErrorsBack(files)
  {
    if files != [] {
      BlocksCoverErrors(files[..|files| - 1]);
      FileBlockCoversErrors(files[|files| - 1].file, files[|files| - 1].errors);
    }
  }

  lemma {:induction false} FileBlockCoversErrors(file: string, errs: seq<NormalizedError>)
    ensures |FileBlock(file, errs)| >= |errs|
  {
    if errs != [] {
      FileBlockCoversErrors(file, errs[..|errs| - 1]);
    }
  }

  /** The error total summed from the back, as the listing is built. */
  function TotalErrorsBack(files: seq<FileResult>): nat {
    if files == [] then 0 else TotalErrorsBack(files[..|files| - 1]) + |files[|files| - 1].errors|
  }

  /** Summing from the back gives the same total. */
  lemma {:induction false} TotalErrorsBackAgrees(files: seq<FileResult>)
    ensures TotalErrorsBack(files) == TotalErrors(files)
  {
    if files != [] {
      var init := files[..|files| - 1];
      TotalErrorsBackAgrees(init);
      TotalErrorsSnoc(init, files[|files| - 1]);
      assert init + [files[|files| - 1]] == files;
    }
  }

  lemma {:induction false} TotalErrorsSnoc(files: seq<FileResult>, f: FileResult)
    ensures TotalErrors(files + [f]) == TotalErrors(files) + |f.errors|
  {
    if files != [] {
      assert (files + [f])[1..] == files[1..] + [f];
      TotalErrorsSnoc(files[1..], f);
    } else {
      assert ([] + [f])[1..] == [];
    }
  }

  /** All lines of the listing, before they are joined. */
  function HumanLines(files: seq<FileResult>, totalErrors: nat): seq<string> {
    [Header(totalErrors, |files|), ""] + Blocks(files)
  }

  /** The listing has the header, a blank line, and at least one line per error. */
  lemma HumanLinesCoverErrors(files: seq<FileResult>, totalErrors: nat)
    ensures var lines := HumanLines(files, totalErrors);
            && lines[0] == Header(totalErrors, |files|) && lines[1] == ""
            && |lines| >= 2 + TotalErrors(files)
  {
    BlocksCoverErrors(files);
    TotalErrorsBackAgrees(files);
  }

  /** `formatHumanReadable(filesWithErrors, totalErrors)`: pushes the listing line by line
      and joins it with newlines. */
  method FormatHumanReadable(files: seq<FileResult>, totalErrors: nat) returns (out: string)
    ensures out == Join(HumanLines(files, totalErrors), "\n")
  {
    var lines := [Header(totalErrors, |files|)];
    lines := lines + [""];
    ghost var top := lines;
    for i := 0 to |files|
      invariant lines == top + Blocks(files[..i])
    {
      var entry := files[i];
      ghost var before := lines;
      for j := 0 to |entry.errors|
        invariant lines == before + FileBlock(entry.file, entry.errors[..j])
      {
        var err := entry.errors[j];
        ghost var start := lines;
        lines := PushErrorBlock(lines, entry.file, err);
        FileBlockStep(entry.file, entry.errors, j);
        ConcatAssoc(before, FileBlock(entry.file, entry.errors[..j]), ErrorBlock(entry.file, err));
      }
      assert entry.errors[..|entry.errors|] == entry.errors;
      BlocksStep(files, i);
      ConcatAssoc(top, Blocks(files[..i]), FileBlock(entry.file, entry.errors));
    }
    assert files[..|files|] == files;
    assert top == [Header(totalErrors, |files|), ""];
    assert lines == HumanLines(files, totalErrors);
    out := Join(lines, "\n");
  }

  /** Extending a file's errors by one extends its listing by that error's block. */
  lemma FileBlockStep(file: string, errs: seq<NormalizedError>, j: nat)
    requires j < |errs|
    ensures FileBlock(file, errs[..j + 1]) == FileBlock(file, errs[..j]) + ErrorBlock(file, errs[j])
  {
    assert errs[..j + 1][..j] == errs[..j];
  }

  /** Extending the files by one extends the listing by that file's block. */
  lemma BlocksStep(files: seq<FileResult>, i: nat)
    requires i < |files|
    ensures Blocks(files[..i + 1]) == Blocks(files[..i]) + FileBlock(files[i].file, files[i].errors)
  {
    assert files[..i + 1][..i] == files[..i];
  }

  /** The body of the inner loop: the headline, then the codeframe lines or the context
      lines, each group closed by a blank line. */
  method PushErrorBlock(lines: seq<string>, file: string, err: NormalizedError) returns (out: seq<string>)
    ensures out == lines + ErrorBlock(file, err)
  {
    var location := if IsTruthyNumber(err.line) && IsTruthyNumber(err.column)
      then ":" + IntToString(err.line.value) + ":" + IntToString(err.column.value) else "";
    out := lines + ["error: " + file + location + " - " + err.message];
    assert out == lines + [Headline(file, err)];
    if HasCodeframe(err) {
      ghost var afterHeadline := out;
      out := PushFrameLines(out, Split(Trim(err.codeframe.value), '\n'));
      out := out + [""];
      ConcatAssoc(afterHeadline, FrameLines(err.codeframe.value), [""]);
      ConcatAssoc(lines, [Headline(file, err)], FrameLines(err.codeframe.value) + [""]);
    } else if |err.context.lines| > 0 {
      ghost var afterHeadline := out;
      out := PushContextLines(out, err, err.context.lines);
      out := out + [""];
      ConcatAssoc(afterHeadline, ContextLines(err, err.context.lines), [""]);
      ConcatAssoc(lines, [Headline(file, err)], ContextLines(err, err.context.lines) + [""]);
    } else {
      assert [Headline(file, err)] + [] == [Headline(file, err)];
    }
  }

  /** Pushes `"    " + piece` for each piece of a codeframe. */
  method PushFrameLines(lines: seq<string>, pieces: seq<string>) returns (out: seq<string>)
    ensures out == lines + Indented(pieces)
  {
    out := lines;
    for k := 0 to |pieces|
      invariant out == lines + Indented(pieces[..k])
    {
      out := out + ["    " + pieces[k]];
      assert pieces[..k + 1][..k] == pieces[..k];
    }
    assert pieces[..|pieces|] == pieces;
  }

  /** Pushes each context line, with `>` on the error line, followed by the caret line
      under the error line. */
  method PushContextLines(lines: seq<string>, err: NormalizedError, cls: seq<ContextLine>) returns (out: seq<string>)
    ensures out == lines + ContextLines(err, cls)
  {
    out := lines;
    for k := 0 to |cls|
      invariant out == lines + ContextLines(err, cls[..k])
    {
      out := PushContextEntry(out, err, cls[k]);
      ContextLinesStep(err, cls, k);
      ConcatAssoc(lines, ContextLines(err, cls[..k]), ContextEntry(err, cls[k]));
    }
    assert cls[..|cls|] == cls;
  }

  /** The body of the context loop: one context line, then its caret line when it is the
      error line and the indicator is non-empty. */
  method PushContextEntry(lines: seq<string>, err: NormalizedError, ctxLine: ContextLine) returns (out: seq<string>)
    ensures out == lines + ContextEntry(err, ctxLine)
  {
    var marker := if err.line == Some(ctxLine.line) then '>' else ' ';
    out := lines + ["  " + [marker] + " " + IntToString(ctxLine.line) + " | " + ctxLine.content];
    if err.line == Some(ctxLine.line) && err.context.indicator != "" {
      out := out + ["      | " + err.context.indicator];
    }
  }

  lemma ConcatAssoc<T>(a: seq<T>, b: seq<T>, c: seq<T>)
    ensures (a + b) + c == a + (b + c)
  {
  }

  /** Extending a run of context lines by one extends its listing by that line's entry. */
  lemma ContextLinesStep(err: NormalizedError, cls: seq<ContextLine>, k: nat)
    requires k < |cls|
    ensures ContextLines(err, cls[..k + 1]) == ContextLines(err, cls[..k]) + ContextEntry(err, cls[k])
  {
    assert cls[..k + 1][..k] == cls[..k];
  }

  /** What a directory scan prints and how it exits. */
  datatype ScanOutcome =
    | AllParsed(message: string)
    | ErrorsFound(listing: string, summary: JsonSummary)

  /** The end of `main` in directory mode, from the parsed results of the scanned files. */
  function ScanReport(results: seq<FileResult>): (outcome: ScanOutcome)
    ensures outcome.AllParsed? <==> TotalErrors(results) == 0
    ensures outcome.AllParsed? ==>
      outcome.message == "[parser] Success: parsed " + NatToString(|results|) + " file(s) with 0 errors."
    ensures outcome.ErrorsFound? ==>
      var failing := FilesWithErrors(results);
      && outcome.listing == Join(HumanLines(failing, TotalErrors(results)), "\n")
      && outcome.summary.totalErrors == |outcome.summary.errors| == TotalErrors(results)
      && outcome.summary.filesWithErrors == |failing| > 0
      && outcome.summary.totalFiles == |results|
      && outcome.summary == FormatJsonSummary(failing, TotalErrors(results), |results|)
  {
    var failing := FilesWithErrors(results);
    NoFailingFileIffNoError(results);
    if failing == [] then
      AllParsed("[parser] Success: parsed " + NatToString(|results|) + " file(s) with 0 errors.")
    else
      var total := TotalErrors(failing);
      FilterKeepsTotal(results);
      ErrorsFound(Join(HumanLines(failing, total), "\n"), FormatJsonSummary(failing, total, |results|))
  }
}
