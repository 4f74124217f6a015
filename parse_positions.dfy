/** Source positions for parse errors: `offsetToLineColumn` turns a character
    offset into a 1-based line and column, and `getLineContext` cuts the window
    of lines around an error line, with a caret under the column. */
module ParsePositions {
  import opened Wrappers
  import opened JsText
  import opened JsValues

  /** The `offset` argument: a JavaScript number, or any other value (`undefined` when
      the error has no label). */
  datatype OffsetArg = NotANumber | Number(n: JsNumber)

  /** `{ line, column }`, each `null` or a number. */
  datatype Position = Position(line: Option<int>, column: Option<int>)

  /** The loop test `i < Math.min(offset, code.length)` without its `code.length` half. */
  predicate BelowOffset(i: nat, n: JsNumber) {
    match n
    case NaN => false
    case Finite(x) => (i as real) < x
    case Infinity(positive) => positive
  }

  /** The smallest integer not below `x`. */
  function Ceiling(x: real): (c: int)
    ensures (c as real) >= x && ((c - 1) as real) < x
  {
    if (x.Floor as real) == x then x.Floor else x.Floor + 1
  }

  /** Where the loop of `offsetToLineColumn`, at index `i`, stops: the first index from `i`
      on that fails `i < Math.min(offset, code.length)`. */
  function StopFrom(code: string, n: JsNumber, i: nat): (p: nat)
    requires i <= |code|
    ensures i <= p <= |code|
    decreases |code| - i
  {
    if i < |code| && BelowOffset(i, n) then StopFrom(code, n, i + 1) else i
  }

  /** The length of the prefix `offsetToLineColumn` visits. */
  function PrefixLength(code: string, n: JsNumber): (p: nat)
    ensures p <= |code|
  {
    StopFrom(code, n, 0)
  }

  /** The prefix is `code[0 .. min(offset, code.length))`, a fractional offset rounded up
      and a negative one giving the empty prefix. */
  lemma PrefixLengthClosedForm(code: string, n: JsNumber)
    requires !n.NaN?
    ensures PrefixLength(code, n) ==
      match n
      case Finite(x) => if x <= 0.0 then 0 else Min(Ceiling(x), |code|)
      case Infinity(positive) => if positive then |code| else 0
  {
    var bound :=
      match n
      case Finite(x) => if x <= 0.0 then 0 else Min(Ceiling(x), |code|)
      case Infinity(positive) => if positive then |code| else 0;
    StopFromBound(code, n, 0, bound);
  }

  /** From any index up to `bound`, the loop runs exactly to `bound`. */
  lemma {:induction false} StopFromBound(code: string, n: JsNumber, i: nat, bound: nat)
    requires !n.NaN? && i <= bound <= |code|
    requires forall j: nat :: j < |code| ==> (BelowOffset(j, n) <==> j < bound)
    ensures StopFrom(code, n, i) == bound
    decreases |code| - i
  {
    if i < bound {
      StopFromBound(code, n, i + 1, bound);
    }
  }

  /** Number of `'\n'` in `s`. */
  function NewlineCount(s: string): nat {
    if s == [] then 0 else NewlineCount(s[..|s| - 1]) + (if s[|s| - 1] == '\n' then 1 else 0)
  }

  /** The count is the number of occurrences of `'\n'`. */
  lemma {:induction false} NewlineCountIsOccurrences(s: string)
    ensures NewlineCount(s) == multiset(s)['\n']
  {
    if s != [] {
      NewlineCountIsOccurrences(s[..|s| - 1]);
      assert s == s[..|s| - 1] + [s[|s| - 1]];
    }
  }

  /** The characters after the last `'\n'` of `s` (all of `s` when it has none). */
  function TextAfterLastNewline(s: string): string {
    if s == [] then []
    else if s[|s| - 1] == '\n' then []
    else TextAfterLastNewline(s[..|s| - 1]) + [s[|s| - 1]]
  }

  /** The tail is a suffix of `s`. */
  lemma {:induction false} TailIsSuffix(s: string)
    ensures var r := TextAfterLastNewline(s); |r| <= |s| && r == s[|s| - |r|..]
  {
    if s != [] && s[|s| - 1] != '\n' {
      var p, c := s[..|s| - 1], s[|s| - 1];
      var t := TextAfterLastNewline(p);
      assert TextAfterLastNewline(s) == t + [c];
      TailIsSuffix(p);
      var k := |p| - |t|;
      SliceOfSnoc(p, c, k);
      assert s == p + [c];
    }
  }

  /** A suffix of `p + [c]` is the suffix of `p` followed by `c`. */
  lemma SliceOfSnoc(p: string, c: char, k: nat)
    requires k <= |p|
    ensures (p + [c])[k..] == p[k..] + [c]
  {
  }

  /** The tail holds no newline. */
  lemma {:induction false} TailHasNoNewline(s: string)
    ensures '\n' !in TextAfterLastNewline(s)
  {
    if s != [] && s[|s| - 1] != '\n' {
      var p := s[..|s| - 1];
      TailHasNoNewline(p);
      assert TextAfterLastNewline(s) == TextAfterLastNewline(p) + [s[|s| - 1]];
    }
  }

  /** Unless the tail is all of `s`, a newline comes right before it. */
  lemma {:induction false} TailAfterNewline(s: string)
    ensures var r := TextAfterLastNewline(s); |r| < |s| ==> s[|s| - |r| - 1] == '\n'
  {
    if s != [] && s[|s| - 1] != '\n' {
      var p := s[..|s| - 1];
      var t := TextAfterLastNewline(p);
      TailAfterNewline(p);
      assert |TextAfterLastNewline(s)| == |t| + 1;
      if |t| < |p| {
        assert s[|p| - |t| - 1] == p[|p| - |t| - 1];
      }
    }
  }

  /** The tail is a suffix of `s` without newlines, preceded by a newline unless it is all of `s`. */
  lemma TailFacts(s: string)
    ensures var r := TextAfterLastNewline(s);
            && |r| <= |s| && r == s[|s| - |r|..]
            && '\n' !in r
            && (|r| < |s| ==> s[|s| - |r| - 1] == '\n')
  {
    TailIsSuffix(s);
    TailHasNoNewline(s);
    TailAfterNewline(s);
  }

  /** What `offsetToLineColumn(code, offset)` returns. */
  function LineColumnOf(code: string, offset: OffsetArg): (pos: Position)
    ensures pos.line.Some? <==> offset.Number? && !offset.n.NaN?
    ensures pos.column.Some? <==> pos.line.Some?
    ensures pos.line.Some? ==> pos.line.value >= 1 && pos.column.value >= 1
  {
    if offset.NotANumber? || offset.n.NaN? then Position(None, None)
    else
      var prefix := code[..PrefixLength(code, offset.n)];
      Position(Some(1 + NewlineCount(prefix)), Some(1 + |TextAfterLastNewline(prefix)|))
  }

  /** The position rule: with `prefix` the characters before the offset, the line is one
      more than the newlines in `prefix`, and the column one more than the number of
      characters after the last of them. */
  lemma LineColumnMeaning(code: string, x: JsNumber)
    requires !x.NaN?
    ensures var prefix := code[..PrefixLength(code, x)];
            var pos := LineColumnOf(code, Number(x));
            var c := pos.column.value - 1;
            && pos.line.value - 1 == multiset(prefix)['\n']
            && c <= |prefix|
            && (forall i :: |prefix| - c <= i < |prefix| ==> prefix[i] != '\n')
            && (c < |prefix| ==> prefix[|prefix| - c - 1] == '\n')
  {
    var prefix := code[..PrefixLength(code, x)];
    var t := TextAfterLastNewline(prefix);
    TailFacts(prefix);
    NewlineCountIsOccurrences(prefix);
    forall i | |prefix| - |t| <= i < |prefix| ensures prefix[i] != '\n' {
      assert prefix[i] == t[i - (|prefix| - |t|)];
    }
  }

  /** `offsetToLineColumn`: counts lines and columns over the prefix, one character at a time. */
  method OffsetToLineColumn(code: string, offset: OffsetArg) returns (pos: Position)
    ensures pos == LineColumnOf(code, offset)
  {
    if offset.NotANumber? || offset.n.NaN? {
      return Position(None, None);
    }
    var n := offset.n;
    ghost var p := PrefixLength(code, n);
    StopFromFacts(code, n, 0);
    var line, column := 1, 1;
    var i := 0;
    while i < |code| && BelowOffset(i, n)
      invariant i <= p
      invariant line == 1 + NewlineCount(code[..i])
      invariant column == 1 + |TextAfterLastNewline(code[..i])|
    {
      CountStep(code, i);
      if code[i] == '\n' {
        line := line + 1;
        column := 1;
      } else {
        column := column + 1;
      }
      i := i + 1;
    }
    pos := Position(Some(line), Some(column));
  }

  /** The loop test holds below the stopping index and fails at it. */
  lemma {:induction false} StopFromFacts(code: string, n: JsNumber, i: nat)
    requires i <= |code|
    ensures forall j :: i <= j < StopFrom(code, n, i) ==> j < |code| && BelowOffset(j, n)
    ensures StopFrom(code, n, i) < |code| ==> !BelowOffset(StopFrom(code, n, i), n)
    decreases |code| - i
  {
    if i < |code| && BelowOffset(i, n) {
      StopFromFacts(code, n, i + 1);
      forall j | i <= j < StopFrom(code, n, i) ensures j < |code| && BelowOffset(j, n) {
        if j > i {
          assert i + 1 <= j < StopFrom(code, n, i + 1);
        }
      }
    } else {
      assert StopFrom(code, n, i) == i;
    }
  }

  /** Visiting character `i`: a newline starts a new line, anything else extends it. */
  lemma CountStep(code: string, i: nat)
    requires i < |code|
    ensures NewlineCount(code[..i + 1]) == NewlineCount(code[..i]) + (if code[i] == '\n' then 1 else 0)
    ensures TextAfterLastNewline(code[..i + 1]) ==
      if code[i] == '\n' then [] else TextAfterLastNewline(code[..i]) + [code[i]]
  {
    assert code[..i + 1][..i] == code[..i];
  }

  /** The last piece of splitting `s` at newlines is the text after its last newline. */
  lemma {:induction false} LastSplitPieceIsTail(s: string)
    ensures var parts := Split(s, '\n'); parts[|parts| - 1] == TextAfterLastNewline(s)
  {
    if s != [] {
      var rest := Split(s[1..], '\n');
      LastSplitPieceIsTail(s[1..]);
      SplitLastPiece(s);
      SplitFacts(s[1..], '\n');
      if '\n' in s[1..] {
        assert multiset(s[1..])['\n'] >= 1;
        TailDropFirst(s);
      } else {
        assert multiset(s[1..])['\n'] == 0;
        TailWithoutNewline(s[1..]);
        if s[0] == '\n' {
          TailAfterLeadingNewline(s);
        } else {
          assert s == [s[0]] + s[1..];
          TailWithoutNewline(s);
        }
      }
    }
  }

  /** The position agrees with splitting the prefix at newlines: the prefix has `line`
      pieces and the last of them `column - 1` characters. */
  lemma PositionMatchesSplit(code: string, x: JsNumber)
    requires !x.NaN?
    ensures var prefix := code[..PrefixLength(code, x)];
            var pos := LineColumnOf(code, Number(x));
            var pieces := Split(prefix, '\n');
            && |pieces| == pos.line.value
            && |pieces[|pieces| - 1]| == pos.column.value - 1
  {
    var prefix := code[..PrefixLength(code, x)];
    NewlineCountIsOccurrences(prefix);
    SplitFacts(prefix, '\n');
    LastSplitPieceIsTail(prefix);
  }

  /** The last piece of a split, from the split of the rest of the string. */
  lemma SplitLastPiece(s: string)
    requires s != []
    ensures var parts := Split(s, '\n');
            var rest := Split(s[1..], '\n');
            parts[|parts| - 1] == if s[0] != '\n' && |rest| == 1 then [s[0]] + rest[0] else rest[|rest| - 1]
  {
    if s[0] == '\n' {
      SplitLastPieceAtNewline(s);
    } else {
      SplitLastPieceAtChar(s);
    }
  }

  /** A leading newline adds an empty first piece and leaves the last one alone. */
  lemma SplitLastPieceAtNewline(s: string)
    requires s != [] && s[0] == '\n'
    ensures var parts := Split(s, '\n');
            var rest := Split(s[1..], '\n');
            parts[|parts| - 1] == rest[|rest| - 1]
  {
    var rest := Split(s[1..], '\n');
    assert Split(s, '\n') == [[]] + rest;
  }

  /** Another leading character joins the first piece, which is the last one when it is the only one. */
  lemma SplitLastPieceAtChar(s: string)
    requires s != [] && s[0] != '\n'
    ensures var parts := Split(s, '\n');
            var rest := Split(s[1..], '\n');
            parts[|parts| - 1] == if |rest| == 1 then [s[0]] + rest[0] else rest[|rest| - 1]
  {
    var rest := Split(s[1..], '\n');
    var parts := [[s[0]] + rest[0]] + rest[1..];
    assert Split(s, '\n') == parts;
    if |rest| > 1 {
      assert parts[|parts| - 1] == rest[|rest| - 1];
    }
  }

  /** A string without newlines is its own tail. */
  lemma {:induction false} TailWithoutNewline(s: string)
    requires '\n' !in s
    ensures TextAfterLastNewline(s) == s
  {
    if s != [] {
      assert '\n' !in s[..|s| - 1];
      TailWithoutNewline(s[..|s| - 1]);
    }
  }

  /** A newline followed by newline-free text: the tail is that text. */
  lemma TailAfterLeadingNewline(s: string)
    requires s != [] && s[0] == '\n' && '\n' !in s[1..]
    ensures TextAfterLastNewline(s) == s[1..]
  {
    TailFacts(s);
  }

  /** Dropping the first character does not change the tail when a newline follows it. */
  lemma {:induction false} TailDropFirst(s: string)
    requires |s| >= 1 && '\n' in s[1..]
    ensures TextAfterLastNewline(s) == TextAfterLastNewline(s[1..])
  {
    if s[|s| - 1] != '\n' {
      var init := s[..|s| - 1];
      assert s[1..][..|s[1..]| - 1] == init[1..];
      assert '\n' in init[1..] by {
        var k :| 0 <= k < |s[1..]| && s[1..][k] == '\n';
        assert k < |s[1..]| - 1;
        assert init[1..][k] == '\n';
      }
      TailDropFirst(init);
    }
  }

  /** One line of a context window. */
  datatype ContextLine = ContextLine(line: int, content: string)

  /** The window and the caret line of `getLineContext`. */
  datatype LineContext = LineContext(lines: seq<ContextLine>, indicator: string)

  /** The empty context (a falsy line). */
  const NoContext := LineContext([], "")

  /** A `null`-or-number value is truthy: present and not zero. */
  predicate IsTruthyNumber(v: Option<int>) {
    v.Some? && v.value != 0
  }

  /** The caret line: `column - 1` spaces then `^` for a positive column, else `^`. */
  function Indicator(column: Option<int>): (ind: string)
    ensures column.Some? && column.value > 0 ==>
      |ind| == column.value && ind[|ind| - 1] == '^' && Spaces(column.value - 1) == ind[..|ind| - 1]
    ensures !(column.Some? && column.value > 0) ==> ind == "^"
  {
    if column.Some? && column.value > 0 then Spaces(column.value - 1) + "^" else "^"
  }

  function Max(a: int, b: int): int { if a < b then b else a }
  function Min(a: int, b: int): int { if a < b then a else b }

  /** What `getLineContext(code, line, column, radius)` returns. */
  function LineContextOf(code: string, line: Option<int>, column: Option<int>, radius: nat): LineContext {
    if !IsTruthyNumber(line) then NoContext
    else
      var all := Split(code, '\n');
      var start := Max(1, line.value - radius);
      var end := Min(|all|, line.value + radius);
      var n := Max(0, end - start + 1);
      LineContext(seq(n, k requires 0 <= k < n => ContextLine(start + k, all[start + k - 1])), Indicator(column))
  }

  /** The window: nothing for a falsy line; otherwise the consecutive line numbers from
      `max(1, line - radius)` to `min(count, line + radius)`, each with its own text. */
  lemma LineContextWindow(code: string, line: Option<int>, column: Option<int>, radius: nat)
    ensures var ctx := LineContextOf(code, line, column, radius);
      && (!IsTruthyNumber(line) ==> ctx == NoContext)
      && (IsTruthyNumber(line) ==>
            var all := Split(code, '\n');
            var start := Max(1, line.value - radius);
            && ctx.indicator == Indicator(column)
            && |ctx.lines| == Max(0, Min(|all|, line.value + radius) - start + 1)
            && |ctx.lines| <= 2 * radius + 1
            && forall k :: 0 <= k < |ctx.lines| ==>
                 && ctx.lines[k].line == start + k
                 && 1 <= ctx.lines[k].line <= |all|
                 && ctx.lines[k].content == all[ctx.lines[k].line - 1])
  {
  }

  /** A line of the file lies in its own window. */
  lemma ErrorLineInWindow(code: string, line: int, column: Option<int>, radius: nat)
    requires 1 <= line <= |Split(code, '\n')|
    ensures var ctx := LineContextOf(code, Some(line), column, radius);
            exists k :: 0 <= k < |ctx.lines| && ctx.lines[k].line == line
  {
    var ctx := LineContextOf(code, Some(line), column, radius);
    LineContextWindow(code, Some(line), column, radius);
    var k := line - Max(1, line - radius);
    assert 0 <= k < |ctx.lines|;
    assert ctx.lines[k].line == line;
  }

  /** `getLineContext`: pushes one entry per line of the window. */
  method GetLineContext(code: string, line: Option<int>, column: Option<int>, radius: nat := 2)
    returns (ctx: LineContext)
    ensures ctx == LineContextOf(code, line, column, radius)
  {
    if !IsTruthyNumber(line) {
      return NoContext;
    }
    var allLines := Split(code, '\n');
    var start := Max(1, line.value - radius);
    var end := Min(|allLines|, line.value + radius);
    var lines := PushWindowLines(allLines, start, end);
    var n := Max(0, end - start + 1);
    assert lines == seq(n, k requires 0 <= k < n => ContextLine(start + k, allLines[start + k - 1]));
    ctx := LineContext(lines, Indicator(column));
  }

  /** The loop of `getLineContext`: one entry per line number from `start` to `end`. */
  method PushWindowLines(allLines: seq<string>, start: int, end: int) returns (lines: seq<ContextLine>)
    requires 1 <= start && end <= |allLines|
    ensures |lines| == Max(0, end - start + 1)
    ensures forall k :: 0 <= k < |lines| ==> lines[k] == ContextLine(start + k, allLines[start + k - 1])
  {
    lines := [];
    var current := start;
    while current <= end
      invariant start <= current <= Max(start, end + 1)
      invariant |lines| == current - start
      invariant forall k :: 0 <= k < |lines| ==> lines[k] == ContextLine(start + k, allLines[start + k - 1])
    {
      lines := lines + [ContextLine(current, allLines[current - 1])];
      current := current + 1;
    }
  }
}
