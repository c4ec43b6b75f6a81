/** The incremental reflow of groklog/ui/streaming_text_box.py.

    A text box holds its lines (`_value`) and a cache of display rows: each
    row is a chunk of one line, the index of that line, and the column at
    which the chunk starts. New lines are wrapped at the usable width and
    their rows appended to the cache; the rows already there are kept.

    Widths are plain lengths: a character is one column wide, and cutting a
    line to the width takes its prefix of that length. */
module StreamingTextBox {
  import opened Exceptions

  /** One display row of the reflow cache: a chunk of a line, the line's
      index, and the chunk's starting column within the line. */
  datatype Entry = Entry(text: string, line: int, column: int)

  /** The widget state that `add_lines` and `reset` read and write. */
  datatype TextBox = TextBox(
    value: seq<string>,
    cache: seq<Entry>,
    startLine: int,
    startColumn: int,
    line: int,
    column: int,
    disabled: bool,
    width: int,
    offset: int)

  /** A box after an operation, and the exception it raised, if any; the
      source mutates the box before it can fail, so both are kept. */
  datatype Outcome = Outcome(box: TextBox, error: Option<Error>)

  /** The number of columns a wrapped row may hold. */
  function Limit(tb: TextBox): int {
    tb.width - tb.offset
  }

  /** `reset`: scroll to the top and put the cursor on the last line, at its
      end unless the box is disabled. With no lines and an enabled box the
      last line does not exist and an IndexError is raised after the
      scrolling fields were set. */
  function Reset(tb: TextBox): (r: Outcome)
    ensures r.box.startLine == 0 && r.box.startColumn == 0 && r.box.line == |tb.value| - 1
    ensures r.box.value == tb.value && r.box.cache == tb.cache
    ensures r.box.disabled == tb.disabled && r.box.width == tb.width && r.box.offset == tb.offset
    ensures r.error.Some? <==> |tb.value| == 0 && !tb.disabled
    ensures r.error.Some? ==> r.error.value == IndexError && r.box.column == tb.column
    ensures r.error.None? && tb.disabled ==> r.box.column == 0
    ensures r.error.None? && !tb.disabled ==> 0 <= r.box.line && r.box.column == |tb.value[r.box.line]|
  {
    var scrolled := tb.(startLine := 0, startColumn := 0, line := |tb.value| - 1);
    if tb.disabled then Outcome(scrolled.(column := 0), None)
    else if |tb.value| == 0 then Outcome(scrolled, Some(IndexError))
    else Outcome(scrolled.(column := |tb.value[|tb.value| - 1]|), None)
  }

  /** Resetting twice is resetting once. */
  lemma ResetIdempotent(tb: TextBox)
    ensures Reset(Reset(tb).box) == Reset(tb)
  {
  }

  /** The rows of one line, starting at `column`: full rows of `limit`
      characters while at least `limit` remain, then one shorter row with
      the rest (empty when the line length is a multiple of `limit`). */
  function WrapLine(text: string, limit: int, index: int, column: int): (rows: seq<Entry>)
    requires limit >= 1
    decreases |text|
    ensures |rows| >= 1
  {
    if |text| >= limit
    then [Entry(text[..limit], index, column)] + WrapLine(text[limit..], limit, index, column + limit)
    else [Entry(text, index, column)]
  }

  /** The rows of several lines, the first of which has index `start`. */
  function Reflow(lines: seq<string>, limit: int, start: int): (rows: seq<Entry>)
    requires limit >= 1
    decreases |lines|
  {
    if lines == [] then []
    else Reflow(lines[..|lines| - 1], limit, start) + WrapLine(lines[|lines| - 1], limit, start + |lines| - 1, 0)
  }

  /** The chunks of a list of rows, concatenated. */
  function JoinRows(rows: seq<Entry>): string {
    if rows == [] then [] else rows[0].text + JoinRows(rows[1..])
  }

  /** `add_lines`: no lines change nothing. Otherwise the lines are
      appended to `_value`, the box is reset, and the new lines' rows are
      appended to the cache, the first new line taking the index after the
      last cached row's. An empty cache has no last row: that raises an
      IndexError after the lines were appended and the box reset. */
  method AddLines(tb: TextBox, newLines: seq<string>) returns (r: TextBox, error: Option<Error>)
    requires Limit(tb) >= 1 || |newLines| == 0 || |tb.cache| == 0
    ensures |newLines| == 0 ==> r == tb && error.None?
    ensures |newLines| > 0 ==> r.value == tb.value + newLines
    ensures |newLines| > 0 ==> r.startLine == 0 && r.startColumn == 0 && r.line == |r.value| - 1
    ensures |newLines| > 0 && !tb.disabled ==> r.column == |newLines[|newLines| - 1]|
    ensures |newLines| > 0 && tb.disabled ==> r.column == 0
    ensures r.disabled == tb.disabled && r.width == tb.width && r.offset == tb.offset
    ensures error.Some? <==> |newLines| > 0 && |tb.cache| == 0
    ensures error.Some? ==> error.value == IndexError && r.cache == tb.cache
    ensures |newLines| > 0 && |tb.cache| > 0 ==>
              r.cache == tb.cache + Reflow(newLines, Limit(tb), tb.cache[|tb.cache| - 1].line + 1)
  {
    if |newLines| == 0 {
      return tb, None;
    }
    var reset := Reset(tb.(value := tb.value + newLines));
    r := reset.box;
    if |tb.cache| == 0 {
      return r, Some(IndexError);
    }
    var limit := Limit(tb);
    var start := tb.cache[|tb.cache| - 1].line + 1;
    var cache := tb.cache;
    var j := 0;
    while j < |newLines|
      invariant 0 <= j <= |newLines|
      invariant cache == tb.cache + Reflow(newLines[..j], limit, start)
    {
      var index := start + j;
      var text := newLines[j];
      var column := 0;
      while |text| >= limit
        invariant cache + WrapLine(text, limit, index, column)
                  == tb.cache + Reflow(newLines[..j], limit, start) + WrapLine(newLines[j], limit, index, 0)
        decreases |text|
      {
        var chunk := text[..limit];
        cache := cache + [Entry(chunk, index, column)];
        text := text[|chunk|..];
        column := column + |chunk|;
      }
      cache := cache + [Entry(text, index, column)];
      assert newLines[..j + 1][..j] == newLines[..j];
      j := j + 1;
    }
    assert newLines[..j] == newLines;
    r := r.(cache := cache);
    error := None;
  }

  /** Round trip: the rows of a line put back together give the line. */
  lemma {:induction false} WrapLineJoinsBack(text: string, limit: int, index: int, column: int)
    requires limit >= 1
    decreases |text|
    ensures JoinRows(WrapLine(text, limit, index, column)) == text
  {
    if |text| >= limit {
      var rows := WrapLine(text, limit, index, column);
      assert rows[1..] == WrapLine(text[limit..], limit, index, column + limit);
      WrapLineJoinsBack(text[limit..], limit, index, column + limit);
      assert text == text[..limit] + text[limit..];
    }
  }

  /** The shape of a line's rows: every row carries the line's index; all
      rows but the last are exactly `limit` long and the last is shorter. */
  lemma {:induction false} WrapLineShape(text: string, limit: int, index: int, column: int)
    requires limit >= 1
    decreases |text|
    ensures var rows := WrapLine(text, limit, index, column);
            && (forall k :: 0 <= k < |rows| ==> rows[k].line == index)
            && (forall k :: 0 <= k < |rows| - 1 ==> |rows[k].text| == limit)
            && |rows[|rows| - 1].text| < limit
  {
    if |text| >= limit {
      var rows := WrapLine(text, limit, index, column);
      var rest := WrapLine(text[limit..], limit, index, column + limit);
      assert rows == [rows[0]] + rest;
      WrapLineShape(text[limit..], limit, index, column + limit);
    }
  }

  /** Each row starts at `column` plus the length of the rows before it. */
  predicate RowsStartWhereEarlierEnd(rows: seq<Entry>, column: int) {
    forall k :: 0 <= k < |rows| ==> rows[k].column == column + |JoinRows(rows[..k])|
  }

  /** Each row of a line starts at the column where the earlier rows end. */
  lemma {:induction false} WrapLineColumns(text: string, limit: int, index: int, column: int)
    requires limit >= 1
    decreases |text|
    ensures RowsStartWhereEarlierEnd(WrapLine(text, limit, index, column), column)
  {
    var rows := WrapLine(text, limit, index, column);
    if |text| >= limit {
      var rest := WrapLine(text[limit..], limit, index, column + limit);
      assert rows == [rows[0]] + rest;
      WrapLineColumns(text[limit..], limit, index, column + limit);
      forall k | 0 <= k < |rows|
        ensures rows[k].column == column + |JoinRows(rows[..k])|
      {
        if k == 0 {
          assert rows[..0] == [];
        } else {
          assert rows[k] == rest[k - 1];
          assert rows[..k][1..] == rest[..k - 1];
          assert JoinRows(rows[..k]) == text[..limit] + JoinRows(rest[..k - 1]);
        }
      }
    } else {
      assert rows[..0] == [];
    }
  }

  /** A line shorter than the width is one row, starting at its column. */
  lemma ShortLineOneRow(text: string, limit: int, index: int, column: int)
    requires limit >= 1 && |text| < limit
    ensures WrapLine(text, limit, index, column) == [Entry(text, index, column)]
  {
  }

  /** Reflowing two runs of lines is reflowing the first and then the
      second, whose indices continue where the first's stopped. */
  lemma {:induction false} ReflowAppend(a: seq<string>, b: seq<string>, limit: int, start: int)
    requires limit >= 1
    decreases |b|
    ensures Reflow(a + b, limit, start) == Reflow(a, limit, start) + Reflow(b, limit, start + |a|)
  {
    if b == [] {
      assert a + b == a;
    } else {
      var b', last := b[..|b| - 1], b[|b| - 1];
      var rows := WrapLine(last, limit, start + |a| + |b| - 1, 0);
      assert (a + b)[..|a + b| - 1] == a + b';
      assert (a + b)[|a + b| - 1] == last;
      assert Reflow(a + b, limit, start) == Reflow(a + b', limit, start) + rows;
      assert Reflow(b, limit, start + |a|) == Reflow(b', limit, start + |a|) + rows;
      ReflowAppend(a, b', limit, start);
      assert (Reflow(a, limit, start) + Reflow(b', limit, start + |a|)) + rows
             == Reflow(a, limit, start) + (Reflow(b', limit, start + |a|) + rows);
    }
  }

  /** The rows of line `j` sit, as a block, between the rows of the lines
      before it and those after it, and carry the index `start + j`. */
  lemma LineRowsInPlace(lines: seq<string>, limit: int, start: int, j: nat)
    requires limit >= 1 && j < |lines|
    ensures Reflow(lines, limit, start)
            == Reflow(lines[..j], limit, start)
               + WrapLine(lines[j], limit, start + j, 0)
               + Reflow(lines[j + 1..], limit, start + j + 1)
  {
    assert lines == lines[..j] + [lines[j]] + lines[j + 1..];
    ReflowAppend(lines[..j] + [lines[j]], lines[j + 1..], limit, start);
    ReflowAppend(lines[..j], [lines[j]], limit, start);
    assert Reflow([lines[j]], limit, start + j) == WrapLine(lines[j], limit, start + j, 0) by {
      assert [lines[j]][..0] == [];
    }
  }

  /** Lines that fit the width give one row each, in order, with
      consecutive indices from `start` and column 0, so the cache grows by
      as many rows as there are new lines. */
  lemma {:induction false} ShortLinesOneRowEach(lines: seq<string>, limit: int, start: int)
    requires limit >= 1
    requires forall j :: 0 <= j < |lines| ==> |lines[j]| < limit
    decreases |lines|
    ensures |Reflow(lines, limit, start)| == |lines|
    ensures forall j :: 0 <= j < |lines| ==> Reflow(lines, limit, start)[j] == Entry(lines[j], start + j, 0)
  {
    if lines != [] {
      var init := lines[..|lines| - 1];
      ShortLinesOneRowEach(init, limit, start);
      ShortLineOneRow(lines[|lines| - 1], limit, start + |lines| - 1, 0);
    }
  }
}
