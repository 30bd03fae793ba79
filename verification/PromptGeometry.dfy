/** The slash-command prompt: the line editor behind it, and where its cursor is on the screen. */
module PromptGeometry {
  import opened Wrappers

  datatype Position = Position(cols: nat, rows: nat)

  // ----- Measuring -----

  function Step(p: Position, c: char, columns: nat): Position
    requires columns > 0
  {
    if c == '\n' then Position(0, p.rows + 1)
    else if p.cols + 1 >= columns then Position((p.cols + 1) % columns, p.rows + (p.cols + 1) / columns)
    else Position(p.cols + 1, p.rows)
  }

  function Measured(text: string, columns: nat): Position
    requires columns > 0
  {
    if text == "" then Position(0, 0)
    else Step(Measured(text[..|text| - 1], columns), text[|text| - 1], columns)
  }

  method MeasureDisplayPosition(text: string, columns: nat) returns (position: Position)
    requires columns > 0
    ensures position == Measured(text, columns)
  {
    var rows: nat, cols: nat := 0, 0;
    var i := 0;
    while i < |text|
      invariant 0 <= i <= |text|
      invariant Position(cols, rows) == Measured(text[..i], columns)
    {
      assert text[..i + 1][..i] == text[..i];
      if text[i] == '\n' {
        rows, cols := rows + 1, 0;
      } else {
        cols := cols + 1;
        if cols >= columns {
          rows, cols := rows + cols / columns, cols % columns;
        }
      }
      i := i + 1;
    }
    assert text[..i] == text;
    return Position(cols, rows);
  }

  /** Splitting at line breaks. */
  function Lines(text: string): (lines: seq<string>)
    ensures |lines| > 0
  {
    if text == "" then [""]
    else
      var n, last := |text| - 1, text[|text| - 1];
      var lines := Lines(text[..n]);
      if last == '\n' then lines + [""] else lines[|lines| - 1 := lines[|lines| - 1] + [last]]
  }

  function Ceiling(n: nat, d: nat): nat
    requires d > 0
  {
    (n + d - 1) / d
  }

  function LineRows(line: string, columns: nat): nat
    requires columns > 0
  {
    if Ceiling(|line|, columns) < 1 then 1 else Ceiling(|line|, columns)
  }

  function RowsOf(lines: seq<string>, columns: nat): nat
    requires columns > 0
  {
    if lines == [] then 0 else RowsOf(lines[..|lines| - 1], columns) + LineRows(lines[|lines| - 1], columns)
  }

  method MeasureDisplayRows(text: string, columns: nat) returns (rows: nat)
    requires columns > 0
    ensures rows == RowsOf(Lines(text), columns)
  {
    rows := 0;
    var lines := Lines(text);
    var i := 0;
    while i < |lines|
      invariant 0 <= i <= |lines|
      invariant rows == RowsOf(lines[..i], columns)
    {
      assert lines[..i + 1][..i] == lines[..i];
      rows := rows + LineRows(lines[i], columns);
      i := i + 1;
    }
    assert lines[..i] == lines;
  }

  /** A line whose last character is in the last column: measured as two rows by one, as one by the other. */
  predicate FillsItsRows(line: string, columns: nat)
    requires columns > 0
  {
    line != "" && |line| % columns == 0
  }

  function FullLines(lines: seq<string>, columns: nat): nat
    requires columns > 0
  {
    if lines == [] then 0
    else FullLines(lines[..|lines| - 1], columns) + if FillsItsRows(lines[|lines| - 1], columns) then 1 else 0
  }

  lemma DivStep(n: nat, columns: nat)
    requires columns > 0
    ensures if n % columns + 1 == columns then (n + 1) / columns == n / columns + 1 && (n + 1) % columns == 0
            else (n + 1) / columns == n / columns && (n + 1) % columns == n % columns + 1
  {
    var q, r := n / columns, n % columns;
    assert n == q * columns + r;
    if r + 1 == columns {
      assert n + 1 == (q + 1) * columns;
      Quotient(n + 1, columns, q + 1, 0);
    } else {
      Quotient(n + 1, columns, q, r + 1);
    }
  }

  lemma Quotient(n: nat, d: nat, q: nat, r: nat)
    requires d > 0 && r < d && n == q * d + r
    ensures n / d == q && n % d == r
  {
    var q', r' := n / d, n % d;
    assert n == q' * d + r';
    if q' < q {
      TimesMonotone(q' + 1, q, d);
    } else if q < q' {
      TimesMonotone(q + 1, q', d);
    }
  }

  lemma TimesMonotone(a: nat, b: nat, d: nat)
    requires a <= b
    ensures a * d <= b * d
  {
  }

  lemma LinesStep(text: string)
    requires text != ""
    ensures var shorter, c := Lines(text[..|text| - 1]), text[|text| - 1];
      var m := |shorter| - 1;
      && |Lines(text)| == |shorter| + (if c == '\n' then 1 else 0)
      && (c == '\n' ==> Lines(text)[..m + 1] == shorter && Lines(text)[m + 1] == "")
      && (c != '\n' ==> Lines(text)[..m] == shorter[..m] && Lines(text)[m] == shorter[m] + [c])
  {
    var shorter, c := Lines(text[..|text| - 1]), text[|text| - 1];
    var m := |shorter| - 1;
    assert Lines(text) == if c == '\n' then shorter + [""] else shorter[m := shorter[m] + [c]];
    hide Lines;
  }

  lemma MeasuredStep(text: string, columns: nat)
    requires columns > 0 && text != ""
    ensures var n := |text| - 1;
      Measured(text, columns) == Step(Measured(text[..n], columns), text[n], columns)
  {
  }

  lemma StepWithin(p: Position, c: char, columns: nat)
    requires columns > 0 && p.cols < columns && c != '\n'
    ensures Step(p, c, columns)
         == if p.cols + 1 == columns then Position(0, p.rows + 1) else Position(p.cols + 1, p.rows)
  {
    Quotient(columns, columns, 1, 0);
  }

  /** How far a line reaches beyond whole rows, and the rows of the lines above it with their breaks. */
  lemma {:induction false} MeasuredLines(text: string, columns: nat)
    requires columns > 0
    ensures var lines := Lines(text);
      var last := lines[|lines| - 1];
      && Measured(text, columns).cols == |last| % columns
      && Measured(text, columns).rows
         == RowsOf(lines[..|lines| - 1], columns) + FullLines(lines[..|lines| - 1], columns) + |last| / columns
  {
    if text == "" {
      assert Lines(text)[..0] == [];
    } else {
      hide RowsOf, FullLines, LineRows, FillsItsRows, Lines, Measured;
      var n, c := |text| - 1, text[|text| - 1];
      var shorter, before := Lines(text[..n]), Measured(text[..n], columns);
      var m := |shorter| - 1;
      MeasuredLines(text[..n], columns);
      LinesStep(text);
      MeasuredStep(text, columns);
      if c == '\n' {
        LineRowsExact(shorter[m], columns);
        LastSplit(shorter, columns);
      } else {
        DivStep(|shorter[m]|, columns);
        assert before.cols < columns;
        StepWithin(before, c, columns);
      }
    }
  }

  lemma RowsFor(n: nat, columns: nat, q: nat, r: nat)
    requires columns > 0 && r < columns && n == q * columns + r
    ensures Ceiling(n, columns) == if r == 0 then q else q + 1
    ensures n > 0 && r == 0 ==> q > 0
  {
    if r == 0 {
      Quotient(n + columns - 1, columns, q, columns - 1);
    } else {
      assert (q + 1) * columns == q * columns + columns;
      Quotient(n + columns - 1, columns, q + 1, r - 1);
    }
  }

  lemma LineRowsExact(line: string, columns: nat)
    requires columns > 0
    ensures LineRows(line, columns) + (if FillsItsRows(line, columns) then 1 else 0) == |line| / columns + 1
  {
    hide Ceiling;
    var q, r := |line| / columns, |line| % columns;
    assert |line| == q * columns + r;
    RowsFor(|line|, columns, q, r);
  }

  lemma {:induction false} MeasuredBelow(above: string, below: string, columns: nat)
    requires columns > 0
    ensures Measured(above + "\n" + below, columns)
         == Position(Measured(below, columns).cols, Measured(above, columns).rows + 1 + Measured(below, columns).rows)
    decreases |below|
  {
    var text := above + "\n" + below;
    if below == "" {
      assert text[..|text| - 1] == above;
    } else {
      var n := |below| - 1;
      assert text[..|text| - 1] == above + "\n" + below[..n];
      MeasuredBelow(above, below[..n], columns);
    }
  }

  lemma LastSplit(lines: seq<string>, columns: nat)
    requires columns > 0 && lines != []
    ensures RowsOf(lines, columns)
         == RowsOf(lines[..|lines| - 1], columns) + LineRows(lines[|lines| - 1], columns)
    ensures FullLines(lines, columns)
         == FullLines(lines[..|lines| - 1], columns) + if FillsItsRows(lines[|lines| - 1], columns) then 1 else 0
  {
  }

  /**
   * For any help text above any prompt: the two measures differ by exactly the number of help lines that
   * fill their rows to the last column.
   */
  lemma BlockRows(help: string, prompt: string, columns: nat)
    requires columns > 0
    ensures Measured(help + "\n" + prompt, columns).rows
         == RowsOf(Lines(help), columns) + Measured(prompt, columns).rows + FullLines(Lines(help), columns)
    ensures Measured(help + "\n" + prompt, columns).cols == Measured(prompt, columns).cols
  {
    var lines := Lines(help);
    MeasuredBelow(help, prompt, columns);
    MeasuredLines(help, columns);
    LastSplit(lines, columns);
    LineRowsExact(lines[|lines| - 1], columns);
  }

  /**
   * The cursor is put back on its character in the redrawn block exactly when no help line fills its rows:
   * `before` is the prompt up to the cursor, and the target is computed from the help's rows alone.
   */
  lemma {:induction false} CursorRestoredIff(help: string, before: string, columns: nat)
    requires columns > 0
    ensures var cursor := Measured(before, columns);
      var target := Position(cursor.cols, RowsOf(Lines(help), columns) + cursor.rows);
      target == Measured(help + "\n" + before, columns)
      <==> forall k :: 0 <= k < |Lines(help)| ==> !FillsItsRows(Lines(help)[k], columns)
  {
    BlockRows(help, before, columns);
    NoFullLines(Lines(help), columns);
  }

  lemma {:induction false} NoFullLines(lines: seq<string>, columns: nat)
    requires columns > 0
    ensures FullLines(lines, columns) == 0 <==> forall k :: 0 <= k < |lines| ==> !FillsItsRows(lines[k], columns)
    decreases |lines|
  {
    if lines != [] {
      NoFullLines(lines[..|lines| - 1], columns);
    }
  }

  // ----- The line editor -----

  /** The names of keys that the editor tells apart. */
  datatype KeyName =
    | Return | Enter | Backspace | Delete | Left | Right | Home | End | Tab
    | LetterA | LetterE | LetterU | LetterK | Other

  datatype Keypress = Keypress(input: Option<string>, name: KeyName, ctrl: bool, meta: bool)

  /** The text before the cursor and the text after it. */
  datatype Zipper = Zipper(before: string, after: string)

  predicate IsControlCharacter(c: char) {
    c < ' ' || c == '\U{7F}'
  }

  function Printable(input: string): string {
    if input == "" then ""
    else (if IsControlCharacter(input[0]) then "" else [input[0]]) + Printable(input[1..])
  }

  function Control(z: Zipper, name: KeyName): Zipper {
    match name
    case LetterA => Zipper("", z.before + z.after)
    case LetterE => Zipper(z.before + z.after, "")
    case LetterU => Zipper("", z.after)
    case LetterK => Zipper(z.before, "")
    case _ => z
  }

  function Pressed(z: Zipper, key: Keypress): Zipper {
    if key.ctrl || key.meta then (if key.ctrl && !key.meta then Control(z, key.name) else z)
    else
      match key.name
      case Return => Zipper("", "")
      case Enter => Zipper("", "")
      case Backspace => if z.before == "" then z else Zipper(z.before[..|z.before| - 1], z.after)
      case Delete => if z.after == "" then z else Zipper(z.before, z.after[1..])
      case Left =>
        if z.before == "" then z
        else Zipper(z.before[..|z.before| - 1], [z.before[|z.before| - 1]] + z.after)
      case Right => if z.after == "" then z else Zipper(z.before + [z.after[0]], z.after[1..])
      case Home => Zipper("", z.before + z.after)
      case End => Zipper(z.before + z.after, "")
      case Tab => z
      case _ => Zipper(z.before + Printable(if key.input.Some? then key.input.value else ""), z.after)
  }

  class SlashCommandInputTracker {
    var chars: string
    var cursorIndex: nat

    predicate Valid()
      reads this
    {
      cursorIndex <= |chars|
    }

    function View(): Zipper
      requires Valid()
      reads this
    {
      Zipper(chars[..cursorIndex], chars[cursorIndex..])
    }

    constructor ()
      ensures Valid() && View() == Zipper("", "")
    {
      chars, cursorIndex := "", 0;
    }

    /** Removes `count` characters at `at` and puts others in their place. */
    method Splice(at: nat, count: nat, inserted: string)
      requires at + count <= |chars|
      modifies this`chars
      ensures chars == old(chars[..at]) + inserted + old(chars[at + count..])
    {
      chars := chars[..at] + inserted + chars[at + count..];
    }

    method ApplyControlKey(name: KeyName, key: Keypress)
      requires Valid()
      modifies this
      ensures Valid()
      ensures View() == if key.ctrl && !key.meta then Control(old(View()), name) else old(View())
    {
      if !key.ctrl || key.meta {
        return;
      }
      ghost var z := View();
      assert chars == z.before + z.after;
      match name {
        case LetterA => cursorIndex := 0;
        case LetterE => cursorIndex := |chars|;
        case LetterU => Splice(0, cursorIndex, ""); cursorIndex := 0;
        case LetterK => Splice(cursorIndex, |chars| - cursorIndex, "");
        case _ =>
      }
      assert View() == Control(z, name);
    }

    method Backspace()
      requires Valid()
      modifies this
      ensures Valid()
      ensures View() == Pressed(old(View()), Keypress(None, KeyName.Backspace, false, false))
    {
      if cursorIndex > 0 {
        Splice(cursorIndex - 1, 1, "");
        cursorIndex := cursorIndex - 1;
      }
    }

    method DeleteForward()
      requires Valid()
      modifies this
      ensures Valid()
      ensures View() == Pressed(old(View()), Keypress(None, KeyName.Delete, false, false))
    {
      if cursorIndex < |chars| {
        Splice(cursorIndex, 1, "");
      }
    }

    method MoveTo(index: nat)
      requires Valid() && index <= |chars|
      modifies this`cursorIndex
      ensures Valid() && cursorIndex == index
      ensures View() == Zipper(old(chars[..index]), old(chars[index..]))
    {
      cursorIndex := index;
    }

    method Insert(text: string)
      requires Valid()
      modifies this
      ensures Valid()
      ensures View() == Zipper(old(View()).before + text, old(View()).after)
    {
      if text != "" {
        Splice(cursorIndex, 0, text);
        cursorIndex := cursorIndex + |text|;
      }
    }

    method ApplyKeypress(key: Keypress)
      requires Valid()
      modifies this
      ensures Valid()
      ensures View() == Pressed(old(View()), key)
    {
      hide Control, Printable;
      if key.ctrl || key.meta {
        ApplyControlKey(key.name, key);
        return;
      }
      ghost var z := View();
      assert chars == z.before + z.after;
      match key.name {
        case Return => chars, cursorIndex := "", 0;
        case Enter => chars, cursorIndex := "", 0;
        case Backspace => Backspace();
        case Delete => DeleteForward();
        case Left => MoveTo(if cursorIndex == 0 then 0 else cursorIndex - 1);
        case Right => MoveTo(if cursorIndex == |chars| then |chars| else cursorIndex + 1);
        case Home => MoveTo(0);
        case End => MoveTo(|chars|);
        case Tab =>
        case _ => Insert(Printable(if key.input.Some? then key.input.value else ""));
      }
    }

    /** The line, and where its cursor is when it is drawn after the prompt. */
    method Snapshot(prompt: string, columns: nat) returns (line: string, cursor: Position)
      requires Valid() && columns > 0
      ensures line == View().before + View().after
      ensures cursor == Measured(prompt + View().before, columns)
    {
      line := chars;
      assert chars == chars[..cursorIndex] + chars[cursorIndex..];
      cursor := MeasureDisplayPosition(prompt + chars[..cursorIndex], columns);
    }
  }

  function Typed(keys: seq<Keypress>): Zipper {
    if keys == [] then Zipper("", "") else Pressed(Typed(keys[..|keys| - 1]), keys[|keys| - 1])
  }

  method Type(keys: seq<Keypress>) returns (tracker: SlashCommandInputTracker)
    ensures tracker.Valid() && tracker.View() == Typed(keys)
  {
    hide Pressed;
    tracker := new SlashCommandInputTracker();
    var i := 0;
    while i < |keys|
      invariant 0 <= i <= |keys|
      invariant fresh(tracker) && tracker.Valid() && tracker.View() == Typed(keys[..i])
    {
      assert keys[..i + 1][..i] == keys[..i];
      tracker.ApplyKeypress(keys[i]);
      i := i + 1;
    }
    assert keys[..i] == keys;
  }
}
