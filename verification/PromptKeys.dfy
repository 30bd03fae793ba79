/** What each key does to the line and its cursor, and which keys undo each other. */
module PromptKeys {
  import opened Wrappers
  import opened PromptGeometry

  function LineOf(z: Zipper): string {
    z.before + z.after
  }

  function Plain(name: KeyName): Keypress {
    Keypress(None, name, false, false)
  }

  function Chord(name: KeyName): Keypress {
    Keypress(None, name, true, false)
  }

  function Insertion(input: string): Keypress {
    Keypress(Some(input), Other, false, false)
  }

  /** The line is this text with the cursor at this index. */
  predicate At(z: Zipper, line: string, cursor: int) {
    LineOf(z) == line && |z.before| == cursor
  }

  /** Moving keeps the line: one place to either side within it, or to one of its ends. */
  lemma MovesKeepTheLine(z: Zipper)
    ensures var line, cursor := LineOf(z), |z.before|;
      && At(Pressed(z, Plain(Left)), line, if cursor == 0 then 0 else cursor - 1)
      && At(Pressed(z, Plain(Right)), line, if cursor == |line| then |line| else cursor + 1)
      && At(Pressed(z, Plain(Home)), line, 0) && At(Pressed(z, Chord(LetterA)), line, 0)
      && At(Pressed(z, Plain(End)), line, |line|) && At(Pressed(z, Chord(LetterE)), line, |line|)
      && At(Pressed(z, Plain(Tab)), line, cursor)
  {
  }

  /** Erasing takes the character before or behind the cursor, all that is before or behind it, or everything. */
  lemma ErasesAtTheCursor(z: Zipper)
    ensures var line, cursor := LineOf(z), |z.before|;
      && (cursor > 0 ==>
            At(Pressed(z, Plain(KeyName.Backspace)), line[..cursor - 1] + line[cursor..], cursor - 1))
      && (cursor == 0 ==> Pressed(z, Plain(KeyName.Backspace)) == z)
      && (cursor < |line| ==> At(Pressed(z, Plain(Delete)), line[..cursor] + line[cursor + 1..], cursor))
      && (cursor == |line| ==> Pressed(z, Plain(Delete)) == z)
      && At(Pressed(z, Chord(LetterU)), line[cursor..], 0)
      && At(Pressed(z, Chord(LetterK)), line[..cursor], cursor)
      && At(Pressed(z, Plain(Return)), "", 0) && At(Pressed(z, Plain(Enter)), "", 0)
  {
  }

  /** A key with meta held changes nothing, and neither does one with control held but for the four letters. */
  lemma ModifiedKeysIgnored(z: Zipper, key: Keypress)
    requires key.meta || (key.ctrl && key.name !in {LetterA, LetterE, LetterU, LetterK})
    ensures Pressed(z, key) == z
  {
  }

  /** A special key does the same whatever input comes with it. */
  lemma InputIgnored(z: Zipper, key: Keypress, input: Option<string>)
    requires key.ctrl || key.meta
          || key.name in {Return, Enter, KeyName.Backspace, Delete, Left, Right, Home, End, Tab}
    ensures Pressed(z, key) == Pressed(z, key.(input := input))
  {
  }

  /** Whether the input's character is typed: no code below 32 and not 127. */
  predicate IsTyped(c: char) {
    c as int >= 32 && c as int != 127
  }

  /** The characters typed are the input's without the control characters, in order. */
  lemma {:induction false} PrintableIs(a: string, c: char)
    ensures Printable(a + [c]) == Printable(a) + if IsTyped(c) then [c] else ""
    ensures Printable("") == ""
  {
    if a == "" {
      assert a + [c] == [c] && [c][1..] == "";
    } else {
      assert (a + [c])[0] == a[0] && (a + [c])[1..] == a[1..] + [c];
      PrintableIs(a[1..], c);
    }
  }

  /** Every other key inserts what it types at the cursor and steps over it. */
  lemma InsertsAtTheCursor(z: Zipper, key: Keypress)
    requires !key.ctrl && !key.meta && key.name in {LetterA, LetterE, LetterU, LetterK, Other}
    ensures var line, cursor := LineOf(z), |z.before|;
      var typed := if key.input.Some? then Printable(key.input.value) else "";
      At(Pressed(z, key), line[..cursor] + typed + line[cursor..], cursor + |typed|)
  {
    assert Printable("") == "";
    hide Printable;
    var line, cursor := LineOf(z), |z.before|;
    assert line[..cursor] == z.before && line[cursor..] == z.after;
  }

  lemma {:induction false} PrintableTyped(text: string)
    requires forall c <- text :: IsTyped(c)
    ensures Printable(text) == text
  {
    if text != "" {
      var n := |text| - 1;
      assert text == text[..n] + [text[n]];
      PrintableTyped(text[..n]);
      PrintableIs(text[..n], text[n]);
    }
  }

  /** The zipper after a run of keys from any state. */
  function After(z: Zipper, keys: seq<Keypress>): Zipper
    decreases |keys|
  {
    if keys == [] then z else Pressed(After(z, keys[..|keys| - 1]), keys[|keys| - 1])
  }

  lemma {:induction false} BackspacesErase(z: Zipper, text: string, n: nat)
    requires n <= |text|
    ensures After(Zipper(z.before + text, z.after), seq(n, _ => Plain(KeyName.Backspace)))
         == Zipper(z.before + text[..|text| - n], z.after)
  {
    var start := Zipper(z.before + text, z.after);
    var keys := seq(n, _ => Plain(KeyName.Backspace));
    if n == 0 {
      assert text[..|text|] == text;
    } else {
      assert keys[..n - 1] == seq(n - 1, _ => Plain(KeyName.Backspace));
      BackspacesErase(z, text, n - 1);
      var m := |text| - n;
      assert (z.before + text[..m + 1])[..|z.before| + m] == z.before + text[..m];
    }
  }

  /** Whatever is typed, as many backspaces restore the line and the cursor. */
  lemma TypingIsUndone(z: Zipper, text: string)
    requires forall c <- text :: IsTyped(c)
    ensures After(Pressed(z, Insertion(text)), seq(|text|, _ => Plain(KeyName.Backspace))) == z
  {
    PrintableTyped(text);
    BackspacesErase(z, text, |text|);
    assert z.before + text[..0] == z.before;
  }

  // ----- Rows -----

  /** The rows of a line: as many as its characters need, and one when it has none. */
  lemma LineRowsAre(line: string, columns: nat)
    requires columns > 0
    ensures line == "" ==> LineRows(line, columns) == 1
    ensures line != "" ==> (LineRows(line, columns) - 1) * columns < |line| <= LineRows(line, columns) * columns
  {
    var q, r := |line| / columns, |line| % columns;
    assert |line| == q * columns + r;
    RowsFor(|line|, columns, q, r);
  }
}
