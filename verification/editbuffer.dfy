/** The input line of the editors: the command suggestions shown while a line starting with
    ':' is typed, and the key dispatch of the main loop, which edits the buffer, moves the
    selection through the suggestions, and on Enter either takes the selected suggestion or
    hands the buffer to `handle_input`. */
module EditBuffer {
  import opened PyText

  /** The command prefixes each editor suggests, in table order. The descriptions shown next
      to them are display text and are not modelled. */
  const SyncCommands: seq<string> := [":d ", ":p ", ":x ", ":q ", ":theme ", ":b ", ":i ", ":s ", ":check "]
  const LocalCommands: seq<string> := [":d ", ":p ", ":x ", ":q ", ":theme ", ":b ", ":i "]
  const FlatCommands: seq<string> := [":d ", ":p ", ":x ", ":q ", ":theme "]

  /** The shape of the three tables the suggestions rely on: every entry is a ':', a letter
      and more; `:q ` is entry 3 and the only one with a 'q' second, and `:theme ` is entry 4
      and the only one with a 't' second. */
  ghost predicate CommandTable(table: seq<string>) {
    && |table| >= 5 && table[3] == ":q " && table[4] == ":theme "
    && (forall k :: 0 <= k < |table| ==> |table[k]| >= 3 && table[k][0] == ':')
    && (forall k :: 0 <= k < |table| && k != 3 ==> table[k][1] != 'q')
    && (forall k :: 0 <= k < |table| && k != 4 ==> table[k][1] != 't')
  }

  lemma CommandTables()
    ensures CommandTable(SyncCommands) && CommandTable(LocalCommands) && CommandTable(FlatCommands)
  {
  }

  /** `r` lists some of the entries of `t`, in the order `t` has them. */
  ghost predicate SubsequenceOf(r: seq<string>, t: seq<string>)
    decreases |t|
  {
    if |r| == 0 then true
    else if |t| == 0 then false
    else if r[0] == t[0] then SubsequenceOf(r[1..], t[1..])
    else SubsequenceOf(r, t[1..])
  }

  /** The entries of `table` that start with `buf`, in table order. */
  function Matching(table: seq<string>, buf: string): (r: seq<string>)
    ensures forall c :: c in r <==> c in table && StartsWith(c, buf)
    ensures SubsequenceOf(r, table)
  {
    if |table| == 0 then []
    else
      var rest := Matching(table[1..], buf);
      assert table == [table[0]] + table[1..];
      if StartsWith(table[0], buf) then [table[0]] + rest else rest
  }

  /** `get_suggestions`: only a buffer starting with ':' has suggestions: the commands it is a
      prefix of. */
  function Suggestions(table: seq<string>, buf: string): (r: seq<string>)
    ensures !StartsWith(buf, ":") ==> r == []
    ensures StartsWith(buf, ":") ==> forall c :: c in r <==> c in table && StartsWith(c, buf)
    ensures SubsequenceOf(r, table)
  {
    if StartsWith(buf, ":") then Matching(table, buf) else []
  }

  /** The typed buffer, the suggestions on show and the index of the highlighted one. */
  datatype Edit = Edit(buffer: string, suggestions: seq<string>, selected: Option<int>)

  const Idle := Edit("", [], None)

  /** A suggestion is highlighted exactly when there are suggestions, and the highlight is one
      of them. */
  ghost predicate Valid(e: Edit) {
    && (e.selected.None? <==> |e.suggestions| == 0)
    && (e.selected.Some? ==> 0 <= e.selected.value < |e.suggestions|)
  }

  /** The key codes the loop tests: curses' arrow and backspace codes as ncurses numbers them,
      DEL, Tab and line feed. */
  const KeyUp := 259
  const KeyDown := 258
  const KeyBackspace := 263
  const KeyDel := 127
  const KeyTab := 9
  const KeyEnter := 10

  /** A key code `chr` turns into a character the model can hold: a Unicode scalar value. */
  predicate IsKey(key: int) {
    0 <= key < 0x11_0000 && !(0xD800 <= key < 0xE000)
  }

  /** A key that only types its character. */
  predicate Ordinary(key: int) {
    IsKey(key) && key !in {KeyUp, KeyDown, KeyBackspace, KeyDel, KeyTab, KeyEnter}
  }

  /** The buffer `buf` with its suggestions recomputed and the first one highlighted. */
  function Refresh(table: seq<string>, buf: string): (e: Edit)
    ensures Valid(e) && e.buffer == buf && e.suggestions == Suggestions(table, buf)
  {
    var sugg := Suggestions(table, buf);
    Edit(buf, sugg, if |sugg| > 0 then Some(0) else None)
  }

  /** What one key does: the edit state afterwards, and the line handed to `handle_input` when
      Enter is pressed with nothing highlighted. */
  datatype KeyResult = KeyResult(edit: Edit, committed: Option<string>)

  /** One pass of the main loop's key dispatch. */
  function Press(table: seq<string>, e: Edit, key: int): (r: KeyResult)
    requires Valid(e) && IsKey(key)
    ensures Valid(r.edit)
    ensures r.committed.Some? <==> key == KeyEnter && e.selected.None?
    ensures r.committed.Some? ==> r.committed.value == e.buffer && r.edit == Idle
  {
    if key == KeyBackspace || key == KeyDel then
      KeyResult(Refresh(table, if |e.buffer| == 0 then "" else e.buffer[..|e.buffer| - 1]), None)
    else if key == KeyTab && StartsWith(e.buffer, ":") then
      KeyResult(Refresh(table, e.buffer), None)
    else if key == KeyUp && |e.suggestions| > 0 then
      var n := |e.suggestions|;
      KeyResult(e.(selected := Some((e.selected.value - 1) % n)), None)
    else if key == KeyDown && |e.suggestions| > 0 then
      var n := |e.suggestions|;
      KeyResult(e.(selected := Some((e.selected.value + 1) % n)), None)
    else if key == KeyEnter then
      if e.selected.Some? then KeyResult(Edit(e.suggestions[e.selected.value], [], None), None)
      else KeyResult(Idle, Some(e.buffer))
    else
      KeyResult(Refresh(table, e.buffer + [key as char]), None)
  }

  // ---------------------------------------------------------------- properties

  lemma IdleValid()
    ensures Valid(Idle)
  {
  }

  /** A buffer every entry starts with keeps the whole table. */
  lemma {:induction false} MatchingAll(table: seq<string>, buf: string)
    requires forall k :: 0 <= k < |table| ==> StartsWith(table[k], buf)
    ensures Matching(table, buf) == table
  {
    if |table| > 0 {
      MatchingAll(table[1..], buf);
      assert table == [table[0]] + table[1..];
    }
  }

  /** A buffer only the entry at `i` starts with keeps that entry alone. */
  lemma {:induction false} MatchingOne(table: seq<string>, buf: string, i: nat)
    requires i < |table| && StartsWith(table[i], buf)
    requires forall k :: 0 <= k < |table| && k != i ==> !StartsWith(table[k], buf)
    ensures Matching(table, buf) == [table[i]]
  {
    if i > 0 {
      MatchingOne(table[1..], buf, i - 1);
    } else {
      MatchingNone(table[1..], buf);
    }
  }

  /** A buffer no entry starts with keeps nothing. */
  lemma {:induction false} MatchingNone(table: seq<string>, buf: string)
    requires forall k :: 0 <= k < |table| ==> !StartsWith(table[k], buf)
    ensures Matching(table, buf) == []
  {
    if |table| > 0 {
      MatchingNone(table[1..], buf);
    }
  }

  /** Every command starts with ':', so a lone ':' suggests the whole table: all nine commands
      of the editor with remote sync, seven of the other two-level editor, five of the
      single-level one. */
  lemma ColonSuggestsAll(table: seq<string>)
    requires CommandTable(table)
    ensures Suggestions(table, ":") == table
  {
    forall k | 0 <= k < |table|
      ensures StartsWith(table[k], ":")
    {
      assert table[k][..1] == [table[k][0]];
    }
    MatchingAll(table, ":");
  }

  /** A buffer whose second character only entry `i` shares, and which `i` starts with, keeps
      that entry alone. */
  lemma SecondCharNarrows(table: seq<string>, buf: string, i: nat)
    requires i < |table| && |buf| >= 2 && StartsWith(table[i], buf)
    requires forall k :: 0 <= k < |table| && k != i ==> |table[k]| >= 2 && table[k][1] != buf[1]
    ensures Matching(table, buf) == [table[i]]
  {
    forall k | 0 <= k < |table| && k != i
      ensures !StartsWith(table[k], buf)
    {
      if |buf| <= |table[k]| {
        assert table[k][..|buf|][1] != buf[1];
      }
    }
    MatchingOne(table, buf, i);
  }

  /** `:th` leaves `:theme ` alone and `:q` leaves `:q ` alone. */
  lemma PrefixNarrows(table: seq<string>)
    requires CommandTable(table)
    ensures Suggestions(table, ":th") == [":theme "]
    ensures Suggestions(table, ":q") == [":q "]
  {
    assert table[4][..3] == ":th";
    SecondCharNarrows(table, ":th", 4);
    assert table[3][..2] == ":q";
    SecondCharNarrows(table, ":q", 3);
  }

  /** Up moves the highlight one place back and wraps from the first suggestion to the last. */
  lemma UpWraps(table: seq<string>, e: Edit)
    requires Valid(e) && |e.suggestions| > 0
    ensures var i := e.selected.value;
            Press(table, e, KeyUp) == KeyResult(e.(selected := Some(if i == 0 then |e.suggestions| - 1 else i - 1)), None)
  {
  }

  /** Down moves the highlight one place on and wraps from the last suggestion to the first. */
  lemma DownWraps(table: seq<string>, e: Edit)
    requires Valid(e) && |e.suggestions| > 0
    ensures var i := e.selected.value;
            Press(table, e, KeyDown) == KeyResult(e.(selected := Some(if i == |e.suggestions| - 1 then 0 else i + 1)), None)
  {
  }

  /** With no suggestions on show the arrow keys fall through to the last branch and type the
      character with their code. */
  lemma ArrowWithoutSuggestionsTypes(table: seq<string>, e: Edit, key: int)
    requires Valid(e) && |e.suggestions| == 0 && (key == KeyUp || key == KeyDown)
    ensures Press(table, e, key).edit.buffer == e.buffer + [key as char]
  {
  }

  /** Tab recomputes the suggestions of a command being typed; anywhere else it types a tab. */
  lemma TabCompletesOnlyCommands(table: seq<string>, e: Edit)
    requires Valid(e)
    ensures StartsWith(e.buffer, ":") ==>
              Press(table, e, KeyTab).edit.buffer == e.buffer
              && Press(table, e, KeyTab).edit.suggestions == Suggestions(table, e.buffer)
    ensures !StartsWith(e.buffer, ":") ==> Press(table, e, KeyTab).edit.buffer == e.buffer + "\t"
  {
  }

  /** Backspace and DEL drop the last character, if any, and recompute the suggestions. */
  lemma BackspaceDropsLast(table: seq<string>, e: Edit, key: int)
    requires Valid(e) && (key == KeyBackspace || key == KeyDel)
    ensures var b := Press(table, e, key).edit.buffer;
            && (|e.buffer| == 0 ==> b == [])
            && (|e.buffer| > 0 ==> b + [e.buffer[|e.buffer| - 1]] == e.buffer)
            && Press(table, e, key).edit.suggestions == Suggestions(table, b)
  {
  }

  /** Enter with a suggestion highlighted does not run the line: it puts the suggestion in the
      buffer and clears the list. */
  lemma EnterTakesSelection(table: seq<string>, e: Edit)
    requires Valid(e) && e.selected.Some?
    ensures Press(table, e, KeyEnter) == KeyResult(Edit(e.suggestions[e.selected.value], [], None), None)
  {
  }

  /** The edit state after typing each character of `text` as a key. */
  function TypeText(table: seq<string>, e: Edit, text: string): (r: Edit)
    requires Valid(e)
    ensures Valid(r)
    decreases |text|
  {
    if |text| == 0 then e
    else
      assert IsKey(text[0] as int);
      TypeText(table, Press(table, e, text[0] as int).edit, text[1..])
  }

  /** Text that does not start with ':' and holds no key the loop reacts to lands in the buffer
      unchanged, with no suggestions. */
  lemma {:induction false} TypePlainText(table: seq<string>, b: string, text: string)
    requires forall k :: 0 <= k < |text| ==> Ordinary(text[k] as int)
    requires b + text == [] || (b + text)[0] != ':'
    ensures TypeText(table, Edit(b, [], None), text) == Edit(b + text, [], None)
    decreases |text|
  {
    if |text| > 0 {
      var b' := b + [text[0]];
      assert b' + text[1..] == b + text;
      assert Press(table, Edit(b, [], None), text[0] as int).edit == Edit(b', [], None) by {
        assert (text[0] as int) as char == text[0];
        assert b'[0] == (b + text)[0];
      }
      TypePlainText(table, b', text[1..]);
    } else {
      assert b + text == b;
    }
  }

  /** Typing a plain line and pressing Enter hands exactly that line to `handle_input`. */
  lemma PlainLineCommitted(table: seq<string>, text: string)
    requires forall k :: 0 <= k < |text| ==> Ordinary(text[k] as int)
    requires text == [] || text[0] != ':'
    ensures var e := TypeText(table, Idle, text);
            Press(table, e, KeyEnter) == KeyResult(Idle, Some(text))
  {
    TypePlainText(table, "", text);
    assert "" + text == text;
  }

  /** Typing `:q` highlights the suggestion `:q `, so the first Enter only completes it and the
      second hands `:q ` to `handle_input`. */
  lemma QuitTakesTwoEnters(table: seq<string>)
    requires CommandTable(table)
    ensures var e := TypeText(table, Idle, ":q");
            && Press(table, e, KeyEnter) == KeyResult(Edit(":q ", [], None), None)
            && Press(table, Edit(":q ", [], None), KeyEnter).committed == Some(":q ")
  {
    TypeColonQ(table);
    PrefixNarrows(table);
  }

  lemma TypeColonQ(table: seq<string>)
    ensures TypeText(table, Idle, ":q") == Refresh(table, ":q")
  {
    var e1 := Press(table, Idle, ':' as int).edit;
    assert e1 == Refresh(table, ":") by {
      assert (':' as int) as char == ':';
      assert Idle.buffer + [':'] == ":";
    }
    var e2 := Press(table, e1, 'q' as int).edit;
    assert e2 == Refresh(table, ":q") by {
      assert ('q' as int) as char == 'q';
      assert e1.buffer + ['q'] == ":q";
    }
    assert ":q"[1..] == "q";
    assert "q"[1..] == "";
  }
}
