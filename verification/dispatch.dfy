/** `handle_input` of the two-level editors: an ordered, first-match classification of one
    committed line into an `Action`, and its application to the list model. The editor with
    remote sync (`sync` = true) also knows `:s` and `:check`; the other one appends them as
    items. */
module Dispatch {
  import opened PyText
  import opened MarkKeys
  import opened Positions
  import opened ListModel
  import opened Batch

  /** What `handle_input` leaves behind: the state, whether the main loop keeps running, and
      whether `save_todos` ran. It is skipped when an exception reaches the outer handler, and
      a state changed before the exception stays changed. */
  datatype Outcome = Outcome(state: State, running: bool, saved: bool)

  /** The classified line. Positions are already 0-based (`int(...) - 1`). */
  datatype Action =
    | ToggleAt(mark: Mark, idx: int)
    | AddSubAt(parentNumber: Option<int>, text: string)
    | ToggleSubAt(parentIdx: int, pos: int)
    | NoEffect
    | DeleteBatch(tokens: seq<string>)
    | ChangeTheme(name: string)
    | Quit
    | Upload
    | CheckRemote
    | AppendItem(text: string)
    | EmptyLine

  /** The operand of `:d `, `:p `, `:b `, `:i `: an integer, or a ValueError the branch swallows. */
  function MarkCommand(m: Mark, operand: string): Action {
    match ParseInt(operand)
    case Some(n) => ToggleAt(m, n - 1)
    case None => NoEffect
  }

  /** The branches of `handle_input`, tried in source order. A line of one digit is taken by
      the first branch, so the later tests may read `line[1]` whenever `line[0]` is a digit. */
  function Classify(line: string, sync: bool): (a: Action)
    ensures a.Quit? <==> Strip(line) == ":q"
    ensures a.EmptyLine? <==> |line| == 0
    ensures a.Upload? || a.CheckRemote? ==> sync
  {
    QuitWordSkipsPrefixes(line);
    if IsDigits(line) then ToggleAt(Done, LiteralValue(line) - 1)
    else if |line| == 0 then EmptyLine
    else if IsDigit(line[0]) && |line| > 1 && line[1] == ' ' then
      var parts := SplitOnce(line, ' ');
      if |parts| == 2 then AddSubAt(ParseInt(parts[0]), Strip(parts[1])) else NoEffect
    else if IsDigit(line[0]) && |line| > 1 && IsAlpha(line[1]) then
      ToggleSubAt(DigitValue(line[0]) - 1, line[1] as int - 97)
    else
      match Prefixed(line)
      case Some(a) => a
      case None => Worded(line, sync)
  }

  /** The branches that test a command prefix, in source order; None when no prefix matches. */
  function Prefixed(line: string): (r: Option<Action>)
    ensures r.None? <==>
              && !StartsWith(line, ":d ") && !StartsWith(line, ":p ") && !StartsWith(line, ":b ")
              && !StartsWith(line, ":i ") && !StartsWith(line, ":x ") && !StartsWith(line, ":theme ")
    ensures r.Some? ==> r.value.ToggleAt? || r.value.NoEffect? || r.value.DeleteBatch? || r.value.ChangeTheme?
  {
    if StartsWith(line, ":d ") then Some(MarkCommand(Done, line[3..]))
    else if StartsWith(line, ":p ") then Some(MarkCommand(Priority, line[3..]))
    else if StartsWith(line, ":b ") then Some(MarkCommand(Bold, line[3..]))
    else if StartsWith(line, ":i ") then Some(MarkCommand(Italic, line[3..]))
    else if StartsWith(line, ":x ") then Some(DeleteBatch(Split(line[3..], ',')))
    else if StartsWith(line, ":theme ") then Some(ChangeTheme(Lower(Strip(line[7..]))))
    else None
  }

  /** The last branches: whole command words, compared after stripping, and the fallback that
      appends the line. */
  function Worded(line: string, sync: bool): (a: Action)
    ensures a.Quit? <==> Strip(line) == ":q"
    ensures a.AppendItem? ==> a.text == line
  {
    if Strip(line) == ":q" then Quit
    else if sync && Strip(line) == ":s" then Upload
    else if sync && Strip(line) == ":check" then CheckRemote
    else AppendItem(line)
  }

  // ---------------------------------------------------------------- applying an action

  /** An operation that may raise IndexError before changing anything. */
  function Guarded(s: State, r: Option<State>): Outcome {
    match r
    case Some(s') => Outcome(s', true, true)
    case None => Outcome(s, true, false)
  }

  /** Only `:q` ends the main loop. */
  function Apply(s: State, a: Action): (r: Outcome)
    ensures r.running <==> !a.Quit?
    ensures a.Quit? ==> r == Outcome(s, false, true)
  {
    match a
    case ToggleAt(m, idx) => Guarded(s, ToggleItem(s, m, idx))
    case AddSubAt(p, text) =>
      (match p
       case None => Outcome(s, true, false)
       case Some(n) =>
         match PyIndex(|s.todos|, n - 1)
         case None => Outcome(s, true, false)
         case Some(i) => Outcome(AddSubItem(s, s.todos[i].id, text), true, true))
    case ToggleSubAt(p, j) =>
      (match PyIndex(|s.todos|, p)
       case None => Outcome(s, true, false)
       case Some(i) => Outcome(ToggleSub(s, Done, s.todos[i].id, j), true, true))
    case NoEffect => Outcome(s, true, true)
    case DeleteBatch(tokens) =>
      var e := RunBatch(s, tokens);
      Outcome(e.state, true, e.saved)
    case ChangeTheme(name) => Outcome(ApplyTheme(s, name), true, true)
    case Quit => Outcome(s, false, true)
    case Upload => Outcome(s, true, true)
    case CheckRemote => Outcome(s, true, true)
    case AppendItem(text) => Outcome(AddItem(s, text), true, true)
    case EmptyLine => Outcome(s, true, false)
  }

  /** `handle_input(line)`. The main loop stops exactly on `:q` (surrounding whitespace
      allowed), and quitting saves and changes nothing. */
  function HandleInput(s: State, line: string, sync: bool): (o: Outcome)
    ensures o.running <==> Strip(line) != ":q"
    ensures !o.running ==> o == Outcome(s, false, true)
  {
    Apply(s, Classify(line, sync))
  }

  // ---------------------------------------------------------------- properties

  /** A line that strips to a command word of at least two characters starting with ':' is
      not taken by any branch that tests a prefix whose second character differs. */
  lemma CommandWordSkipsPrefixes(line: string, word: string)
    requires Strip(line) == word && |word| >= 2 && word[0] == ':'
    requires word[1] !in "dpbixt"
    ensures |line| > 0 && !IsDigits(line) && !IsDigit(line[0])
    ensures !StartsWith(line, ":d ") && !StartsWith(line, ":p ") && !StartsWith(line, ":b ")
    ensures !StartsWith(line, ":i ") && !StartsWith(line, ":x ") && !StartsWith(line, ":theme ")
  {
    StrippedCommand(line, word);
  }

  /** A line that strips to `:q` reaches the branches that compare whole words. */
  lemma QuitWordSkipsPrefixes(line: string)
    ensures Strip(line) == ":q" ==>
              && |line| > 0 && !IsDigits(line) && !IsDigit(line[0])
              && Prefixed(line).None?
  {
    if Strip(line) == ":q" {
      CommandWordSkipsPrefixes(line, ":q");
    }
  }

  /** `:s` and `:check` are commands only in the editor with remote sync, where they change
      nothing locally; the other editor appends the line as a new item. */
  lemma SyncCommands(s: State, line: string)
    requires Strip(line) == ":s" || Strip(line) == ":check"
    ensures HandleInput(s, line, true) == Outcome(s, true, true)
    ensures HandleInput(s, line, false) == Outcome(AddItem(s, line), true, true)
  {
    CommandWordSkipsPrefixes(line, Strip(line));
  }

  /** An empty line changes nothing and is not saved. */
  lemma EmptyLineNothing(s: State, sync: bool)
    ensures HandleInput(s, "", sync) == Outcome(s, true, false)
  {
  }

  /** A line that starts with neither a digit, ':' nor whitespace is always a new item. */
  lemma PlainLineAppends(s: State, line: string, sync: bool)
    requires |line| > 0 && !IsDigit(line[0]) && line[0] != ':' && !IsSpace(line[0])
    ensures HandleInput(s, line, sync) == Outcome(AddItem(s, line), true, true)
  {
    StripStart(line);
    var t := Strip(line);
    assert t != ":q" && t != ":s" && t != ":check" by {
      if t != [] {
        assert line[0] == t[0];
      }
    }
    assert !IsDigits(line);
    assert !StartsWith(line, ":d ") && !StartsWith(line, ":p ") && !StartsWith(line, ":b ");
    assert !StartsWith(line, ":i ") && !StartsWith(line, ":x ") && !StartsWith(line, ":theme ");
    assert Classify(line, sync) == AppendItem(line);
  }

  /** A line of digits N toggles the done mark of the N-th item; 0 toggles the last item. A
      number past the end raises IndexError and nothing is saved. */
  lemma NumberTogglesDone(s: State, line: string, sync: bool)
    requires IsDigits(line)
    ensures var n := LiteralValue(line);
            var o := HandleInput(s, line, sync);
            && o.running
            && (o.saved <==> |s.todos| > 0 && n <= |s.todos|)
            && (!o.saved ==> o.state == s)
            && (o.saved ==>
                  var key := ItemKey(s.todos[if n == 0 then |s.todos| - 1 else n - 1].id);
                  && o.state.todos == s.todos
                  && (key in o.state.marks.Get(Done) <==> key !in s.marks.Get(Done)))
  {
  }

  /** `<digit> <text>` adds the stripped text as a sub-item of the item the digit numbers
      (0: the last item). Only one digit is read: `12 milk` is a new item. */
  lemma DigitSpaceAddsSubItem(s: State, line: string, sync: bool)
    requires |line| >= 2 && IsDigit(line[0]) && line[1] == ' '
    ensures var n := DigitValue(line[0]);
            var o := HandleInput(s, line, sync);
            && o.running
            && (o.saved <==> |s.todos| > 0 && n <= |s.todos|)
            && (!o.saved ==> o.state == s)
            && (o.saved ==>
                  o.state == AddSubItem(s, s.todos[if n == 0 then |s.todos| - 1 else n - 1].id, Strip(line[2..])))
  {
    ClassifyDigitSpace(line, sync);
    ApplyAddSub(s, DigitValue(line[0]), Strip(line[2..]));
  }

  lemma ClassifyDigitSpace(line: string, sync: bool)
    requires |line| >= 2 && IsDigit(line[0]) && line[1] == ' '
    ensures Classify(line, sync) == AddSubAt(Some(DigitValue(line[0])), Strip(line[2..]))
  {
    assert !IsDigits(line) by {
      assert !IsDigit(line[1]);
    }
    var parts := SplitOnce(line, ' ');
    assert IndexOf(line, ' ') == 1;
    assert parts == [line[..1], line[2..]];
    ParseDigits(line[..1]);
    assert LiteralValue(line[..1]) == DigitValue(line[0]) by {
      assert line[..1][..0] == [];
    }
  }

  /** Adding a sub-item under the item numbered `n`: 0 is the last item, and a number past
      the end raises IndexError before anything changes. */
  lemma ApplyAddSub(s: State, n: int, text: string)
    requires 0 <= n
    ensures var o := Apply(s, AddSubAt(Some(n), text));
            && o.running
            && (o.saved <==> |s.todos| > 0 && n <= |s.todos|)
            && (!o.saved ==> o.state == s)
            && (o.saved ==> o.state == AddSubItem(s, s.todos[if n == 0 then |s.todos| - 1 else n - 1].id, text))
  {
  }

  /** A line that starts with two digits but is not all digits is a new item, whatever follows. */
  lemma TwoDigitsAppend(s: State, line: string, sync: bool)
    requires |line| >= 2 && IsDigit(line[0]) && IsDigit(line[1]) && !IsDigits(line)
    ensures HandleInput(s, line, sync) == Outcome(AddItem(s, line), true, true)
  {
    StripStart(line);
    var t := Strip(line);
    assert t != ":q" && t != ":s" && t != ":check" by {
      if t != [] {
        assert line[0] == t[0];
      }
    }
    assert !StartsWith(line, ":d ") && !StartsWith(line, ":p ") && !StartsWith(line, ":b ");
    assert !StartsWith(line, ":i ") && !StartsWith(line, ":x ") && !StartsWith(line, ":theme ");
    assert Classify(line, sync) == AppendItem(line);
  }

  lemma TwoBuyMilk(s: State, sync: bool)
    requires |s.todos| >= 2
    ensures HandleInput(s, "2 buy milk", sync) == Outcome(AddSubItem(s, s.todos[1].id, "buy milk"), true, true)
  {
    assert "2 buy milk" == ['2', ' '] + "buy milk";
    StripUnpadded("buy milk");
    DigitSpaceText(s, '2', "buy milk", sync);
  }

  /** `DigitSpaceAddsSubItem` for a line written as its digit, a space and the text. */
  lemma DigitSpaceText(s: State, d: char, text: string, sync: bool)
    requires IsDigit(d) && 0 < DigitValue(d) <= |s.todos|
    ensures HandleInput(s, [d, ' '] + text, sync) ==
              Outcome(AddSubItem(s, s.todos[DigitValue(d) - 1].id, Strip(text)), true, true)
  {
    var line := [d, ' '] + text;
    assert line[0] == d && line[1] == ' ' && line[2..] == text;
    ClassifyDigitSpace(line, sync);
    ApplyAddSub(s, DigitValue(d), Strip(text));
  }

  lemma TwelveMilkIsAnItem(s: State, sync: bool)
    ensures HandleInput(s, "12 milk", sync) == Outcome(AddItem(s, "12 milk"), true, true)
  {
    var line := "12 milk";
    assert !IsDigits(line) by {
      assert !IsDigit(line[2]);
    }
    TwoDigitsAppend(s, line, sync);
  }

  /** `<digit><letter>` toggles the done mark of that sub-item: `a` is position 0. */
  lemma DigitLetterTogglesSubItem(s: State, line: string, sync: bool)
    requires |line| >= 2 && IsDigit(line[0]) && IsAlpha(line[1])
    ensures var n := DigitValue(line[0]);
            var o := HandleInput(s, line, sync);
            && o.running
            && (o.saved <==> |s.todos| > 0 && n <= |s.todos|)
            && (!o.saved ==> o.state == s)
            && (o.saved ==>
                  var key := SubKey(s.todos[if n == 0 then |s.todos| - 1 else n - 1].id, line[1] as int - 97);
                  && o.state.todos == s.todos && o.state.subtodos == s.subtodos
                  && (key in o.state.marks.Get(Done) <==> key !in s.marks.Get(Done)))
  {
    assert !IsDigits(line) by {
      assert !IsDigit(line[1]);
    }
  }

  /** The prefix of each of the four mark commands. */
  function MarkPrefix(m: Mark): (p: string)
    ensures |p| == 3 && p[0] == ':' && p[2] == ' '
  {
    match m
    case Done => ":d "
    case Priority => ":p "
    case Bold => ":b "
    case Italic => ":i "
  }

  /** `:d N`, `:p N`, `:b N`, `:i N` toggle that mark of the N-th item. An operand `int()`
      rejects is swallowed: nothing changes, and the state is still saved. */
  lemma MarkCommandLine(s: State, m: Mark, operand: string, sync: bool)
    ensures var o := HandleInput(s, MarkPrefix(m) + operand, sync);
            && o.running
            && (ParseInt(operand) == None ==> o == Outcome(s, true, true))
            && (ParseInt(operand).Some? ==>
                  var idx := ParseInt(operand).value - 1;
                  && (o.saved <==> ToggleItem(s, m, idx).Some?)
                  && o.state == (if o.saved then ToggleItem(s, m, idx).value else s))
  {
    var line := MarkPrefix(m) + operand;
    ClassifyMarkLine(m, operand, sync);
    ApplyMarkCommand(s, m, operand);
    assert HandleInput(s, line, sync) == Apply(s, MarkCommand(m, operand));
  }

  lemma ApplyMarkCommand(s: State, m: Mark, operand: string)
    ensures var o := Apply(s, MarkCommand(m, operand));
            && o.running
            && (ParseInt(operand) == None ==> o == Outcome(s, true, true))
            && (ParseInt(operand).Some? ==>
                  var idx := ParseInt(operand).value - 1;
                  && (o.saved <==> ToggleItem(s, m, idx).Some?)
                  && o.state == (if o.saved then ToggleItem(s, m, idx).value else s))
  {
    match ParseInt(operand)
    case None =>
      assert MarkCommand(m, operand) == NoEffect;
    case Some(n) =>
      assert MarkCommand(m, operand) == ToggleAt(m, n - 1);
  }

  lemma ClassifyMarkLine(m: Mark, operand: string, sync: bool)
    ensures Classify(MarkPrefix(m) + operand, sync) == MarkCommand(m, operand)
  {
    var line := MarkPrefix(m) + operand;
    assert line[..3] == MarkPrefix(m);
    assert line[3..] == operand;
    assert !IsDigits(line) by {
      assert !IsDigit(line[0]);
    }
    assert Prefixed(line) == Some(MarkCommand(m, operand)) by {
      assert line[1] == MarkPrefix(m)[1];
    }
  }

  /** `:theme <name>` adopts the lower-cased, stripped name when it is `light` or `dark` and
      otherwise changes nothing; either way the state is saved. */
  lemma ThemeLine(s: State, name: string, sync: bool)
    ensures var o := HandleInput(s, ":theme " + name, sync);
            var t := Lower(Strip(name));
            && o.running && o.saved
            && (t == "light" || t == "dark" ==> o.state == s.(theme := t))
            && (t != "light" && t != "dark" ==> o.state == s)
  {
    var line := ":theme " + name;
    ClassifyThemeLine(name, sync);
    ApplyChangeTheme(s, Lower(Strip(name)));
    assert HandleInput(s, line, sync) == Apply(s, Classify(line, sync));
  }

  lemma ApplyChangeTheme(s: State, t: string)
    ensures Apply(s, ChangeTheme(t)) == Outcome(if t == "light" || t == "dark" then s.(theme := t) else s, true, true)
  {
  }

  lemma ClassifyThemeLine(name: string, sync: bool)
    ensures Classify(":theme " + name, sync) == ChangeTheme(Lower(Strip(name)))
  {
    var line := ":theme " + name;
    assert line[..7] == ":theme ";
    assert line[7..] == name;
    assert !IsDigits(line) by {
      assert !IsDigit(line[0]);
    }
    assert !StartsWith(line, ":d ") && !StartsWith(line, ":p ") && !StartsWith(line, ":b ") by {
      assert line[1] == 't';
    }
    assert !StartsWith(line, ":i ") && !StartsWith(line, ":x ") by {
      assert line[1] == 't';
    }
    assert Prefixed(line) == Some(ChangeTheme(Lower(Strip(name))));
  }

  /** `:x <pieces>` runs the batch on the comma-separated pieces and keeps the loop running. */
  lemma BatchLine(s: State, pieces: string, sync: bool)
    ensures var o := HandleInput(s, ":x " + pieces, sync);
            var e := RunBatch(s, Split(pieces, ','));
            o == Outcome(e.state, true, e.saved)
  {
    var line := ":x " + pieces;
    assert line[..3] == ":x ";
    assert line[3..] == pieces;
    assert !IsDigits(line) by {
      assert !IsDigit(line[0]);
    }
    assert !StartsWith(line, ":d ") && !StartsWith(line, ":p ") && !StartsWith(line, ":b ") by {
      assert line[1] == 'x';
    }
    assert !StartsWith(line, ":i ") by {
      assert line[1] == 'x';
    }
    assert Prefixed(line) == Some(DeleteBatch(Split(pieces, ',')));
    assert Classify(line, sync) == DeleteBatch(Split(pieces, ','));
  }
}
