/** The main loop of the two-level editors: every key goes through the key dispatch, a
    committed line goes through `handle_input`, and the loop ends on the first line
    `handle_input` answers with "stop". Drawing the screen between keys is not modelled. */
module Session {
  import opened PyText
  import opened ListModel
  import opened Dispatch
  import opened EditBuffer
  import opened ListInvariant

  datatype Session = Session(model: State, edit: Edit, running: bool)

  /** The loop as it starts on an empty list. */
  const Start := Session(Initial, Idle, true)

  ghost predicate Good(ss: Session) {
    Inv(ss.model) && Valid(ss.edit)
  }

  /** One key of the running loop. Only a committed line reaches the list, and the loop stops
      exactly when that line strips to `:q`. */
  function Step(table: seq<string>, sync: bool, ss: Session, key: int): (r: Session)
    requires ss.running && Valid(ss.edit) && IsKey(key)
    ensures Valid(r.edit)
    ensures !r.running <==> key == KeyEnter && ss.edit.selected.None? && Strip(ss.edit.buffer) == ":q"
    ensures !(key == KeyEnter && ss.edit.selected.None?) ==> r.model == ss.model && r.running
    ensures !r.running ==> r.model == ss.model
  {
    var k := Press(table, ss.edit, key);
    match k.committed
    case None => Session(ss.model, k.edit, true)
    case Some(line) =>
      var o := HandleInput(ss.model, line, sync);
      Session(o.state, k.edit, o.running)
  }

  /** The loop over a sequence of keys; keys after the loop has stopped are never read. */
  function Run(table: seq<string>, sync: bool, ss: Session, keys: seq<int>): (r: Session)
    requires Valid(ss.edit)
    requires forall i :: 0 <= i < |keys| ==> IsKey(keys[i])
    ensures Valid(r.edit)
    ensures !ss.running ==> r == ss
    decreases |keys|
  {
    if |keys| == 0 || !ss.running then ss
    else Run(table, sync, Step(table, sync, ss, keys[0]), keys[1..])
  }

  /** Each key keeps the list's shape and the edit state's. */
  lemma StepKeepsInvariant(table: seq<string>, sync: bool, ss: Session, key: int)
    requires ss.running && Good(ss) && IsKey(key)
    ensures Good(Step(table, sync, ss, key))
  {
    var k := Press(table, ss.edit, key);
    if k.committed.Some? {
      HandleInputInv(ss.model, k.committed.value, sync);
    }
  }

  /** Any run of keys keeps the shape: every sub-item list and every mark belongs to an
      existing item, and ids increase along every list. */
  lemma {:induction false} RunKeepsInvariant(table: seq<string>, sync: bool, ss: Session, keys: seq<int>)
    requires Good(ss)
    requires forall i :: 0 <= i < |keys| ==> IsKey(keys[i])
    ensures Good(Run(table, sync, ss, keys))
    decreases |keys|
  {
    if |keys| > 0 && ss.running {
      StepKeepsInvariant(table, sync, ss, keys[0]);
      RunKeepsInvariant(table, sync, Step(table, sync, ss, keys[0]), keys[1..]);
    }
  }

  /** Every state the loop reaches from an empty list has the shape, so an item it adds next
      starts with no sub-items and no marks. */
  lemma ReachedFromStart(table: seq<string>, sync: bool, keys: seq<int>, text: string)
    requires forall i :: 0 <= i < |keys| ==> IsKey(keys[i])
    ensures var s := Run(table, sync, Start, keys).model;
            var id := AddItem(s, text).todos[|s.todos|].id;
            && Inv(s)
            && id !in s.subtodos
            && forall m, k :: k in s.marks.Get(m) ==> k.Owner() != id
  {
    InitialInv();
    IdleValid();
    RunKeepsInvariant(table, sync, Start, keys);
    FreshItemUnmarked(Run(table, sync, Start, keys).model, text);
  }

  /** Running two sequences of keys one after the other is running them joined. */
  lemma {:induction false} RunConcat(table: seq<string>, sync: bool, ss: Session, a: seq<int>, b: seq<int>)
    requires Valid(ss.edit)
    requires forall i :: 0 <= i < |a| ==> IsKey(a[i])
    requires forall i :: 0 <= i < |b| ==> IsKey(b[i])
    ensures Run(table, sync, ss, a + b) == Run(table, sync, Run(table, sync, ss, a), b)
    decreases |a|
  {
    if |a| == 0 {
      assert a + b == b;
    } else if ss.running {
      assert (a + b)[1..] == a[1..] + b;
      RunConcat(table, sync, Step(table, sync, ss, a[0]), a[1..], b);
    } else {
      assert |a + b| > 0;
    }
  }

  /** Typing characters the loop does not react to is `TypeText` on the edit state and leaves
      the list alone. */
  lemma TypeColonQKeys(table: seq<string>, sync: bool, s: State)
    ensures Run(table, sync, Session(s, Idle, true), [':' as int, 'q' as int]) == Session(s, TypeText(table, Idle, ":q"), true)
  {
    IdleValid();
    var e1 := Press(table, Idle, ':' as int).edit;
    var e2 := Press(table, e1, 'q' as int).edit;
    assert Step(table, sync, Session(s, Idle, true), ':' as int) == Session(s, e1, true);
    assert Step(table, sync, Session(s, e1, true), 'q' as int) == Session(s, e2, true);
    assert [':' as int, 'q' as int][1..] == ['q' as int];
    assert ['q' as int][1..] == [];
    assert Run(table, sync, Session(s, e1, true), ['q' as int]) == Run(table, sync, Session(s, e2, true), []);
    assert e2 == TypeText(table, Idle, ":q") by {
      assert ":q"[1..] == "q";
      assert "q"[1..] == "";
      assert (':' as int) as char == ':';
      assert ('q' as int) as char == 'q';
    }
  }

  /** Two Enters after `:q`: the first completes the suggestion, the second stops the loop. */
  lemma EntersAfterColonQ(table: seq<string>, sync: bool, s: State)
    requires CommandTable(table)
    ensures var r := Run(table, sync, Session(s, TypeText(table, Idle, ":q"), true), [KeyEnter, KeyEnter]);
            !r.running && r.model == s
  {
    IdleValid();
    QuitTakesTwoEnters(table);
    var e := TypeText(table, Idle, ":q");
    var ss3 := Step(table, sync, Session(s, e, true), KeyEnter);
    assert ss3 == Session(s, Edit(":q ", [], None), true);
    StripQuitWord();
    var ss4 := Step(table, sync, ss3, KeyEnter);
    assert !ss4.running && ss4.model == s;
    assert [KeyEnter, KeyEnter][1..] == [KeyEnter];
    assert [KeyEnter][1..] == [];
  }

  /** Typing `:q` and pressing Enter twice ends the loop with the list as it was. */
  lemma TypedQuitStops(table: seq<string>, sync: bool, s: State)
    requires CommandTable(table)
    ensures var r := Run(table, sync, Session(s, Idle, true), [':' as int, 'q' as int, KeyEnter, KeyEnter]);
            !r.running && r.model == s
  {
    IdleValid();
    assert [':' as int, 'q' as int, KeyEnter, KeyEnter] == [':' as int, 'q' as int] + [KeyEnter, KeyEnter];
    RunConcat(table, sync, Session(s, Idle, true), [':' as int, 'q' as int], [KeyEnter, KeyEnter]);
    TypeColonQKeys(table, sync, s);
    EntersAfterColonQ(table, sync, s);
  }

  lemma StripQuitWord()
    ensures Strip(":q ") == ":q"
  {
    assert TrimEnd(":q ") == 2 by {
      assert ":q "[..2] == ":q";
    }
    assert ":q "[..2] == ":q";
    StripUnpadded(":q");
  }
}
