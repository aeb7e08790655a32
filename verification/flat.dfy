/** The single-level editor: plain text items, with the done ("highlighted") and priority
    marks kept as sets of list positions. Toggles do no bounds check, and a batch deletion
    renumbers the marks with one formula for all of them. */
module Flat {
  import opened PyText
  import opened Positions

  datatype FlatState = FlatState(todos: seq<string>, highlighted: set<int>, priorities: set<int>, theme: string)

  const FlatInitial := FlatState([], {}, {}, "dark")

  /** `add_item`: the text is appended unchanged. */
  function AddItem(s: FlatState, text: string): (r: FlatState)
    ensures r.todos == s.todos + [text]
    ensures r.highlighted == s.highlighted && r.priorities == s.priorities && r.theme == s.theme
  {
    s.(todos := s.todos + [text])
  }

  /** Add `x` to `ks` if absent, remove it if present. */
  function Flip(ks: set<int>, x: int): (r: set<int>)
    ensures x in r <==> x !in ks
    ensures forall y :: y != x ==> (y in r <==> y in ks)
  {
    if x in ks then ks - {x} else ks + {x}
  }

  /** `highlight_item`: toggles the position, whether or not an item is there. */
  function ToggleDone(s: FlatState, idx: int): (r: FlatState)
    ensures idx in r.highlighted <==> idx !in s.highlighted
    ensures forall i :: i != idx ==> (i in r.highlighted <==> i in s.highlighted)
    ensures r.todos == s.todos && r.priorities == s.priorities && r.theme == s.theme
  {
    s.(highlighted := Flip(s.highlighted, idx))
  }

  /** `prioritize_item` */
  function TogglePriority(s: FlatState, idx: int): (r: FlatState)
    ensures idx in r.priorities <==> idx !in s.priorities
    ensures forall i :: i != idx ==> (i in r.priorities <==> i in s.priorities)
    ensures r.todos == s.todos && r.highlighted == s.highlighted && r.theme == s.theme
  {
    s.(priorities := Flip(s.priorities, idx))
  }

  // ---------------------------------------------------------------- delete_items

  /** The deletion loop over positions sorted largest first: a position at or past the end is
      skipped, one below minus the length raises IndexError. */
  datatype Deleted = Deleted(todos: seq<string>, raised: bool)

  function DeleteLoop(todos: seq<string>, ks: seq<int>): (d: Deleted)
    ensures |todos| - |ks| <= |d.todos| <= |todos|
    ensures (forall k :: 0 <= k < |ks| ==> ks[k] >= 0) ==> !d.raised
    decreases |ks|
  {
    if |ks| == 0 then Deleted(todos, false)
    else if ks[0] >= |todos| then DeleteLoop(todos, ks[1..])
    else
      match PyIndex(|todos|, ks[0])
      case None => Deleted(todos, true)
      case Some(i) => DeleteLoop(RemoveAt(todos, i), ks[1..])
  }

  /** The renumbering `delete_items` applies to a mark set: marks at a deleted position are
      dropped, marks below the smallest position `low` stay, and every other mark moves down
      by the number of positions given. */
  function Renumber(marks: set<int>, ks: seq<int>, low: int): (r: set<int>)
    ensures forall j :: j in r <==> KeptBelow(marks, ks, low, j) || KeptAbove(marks, ks, low, j + |ks|)
  {
    var r := set i | i in marks && i !in ks :: if i < low then i else i - |ks|;
    forall j
      ensures j in r <==> KeptBelow(marks, ks, low, j) || KeptAbove(marks, ks, low, j + |ks|)
    {
      if KeptAbove(marks, ks, low, j + |ks|) {
        var i := j + |ks|;
        assert (if i < low then i else i - |ks|) == j;
      }
    }
    r
  }

  /** A surviving mark below the smallest deleted position keeps its number. */
  predicate KeptBelow(marks: set<int>, ks: seq<int>, low: int, i: int) {
    i in marks && i !in ks && i < low
  }

  /** A surviving mark from the smallest deleted position on moves down by `|ks|`. */
  predicate KeptAbove(marks: set<int>, ks: seq<int>, low: int, i: int) {
    i in marks && i !in ks && i >= low
  }

  /** What `delete_items` leaves, and whether it returned normally. An escaping IndexError
      keeps the deletions done before it and skips the renumbering. An empty list of positions
      leaves the loop variable unbound; the renumbering reads it once per mark, so it raises,
      changing nothing, exactly when some mark is set. */
  datatype FlatEnding = FlatEnding(state: FlatState, ok: bool)

  function DeleteItems(s: FlatState, indices: seq<int>): (e: FlatEnding)
    ensures e.state.theme == s.theme
    ensures |s.todos| - |indices| <= |e.state.todos| <= |s.todos|
    ensures !e.ok ==> e.state.highlighted == s.highlighted && e.state.priorities == s.priorities
    ensures |indices| == 0 ==> e.state == s && (e.ok <==> s.highlighted == {} && s.priorities == {})
  {
    var ks := SortDesc(indices);
    assert |ks| == |indices| by {
      assert |multiset(ks)| == |multiset(indices)|;
    }
    var d := DeleteLoop(s.todos, ks);
    if d.raised then FlatEnding(s.(todos := d.todos), false)
    else if |ks| == 0 then FlatEnding(s, s.highlighted == {} && s.priorities == {})
    else
      var low := ks[|ks| - 1];
      FlatEnding(FlatState(d.todos, Renumber(s.highlighted, ks, low), Renumber(s.priorities, ks, low), s.theme), true)
  }

  // ---------------------------------------------------------------- handle_input

  /** One comma-separated piece of `:x`: `A-B` gives A-1 .. B-1, an integer N gives N-1, and
      anything else is a ValueError (None), including a negative number and an empty piece. */
  function PieceIndices(t: string): Option<seq<int>> {
    if '-' in t then
      var parts := Split(t, '-');
      if |parts| == 2 && ParseInt(parts[0]).Some? && ParseInt(parts[1]).Some? then
        Some(Range(ParseInt(parts[0]).value - 1, ParseInt(parts[1]).value))
      else None
    else
      match ParseInt(t)
      case Some(n) => Some([n - 1])
      case None => None
  }

  /** All pieces read in order; the first ValueError abandons the whole command. */
  function GatherIndices(pieces: seq<string>): Option<seq<int>>
    decreases |pieces|
  {
    if |pieces| == 0 then Some([])
    else
      match PieceIndices(pieces[0])
      case None => None
      case Some(here) =>
        match GatherIndices(pieces[1..])
        case None => None
        case Some(rest) => Some(here + rest)
  }

  datatype FlatOutcome = FlatOutcome(state: FlatState, running: bool, saved: bool)

  /** The operand of `:d ` and `:p `: an integer, or a ValueError the branch swallows. */
  function MarkOperand(s: FlatState, operand: string, priority: bool): FlatOutcome {
    match ParseInt(operand)
    case None => FlatOutcome(s, true, true)
    case Some(n) => FlatOutcome(if priority then TogglePriority(s, n - 1) else ToggleDone(s, n - 1), true, true)
  }

  /** `handle_input` of the single-level editor, branch by branch in source order. The main
      loop stops exactly on `:q`, and quitting saves and changes nothing. */
  function HandleInput(s: FlatState, line: string): (o: FlatOutcome)
    ensures o.running <==> Strip(line) != ":q"
    ensures !o.running ==> o == FlatOutcome(s, false, true)
  {
    QuitWordSkipsPrefixes(line);
    if IsDigits(line) then FlatOutcome(ToggleDone(s, LiteralValue(line) - 1), true, true)
    else if StartsWith(line, ":d ") then MarkOperand(s, line[3..], false)
    else if StartsWith(line, ":p ") then MarkOperand(s, line[3..], true)
    else if StartsWith(line, ":x ") then
      match GatherIndices(Split(line[3..], ','))
      case None => FlatOutcome(s, true, true)
      case Some(indices) =>
        var e := DeleteItems(s, indices);
        FlatOutcome(e.state, true, e.ok)
    else if StartsWith(line, ":theme ") then
      var name := Lower(Strip(line[7..]));
      FlatOutcome(if name in {"light", "dark"} then s.(theme := name) else s, true, true)
    else if Strip(line) == ":q" then FlatOutcome(s, false, true)
    else FlatOutcome(AddItem(s, line), true, true)
  }

  // ---------------------------------------------------------------- rows

  datatype FlatRow = FlatRow(content: string, done: bool, priority: bool)

  /** `save_todos`: row i carries item i and whether positions i are marked. */
  function Save(s: FlatState): (rows: seq<FlatRow>)
    ensures |rows| == |s.todos|
    ensures forall i :: 0 <= i < |rows| ==>
              rows[i] == FlatRow(s.todos[i], i in s.highlighted, i in s.priorities)
  {
    seq(|s.todos|, i requires 0 <= i < |s.todos| => FlatRow(s.todos[i], i in s.highlighted, i in s.priorities))
  }

  /** `load_todos` into a fresh editor: each row is appended and its marks go to the position
      it lands on. */
  function Load(rows: seq<FlatRow>): (s: FlatState)
    ensures |s.todos| == |rows|
    ensures forall i :: 0 <= i < |rows| ==> s.todos[i] == rows[i].content
    ensures forall i :: i in s.highlighted <==> 0 <= i < |rows| && rows[i].done
    ensures forall i :: i in s.priorities <==> 0 <= i < |rows| && rows[i].priority
    ensures s.theme == "dark"
  {
    if |rows| == 0 then FlatInitial
    else
      var s := Load(rows[..|rows| - 1]);
      var row := rows[|rows| - 1];
      var n := |s.todos|;
      FlatState(
        s.todos + [row.content],
        if row.done then s.highlighted + {n} else s.highlighted,
        if row.priority then s.priorities + {n} else s.priorities,
        s.theme)
  }

  // ---------------------------------------------------------------- properties

  /** Each toggle undoes itself and never touches the items. */
  lemma TogglesTwice(s: FlatState, idx: int)
    ensures ToggleDone(ToggleDone(s, idx), idx) == s
    ensures TogglePriority(TogglePriority(s, idx), idx) == s
  {
    assert Flip(Flip(s.highlighted, idx), idx) == s.highlighted;
    assert Flip(Flip(s.priorities, idx), idx) == s.priorities;
  }

  /** The deletion loop over strictly descending, non-negative positions deletes exactly those
      positions that exist in the list it started from. */
  lemma {:induction false} DeleteLoopDescending(todos: seq<string>, ks: seq<int>)
    requires StrictlyDescending(ks)
    requires forall k :: 0 <= k < |ks| ==> ks[k] >= 0
    ensures DeleteLoop(todos, ks) == Deleted(Without(todos, set k | k in ks), false)
    decreases |ks|
  {
    if |ks| == 0 {
      assert (set k | k in ks) == {};
      WithoutNothing(todos);
    } else {
      var k0 := ks[0];
      var rest := ks[1..];
      var P := set k | k in rest;
      assert forall j :: 0 <= j < |rest| ==> rest[j] == ks[j + 1];
      assert (set k | k in ks) == P + {k0} by {
        assert ks == [k0] + rest;
      }
      if k0 >= |todos| {
        DeleteLoopDescending(todos, rest);
        WithoutOnlyInRange(todos, P, P + {k0});
      } else {
        DeleteLoopDescending(RemoveAt(todos, k0), rest);
        RemoveLargestFirst(todos, k0, P);
      }
    }
  }

  /** For distinct, non-negative positions the list loses exactly the items at those
      positions; positions past the end are skipped. */
  lemma DistinctIndicesDeleteExactly(s: FlatState, indices: seq<int>)
    requires NoDuplicates(indices)
    requires forall k :: 0 <= k < |indices| ==> indices[k] >= 0
    ensures DeleteItems(s, indices).state.todos == Without(s.todos, set k | k in indices)
    ensures DeleteItems(s, indices).ok <==> |indices| > 0 || (s.highlighted == {} && s.priorities == {})
  {
    var ks := SortDesc(indices);
    SortDescStrict(indices);
    SortDescSameValues(indices);
    assert (set k | k in ks) == (set k | k in indices);
    forall k | 0 <= k < |ks|
      ensures ks[k] >= 0
    {
      assert ks[k] in indices;
    }
    DeleteLoopDescending(s.todos, ks);
    if |indices| == 0 {
      assert (set k | k in indices) == {};
      WithoutNothing(s.todos);
    } else {
      assert indices[0] in ks;
    }
  }

  /** `add_item` and `delete_items` are inverse on the list: deleting the position an item
      was just appended at gives the list back, and marks that were all on existing
      positions come back unchanged. */
  lemma AddThenDeleteRestores(s: FlatState, text: string)
    ensures DeleteItems(AddItem(s, text), [|s.todos|]).ok
    ensures DeleteItems(AddItem(s, text), [|s.todos|]).state.todos == s.todos
    ensures (forall i :: i in s.highlighted ==> 0 <= i < |s.todos|) ==>
              DeleteItems(AddItem(s, text), [|s.todos|]).state.highlighted == s.highlighted
    ensures (forall i :: i in s.priorities ==> 0 <= i < |s.todos|) ==>
              DeleteItems(AddItem(s, text), [|s.todos|]).state.priorities == s.priorities
  {
    var a := AddItem(s, text);
    var n := |s.todos|;
    DistinctIndicesDeleteExactly(a, [n]);
    assert (set k | k in [n]) == {n};
    WithoutDeletedTail(s.todos, [text], {n});
    assert SortDesc([n]) == [n];
    RenumberBelowAll(s.highlighted, n);
    RenumberBelowAll(s.priorities, n);
  }

  /** Marks that all lie below the one deleted position keep their numbers. */
  lemma RenumberBelowAll(marks: set<int>, n: int)
    ensures (forall i :: i in marks ==> 0 <= i < n) ==> Renumber(marks, [n], n) == marks
  {
    if forall i :: i in marks ==> 0 <= i < n {
      forall j
        ensures j in Renumber(marks, [n], n) <==> j in marks
      {
        assert j in marks ==> KeptBelow(marks, [n], n, j);
        assert !KeptAbove(marks, [n], n, j + 1);
      }
    }
  }

  /** No positions at all: nothing changes, and the renumbering reads the unbound loop
      variable, raising, exactly when some mark is set. */
  lemma NoIndicesNoChange(s: FlatState)
    ensures DeleteItems(s, []) == FlatEnding(s, s.highlighted == {} && s.priorities == {})
  {
  }

  /** Where the entry now at position `j` stood before the block lo .. hi - 1 was cut out. */
  function Before(j: int, lo: int, hi: int): int {
    if j < lo then j else j + (hi - lo)
  }

  /** Deleting one contiguous block lo+1 .. hi (positions lo .. hi - 1) cuts it out, and every
      mark inside the new list stays with its item: position j shows the item that was at j
      below the block and at j + (hi - lo) above it. */
  lemma ContiguousBlockExact(s: FlatState, lo: nat, hi: nat)
    requires lo < hi <= |s.todos|
    ensures var e := DeleteItems(s, Range(lo, hi));
            && e.ok
            && e.state.todos == s.todos[..lo] + s.todos[hi..]
            && (forall j :: 0 <= j < |e.state.todos| ==> (j in e.state.highlighted <==> Before(j, lo, hi) in s.highlighted))
            && (forall j :: 0 <= j < |e.state.todos| ==> (j in e.state.priorities <==> Before(j, lo, hi) in s.priorities))
  {
    BlockItems(s, lo, hi);
    BlockMarks(s, lo, hi);
  }

  lemma RangeMembers(lo: int, hi: int)
    ensures forall i :: i in Range(lo, hi) <==> lo <= i < hi
  {
    var r := Range(lo, hi);
    forall i | lo <= i < hi
      ensures i in r
    {
      assert r[i - lo] == i;
    }
  }

  lemma BlockItems(s: FlatState, lo: nat, hi: nat)
    requires lo < hi <= |s.todos|
    ensures DeleteItems(s, Range(lo, hi)).ok
    ensures DeleteItems(s, Range(lo, hi)).state.todos == s.todos[..lo] + s.todos[hi..]
  {
    var r := Range(lo, hi);
    RangeNoDuplicates(lo, hi);
    RangeMembers(lo, hi);
    DistinctIndicesDeleteExactly(s, r);
    WithoutBlock(s.todos, lo, hi, set k | k in r);
  }

  lemma BlockMarks(s: FlatState, lo: nat, hi: nat)
    requires lo < hi <= |s.todos|
    ensures var e := DeleteItems(s, Range(lo, hi));
            && (forall j :: 0 <= j ==> (j in e.state.highlighted <==> Before(j, lo, hi) in s.highlighted))
            && (forall j :: 0 <= j ==> (j in e.state.priorities <==> Before(j, lo, hi) in s.priorities))
  {
    var r := Range(lo, hi);
    BlockItems(s, lo, hi);
    var ks := SortDesc(r);
    SortedBlock(lo, hi);
    var e := DeleteItems(s, r);
    assert !DeleteLoop(s.todos, ks).raised && |ks| > 0;
    assert e.state.highlighted == Renumber(s.highlighted, ks, lo);
    assert e.state.priorities == Renumber(s.priorities, ks, lo);
    RenumberBlock(s.highlighted, ks, lo, hi);
    RenumberBlock(s.priorities, ks, lo, hi);
  }

  /** `range(lo, hi)` holds no value twice. */
  lemma RangeNoDuplicates(lo: int, hi: int)
    ensures NoDuplicates(Range(lo, hi))
  {
    var r := Range(lo, hi);
    forall x
      ensures multiset(r)[x] <= 1
    {
      if lo <= x < hi {
        assert r == r[..x - lo] + [x] + r[x - lo + 1..];
        assert x !in r[..x - lo] && x !in r[x - lo + 1..];
      } else {
        assert x !in r;
      }
    }
  }

  /** Sorted largest first, a block ends with its lowest position. */
  lemma SortedBlock(lo: int, hi: int)
    requires lo < hi
    ensures var ks := SortDesc(Range(lo, hi));
            && |ks| == hi - lo
            && (forall i :: i in ks <==> lo <= i < hi)
            && ks[|ks| - 1] == lo
  {
    var r := Range(lo, hi);
    var ks := SortDesc(r);
    SortDescSameValues(r);
    assert |ks| == |multiset(ks)| == |multiset(r)| == |r|;
    RangeMembers(lo, hi);
    assert lo in ks;
    var t :| 0 <= t < |ks| && ks[t] == lo;
    assert ks[|ks| - 1] in r;
    assert Descending(ks);
    assert ks[t] >= ks[|ks| - 1];
  }

  /** The renumbering applied to a block of positions sends each surviving mark to its item's
      new position. */
  lemma RenumberBlock(marks: set<int>, ks: seq<int>, lo: int, hi: int)
    requires lo < hi && |ks| == hi - lo
    requires forall i :: i in ks <==> lo <= i < hi
    ensures forall j :: 0 <= j ==> (j in Renumber(marks, ks, lo) <==> Before(j, lo, hi) in marks)
  {
    var r := Renumber(marks, ks, lo);
    forall j | 0 <= j
      ensures j in r <==> Before(j, lo, hi) in marks
    {
      if j < lo {
        assert !KeptAbove(marks, ks, lo, j + |ks|);
      } else {
        assert !KeptBelow(marks, ks, lo, j);
      }
    }
  }

  /** The renumbering is exact only for a block: deleting items 2 and 4 of a, b, c, d with c
      marked leaves a, c with the mark on a. */
  lemma SplitBlockMarkMovesToWrongItem()
    ensures var s := FlatState(["a", "b", "c", "d"], {2}, {}, "dark");
            var e := DeleteItems(s, [1, 3]);
            && e.ok
            && e.state.todos == ["a", "c"]
            && e.state.highlighted == {0}
  {
    SortOneThree();
    DeleteThreeThenOne();
    RenumberTwo();
  }

  lemma SortOneThree()
    ensures SortDesc([1, 3]) == [3, 1]
  {
    assert SortDesc([3]) == [3] by {
      assert [3][1..] == [];
    }
    assert [1, 3][1..] == [3];
    assert InsertDesc(1, [3]) == [3, 1];
  }

  lemma DeleteThreeThenOne()
    ensures DeleteLoop(["a", "b", "c", "d"], [3, 1]) == Deleted(["a", "c"], false)
  {
    var ks := [3, 1];
    assert RemoveAt(["a", "b", "c", "d"], 3) == ["a", "b", "c"];
    assert RemoveAt(["a", "b", "c"], 1) == ["a", "c"];
    assert ks[1..] == [1];
    assert ks[1..][1..] == [];
  }

  lemma RenumberTwo()
    ensures Renumber({2}, [3, 1], 1) == {0}
  {
    var r := Renumber({2}, [3, 1], 1);
    assert 0 in r by {
      assert 2 !in [3, 1];
      assert KeptAbove({2}, [3, 1], 1, 0 + 2);
    }
  }

  /** A line that strips to `:q` reaches the comparison with the whole word. */
  lemma QuitWordSkipsPrefixes(line: string)
    ensures Strip(line) == ":q" ==>
              && !IsDigits(line)
              && !StartsWith(line, ":d ") && !StartsWith(line, ":p ")
              && !StartsWith(line, ":x ") && !StartsWith(line, ":theme ")
  {
    if Strip(line) == ":q" {
      StrippedCommand(line, ":q");
    }
  }

  /** A line of digits N toggles the done mark of position N - 1 with no bounds check: on an
      empty list `9` marks position 8. */
  lemma NumberTogglesPosition(s: FlatState, line: string)
    requires IsDigits(line)
    ensures HandleInput(s, line) == FlatOutcome(ToggleDone(s, LiteralValue(line) - 1), true, true)
  {
    StripUnpadded(line);
    assert IsDigit(line[0]);
  }

  /** Without sub-items, a line that is not all digits and starts with neither ':' nor
      whitespace is a new item, `2 milk` included. */
  lemma PlainLineAppends(s: FlatState, line: string)
    requires |line| > 0 && line[0] != ':' && !IsSpace(line[0]) && !IsDigits(line)
    ensures HandleInput(s, line) == FlatOutcome(AddItem(s, line), true, true)
  {
    NoCommandPrefix(line);
    StripStart(line);
    var t := Strip(line);
    assert t != ":q" by {
      if t != [] {
        assert line[..|t|] == t;
        assert line[0] == t[0];
      }
    }
  }

  /** A line not starting with ':' has none of the command prefixes. */
  lemma NoCommandPrefix(line: string)
    requires |line| > 0 && line[0] != ':'
    ensures !StartsWith(line, ":d ") && !StartsWith(line, ":p ") && !StartsWith(line, ":x ")
    ensures !StartsWith(line, ":theme ")
  {
  }

  lemma TwoMilkIsAnItem(s: FlatState)
    ensures HandleInput(s, "2 milk") == FlatOutcome(AddItem(s, "2 milk"), true, true)
  {
    assert !IsDigits("2 milk") by {
      assert !IsDigit("2 milk"[1]);
    }
    PlainLineAppends(s, "2 milk");
  }

  /** `:b` is not a command of this editor: `:b 1` is a new item. */
  lemma BoldCommandIsAnItem(s: FlatState)
    ensures HandleInput(s, ":b 1") == FlatOutcome(AddItem(s, ":b 1"), true, true)
  {
    var line := ":b 1";
    assert !IsDigits(line) by {
      assert !IsDigit(line[0]);
    }
    assert line[..3] == ":b ";
    assert !StartsWith(line, ":d ") && !StartsWith(line, ":p ") && !StartsWith(line, ":x ");
    assert !StartsWith(line, ":theme ");
    StripUnpadded(line);
    assert Strip(line) != ":q";
  }

  /** `:x` pieces `int()` rejects abandon the command: nothing is deleted, and the state is
      saved as it was. */
  lemma BatchValueErrorNoChange(s: FlatState, pieces: string)
    requires GatherIndices(Split(pieces, ',')) == None
    ensures HandleInput(s, ":x " + pieces) == FlatOutcome(s, true, true)
  {
    BatchLine(s, pieces);
  }

  /** A backwards range `A-B` with B < A names no position. */
  lemma BackwardRangeIsEmpty(a: nat, b: nat)
    requires b < a
    ensures PieceIndices(Decimal(a) + "-" + Decimal(b)) == Some([])
  {
    assert '-' !in Decimal(a) && '-' !in Decimal(b) by {
      assert Decimal(a) == NatDecimal(a) && Decimal(b) == NatDecimal(b);
    }
    SplitTwo(Decimal(a), Decimal(b), '-');
    ParseDecimal(a);
    ParseDecimal(b);
  }

  /** `:x A-B` with B < A gathers no position: nothing changes, and the state is saved only
      when no mark is set, because otherwise `delete_items` raises on the unbound loop
      variable. */
  lemma BackwardRangeNoChange(s: FlatState, a: nat, b: nat)
    requires b < a
    ensures HandleInput(s, ":x " + Decimal(a) + "-" + Decimal(b))
              == FlatOutcome(s, true, s.highlighted == {} && s.priorities == {})
  {
    var piece := Decimal(a) + "-" + Decimal(b);
    var line := ":x " + piece;
    assert ":x " + Decimal(a) + "-" + Decimal(b) == line;
    BackwardRangeGathersNothing(a, b);
    BatchLine(s, piece);
    NoIndicesNoChange(s);
  }

  lemma BackwardRangeGathersNothing(a: nat, b: nat)
    requires b < a
    ensures GatherIndices(Split(Decimal(a) + "-" + Decimal(b), ',')) == Some([])
  {
    var piece := Decimal(a) + "-" + Decimal(b);
    BackwardRangeIsEmpty(a, b);
    NoCommaInRange(a, b);
    GatherOne(piece);
  }

  lemma NoCommaInRange(a: nat, b: nat)
    ensures Split(Decimal(a) + "-" + Decimal(b), ',') == [Decimal(a) + "-" + Decimal(b)]
  {
    var piece := Decimal(a) + "-" + Decimal(b);
    assert Decimal(a) == NatDecimal(a) && Decimal(b) == NatDecimal(b);
    forall i | 0 <= i < |piece|
      ensures piece[i] != ','
    {
      if i < |Decimal(a)| {
        assert piece[i] == Decimal(a)[i];
      } else if i > |Decimal(a)| {
        assert piece[i] == Decimal(b)[i - |Decimal(a)| - 1];
      }
    }
  }

  /** A single piece gathers its own positions. */
  lemma GatherOne(piece: string)
    ensures GatherIndices([piece]) == PieceIndices(piece)
  {
    assert [piece][1..] == [];
    if PieceIndices(piece).Some? {
      assert PieceIndices(piece).value + [] == PieceIndices(piece).value;
    }
  }

  /** `:x` hands the text after the prefix, split on commas, to the batch deletion. */
  lemma BatchLine(s: FlatState, pieces: string)
    ensures HandleInput(s, ":x " + pieces) ==
              match GatherIndices(Split(pieces, ','))
              case None => FlatOutcome(s, true, true)
              case Some(indices) => FlatOutcome(DeleteItems(s, indices).state, true, DeleteItems(s, indices).ok)
  {
    var line := ":x " + pieces;
    assert line[..3] == ":x " && line[3..] == pieces;
    assert !IsDigits(line) by {
      assert !IsDigit(line[0]);
    }
    assert !StartsWith(line, ":d ") && !StartsWith(line, ":p ") by {
      assert line[1] == 'x';
    }
  }

  /** `:theme <name>` adopts the lower-cased, stripped name when it is `light` or `dark`. */
  /** `:d N` and `:p N` toggle position N-1 with no bounds check; an operand `int()` rejects
      is swallowed, and the line is saved either way. */
  lemma MarkLine(s: FlatState, t: string)
    ensures HandleInput(s, ":d " + t) ==
              FlatOutcome(match ParseInt(t) case Some(n) => ToggleDone(s, n - 1) case None => s, true, true)
    ensures HandleInput(s, ":p " + t) ==
              FlatOutcome(match ParseInt(t) case Some(n) => TogglePriority(s, n - 1) case None => s, true, true)
  {
    var d := ":d " + t;
    var p := ":p " + t;
    assert d[..3] == ":d " && d[3..] == t;
    assert p[..3] == ":p " && p[3..] == t;
    assert !IsDigits(d) by {
      assert !IsDigit(d[0]);
    }
    assert !IsDigits(p) by {
      assert !IsDigit(p[0]);
    }
    assert !StartsWith(p, ":d ") by {
      assert p[1] == 'p';
    }
  }

  lemma ThemeLine(s: FlatState, name: string)
    ensures var o := HandleInput(s, ":theme " + name);
            var t := Lower(Strip(name));
            && o.running && o.saved
            && (t == "light" || t == "dark" ==> o.state == s.(theme := t))
            && (t != "light" && t != "dark" ==> o.state == s)
  {
    var line := ":theme " + name;
    assert line[..7] == ":theme " && line[7..] == name;
    assert !IsDigits(line) by {
      assert !IsDigit(line[0]);
    }
    assert !StartsWith(line, ":d ") && !StartsWith(line, ":p ") && !StartsWith(line, ":x ") by {
      assert line[1] == 't';
    }
  }

  // ---------------------------------------------------------------- rows

  /** Saving and loading keeps the items and the marks on positions that hold an item; marks
      past the end, or on a negative position, are lost, and the theme is not saved. */
  lemma RoundTrip(s: FlatState)
    ensures Load(Save(s)) == FlatState(
              s.todos,
              set i | i in s.highlighted && 0 <= i < |s.todos|,
              set i | i in s.priorities && 0 <= i < |s.todos|,
              "dark")
  {
    var l := Load(Save(s));
    assert l.todos == s.todos;
    forall i
      ensures i in l.highlighted <==> i in s.highlighted && 0 <= i < |s.todos|
    {
      if 0 <= i < |s.todos| {
        assert Save(s)[i].done == (i in s.highlighted);
      }
    }
    assert l.highlighted == set i | i in s.highlighted && 0 <= i < |s.todos|;
    forall i
      ensures i in l.priorities <==> i in s.priorities && 0 <= i < |s.todos|
    {
      if 0 <= i < |s.todos| {
        assert Save(s)[i].priority == (i in s.priorities);
      }
    }
    assert l.priorities == set i | i in s.priorities && 0 <= i < |s.todos|;
  }
}
