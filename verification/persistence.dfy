/** The rows `save_todos` writes and `load_todos` reads back for the two-level editors: one
    row per item and one per sub-item, each carrying only the done and priority flags. Rows
    are kept in the order they are written. A sub-item row records its parent's id, and its
    marks are looked up by its position in the parent's list, which `load_todos` recovers
    by counting the rows already read for that parent. */
module Persistence {
  import opened MarkKeys
  import opened ListModel

  datatype ItemRow = ItemRow(id: int, content: string, done: bool, priority: bool)
  datatype SubRow = SubRow(id: int, parent: int, content: string, done: bool, priority: bool)
  datatype Store = Store(items: seq<ItemRow>, subs: seq<SubRow>)

  // ---------------------------------------------------------------- save

  function ItemRowOf(s: State, e: Entry): (r: ItemRow)
    ensures r.id == e.id && r.content == e.text
    ensures r.done <==> ItemKey(e.id) in s.marks.done
    ensures r.priority <==> ItemKey(e.id) in s.marks.priority
  {
    ItemRow(e.id, e.text, ItemKey(e.id) in s.marks.done, ItemKey(e.id) in s.marks.priority)
  }

  /** The rows of the sub-items of `parent`, in list order; none when it has no list. */
  function SubRowsOf(s: State, parent: int): (r: seq<SubRow>)
    ensures |r| == |SubList(s, parent)|
    ensures forall j :: 0 <= j < |r| ==>
              && r[j].parent == parent
              && r[j].id == SubList(s, parent)[j].id && r[j].content == SubList(s, parent)[j].text
              && (r[j].done <==> SubKey(parent, j) in s.marks.done)
              && (r[j].priority <==> SubKey(parent, j) in s.marks.priority)
  {
    var list := SubList(s, parent);
    seq(|list|, j requires 0 <= j < |list| =>
      SubRow(list[j].id, parent, list[j].text, SubKey(parent, j) in s.marks.done, SubKey(parent, j) in s.marks.priority))
  }

  /** The sub-item rows of the first `n` items, item by item. */
  function SubRowsUpTo(s: State, n: nat): seq<SubRow>
    requires n <= |s.todos|
  {
    if n == 0 then [] else SubRowsUpTo(s, n - 1) + SubRowsOf(s, s.todos[n - 1].id)
  }

  /** `save_todos`: the item rows in list order, and after each item the rows of its
      sub-items. */
  function Save(s: State): (st: Store)
    ensures |st.items| == |s.todos|
    ensures forall i :: 0 <= i < |s.todos| ==> st.items[i] == ItemRowOf(s, s.todos[i])
  {
    Store(seq(|s.todos|, i requires 0 <= i < |s.todos| => ItemRowOf(s, s.todos[i])), SubRowsUpTo(s, |s.todos|))
  }

  // ---------------------------------------------------------------- load

  /** The item rows read in order into a fresh editor. */
  function LoadItems(rows: seq<ItemRow>): State {
    if |rows| == 0 then Initial
    else
      var s := LoadItems(rows[..|rows| - 1]);
      var row := rows[|rows| - 1];
      var m := s.marks;
      var m := if row.done then m.(done := m.done + {ItemKey(row.id)}) else m;
      var m := if row.priority then m.(priority := m.priority + {ItemKey(row.id)}) else m;
      s.(todos := s.todos + [Entry(row.id, row.content)], marks := m)
  }

  /** The sub-item rows read in order: each row is appended to its parent's list, and its
      marks go to the position it lands on. */
  function LoadSubs(base: State, rows: seq<SubRow>): State {
    if |rows| == 0 then base
    else
      var s := LoadSubs(base, rows[..|rows| - 1]);
      var row := rows[|rows| - 1];
      var list := SubList(s, row.parent) + [Entry(row.id, row.content)];
      var key := SubKey(row.parent, |list| - 1);
      var m := s.marks;
      var m := if row.done then m.(done := m.done + {key}) else m;
      var m := if row.priority then m.(priority := m.priority + {key}) else m;
      s.(subtodos := s.subtodos[row.parent := list], marks := m)
  }

  /** `load_todos` into a freshly started editor. */
  function Load(st: Store): (s: State)
    ensures |s.todos| == |st.items|
    ensures forall i :: 0 <= i < |st.items| ==> s.todos[i] == Entry(st.items[i].id, st.items[i].content)
    ensures forall p :: p in s.subtodos <==> |RowsOf(st.subs, p)| > 0
    ensures forall p :: p in s.subtodos ==> s.subtodos[p] == Entries(RowsOf(st.subs, p))
    ensures forall k :: k in s.marks.done <==> k in FlaggedItems(st.items, false) || FlaggedSub(st.subs, k, false)
    ensures forall k :: k in s.marks.priority <==> k in FlaggedItems(st.items, true) || FlaggedSub(st.subs, k, true)
    ensures s.marks.bold == {} && s.marks.italic == {} && s.theme == "dark"
  {
    LoadItemsForm(st.items);
    LoadSubsForm(LoadItems(st.items), st.subs);
    LoadSubs(LoadItems(st.items), st.subs)
  }

  // ---------------------------------------------------------------- what a load rebuilds

  /** The done flag of a row, or its priority flag. */
  function ItemFlag(row: ItemRow, priority: bool): bool {
    if priority then row.priority else row.done
  }

  function SubFlag(row: SubRow, priority: bool): bool {
    if priority then row.priority else row.done
  }

  /** The mark set `m` of `s`: done or priority. */
  function MarkSet(s: State, priority: bool): set<Key> {
    if priority then s.marks.priority else s.marks.done
  }

  /** The keys of the item rows carrying a flag. */
  function FlaggedItems(rows: seq<ItemRow>, priority: bool): set<Key> {
    set i | 0 <= i < |rows| && ItemFlag(rows[i], priority) :: ItemKey(rows[i].id)
  }

  /** The rows of the sub-items of `parent`, in the order they appear. */
  function RowsOf(rows: seq<SubRow>, parent: int): (r: seq<SubRow>)
    ensures forall j :: 0 <= j < |r| ==> r[j].parent == parent
  {
    if |rows| == 0 then []
    else RowsOf(rows[..|rows| - 1], parent) + (if rows[|rows| - 1].parent == parent then [rows[|rows| - 1]] else [])
  }

  /** The entries rows describe. */
  function Entries(rows: seq<SubRow>): (r: seq<Entry>)
    ensures |r| == |rows| && forall j :: 0 <= j < |rows| ==> r[j] == Entry(rows[j].id, rows[j].content)
  {
    seq(|rows|, j requires 0 <= j < |rows| => Entry(rows[j].id, rows[j].content))
  }

  /** A sub-item key whose row, counted among its parent's rows, carries the flag. */
  predicate FlaggedSub(rows: seq<SubRow>, k: Key, priority: bool) {
    k.SubKey? && 0 <= k.pos < |RowsOf(rows, k.parent)| && SubFlag(RowsOf(rows, k.parent)[k.pos], priority)
  }

  /** Reading the item rows gives one item per row, in order, marked as the rows say, and
      nothing else. */
  lemma {:induction false} LoadItemsForm(rows: seq<ItemRow>)
    ensures var s := LoadItems(rows);
            && |s.todos| == |rows|
            && (forall i :: 0 <= i < |rows| ==> s.todos[i] == Entry(rows[i].id, rows[i].content))
            && s.subtodos == map[] && s.theme == "dark"
            && s.marks.bold == {} && s.marks.italic == {}
            && s.marks.done == FlaggedItems(rows, false)
            && s.marks.priority == FlaggedItems(rows, true)
  {
    if |rows| > 0 {
      var init := rows[..|rows| - 1];
      LoadItemsForm(init);
      var row := rows[|rows| - 1];
      forall pr: bool
        ensures FlaggedItems(rows, pr) == FlaggedItems(init, pr) + (if ItemFlag(row, pr) then {ItemKey(row.id)} else {})
      {
        assert forall i :: 0 <= i < |init| ==> init[i] == rows[i];
      }
    }
  }

  /** Reading the sub-item rows into a state with no sub-item lists gives each parent the
      entries of its rows, in order, and marks position j of a parent when its j-th row is
      flagged. */
  lemma LoadSubsForm(base: State, rows: seq<SubRow>)
    requires base.subtodos == map[]
    ensures var s := LoadSubs(base, rows);
            && s.todos == base.todos && s.theme == base.theme
            && s.marks.bold == base.marks.bold && s.marks.italic == base.marks.italic
            && (forall p :: p in s.subtodos <==> |RowsOf(rows, p)| > 0)
            && (forall p :: p in s.subtodos ==> s.subtodos[p] == Entries(RowsOf(rows, p)))
            && (forall k :: k in s.marks.done <==> k in base.marks.done || FlaggedSub(rows, k, false))
            && (forall k :: k in s.marks.priority <==> k in base.marks.priority || FlaggedSub(rows, k, true))
  {
    LoadSubsLists(base, rows);
    LoadSubsMarks(base, rows);
  }

  /** The lists part of `LoadSubsForm`. */
  lemma {:induction false} LoadSubsLists(base: State, rows: seq<SubRow>)
    requires base.subtodos == map[]
    ensures var s := LoadSubs(base, rows);
            && s.todos == base.todos && s.theme == base.theme
            && s.marks.bold == base.marks.bold && s.marks.italic == base.marks.italic
            && (forall p :: p in s.subtodos <==> |RowsOf(rows, p)| > 0)
            && (forall p :: SubList(s, p) == Entries(RowsOf(rows, p)))
  {
    if |rows| > 0 {
      var init := rows[..|rows| - 1];
      LoadSubsLists(base, init);
      var row := rows[|rows| - 1];
      var s := LoadSubs(base, init);
      var s' := LoadSubs(base, rows);
      assert s'.subtodos == s.subtodos[row.parent := SubList(s, row.parent) + [Entry(row.id, row.content)]];
      forall p
        ensures p in s'.subtodos <==> |RowsOf(rows, p)| > 0
        ensures SubList(s', p) == Entries(RowsOf(rows, p))
      {
        if p == row.parent {
          assert RowsOf(rows, p) == RowsOf(init, p) + [row];
          assert Entries(RowsOf(rows, p)) == Entries(RowsOf(init, p)) + [Entry(row.id, row.content)];
        } else {
          assert RowsOf(rows, p) == RowsOf(init, p);
        }
      }
    }
  }

  /** The marks part of `LoadSubsForm`. */
  lemma {:induction false} LoadSubsMarks(base: State, rows: seq<SubRow>)
    requires base.subtodos == map[]
    ensures var s := LoadSubs(base, rows);
            && (forall k :: k in s.marks.done <==> k in base.marks.done || FlaggedSub(rows, k, false))
            && (forall k :: k in s.marks.priority <==> k in base.marks.priority || FlaggedSub(rows, k, true))
  {
    if |rows| > 0 {
      var init := rows[..|rows| - 1];
      LoadSubsMarks(base, init);
      LoadSubsLists(base, init);
      var row := rows[|rows| - 1];
      var s := LoadSubs(base, init);
      var s' := LoadSubs(base, rows);
      assert |SubList(s, row.parent)| == |RowsOf(init, row.parent)|;
      var key := SubKey(row.parent, |RowsOf(init, row.parent)|);
      assert s'.marks.done == if row.done then s.marks.done + {key} else s.marks.done;
      assert s'.marks.priority == if row.priority then s.marks.priority + {key} else s.marks.priority;
      forall k, pr: bool
        ensures FlaggedSub(rows, k, pr) <==>
                  FlaggedSub(init, k, pr) || (SubFlag(row, pr) && k == SubKey(row.parent, |RowsOf(init, row.parent)|))
      {
        FlaggedSubStep(rows, k, pr);
      }
    }
  }

  /** One more row flags one more key: its position among its parent's rows. */
  lemma FlaggedSubStep(rows: seq<SubRow>, k: Key, pr: bool)
    requires |rows| > 0
    ensures var init := rows[..|rows| - 1];
            var row := rows[|rows| - 1];
            FlaggedSub(rows, k, pr) <==>
              FlaggedSub(init, k, pr) || (SubFlag(row, pr) && k == SubKey(row.parent, |RowsOf(init, row.parent)|))
  {
    var init := rows[..|rows| - 1];
    var row := rows[|rows| - 1];
    if k.SubKey? && k.parent == row.parent && 0 <= k.pos < |RowsOf(init, row.parent)| {
      assert RowsOf(rows, k.parent)[k.pos] == RowsOf(init, k.parent)[k.pos];
    }
  }

  // ---------------------------------------------------------------- round trip

  lemma {:induction false} RowsOfAppend(a: seq<SubRow>, b: seq<SubRow>, p: int)
    ensures RowsOf(a + b, p) == RowsOf(a, p) + RowsOf(b, p)
    decreases |b|
  {
    if |b| == 0 {
      assert a + b == a;
    } else {
      assert (a + b)[..|a + b| - 1] == a + b[..|b| - 1];
      RowsOfAppend(a, b[..|b| - 1], p);
    }
  }

  /** Rows all of one parent are kept whole by that parent and dropped by every other. */
  lemma {:induction false} RowsOfUniform(rows: seq<SubRow>, q: int, p: int)
    requires forall j :: 0 <= j < |rows| ==> rows[j].parent == q
    ensures RowsOf(rows, p) == if q == p then rows else []
  {
    if |rows| > 0 {
      RowsOfUniform(rows[..|rows| - 1], q, p);
      assert rows == rows[..|rows| - 1] + [rows[|rows| - 1]];
    }
  }

  /** With distinct item ids, the saved rows of a parent are exactly the rows of its list,
      and a parent that is not an item has none. */
  lemma {:induction false} RowsOfSaved(s: State, n: nat, p: int)
    requires n <= |s.todos| && IdsIncreasing(s.todos)
    ensures RowsOf(SubRowsUpTo(s, n), p) == if p in Ids(s.todos[..n]) then SubRowsOf(s, p) else []
  {
    if n > 0 {
      var q := s.todos[n - 1].id;
      RowsOfSaved(s, n - 1, p);
      RowsOfAppend(SubRowsUpTo(s, n - 1), SubRowsOf(s, q), p);
      RowsOfUniform(SubRowsOf(s, q), q, p);
      IdsOfPrefix(s.todos, n);
    }
  }

  /** Growing a prefix of a list with increasing ids adds one new id. */
  lemma IdsOfPrefix(list: seq<Entry>, n: nat)
    requires 0 < n <= |list| && IdsIncreasing(list)
    ensures Ids(list[..n]) == Ids(list[..n - 1]) + {list[n - 1].id}
    ensures list[n - 1].id !in Ids(list[..n - 1])
  {
    assert list[..n] == list[..n - 1] + [list[n - 1]];
  }

  /** The marks a save writes: done and priority marks of items and of existing sub-items. */
  predicate Stored(s: State, k: Key) {
    match k
    case ItemKey(id) => id in Ids(s.todos)
    case SubKey(p, j) => p in Ids(s.todos) && 0 <= j < |SubList(s, p)|
  }

  /** What survives a save and a load: the items, the non-empty sub-item lists of items, and
      the done and priority marks of items and existing sub-items. Bold, italic and the
      theme are not written, so they come back empty and "dark". */
  function Persisted(s: State): (r: State)
    ensures r.todos == s.todos && r.theme == "dark"
  {
    State(
      s.todos,
      map p | p in s.subtodos && p in Ids(s.todos) && |s.subtodos[p]| > 0 :: s.subtodos[p],
      Marks(set k | k in s.marks.done && Stored(s, k), set k | k in s.marks.priority && Stored(s, k), {}, {}),
      "dark")
  }

  lemma ItemsRoundTrip(s: State)
    ensures var l := LoadItems(Save(s).items);
            && l.todos == s.todos && l.subtodos == map[] && l.theme == "dark"
            && l.marks.bold == {} && l.marks.italic == {}
            && (forall k :: k in l.marks.done <==> k.ItemKey? && k in s.marks.done && Stored(s, k))
            && (forall k :: k in l.marks.priority <==> k.ItemKey? && k in s.marks.priority && Stored(s, k))
  {
    var items := Save(s).items;
    LoadItemsForm(items);
    var l := LoadItems(items);
    assert l.todos == s.todos;
    forall k, pr: bool
      ensures k in FlaggedItems(items, pr) <==> k.ItemKey? && k in MarkSet(s, pr) && Stored(s, k)
    {
      if k.ItemKey? && k in MarkSet(s, pr) && Stored(s, k) {
        var i :| 0 <= i < |s.todos| && s.todos[i].id == k.id;
        assert ItemFlag(items[i], pr);
      }
    }
    assert l.marks.done == FlaggedItems(items, false);
    assert l.marks.priority == FlaggedItems(items, true);
  }

  /** With distinct item ids, the saved rows of each parent are those of its list. */
  lemma SavedRowsByParent(s: State)
    requires IdsIncreasing(s.todos)
    ensures forall p :: RowsOf(Save(s).subs, p) == if p in Ids(s.todos) then SubRowsOf(s, p) else []
  {
    assert s.todos[..|s.todos|] == s.todos;
    forall p
      ensures RowsOf(Save(s).subs, p) == if p in Ids(s.todos) then SubRowsOf(s, p) else []
    {
      RowsOfSaved(s, |s.todos|, p);
    }
  }

  /** Sub-item rows grouped as the lists of `s` load into exactly the lists a save keeps. */
  lemma SubsFromRows(base: State, rows: seq<SubRow>, s: State)
    requires base.subtodos == map[]
    requires forall p :: RowsOf(rows, p) == if p in Ids(s.todos) then SubRowsOf(s, p) else []
    ensures LoadSubs(base, rows).subtodos == Persisted(s).subtodos
  {
    LoadSubsForm(base, rows);
    var r := LoadSubs(base, rows).subtodos;
    var want := Persisted(s).subtodos;
    forall p
      ensures p in r <==> p in want
      ensures p in r ==> r[p] == want[p]
    {
      ListFromRows(r, rows, s, p);
    }
  }

  /** One parent's list, loaded from rows grouped as the lists of `s`, is the list a save
      keeps. */
  lemma ListFromRows(r: map<int, seq<Entry>>, rows: seq<SubRow>, s: State, p: int)
    requires p in r <==> |RowsOf(rows, p)| > 0
    requires p in r ==> r[p] == Entries(RowsOf(rows, p))
    requires RowsOf(rows, p) == if p in Ids(s.todos) then SubRowsOf(s, p) else []
    ensures var want := Persisted(s).subtodos;
            && (p in r <==> p in want)
            && (p in r ==> r[p] == want[p])
  {
    if p in Ids(s.todos) && p in r {
      assert Entries(SubRowsOf(s, p)) == SubList(s, p);
    }
  }

  lemma SubsRoundTrip(s: State)
    requires IdsIncreasing(s.todos)
    ensures Load(Save(s)).subtodos == Persisted(s).subtodos
  {
    ItemsRoundTrip(s);
    SavedRowsByParent(s);
    SubsFromRows(LoadItems(Save(s).items), Save(s).subs, s);
  }

  /** Item marks as a save keeps them, followed by sub-item rows grouped as the lists of `s`,
      give exactly the marks a save keeps. */
  lemma MarksFromRows(base: State, rows: seq<SubRow>, s: State)
    requires base.subtodos == map[] && base.marks.bold == {} && base.marks.italic == {}
    requires forall k :: k in base.marks.done <==> k.ItemKey? && k in s.marks.done && Stored(s, k)
    requires forall k :: k in base.marks.priority <==> k.ItemKey? && k in s.marks.priority && Stored(s, k)
    requires forall p :: RowsOf(rows, p) == if p in Ids(s.todos) then SubRowsOf(s, p) else []
    ensures LoadSubs(base, rows).marks == Persisted(s).marks
  {
    LoadSubsForm(base, rows);
    var r := LoadSubs(base, rows).marks;
    var want := Persisted(s).marks;
    forall k
      ensures k in r.done <==> k in want.done
      ensures k in r.priority <==> k in want.priority
    {
      FlaggedSubSaved(rows, s, k, false);
      FlaggedSubSaved(rows, s, k, true);
    }
    assert r.done == want.done;
    assert r.priority == want.priority;
  }

  /** A sub-item key is flagged in the saved rows exactly when a save keeps its mark. */
  lemma FlaggedSubSaved(rows: seq<SubRow>, s: State, k: Key, pr: bool)
    requires k.SubKey? ==> RowsOf(rows, k.parent) == if k.parent in Ids(s.todos) then SubRowsOf(s, k.parent) else []
    ensures FlaggedSub(rows, k, pr) <==> k.SubKey? && k in MarkSet(s, pr) && Stored(s, k)
  {
  }

  lemma MarksRoundTrip(s: State)
    requires IdsIncreasing(s.todos)
    ensures Load(Save(s)).marks == Persisted(s).marks
  {
    ItemsRoundTrip(s);
    SavedRowsByParent(s);
    MarksFromRows(LoadItems(Save(s).items), Save(s).subs, s);
  }

  /** With distinct item ids, loading what a save wrote gives back everything a save writes:
      the items in order, every non-empty sub-item list of an item, and the done and
      priority marks that belong to an item or an existing sub-item. */
  lemma RoundTrip(s: State)
    requires IdsIncreasing(s.todos)
    ensures Load(Save(s)) == Persisted(s)
  {
    ItemsRoundTrip(s);
    LoadSubsForm(LoadItems(Save(s).items), Save(s).subs);
    SubsRoundTrip(s);
    MarksRoundTrip(s);
  }
}
