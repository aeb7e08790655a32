/** The two-level list of the full editors: items with ids, a sub-item list per parent id, four
    mark sets and the current theme, with the mutation operations of the `ToDoApp` class.
    An operation that raises IndexError before changing anything returns None. */
module ListModel {
  import opened PyText
  import opened MarkKeys
  import opened Positions

  /** An item or a sub-item: its id and its text. */
  datatype Entry = Entry(id: int, text: string)

  /** The four mark sets: done (shown struck through), priority, bold and italic. */
  datatype Mark = Done | Priority | Bold | Italic

  datatype Marks = Marks(done: set<Key>, priority: set<Key>, bold: set<Key>, italic: set<Key>) {

    function Get(m: Mark): set<Key> {
      match m
      case Done => done
      case Priority => priority
      case Bold => bold
      case Italic => italic
    }

    function Put(m: Mark, ks: set<Key>): (r: Marks)
      ensures r.Get(m) == ks
      ensures forall m' :: m' != m ==> r.Get(m') == Get(m')
    {
      match m
      case Done => this.(done := ks)
      case Priority => this.(priority := ks)
      case Bold => this.(bold := ks)
      case Italic => this.(italic := ks)
    }

    /** Add `k` to set `m` if it is absent, remove it if present. */
    function Toggle(m: Mark, k: Key): (r: Marks)
      ensures k in r.Get(m) <==> k !in Get(m)
      ensures forall k' :: k' != k ==> (k' in r.Get(m) <==> k' in Get(m))
      ensures forall m' :: m' != m ==> r.Get(m') == Get(m')
    {
      Put(m, if k in Get(m) then Get(m) - {k} else Get(m) + {k})
    }

    /** Every set without the keys owned by item `id`. */
    function SweepOwner(id: int): (r: Marks)
      ensures forall m :: r.Get(m) == NotOwnedBy(Get(m), id)
      ensures forall m, k :: k in r.Get(m) <==> k in Get(m) && k.Owner() != id
    {
      Marks(NotOwnedBy(done, id), NotOwnedBy(priority, id), NotOwnedBy(bold, id), NotOwnedBy(italic, id))
    }

    /** Every set without the one key `key`. */
    function SweepKey(key: Key): (r: Marks)
      ensures forall m, k :: k in r.Get(m) <==> k in Get(m) && k != key
    {
      Marks(done - {key}, priority - {key}, bold - {key}, italic - {key})
    }
  }

  /** The keys of `ks` that item `id` does not own. */
  function NotOwnedBy(ks: set<Key>, id: int): (r: set<Key>)
    ensures forall k :: k in r <==> k in ks && k.Owner() != id
  {
    set k | k in ks && k.Owner() != id
  }

  const NoMarks := Marks({}, {}, {}, {})

  /** Items in display order, sub-item lists by parent id, the mark sets, the theme name. */
  datatype State = State(todos: seq<Entry>, subtodos: map<int, seq<Entry>>, marks: Marks, theme: string)

  /** The editor before its store is loaded. */
  const Initial := State([], map[], NoMarks, "dark")

  /** The ids of a list. */
  function Ids(list: seq<Entry>): set<int> {
    set i | 0 <= i < |list| :: list[i].id
  }

  ghost predicate IdsIncreasing(list: seq<Entry>) {
    forall i, j :: 0 <= i < j < |list| ==> list[i].id < list[j].id
  }

  /** The id a new entry of `list` receives: one more than the last entry's, 1 for an empty list. */
  function NextId(list: seq<Entry>): int {
    if |list| == 0 then 1 else list[|list| - 1].id + 1
  }

  /** The sub-item list of `parent`, empty when it has none. */
  function SubList(s: State, parent: int): seq<Entry> {
    if parent in s.subtodos then s.subtodos[parent] else []
  }

  // ---------------------------------------------------------------- operations

  /** `add_item`: append a new item at the end. */
  function AddItem(s: State, text: string): (r: State)
    ensures |r.todos| == |s.todos| + 1 && r.todos[..|s.todos|] == s.todos
    ensures r.todos[|s.todos|].text == text
    ensures r.subtodos == s.subtodos && r.marks == s.marks && r.theme == s.theme
  {
    s.(todos := s.todos + [Entry(NextId(s.todos), text)])
  }

  /** `add_subitem`: append a new sub-item to the list of `parent`, creating the list if needed. */
  function AddSubItem(s: State, parent: int, text: string): (r: State)
    ensures parent in r.subtodos
    ensures var prev := SubList(s, parent);
            |r.subtodos[parent]| == |prev| + 1 && r.subtodos[parent][..|prev|] == prev
            && r.subtodos[parent][|prev|].text == text
    ensures forall p :: p != parent ==> (p in r.subtodos <==> p in s.subtodos)
    ensures forall p :: p != parent && p in s.subtodos ==> r.subtodos[p] == s.subtodos[p]
    ensures r.todos == s.todos && r.marks == s.marks && r.theme == s.theme
  {
    var prev := SubList(s, parent);
    s.(subtodos := s.subtodos[parent := prev + [Entry(NextId(prev), text)]])
  }

  /** `highlight_item`, `prioritize_item`, `bold_item`, `italic_item`: resolve the position
      first (IndexError when out of range), then toggle the item's key in one set. */
  function ToggleItem(s: State, m: Mark, idx: int): (r: Option<State>)
    ensures r.Some? <==> -|s.todos| <= idx < |s.todos|
    ensures r.Some? ==>
      var key := ItemKey(s.todos[PyIndex(|s.todos|, idx).value].id);
      && r.value.todos == s.todos && r.value.subtodos == s.subtodos && r.value.theme == s.theme
      && (key in r.value.marks.Get(m) <==> key !in s.marks.Get(m))
      && (forall k :: k != key ==> (k in r.value.marks.Get(m) <==> k in s.marks.Get(m)))
      && (forall m' :: m' != m ==> r.value.marks.Get(m') == s.marks.Get(m'))
  {
    match PyIndex(|s.todos|, idx)
    case None => None
    case Some(i) => Some(s.(marks := s.marks.Toggle(m, ItemKey(s.todos[i].id))))
  }

  /** `highlight_subitem` and its three siblings: toggle the key of position `pos` under
      `parent`, whether or not such a sub-item exists. */
  function ToggleSub(s: State, m: Mark, parent: int, pos: int): (r: State)
    ensures SubKey(parent, pos) in r.marks.Get(m) <==> SubKey(parent, pos) !in s.marks.Get(m)
    ensures forall k :: k != SubKey(parent, pos) ==> (k in r.marks.Get(m) <==> k in s.marks.Get(m))
    ensures forall m' :: m' != m ==> r.marks.Get(m') == s.marks.Get(m')
    ensures r.todos == s.todos && r.subtodos == s.subtodos && r.theme == s.theme
  {
    s.(marks := s.marks.Toggle(m, SubKey(parent, pos)))
  }

  /** `delete_item`: remove the item at a position, its sub-item list, and from every mark set
      the item's key and all keys of its sub-items. */
  function DeleteItem(s: State, idx: int): (r: Option<State>)
    ensures r.Some? <==> -|s.todos| <= idx < |s.todos|
    ensures r.Some? ==>
      var i := PyIndex(|s.todos|, idx).value;
      var id := s.todos[i].id;
      && r.value.todos == RemoveAt(s.todos, i)
      && id !in r.value.subtodos
      && (forall p :: p != id ==> (p in r.value.subtodos <==> p in s.subtodos))
      && (forall p :: p != id && p in s.subtodos ==> r.value.subtodos[p] == s.subtodos[p])
      && (forall m, k :: k in r.value.marks.Get(m) <==> k in s.marks.Get(m) && k.Owner() != id)
      && r.value.theme == s.theme
  {
    match PyIndex(|s.todos|, idx)
    case None => None
    case Some(i) =>
      var id := s.todos[i].id;
      Some(State(RemoveAt(s.todos, i), s.subtodos - {id}, s.marks.SweepOwner(id), s.theme))
  }

  /** `delete_subitem`: a silent no-op unless `parent` has a list and `pos` is below its length;
      otherwise `del list[pos]` (IndexError for a position below minus the length) and the one
      key `SubKey(parent, pos)` leaves every mark set. Keys of later positions are not renumbered. */
  function DeleteSubItem(s: State, parent: int, pos: int): (r: Option<State>)
    ensures !(parent in s.subtodos && pos < |s.subtodos[parent]|) ==> r == Some(s)
    ensures parent in s.subtodos && pos < |s.subtodos[parent]| ==>
      var list := s.subtodos[parent];
      && (r.Some? <==> -|list| <= pos)
      && (r.Some? ==>
            && r.value.todos == s.todos && r.value.theme == s.theme
            && r.value.subtodos == s.subtodos[parent := RemoveAt(list, PyIndex(|list|, pos).value)]
            && (forall m, k :: k in r.value.marks.Get(m) <==> k in s.marks.Get(m) && k != SubKey(parent, pos)))
  {
    if parent in s.subtodos && pos < |s.subtodos[parent]| then
      var list := s.subtodos[parent];
      match PyIndex(|list|, pos)
      case None => None
      case Some(i) =>
        Some(s.(subtodos := s.subtodos[parent := RemoveAt(list, i)], marks := s.marks.SweepKey(SubKey(parent, pos))))
    else Some(s)
  }

  /** `apply_theme`, as far as the model goes: only a known theme name is adopted. */
  function ApplyTheme(s: State, name: string): (r: State)
    ensures r.theme == name || r == s
    ensures r.theme == name <==> name == "light" || name == "dark" || name == s.theme
    ensures r.todos == s.todos && r.subtodos == s.subtodos && r.marks == s.marks
  {
    if name in {"light", "dark"} then s.(theme := name) else s
  }

  // ---------------------------------------------------------------- properties

  /** Each toggle undoes itself: applying it twice restores the state. */
  lemma ToggleItemTwice(s: State, m: Mark, idx: int)
    requires ToggleItem(s, m, idx).Some?
    ensures ToggleItem(ToggleItem(s, m, idx).value, m, idx) == Some(s)
  {
    var t := ToggleItem(s, m, idx).value;
    var k := ItemKey(s.todos[PyIndex(|s.todos|, idx).value].id);
    var back := ToggleItem(t, m, idx).value;
    assert back.marks.Get(m) == s.marks.Get(m);
    assert back.marks == s.marks by {
      assert forall m' :: back.marks.Get(m') == s.marks.Get(m');
    }
  }

  lemma ToggleSubTwice(s: State, m: Mark, parent: int, pos: int)
    ensures ToggleSub(ToggleSub(s, m, parent, pos), m, parent, pos) == s
  {
    var back := ToggleSub(ToggleSub(s, m, parent, pos), m, parent, pos);
    assert back.marks.Get(m) == s.marks.Get(m);
    assert back.marks == s.marks by {
      assert forall m' :: back.marks.Get(m') == s.marks.Get(m');
    }
  }

  /** An out-of-range position changes nothing: the item toggles index the list first. */
  lemma ToggleItemOutOfRange(s: State, m: Mark, idx: int)
    requires idx >= |s.todos| || idx < -|s.todos|
    ensures ToggleItem(s, m, idx) == None
  {
  }

  /** The position "0" of a command becomes index -1, the last item. */
  lemma ToggleItemMinusOneIsLast(s: State, m: Mark)
    requires |s.todos| > 0
    ensures ToggleItem(s, m, -1).Some?
    ensures var key := ItemKey(s.todos[|s.todos| - 1].id);
            key in ToggleItem(s, m, -1).value.marks.Get(m) <==> key !in s.marks.Get(m)
  {
  }

  /** New items receive one more than the last id; ids that increase along the list keep
      increasing, so the new id is fresh among the items present. */
  lemma AddItemFreshId(s: State, text: string)
    requires IdsIncreasing(s.todos)
    ensures var r := AddItem(s, text);
            && r.todos[|s.todos|].id == NextId(s.todos)
            && (|s.todos| == 0 ==> NextId(s.todos) == 1)
            && IdsIncreasing(r.todos)
            && NextId(s.todos) !in Ids(s.todos)
  {
    var r := AddItem(s, text);
    if |s.todos| > 0 {
      assert forall i :: 0 <= i < |s.todos| ==> s.todos[i].id <= s.todos[|s.todos| - 1].id;
    }
  }

  lemma AddSubItemFreshId(s: State, parent: int, text: string)
    requires IdsIncreasing(SubList(s, parent))
    ensures var r := AddSubItem(s, parent, text);
            var prev := SubList(s, parent);
            && r.subtodos[parent][|prev|].id == NextId(prev)
            && IdsIncreasing(r.subtodos[parent])
            && NextId(prev) !in Ids(prev)
  {
    var prev := SubList(s, parent);
    if |prev| > 0 {
      assert forall i :: 0 <= i < |prev| ==> prev[i].id <= prev[|prev| - 1].id;
    }
  }

  /** Ids are not reserved: deleting the last item and adding another hands out its id again. */
  lemma IdReusedAfterDeletingLast(s: State, a: string, b: string)
    ensures var t := AddItem(s, a);
            var u := DeleteItem(t, |t.todos| - 1);
            && u.Some?
            && AddItem(u.value, b).todos[|s.todos|].id == t.todos[|s.todos|].id
  {
    var t := AddItem(s, a);
    assert RemoveAt(t.todos, |t.todos| - 1) == s.todos;
  }

  /** Deleting a sub-item does not renumber the keys behind it: a mark on the next position
      stays on that position, which now shows the sub-item that came after it. */
  lemma SubMarkDrift(s: State, parent: int, pos: nat, m: Mark)
    requires parent in s.subtodos && pos + 1 < |s.subtodos[parent]|
    requires SubKey(parent, pos + 1) in s.marks.Get(m)
    ensures var r := DeleteSubItem(s, parent, pos);
            && r.Some?
            && SubKey(parent, pos + 1) in r.value.marks.Get(m)
            && (pos + 2 < |s.subtodos[parent]| ==>
                  r.value.subtodos[parent][pos + 1] == s.subtodos[parent][pos + 2])
  {
  }
}
