/** The shape every reachable state keeps: item ids increase along the list, sub-item lists
    belong to existing items and have increasing ids, and every mark belongs to an existing
    item. The sweep of the item deletion is what keeps the last part: without it a mark
    would survive its item and fall on the next item that receives the same id. */
module ListInvariant {
  import opened PyText
  import opened MarkKeys
  import opened Positions
  import opened ListModel
  import opened Batch
  import opened Dispatch

  ghost predicate Inv(s: State) {
    && IdsIncreasing(s.todos)
    && (forall p :: p in s.subtodos ==> p in Ids(s.todos) && IdsIncreasing(s.subtodos[p]))
    && (forall m, k :: k in s.marks.Get(m) ==> k.Owner() in Ids(s.todos))
  }

  lemma InitialInv()
    ensures Inv(Initial)
  {
  }

  /** Removing one entry keeps ids increasing and removes exactly its id. */
  lemma RemoveAtIds(list: seq<Entry>, i: nat)
    requires i < |list| && IdsIncreasing(list)
    ensures IdsIncreasing(RemoveAt(list, i))
    ensures Ids(RemoveAt(list, i)) == Ids(list) - {list[i].id}
  {
    var r := RemoveAt(list, i);
    forall x
      ensures x in Ids(r) <==> x in Ids(list) && x != list[i].id
    {
      if x in Ids(r) {
        var j :| 0 <= j < |r| && r[j].id == x;
        if j < i {
          assert list[j].id == x;
        } else {
          assert list[j + 1].id == x;
        }
      }
      if x in Ids(list) && x != list[i].id {
        var j :| 0 <= j < |list| && list[j].id == x;
        if j < i {
          assert r[j].id == x;
        } else {
          assert r[j - 1].id == x;
        }
      }
    }
  }

  lemma AddItemInv(s: State, text: string)
    requires Inv(s)
    ensures Inv(AddItem(s, text))
  {
    AddItemFreshId(s, text);
    var r := AddItem(s, text);
    assert Ids(s.todos) <= Ids(r.todos) by {
      forall x | x in Ids(s.todos)
        ensures x in Ids(r.todos)
      {
        var j :| 0 <= j < |s.todos| && s.todos[j].id == x;
        assert r.todos[j].id == x;
      }
    }
  }

  lemma AddSubItemInv(s: State, parent: int, text: string)
    requires Inv(s) && parent in Ids(s.todos)
    ensures Inv(AddSubItem(s, parent, text))
  {
    AddSubItemFreshId(s, parent, text);
    var r := AddSubItem(s, parent, text);
    assert r.marks == s.marks;
  }

  lemma ToggleItemInv(s: State, m: Mark, idx: int)
    requires Inv(s) && ToggleItem(s, m, idx).Some?
    ensures Inv(ToggleItem(s, m, idx).value)
  {
    var i := PyIndex(|s.todos|, idx).value;
    assert s.todos[i].id in Ids(s.todos);
  }

  lemma ToggleSubInv(s: State, m: Mark, parent: int, pos: int)
    requires Inv(s) && parent in Ids(s.todos)
    ensures Inv(ToggleSub(s, m, parent, pos))
  {
  }

  lemma DeleteItemInv(s: State, idx: int)
    requires Inv(s) && DeleteItem(s, idx).Some?
    ensures Inv(DeleteItem(s, idx).value)
  {
    var i := PyIndex(|s.todos|, idx).value;
    RemoveAtIds(s.todos, i);
  }

  lemma DeleteSubItemInv(s: State, parent: int, pos: int)
    requires Inv(s) && DeleteSubItem(s, parent, pos).Some?
    ensures Inv(DeleteSubItem(s, parent, pos).value)
  {
    if parent in s.subtodos && pos < |s.subtodos[parent]| {
      var list := s.subtodos[parent];
      RemoveAtIds(list, PyIndex(|list|, pos).value);
    }
  }

  lemma {:induction false} CollectTokensInv(s: State, tokens: seq<string>, acc: seq<int>)
    requires Inv(s)
    ensures Inv(CollectTokens(s, tokens, acc).state)
    decreases |tokens|
  {
    if |tokens| > 0 {
      match ParseToken(tokens[0])
      case RangeTok(lo, hi) => CollectTokensInv(s, tokens[1..], acc + Range(lo, hi));
      case PosTok(i) => CollectTokensInv(s, tokens[1..], acc + [i]);
      case SubTok(p, j) =>
        if PyIndex(|s.todos|, p).Some? {
          var pi := PyIndex(|s.todos|, p).value;
          if DeleteSubItem(s, s.todos[pi].id, j).Some? {
            DeleteSubItemInv(s, s.todos[pi].id, j);
            CollectTokensInv(DeleteSubItem(s, s.todos[pi].id, j).value, tokens[1..], acc);
          }
        }
      case BadTok =>
      case EmptyTok =>
    }
  }

  lemma {:induction false} DeleteAllInv(s: State, ks: seq<int>)
    requires Inv(s)
    ensures Inv(DeleteAll(s, ks).state)
    decreases |ks|
  {
    if |ks| > 0 && DeleteItem(s, ks[0]).Some? {
      DeleteItemInv(s, ks[0]);
      DeleteAllInv(DeleteItem(s, ks[0]).value, ks[1..]);
    }
  }

  lemma RunBatchInv(s: State, tokens: seq<string>)
    requires Inv(s)
    ensures Inv(RunBatch(s, tokens).state)
  {
    CollectTokensInv(s, tokens, []);
    match CollectTokens(s, tokens, [])
    case Stopped(_, _) =>
    case Collected(s', ks) => DeleteAllInv(s', SortDesc(ks));
  }

  /** Every command keeps the invariant, so every state the editor reaches from the empty
      list has it. */
  lemma HandleInputInv(s: State, line: string, sync: bool)
    requires Inv(s)
    ensures Inv(HandleInput(s, line, sync).state)
  {
    ApplyInv(s, Classify(line, sync));
  }

  /** Every action keeps the invariant. */
  lemma ApplyInv(s: State, a: Action)
    requires Inv(s)
    ensures Inv(Apply(s, a).state)
  {
    match a
    case ToggleAt(m, idx) =>
      if ToggleItem(s, m, idx).Some? {
        ToggleItemInv(s, m, idx);
      }
    case AddSubAt(p, text) => ApplyAddSubInv(s, p, text);
    case ToggleSubAt(p, j) => ApplyToggleSubInv(s, p, j);
    case DeleteBatch(tokens) => RunBatchInv(s, tokens);
    case ChangeTheme(name) =>
    case AppendItem(text) => AddItemInv(s, text);
    case NoEffect =>
    case Quit =>
    case Upload =>
    case CheckRemote =>
    case EmptyLine =>
  }

  lemma ApplyAddSubInv(s: State, p: Option<int>, text: string)
    requires Inv(s)
    ensures Inv(Apply(s, AddSubAt(p, text)).state)
  {
    if p.Some? && PyIndex(|s.todos|, p.value - 1).Some? {
      var i := PyIndex(|s.todos|, p.value - 1).value;
      assert s.todos[i].id in Ids(s.todos);
      AddSubItemInv(s, s.todos[i].id, text);
      assert Apply(s, AddSubAt(p, text)).state == AddSubItem(s, s.todos[i].id, text);
    }
  }

  lemma ApplyToggleSubInv(s: State, p: int, j: int)
    requires Inv(s)
    ensures Inv(Apply(s, ToggleSubAt(p, j)).state)
  {
    if PyIndex(|s.todos|, p).Some? {
      var i := PyIndex(|s.todos|, p).value;
      assert s.todos[i].id in Ids(s.todos);
      ToggleSubInv(s, Done, s.todos[i].id, j);
      assert Apply(s, ToggleSubAt(p, j)).state == ToggleSub(s, Done, s.todos[i].id, j);
    }
  }

  /** A new item carries no mark and no sub-item list, even when it reuses the id of an item
      deleted earlier. */
  lemma FreshItemUnmarked(s: State, text: string)
    requires Inv(s)
    ensures var id := AddItem(s, text).todos[|s.todos|].id;
            && id !in s.subtodos
            && forall m, k :: k in s.marks.Get(m) ==> k.Owner() != id
  {
    AddItemFreshId(s, text);
  }
}
