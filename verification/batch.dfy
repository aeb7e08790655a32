/** The `:x` command of the two-level editors. The comma-separated pieces are read in order:
    ranges and integers are gathered as positions, a `<digit><letter>` piece deletes that
    sub-item at once. Only when every piece has been read are the gathered items deleted,
    largest position first. A ValueError stops the command and is caught inside the branch;
    an IndexError reaches the outer handler. Either way, work already done stays done. */
module Batch {
  import opened PyText
  import opened MarkKeys
  import opened Positions
  import opened ListModel

  /** One comma-separated piece of a `:x` command. */
  datatype Token =
    | RangeTok(lo: int, hi: int)        // `A-B`: the 0-based positions A-1 .. B-1
    | SubTok(parentIdx: int, pos: int)  // `<digit><letter>`: one sub-item
    | PosTok(idx: int)                  // an integer N: position N-1
    | BadTok                            // ValueError
    | EmptyTok                          // `range_str[0]` of an empty piece: IndexError

  /** How the piece loop reads one piece, in the order the source tests it. */
  function ParseToken(t: string): (tok: Token)
    ensures tok.EmptyTok? <==> |t| == 0
    ensures tok.RangeTok? ==> '-' in t
    ensures tok.SubTok? ==> '-' !in t && |t| > 1 && IsDigit(t[0]) && IsAlpha(t[1]) && 0 <= tok.parentIdx + 1 < 10
    ensures tok.PosTok? ==> '-' !in t && ParseInt(t) == Some(tok.idx + 1)
    ensures '-' !in t && ParseInt(t).Some? && !(|t| > 1 && IsDigit(t[0]) && IsAlpha(t[1])) ==> tok.PosTok?
  {
    if '-' in t then
      var parts := Split(t, '-');
      if |parts| == 2 && ParseInt(parts[0]).Some? && ParseInt(parts[1]).Some? then
        RangeTok(ParseInt(parts[0]).value - 1, ParseInt(parts[1]).value)
      else BadTok
    else if |t| == 0 then EmptyTok
    else if IsDigit(t[0]) && |t| > 1 && IsAlpha(t[1]) then SubTok(DigitValue(t[0]) - 1, t[1] as int - 97)
    else
      match ParseInt(t)
      case Some(n) => PosTok(n - 1)
      case None => BadTok
  }

  /** Where the piece loop ends: every piece read, with the positions gathered, or an exception;
      `caught` is true for the ValueError the branch handles itself. */
  datatype Collection =
    | Collected(state: State, positions: seq<int>)
    | Stopped(state: State, caught: bool)

  function CollectTokens(s: State, tokens: seq<string>, acc: seq<int>): (c: Collection)
    ensures c.state.todos == s.todos && c.state.theme == s.theme
    decreases |tokens|
  {
    if |tokens| == 0 then Collected(s, acc)
    else
      match ParseToken(tokens[0])
      case RangeTok(lo, hi) => CollectTokens(s, tokens[1..], acc + Range(lo, hi))
      case PosTok(i) => CollectTokens(s, tokens[1..], acc + [i])
      case SubTok(p, j) =>
        (match PyIndex(|s.todos|, p)
         case None => Stopped(s, false)
         case Some(pi) =>
           match DeleteSubItem(s, s.todos[pi].id, j)
           case None => Stopped(s, false)
           case Some(s') => CollectTokens(s', tokens[1..], acc))
      case BadTok => Stopped(s, true)
      case EmptyTok => Stopped(s, false)
  }

  /** The state a batch leaves and whether `save_todos` runs afterwards. */
  datatype Ending = Ending(state: State, saved: bool)

  /** `delete_item` for each position in turn, stopping at the first IndexError. */
  function DeleteAll(s: State, ks: seq<int>): (e: Ending)
    ensures e.state.theme == s.theme
    ensures |e.state.todos| <= |s.todos|
    ensures e.saved <==> |e.state.todos| == |s.todos| - |ks|
    decreases |ks|
  {
    if |ks| == 0 then Ending(s, true)
    else
      match DeleteItem(s, ks[0])
      case None => Ending(s, false)
      case Some(s') => DeleteAll(s', ks[1..])
  }

  /** The `:x` branch of `handle_input`. */
  function RunBatch(s: State, tokens: seq<string>): (e: Ending)
    ensures e.state.theme == s.theme
    ensures |e.state.todos| <= |s.todos|
  {
    match CollectTokens(s, tokens, [])
    case Stopped(s', caught) => Ending(s', caught)
    case Collected(s', ks) => DeleteAll(s', SortDesc(ks))
  }

  // ---------------------------------------------------------------- properties

  /** Pieces that only gather positions: ranges and integers. */
  predicate Gathering(t: Token) {
    t.RangeTok? || t.PosTok?
  }

  /** The positions a run of gathering pieces contributes, in order. */
  function Gathered(tokens: seq<string>): seq<int>
    requires forall k :: 0 <= k < |tokens| ==> Gathering(ParseToken(tokens[k]))
  {
    if |tokens| == 0 then []
    else
      var t := ParseToken(tokens[0]);
      assert Gathering(t);
      (if t.RangeTok? then Range(t.lo, t.hi) else [t.idx]) + Gathered(tokens[1..])
  }

  /** The ids of the items at positions `P` of `todos`. */
  function DeletedIds(todos: seq<Entry>, P: set<int>): set<int> {
    set i | i in P && 0 <= i < |todos| :: todos[i].id
  }

  /** Pieces that only gather positions change nothing while they are read. */
  lemma {:induction false} CollectGathering(s: State, tokens: seq<string>, acc: seq<int>)
    requires forall k :: 0 <= k < |tokens| ==> Gathering(ParseToken(tokens[k]))
    ensures CollectTokens(s, tokens, acc) == Collected(s, acc + Gathered(tokens))
    decreases |tokens|
  {
    if |tokens| > 0 {
      var t := ParseToken(tokens[0]);
      var here := if t.RangeTok? then Range(t.lo, t.hi) else [t.idx];
      CollectGathering(s, tokens[1..], acc + here);
      assert acc + here + Gathered(tokens[1..]) == acc + (here + Gathered(tokens[1..]));
    }
  }

  /** A piece that is neither a range, an integer nor a sub-item stops the loop before any
      item is deleted. */
  lemma {:induction false} CollectStopsAtBadPiece(s: State, tokens: seq<string>, acc: seq<int>, k: nat)
    requires k < |tokens| && (ParseToken(tokens[k]).BadTok? || ParseToken(tokens[k]).EmptyTok?)
    ensures CollectTokens(s, tokens, acc).Stopped?
    decreases k
  {
    if k > 0 {
      match ParseToken(tokens[0])
      case RangeTok(lo, hi) => CollectStopsAtBadPiece(s, tokens[1..], acc + Range(lo, hi), k - 1);
      case PosTok(i) => CollectStopsAtBadPiece(s, tokens[1..], acc + [i], k - 1);
      case SubTok(p, j) =>
        if PyIndex(|s.todos|, p).Some? {
          var pi := PyIndex(|s.todos|, p).value;
          if DeleteSubItem(s, s.todos[pi].id, j).Some? {
            CollectStopsAtBadPiece(DeleteSubItem(s, s.todos[pi].id, j).value, tokens[1..], acc, k - 1);
          }
        }
      case BadTok =>
      case EmptyTok =>
    }
  }

  /** Without sub-item pieces, reading the pieces changes nothing at all. */
  lemma {:induction false} CollectWithoutSubPieces(s: State, tokens: seq<string>, acc: seq<int>)
    requires forall k :: 0 <= k < |tokens| ==> !ParseToken(tokens[k]).SubTok?
    ensures CollectTokens(s, tokens, acc).state == s
    decreases |tokens|
  {
    if |tokens| > 0 {
      match ParseToken(tokens[0])
      case RangeTok(lo, hi) => CollectWithoutSubPieces(s, tokens[1..], acc + Range(lo, hi));
      case PosTok(i) => CollectWithoutSubPieces(s, tokens[1..], acc + [i]);
      case BadTok =>
      case EmptyTok =>
    }
  }

  /** One malformed piece anywhere deletes no item, and without sub-item pieces it leaves the
      whole list as it was: the deletions only start once every piece has been read. */
  lemma BadPieceDeletesNoItem(s: State, tokens: seq<string>, k: nat)
    requires k < |tokens| && (ParseToken(tokens[k]).BadTok? || ParseToken(tokens[k]).EmptyTok?)
    ensures RunBatch(s, tokens).state.todos == s.todos
    ensures (forall j :: 0 <= j < |tokens| ==> !ParseToken(tokens[j]).SubTok?) ==> RunBatch(s, tokens).state == s
  {
    CollectStopsAtBadPiece(s, tokens, [], k);
    if forall j :: 0 <= j < |tokens| ==> !ParseToken(tokens[j]).SubTok? {
      CollectWithoutSubPieces(s, tokens, []);
    }
  }

  /** `r` is `s` without the items at positions `P`: their sub-item lists and every mark they
      own are gone too, and nothing else has changed. */
  ghost predicate RemovedAt(s: State, P: set<int>, r: State) {
    r.todos == Without(s.todos, P) && SweptIds(s, DeletedIds(s.todos, P), r)
  }

  /** `r` is `s` without the sub-item lists and marks of the items with ids `gone`. */
  ghost predicate SweptIds(s: State, gone: set<int>, r: State) {
    && (forall p :: p in r.subtodos <==> p in s.subtodos && p !in gone)
    && (forall p :: p in r.subtodos ==> r.subtodos[p] == s.subtodos[p])
    && (forall m, key :: key in r.marks.Get(m) <==> key in s.marks.Get(m) && key.Owner() !in gone)
    && r.theme == s.theme
  }

  lemma RemovedAtNothing(s: State)
    ensures RemovedAt(s, {}, s)
  {
    WithoutNothing(s.todos);
    assert DeletedIds(s.todos, {}) == {};
  }

  /** Deleting position `k` first and then smaller positions `P` of what is left removes
      `P + {k}` from the original state. */
  lemma RemovedAtStep(s: State, k: int, P: set<int>, r: State)
    requires 0 <= k < |s.todos|
    requires forall p :: p in P ==> 0 <= p < k
    requires DeleteItem(s, k).Some? && RemovedAt(DeleteItem(s, k).value, P, r)
    ensures RemovedAt(s, P + {k}, r)
  {
    var s1 := DeleteItem(s, k).value;
    RemoveLargestFirst(s.todos, k, P);
    assert DeletedIds(s1.todos, P) == DeletedIds(s.todos, P);
    var gone := DeletedIds(s.todos, P + {k});
    assert gone == DeletedIds(s.todos, P) + {s.todos[k].id};
    forall m, key
      ensures key in r.marks.Get(m) <==> key in s.marks.Get(m) && key.Owner() !in gone
    {
      assert key in s1.marks.Get(m) <==> key in s.marks.Get(m) && key.Owner() != s.todos[k].id;
      assert key in r.marks.Get(m) <==> key in s1.marks.Get(m) && key.Owner() !in DeletedIds(s1.todos, P);
    }
    assert SweptIds(s, gone, r);
  }

  /** Deleting strictly descending, in-range positions one after the other removes exactly the
      items at those positions of the original list, and the batch is saved. */
  lemma {:induction false} DeleteAllDescending(s: State, ks: seq<int>)
    requires StrictlyDescending(ks)
    requires forall k :: 0 <= k < |ks| ==> 0 <= ks[k] < |s.todos|
    ensures DeleteAll(s, ks).saved && RemovedAt(s, (set k | k in ks), DeleteAll(s, ks).state)
    decreases |ks|
  {
    if |ks| == 0 {
      assert (set k | k in ks) == {};
      RemovedAtNothing(s);
    } else {
      var k0 := ks[0];
      var rest := ks[1..];
      var s1 := DeleteItem(s, k0).value;
      var P := set k | k in rest;
      assert forall j :: 0 <= j < |rest| ==> rest[j] == ks[j + 1];
      DeleteAllDescending(s1, rest);
      RemovedAtStep(s, k0, P, DeleteAll(s1, rest).state);
      assert (set k | k in ks) == P + {k0} by {
        assert ks == [k0] + rest;
      }
    }
  }

  /** With only ranges and integers, the batch deletes the gathered positions largest first. */
  lemma RunBatchGathering(s: State, tokens: seq<string>)
    requires forall k :: 0 <= k < |tokens| ==> Gathering(ParseToken(tokens[k]))
    ensures RunBatch(s, tokens) == DeleteAll(s, SortDesc(Gathered(tokens)))
  {
    CollectGathering(s, tokens, []);
    assert [] + Gathered(tokens) == Gathered(tokens);
  }

  /** `:x` with integers and ranges naming distinct, existing positions deletes exactly those
      items, whatever order they are written in: sorting them largest first keeps the
      positions still to be deleted in place. */
  lemma BatchOfPositions(s: State, tokens: seq<string>)
    requires forall k :: 0 <= k < |tokens| ==> Gathering(ParseToken(tokens[k]))
    requires NoDuplicates(Gathered(tokens))
    requires forall k :: 0 <= k < |Gathered(tokens)| ==> 0 <= Gathered(tokens)[k] < |s.todos|
    ensures RunBatch(s, tokens).saved
    ensures RemovedAt(s, (set k | k in Gathered(tokens)), RunBatch(s, tokens).state)
  {
    RunBatchGathering(s, tokens);
    SortedDeletion(s, Gathered(tokens));
  }

  /** Distinct, existing positions deleted largest first are deleted exactly. */
  lemma SortedDeletion(s: State, g: seq<int>)
    requires NoDuplicates(g)
    requires forall k :: 0 <= k < |g| ==> 0 <= g[k] < |s.todos|
    ensures DeleteAll(s, SortDesc(g)).saved
    ensures RemovedAt(s, (set k | k in g), DeleteAll(s, SortDesc(g)).state)
  {
    var ks := SortDesc(g);
    SortDescStrict(g);
    SortDescSameValues(g);
    forall k | 0 <= k < |ks|
      ensures 0 <= ks[k] < |s.todos|
    {
      assert ks[k] in g;
    }
    assert (set k | k in ks) == (set k | k in g);
    DeleteAllDescending(s, ks);
  }

  /** A position past the end raises IndexError before anything is deleted: the largest
      position is deleted first. The command is then not saved. */
  lemma PositionPastEndDeletesNothing(s: State, tokens: seq<string>, k: nat)
    requires forall j :: 0 <= j < |tokens| ==> Gathering(ParseToken(tokens[j]))
    requires k < |Gathered(tokens)| && Gathered(tokens)[k] >= |s.todos|
    ensures RunBatch(s, tokens) == Ending(s, false)
  {
    var g := Gathered(tokens);
    RunBatchGathering(s, tokens);
    var ks := SortDesc(g);
    SortDescSameValues(g);
    assert g[k] in ks;
    var i :| 0 <= i < |ks| && ks[i] == g[k];
    assert ks[0] >= |s.todos| by {
      assert Descending(ks);
      assert ks[0] >= ks[i];
    }
    assert DeleteItem(s, ks[0]) == None;
  }

  /** A sub-item piece is acted on as soon as it is read: a malformed piece after it cancels
      the item deletions but not the sub-item deletion, and the state is saved with it. */
  lemma SubPieceSurvivesBadPiece(s: State, t1: string, t2: string)
    requires ParseToken(t1).SubTok? && ParseToken(t2).BadTok?
    requires PyIndex(|s.todos|, ParseToken(t1).parentIdx).Some?
    requires var i := PyIndex(|s.todos|, ParseToken(t1).parentIdx).value;
             DeleteSubItem(s, s.todos[i].id, ParseToken(t1).pos).Some?
    ensures var i := PyIndex(|s.todos|, ParseToken(t1).parentIdx).value;
            RunBatch(s, [t1, t2]) == Ending(DeleteSubItem(s, s.todos[i].id, ParseToken(t1).pos).value, true)
  {
    var tokens := [t1, t2];
    var i := PyIndex(|s.todos|, ParseToken(t1).parentIdx).value;
    var s' := DeleteSubItem(s, s.todos[i].id, ParseToken(t1).pos).value;
    assert tokens[1..] == [t2];
    assert CollectTokens(s', [t2], []) == Stopped(s', true);
    assert CollectTokens(s, tokens, []) == Stopped(s', true);
  }
}
