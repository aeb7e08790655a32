/** Mark keys. The editor keeps its four mark sets as sets of strings: `"K"` marks the item
    with id K and `"K_j"` marks position j of K's sub-item list. The model uses the datatype
    `Key` instead; this module proves the two views agree: the encoding is injective, and the
    string test the item deletion uses to sweep a set picks exactly the keys the item owns. */
module MarkKeys {
  import opened PyText

  datatype Key = ItemKey(id: int) | SubKey(parent: int, pos: int) {
    /** Id of the top-level item a key belongs to. */
    function Owner(): int {
      match this
      case ItemKey(id) => id
      case SubKey(p, _) => p
    }
  }

  /** The f-string the editor stores: `f"{id}"` or `f"{parent}_{pos}"`. */
  function Encode(k: Key): (s: string)
    ensures |s| > 0
  {
    match k
    case ItemKey(id) => Decimal(id)
    case SubKey(p, j) => Decimal(p) + "_" + Decimal(j)
  }

  /** The test of the item deletion's comprehension, for item id `id`: a stored key is dropped
      when it equals `f"{id}"` or starts with `f"{id}_"`. */
  predicate SweptBy(s: string, id: int) {
    s == Decimal(id) || StartsWith(s, Decimal(id) + "_")
  }

  /** Two strings each cut at their first underscore agree on both halves. */
  lemma CutAtUnderscore(x: string, y: string, x': string, y': string)
    requires '_' !in x && '_' !in x'
    requires x + "_" + y == x' + "_" + y'
    ensures x == x' && y == y'
  {
    var w := x + "_" + y;
    FirstSeparator(x, y, '_');
    FirstSeparator(x', y', '_');
    assert x == w[..|x|];
    assert y == w[|x| + 1..];
  }

  /** Only sub-item keys contain an underscore. */
  lemma EncodeUnderscore(k: Key)
    ensures '_' in Encode(k) <==> k.SubKey?
  {
    if k.SubKey? {
      assert Encode(k)[|Decimal(k.parent)|] == '_';
    }
  }

  /** Distinct keys are stored as distinct strings, so a set of keys and the set of their
      encodings have the same membership. */
  lemma EncodeInjective(a: Key, b: Key)
    ensures Encode(a) == Encode(b) <==> a == b
  {
    EncodeUnderscore(a);
    EncodeUnderscore(b);
    if Encode(a) == Encode(b) {
      if a.ItemKey? && b.ItemKey? {
        DecimalInjective(a.id, b.id);
      } else if a.SubKey? && b.SubKey? {
        CutAtUnderscore(Decimal(a.parent), Decimal(a.pos), Decimal(b.parent), Decimal(b.pos));
        DecimalInjective(a.parent, b.parent);
        DecimalInjective(a.pos, b.pos);
      }
    }
  }

  /** A string without underscores starts with no `d + "_"`. */
  lemma NoUnderscorePrefix(s: string, d: string)
    requires '_' !in s
    ensures !StartsWith(s, d + "_")
  {
    if |d| + 1 <= |s| {
      assert s[..|d| + 1][|d|] != '_';
    }
  }

  /** The string sweep of the item deletion removes a key exactly when the deleted item owns it:
      the key `f"{id}"` and every `f"{id}_{j}"`, and nothing else. This holds because a decimal
      integer never contains an underscore. */
  lemma SweepMatchesOwner(k: Key, id: int)
    ensures SweptBy(Encode(k), id) <==> k.Owner() == id
  {
    var d := Decimal(id);
    EncodeUnderscore(k);
    match k
    case ItemKey(i) =>
      DecimalInjective(i, id);
      NoUnderscorePrefix(Decimal(i), d);
    case SubKey(p, j) =>
      var s := Encode(k);
      if StartsWith(s, d + "_") {
        var rest := s[|d| + 1..];
        assert s == d + "_" + rest;
        CutAtUnderscore(Decimal(p), Decimal(j), d, rest);
        DecimalInjective(p, id);
      }
      if p == id {
        assert s[..|d| + 1] == d + "_";
      }
  }
}
