/** `strikethrough`, the text transformation the editors use to show a done entry: every
    character is followed by U+0336 COMBINING LONG STROKE OVERLAY. */
module Render {

  const Stroke: char := '\U{0336}'

  function Strikethrough(s: string): (r: string)
    ensures |r| == 2 * |s|
    ensures forall i :: 0 <= i < |s| ==> r[2 * i] == s[i] && r[2 * i + 1] == Stroke
  {
    if |s| == 0 then ""
    else [s[0], Stroke] + Strikethrough(s[1..])
  }

  /** The characters at even positions: what is left once the strokes are removed. */
  function Unstrike(r: string): (s: string)
    ensures |s| == (|r| + 1) / 2
  {
    if |r| == 0 then ""
    else if |r| == 1 then [r[0]]
    else [r[0]] + Unstrike(r[2..])
  }

  /** Removing the strokes gives back the text. */
  lemma {:induction false} UnstrikeStrikethrough(s: string)
    ensures Unstrike(Strikethrough(s)) == s
  {
    if |s| > 0 {
      var r := Strikethrough(s);
      assert r[2..] == Strikethrough(s[1..]);
      UnstrikeStrikethrough(s[1..]);
      assert s == [s[0]] + s[1..];
    }
  }

  /** Striking through a concatenation strikes through each part. */
  lemma {:induction false} StrikethroughAppend(a: string, b: string)
    ensures Strikethrough(a + b) == Strikethrough(a) + Strikethrough(b)
  {
    if |a| > 0 {
      assert (a + b)[1..] == a[1..] + b;
      StrikethroughAppend(a[1..], b);
    } else {
      assert a + b == b;
    }
  }

  /** Strikethrough is injective: different entries look different when done. */
  lemma StrikethroughInjective(a: string, b: string)
    ensures Strikethrough(a) == Strikethrough(b) ==> a == b
  {
    UnstrikeStrikethrough(a);
    UnstrikeStrikethrough(b);
  }
}
