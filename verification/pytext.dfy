/** The few Python `str` and `int` behaviours the editor's command handling relies on.
    Character classes are the ASCII subset of Python's: `isdigit`, `isalpha`, `isspace`
    and `lower` agree with Python on every ASCII character. */
module PyText {

  datatype Option<T> = None | Some(value: T)

  /** `c.isdigit()` on ASCII. */
  predicate IsDigit(c: char) {
    '0' <= c <= '9'
  }

  /** `c.isalpha()` on ASCII. */
  predicate IsAlpha(c: char) {
    'a' <= c <= 'z' || 'A' <= c <= 'Z'
  }

  /** `c.isspace()` on ASCII: space, tab, line feed, vertical tab, form feed, carriage return
      and the four information separators 0x1C..0x1F. */
  predicate IsSpace(c: char) {
    c == ' ' || ('\t' <= c <= '\r') || ('\U{1C}' <= c <= '\U{1F}')
  }

  /** `s.isdigit()`: true for a non-empty string of digits only. */
  predicate IsDigits(s: string) {
    |s| > 0 && forall i :: 0 <= i < |s| ==> IsDigit(s[i])
  }

  /** `s.startswith(prefix)` */
  predicate StartsWith(s: string, prefix: string) {
    |prefix| <= |s| && s[..|prefix|] == prefix
  }

  function DigitValue(c: char): (d: int)
    requires IsDigit(c)
    ensures 0 <= d < 10
  {
    c as int - '0' as int
  }

  function DigitChar(d: int): (c: char)
    requires 0 <= d < 10
    ensures IsDigit(c) && DigitValue(c) == d
  {
    ('0' as int + d) as char
  }

  /** Python's `xs[i]` on a sequence of length `n`: a non-negative `i` counts from the front,
      a negative one from the back, and anything else raises IndexError (None). */
  function PyIndex(n: nat, i: int): (r: Option<nat>)
    ensures r.Some? <==> -(n as int) <= i < n
    ensures r.Some? ==> r.value < n && (r.value == i || r.value == n + i)
  {
    if 0 <= i < n then Some(i) else if -(n as int) <= i < 0 then Some(n + i) else None
  }

  // ---------------------------------------------------------------- strip

  /** End of `s` once trailing whitespace is dropped. */
  function TrimEnd(s: string): (j: nat)
    ensures j <= |s|
    ensures forall k :: j <= k < |s| ==> IsSpace(s[k])
    ensures j == 0 || !IsSpace(s[j - 1])
  {
    if |s| == 0 || !IsSpace(s[|s| - 1]) then |s| else TrimEnd(s[..|s| - 1])
  }

  /** Start of `s` once leading whitespace is dropped. */
  function TrimStart(s: string): (i: nat)
    ensures i <= |s|
    ensures forall k :: 0 <= k < i ==> IsSpace(s[k])
    ensures i == |s| || !IsSpace(s[i])
  {
    if |s| == 0 || !IsSpace(s[0]) then 0 else 1 + TrimStart(s[1..])
  }

  /** `s.strip()`: the slice of `s` between its leading and its trailing whitespace. */
  function Strip(s: string): (r: string)
    ensures |r| <= |s|
    ensures r == [] || (!IsSpace(r[0]) && !IsSpace(r[|r| - 1]))
    ensures var j := TrimEnd(s); var i := TrimStart(s[..j]);
            r == s[i..j]
            && (forall k :: 0 <= k < i ==> IsSpace(s[k]))
            && (forall k :: j <= k < |s| ==> IsSpace(s[k]))
  {
    var t := s[..TrimEnd(s)];
    t[TrimStart(t)..]
  }

  /** A string that neither starts nor ends with whitespace is its own strip. */
  lemma StripUnpadded(s: string)
    requires s == [] || (!IsSpace(s[0]) && !IsSpace(s[|s| - 1]))
    ensures Strip(s) == s
  {
    assert TrimEnd(s) == |s|;
    assert s[..|s|] == s;
  }

  /** `strip` is idempotent. */
  lemma StripIdempotent(s: string)
    ensures Strip(Strip(s)) == Strip(s)
  {
    StripUnpadded(Strip(s));
  }

  /** A string whose strip is `t` starts either with whitespace or with `t` itself. */
  lemma StripStart(s: string)
    ensures var t := Strip(s); t == [] || IsSpace(s[0]) || StartsWith(s, t)
  {
    var t := Strip(s);
    var j := TrimEnd(s);
    var i := TrimStart(s[..j]);
    if t != [] && !IsSpace(s[0]) {
      assert i == 0;
      assert s[..|t|] == t;
    }
  }

  /** A line that strips to a command word `:c...` is not all digits, does not start with a
      digit, and starts with no other `:x...` prefix than one sharing the word's second
      character. */
  lemma StrippedCommand(line: string, word: string)
    requires Strip(line) == word && |word| >= 2 && word[0] == ':'
    ensures |line| > 0 && !IsDigits(line) && !IsDigit(line[0])
    ensures forall p :: |p| >= 2 && p[0] == ':' && StartsWith(line, p) ==> p[1] == word[1]
  {
    StripStart(line);
    forall p | |p| >= 2 && p[0] == ':' && StartsWith(line, p)
      ensures p[1] == word[1]
    {
      assert line[0] == p[0];
      assert line[..|word|] == word;
      assert line[1] == p[1];
    }
  }

  /** `s.lower()` on ASCII. */
  function LowerChar(c: char): (r: char)
    ensures 'A' <= c <= 'Z' ==> r as int == c as int + 32
    ensures !('A' <= c <= 'Z') ==> r == c
  {
    if 'A' <= c <= 'Z' then (c as int + 32) as char else c
  }

  function Lower(s: string): (r: string)
    ensures |r| == |s|
    ensures forall i :: 0 <= i < |s| ==> r[i] == LowerChar(s[i])
  {
    seq(|s|, i requires 0 <= i < |s| => LowerChar(s[i]))
  }

  // ---------------------------------------------------------------- split

  function IndexOf(s: string, c: char): (i: nat)
    requires c in s
    ensures i < |s| && s[i] == c && c !in s[..i]
  {
    if s[0] == c then 0 else 1 + IndexOf(s[1..], c)
  }

  /** `s.split(sep)` for a one-character separator. */
  function Split(s: string, sep: char): (r: seq<string>)
    ensures |r| > 0
    ensures forall k :: 0 <= k < |r| ==> sep !in r[k]
    decreases |s|
  {
    if sep !in s then [s]
    else
      var i := IndexOf(s, sep);
      [s[..i]] + Split(s[i + 1..], sep)
  }

  /** `sep.join(parts)` */
  function Join(parts: seq<string>, sep: char): string
    requires |parts| > 0
  {
    if |parts| == 1 then parts[0] else parts[0] + [sep] + Join(parts[1..], sep)
  }

  /** Splitting loses nothing: joining the pieces with the separator gives back the string. */
  lemma {:induction false} SplitJoin(s: string, sep: char)
    ensures Join(Split(s, sep), sep) == s
    decreases |s|
  {
    if sep in s {
      var i := IndexOf(s, sep);
      SplitJoin(s[i + 1..], sep);
      assert Split(s, sep)[1..] == Split(s[i + 1..], sep);
      assert s == s[..i] + [sep] + s[i + 1..];
    }
  }

  /** The first separator of `x + [sep] + y` is the one after `x` when `x` has none. */
  lemma {:induction false} FirstSeparator(x: string, y: string, sep: char)
    requires sep !in x
    ensures sep in x + [sep] + y && IndexOf(x + [sep] + y, sep) == |x|
  {
    var w := x + [sep] + y;
    assert w[|x|] == sep;
    if x != [] {
      assert w[1..] == x[1..] + [sep] + y;
      FirstSeparator(x[1..], y, sep);
    }
  }

  /** Two pieces without the separator split back apart. */
  lemma SplitTwo(x: string, y: string, sep: char)
    requires sep !in x && sep !in y
    ensures Split(x + [sep] + y, sep) == [x, y]
  {
    var s := x + [sep] + y;
    FirstSeparator(x, y, sep);
    assert s[..|x|] == x;
    assert s[|x| + 1..] == y;
  }

  /** `s.split(sep, 1)`: at most one split, at the first separator. */
  function SplitOnce(s: string, sep: char): (r: seq<string>)
    ensures |r| == 1 || |r| == 2
    ensures |r| == 1 <==> sep !in s
    ensures |r| == 2 ==> sep !in r[0] && r[0] + [sep] + r[1] == s
  {
    if sep !in s then [s]
    else
      var i := IndexOf(s, sep);
      assert s == s[..i] + [sep] + s[i + 1..];
      [s[..i], s[i + 1..]]
  }

  // ---------------------------------------------------------------- int() and str()

  predicate IsDigitOrUnderscore(c: char) {
    IsDigit(c) || c == '_'
  }

  /** The unsigned part `int()` accepts: digits, with single underscores only between digits. */
  predicate IsLiteral(u: string) {
    && |u| > 0
    && IsDigit(u[0])
    && IsDigit(u[|u| - 1])
    && (forall i :: 0 <= i < |u| ==> IsDigitOrUnderscore(u[i]))
    && (forall i :: 0 <= i < |u| - 1 ==> !(u[i] == '_' && u[i + 1] == '_'))
  }

  /** Decimal value of the digits of `u`, underscores skipped. */
  function LiteralValue(u: string): (v: int)
    requires forall i :: 0 <= i < |u| ==> IsDigitOrUnderscore(u[i])
    ensures v >= 0
  {
    if |u| == 0 then 0
    else
      var init := u[..|u| - 1];
      assert IsDigitOrUnderscore(u[|u| - 1]);
      if u[|u| - 1] == '_' then LiteralValue(init)
      else 10 * LiteralValue(init) + DigitValue(u[|u| - 1])
  }

  /** The whitespace `int()` skips around its digits on ASCII: space and `'\t'` .. `'\r'`.
      Unlike `strip()` it does not skip the separators 0x1C .. 0x1F. */
  predicate IsIntSpace(c: char) {
    c == ' ' || ('\t' <= c <= '\r')
  }

  /** `s` without the `int()` whitespace at either end. */
  function IntStrip(s: string): (r: string)
    ensures |r| <= |s|
    ensures r == [] || (!IsIntSpace(r[0]) && !IsIntSpace(r[|r| - 1]))
    ensures (s == [] || (!IsIntSpace(s[0]) && !IsIntSpace(s[|s| - 1]))) ==> r == s
    decreases |s|
  {
    if |s| > 0 && IsIntSpace(s[0]) then IntStrip(s[1..])
    else if |s| > 0 && IsIntSpace(s[|s| - 1]) then IntStrip(s[..|s| - 1])
    else s
  }

  /** `int(s)` for a string argument: surrounding `int()` whitespace is ignored, one optional
      sign, then a literal; None stands for the ValueError raised on anything else. */
  function ParseInt(s: string): (r: Option<int>)
    ensures r.Some? ==> var t := IntStrip(s); |t| > 0 && IsDigit(t[|t| - 1])
    ensures r.Some? && r.value < 0 ==> IntStrip(s)[0] == '-'
  {
    var t := IntStrip(s);
    if |t| > 0 && (t[0] == '+' || t[0] == '-') then
      var u := t[1..];
      if IsLiteral(u) then Some(if t[0] == '-' then -LiteralValue(u) else LiteralValue(u)) else None
    else if IsLiteral(t) then Some(LiteralValue(t))
    else None
  }

  /** One character before a decimal number is ignored by `int()` exactly when it is `int()`
      whitespace; any other character that is not a digit or a sign makes it raise. */
  lemma PaddedDecimal(c: char, n: int)
    requires !IsDigit(c) && c != '+' && c != '-'
    ensures ParseInt([c] + Decimal(n)) == if IsIntSpace(c) then Some(n) else None
  {
    var d := Decimal(n);
    var s := [c] + d;
    assert s[1..] == d;
    assert s[|s| - 1] == d[|d| - 1];
    ParseDecimal(n);
  }

  /** `str(n)` for a natural number. */
  function NatDecimal(n: nat): (r: string)
    ensures |r| > 0 && forall i :: 0 <= i < |r| ==> IsDigit(r[i])
  {
    if n < 10 then [DigitChar(n)] else NatDecimal(n / 10) + [DigitChar(n % 10)]
  }

  /** `str(n)`: an optional minus sign and the digits; never an underscore. */
  function Decimal(n: int): (r: string)
    ensures |r| > 0 && '_' !in r
    ensures IsDigit(r[|r| - 1])
  {
    if n < 0 then "-" + NatDecimal(-n) else NatDecimal(n)
  }

  lemma {:induction false} NatDecimalValue(n: nat)
    ensures LiteralValue(NatDecimal(n)) == n
  {
    if n >= 10 {
      var p := NatDecimal(n / 10);
      var r := NatDecimal(n);
      assert r[..|r| - 1] == p;
      NatDecimalValue(n / 10);
    }
  }

  /** `int(str(n)) == n`: parsing undoes printing. */
  lemma ParseDecimal(n: int)
    ensures ParseInt(Decimal(n)) == Some(n)
  {
    var d := Decimal(n);
    assert d[0] == '-' || IsDigit(d[0]);
    assert IntStrip(d) == d;
    if n < 0 {
      assert d[1..] == NatDecimal(-n);
      NatDecimalValue(-n);
      assert IsLiteral(d[1..]);
    } else {
      NatDecimalValue(n);
      assert IsLiteral(d);
    }
  }

  /** `str` is injective on integers. */
  lemma DecimalInjective(a: int, b: int)
    ensures Decimal(a) == Decimal(b) ==> a == b
  {
    ParseDecimal(a);
    ParseDecimal(b);
  }

  /** A string `isdigit()` accepts always converts with `int()`, to a non-negative value. */
  lemma ParseDigits(s: string)
    requires IsDigits(s)
    ensures ParseInt(s) == Some(LiteralValue(s))
  {
  }
}
