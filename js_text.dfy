/**
 * The JavaScript built-ins the core relies on (`trim`, `split`, `join`,
 * `includes`, `toLowerCase`, `toUpperCase`, `repeat`, `parseInt` and the
 * rendering of a number inside a template literal), stated on `seq<char>`.
 */
module JsText {
  import opened Wrappers

  // ---------------------------------------------------------------------------
  // Whitespace and trim
  // ---------------------------------------------------------------------------

  /** The code points that `String.prototype.trim` removes: WhiteSpace and LineTerminator. */
  predicate IsSpace(c: char) {
    var k := c as int;
    k == 0x09 || k == 0x0A || k == 0x0B || k == 0x0C || k == 0x0D || k == 0x20 ||
    k == 0xA0 || k == 0x1680 || (0x2000 <= k <= 0x200A) || k == 0x2028 || k == 0x2029 ||
    k == 0x202F || k == 0x205F || k == 0x3000 || k == 0xFEFF
  }

  /** A string made of whitespace only; the empty string is blank. */
  predicate IsBlank(s: string) {
    forall i :: 0 <= i < |s| ==> IsSpace(s[i])
  }

  /** `trimStart`: drops the leading whitespace and nothing else. */
  function TrimStart(s: string): (r: string)
    ensures |r| <= |s| && r == s[|s| - |r|..]
    ensures IsBlank(s[..|s| - |r|])
    ensures r == [] || !IsSpace(r[0])
    decreases |s|
  {
    if s != [] && IsSpace(s[0]) then
      var r := TrimStart(s[1..]);
      assert forall i :: 1 <= i < |s| - |r| ==> s[i] == s[1..][..|s| - 1 - |r|][i - 1];
      r
    else s
  }

  /** `trimEnd`: drops the trailing whitespace and nothing else. */
  function TrimEnd(s: string): (r: string)
    ensures |r| <= |s| && r == s[..|r|]
    ensures IsBlank(s[|r|..])
    ensures r == [] || !IsSpace(r[|r| - 1])
    decreases |s|
  {
    if s != [] && IsSpace(s[|s| - 1]) then
      var r := TrimEnd(s[..|s| - 1]);
      assert forall i :: |r| <= i < |s| - 1 ==> s[i] == s[..|s| - 1][|r|..][i - |r|];
      r
    else s
  }

  /** `s` is `r` with a blank prefix and a blank suffix around it. */
  ghost predicate TrimmedFrom(s: string, r: string) {
    exists k :: 0 <= k && k + |r| <= |s| && IsBlank(s[..k]) && s[k..k + |r|] == r && IsBlank(s[k + |r|..])
  }

  function Trim(s: string): string { TrimEnd(TrimStart(s)) }

  /**
   * `trim` yields the empty string exactly for a blank string; otherwise its
   * result starts and ends with a non-space and is cut from the middle of `s`
   * between a blank prefix and a blank suffix.
   */
  lemma TrimSpec(s: string)
    ensures Trim(s) == [] <==> IsBlank(s)
    ensures Trim(s) != [] ==> !IsSpace(Trim(s)[0]) && !IsSpace(Trim(s)[|Trim(s)| - 1])
    ensures TrimmedFrom(s, Trim(s))
  {
    TrimOfBlank(s);
    TrimEndsNonSpace(s);
    TrimCutsBlanks(s);
  }

  lemma TrimEndsNonSpace(s: string)
    ensures Trim(s) != [] ==> !IsSpace(Trim(s)[0]) && !IsSpace(Trim(s)[|Trim(s)| - 1])
  {
    var t := TrimStart(s);
    var r := TrimEnd(t);
    if r != [] {
      assert r[0] == t[0];
    }
  }

  lemma TrimOfBlank(s: string)
    ensures Trim(s) == [] <==> IsBlank(s)
  {
    var t := TrimStart(s);
    if Trim(s) == [] {
      assert t[0..] == t;
    }
  }

  lemma TrimCutsBlanks(s: string)
    ensures TrimmedFrom(s, Trim(s))
  {
    var t := TrimStart(s);
    CutBetween(s, t, TrimEnd(t));
  }

  /** Cutting a blank prefix off `s` and then a blank suffix off the rest leaves a piece trimmed from `s`. */
  lemma CutBetween(s: string, t: string, r: string)
    requires |t| <= |s| && t == s[|s| - |t|..] && IsBlank(s[..|s| - |t|])
    requires |r| <= |t| && r == t[..|r|] && IsBlank(t[|r|..])
    ensures TrimmedFrom(s, r)
  {
    var k := |s| - |t|;
    assert s[k..k + |r|] == r;
    assert s[k + |r|..] == t[|r|..];
  }

  /** `trimStart` drops exactly a blank prefix in front of a piece that starts with a non-space. */
  lemma {:induction false} TrimStartOfPadded(p: string, s: string)
    requires IsBlank(p)
    requires s == [] || !IsSpace(s[0])
    ensures TrimStart(p + s) == s
    decreases |p|
  {
    if p != [] {
      assert (p + s)[1..] == p[1..] + s;
      TrimStartOfPadded(p[1..], s);
    } else {
      assert p + s == s;
    }
  }

  /** `trimEnd` drops exactly a blank suffix behind a piece that ends with a non-space. */
  lemma {:induction false} TrimEndOfPadded(s: string, q: string)
    requires IsBlank(q)
    requires s == [] || !IsSpace(s[|s| - 1])
    ensures TrimEnd(s + q) == s
    decreases |q|
  {
    if q != [] {
      assert (s + q)[..|s + q| - 1] == s + q[..|q| - 1];
      TrimEndOfPadded(s, q[..|q| - 1]);
    } else {
      assert s + q == s;
    }
  }

  /** `trim` gives back a piece that starts and ends with a non-space from between blank padding. */
  lemma TrimOfPadded(p: string, s: string, q: string)
    requires IsBlank(p) && IsBlank(q)
    requires s != [] && !IsSpace(s[0]) && !IsSpace(s[|s| - 1])
    ensures Trim(p + s + q) == s
  {
    assert p + s + q == p + (s + q);
    TrimStartOfPadded(p, s + q);
    TrimEndOfPadded(s, q);
  }

  // ---------------------------------------------------------------------------
  // split and join
  // ---------------------------------------------------------------------------

  /** `s.split(sep)` for a one-character separator; never empty (`"".split(sep)` is `[""]`). */
  function Split(s: string, sep: char): (parts: seq<string>)
    ensures |parts| >= 1
    ensures forall k :: 0 <= k < |parts| ==> sep !in parts[k]
    decreases |s|
  {
    if s == [] then [[]]
    else
      var rest := Split(s[1..], sep);
      if s[0] == sep then [[]] + rest
      else [[s[0]] + rest[0]] + rest[1..]
  }

  /** `parts.join(sep)` for a one-character separator. */
  function Join(parts: seq<string>, sep: char): string
    decreases |parts|
  {
    if |parts| == 0 then []
    else if |parts| == 1 then parts[0]
    else parts[0] + [sep] + Join(parts[1..], sep)
  }

  /** A join of two or more pieces starts like its first piece and ends like its last, or with the separator for an empty one. */
  lemma {:induction false} JoinEnds(parts: seq<string>, sep: char)
    requires |parts| >= 2
    ensures var j := Join(parts, sep);
      var last := parts[|parts| - 1];
      && j != []
      && j[0] == (if parts[0] == [] then sep else parts[0][0])
      && j[|j| - 1] == (if last == [] then sep else last[|last| - 1])
    decreases |parts|
  {
    if |parts| > 2 {
      JoinEnds(parts[1..], sep);
    }
  }

  /** Joining two non-empty lists of pieces one after the other puts one separator between the two joins. */
  lemma {:induction false} JoinAppend(p1: seq<string>, p2: seq<string>, sep: char)
    requires |p1| >= 1 && |p2| >= 1
    ensures Join(p1 + p2, sep) == Join(p1, sep) + [sep] + Join(p2, sep)
    decreases |p1|
  {
    assert (p1 + p2)[1..] == p1[1..] + p2;
    if |p1| > 1 {
      JoinAppend(p1[1..], p2, sep);
    }
  }

  /** A piece that holds the separator joins like the two pieces on either side of it. */
  lemma JoinOfPieceWithSeparator(first: string, a: string, b: string, rest: seq<string>, sep: char)
    requires |rest| >= 1
    ensures Join([first, a + [sep] + b] + rest, sep) == Join([first, a, b] + rest, sep)
  {
    var piece := a + [sep] + b;
    JoinAppend([first, piece], rest, sep);
    JoinAppend([first, a, b], rest, sep);
    assert Join([first, piece], sep) == first + [sep] + piece by {
      assert [first, piece][1..] == [piece];
    }
    assert Join([first, a, b], sep) == first + [sep] + piece by {
      assert [first, a, b][1..] == [a, b];
      assert [a, b][1..] == [b];
      assert Join([b], sep) == b;
      assert Join([a, b], sep) == piece;
    }
  }

  /** Joining the pieces of a split gives back the original string. */
  lemma {:induction false} JoinOfSplit(s: string, sep: char)
    ensures Join(Split(s, sep), sep) == s
    decreases |s|
  {
    if s != [] {
      JoinOfSplit(s[1..], sep);
      var rest := Split(s[1..], sep);
      if s[0] == sep {
        assert [[]] + rest == [[]] + rest[0..];
        assert s == [] + [sep] + Join(rest, sep);
      } else {
        var parts := [[s[0]] + rest[0]] + rest[1..];
        if |rest| == 1 {
          assert s == [s[0]] + s[1..];
        } else {
          assert parts[1..] == rest[1..];
          assert Join(rest, sep) == rest[0] + [sep] + Join(rest[1..], sep);
          assert s == [s[0]] + s[1..];
        }
      }
    }
  }

  /** A string without the separator splits into itself alone. */
  lemma {:induction false} SplitWithoutSeparator(s: string, sep: char)
    requires sep !in s
    ensures Split(s, sep) == [s]
    decreases |s|
  {
    if s != [] {
      SplitWithoutSeparator(s[1..], sep);
      assert s == [s[0]] + s[1..];
    }
  }

  /** Splitting distributes over a separator occurrence. */
  lemma {:induction false} SplitAtSeparator(a: string, b: string, sep: char)
    ensures Split(a + [sep] + b, sep) == Split(a, sep) + Split(b, sep)
    decreases |a|
  {
    var s := a + [sep] + b;
    if a == [] {
      assert s[1..] == b;
    } else {
      assert s[1..] == a[1..] + [sep] + b;
      SplitAtSeparator(a[1..], b, sep);
    }
  }

  /** Splitting a join of separator-free pieces gives back the pieces. */
  lemma {:induction false} SplitOfJoin(parts: seq<string>, sep: char)
    requires |parts| >= 1
    requires forall k :: 0 <= k < |parts| ==> sep !in parts[k]
    ensures Split(Join(parts, sep), sep) == parts
    decreases |parts|
  {
    var head := parts[0];
    assert sep !in head;
    SplitWithoutSeparator(head, sep);
    if |parts| > 1 {
      var tail := parts[1..];
      assert forall k :: 0 <= k < |tail| ==> tail[k] == parts[k + 1];
      SplitOfJoin(tail, sep);
      assert Join(parts, sep) == head + [sep] + Join(tail, sep);
      SplitAtSeparator(head, Join(tail, sep), sep);
      assert parts == [head] + tail;
    }
  }

  // ---------------------------------------------------------------------------
  // Case mapping, repeat, includes
  // ---------------------------------------------------------------------------

  function LowerChar(c: char): char {
    if 'A' <= c <= 'Z' then (c as int + 32) as char else c
  }

  function UpperChar(c: char): char {
    if 'a' <= c <= 'z' then (c as int - 32) as char else c
  }

  /** `toLowerCase`, on the ASCII letters. */
  function ToLower(s: string): (r: string)
    ensures |r| == |s| && forall i :: 0 <= i < |s| ==> r[i] == LowerChar(s[i])
  {
    seq(|s|, i requires 0 <= i < |s| => LowerChar(s[i]))
  }

  /** `toUpperCase`, on the ASCII letters. */
  function ToUpper(s: string): (r: string)
    ensures |r| == |s| && forall i :: 0 <= i < |s| ==> r[i] == UpperChar(s[i])
  {
    seq(|s|, i requires 0 <= i < |s| => UpperChar(s[i]))
  }

  /** `c.repeat(n)` for a one-character string `c`. */
  function Repeat(c: char, n: nat): (r: string)
    ensures |r| == n && forall i :: 0 <= i < n ==> r[i] == c
  {
    seq(n, _ => c)
  }

  /** `needle` stands in `hay` at position `i`. */
  predicate OccursAt(hay: string, needle: string, i: int) {
    0 <= i && i + |needle| <= |hay| && hay[i..i + |needle|] == needle
  }

  /** `hay.includes(needle)`, by trying each position from the left. */
  function Includes(hay: string, needle: string): bool
    decreases |hay|
  {
    if |needle| > |hay| then false
    else if hay[..|needle|] == needle then true
    else Includes(hay[1..], needle)
  }

  /** `Includes` holds exactly when the needle occurs at some position. */
  lemma {:induction false} IncludesIffOccurs(hay: string, needle: string)
    ensures Includes(hay, needle) <==> exists i :: OccursAt(hay, needle, i)
    decreases |hay|
  {
    if |needle| > |hay| {
    } else if hay[..|needle|] == needle {
      assert OccursAt(hay, needle, 0);
    } else {
      IncludesIffOccurs(hay[1..], needle);
      if exists i :: OccursAt(hay, needle, i) {
        var i :| OccursAt(hay, needle, i);
        assert i != 0;
        assert hay[1..][i - 1..i - 1 + |needle|] == hay[i..i + |needle|];
        assert OccursAt(hay[1..], needle, i - 1);
      }
      if exists i :: OccursAt(hay[1..], needle, i) {
        var i :| OccursAt(hay[1..], needle, i);
        assert hay[1..][i..i + |needle|] == hay[i + 1..i + 1 + |needle|];
        assert OccursAt(hay, needle, i + 1);
      }
    }
  }

  // ---------------------------------------------------------------------------
  // Numbers: template-literal rendering and parseInt
  // ---------------------------------------------------------------------------

  /** A JavaScript number as `parseInt` can produce it: an integer or `NaN`. */
  datatype Number = Num(value: int) | NaN

  predicate IsDigit(c: char) {
    '0' <= c <= '9'
  }

  predicate AllDigits(s: string) {
    forall i :: 0 <= i < |s| ==> IsDigit(s[i])
  }

  function DigitChar(d: nat): char
    requires d < 10
  {
    ('0' as int + d) as char
  }

  /** Decimal rendering of a natural number (no leading zeros). */
  function NatToString(n: nat): (s: string)
    ensures |s| >= 1 && AllDigits(s)
    decreases n
  {
    if n < 10 then [DigitChar(n)] else NatToString(n / 10) + [DigitChar(n % 10)]
  }

  /** `${i}` for an integer `i`. */
  function IntToString(i: int): (s: string)
    ensures s != [] && (s[0] == '-' <==> i < 0)
    ensures AllDigits(if i < 0 then s[1..] else s)
  {
    if i < 0 then "-" + NatToString(-i) else NatToString(i)
  }

  /** `${n}` for a number produced by `parseInt`. */
  function NumberText(n: Number): string {
    match n
    case Num(i) => IntToString(i)
    case NaN => "NaN"
  }

  /** The value of a string of decimal digits, most significant first. */
  function DigitsValue(s: string): nat
    requires AllDigits(s)
    decreases |s|
  {
    if s == [] then 0 else DigitsValue(s[..|s| - 1]) * 10 + (s[|s| - 1] as int - '0' as int)
  }

  /** The longest prefix of `s` made of decimal digits. */
  function DigitRun(s: string): (p: string)
    ensures |p| <= |s| && p == s[..|p|] && AllDigits(p)
    ensures |p| < |s| ==> !IsDigit(s[|p|])
    decreases |s|
  {
    if s != [] && IsDigit(s[0]) then [s[0]] + DigitRun(s[1..]) else []
  }

  /**
   * `parseInt(field)` in base ten: leading whitespace, an optional sign, then
   * the longest run of digits; `NaN` when there is no digit or the field is
   * `undefined`.
   */
  function ParseInt(field: Option<string>): Number {
    match field
    case None => NaN
    case Some(raw) => ParseSigned(TrimStart(raw))
  }

  /** The sign step of `parseInt`, on a string without leading whitespace. */
  function ParseSigned(s: string): Number {
    if s != [] && s[0] == '-' then Negate(ParseDigits(s[1..]))
    else if s != [] && s[0] == '+' then ParseDigits(s[1..])
    else ParseDigits(s)
  }

  /** The digit step of `parseInt`: the value of the leading digits, or `NaN`. */
  function ParseDigits(s: string): Number {
    var d := DigitRun(s);
    if d == [] then NaN else Num(DigitsValue(d))
  }

  function Negate(n: Number): Number {
    match n
    case Num(v) => Num(-v)
    case NaN => NaN
  }

  /** Reading back the decimal rendering of a natural number gives the number. */
  lemma {:induction false} DigitsValueOfNat(n: nat)
    ensures DigitsValue(NatToString(n)) == n
    decreases n
  {
    if n >= 10 {
      DigitsValueOfNat(n / 10);
      var s := NatToString(n);
      assert s[..|s| - 1] == NatToString(n / 10);
    }
  }

  /** A digit string is its own digit run. */
  lemma {:induction false} DigitRunOfDigits(s: string)
    requires AllDigits(s)
    ensures DigitRun(s) == s
    decreases |s|
  {
    if s != [] {
      DigitRunOfDigits(s[1..]);
      assert s == [s[0]] + s[1..];
    }
  }

  /** The digit step of `parseInt` reads back the decimal rendering of a natural number. */
  lemma ParseDigitsOfNat(n: nat)
    ensures ParseDigits(NatToString(n)) == Num(n)
  {
    DigitRunOfDigits(NatToString(n));
    DigitsValueOfNat(n);
  }

  /** `parseInt` reads back what a template literal wrote for any integer. */
  lemma ParseIntOfIntToString(i: int)
    ensures ParseInt(Some(IntToString(i))) == Num(i)
  {
    var s := IntToString(i);
    NoSpaceAtStart(s);
    if i < 0 {
      var n: nat := -i;
      var d := NatToString(n);
      assert s[1..] == d;
      ParseDigitsOfNat(n);
      assert ParseSigned(s) == Negate(ParseDigits(d));
    } else {
      ParseDigitsOfNat(i);
      assert ParseSigned(s) == ParseDigits(s);
    }
  }

  lemma NoSpaceAtStart(s: string)
    requires s != [] && (s[0] == '-' || IsDigit(s[0]))
    ensures TrimStart(s) == s
  {
    assert !IsSpace(s[0]);
  }

  /** The rendering of an integer never contains a character other than a digit or a minus sign. */
  lemma IntToStringHasNo(i: int, c: char)
    requires !IsDigit(c) && c != '-'
    ensures c !in IntToString(i)
  {
  }

  // ---------------------------------------------------------------------------
  // Truthiness of optional strings and numbers
  // ---------------------------------------------------------------------------

  /** A JavaScript string value that is neither `undefined` nor empty. */
  predicate Truthy(s: Option<string>) {
    s.Some? && s.value != ""
  }
}
