/** Facilities of the bipsi runtime that the plugins rely on: its layout
    constants, an Option type for JavaScript's `undefined`, a Result type
    for operations that throw, and the few
    string operations of JavaScript's standard library that the plugins use
    (`split`, `trim`, decimal `toString`, `parseInt`). */
module Host {

  /** Width and height of one tile, in pixels. */
  const TILE_PX: nat := 8
  /** Width and height of one room, in tiles. */
  const ROOM_SIZE: nat := 16
  /** Width and height of one room, in pixels. */
  const ROOM_PX: nat := 128

  /** A value that may be missing (`undefined` or `null` in the source). */
  datatype Option<+T> = None | Some(value: T)

  /** The outcome of an operation that may throw. */
  datatype Result<+T> = Ok(value: T) | Err(message: string)

  /** A tile of the game (an entry of `data.tiles`): its id and the indices
      of its animation frames in the tileset image. */
  datatype Tile = Tile(id: int, frames: seq<nat>)

  // ---------------------------------------------------------------------
  // String.prototype.split with a one-character separator

  /** Number of occurrences of `c` in `s`. */
  function Count(s: string, c: char): nat
  {
    if s == [] then 0 else Count(s[..|s| - 1], c) + (if s[|s| - 1] == c then 1 else 0)
  }

  /** Index of the first `c` in `s`, or `|s|` when there is none. */
  function FirstIndex(s: string, c: char): (i: nat)
    ensures i <= |s|
    ensures i < |s| ==> s[i] == c
    ensures forall j :: 0 <= j < i ==> s[j] != c
  {
    if s == [] then 0 else if s[0] == c then 0 else 1 + FirstIndex(s[1..], c)
  }

  /** `s.split(sep)`: the pieces between separators, in order; always at
      least one piece. */
  function Split(s: string, sep: char): (pieces: seq<string>)
    ensures |pieces| >= 1
    ensures forall k :: 0 <= k < |pieces| ==> sep !in pieces[k]
    decreases |s|
  {
    var i := FirstIndex(s, sep);
    if i == |s| then [s] else [s[..i]] + Split(s[i + 1..], sep)
  }

  /** `pieces.join(sep)`. */
  function Join(pieces: seq<string>, sep: char): string
  {
    if |pieces| == 0 then [] else if |pieces| == 1 then pieces[0]
    else pieces[0] + [sep] + Join(pieces[1..], sep)
  }

  /** Joining the pieces of a split gives back the original text. */
  lemma {:induction false} JoinSplit(s: string, sep: char)
    ensures Join(Split(s, sep), sep) == s
    decreases |s|
  {
    var i := FirstIndex(s, sep);
    if i < |s| {
      var rest := Split(s[i + 1..], sep);
      assert Split(s, sep) == [s[..i]] + rest;
      JoinSplit(s[i + 1..], sep);
      JoinCons(s[..i], rest, sep);
      assert s == s[..i] + [sep] + s[i + 1..];
    }
  }

  lemma JoinCons(h: string, rest: seq<string>, sep: char)
    requires |rest| >= 1
    ensures Join([h] + rest, sep) == h + [sep] + Join(rest, sep)
  {
    assert ([h] + rest)[1..] == rest;
  }

  /** Splitting yields one more piece than there are separators. */
  lemma {:induction false} SplitCount(s: string, sep: char)
    ensures |Split(s, sep)| == Count(s, sep) + 1
    decreases |s|
  {
    var i := FirstIndex(s, sep);
    if i < |s| {
      SplitCount(s[i + 1..], sep);
      CountConcat(s[..i], [sep] + s[i + 1..], sep);
      CountConcat([sep], s[i + 1..], sep);
      assert s == s[..i] + ([sep] + s[i + 1..]);
      CountAbsent(s[..i], sep);
    } else {
      CountAbsent(s, sep);
    }
  }

  /** The first separator of `a + [sep] + b` is the one after `a` when `a`
      has none. */
  lemma FirstIndexAfter(a: string, b: string, sep: char)
    requires sep !in a
    ensures FirstIndex(a + [sep] + b, sep) == |a|
  {
    var s := a + [sep] + b;
    assert s[|a|] == sep;
    assert forall j :: 0 <= j < |a| ==> s[j] == a[j];
  }

  /** A separator inside `a` is found before anything appended. */
  lemma FirstIndexPrefix(a: string, b: string, sep: char)
    requires FirstIndex(a, sep) < |a|
    ensures FirstIndex(a + b, sep) == FirstIndex(a, sep)
  {
    var s := a + b;
    var i := FirstIndex(a, sep);
    assert s[i] == sep;
    assert forall j :: 0 <= j < |a| ==> s[j] == a[j];
  }

  /** Splitting at a separator splits the two sides separately. */
  lemma {:induction false} SplitAppend(a: string, b: string, sep: char)
    ensures Split(a + [sep] + b, sep) == Split(a, sep) + Split(b, sep)
    decreases |a|
  {
    var i := FirstIndex(a, sep);
    if i == |a| {
      SplitFirstPiece(a, b, sep);
    } else {
      var a' := a[i + 1..];
      SplitInnerPiece(a, b, sep, i);
      SplitAppend(a', b, sep);
      PiecesAssoc(a[..i], Split(a', sep), Split(b, sep));
    }
  }

  lemma PiecesAssoc(x: string, p: seq<string>, q: seq<string>)
    ensures [x] + (p + q) == ([x] + p) + q
  {
  }

  /** When `a` has no separator it is the first piece of `a + [sep] + b`. */
  lemma SplitFirstPiece(a: string, b: string, sep: char)
    requires FirstIndex(a, sep) == |a|
    ensures Split(a, sep) == [a]
    ensures Split(a + [sep] + b, sep) == [a] + Split(b, sep)
  {
    var s := a + [sep] + b;
    FirstIndexAfter(a, b, sep);
    SplitAt(s, |a|, sep);
    assert s[..|a|] == a && s[|a| + 1..] == b;
  }

  /** When `a` has a separator at `i`, the first piece of `a + [sep] + b`
      is the one before it. */
  lemma SplitInnerPiece(a: string, b: string, sep: char, i: nat)
    requires i == FirstIndex(a, sep) && i < |a|
    ensures Split(a, sep) == [a[..i]] + Split(a[i + 1..], sep)
    ensures Split(a + [sep] + b, sep) == [a[..i]] + Split(a[i + 1..] + [sep] + b, sep)
  {
    var s := a + [sep] + b;
    CutInside(a, [sep], b, i);
    FirstIndexPrefix(a, [sep] + b, sep);
    SplitAt(s, i, sep);
    SplitAt(a, i, sep);
  }

  /** Cutting `a + x + y` at a position inside `a`. */
  lemma CutInside<T>(a: seq<T>, x: seq<T>, y: seq<T>, i: nat)
    requires i < |a|
    ensures a + x + y == a + (x + y)
    ensures (a + x + y)[..i] == a[..i]
    ensures (a + x + y)[i + 1..] == a[i + 1..] + x + y
  {
  }

  /** One unfolding of `Split` at its first separator. */
  lemma SplitAt(s: string, i: nat, sep: char)
    requires i < |s| && FirstIndex(s, sep) == i
    ensures Split(s, sep) == [s[..i]] + Split(s[i + 1..], sep)
  {
  }

  /** Joining pieces without separators and splitting again gives the
      pieces back. */
  lemma {:induction false} SplitJoin(pieces: seq<string>, sep: char)
    requires |pieces| >= 1
    requires forall k :: 0 <= k < |pieces| ==> sep !in pieces[k]
    ensures Split(Join(pieces, sep), sep) == pieces
    decreases |pieces|
  {
    if |pieces| == 1 {
      assert FirstIndex(pieces[0], sep) == |pieces[0]|;
    } else {
      var rest := pieces[1..];
      SplitJoin(rest, sep);
      FirstIndexAfter(pieces[0], Join(rest, sep), sep);
      SplitAppend(pieces[0], Join(rest, sep), sep);
      assert Split(pieces[0], sep) == [pieces[0]] by {
        assert FirstIndex(pieces[0], sep) == |pieces[0]|;
      }
      assert pieces == [pieces[0]] + rest;
    }
  }

  /** Joining a longer list adds a separator and the new piece. */
  lemma {:induction false} JoinSnoc(pieces: seq<string>, x: string, sep: char)
    requires |pieces| >= 1
    ensures Join(pieces + [x], sep) == Join(pieces, sep) + [sep] + x
    decreases |pieces|
  {
    if |pieces| == 1 {
      assert (pieces + [x])[1..] == [x];
    } else {
      assert (pieces + [x])[1..] == pieces[1..] + [x];
      JoinSnoc(pieces[1..], x, sep);
    }
  }

  lemma {:induction false} CountConcat(a: string, b: string, c: char)
    ensures Count(a + b, c) == Count(a, c) + Count(b, c)
    decreases |b|
  {
    if b != [] {
      assert (a + b)[..|a + b| - 1] == a + b[..|b| - 1];
      CountConcat(a, b[..|b| - 1], c);
    } else {
      assert a + b == a;
    }
  }

  lemma {:induction false} CountAbsent(s: string, c: char)
    requires forall j :: 0 <= j < |s| ==> s[j] != c
    ensures Count(s, c) == 0
    decreases |s|
  {
    if s != [] {
      CountAbsent(s[..|s| - 1], c);
    }
  }

  // ---------------------------------------------------------------------
  // String.prototype.trim

  /** The characters JavaScript's `trim` removes: WhiteSpace (tab, vertical
      tab, form feed, space, no-break space, byte order mark and the Unicode
      space separators) and LineTerminator. */
  predicate IsJsWhitespace(c: char)
  {
    c == '\t' || c == '\n' || c == '\U{B}' || c == '\U{C}' || c == '\r' ||
    c == ' ' || c == '\U{A0}' || c == '\U{1680}' || ('\U{2000}' <= c <= '\U{200A}') ||
    c == '\U{2028}' || c == '\U{2029}' || c == '\U{202F}' || c == '\U{205F}' ||
    c == '\U{3000}' || c == '\U{FEFF}'
  }

  /** `!text.trim()`: the text is empty or only whitespace. */
  predicate IsBlank(s: string)
  {
    forall i :: 0 <= i < |s| ==> IsJsWhitespace(s[i])
  }

  // ---------------------------------------------------------------------
  // Number.prototype.toString() for natural numbers

  function DigitChar(d: nat): char
    requires d < 10
  {
    "0123456789"[d]
  }

  /** The decimal text of `n`, as `String(n)` gives it. */
  function NatToString(n: nat): (s: string)
    ensures |s| >= 1
    ensures n >= 10 ==> |s| >= 2
  {
    if n < 10 then [DigitChar(n)] else NatToString(n / 10) + [DigitChar(n % 10)]
  }

  /** Different numbers have different decimal texts. */
  lemma {:induction false} NatToStringInjective(a: nat, b: nat)
    requires NatToString(a) == NatToString(b)
    ensures a == b
    decreases a
  {
    if a >= 10 && b >= 10 {
      var sa, sb := NatToString(a), NatToString(b);
      assert sa[|sa| - 1] == DigitChar(a % 10) && sb[|sb| - 1] == DigitChar(b % 10);
      assert sa[..|sa| - 1] == NatToString(a / 10);
      assert sb[..|sb| - 1] == NatToString(b / 10);
      NatToStringInjective(a / 10, b / 10);
    } else if a < 10 && b < 10 {
      assert NatToString(a)[0] == DigitChar(a);
      assert NatToString(b)[0] == DigitChar(b);
    }
  }

  // ---------------------------------------------------------------------
  // parseInt(text, 10)

  predicate IsDigit(c: char)
  {
    '0' <= c <= '9'
  }

  function DigitValue(c: char): (d: nat)
    requires IsDigit(c)
    ensures d < 10 && DigitChar(d) == c
  {
    (c as int) - ('0' as int)
  }

  /** The text without its leading whitespace. */
  function TrimStart(s: string): (r: string)
    ensures r == [] || !IsJsWhitespace(r[0])
    ensures |r| <= |s|
  {
    if s != [] && IsJsWhitespace(s[0]) then TrimStart(s[1..]) else s
  }

  /** Every character of `s` is a decimal digit. */
  predicate AllDigits(s: string)
  {
    forall i :: 0 <= i < |s| ==> IsDigit(s[i])
  }

  /** The number of decimal digits at the start of `s`. */
  function LeadingDigits(s: string): (n: nat)
    ensures n <= |s| && (n < |s| ==> !IsDigit(s[n]))
    ensures AllDigits(s[..n])
  {
    if s != [] && IsDigit(s[0]) then 1 + LeadingDigits(s[1..]) else 0
  }

  /** The value of a string of decimal digits. */
  function DigitsValue(d: string): nat
    requires AllDigits(d)
  {
    if d == [] then 0 else 10 * DigitsValue(d[..|d| - 1]) + DigitValue(d[|d| - 1])
  }

  /** The text after an optional leading sign. */
  function Unsigned(s: string): (r: string)
    ensures r == s || (s != [] && r == s[1..] && (s[0] == '-' || s[0] == '+'))
  {
    if s != [] && (s[0] == '-' || s[0] == '+') then s[1..] else s
  }

  /** `parseInt(s, 10)`, with `None` for NaN: leading whitespace is skipped,
      an optional sign is read, then the longest run of decimal digits; with
      no digit the result is NaN. `-0` is the integer 0 here. */
  function ParseInt(s: string): Option<int>
  {
    ParseSigned(TrimStart(s))
  }

  /** The part of `parseInt` after the leading whitespace. */
  function ParseSigned(t: string): Option<int>
  {
    match Magnitude(Unsigned(t))
    case None => None
    case Some(v) => Some(if t != [] && t[0] == '-' then -(v as int) else v)
  }

  /** The value of the leading digits, or `None` when there is none. */
  function Magnitude(u: string): Option<nat>
  {
    var n := LeadingDigits(u);
    if n == 0 then None else Some(DigitsValue(u[..n]))
  }

  /** The text without its trailing whitespace. */
  function TrimEnd(s: string): (r: string)
    ensures r == [] || !IsJsWhitespace(r[|r| - 1])
  {
    if s != [] && IsJsWhitespace(s[|s| - 1]) then TrimEnd(s[..|s| - 1]) else s
  }

  /** `Number(s)` for texts that spell an integer: blank text is 0, an
      optional sign followed by decimal digits (and nothing else) is that
      integer, anything else is NaN (`None`). */
  function ToNumber(s: string): Option<int>
  {
    var t := TrimEnd(TrimStart(s));
    if t == [] then Some(0)
    else
      var u := Unsigned(t);
      if u != [] && LeadingDigits(u) == |u| then ParseSigned(t) else None
  }

  /** `Number` reads back the decimal text of a number. */
  lemma ToNumberOfNat(n: nat)
    ensures ToNumber(NatToString(n)) == Some(n)
  {
    var s := NatToString(n);
    NatToStringDigits(n);
    MagnitudeOfDigits(s);
    LeadingAll(s);
    NoWhitespaceDigit(s[0]);
    NoWhitespaceDigit(s[|s| - 1]);
    assert TrimStart(s) == s && TrimEnd(s) == s && Unsigned(s) == s;
  }

  /** `String(n)` is made of digits and reads back as `n`. */
  lemma {:induction false} NatToStringDigits(n: nat)
    ensures AllDigits(NatToString(n))
    ensures DigitsValue(NatToString(n)) == n
  {
    if n >= 10 {
      NatToStringDigits(n / 10);
      var s := NatToString(n);
      assert s[..|s| - 1] == NatToString(n / 10);
    }
  }

  lemma MagnitudeOfDigits(d: string)
    requires d != [] && AllDigits(d)
    ensures Magnitude(d) == Some(DigitsValue(d))
  {
    LeadingAll(d);
    assert d[..|d|] == d;
  }

  /** Text that starts with neither whitespace nor nothing is kept by
      TrimStart. */
  lemma TrimStartKeeps(s: string)
    requires s != [] && !IsJsWhitespace(s[0])
    ensures TrimStart(s) == s
  {
  }

  /** After the whitespace, text of magnitude v that starts with no sign
      is read as v. */
  lemma ParseSignedPositive(d: string, v: nat)
    requires d != [] && d[0] != '-' && d[0] != '+' && Magnitude(d) == Some(v)
    ensures ParseSigned(d) == Some(v)
  {
    assert Unsigned(d) == d;
    ParseSignedRule(d, v);
  }

  /** After the whitespace, a minus sign followed by text of magnitude v
      is read as -v. */
  lemma ParseSignedNegative(d: string, v: nat)
    requires Magnitude(d) == Some(v)
    ensures ParseSigned("-" + d) == Some(-(v as int))
  {
    UnsignedMinus(d);
    var m := "-" + d;
    ParseSignedRule(m, v);
    assert m != [] && m[0] == '-';
  }

  /** A minus sign is what Unsigned drops. */
  lemma UnsignedMinus(d: string)
    ensures Unsigned("-" + d) == d
  {
    var m := "-" + d;
    assert m[1..] == d;
  }

  /** The sign rule of ParseSigned, for a known magnitude. */
  lemma ParseSignedRule(t: string, v: nat)
    requires Magnitude(Unsigned(t)) == Some(v)
    ensures ParseSigned(t) == Some(if t != [] && t[0] == '-' then -(v as int) else v)
  {
  }

  /** `parseInt` of text of magnitude v that starts with neither
      whitespace nor a sign, with and without a minus sign before it. */
  lemma ParseIntOf(d: string, v: nat)
    requires d != [] && !IsJsWhitespace(d[0]) && d[0] != '-' && d[0] != '+' && Magnitude(d) == Some(v)
    ensures ParseInt(d) == Some(v)
    ensures ParseInt("-" + d) == Some(-(v as int))
  {
    ParseSignedPositive(d, v);
    ParseSignedNegative(d, v);
    TrimStartKeeps(d);
    var m := "-" + d;
    assert m[0] == '-';
    TrimStartKeeps(m);
  }

  /** `parseInt` reads back the decimal text of a number and of its
      negation. */
  lemma ParseIntOfNat(n: nat)
    ensures ParseInt(NatToString(n)) == Some(n)
    ensures ParseInt("-" + NatToString(n)) == Some(-(n as int))
  {
    NatToStringDigits(n);
    var s := NatToString(n);
    MagnitudeOfDigits(s);
    NoWhitespaceDigit(s[0]);
    ParseIntOf(s, n);
  }

  // ---------------------------------------------------------------------
  // parseInt(text) with no radix

  predicate IsHexDigit(c: char)
  {
    IsDigit(c) || 'a' <= c <= 'f' || 'A' <= c <= 'F'
  }

  function HexDigitValue(c: char): (d: nat)
    requires IsHexDigit(c)
    ensures d < 16
  {
    if IsDigit(c) then DigitValue(c)
    else if 'a' <= c <= 'f' then (c as int) - ('a' as int) + 10
    else (c as int) - ('A' as int) + 10
  }

  /** The number of hexadecimal digits at the start of `s`. */
  function LeadingHexDigits(s: string): (n: nat)
    ensures n <= |s| && (n < |s| ==> !IsHexDigit(s[n]))
    ensures forall i :: 0 <= i < n ==> IsHexDigit(s[i])
  {
    if s != [] && IsHexDigit(s[0]) then 1 + LeadingHexDigits(s[1..]) else 0
  }

  /** The value of a string of hexadecimal digits. */
  function HexDigitsValue(d: string): nat
    requires forall i :: 0 <= i < |d| ==> IsHexDigit(d[i])
  {
    if d == [] then 0 else 16 * HexDigitsValue(d[..|d| - 1]) + HexDigitValue(d[|d| - 1])
  }

  /** The text after the sign starts with the `0x` or `0X` prefix. */
  predicate HexPrefixed(u: string)
  {
    |u| >= 2 && u[0] == '0' && (u[1] == 'x' || u[1] == 'X')
  }

  /** `parseInt(s)` with no radix, with `None` for NaN: as ParseInt, except
      that after the whitespace and the sign a `0x` or `0X` prefix makes the
      longest run of hexadecimal digits after it the magnitude; with no
      such digit the result is NaN. */
  function ParseIntAnyRadix(s: string): Option<int>
  {
    var t := TrimStart(s);
    var u := Unsigned(t);
    if HexPrefixed(u) then
      var h := u[2..];
      var n := LeadingHexDigits(h);
      if n == 0 then None
      else
        var v := HexDigitsValue(h[..n]);
        Some(if t[0] == '-' then -(v as int) else v)
    else ParseSigned(t)
  }

  /** Without the prefix, the radix-less parse is the decimal one. */
  lemma AnyRadixDecimal(s: string)
    requires !HexPrefixed(Unsigned(TrimStart(s)))
    ensures ParseIntAnyRadix(s) == ParseInt(s)
  {
  }

  /** The radix-less parse also reads back the decimal text of a number:
      the second character of that text is never `x`. */
  lemma AnyRadixOfNat(n: nat)
    ensures ParseIntAnyRadix(NatToString(n)) == Some(n)
  {
    var s := NatToString(n);
    NatToStringDigits(n);
    NoWhitespaceDigit(s[0]);
    TrimStartKeeps(s);
    assert Unsigned(s) == s;
    assert !HexPrefixed(s) by {
      if |s| >= 2 {
        assert IsDigit(s[1]);
      }
    }
    ParseIntOfNat(n);
  }

  /** Where the two parses part: `0x10` is 16 with no radix and 0 in base
      10, `0x7` is 7 and 0, and `-0x1F` is -31 with no radix. */
  lemma AnyRadixHex()
    ensures ParseIntAnyRadix("0x10") == Some(16) && ParseInt("0x10") == Some(0)
    ensures ParseIntAnyRadix("0x7") == Some(7) && ParseInt("0x7") == Some(0)
    ensures ParseIntAnyRadix("-0x1F") == Some(-31)
  {
    HexSixteen();
    HexSeven();
    HexMinusThirtyOne();
  }

  lemma HexSixteen()
    ensures ParseIntAnyRadix("0x10") == Some(16) && ParseInt("0x10") == Some(0)
  {
    var s := "0x10";
    assert TrimStart(s) == s && Unsigned(s) == s;
    assert s[2..] == "10" && LeadingHexDigits("10") == 2 && "10"[..2] == "10";
    assert HexDigitsValue("10") == 16 by {
      assert "10"[..1] == "1";
    }
    assert LeadingDigits(s) == 1 by {
      assert s[1..] == "x10";
    }
    assert s[..1] == "0";
  }

  lemma HexSeven()
    ensures ParseIntAnyRadix("0x7") == Some(7) && ParseInt("0x7") == Some(0)
  {
    var z := "0x7";
    assert TrimStart(z) == z && Unsigned(z) == z;
    assert z[2..] == "7" && LeadingHexDigits("7") == 1 && "7"[..1] == "7";
    assert LeadingDigits(z) == 1 by {
      assert z[1..] == "x7";
    }
    assert z[..1] == "0";
  }

  lemma HexMinusThirtyOne()
    ensures ParseIntAnyRadix("-0x1F") == Some(-31)
  {
    var m := "-0x1F";
    assert TrimStart(m) == m && Unsigned(m) == m[1..] && m[1..] == "0x1F";
    assert "0x1F"[2..] == "1F" && LeadingHexDigits("1F") == 2 && "1F"[..2] == "1F";
    assert HexDigitsValue("1F") == 31 by {
      assert "1F"[..1] == "1";
    }
  }

  lemma NoWhitespaceDigit(c: char)
    requires IsDigit(c)
    ensures !IsJsWhitespace(c) && c != '-' && c != '+'
  {
  }

  lemma {:induction false} LeadingAll(s: string)
    requires AllDigits(s)
    ensures LeadingDigits(s) == |s|
    decreases |s|
  {
    if s != [] {
      LeadingAll(s[1..]);
    }
  }

  // ---------------------------------------------------------------------
  // Searching an index range

  /** The lowest index below `n` that satisfies `p`, as a `for` loop with
      `break` finds it. */
  function First(n: nat, p: nat -> bool): (r: Option<nat>)
    ensures r.Some? ==> r.value < n
  {
    if n == 0 then None
    else
      var r := First(n - 1, p);
      if r.Some? then r else if p(n - 1) then Some(n - 1) else None
  }

  /** `First` finds an index exactly when one satisfies `p`, and then the
      lowest one. */
  lemma {:induction false} FirstRule(n: nat, p: nat -> bool)
    ensures First(n, p).None? <==> forall j :: 0 <= j < n ==> !p(j)
    ensures First(n, p).Some? ==>
              var i := First(n, p).value;
              i < n && p(i) && forall j :: 0 <= j < i ==> !p(j)
  {
    if n > 0 {
      FirstRule(n - 1, p);
    }
  }

  // ---------------------------------------------------------------------
  // Arithmetic

  lemma MulStep(n: int, a: int, b: int)
    requires n > 0
    ensures a > b ==> n * a >= n * b + n
  {
    if a > b {
      var d := a - b;
      assert n * a == n * b + n * d by {
        assert a == b + d;
      }
      MulPos(n, d);
    }
  }
  lemma MulPos(n: int, d: int)
    requires n > 0 && d >= 1
    ensures n * d >= n
  {
  }
  lemma ModUnique(x: int, n: int, q: int, r: int)
    requires n > 0 && x == n * q + r && 0 <= r < n
    ensures x % n == r && x / n == q
  {
    MulStep(n, x / n, q);
    MulStep(n, q, x / n);
  }
  /** Adding the modulus does not change the remainder. */
  lemma ModShift(a: nat, n: nat)
    requires n > 0
    ensures (a + n) % n == a % n
  {
    ModUnique(a + n, n, a / n + 1, a % n);
  }
  /** Stepping a row-major index by one: the column wraps to 0 exactly
      when it reaches the width, and then the row advances. */
  lemma DivModNext(i: nat, w: nat)
    requires w > 0
    ensures (i + 1) % w == (if i % w + 1 == w then 0 else i % w + 1)
    ensures (i + 1) / w == (if i % w + 1 == w then i / w + 1 else i / w)
  {
    if i % w + 1 == w {
      ModUnique(i + 1, w, i / w + 1, 0);
    } else {
      ModUnique(i + 1, w, i / w, i % w + 1);
    }
  }
  /** The quotient and remainder of a natural number. */
  lemma DivMod(n: nat, w: nat)
    requires w > 0
    ensures 0 <= n / w <= n && 0 <= n % w < w && n == w * (n / w) + n % w
  {
    var q, r := n / w, n % w;
    assert n == w * q + r && 0 <= r < w;
    MulStep(w, 0, q);
    if q > 0 {
      MulPos(q, w);
    }
  }
  /** An index below `n` rows of width `w` lies in one of those rows. */
  lemma DivBelow(i: nat, w: nat, n: nat)
    requires w > 0 && i < n * w
    ensures i / w < n
  {
    MulStep(w, i / w, n - 1);
  }
  /** Row-major coordinates are recovered from their index. */
  lemma RowMajor(x: nat, y: nat, w: nat)
    requires x < w
    ensures (x + y * w) % w == x && (x + y * w) / w == y
  {
    ModUnique(x + y * w, w, y, x);
  }
}
