/** The "fakedown" marker rewriting shared by the dialogue plugins: every
    pair of two-character markers (`@@X@@` for portraits, `&&X&&` for sounds)
    is replaced by a style tag `{name=X}c{-name}` around one character `c`.

    The rewriting loop (dist/dialogue-portraits.js:271-288,
    src/speech-portraits-from-tiles.js:141-156, dist/sound-dialogue.js:75-91)
    first counts the markers with a global regular expression and leaves the
    text alone when the count is odd; otherwise it repeatedly finds the first
    marker, looks for its partner from the next position, and splices the
    tag in. */
module Markup {
  import opened Host

  /** Code point 1, the zero-width character the plugins add to the font. */
  const EMPTY_CHAR: char := '\U{1}'

  /** A style tag kind: its name, and whether it wraps the character that
      follows the closing marker (true) or a zero-width character (false). */
  datatype Style = Style(name: string, wrapsNext: bool)

  /** A marker (the character `m` twice) starts at index `i` of `s`. */
  predicate MarkerAt(s: string, m: char, i: int)
  {
    0 <= i && i + 1 < |s| && s[i] == m && s[i + 1] == m
  }

  predicate MarkerFree(s: string, m: char)
  {
    forall i :: 0 <= i < |s| ==> !MarkerAt(s, m, i)
  }

  /** No run of three marker characters: under this condition markers never
      overlap, which the source's loop needs to terminate. */
  predicate NoTriple(s: string, m: char)
  {
    forall i :: 0 <= i < |s| ==> !TripleAt(s, m, i)
  }

  predicate TripleAt(s: string, m: char, i: int)
  {
    0 <= i && i + 2 < |s| && s[i] == m && s[i + 1] == m && s[i + 2] == m
  }

  /** The marker character cannot appear in what a tag inserts. */
  predicate Compatible(st: Style, m: char)
  {
    m !in st.name && m != '{' && m != '}' && m != '=' && m != '-' && m != EMPTY_CHAR
  }

  /** `(s.match(/mm/g) ?? []).length`: matches are counted left to right
      without overlap. */
  function MatchCount(s: string, m: char): nat
    decreases |s|
  {
    if |s| < 2 then 0
    else if s[0] == m && s[1] == m then 1 + MatchCount(s[2..], m)
    else MatchCount(s[1..], m)
  }

  /** `s.indexOf(mm, from)`: the first marker at or after `from`, or -1. */
  function IndexOf(s: string, m: char, from: nat): (r: int)
    ensures r == -1 || (from <= r && MarkerAt(s, m, r))
    ensures forall i :: from <= i < |s| && (r == -1 || i < r) ==> !MarkerAt(s, m, i)
    decreases |s| - from
  {
    if from + 1 >= |s| then -1
    else if s[from] == m && s[from + 1] == m then from
    else IndexOf(s, m, from + 1)
  }

  /** The text that replaces one marker pair around `x`. */
  function Piece(st: Style, x: string, body: string): string
  {
    "{" + st.name + "=" + x + "}" + body + "{-" + st.name + "}"
  }

  /** How many characters after the closing marker the tag takes in. */
  function Consumed(st: Style, after: string): nat
  {
    if st.wrapsNext && after != [] then 1 else 0
  }

  /** The styled character: the next one (possibly none, at the end of the
      text) or the zero-width character. */
  function Body(st: Style, after: string): string
  {
    if st.wrapsNext then after[..Consumed(st, after)] else [EMPTY_CHAR]
  }

  /** The text up to and including the tag for the pair at `a` and `b`. */
  function TagHead(s: string, st: Style, a: nat, b: nat): string
    requires a + 2 <= b && b + 2 <= |s|
  {
    s[..a] + Piece(st, s[a + 2..b], Body(st, s[b + 2..]))
  }

  /** The text after the tag for the pair whose closing marker is at `b`. */
  function TagRest(s: string, st: Style, b: nat): (r: string)
    requires b + 2 <= |s|
    ensures |r| + 2 <= |s| && r == s[|s| - |r|..]
  {
    s[b + 2..][Consumed(st, s[b + 2..])..]
  }

  /** The rewritten text: every marker pair, taken in order, replaced by its
      tag. */
  function Tagged(s: string, m: char, st: Style): string
    decreases |s|
  {
    var a := IndexOf(s, m, 0);
    if a < 0 then s
    else
      var b := IndexOf(s, m, a + 2);
      if b < 0 then s
      else TagHead(s, st, a, b) + Tagged(TagRest(s, st, b), m, st)
  }

  // ---------------------------------------------------------------------
  // Facts about markers

  lemma {:induction false} IndexOfDrop(s: string, m: char, k: nat, from: nat)
    requires k <= |s|
    ensures IndexOf(s, m, k + from) == (if IndexOf(s[k..], m, from) < 0 then -1 else k + IndexOf(s[k..], m, from))
    decreases |s| - k - from
  {
    if k + from + 1 < |s| {
      IndexOfDrop(s, m, k, from + 1);
    }
  }

  lemma {:induction false} IndexOfSkip(s: string, m: char, from: nat, to: nat)
    requires from <= to
    requires forall i :: from <= i < to ==> !MarkerAt(s, m, i)
    ensures IndexOf(s, m, from) == IndexOf(s, m, to)
    decreases (to as int) - (from as int)
  {
    if from < to && from + 1 < |s| {
      IndexOfSkip(s, m, from + 1, to);
    }
  }

  lemma {:induction false} MatchCountSkip(s: string, m: char, k: nat)
    requires k <= |s|
    requires forall i :: 0 <= i < k ==> !MarkerAt(s, m, i)
    ensures MatchCount(s, m) == MatchCount(s[k..], m)
    decreases k
  {
    if k > 0 {
      assert !MarkerAt(s, m, 0);
      if |s| >= 2 {
        assert forall i :: 0 <= i < k - 1 ==> (MarkerAt(s[1..], m, i) <==> MarkerAt(s, m, i + 1));
        MatchCountSkip(s[1..], m, k - 1);
        assert s[1..][k - 1..] == s[k..];
      }
    }
  }

  /** There is a marker exactly when the match count is positive. */
  lemma MatchCountPositive(s: string, m: char)
    ensures IndexOf(s, m, 0) >= 0 <==> MatchCount(s, m) > 0
  {
    var a := IndexOf(s, m, 0);
    MatchCountSkip(s, m, if a < 0 then |s| else a);
  }

  lemma MarkerFreeConcat(x: string, y: string, m: char)
    requires MarkerFree(x, m) && MarkerFree(y, m)
    requires x == [] || y == [] || x[|x| - 1] != m || y[0] != m
    ensures MarkerFree(x + y, m)
  {
    forall i | 0 <= i < |x + y|
      ensures !MarkerAt(x + y, m, i)
    {
      if i + 1 < |x| {
        assert !MarkerAt(x, m, i);
      } else if i >= |x| {
        assert !MarkerAt(y, m, i - |x|);
      }
    }
  }

  lemma MarkerFreeWithout(s: string, m: char)
    requires m !in s
    ensures MarkerFree(s, m)
  {
    forall i | 0 <= i < |s| ensures !MarkerAt(s, m, i) {
      assert s[i] in s;
    }
  }

  lemma IndexOfAfterFree(x: string, y: string, m: char)
    requires MarkerFree(x, m) && (x == [] || x[|x| - 1] != m)
    ensures IndexOf(x + y, m, 0) == (if IndexOf(y, m, 0) < 0 then -1 else |x| + IndexOf(y, m, 0))
  {
    forall i | 0 <= i < |x| ensures !MarkerAt(x + y, m, i) {
      if i + 1 < |x| {
        assert !MarkerAt(x, m, i);
      }
    }
    IndexOfSkip(x + y, m, 0, |x|);
    IndexOfDrop(x + y, m, |x|, 0);
    assert (x + y)[|x|..] == y;
  }

  lemma PieceFree(st: Style, x: string, body: string, m: char)
    requires Compatible(st, m) && MarkerFree(x, m) && m !in body
    ensures MarkerFree(Piece(st, x, body), m)
    ensures Piece(st, x, body)[0] == '{' && Piece(st, x, body)[|Piece(st, x, body)| - 1] == '}'
  {
    var open := "{" + st.name + "=";
    var tail := "}" + body + "{-" + st.name + "}";
    assert m !in open;
    assert m !in tail;
    MarkerFreeWithout(open, m);
    MarkerFreeWithout(tail, m);
    MarkerFreeConcat(open, x, m);
    MarkerFreeConcat(open + x, tail, m);
    assert Piece(st, x, body) == open + x + tail;
  }

  lemma TailBrace(head: string, pre: string, piece: string)
    requires head == pre + piece && piece != [] && piece[|piece| - 1] == '}'
    ensures head != [] && head[|head| - 1] == '}'
  {
  }

  /** `s[lo..hi]` is marker-free when no marker starts inside it. */
  lemma SliceFree(s: string, m: char, lo: nat, hi: nat)
    requires lo <= hi <= |s|
    requires forall i :: lo <= i < hi - 1 ==> !MarkerAt(s, m, i)
    ensures MarkerFree(s[lo..hi], m)
  {
    forall i | 0 <= i < hi - lo ensures !MarkerAt(s[lo..hi], m, i) {
      if i + 1 < hi - lo {
        assert !MarkerAt(s, m, lo + i);
      }
    }
  }

  lemma SuffixNoTriple(s: string, m: char, c: nat)
    requires NoTriple(s, m) && c <= |s|
    ensures NoTriple(s[c..], m)
  {
    forall i | 0 <= i < |s[c..]| ensures !TripleAt(s[c..], m, i) {
      assert !TripleAt(s, m, c + i);
    }
  }

  /** Taking in a character that is not the marker character does not
      change the count. */
  lemma CountAfterConsumed(after: string, m: char, st: Style)
    requires after == [] || after[0] != m
    ensures MatchCount(after[Consumed(st, after)..], m) == MatchCount(after, m)
  {
    if Consumed(st, after) == 1 {
      assert !MarkerAt(after, m, 0);
      MatchCountSkip(after, m, 1);
    }
  }

  /** The count from just after the first marker is odd. */
  lemma {:induction false} CountAfterFirst(s: string, m: char) returns (a: nat)
    requires MatchCount(s, m) % 2 == 0 && IndexOf(s, m, 0) >= 0
    ensures a == IndexOf(s, m, 0) && MarkerAt(s, m, a)
    ensures MatchCount(s[a + 2..], m) + 1 == MatchCount(s, m)
  {
    a := IndexOf(s, m, 0);
    MatchCountSkip(s, m, a);
    assert s[a..][2..] == s[a + 2..];
  }

  /** A marker with an odd count after it has a partner, and looking for it
      from the next position finds the same one. */
  lemma {:induction false} Partner(s: string, m: char, a: nat) returns (b: nat)
    requires NoTriple(s, m) && MarkerAt(s, m, a)
    requires MatchCount(s[a + 2..], m) % 2 == 1
    ensures b == IndexOf(s, m, a + 2) && a + 2 <= b && MarkerAt(s, m, b)
    ensures b == IndexOf(s, m, a + 1)
  {
    MatchCountPositive(s[a + 2..], m);
    IndexOfDrop(s, m, a + 2, 0);
    b := IndexOf(s, m, a + 2);
    assert !TripleAt(s, m, a);
  }

  lemma {:induction false} CountFromPartner(s: string, m: char, a: nat, b: nat)
    requires NoTriple(s, m) && a + 2 <= b && MarkerAt(s, m, b)
    requires b == IndexOf(s, m, a + 2)
    ensures MatchCount(s[a + 2..], m) == 1 + MatchCount(s[b + 2..], m)
    ensures s[b + 2..] == [] || s[b + 2] != m
  {
    var rest := s[a + 2..];
    forall i | 0 <= i < b - (a + 2) ensures !MarkerAt(rest, m, i) {
      assert !MarkerAt(s, m, a + 2 + i);
    }
    MatchCountSkip(rest, m, b - (a + 2));
    assert rest[b - (a + 2)..] == s[b..];
    assert s[b..][2..] == s[b + 2..];
    if b + 2 < |s| {
      assert !TripleAt(s, m, b);
    }
  }

  lemma CountRest(s: string, m: char, st: Style, b: nat)
    requires b + 2 <= |s| && (s[b + 2..] == [] || s[b + 2] != m)
    ensures MatchCount(TagRest(s, st, b), m) == MatchCount(s[b + 2..], m)
  {
    CountAfterConsumed(s[b + 2..], m, st);
  }

  /** With an even count, the first marker has a partner. */
  lemma PairPartner(s: string, m: char) returns (a: nat, b: nat)
    requires NoTriple(s, m) && MatchCount(s, m) % 2 == 0
    requires IndexOf(s, m, 0) >= 0
    ensures a == IndexOf(s, m, 0) && b == IndexOf(s, m, a + 2) && b == IndexOf(s, m, a + 1)
    ensures a + 2 <= b && b + 2 <= |s| && MarkerAt(s, m, b)
    ensures s[b + 2..] == [] || s[b + 2] != m
    ensures MatchCount(s[b + 2..], m) + 2 == MatchCount(s, m)
  {
    a := CountAfterFirst(s, m);
    b := Partner(s, m, a);
    CountFromPartner(s, m, a, b);
  }

  /** What one step of the rewriting establishes for the pair at `a` and
      `b`: the text up to and including its tag is marker-free, and the rest
      keeps the loop's conditions with two markers fewer. */
  ghost predicate PairStep(s: string, m: char, st: Style, a: nat, b: nat)
  {
    a + 2 <= b && b + 2 <= |s| &&
    Tagged(s, m, st) == TagHead(s, st, a, b) + Tagged(TagRest(s, st, b), m, st) &&
    MarkerFree(TagHead(s, st, a, b), m) &&
    |TagHead(s, st, a, b)| > 0 && TagHead(s, st, a, b)[|TagHead(s, st, a, b)| - 1] == '}' &&
    NoTriple(TagRest(s, st, b), m) &&
    MatchCount(TagRest(s, st, b), m) + 2 == MatchCount(s, m)
  }

  /** One unfolding of `Tagged` at the pair found at `a` and `b`. */
  lemma TaggedUnfold(s: string, m: char, st: Style, a: nat, b: nat)
    requires a == IndexOf(s, m, 0) && b == IndexOf(s, m, a + 2)
    ensures a + 2 <= b && b + 2 <= |s|
    ensures Tagged(s, m, st) == TagHead(s, st, a, b) + Tagged(TagRest(s, st, b), m, st)
  {
  }

  /** The text up to and including a tag holds no marker. */
  lemma HeadFree(s: string, m: char, st: Style, a: nat, b: nat)
    requires Compatible(st, m) && NoTriple(s, m) && MarkerAt(s, m, b)
    requires a == IndexOf(s, m, 0) && b == IndexOf(s, m, a + 2) && a + 2 <= b
    ensures MarkerFree(TagHead(s, st, a, b), m)
    ensures |TagHead(s, st, a, b)| > 0 && TagHead(s, st, a, b)[|TagHead(s, st, a, b)| - 1] == '}'
  {
    assert b + 2 <= |s|;
    var pre, x, body := s[..a], s[a + 2..b], Body(st, s[b + 2..]);
    GapFree(s, m, a + 2, b);
    GapFree(s, m, 0, a);
    BodyFree(s, m, st, b);
    PieceFree(st, x, body, m);
    MarkerFreeConcat(pre, Piece(st, x, body), m);
    TailBrace(TagHead(s, st, a, b), pre, Piece(st, x, body));
  }

  /** No marker starts between `from` and the next marker found from there. */
  lemma GapFree(s: string, m: char, from: nat, r: int)
    requires r == IndexOf(s, m, from) && from <= r
    ensures MarkerFree(s[from..r], m)
  {
    SliceFree(s, m, from, r);
  }

  /** The character a tag wraps is never the marker: a marker right after a
      closing marker would make a triple. */
  lemma BodyFree(s: string, m: char, st: Style, b: nat)
    requires Compatible(st, m) && NoTriple(s, m) && MarkerAt(s, m, b)
    ensures m !in Body(st, s[b + 2..])
  {
    var after := s[b + 2..];
    if st.wrapsNext && after != [] {
      assert !TripleAt(s, m, b);
      assert after[..1] == [s[b + 2]];
    }
  }

  lemma TaggedStep(s: string, m: char, st: Style) returns (a: nat, b: nat)
    requires Compatible(st, m) && NoTriple(s, m) && MatchCount(s, m) % 2 == 0
    requires IndexOf(s, m, 0) >= 0
    ensures a == IndexOf(s, m, 0) && b == IndexOf(s, m, a + 1)
    ensures PairStep(s, m, st, a, b)
  {
    a, b := PairPartner(s, m);
    TaggedUnfold(s, m, st, a, b);
    CountRest(s, m, st, b);
    HeadFree(s, m, st, a, b);
    RestNoTriple(s, m, st, b);
  }

  /** What follows a tag has no triple marker when the text had none. */
  lemma RestNoTriple(s: string, m: char, st: Style, b: nat)
    requires NoTriple(s, m) && b + 2 <= |s|
    ensures NoTriple(TagRest(s, st, b), m)
  {
    SuffixNoTriple(s, m, |s| - |TagRest(s, st, b)|);
  }

  /** Text without markers is left as it is. */
  lemma TaggedOfFree(s: string, m: char, st: Style)
    requires MarkerFree(s, m)
    ensures Tagged(s, m, st) == s
  {
    assert IndexOf(s, m, 0) < 0;
  }

  /** The rewritten text holds no marker any more. */
  lemma {:induction false} TaggedMarkerFree(s: string, m: char, st: Style)
    requires Compatible(st, m) && NoTriple(s, m) && MatchCount(s, m) % 2 == 0
    ensures MarkerFree(Tagged(s, m, st), m)
    decreases MatchCount(s, m)
  {
    if IndexOf(s, m, 0) >= 0 {
      var a, b := TaggedStep(s, m, st);
      var rest := TagRest(s, st, b);
      EvenLess(MatchCount(rest, m), MatchCount(s, m));
      TaggedMarkerFree(rest, m, st);
      FreeAfterStep(Tagged(s, m, st), TagHead(s, st, a, b), Tagged(TagRest(s, st, b), m, st), m);
    } else {
      TaggedOfFree(s, m, st);
    }
  }

  /** A marker-free head ending in a tag, followed by marker-free text. */
  lemma FreeAfterStep(whole: string, head: string, rest: string, m: char)
    requires whole == head + rest && MarkerFree(head, m) && MarkerFree(rest, m)
    requires |head| > 0 && head[|head| - 1] == '}' && m != '}'
    ensures MarkerFree(whole, m)
  {
    MarkerFreeConcat(head, rest, m);
  }

  /** A second rewrite changes nothing. */
  lemma TaggedIdempotent(s: string, m: char, st: Style)
    requires Compatible(st, m) && NoTriple(s, m) && MatchCount(s, m) % 2 == 0
    ensures Tagged(Tagged(s, m, st), m, st) == Tagged(s, m, st)
  {
    TaggedMarkerFree(s, m, st);
    TaggedOfFree(Tagged(s, m, st), m, st);
  }

  /** The text after the first `done` characters of `done + rest`. */
  lemma IndexOfShift(done: string, rest: string, m: char, from: nat)
    ensures IndexOf(done + rest, m, |done| + from)
         == (if IndexOf(rest, m, from) < 0 then -1 else |done| + IndexOf(rest, m, from))
  {
    IndexOfDrop(done + rest, m, |done|, from);
    assert (done + rest)[|done|..] == rest;
  }

  lemma PairPositions(p: string, x: string, q: string, m: char)
    requires MarkerFree(p, m) && (p == [] || p[|p| - 1] != m)
    requires MarkerFree(x, m) && (x == [] || x[|x| - 1] != m)
    ensures IndexOf(p + [m, m] + x + [m, m] + q, m, 0) == |p|
    ensures IndexOf(p + [m, m] + x + [m, m] + q, m, |p| + 2) == |p| + 2 + |x|
  {
    var inner := x + [m, m] + q;
    PairRegroup(p, x, q, m);
    FirstAfterFree(p, inner, m);
    FirstAfterFree(x, q, m);
    IndexOfShift(p + [m, m], inner, m, 0);
  }

  /** The first marker of `p + [m, m] + rest` is the one after `p` when `p`
      holds none. */
  lemma FirstAfterFree(p: string, rest: string, m: char)
    requires MarkerFree(p, m) && (p == [] || p[|p| - 1] != m)
    ensures IndexOf(p + [m, m] + rest, m, 0) == |p|
  {
    assert p + [m, m] + rest == p + ([m, m] + rest);
    IndexOfAfterFree(p, [m, m] + rest, m);
    assert IndexOf([m, m] + rest, m, 0) == 0;
  }

  lemma PairRegroup(p: string, x: string, q: string, m: char)
    ensures p + [m, m] + x + [m, m] + q == p + [m, m] + (x + [m, m] + q)
  {
  }

  lemma TaggedPairAt(s: string, m: char, st: Style, a: nat, b: nat, p: string, x: string, q: string)
    requires a == IndexOf(s, m, 0) && b == IndexOf(s, m, a + 2)
    requires s[..a] == p && s[a + 2..b] == x && s[b + 2..] == q
    ensures Tagged(s, m, st) == p + Piece(st, x, Body(st, q)) + Tagged(q[Consumed(st, q)..], m, st)
  {
    TaggedUnfold(s, m, st, a, b);
    HeadRestOf(s, st, a, b, p, x, q);
  }

  /** The head and rest of a pair, in terms of the text around it. */
  lemma HeadRestOf(s: string, st: Style, a: nat, b: nat, p: string, x: string, q: string)
    requires a + 2 <= b && b + 2 <= |s|
    requires s[..a] == p && s[a + 2..b] == x && s[b + 2..] == q
    ensures TagHead(s, st, a, b) == p + Piece(st, x, Body(st, q))
    ensures TagRest(s, st, b) == q[Consumed(st, q)..]
  {
  }

  /** A marker pair, with marker-free text before it and inside it, becomes
      one tag; the text before it is kept and the text after it is rewritten
      in turn. */
  lemma TaggedPair(p: string, x: string, q: string, m: char, st: Style)
    requires MarkerFree(p, m) && (p == [] || p[|p| - 1] != m)
    requires MarkerFree(x, m) && (x == [] || x[|x| - 1] != m)
    ensures Tagged(p + [m, m] + x + [m, m] + q, m, st)
         == p + Piece(st, x, Body(st, q)) + Tagged(q[Consumed(st, q)..], m, st)
  {
    var s := p + [m, m] + x + [m, m] + q;
    PairPositions(p, x, q, m);
    PairSlices(p, x, q, m);
    TaggedPairAt(s, m, st, |p|, |p| + 2 + |x|, p, x, q);
  }

  /** The three parts around a marker pair, read back by slicing. */
  lemma PairSlices(p: string, x: string, q: string, m: char)
    ensures var s, a, b := p + [m, m] + x + [m, m] + q, |p|, |p| + 2 + |x|;
            s[..a] == p && s[a + 2..b] == x && s[b + 2..] == q
  {
    var s, a, b := p + [m, m] + x + [m, m] + q, |p|, |p| + 2 + |x|;
    assert s[..a] == p;
    assert s[a + 2..b] == x;
    assert s[b + 2..] == q;
  }

  // ---------------------------------------------------------------------
  // The rewriting loop

  /** Splicing a tag into `done + rest` splices it into `rest`. */
  lemma SpliceShift(r: string, done: string, rest: string, st: Style, a: nat, b: nat, start: nat, end: nat)
    requires r == done + rest && start == |done| + a && end == |done| + b
    requires a + 2 <= b && b + 2 <= |rest|
    ensures TagHead(r, st, start, end) == done + TagHead(rest, st, a, b)
    ensures TagRest(r, st, end) == TagRest(rest, st, b)
  {
    var x, q := rest[a + 2..b], rest[b + 2..];
    assert r[..start] == done + rest[..a];
    assert r[start + 2..end] == x;
    assert r[end + 2..] == q;
    HeadRestOf(r, st, start, end, done + rest[..a], x, q);
    HeadRestOf(rest, st, a, b, rest[..a], x, q);
    Assoc(done, rest[..a], Piece(st, x, Body(st, q)));
  }

  lemma EvenLess(x: nat, y: nat)
    requires x + 2 == y && y % 2 == 0
    ensures x % 2 == 0
  {
  }

  lemma Assoc(x: string, y: string, z: string)
    ensures x + (y + z) == (x + y) + z
  {
  }

  /** What the rewriting loop keeps: `done` is the finished, marker-free
      part of the text `r`, `rest` the part still to be rewritten, and
      `start` the first marker of `r` (or -1). */
  ghost predicate RewriteInv(text: string, m: char, st: Style, r: string, done: string, rest: string, start: int)
  {
    r == done + rest &&
    MarkerFree(done, m) && (done == [] || done[|done| - 1] != m) &&
    NoTriple(rest, m) && MatchCount(rest, m) % 2 == 0 &&
    Tagged(text, m, st) == done + Tagged(rest, m, st) &&
    start == (if IndexOf(rest, m, 0) < 0 then -1 else |done| + IndexOf(rest, m, 0))
  }

  /** The pair found in `rest` sits at the same places, shifted by `done`,
      in the whole text. */
  lemma StepPositions(r: string, done: string, rest: string, m: char, start: int, a: nat, b: nat)
    requires r == done + rest && start == |done| + a
    requires b == IndexOf(rest, m, a + 1) && a + 2 <= b && b + 2 <= |rest|
    ensures 0 <= start && |done| + b == IndexOf(r, m, start + 1)
    ensures start + 2 <= |done| + b && |done| + b + 2 <= |r|
  {
    IndexOfShift(done, rest, m, a + 1);
  }

  /** One iteration of the rewriting loop keeps `RewriteInv` with two
      markers fewer still to rewrite. */
  lemma RewriteStep(text: string, m: char, st: Style, r: string, done: string, rest: string, start: int)
    returns (end: nat, r': string, done': string, rest': string)
    requires Compatible(st, m) && RewriteInv(text, m, st, r, done, rest, start) && start != -1
    ensures 0 <= start && end == IndexOf(r, m, start + 1) && start + 2 <= end && end + 2 <= |r|
    ensures r' == TagHead(r, st, start, end) + TagRest(r, st, end)
    ensures RewriteInv(text, m, st, r', done', rest', IndexOf(r', m, 0))
    ensures MatchCount(rest', m) < MatchCount(rest, m)
  {
    var a, b := TaggedStep(rest, m, st);
    end := |done| + b;
    StepPositions(r, done, rest, m, start, a, b);
    var head := TagHead(rest, st, a, b);
    done', rest' := done + head, TagRest(rest, st, b);
    r' := TagHead(r, st, start, end) + TagRest(r, st, end);
    assert r' == done' + rest' by {
      SpliceShift(r, done, rest, st, a, b, start, end);
      Assoc(done, head, rest');
    }
    assert MarkerFree(done', m) && done'[|done'| - 1] != m by {
      MarkerFreeConcat(done, head, m);
      assert done'[|done'| - 1] == head[|head| - 1];
    }
    assert Tagged(text, m, st) == done' + Tagged(rest', m, st) by {
      Assoc(done, head, Tagged(rest', m, st));
    }
    assert IndexOf(r', m, 0) == (if IndexOf(rest', m, 0) < 0 then -1 else |done'| + IndexOf(rest', m, 0)) by {
      IndexOfAfterFree(done', rest', m);
    }
    assert NoTriple(rest', m) && MatchCount(rest', m) + 2 == MatchCount(rest, m);
    EvenLess(MatchCount(rest', m), MatchCount(rest, m));
    assert MatchCount(rest', m) % 2 == 0;
  }

  /** The source's rewriting loop. `replaced` is true when at least one pair
      was rewritten (it sets the page's "has portrait" flag). */
  method RewriteMarkers(text: string, m: char, st: Style) returns (r: string, replaced: bool)
    requires Compatible(st, m) && NoTriple(text, m)
    ensures r == (if MatchCount(text, m) % 2 != 0 then text else Tagged(text, m, st))
    ensures replaced <==> MatchCount(text, m) % 2 == 0 && MatchCount(text, m) > 0
    ensures MatchCount(text, m) % 2 == 0 ==> MarkerFree(r, m)
  {
    if MatchCount(text, m) % 2 != 0 {
      return text, false;
    }
    TaggedMarkerFree(text, m, st);
    MatchCountPositive(text, m);
    r := text;
    replaced := false;
    var start := IndexOf(r, m, 0);
    ghost var done: string := [];
    ghost var rest := text;
    while start != -1
      invariant RewriteInv(text, m, st, r, done, rest, start)
      invariant replaced ==> MatchCount(text, m) > 0
      invariant !replaced ==> rest == text
      decreases MatchCount(rest, m)
    {
      ghost var e, r';
      e, r', done, rest := RewriteStep(text, m, st, r, done, rest, start);
      var end := IndexOf(r, m, start + 1);
      r := TagHead(r, st, start, end) + TagRest(r, st, end);
      replaced := true;
      start := IndexOf(r, m, 0);
    }
    TaggedOfFree(rest, m, st);
  }

  // ---------------------------------------------------------------------
  // The zero-width character and styled glyphs

  /** A font character: its code point, the size of its rectangle, its
      spacing, and the image it is cut from. */
  datatype CharInfo = CharInfo(codepoint: nat, width: nat, height: nat, spacing: nat, image: nat)

  /** `addEmptyCharToFont` on the font's character table: code point 1 is
      added as a zero-size character cut from character 0's image, unless
      the table already has it (dist/dialogue-portraits.js:129-133,
      dist/sound-dialogue.js:43-47).  A table with neither throws a
      TypeError on reading character 0's image, before anything is set. */
  function WithEmptyChar(chars: map<nat, CharInfo>): (r: Result<map<nat, CharInfo>>)
    ensures r.Ok? <==> 1 in chars || 0 in chars
    ensures r.Ok? ==> 1 in r.value && r.value.Keys == chars.Keys + {1}
    ensures r.Ok? ==> forall c :: c in chars ==> r.value[c] == chars[c]
    ensures r.Ok? && 1 !in chars ==>
              r.value[1] == CharInfo(1, 0, 0, 0, chars[0].image)
  {
    if 1 in chars then Ok(chars)
    else if 0 in chars then Ok(chars[1 := CharInfo(1, 0, 0, 0, chars[0].image)])
    else Err("Cannot read properties of undefined (reading 'image')")
  }

  /** Adding the empty character twice is the same as adding it once. */
  lemma EmptyCharIdempotent(chars: map<nat, CharInfo>)
    ensures WithEmptyChar(chars).Ok? ==> WithEmptyChar(WithEmptyChar(chars).value) == WithEmptyChar(chars)
  {
  }

  /** A dialogue font, whose character table the plugins extend in place. */
  class Font {
    var characters: map<nat, CharInfo>

    constructor(characters: map<nat, CharInfo>)
      ensures this.characters == characters
    {
      this.characters := characters;
    }

    /** `ok` is false when the call throws, leaving the table as it was. */
    method AddEmptyChar() returns (ok: bool)
      modifies this
      ensures ok == WithEmptyChar(old(characters)).Ok?
      ensures characters == if ok then WithEmptyChar(old(characters)).value else old(characters)
    {
      if 1 !in characters {
        if 0 !in characters {
          return false;
        }
        characters := characters[1 := CharInfo(1, 0, 0, 0, characters[0].image)];
      }
      return true;
    }
  }

  /** A glyph of the current dialogue page: whether it is hidden (not yet
      revealed), and its styles by name. */
  datatype Glyph = Glyph(hidden: bool, styles: map<string, string>)

  /** The glyph carries a style the plugin reacts to. */
  predicate Styled(g: Glyph, name: string)
  {
    !g.hidden && name in g.styles
  }

  /** The glyph once the plugin has handled its style: the style is
      removed from a visible glyph; a hidden one is left as it is. */
  function Unstyled(g: Glyph, name: string): (r: Glyph)
    ensures r.hidden == g.hidden && (g.hidden ==> r == g) && (!g.hidden ==> name !in r.styles)
    ensures forall k :: k in g.styles && k != name ==> k in r.styles && r.styles[k] == g.styles[k]
    ensures !Styled(r, name)
  {
    if Styled(g, name) then g.(styles := g.styles - {name}) else g
  }

  /** The values of the style on the visible glyphs, in page order. */
  function StyleValues(glyphs: seq<Glyph>, name: string): (vs: seq<string>)
    ensures |vs| <= |glyphs|
  {
    if glyphs == [] then []
    else StyleValues(glyphs[..|glyphs| - 1], name) +
         (var g := glyphs[|glyphs| - 1]; if Styled(g, name) then [g.styles[name]] else [])
  }

  /** The style values of a page prefix grow by the next glyph's value
      when that glyph is styled. */
  lemma StyleValuesStep(glyphs: seq<Glyph>, i: nat, name: string)
    requires i < |glyphs|
    ensures StyleValues(glyphs[..i + 1], name) == StyleValues(glyphs[..i], name) + StyleValues([glyphs[i]], name)
    ensures StyleValues([glyphs[i]], name) == (if Styled(glyphs[i], name) then [glyphs[i].styles[name]] else [])
  {
    assert glyphs[..i + 1][..i] == glyphs[..i];
    assert [glyphs[i]][..0] == [];
  }
}
