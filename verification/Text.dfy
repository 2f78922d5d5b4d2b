/**
 String building blocks used by the page renderer: plain concatenation of a
 sequence of pieces (the `"".join(...)` idiom) and joining with a separator
 (the `sep.join(...)` idiom). Both are left folds, matching how the renderer
 grows its output with `+=`.
 */
module Text {

  /** The concatenation of all pieces, in order. */
  function Concat(parts: seq<string>): string
  {
    if |parts| == 0 then "" else Concat(parts[..|parts| - 1]) + parts[|parts| - 1]
  }

  /** Total length of all pieces. */
  function TotalLength(parts: seq<string>): nat
  {
    if |parts| == 0 then 0 else TotalLength(parts[..|parts| - 1]) + |parts[|parts| - 1]|
  }

  /** The pieces joined with `sep` between neighbours, and nowhere else. */
  function Join(xs: seq<string>, sep: string): string
  {
    if |xs| == 0 then ""
    else if |xs| == 1 then xs[0]
    else Join(xs[..|xs| - 1], sep) + sep + xs[|xs| - 1]
  }

  /** Each piece with `sep` put in front of it. */
  function Prefixed(xs: seq<string>, sep: string): seq<string>
  {
    seq(|xs|, i requires 0 <= i < |xs| => sep + xs[i])
  }

  /** Appending one piece appends exactly that piece to the concatenation. */
  lemma ConcatSnoc(parts: seq<string>, p: string)
    ensures Concat(parts + [p]) == Concat(parts) + p
  {
    assert (parts + [p])[..|parts|] == parts;
  }

  /** Concatenation distributes over sequence append. */
  lemma {:induction false} ConcatAppend(a: seq<string>, b: seq<string>)
    ensures Concat(a + b) == Concat(a) + Concat(b)
    decreases |b|
  {
    if |b| == 0 {
      assert a + b == a;
    } else {
      var b' := b[..|b| - 1];
      var last := b[|b| - 1];
      assert b == b' + [last];
      assert a + b == (a + b') + [last];
      ConcatAppend(a, b');
      ConcatSnoc(a + b', last);
      ConcatSnoc(b', last);
    }
  }

  /** The length of a concatenation is the sum of the pieces' lengths. */
  lemma {:induction false} ConcatLength(parts: seq<string>)
    ensures |Concat(parts)| == TotalLength(parts)
  {
    if |parts| > 0 {
      ConcatLength(parts[..|parts| - 1]);
    }
  }

  /**
   Piece `i` sits in the concatenation right after the pieces before it:
   the pieces keep their order and are neither altered nor interleaved.
   */
  lemma PieceAt(parts: seq<string>, i: nat)
    requires i < |parts|
    ensures |Concat(parts[..i])| + |parts[i]| <= |Concat(parts)|
    ensures Concat(parts)[|Concat(parts[..i])|..|Concat(parts[..i])| + |parts[i]|] == parts[i]
  {
    assert parts == parts[..i] + ([parts[i]] + parts[i + 1..]);
    ConcatAppend(parts[..i], [parts[i]] + parts[i + 1..]);
    ConcatAppend([parts[i]], parts[i + 1..]);
    assert Concat([parts[i]]) == parts[i] by {
      assert [parts[i]][..0] == [];
    }
  }

  /** The same holds after any fixed prefix: piece `i` follows the prefix and the pieces before it. */
  lemma PieceAtAfter(prefix: string, parts: seq<string>, i: nat)
    requires i < |parts|
    ensures var start := |prefix| + |Concat(parts[..i])|;
      var whole := prefix + Concat(parts);
      start + |parts[i]| <= |whole| && whole[start..start + |parts[i]|] == parts[i]
  {
    PieceAt(parts, i);
    var body := Concat(parts);
    var start := |Concat(parts[..i])|;
    assert (prefix + body)[|prefix| + start..|prefix| + start + |parts[i]|] == body[start..start + |parts[i]|];
  }

  /** Joining nothing gives the empty string. */
  lemma JoinEmpty(sep: string)
    ensures Join([], sep) == ""
  {
  }

  /** A single piece is joined without any separator. */
  lemma JoinSingle(x: string, sep: string)
    ensures Join([x], sep) == x
  {
  }

  /** Appending a piece to a non-empty join adds one separator and the piece. */
  lemma JoinSnoc(xs: seq<string>, x: string, sep: string)
    requires |xs| > 0
    ensures Join(xs + [x], sep) == Join(xs, sep) + sep + x
  {
    assert (xs + [x])[..|xs|] == xs;
  }

  /**
   Reference reading of a join: the first piece, then every later piece with
   the separator in front of it. Hence no separator leads or trails.
   */
  lemma {:induction false} JoinIsFirstThenPrefixed(xs: seq<string>, sep: string)
    requires |xs| > 0
    ensures Join(xs, sep) == xs[0] + Concat(Prefixed(xs[1..], sep))
  {
    if |xs| == 1 {
      assert Prefixed(xs[1..], sep) == [];
    } else {
      var init := xs[..|xs| - 1];
      var last := xs[|xs| - 1];
      JoinIsFirstThenPrefixed(init, sep);
      assert init[0] == xs[0];
      assert Prefixed(xs[1..], sep) == Prefixed(init[1..], sep) + [sep + last];
      ConcatSnoc(Prefixed(init[1..], sep), sep + last);
    }
  }

  /** A non-empty join starts with its first piece and ends with its last one. */
  lemma JoinEnds(xs: seq<string>, sep: string)
    requires |xs| > 0
    ensures xs[0] <= Join(xs, sep)
    ensures var j := Join(xs, sep); |xs[|xs| - 1]| <= |j| && j[|j| - |xs[|xs| - 1]|..] == xs[|xs| - 1]
  {
    JoinIsFirstThenPrefixed(xs, sep);
  }

  /** A join is as long as its pieces plus one separator between each neighbouring pair. */
  lemma {:induction false} JoinLength(xs: seq<string>, sep: string)
    requires |xs| > 0
    ensures |Join(xs, sep)| == TotalLength(xs) + (|xs| - 1) * |sep|
  {
    if |xs| > 1 {
      var init := xs[..|xs| - 1];
      JoinLength(init, sep);
      var k := |init| - 1;
      assert (k + 1) * |sep| == k * |sep| + |sep|;
    }
  }
}
