/**
 * Splitting text on a separator character, in the two flavours the system uses:
 * JavaScript's `String.prototype.split`, which keeps empty pieces, and Swift's
 * `split(separator:)`, which by default omits them.
 */
module Text {
  import opened Common

  /** Every piece between separators, empty pieces included (JavaScript `split`). */
  function SplitAll(s: string, sep: char): (r: seq<string>)
    ensures |r| >= 1
  {
    if |s| == 0 then [""]
    else
      var rest := SplitAll(s[1..], sep);
      if s[0] == sep then [""] + rest
      else [[s[0]] + rest[0]] + rest[1..]
  }

  /** The pieces of `xs` that are not empty, in order. */
  function NonEmpty(xs: seq<string>): (r: seq<string>)
    ensures |r| <= |xs|
    ensures forall i :: 0 <= i < |r| ==> r[i] != ""
  {
    if |xs| == 0 then []
    else if xs[0] == "" then NonEmpty(xs[1..])
    else [xs[0]] + NonEmpty(xs[1..])
  }

  /** Swift's `split(separator:)` with its default of omitting empty pieces. */
  function SplitOmittingEmpty(s: string, sep: char): seq<string> {
    NonEmpty(SplitAll(s, sep))
  }

  /** A piece that contains no separator splits to itself. */
  lemma {:induction false} SplitAllAvoiding(a: string, sep: char)
    requires Avoids(a, sep)
    ensures SplitAll(a, sep) == [a]
  {
    if |a| > 0 {
      SplitAllAvoiding(a[1..], sep);
      assert [a[0]] + a[1..] == a;
    }
  }

  /** Splitting `a + sep + b` yields `a` followed by the pieces of `b`. */
  lemma {:induction false} SplitAllAfterPiece(a: string, sep: char, b: string)
    requires Avoids(a, sep)
    ensures SplitAll(a + [sep] + b, sep) == [a] + SplitAll(b, sep)
  {
    if |a| == 0 {
      assert a + [sep] + b == [sep] + b;
      assert ([sep] + b)[1..] == b;
    } else {
      var s := a + [sep] + b;
      assert s[0] == a[0];
      assert s[1..] == a[1..] + [sep] + b;
      SplitAllAfterPiece(a[1..], sep, b);
      assert [a[0]] + a[1..] == a;
    }
  }

  /** Splitting a joined list gives the list back when no piece contains the separator. */
  lemma {:induction false} SplitJoin(xs: seq<string>, sep: char)
    requires |xs| >= 1
    requires forall i :: 0 <= i < |xs| ==> Avoids(xs[i], sep)
    ensures SplitAll(Join(xs, sep), sep) == xs
  {
    if |xs| == 1 {
      SplitAllAvoiding(xs[0], sep);
    } else {
      SplitJoin(xs[1..], sep);
      SplitAllAfterPiece(xs[0], sep, Join(xs[1..], sep));
      assert [xs[0]] + xs[1..] == xs;
    }
  }

  /** Dropping empty pieces changes nothing when there are none. */
  lemma {:induction false} NonEmptyKeepsFull(xs: seq<string>)
    requires forall i :: 0 <= i < |xs| ==> xs[i] != ""
    ensures NonEmpty(xs) == xs
  {
    if |xs| > 0 {
      NonEmptyKeepsFull(xs[1..]);
      assert [xs[0]] + xs[1..] == xs;
    }
  }

  /** No piece of a split contains the separator. */
  lemma {:induction false} SplitPiecesAvoid(s: string, sep: char)
    ensures forall i :: 0 <= i < |SplitAll(s, sep)| ==> Avoids(SplitAll(s, sep)[i], sep)
  {
    if |s| > 0 {
      SplitPiecesAvoid(s[1..], sep);
    }
  }

  /** Dropping empty pieces keeps only pieces of the input. */
  lemma {:induction false} NonEmptyKeepsAvoiding(xs: seq<string>, sep: char)
    requires forall i :: 0 <= i < |xs| ==> Avoids(xs[i], sep)
    ensures forall i :: 0 <= i < |NonEmpty(xs)| ==> Avoids(NonEmpty(xs)[i], sep)
  {
    if |xs| > 0 {
      NonEmptyKeepsAvoiding(xs[1..], sep);
    }
  }
}
