/**
 * `String.prototype.split` with a string separator and no limit, and
 * `Array.prototype.join` over an array of strings, as ECMAScript defines them.
 */
module JsString {

  /**
   * `s.split(sep)` for a non-empty separator: the separator is searched for from
   * left to right, each occurrence ends the current piece and is skipped, and the
   * text after the last occurrence is the final piece. In particular
   * `"".split(sep)` is `[""]`: the result is never empty.
   */
  function Split(s: string, sep: string): (pieces: seq<string>)
    requires |sep| > 0
    ensures |pieces| >= 1
  {
    SplitFrom(s, sep, "")
  }

  /** The pieces of `piece + s`, where `piece` is the current piece read so far and holds no match. */
  function SplitFrom(s: string, sep: string, piece: string): (pieces: seq<string>)
    requires |sep| > 0
    ensures |pieces| >= 1
    decreases |s|
  {
    if |s| == 0 then [piece]
    else if sep <= s then [piece] + SplitFrom(s[|sep|..], sep, "")
    else SplitFrom(s[1..], sep, piece + [s[0]])
  }

  /** `pieces.join(sep)`: the pieces with `sep` between each two neighbours; `[].join(sep)` is `""`. */
  function Join(pieces: seq<string>, sep: string): (s: string)
    ensures |pieces| == 0 ==> s == ""
    ensures |pieces| == 1 ==> s == pieces[0]
  {
    if |pieces| == 0 then ""
    else if |pieces| == 1 then pieces[0]
    else pieces[0] + sep + Join(pieces[1..], sep)
  }

  /** Joining the pieces of a split with the same separator gives back the original string. */
  lemma {:induction false} JoinSplit(s: string, sep: string)
    requires |sep| > 0
    ensures Join(Split(s, sep), sep) == s
  {
    JoinSplitFrom(s, sep, "");
  }

  lemma {:induction false} JoinSplitFrom(s: string, sep: string, piece: string)
    requires |sep| > 0
    ensures Join(SplitFrom(s, sep, piece), sep) == piece + s
    decreases |s|
  {
    if |s| == 0 {
    } else if sep <= s {
      var rest := SplitFrom(s[|sep|..], sep, "");
      JoinSplitFrom(s[|sep|..], sep, "");
      assert ([piece] + rest)[1..] == rest;
      assert s == sep + s[|sep|..];
    } else {
      JoinSplitFrom(s[1..], sep, piece + [s[0]]);
      assert piece + [s[0]] + s[1..] == piece + s;
    }
  }

  /** Appending one piece to a non-empty array adds the separator and that piece to its join. */
  lemma {:induction false} JoinAppend(pieces: seq<string>, x: string, sep: string)
    requires |pieces| > 0
    ensures Join(pieces + [x], sep) == Join(pieces, sep) + sep + x
    decreases |pieces|
  {
    if |pieces| == 1 {
      assert pieces + [x] == [pieces[0], x];
    } else {
      assert (pieces + [x])[1..] == pieces[1..] + [x];
      JoinAppend(pieces[1..], x, sep);
    }
  }

  /**
   * Text that does not contain the first character of the separator never holds
   * a match, so it only extends the current piece.
   */
  lemma {:induction false} SplitFromSkips(s: string, t: string, sep: string, piece: string)
    requires |sep| > 0 && sep[0] !in s
    ensures SplitFrom(s + t, sep, piece) == SplitFrom(t, sep, piece + s)
    decreases |s|
  {
    if |s| == 0 {
      assert s + t == t;
      assert piece + s == piece;
    } else {
      assert (s + t)[0] == s[0] && !(sep <= s + t);
      assert (s + t)[1..] == s[1..] + t;
      SplitFromSkips(s[1..], t, sep, piece + [s[0]]);
      assert piece + [s[0]] + s[1..] == piece + s;
    }
  }

  /** A string without the separator's first character splits into itself alone. */
  lemma {:induction false} SplitWithoutSeparator(s: string, sep: string)
    requires |sep| > 0 && sep[0] !in s
    ensures Split(s, sep) == [s]
  {
    SplitFromSkips(s, "", sep, "");
    assert s + "" == s && "" + s == s;
  }

  /** No piece produced by splitting on a one-character separator contains that character. */
  lemma {:induction false} SplitFromLacksSeparator(s: string, c: char, piece: string)
    requires c !in piece
    ensures forall p :: p in SplitFrom(s, [c], piece) ==> c !in p
    decreases |s|
  {
    if |s| == 0 {
    } else if [c] <= s {
      SplitFromLacksSeparator(s[1..], c, "");
    } else {
      assert s[0] != c;
      SplitFromLacksSeparator(s[1..], c, piece + [s[0]]);
    }
  }

  lemma {:induction false} SplitLacksSeparator(s: string, c: char)
    ensures forall p :: p in Split(s, [c]) ==> c !in p
  {
    SplitFromLacksSeparator(s, c, "");
  }

  /** Splitting on a one-character separator distributes over an occurrence of that character. */
  lemma {:induction false} SplitFromConcat(a: string, b: string, c: char, piece: string)
    ensures SplitFrom(a + [c] + b, [c], piece) == SplitFrom(a, [c], piece) + Split(b, [c])
    decreases |a|
  {
    if |a| == 0 {
      assert a + [c] + b == [c] + b;
      assert ([c] + b)[1..] == b;
    } else if a[0] == c {
      assert [c] <= a + [c] + b && [c] <= a;
      assert (a + [c] + b)[1..] == a[1..] + [c] + b;
      SplitFromConcat(a[1..], b, c, "");
    } else {
      assert !([c] <= a + [c] + b) && !([c] <= a);
      assert (a + [c] + b)[1..] == a[1..] + [c] + b;
      SplitFromConcat(a[1..], b, c, piece + [a[0]]);
    }
  }

  lemma {:induction false} SplitConcat(a: string, b: string, c: char)
    ensures Split(a + [c] + b, [c]) == Split(a, [c]) + Split(b, [c])
  {
    SplitFromConcat(a, b, c, "");
  }

  /**
   * Splitting the join of a non-empty array whose pieces do not contain the
   * one-character separator gives back exactly that array.
   */
  lemma {:induction false} SplitJoin(pieces: seq<string>, c: char)
    requires |pieces| > 0
    requires forall p :: p in pieces ==> c !in p
    ensures Split(Join(pieces, [c]), [c]) == pieces
    decreases |pieces|
  {
    if |pieces| == 1 {
      SplitWithoutSeparator(pieces[0], [c]);
    } else {
      assert pieces[0] in pieces;
      assert forall p :: p in pieces[1..] ==> p in pieces;
      SplitJoin(pieces[1..], c);
      SplitConcat(pieces[0], Join(pieces[1..], [c]), c);
      SplitWithoutSeparator(pieces[0], [c]);
      assert pieces == [pieces[0]] + pieces[1..];
    }
  }
}
