/**
  `ReverseStr2(s).reverse()`: split the text on single spaces, reverse the list of pieces
  and join them again with single spaces. Splitting keeps empty pieces (two spaces in a
  row, a leading or a trailing space), so the words and the exact spacing both survive.
 */
module ReverseWords {
  /** `s.split(" ")`: the runs between single spaces, empty ones included. */
  function Split(s: string): (pieces: seq<string>)
    ensures |pieces| == 1 + |s| - |NonSpaces(s)|
    ensures forall i :: 0 <= i < |pieces| ==> ' ' !in pieces[i]
    decreases |s|
  {
    if s == [] then [""]
    else if s[0] == ' ' then [""] + Split(s[1..])
    else
      var rest := Split(s[1..]);
      [[s[0]] + rest[0]] + rest[1..]
  }

  /** The characters of `s` that are not spaces. */
  function NonSpaces(s: string): (r: string)
    ensures |r| <= |s|
    ensures ' ' !in r
    decreases |s|
  {
    if s == [] then [] else (if s[0] == ' ' then [] else [s[0]]) + NonSpaces(s[1..])
  }

  /** `" ".join(pieces)`: the pieces with one space between neighbours. */
  function Join(pieces: seq<string>): (s: string)
    requires |pieces| >= 1
    ensures |s| == TotalLength(pieces) + |pieces| - 1
    decreases |pieces|
  {
    if |pieces| == 1 then pieces[0] else pieces[0] + " " + Join(pieces[1..])
  }

  /** The summed lengths of the pieces. */
  function TotalLength(pieces: seq<string>): (r: nat)
    decreases |pieces|
  {
    if pieces == [] then 0 else |pieces[0]| + TotalLength(pieces[1..])
  }

  /** `lst[::-1]`. */
  function Reversed(xs: seq<string>): (r: seq<string>)
    ensures |r| == |xs|
    ensures forall i :: 0 <= i < |xs| ==> r[i] == xs[|xs| - 1 - i]
  {
    seq(|xs|, i requires 0 <= i < |xs| => xs[|xs| - 1 - i])
  }

  /**
    `ReverseStr2(s).reverse()`: the pieces of the result are the pieces of `s` in reverse
    order, and the result is exactly as long as `s`.
   */
  function Reverse(s: string): (r: string)
    ensures Split(r) == Reversed(Split(s))
    ensures |r| == |s|
  {
    SplitJoin(Reversed(Split(s)));
    TotalLengthReversed(Split(s));
    JoinSplit(s);
    Join(Reversed(Split(s)))
  }

  /** Joining the pieces of a split gives back the text. */
  lemma {:induction false} JoinSplit(s: string)
    ensures Join(Split(s)) == s
    decreases |s|
  {
    if s != [] {
      JoinSplit(s[1..]);
      var rest := Split(s[1..]);
      if s[0] == ' ' {
        assert ([""] + rest)[1..] == rest;
      } else {
        var pieces := [[s[0]] + rest[0]] + rest[1..];
        if |rest| > 1 {
          assert pieces[1..] == rest[1..];
          assert Join(rest) == rest[0] + " " + Join(rest[1..]);
        }
      }
    }
  }

  /** A text without spaces splits into itself alone. */
  lemma {:induction false} SplitSpaceless(s: string)
    requires ' ' !in s
    ensures Split(s) == [s]
    decreases |s|
  {
    if s != [] {
      assert s[0] != ' ' && ' ' !in s[1..];
      SplitSpaceless(s[1..]);
      assert [s[0]] + s[1..] == s;
    }
  }

  /** Splitting a spaceless piece, a space and the rest: the piece, then the pieces of the rest. */
  lemma {:induction false} SplitAfterPiece(a: string, b: string)
    requires ' ' !in a
    ensures Split(a + " " + b) == [a] + Split(b)
    decreases |a|
  {
    if a == [] {
      assert a + " " + b == [' '] + b;
      assert (a + " " + b)[1..] == b;
    } else {
      assert a[0] != ' ' && ' ' !in a[1..];
      SplitAfterPiece(a[1..], b);
      assert (a + " " + b)[1..] == a[1..] + " " + b;
      assert [a[0]] + a[1..] == a;
    }
  }

  /** Splitting a join of spaceless pieces gives the pieces back. */
  lemma {:induction false} SplitJoin(pieces: seq<string>)
    requires |pieces| >= 1
    requires forall i :: 0 <= i < |pieces| ==> ' ' !in pieces[i]
    ensures Split(Join(pieces)) == pieces
    decreases |pieces|
  {
    if |pieces| == 1 {
      SplitSpaceless(pieces[0]);
    } else {
      SplitJoin(pieces[1..]);
      SplitAfterPiece(pieces[0], Join(pieces[1..]));
      assert [pieces[0]] + pieces[1..] == pieces;
    }
  }

  /** The pieces of the result are the pieces of the input in reverse order, each intact. */
  lemma ReversePieces(s: string)
    ensures Split(Reverse(s)) == Reversed(Split(s))
  {
    SplitJoin(Reversed(Split(s)));
  }

  /** Reversing twice gives back the original text. */
  lemma ReverseInvolution(s: string)
    ensures Reverse(Reverse(s)) == s
  {
    ReversePieces(s);
    assert Reversed(Reversed(Split(s))) == Split(s);
    JoinSplit(s);
  }

  lemma {:induction false} TotalLengthAppend(xs: seq<string>, ys: seq<string>)
    ensures TotalLength(xs + ys) == TotalLength(xs) + TotalLength(ys)
    decreases |xs|
  {
    if xs == [] {
      assert xs + ys == ys;
    } else {
      TotalLengthAppend(xs[1..], ys);
      assert (xs + ys)[0] == xs[0] && (xs + ys)[1..] == xs[1..] + ys;
    }
  }

  lemma {:induction false} TotalLengthReversed(xs: seq<string>)
    ensures TotalLength(Reversed(xs)) == TotalLength(xs)
    decreases |xs|
  {
    if xs != [] {
      var n := |xs| - 1;
      TotalLengthReversed(xs[..n]);
      assert Reversed(xs)[1..] == Reversed(xs[..n]);
      assert xs == xs[..n] + [xs[n]];
      TotalLengthAppend(xs[..n], [xs[n]]);
      assert TotalLength([xs[n]]) == |xs[n]|;
    }
  }

  /** The result is exactly as long as the input. */
  lemma ReverseLength(s: string)
    ensures |Reverse(s)| == |s|
  {
    TotalLengthReversed(Split(s));
    JoinSplit(s);
  }

  /** A text with no space comes back unchanged. */
  lemma ReverseSpaceless(s: string)
    requires ' ' !in s
    ensures Reverse(s) == s
  {
    SplitSpaceless(s);
  }

  /** Two words swap places. */
  lemma ReverseTwoWords()
    ensures Reverse("ab cd") == "cd ab"
  {
    assert "ab cd" == "ab" + " " + "cd";
    SplitAfterPiece("ab", "cd");
    SplitSpaceless("cd");
    var r := Reversed(["ab", "cd"]);
    assert r == ["cd", "ab"];
    assert Join(r) == "cd" + " " + "ab";
  }

  /** A leading space is an empty first piece, so it comes back as a trailing space. */
  lemma ReverseLeadingSpace()
    ensures Reverse(" a") == "a "
  {
    assert " a" == "" + " " + "a";
    SplitAfterPiece("", "a");
    SplitSpaceless("a");
    var q := Reversed(["", "a"]);
    assert q == ["a", ""];
    assert Join(q) == "a" + " " + "";
  }
}
