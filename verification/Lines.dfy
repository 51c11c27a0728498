/** Texts, pieces and lines for the tail reader (internal/input/file/harvester.go). */
module Lines {
  import opened Bytes
  import opened Sequences

  predicate EndsLine(piece: Bytes) {
    piece != [] && piece[|piece| - 1] == LINE_FEED
  }

  /** A piece as ReadString returns it, without its newline. */
  function Chomp(piece: Bytes): Bytes {
    if EndsLine(piece) then piece[..|piece| - 1] else piece
  }

  /** Non-empty, with a newline only at the end: what one ReadString returns. */
  ghost predicate IsPiece(piece: Bytes) {
    piece != [] && LINE_FEED !in piece[..|piece| - 1]
  }

  ghost predicate ArePieces(pieces: seq<Bytes>) {
    forall p :: p in pieces ==> IsPiece(p)
  }

  function Concat(pieces: seq<Bytes>): Bytes {
    if pieces == [] then [] else pieces[0] + Concat(pieces[1..])
  }

  function ChompAll(pieces: seq<Bytes>): seq<Bytes> {
    if pieces == [] then [] else [Chomp(pieces[0])] + ChompAll(pieces[1..])
  }

  function WithoutNewlines(b: Bytes): Bytes {
    if b == [] then [] else (if b[0] == LINE_FEED then [] else [b[0]]) + WithoutNewlines(b[1..])
  }

  /** Index of the first newline, or the length. */
  function FirstNewline(b: Bytes): (i: nat)
    ensures i <= |b| && LINE_FEED !in b[..i]
    ensures i < |b| ==> b[i] == LINE_FEED
  {
    if b == [] || b[0] == LINE_FEED then 0
    else
      var i := 1 + FirstNewline(b[1..]);
      assert b[..i] == [b[0]] + b[1..][..i - 1];
      i
  }

  /** The plain split of a text at its newlines; a last line need not be ended. */
  function SplitLines(b: Bytes): seq<Bytes>
    decreases |b|
  {
    if b == [] then []
    else
      var i := FirstNewline(b);
      if i < |b| then [b[..i]] + SplitLines(b[i + 1..]) else [b]
  }

  // ----- appending a piece -----

  lemma {:induction false} ConcatAppend(pieces: seq<Bytes>, p: Bytes)
    ensures Concat(pieces + [p]) == Concat(pieces) + p
  {
    ConcatConcat(pieces, [p]);
    assert [p][1..] == [];
    EmptyConcat(p);
  }

  lemma {:induction false} ChompAllAppend(pieces: seq<Bytes>, p: Bytes)
    ensures ChompAll(pieces + [p]) == ChompAll(pieces) + [Chomp(p)]
  {
    if pieces == [] {
      assert pieces + [p] == [p] && [p][1..] == [];
    } else {
      ChompAllAppend(pieces[1..], p);
      assert (pieces + [p])[1..] == pieces[1..] + [p];
    }
  }

  lemma {:induction false} ConcatConcat(a: seq<Bytes>, b: seq<Bytes>)
    ensures Concat(a + b) == Concat(a) + Concat(b)
  {
    if a == [] {
      EmptyConcat(b);
      EmptyConcat(Concat(b));
    } else {
      ConcatConcat(a[1..], b);
      TailOfConcat(a, b);
      ConcatAssociates(a[0], Concat(a[1..]), Concat(b));
    }
  }

  // ----- nothing but newlines is lost -----

  lemma {:induction false} WithoutNewlinesConcat(a: Bytes, b: Bytes)
    ensures WithoutNewlines(a + b) == WithoutNewlines(a) + WithoutNewlines(b)
  {
    if a == [] {
      EmptyConcat(b);
      EmptyConcat(WithoutNewlines(b));
    } else {
      WithoutNewlinesConcat(a[1..], b);
      TailOfConcat(a, b);
      ConcatAssociates(if a[0] == LINE_FEED then [] else [a[0]], WithoutNewlines(a[1..]), WithoutNewlines(b));
    }
  }

  lemma {:induction false} NoNewlines(b: Bytes)
    requires LINE_FEED !in b
    ensures WithoutNewlines(b) == b
  {
    if b != [] {
      NoNewlines(b[1..]);
      assert b == [b[0]] + b[1..];
    }
  }

  lemma ChompDropsNewline(p: Bytes)
    requires IsPiece(p)
    ensures WithoutNewlines(p) == Chomp(p)
  {
  }

  /** The delivered lines, put together, are the bytes they came from without the newlines. */
  lemma {:induction false} DeliveredBytes(pieces: seq<Bytes>)
    requires ArePieces(pieces)
    ensures Concat(ChompAll(pieces)) == WithoutNewlines(Concat(pieces))
  {
    if pieces != [] {
      assert forall p :: p in pieces[1..] ==> p in pieces;
      DeliveredBytes(pieces[1..]);
      ChompDropsNewline(pieces[0]);
      WithoutNewlinesConcat(pieces[0], Concat(pieces[1..]));
      assert ([Chomp(pieces[0])] + ChompAll(pieces[1..]))[1..] == ChompAll(pieces[1..]);
    }
  }

  // ----- lines are the plain split exactly when no read ended inside a line -----

  lemma FirstNewlineIs(b: Bytes, i: nat)
    requires i <= |b| && LINE_FEED !in b[..i] && (i < |b| ==> b[i] == LINE_FEED)
    ensures FirstNewline(b) == i
  {
  }

  lemma SplitFirst(p: Bytes, rest: Bytes)
    requires IsPiece(p) && EndsLine(p)
    ensures SplitLines(p + rest) == [Chomp(p)] + SplitLines(rest)
  {
    var b, i := p + rest, |p| - 1;
    assert b[..i] == p[..i] && b[i] == LINE_FEED && b[i + 1..] == rest;
    FirstNewlineIs(b, i);
  }

  lemma SplitOpen(p: Bytes)
    requires IsPiece(p) && !EndsLine(p)
    ensures SplitLines(p) == [p]
  {
  }

  lemma OpenShiftsNewline(p: Bytes, rest: Bytes)
    requires IsPiece(p) && !EndsLine(p)
    ensures FirstNewline(p + rest) == |p| + FirstNewline(rest)
  {
    var b, i := p + rest, FirstNewline(rest);
    assert p == p[..|p| - 1] + [p[|p| - 1]];
    assert LINE_FEED !in p;
    assert b[..|p| + i] == p + rest[..i];
    FirstNewlineIs(b, |p| + i);
  }

  lemma SplitLength(b: Bytes, i: nat)
    requires b != [] && FirstNewline(b) == i
    ensures i <= |b| && |SplitLines(b)| == if i < |b| then 1 + |SplitLines(b[i + 1..])| else 1
  {
    hide FirstNewline;
  }

  lemma DropShifted(p: Bytes, rest: Bytes, k: nat)
    requires k <= |rest|
    ensures (p + rest)[|p| + k..] == rest[k..]
  {
  }

  /** Texts that agree from their first newline on have equally many lines. */
  lemma SameTailLength(b: Bytes, i: nat, c: Bytes, j: nat)
    requires b != [] && c != [] && FirstNewline(b) == i && FirstNewline(c) == j
    requires i < |b| <==> j < |c|
    requires i < |b| ==> b[i + 1..] == c[j + 1..]
    ensures |SplitLines(b)| == |SplitLines(c)|
  {
    hide FirstNewline, SplitLines;
    SplitLength(b, i);
    SplitLength(c, j);
  }

  /** An open piece joins the line that follows it. */
  lemma OpenJoins(p: Bytes, rest: Bytes)
    requires IsPiece(p) && !EndsLine(p) && rest != []
    ensures |SplitLines(p + rest)| == |SplitLines(rest)|
  {
    OpenShiftsNewline(p, rest);
    var i := FirstNewline(rest);
    if i < |rest| {
      DropShifted(p, rest, i + 1);
    }
    hide *;
    SameTailLength(p + rest, |p| + i, rest, i);
  }

  lemma SplitAtMostPieces(pieces: seq<Bytes>)
    requires ArePieces(pieces)
    ensures |SplitLines(Concat(pieces))| <= |pieces|
    decreases |pieces|
  {
    if pieces != [] {
      var p, rest := pieces[0], pieces[1..];
      assert forall x :: x in rest ==> x in pieces;
      SplitAtMostPieces(rest);
      if EndsLine(p) {
        SplitFirst(p, Concat(rest));
      } else if Concat(rest) != [] {
        OpenJoins(p, Concat(rest));
      } else {
        SplitOpen(p);
        assert p + [] == p;
      }
    }
  }

  /** What the plain split is: lines without a newline, each ended by byte 10 but perhaps the last. */
  lemma SplitMeans(line: Bytes, rest: Bytes)
    requires 10 !in line
    ensures SplitLines(line + [10] + rest) == [line] + SplitLines(rest)
    ensures SplitLines(line) == if line == [] then [] else [line]
  {
    assert line + [10] + rest == (line + [10]) + rest && (line + [10])[..|line|] == line;
    SplitFirst(line + [10], rest);
    if line != [] {
      SplitOpen(line);
    }
  }

  /** Only the bytes 10 go, one by one. */
  lemma NewlineIsTen(b: byte)
    ensures WithoutNewlines([b]) == if b == 10 then [] else [b]
  {
    assert [b][1..] == [];
  }

  /** Every piece but the last ends a line: no end of file was met inside a line that went on. */
  ghost predicate OpenOnlyAtEnd(pieces: seq<Bytes>) {
    forall i :: 0 <= i < |pieces| - 1 ==> EndsLine(pieces[i])
  }

  lemma {:induction false} NonEmptyConcat(pieces: seq<Bytes>)
    requires ArePieces(pieces) && pieces != []
    ensures Concat(pieces) != []
  {
    assert pieces[0] in pieces;
  }

  lemma LinesAreSplitIff(pieces: seq<Bytes>)
    requires ArePieces(pieces)
    ensures ChompAll(pieces) == SplitLines(Concat(pieces)) <==> OpenOnlyAtEnd(pieces)
    decreases |pieces|
  {
    if |pieces| == 1 {
      var p := pieces[0];
      assert p in pieces && pieces[1..] == [] && p + [] == p;
      if EndsLine(p) { SplitFirst(p, []); } else { SplitOpen(p); }
    } else if |pieces| > 1 {
      var p, rest := pieces[0], pieces[1..];
      assert p in pieces && forall x :: x in rest ==> x in pieces;
      LinesAreSplitIff(rest);
      NonEmptyConcat(rest);
      if EndsLine(p) {
        SplitFirst(p, Concat(rest));
        assert OpenOnlyAtEnd(pieces) <==> OpenOnlyAtEnd(rest) by { OpenOnlyAtEndTail(pieces); }
        assert ([Chomp(p)] + ChompAll(rest))[1..] == ChompAll(rest);
        assert ([Chomp(p)] + SplitLines(Concat(rest)))[1..] == SplitLines(Concat(rest));
      } else {
        OpenJoins(p, Concat(rest));
        SplitAtMostPieces(rest);
        ChompAllLength(pieces);
        assert !OpenOnlyAtEnd(pieces);
      }
    }
  }

  lemma OpenOnlyAtEndTail(pieces: seq<Bytes>)
    requires |pieces| > 1 && EndsLine(pieces[0])
    ensures OpenOnlyAtEnd(pieces) <==> OpenOnlyAtEnd(pieces[1..])
  {
  }

  lemma {:induction false} ChompAllLength(pieces: seq<Bytes>)
    ensures |ChompAll(pieces)| == |pieces|
  {
    if pieces != [] {
      ChompAllLength(pieces[1..]);
    }
  }
}
