/** Python's `str` and the two string operations the gateway's checks lean on.
    A text is a sequence of code points, so it can hold the lone surrogates that a JSON
    escape can produce and that UTF-8 cannot encode. */
module Texts {
  datatype Option<+T> = None | Some(value: T)

  type CodePoint = c: int | 0 <= c < 0x11_0000
  type Text = seq<CodePoint>

  const SPACE: CodePoint := 0x20
  const QUOTE: CodePoint := 0x22
  const DOT: CodePoint := 0x2E
  const SLASH: CodePoint := 0x2F
  const BACKSLASH: CodePoint := 0x5C

  function Lit(s: string): Text {
    seq(|s|, i requires 0 <= i < |s| => s[i] as CodePoint)
  }

  /** Encoding as UTF-8 raises exactly on a surrogate code point. */
  predicate Encodable(t: Text) {
    forall i | 0 <= i < |t| :: !(0xD800 <= t[i] <= 0xDFFF)
  }

  /** `str.split` at a one-character separator: empty pieces are kept. */
  function Split(t: Text, sep: CodePoint): (parts: seq<Text>)
    ensures |parts| >= 1
  {
    if t == [] then [[]]
    else
      var tail := Split(t[1..], sep);
      if t[0] == sep then [[]] + tail else [[t[0]] + tail[0]] + tail[1..]
  }

  /** `str.join` */
  function Join(parts: seq<Text>, sep: CodePoint): Text {
    if |parts| == 0 then []
    else if |parts| == 1 then parts[0]
    else parts[0] + [sep] + Join(parts[1..], sep)
  }

  ghost predicate Free(parts: seq<Text>, sep: CodePoint) {
    forall i | 0 <= i < |parts| :: sep !in parts[i]
  }

  lemma {:induction false} SplitIsFree(t: Text, sep: CodePoint)
    ensures Free(Split(t, sep), sep)
  {
    if t != [] {
      SplitIsFree(t[1..], sep);
    }
  }

  lemma JoinStep(head: Text, parts: seq<Text>, sep: CodePoint)
    requires |parts| >= 1
    ensures Join([head] + parts, sep) == head + [sep] + Join(parts, sep)
  {
    assert ([head] + parts)[1..] == parts;
  }

  lemma JoinPrepend(c: CodePoint, parts: seq<Text>, sep: CodePoint)
    requires |parts| >= 1
    ensures Join([[c] + parts[0]] + parts[1..], sep) == [c] + Join(parts, sep)
  {
    var more := [[c] + parts[0]] + parts[1..];
    assert more[1..] == parts[1..];
    if |parts| > 1 {
      assert [c] + parts[0] + [sep] + Join(parts[1..], sep) == [c] + (parts[0] + [sep] + Join(parts[1..], sep));
    }
  }

  /** Joining what a split produced gives the text back. */
  lemma {:induction false} JoinOfSplit(t: Text, sep: CodePoint)
    ensures Join(Split(t, sep), sep) == t
  {
    if t != [] {
      var tail := Split(t[1..], sep);
      JoinOfSplit(t[1..], sep);
      if t[0] == sep {
        JoinStep([], tail, sep);
      } else {
        JoinPrepend(t[0], tail, sep);
      }
    }
  }

  lemma {:induction false} SplitOfFree(t: Text, sep: CodePoint)
    requires sep !in t
    ensures Split(t, sep) == [t]
  {
    if t != [] {
      SplitOfFree(t[1..], sep);
      assert [t[0]] + t[1..] == t;
    }
  }

  lemma {:induction false} SplitOfJoinStep(head: Text, rest: Text, sep: CodePoint)
    requires sep !in head
    ensures Split(head + [sep] + rest, sep) == [head] + Split(rest, sep)
  {
    var t := head + [sep] + rest;
    if head == [] {
      assert t[1..] == rest;
    } else {
      assert t[1..] == head[1..] + [sep] + rest;
      SplitOfJoinStep(head[1..], rest, sep);
      assert [head[0]] + head[1..] == head;
    }
  }

  /** Splitting what a join produced gives the pieces back, if there was at least one and
      none of them holds the separator. */
  lemma {:induction false} SplitOfJoin(parts: seq<Text>, sep: CodePoint)
    requires |parts| >= 1 && Free(parts, sep)
    ensures Split(Join(parts, sep), sep) == parts
  {
    if |parts| == 1 {
      SplitOfFree(parts[0], sep);
    } else {
      SplitOfJoin(parts[1..], sep);
      SplitOfJoinStep(parts[0], Join(parts[1..], sep), sep);
    }
  }

  /** t[a..b] is a piece between separators, or between one and an end of the text. */
  ghost predicate PieceAt(t: Text, sep: CodePoint, piece: Text, a: int, b: int) {
    0 <= a <= b <= |t| && t[a..b] == piece && sep !in piece &&
    (a == 0 || t[a - 1] == sep) && (b == |t| || t[b] == sep)
  }

  ghost predicate Piece(t: Text, sep: CodePoint, piece: Text) {
    exists a, b :: PieceAt(t, sep, piece, a, b)
  }

  ghost predicate FirstPiece(t: Text, sep: CodePoint, piece: Text) {
    exists b :: PieceAt(t, sep, piece, 0, b)
  }

  ghost predicate LaterPiece(t: Text, sep: CodePoint, piece: Text) {
    exists a, b :: a > 0 && PieceAt(t, sep, piece, a, b)
  }

  lemma PieceShift(t: Text, sep: CodePoint, piece: Text, a: int, b: int)
    requires t != [] && a > 0
    ensures PieceAt(t, sep, piece, a, b) <==>
            PieceAt(t[1..], sep, piece, a - 1, b - 1) && (a == 1 ==> t[0] == sep)
  {
    if 0 < a <= b <= |t| {
      assert t[1..][a - 1..b - 1] == t[a..b];
    }
  }

  lemma LaterPieces(t: Text, sep: CodePoint, piece: Text)
    requires t != []
    ensures LaterPiece(t, sep, piece) <==>
            LaterPiece(t[1..], sep, piece) || (t[0] == sep && FirstPiece(t[1..], sep, piece))
  {
    if a, b :| a > 0 && PieceAt(t, sep, piece, a, b) {
      PieceShift(t, sep, piece, a, b);
    }
    if a, b :| a > 0 && PieceAt(t[1..], sep, piece, a, b) {
      PieceShift(t, sep, piece, a + 1, b + 1);
    }
    if b :| t[0] == sep && PieceAt(t[1..], sep, piece, 0, b) {
      PieceShift(t, sep, piece, 1, b + 1);
    }
  }

  lemma SeparatorEnds(t: Text, sep: CodePoint, piece: Text, b: int)
    requires t == [] || t[0] == sep
    ensures PieceAt(t, sep, piece, 0, b) ==> b == 0
  {
    if 0 < b <= |t| {
      assert t[0..b][0] == sep;
    }
  }

  lemma EmptyFirstPiece(t: Text, sep: CodePoint, piece: Text)
    requires t == [] || t[0] == sep
    ensures FirstPiece(t, sep, piece) <==> piece == []
  {
    if piece == [] {
      assert PieceAt(t, sep, piece, 0, 0);
    }
    if b :| PieceAt(t, sep, piece, 0, b) {
      SeparatorEnds(t, sep, piece, b);
    }
  }

  lemma PieceExtend(t: Text, sep: CodePoint, piece: Text, b: int)
    requires t != [] && t[0] != sep
    ensures PieceAt(t, sep, [t[0]] + piece, 0, b) <==> PieceAt(t[1..], sep, piece, 0, b - 1)
  {
    if 1 <= b <= |t| {
      assert t[0..b] == [t[0]] + t[1..][0..b - 1];
      assert ([t[0]] + piece)[1..] == piece;
      assert ([t[0]] + t[1..][0..b - 1])[1..] == t[1..][0..b - 1];
    }
  }

  lemma LongerFirstPiece(t: Text, sep: CodePoint, piece: Text)
    requires t != [] && t[0] != sep
    ensures FirstPiece(t, sep, [t[0]] + piece) <==> FirstPiece(t[1..], sep, piece)
    ensures FirstPiece(t, sep, piece) ==> piece != [] && piece[0] == t[0]
  {
    if b :| PieceAt(t, sep, [t[0]] + piece, 0, b) {
      PieceExtend(t, sep, piece, b);
    }
    if b :| PieceAt(t[1..], sep, piece, 0, b) {
      PieceExtend(t, sep, piece, b + 1);
    }
  }

  /** The first part of a split is the piece at the start of the text, and the others are
      the pieces after it. */
  lemma {:induction false} SplitPieces(t: Text, sep: CodePoint, piece: Text)
    ensures piece == Split(t, sep)[0] <==> FirstPiece(t, sep, piece)
    ensures piece in Split(t, sep)[1..] <==> LaterPiece(t, sep, piece)
  {
    if t == [] {
      EmptyFirstPiece(t, sep, piece);
    } else {
      var tail := Split(t[1..], sep);
      LaterPieces(t, sep, piece);
      SplitPieces(t[1..], sep, piece);
      if t[0] == sep {
        EmptyFirstPiece(t, sep, piece);
        assert Split(t, sep)[1..] == tail;
        assert tail == [tail[0]] + tail[1..];
      } else {
        assert Split(t, sep)[1..] == tail[1..];
        if piece != [] && piece[0] == t[0] {
          SplitPieces(t[1..], sep, piece[1..]);
          assert piece == [t[0]] + piece[1..];
          LongerFirstPiece(t, sep, piece[1..]);
        } else {
          LongerFirstPiece(t, sep, piece);
        }
      }
    }
  }

  /** The parts of a split are exactly the pieces of the text. */
  lemma SplitIsPieces(t: Text, sep: CodePoint, piece: Text)
    ensures piece in Split(t, sep) <==> Piece(t, sep, piece)
  {
    var parts := Split(t, sep);
    SplitPieces(t, sep, piece);
    assert parts == [parts[0]] + parts[1..];
    if a, b :| PieceAt(t, sep, piece, a, b) {
      assert a == 0 || a > 0;
    }
  }
}
