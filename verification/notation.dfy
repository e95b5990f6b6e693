/** The move notation written into the history log (`getNotation`).

    The text is: no letter for a pawn, otherwise the upper-cased first letter of the type name
    (so a knight and a king both write `K`); then `x` for a capture; then the file as a letter;
    then the rank counted from 1. A file outside 0..7 indexes past the end of the letter table and
    JavaScript writes the text "undefined" in its place; the rank is printed as a decimal integer
    whatever its value. */
module Notation {
  import opened Types

  /** `toUpperCase` on the characters that occur in type names. */
  function ToUpper(c: char): char {
    if 'a' <= c <= 'z' then (c as int - 32) as char else c
  }

  function PieceLetter(kind: PieceType): string {
    if kind == Pawn then "" else [ToUpper(TypeName(kind)[0])]
  }

  const FileLetters: string := "abcdefgh"

  /** `files[f]` placed in a template string. */
  function FileText(f: int): string {
    if 0 <= f < |FileLetters| then [FileLetters[f]] else "undefined"
  }

  predicate IsDigit(c: char) {
    '0' <= c <= '9'
  }

  function Digit(d: int): (c: char)
    requires 0 <= d <= 9
    ensures IsDigit(c)
  {
    ('0' as int + d) as char
  }

  /** The decimal text of a natural number, as JavaScript prints an integer. */
  function NatToDecimal(n: nat): (s: string)
    ensures 1 <= |s|
    ensures forall i | 0 <= i < |s| :: IsDigit(s[i])
    ensures |s| > 1 ==> s[0] != '0'
    decreases n
  {
    if n < 10 then [Digit(n)] else NatToDecimal(n / 10) + [Digit(n % 10)]
  }

  function IntToDecimal(i: int): string {
    if i < 0 then "-" + NatToDecimal(-i) else NatToDecimal(i)
  }

  /** The number a string of decimal digits denotes. */
  function DecimalValue(s: string): nat
    requires forall i | 0 <= i < |s| :: IsDigit(s[i])
  {
    if |s| == 0 then 0
    else
      assert IsDigit(s[|s| - 1]);
      DecimalValue(s[..|s| - 1]) * 10 + (s[|s| - 1] as int - '0' as int)
  }

  /** Reading back the printed rank gives the number that was printed. */
  lemma {:induction false} DecimalRoundTrip(n: nat)
    ensures DecimalValue(NatToDecimal(n)) == n
  {
    if n >= 10 {
      DecimalRoundTrip(n / 10);
      var s := NatToDecimal(n);
      assert s[..|s| - 1] == NatToDecimal(n / 10);
    }
  }

  /** The log text assembled from its three parts. */
  function NotationText(letter: string, isCapture: bool, to: Square): string {
    letter + (if isCapture then "x" else "") + FileText(to.file) + IntToDecimal(to.rank + 1)
  }

  /** `getNotation(piece, to, isCapture)`. */
  function NotationOf(piece: Piece, to: Square, isCapture: bool): string {
    NotationText(PieceLetter(piece.kind), isCapture, to)
  }

  /** The parts a log entry for an on-board destination can be read back into. */
  datatype Parsed = Parsed(letter: string, isCapture: bool, to: Square)

  /** Reads a log entry whose destination is on the board: a file letter a..h and a rank digit
      1..8 at the end, an optional `x` before them, and the piece letter (possibly empty) first. */
  function ParseNotation(s: string): Option<Parsed> {
    if |s| < 2 then None
    else
      var fc := s[|s| - 2];
      var rc := s[|s| - 1];
      if !('a' <= fc <= 'h' && '1' <= rc <= '8') then None
      else
        var to := Square(rc as int - '1' as int, fc as int - 'a' as int);
        var head := s[..|s| - 2];
        if |head| > 0 && head[|head| - 1] == 'x' then Some(Parsed(head[..|head| - 1], true, to))
        else Some(Parsed(head, false, to))
  }

  lemma OnBoardText(to: Square)
    requires OnBoard(to)
    ensures FileText(to.file) == [('a' as int + to.file) as char]
    ensures IntToDecimal(to.rank + 1) == [('1' as int + to.rank) as char]
  {
  }

  /** Every letter the formatter writes is a capital, never the capture mark. */
  lemma PieceLetterShape(kind: PieceType)
    ensures kind == Pawn <==> PieceLetter(kind) == ""
    ensures kind != Pawn ==> |PieceLetter(kind)| == 1 && 'A' <= PieceLetter(kind)[0] <= 'Z'
  {
  }

  /** For an on-board destination the log entry can be read back into the piece letter, the
      capture flag and the destination square. */
  lemma FormatThenParse(kind: PieceType, isCapture: bool, to: Square)
    requires OnBoard(to)
    ensures ParseNotation(NotationText(PieceLetter(kind), isCapture, to))
         == Some(Parsed(PieceLetter(kind), isCapture, to))
  {
    PieceLetterShape(kind);
    TextThenParse(PieceLetter(kind), isCapture, to);
  }

  lemma TextThenParse(l: string, isCapture: bool, to: Square)
    requires OnBoard(to)
    requires |l| == 0 || l[|l| - 1] != 'x'
    ensures ParseNotation(NotationText(l, isCapture, to)) == Some(Parsed(l, isCapture, to))
  {
    OnBoardText(to);
    var c := if isCapture then "x" else "";
    var s := NotationText(l, isCapture, to);
    var fc := ('a' as int + to.file) as char;
    var rc := ('1' as int + to.rank) as char;
    assert s == (l + c) + [fc, rc];
    var head := s[..|s| - 2];
    assert head == l + c;
    assert s[|s| - 2] == fc && s[|s| - 1] == rc;
    assert Square(rc as int - '1' as int, fc as int - 'a' as int) == to;
    if isCapture {
      assert head[|head| - 1] == 'x';
      assert head[..|head| - 1] == l;
    } else {
      assert head == l;
    }
  }

  /** Conversely, a text the reader accepts is exactly the one the formatter builds from the parts. */
  lemma ParseThenFormat(s: string)
    requires ParseNotation(s).Some?
    ensures OnBoard(ParseNotation(s).value.to)
    ensures var n := ParseNotation(s).value; NotationText(n.letter, n.isCapture, n.to) == s
  {
    var n := ParseNotation(s).value;
    OnBoardText(n.to);
    var head := s[..|s| - 2];
    if n.isCapture {
      assert head == n.letter + "x";
    }
    assert s == head + [s[|s| - 2]] + [s[|s| - 1]];
  }

  /** A capture is marked in the log, and only a capture: no other part of the text contains `x`. */
  lemma CaptureMarked(piece: Piece, to: Square, isCapture: bool)
    ensures 'x' in NotationOf(piece, to, isCapture) <==> isCapture
  {
    PieceLetterShape(piece.kind);
    var l := PieceLetter(piece.kind);
    var c := if isCapture then "x" else "";
    var ft := FileText(to.file);
    var rt := IntToDecimal(to.rank + 1);
    assert 'x' !in l;
    assert 'x' !in ft;
    assert 'x' !in rt;
    assert NotationOf(piece, to, isCapture) == l + c + ft + rt;
  }

  /** A knight and a king write the same letter, so their moves to one square log identically. */
  lemma KnightWritesLikeKing(knight: Piece, king: Piece, to: Square, isCapture: bool)
    requires knight.kind == Knight && king.kind == King
    ensures PieceLetter(Knight) == PieceLetter(King) == "K"
    ensures NotationOf(knight, to, isCapture) == NotationOf(king, to, isCapture)
  {
  }

  /** A knight moving quietly to rank 3, file 2 is logged as "Kc4". */
  lemma KnightQuietMoveExample(knight: Piece)
    requires knight.kind == Knight
    ensures NotationOf(knight, Square(3, 2), false) == "Kc4"
  {
    OnBoardText(Square(3, 2));
  }
}
