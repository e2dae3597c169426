/** Square identifiers ("e4") and their (column, row) coordinates: the utility
    part of board.js (`cols`, `getCoords`, `getPosition`). Columns are 0..7
    (files a..h), rows are 1..8 (the rank digit). */
module Coords {
  import opened Wrappers

  /** The file letters, indexed by column. */
  const Cols: string := "abcdefgh"

  predicate IsDigit(ch: char) {
    '0' <= ch <= '9'
  }

  /** A string `getCoords` can read without producing NaN: it has a second
      character and that character is a decimal digit. */
  predicate Parsable(pos: string) {
    |pos| >= 2 && IsDigit(pos[1])
  }

  /** A square id as `getPosition` produces it: a file letter then a rank 1..8. */
  predicate IsSquareId(s: string) {
    |s| == 2 && 'a' <= s[0] <= 'h' && '1' <= s[1] <= '8'
  }

  predicate InBounds(col: int, row: int) {
    0 <= col <= 7 && 1 <= row <= 8
  }

  /** `String.prototype.indexOf` for one character: the first index of `ch`
      in `s`, or -1 when it does not occur. */
  function IndexOf(s: string, ch: char): (r: int)
    ensures -1 <= r < |s|
    ensures r == -1 <==> ch !in s
    ensures 0 <= r ==> s[r] == ch && ch !in s[..r]
  {
    if |s| == 0 then -1
    else if s[0] == ch then 0
    else
      var r := IndexOf(s[1..], ch);
      assert s == [s[0]] + s[1..];
      if r == -1 then -1
      else
        assert s[..r + 1] == [s[0]] + s[1..][..r];
        r + 1
  }

  /** The file letters are consecutive: column c is the letter 'a' + c. */
  lemma ColsAt(c: int)
    requires 0 <= c < |Cols|
    ensures Cols[c] as int == 'a' as int + c
  {
    assert Cols[0] == 'a' && Cols[1] == 'b' && Cols[2] == 'c' && Cols[3] == 'd';
    assert Cols[4] == 'e' && Cols[5] == 'f' && Cols[6] == 'g' && Cols[7] == 'h';
  }

  /** `cols.indexOf` of a file letter is its distance from 'a'. */
  lemma IndexOfFile(ch: char)
    requires 'a' <= ch <= 'h'
    ensures IndexOf(Cols, ch) == ch as int - 'a' as int
  {
    var c := ch as int - 'a' as int;
    ColsAt(c);
    assert Cols[c] == ch;
    var r := IndexOf(Cols, ch);
    ColsAt(r);
  }

  /** `cols.indexOf` of any other character is -1. */
  lemma IndexOfNonFile(ch: char)
    requires !('a' <= ch <= 'h')
    ensures IndexOf(Cols, ch) == -1
  {
    if IndexOf(Cols, ch) != -1 {
      ColsAt(IndexOf(Cols, ch));
    }
  }

  lemma IndexOfCols(ch: char)
    ensures 'a' <= ch <= 'h' ==> IndexOf(Cols, ch) == ch as int - 'a' as int
    ensures !('a' <= ch <= 'h') ==> IndexOf(Cols, ch) == -1
  {
    if 'a' <= ch <= 'h' {
      IndexOfFile(ch);
    } else {
      IndexOfNonFile(ch);
    }
  }

  /** `getCoords`: the column is the position of the first character in
      `cols` (-1 for a character that is not a file letter), the row is the
      value `parseInt` reads from the second character. */
  function GetCoords(pos: string): (r: (int, int))
    requires Parsable(pos)
    ensures 'a' <= pos[0] <= 'h' ==> r.0 == pos[0] as int - 'a' as int
    ensures !('a' <= pos[0] <= 'h') ==> r.0 == -1
    ensures r.1 == pos[1] as int - '0' as int && 0 <= r.1 <= 9
  {
    IndexOfCols(pos[0]);
    (IndexOf(Cols, pos[0]), pos[1] as int - '0' as int)
  }

  /** The decimal digit of a row 0..9, as a template literal prints it. */
  function RankChar(row: int): (ch: char)
    requires 0 <= row <= 9
    ensures IsDigit(ch) && ch as int - '0' as int == row
  {
    ('0' as int + row) as char
  }

  /** `getPosition`: the square id of (col, row), or None off the board. */
  function GetPosition(col: int, row: int): (r: Option<string>)
    ensures r.None? <==> !InBounds(col, row)
    ensures r.Some? ==> IsSquareId(r.value)
  {
    if col < 0 || col > 7 || row < 1 || row > 8 then None
    else
      ColsAt(col);
      Some([Cols[col], RankChar(row)])
  }

  /** Writing a square id and reading it back: `getCoords(getPosition(col, row))`
      is (col, row) whenever (col, row) is on the board. */
  lemma PositionRoundTrip(col: int, row: int)
    requires InBounds(col, row)
    ensures GetPosition(col, row).Some? && GetCoords(GetPosition(col, row).value) == (col, row)
  {
  }

  /** Reading a square id back: `getPosition(getCoords(s))` is `s` itself. */
  lemma CoordsRoundTrip(s: string)
    requires IsSquareId(s)
    ensures GetPosition(GetCoords(s).0, GetCoords(s).1) == Some(s)
  {
    var (c, r) := GetCoords(s);
    ColsAt(c);
    assert [s[0], s[1]] == s;
  }

  /** The two conversions are inverse: `getPosition(col, row)` is `t` exactly
      when `t` is a square id whose coordinates are (col, row). */
  lemma PositionIff(col: int, row: int, t: string)
    ensures GetPosition(col, row) == Some(t) <==> IsSquareId(t) && GetCoords(t) == (col, row)
  {
    if IsSquareId(t) && GetCoords(t) == (col, row) {
      CoordsRoundTrip(t);
    }
    if GetPosition(col, row) == Some(t) {
      PositionRoundTrip(col, row);
    }
  }

}
