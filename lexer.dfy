/** The lexer's character cursor (lexer/lexer.js). */
module Lexer {

  /**
   * The current character. The source stores the number 0 once the input is
   * exhausted, a value no one-character string can be, so the end marker is a
   * case of its own here.
   */
  datatype LexChar = Sentinel | Char(c: char)

  /** The character at index `i`, or the sentinel at or beyond the end. */
  function CharAt(input: string, i: nat): (r: LexChar)
    ensures r.Char? <==> i < |input|
    ensures r.Char? ==> r.c == input[i]
  {
    if i >= |input| then Sentinel else Char(input[i])
  }

  /** Once the cursor is past the end, every later position reads the sentinel. */
  lemma SentinelSticks(input: string, i: nat, j: nat)
    requires CharAt(input, i) == Sentinel && i <= j
    ensures CharAt(input, j) == Sentinel
  {
  }

  /**
   * The cursor. After construction and after every ReadChar, `readPosition` is
   * one ahead of `position` and `ch` is what sits at `position`.
   */
  class Lexer {
    var input: string
    var position: int
    var readPosition: int
    var ch: LexChar

    /** Stores the input and reads its first character. */
    constructor (input: string)
      ensures this.input == input
      ensures position == 0 && readPosition == 1
      ensures ch == if |input| == 0 then Sentinel else Char(input[0])
    {
      this.input := input;
      position := 0;  // the source leaves it null until the first readChar
      readPosition := 0;
      ch := Sentinel;  // null in the source until the first readChar
      new;
      ReadChar();
    }

    /** Moves the cursor one character forward. */
    method ReadChar()
      requires 0 <= readPosition
      modifies this`ch, this`position, this`readPosition
      ensures position == old(readPosition)
      ensures readPosition == old(readPosition) + 1 == position + 1
      ensures ch == CharAt(input, position)
      ensures input == old(input)
    {
      if readPosition >= |input| {
        ch := Sentinel;
      } else {
        ch := Char(input[readPosition]);
      }
      position := readPosition;
      readPosition := readPosition + 1;
    }
  }

  /** Reading past the end of "ab": the cursor walks both characters, then stays on the sentinel. */
  method ReadPastEnd()
  {
    var lexer := new Lexer("ab");
    assert lexer.ch == Char('a');
    lexer.ReadChar();
    assert lexer.ch == Char('b') && lexer.position == 1;
    lexer.ReadChar();
    assert lexer.ch == Sentinel && lexer.readPosition == 3;
    lexer.ReadChar();
    assert lexer.ch == Sentinel && lexer.position == 3 && lexer.input == "ab";
  }
}
