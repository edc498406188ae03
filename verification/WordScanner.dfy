/**
 A small scanner whose tables are compressed as those of the generated ones are: a word is a letter
 followed by letters and digits; any other character is a token of its own. In a word the
 automaton has no entries of its own for letters and digits: they are in a template row, in which `meta`
 makes a digit a letter.
 */
module WordScanner {
  import opened Wrappers
  import opened ScannerTables

  predicate Letter(b: Byte) {
    'a' as int <= b <= 'z' as int
  }

  predicate Digit(b: Byte) {
    '0' as int <= b <= '9' as int
  }

  /**
   Classes 1: any other character, 2: a letter, 3: a digit. States 1: start, 2: in a word, 3: behind
   another character, 4: the end-of-buffer state, 5: jammed; row 6 is a template.
   */
  const Words: Tables := Tables(
    seq(256, b => if b == 0 then 0 else if 97 <= b <= 122 then 2 else if 48 <= b <= 57 then 3 else 1),
    [0, 0, 1, 2, 3, 0],
    [0, 0, 4, 8, 12, 8, 16],
    [0, 0, 6, 5, 0, 0, 5],
    [1, 1, 1, 1, 2, 2, 0, 0, 5, 5, 5, 5, 4, 4, 4, 4, 6, 6, 6, 0],
    [4, 3, 2, 3, 4, 5, 0, 0, 4, 5, 5, 5, 5, 5, 5, 5, 4, 5, 2, 0],
    [0, 1, 2, 2],
    [0, 0, 2, 1, 0, 0, 1],
    6, 8, 5, 4, 3, 1, {1, 2, 3, 5})

  lemma WordRow(s: nat, c: nat)
    requires 0 < s < 7 && c < 4
    ensures |Words.def| == |Words.base| == |Words.rank| && |Words.nxt| == |Words.chk| && Answers(Words, s, c)
  {
    assert c == 0 || c == 1 || c == 2 || c == 3;
    if s <= 3 {
      assert s == 1 || s == 2 || s == 3;
    } else {
      assert s == 4 || s == 5 || s == 6;
    }
  }

  lemma WordRows()
    ensures Rows(Words)
  {
    forall s, c | 0 < s < 7 && 0 <= c < 4 ensures Answers(Words, s, c) { WordRow(s, c); }
  }

  lemma WordSteps(s: nat, c: nat)
    requires 0 < s < 6 && c < 4
    ensures Rows(Words)
    ensures Step(Words, s, c) ==
      if s == 4 then 5 else if c == 0 then 4
      else if s == 1 then (if c == 2 then 2 else 3)
      else if s == 2 && c >= 2 then 2 else 5
  {
    WordRows();
    assert s == 1 || s == 2 || s == 3 || s == 4 || s == 5;
    assert c == 0 || c == 1 || c == 2 || c == 3;
    if s == 2 && c >= 2 { assert Step(Words, 6, 2) == 2; }
  }

  lemma WordsAreWellFormed()
    ensures WellFormed(Words)
  {
    WordRows();
    forall s | s in Words.live ensures MarkedState(Words, s) { WordSteps(s, 0); }
    forall s, c | s in Words.live && 1 <= c < 4 ensures TextStep(Words, s, c) { WordSteps(s, c); }
    forall c | 0 <= c < 4 ensures MarkJams(Words, c) { WordSteps(4, c); }
    forall c | 1 <= c < 4 ensures FirstAccepted(Words, c) { WordSteps(1, c); }
  }

  lemma WordMove(s: nat, b: Byte)
    requires s in Words.live
    ensures WellFormed(Words)
    ensures Move(Words, s, b) ==
      if s == 1 then (if Letter(b) then 2 else 3) else if s == 2 && (Letter(b) || Digit(b)) then 2 else 5
  {
    WordsAreWellFormed();
    WordSteps(s, Class(Words, b));
  }

  lemma {:induction false} InsideWord(text: seq<Byte>, n: nat)
    requires 0 < n <= |text| && Letter(text[0])
    requires forall i :: 0 < i < n ==> Letter(text[i]) || Digit(text[i])
    ensures WellFormed(Words) && After(Words, text, n) == 2
  {
    WordMove(1, text[0]);
    if n > 1 {
      InsideWord(text, n - 1);
      WordMove(2, text[n - 1]);
    }
  }

  /** Of any text that begins with a letter the token is the longest word at its beginning. */
  lemma WordIsTaken(text: seq<Byte>, n: nat)
    requires 0 < n <= |text| && Letter(text[0])
    requires forall i :: 0 < i < n ==> Letter(text[i]) || Digit(text[i])
    requires n < |text| ==> !Letter(text[n]) && !Digit(text[n])
    ensures WellFormed(Words) && Longest(Words, text, n) && Words.accept[After(Words, text, n)] == 1
  {
    InsideWord(text, n);
    if n < |text| {
      WordMove(2, text[n]);
      NothingLonger(Words, text, n);
    }
  }

  /** Any other character, a NUL among them, is a token by itself. */
  lemma OtherIsTaken(text: seq<Byte>)
    requires text != [] && !Letter(text[0])
    ensures WellFormed(Words) && Longest(Words, text, 1) && Words.accept[After(Words, text, 1)] == 2
  {
    WordMove(1, text[0]);
    assert After(Words, text, 1) == 3;
    NothingLonger(Words, text, 1);
  }
}
