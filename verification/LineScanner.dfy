/**
 A small scanner in the form of the generated ones: its tokens are a newline and a line without its
 newline. Its tables are what the theorems assume of tables, and a long line overflows the buffer.
 */
module LineScanner {
  import opened Wrappers
  import opened ScannerTables
  import opened RejectScanner

  const NEWLINE: Byte := 10
  const TEXT_CLASS := 1
  const NEWLINE_CLASS := 2

  /** States 1: start, 2: in a line, 3: behind a newline, 4: the end-of-buffer state, 5: jammed. */
  const Lines: Tables := Tables(
    seq(256, b => if b == 0 then EOB_CLASS else if b == 10 then NEWLINE_CLASS else TEXT_CLASS),
    [0, 0, 1, 2, 3, 0],
    [0, 0, 3, 9, 6, 9],
    [0, 0, 0, 5, 0, 0],
    [1, 1, 1, 2, 2, 2, 4, 4, 4, 5, 5, 5],
    [4, 2, 3, 4, 2, 5, 5, 5, 5, 4, 5, 5],
    [0, 1, 2],
    [0, 0, 0, 1, 0, 0],
    6, 9, 5, 4, 3, 1, {1, 2, 3, 5})

  const LineActions: AcceptLists := AcceptLists([1, 1, 1, 2, 3, 4, 4], [0, 1, 2, 3])

  /** Each state on each class. */
  lemma LineRows()
    ensures Rows(Lines)
  {
    forall s, c | 0 < s < 6 && 0 <= c < 3 ensures Answers(Lines, s, c) {
      assert s == 1 || s == 2 || s == 3 || s == 4 || s == 5;
      assert c == 0 || c == 1 || c == 2;
    }
  }

  lemma LineSteps(s: nat, c: nat)
    requires 0 < s < 6 && c < 3
    ensures Rows(Lines)
    ensures Step(Lines, s, c) ==
      if s == 4 then 5 else if c == EOB_CLASS then 4 else if s == 1 then c + 1
      else if s == 2 && c == TEXT_CLASS then 2 else 5
  {
    LineRows();
    assert s == 1 || s == 2 || s == 3 || s == 4 || s == 5;
    assert c == 0 || c == 1 || c == 2;
  }

  /** Such tables and accept lists exist. */
  lemma LinesAreLists()
    ensures Lists(Lines, LineActions)
  {
    LineRows();
    forall s | s in Lines.live ensures MarkedState(Lines, s) { LineSteps(s, 0); }
    forall s, c | s in Lines.live && 1 <= c < 3 ensures TextStep(Lines, s, c) { LineSteps(s, c); }
    forall c | 0 <= c < 3 ensures MarkJams(Lines, c) { LineSteps(4, c); }
    forall c | 1 <= c < 3 ensures FirstAccepted(Lines, c) { LineSteps(1, c); }
    forall s | 0 < s < 6 ensures ListOf(Lines, LineActions, s) {
      assert s == 1 || s == 2 || s == 3 || s == 4 || s == 5;
    }
  }

  lemma LineMove(s: nat, b: Byte)
    requires s in Lines.live
    ensures WellFormed(Lines) && Move(Lines, s, b) == if s == 1 then (if b == NEWLINE then 3 else 2)
                                                      else if s == 2 && b != NEWLINE then 2 else 5
  {
    LinesAreLists();
    LineSteps(s, Class(Lines, b));
  }

  /** Inside a line. */
  lemma {:induction false} InsideLine(text: seq<Byte>, n: nat)
    requires 0 < n <= |text| && forall i :: 0 <= i < n ==> text[i] != NEWLINE
    ensures WellFormed(Lines) && After(Lines, text, n) == 2
  {
    LineMove(1, text[n - 1]);
    LineMove(2, text[n - 1]);
    if n > 1 { InsideLine(text, n - 1); }
  }

  /** The scanner overflows exactly on a text that has no newline among the characters that fit. */
  lemma LongLineOverflows(text: seq<Byte>, n: nat)
    requires n <= |text|
    ensures WellFormed(Lines) && (Overflows(Lines, text, n) <==> NEWLINE !in text[..n])
  {
    LinesAreLists();
    if NEWLINE !in text[..n] {
      if n > 0 { InsideLine(text, n); }
    } else {
      var k := FirstNewline(text, n);
      if k > 0 { InsideLine(text, k); }
      LineMove(After(Lines, text, k), NEWLINE);
      StopsForGood(Lines, text, k + 1, n);
    }
  }

  /** Where the first newline is. */
  function FirstNewline(text: seq<Byte>, n: nat): (k: nat)
    requires n <= |text| && NEWLINE in text[..n]
    ensures k < n && text[k] == NEWLINE && forall i :: 0 <= i < k ==> text[i] != NEWLINE
  {
    if text[0] == NEWLINE then 0
    else
      assert text[..n] == [text[0]] + text[1..][..n - 1];
      1 + FirstNewline(text[1..], n - 1)
  }

  /** One line of 16383 characters is too long for the buffer of 16384, and a newline in front of it is not. */
  lemma ALongLine()
    ensures Lists(Lines, LineActions)
    ensures Overflows(Lines, seq(16383, _ => 97), 16383) && !Overflows(Lines, [NEWLINE] + seq(16383, _ => 97), 16383)
  {
    LinesAreLists();
    LongLineOverflows(seq(16383, _ => 97), 16383);
    var text := [NEWLINE] + seq(16383, _ => 97);
    assert text[..16383][0] == NEWLINE;
    LongLineOverflows(text, 16383);
  }
}
