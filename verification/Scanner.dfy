/** The match loop of `lex_scan`, with its handling of the end of the buffer, and that of the configuration scanner. */
module Scanner {
  import opened Wrappers
  import opened ScannerTables
  import opened ScannerBuffer

  /**
   The last accepting position recorded, seen from the start `bp` of the token: the longest
   accepted prefix shorter than `n`, if there is one.
   */
  predicate Recorded(t: Tables, text: seq<Byte>, bp: nat, n: nat, lastPos: nat, lastState: nat)
    requires WellFormed(t) && n <= |text|
  {
    (exists k {:trigger Accepts(t, text, k)} :: 0 <= k < n && Accepts(t, text, k)) ==>
      && bp <= lastPos < bp + n
      && lastState == After(t, text, lastPos - bp)
      && Accepts(t, text, lastPos - bp)
      && forall j {:trigger Accepts(t, text, j)} :: lastPos - bp < j < n ==> !Accepts(t, text, j)
  }

  /** Recording the state at `n`, if it accepts, and stepping over the next character. */
  lemma RecordNext(t: Tables, text: seq<Byte>, bp: nat, n: nat, lastPos: nat, lastState: nat)
    requires WellFormed(t) && n < |text| && Recorded(t, text, bp, n, lastPos, lastState)
    ensures var s := After(t, text, n);
      && After(t, text, n + 1) == Move(t, s, text[n])
      && Recorded(t, text, bp, n + 1, if t.accept[s] != 0 then bp + n else lastPos,
                  if t.accept[s] != 0 then s else lastState)
  {
    assert Accepts(t, text, n) <==> t.accept[After(t, text, n)] != 0;
  }

  /** Where nothing longer than `n` is accepted, the state there or else the recorded position is the maximal munch. */
  lemma BackUp(t: Tables, text: seq<Byte>, bp: nat, n: nat, lastPos: nat, lastState: nat)
    requires WellFormed(t) && text != [] && n <= |text| && Recorded(t, text, bp, n, lastPos, lastState)
    requires NothingBeyond(t, text, n)
    ensures n > 0
    ensures Accepts(t, text, n) ==> Longest(t, text, n)
    ensures !Accepts(t, text, n) ==>
      bp <= lastPos < bp + n && lastState == After(t, text, lastPos - bp) && Longest(t, text, lastPos - bp)
  {
    FirstByteAccepted(t, text);
  }

  /** What yy_find_action answers where the match has stopped at `cp0` in state `s0`: itself, or what is recorded. */
  predicate Found(t: Tables, cp0: int, s0: nat, lastPos: nat, lastState: nat, cp: nat, s: nat)
    requires s0 < |t.accept|
  {
    if t.accept[s0] != 0 then cp == cp0 && s == s0 else cp == lastPos && s == lastState
  }

  /** That is the end of the maximal munch. */
  predicate Munched(t: Tables, text: seq<Byte>, bp: nat, cp: nat, s: nat)
    requires WellFormed(t)
  {
    && bp <= cp <= bp + |text| && Longest(t, text, cp - bp)
    && s == After(t, text, cp - bp) && t.accept[s] != t.eobAction
  }

  lemma FoundIsLongest(t: Tables, text: seq<Byte>, bp: nat, n: nat, s0: nat, lastPos: nat, lastState: nat, cp: nat,
                       s: nat)
    requires WellFormed(t) && text != [] && n <= |text| && s0 == After(t, text, n)
    requires t.accept[s0] != 0 || Recorded(t, text, bp, n, lastPos, lastState)
    requires NothingBeyond(t, text, n) && Found(t, bp + n, s0, lastPos, lastState, cp, s)
    ensures Munched(t, text, bp, cp, s) && cp <= bp + n
  {
    if !Accepts(t, text, n) { BackUp(t, text, bp, n, lastPos, lastState); }
    assert MarkedState(t, s);
  }

  class LexScanner {
    const t: Tables
    const buf: Buffer
    var lastPos: nat     // yy_last_accepting_cpos
    var lastState: nat   // yy_last_accepting_state

    constructor (t: Tables, buf: Buffer)
      ensures this.t == t && this.buf == buf
    {
      this.t := t;
      this.buf := buf;
      lastPos, lastState := 0, 0;
    }

    /** The buffer from `bp` on holds the beginning of `text`. */
    ghost predicate Holds(bp: nat, text: seq<Byte>)
      reads buf, buf.chBuf
    {
      && WellFormed(t)
      && buf.Sound()
      && bp <= buf.nChars
      && buf.nChars - bp <= |text|
      && (forall i {:trigger buf.chBuf[i]} :: bp <= i < buf.nChars ==> buf.chBuf[i] == text[i - bp])
    }

    /** At `cp` the automaton is in the state of the text read so far, and what it accepted before is recorded. */
    ghost predicate InText(cp: nat, state: nat, bp: nat, text: seq<Byte>)
      reads this, buf, buf.chBuf
      requires Holds(bp, text)
    {
      && bp <= cp <= buf.nChars
      && state == After(t, text, cp - bp)
      && Recorded(t, text, bp, cp - bp, lastPos, lastState)
    }

    /** The last character before `pos` is an end-of-buffer character. */
    ghost predicate OverEnd(from: nat, pos: nat)
      reads buf, buf.chBuf
      requires buf.Sound()
    {
      from < pos <= buf.nChars + 1 && buf.chBuf[pos - 1] == END_OF_BUFFER_CHAR
    }

    /** One character: record the state if it accepts, then make the transition. */
    method Feed(cp: nat, state: nat, class_: nat, ghost bp: nat, ghost text: seq<Byte>) returns (next: nat)
      requires Holds(bp, text) && 0 < state < t.limit && class_ < |t.meta|
      modifies this
      ensures next == Step(t, state, class_)
      ensures t.accept[state] != 0 ==> lastState == state && lastPos == cp
      ensures t.accept[state] == 0 ==> lastState == old(lastState) && lastPos == old(lastPos)
      ensures old(InText(cp, state, bp, text)) && cp < buf.nChars && class_ == Class(t, buf.chBuf[cp]) ==>
        InText(cp + 1, next, bp, text)
    {
      if bp <= cp < buf.nChars && Recorded(t, text, bp, cp - bp, lastPos, lastState) {
        assert buf.chBuf[cp] == text[cp - bp];
        RecordNext(t, text, bp, cp - bp, lastPos, lastState);
      }
      if t.accept[state] != 0 {
        lastState := state;
        lastPos := cp;
      }
      ghost var path;
      next, path := Advance(t, state, class_);
    }

    /**
     The do-while loop at yy_match. It stops in a jamming state, or runs over an end-of-buffer
     character, whose position the end-of-buffer state then records.
     */
    method MatchLoop(cp0: nat, state0: nat, ghost bp: nat, ghost text: seq<Byte>)
      returns (cp: nat, state: nat, ghost inText: bool)
      requires Holds(bp, text) && InText(cp0, state0, bp, text)
      modifies this
      ensures inText ==> InText(cp, state, bp, text) && Jams(t, state) && cp > cp0
      ensures !inText ==> state == t.jam && lastState == t.eob && OverEnd(cp0, lastPos)
    {
      cp, state, inText := cp0, state0, true;
      while true
        invariant cp0 <= cp
        invariant if inText then InText(cp, state, bp, text) else state == t.eob && OverEnd(cp0, cp)
        decreases buf.nChars + 2 - cp
      {
        var c := t.ec[buf.chBuf[cp]];
        if state == t.eob { assert MarkJams(t, c); } else { assert MarkedState(t, state); }
        inText := inText && buf.chBuf[cp] != END_OF_BUFFER_CHAR;
        state := Feed(cp, state, c, bp, text);
        cp := cp + 1;
        if Jams(t, state) { break; }
      }
    }

    /** yy_find_action: the action of the state reached, or of the last one that accepted. */
    method FindAction(cp0: nat, state0: nat) returns (cp: nat, state: nat, action: nat)
      requires state0 < |t.accept| && (t.accept[state0] == 0 ==> lastState < |t.accept|)
      ensures Found(t, cp0, state0, lastPos, lastState, cp, state)
      ensures state < |t.accept| && action == t.accept[state]
    {
      cp, state, action := cp0, state0, t.accept[state0];
      if action == 0 {
        cp, state := lastPos, lastState;
        action := t.accept[state];
      }
    }

    /** yy_get_previous_state: run the automaton again over the token so far, now taking NULs as text. */
    method PreviousState(upTo: nat, ghost text: seq<Byte>) returns (state: nat)
      requires Holds(buf.textPtr, text) && buf.textPtr <= upTo <= buf.nChars
      modifies this
      ensures InText(upTo, state, buf.textPtr, text)
    {
      state := t.start;
      var cp := buf.textPtr;
      while cp < upTo
        invariant buf.textPtr <= cp <= upTo
        invariant InText(cp, state, buf.textPtr, text)
      {
        var c := if buf.chBuf[cp] != 0 then t.ec[buf.chBuf[cp]] else NUL_CLASS;
        state := Feed(cp, state, c, buf.textPtr, text);
        cp := cp + 1;
      }
    }

    /** The buffer and the file together hold exactly `text`, from the text pointer on. */
    ghost predicate Whole(text: seq<Byte>)
      reads buf, buf.chBuf
    {
      WellFormed(t) && buf.Pending(text)
    }

    /** The end of YY_DO_BEFORE_ACTION for a token that ends at `cp`. */
    method Deliver(cp: nat, state: nat, ghost text: seq<Byte>) returns (action: nat, length: nat)
      requires Whole(text) && text != [] && buf.textPtr <= cp <= buf.nChars
      requires Munched(t, text, buf.textPtr, cp, state)
      modifies buf, buf.chBuf
      ensures buf.fillBuffer == old(buf.fillBuffer)
      ensures buf.chBuf == old(buf.chBuf) && Taken(t, buf, text, action, length)
    {
      length := cp - buf.textPtr;
      action := t.accept[state];
      assert Longest(t, text, length) && action == t.accept[After(t, text, length)];
      buf.EndText(cp, text);
    }

    /**
     The match has stopped at `cp`: either the state there accepts or the
     record tells where to back up to, and nothing longer is accepted.
     */
    ghost predicate Stopped(cp: nat, state: nat, text: seq<Byte>)
      reads this, buf, buf.chBuf
      requires Whole(text)
    {
      && buf.textPtr <= cp <= buf.nChars
      && state == After(t, text, cp - buf.textPtr)
      && (t.accept[state] != 0 || Recorded(t, text, buf.textPtr, cp - buf.textPtr, lastPos, lastState))
      && NothingBeyond(t, text, cp - buf.textPtr)
    }

    /** In a jamming state of the text the match has stopped, and not on an empty text. */
    lemma JamIsStop(cp0: nat, state0: nat, text: seq<Byte>)
      requires Whole(text) && InText(cp0, state0, buf.textPtr, text) && Jams(t, state0) && cp0 > buf.textPtr
      ensures Stopped(cp0, state0, text) && text != []
    {
      NothingLonger(t, text, cp0 - buf.textPtr);
    }

    lemma StoppedInRange(cp0: nat, state0: nat, text: seq<Byte>)
      requires Whole(text) && Stopped(cp0, state0, text) && text != []
      ensures state0 < |t.accept| && (t.accept[state0] == 0 ==> lastState < |t.accept|)
    {
      if t.accept[state0] == 0 { BackUp(t, text, buf.textPtr, cp0 - buf.textPtr, lastPos, lastState); }
    }

    /** Where the match has stopped yy_find_action finds the maximal munch. */
    lemma StopIsMunched(cp0: nat, state0: nat, text: seq<Byte>, cp: nat, state: nat)
      requires Whole(text) && Stopped(cp0, state0, text) && text != []
      requires state0 < |t.accept| && Found(t, cp0, state0, lastPos, lastState, cp, state)
      ensures Munched(t, text, buf.textPtr, cp, state) && buf.textPtr <= cp <= buf.nChars
    {
      FoundIsLongest(t, text, buf.textPtr, cp0 - buf.textPtr, state0, lastPos, lastState, cp, state);
    }

    /** yy_find_action where the match has stopped in text, and the token delivered. */
    method Settle(cp0: nat, state0: nat, ghost text: seq<Byte>) returns (action: nat, length: nat)
      requires text != [] && Whole(text) && Stopped(cp0, state0, text)
      modifies buf, buf.chBuf
      ensures buf.fillBuffer == old(buf.fillBuffer)
      ensures buf.chBuf == old(buf.chBuf) && Taken(t, buf, text, action, length)
    {
      StoppedInRange(cp0, state0, text);
      var cp, state, _ := FindAction(cp0, state0);
      StopIsMunched(cp0, state0, text, cp, state);
      action, length := Deliver(cp, state, text);
    }

    /** yy_try_NUL_trans: the transition on a NUL that is part of the text, or 0 if it jams. */
    method TryNul(cp: nat, state: nat, ghost text: seq<Byte>) returns (next: nat)
      requires Whole(text) && InText(cp, state, buf.textPtr, text)
      requires cp < buf.nChars && buf.chBuf[cp] == 0
      modifies this
      ensures next != 0 ==> InText(cp + 1, next, buf.textPtr, text)
      ensures next == 0 ==> Stopped(cp, state, text)
    {
      assert buf.chBuf[cp] == text[cp - buf.textPtr];
      next := Feed(cp, state, NUL_CLASS, buf.textPtr, text);
      if next == t.jam {
        NothingLonger(t, text, cp - buf.textPtr);
        next := 0;
      }
    }

    /** A NUL inside the buffer: answers where to go on matching, or that the match stops before it. */
    method AtNul(cp: nat, ghost text: seq<Byte>) returns (resume: bool, cp2: nat, state: nat)
      requires Whole(text) && buf.textPtr < cp <= buf.nChars && buf.chBuf[cp - 1] == 0
      modifies this
      ensures resume ==> cp2 == cp && InText(cp2, state, buf.textPtr, text)
      ensures !resume ==> cp2 == cp - 1 && Stopped(cp2, state, text)
    {
      cp2 := cp - 1;
      state := PreviousState(cp2, text);
      var next := TryNul(cp2, state, text);
      if next != 0 {
        return true, cp, next;
      }
      resume := false;
    }

    /** The mark behind the text in the buffer: refill. */
    method AtMark(cp0: nat, ghost text: seq<Byte>) returns (r: RefillResult, cp: nat)
      requires Whole(text) && cp0 == buf.nChars + 1
      modifies buf, buf.chBuf
      ensures buf.fillBuffer == old(buf.fillBuffer)
      ensures buf.chBuf == old(buf.chBuf) || fresh(buf.chBuf)
      ensures r == EndOfFile ==> text == [] && buf.Held() && buf.Unread() == [] == buf.ToCome()
      ensures r != EndOfFile ==> Whole(text) && text != [] && buf.textPtr <= cp <= buf.nChars
      ensures r == ContinueScan ==> |buf.ToCome()| < |old(buf.ToCome())|
      ensures r == LastMatch ==> cp - buf.textPtr == |text|
    {
      buf.cBufP, buf.holdChar := cp0, buf.chBuf[cp0];
      r, cp := buf.Refill(text);
    }

    /** The automaton run again over the token so far, which is all of the text if there is no more to read. */
    method Again(r: RefillResult, cp: nat, ghost text: seq<Byte>) returns (state: nat)
      requires Whole(text) && buf.textPtr <= cp <= buf.nChars && (r == LastMatch ==> cp - buf.textPtr == |text|)
      modifies this
      ensures r == ContinueScan ==> InText(cp, state, buf.textPtr, text)
      ensures r == LastMatch ==> Stopped(cp, state, text)
    {
      state := PreviousState(cp, text);
      if r == LastMatch { AllRead(cp, state, text); }
    }

    /** With all of the text read the match has stopped. */
    lemma AllRead(cp: nat, state: nat, text: seq<Byte>)
      requires Whole(text) && InText(cp, state, buf.textPtr, text) && cp - buf.textPtr == |text|
      ensures Stopped(cp, state, text)
    {
    }

    /** The match loop and yy_find_action together. */
    method Match(cp0: nat, state0: nat, ghost text: seq<Byte>) returns (cp: nat, state: nat, action: nat)
      requires Whole(text) && InText(cp0, state0, buf.textPtr, text)
      modifies this
      ensures action == t.eobAction ==> OverEnd(cp0, cp)
      ensures action != t.eobAction ==>
        text != [] && buf.textPtr <= cp <= buf.nChars && Munched(t, text, buf.textPtr, cp, state)
    {
      ghost var inText;
      var stop, last;
      stop, last, inText := MatchLoop(cp0, state0, buf.textPtr, text);
      if inText {
        JamIsStop(stop, last, text);
        StoppedInRange(stop, last, text);
      }
      cp, state, action := FindAction(stop, last);
      if inText {
        StopIsMunched(stop, last, text, cp, state);
      }
    }

    /** Undo the hold; a token starts here. */
    method Begin() returns (cp: nat)
      requires WellFormed(t) && buf.Held()
      modifies buf`textPtr, buf.chBuf
      ensures Whole(old(buf.Unread() + buf.ToCome())) && cp == buf.textPtr
    {
      ghost var unread, toCome := buf.Unread(), buf.ToCome();
      buf.Open();
      cp := buf.textPtr;
      Begins(unread, toCome, unread + toCome);
    }

    /** The action at the end of the buffer: a NUL of the text, or the mark. */
    method AtEnd(cp0: nat, ghost text: seq<Byte>) returns (r: RefillResult, cp: nat, state: nat)
      requires Whole(text) && OverEnd(buf.textPtr, cp0)
      modifies this, buf, buf.chBuf
      ensures buf.fillBuffer == old(buf.fillBuffer)
      ensures buf.chBuf == old(buf.chBuf) || fresh(buf.chBuf)
      ensures r == EndOfFile ==> text == [] && buf.Held() && buf.Unread() == [] == buf.ToCome()
      ensures r != EndOfFile ==> Whole(text) && text != []
      ensures r == ContinueScan ==>
        && InText(cp, state, buf.textPtr, text)
        && (|buf.ToCome()| < |old(buf.ToCome())|
            || (buf.ToCome() == old(buf.ToCome()) && buf.textPtr == old(buf.textPtr) && cp == cp0))
      ensures r == LastMatch ==> Stopped(cp, state, text)
    {
      if cp0 <= buf.nChars {
        var resume;
        resume, cp, state := AtNul(cp0, text);
        r := if resume then ContinueScan else LastMatch;
      } else {
        r, cp := AtMark(cp0, text);
        state := 0;
        if r != EndOfFile { state := Again(r, cp, text); }
      }
    }

    /** From yy_match to the action: the token is delivered, or `cp` lies past an end-of-buffer character. */
    method Token(cp0: nat, state0: nat, ghost text: seq<Byte>) returns (done: bool, cp: nat, action: nat, length: nat)
      requires Whole(text) && InText(cp0, state0, buf.textPtr, text)
      modifies this, buf, buf.chBuf
      ensures buf.fillBuffer == old(buf.fillBuffer)
      ensures buf.chBuf == old(buf.chBuf) || fresh(buf.chBuf)
      ensures done ==> Taken(t, buf, text, action, length)
      ensures !done ==>
        && Whole(text) && OverEnd(cp0, cp)
        && buf.ToCome() == old(buf.ToCome()) && buf.textPtr == old(buf.textPtr)
    {
      var state;
      length := 0;
      cp, state, action := Match(cp0, state0, text);
      done := action != t.eobAction;
      if done {
        action, length := Deliver(cp, state, text);
      }
    }

    /**
     The end-of-buffer action: the scan ends, or it resumes
     farther on in the text or with more of it in the buffer.
     */
    method EndOfBuffer(cp0: nat, ghost text: seq<Byte>)
      returns (done: bool, cp: nat, state: nat, action: nat, length: nat)
      requires Whole(text) && OverEnd(buf.textPtr, cp0)
      modifies this, buf, buf.chBuf
      ensures buf.fillBuffer == old(buf.fillBuffer)
      ensures buf.chBuf == old(buf.chBuf) || fresh(buf.chBuf)
      ensures done ==> Taken(t, buf, text, action, length)
      ensures !done ==> Whole(text) && InText(cp, state, buf.textPtr, text)
      ensures !done ==> (
        || |buf.ToCome()| < |old(buf.ToCome())|
        || (buf.ToCome() == old(buf.ToCome()) && buf.textPtr == old(buf.textPtr) && cp == cp0))
    {
      var r;
      r, cp, state := AtEnd(cp0, text);
      done, action, length := r != ContinueScan, 0, 0;
      if r == LastMatch {
        action, length := Settle(cp, state, text);
      }
    }

    /**
     One call of the scanner. Whatever chunks the file is read in, however the buffer grows, and
     also if the text contains NULs, it takes the longest accepted prefix of all that is pending,
     in the buffer and in the file, and reports end of file only when nothing is pending.
     */
    method Lex() returns (action: nat, length: nat)
      requires WellFormed(t) && buf.Held()
      modifies this, buf, buf.chBuf
      ensures buf.fillBuffer == old(buf.fillBuffer)
      ensures Taken(t, buf, old(buf.Unread() + buf.ToCome()), action, length)
    {
      ghost var text := buf.Unread() + buf.ToCome();
      var cp: nat := Begin();
      var state: nat := t.start;
      while true
        invariant buf.chBuf == old(buf.chBuf) || fresh(buf.chBuf)
        invariant buf.fillBuffer == old(buf.fillBuffer)
        invariant Whole(text) && InText(cp, state, buf.textPtr, text)
        decreases |buf.ToCome()|, |text| - (cp - buf.textPtr)
      {
        var done;
        done, cp, action, length := Token(cp, state, text);
        if done { return; }
        done, cp, state, action, length := EndOfBuffer(cp, text);
        if done { return; }
      }
    }
  }
}
