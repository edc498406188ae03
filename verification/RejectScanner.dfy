/**
 The match loop of configuration-scanner.c, which keeps every state it passes in a buffer and
 looks the actions of a state up in a list.
 */
module RejectScanner {
  import opened Wrappers
  import opened ScannerTables
  import opened ScannerBuffer

  /** `first[s]..first[s + 1]` are the places in `actions` of what state `s` accepts (yy_accept and yy_acclist). */
  datatype AcceptLists = AcceptLists(first: seq<nat>, actions: seq<nat>)

  predicate HasAction(l: AcceptLists, s: nat)
    requires s + 1 < |l.first|
  {
    l.first[s] != 0 && l.first[s] < l.first[s + 1]
  }

  /** The action taken in a state is the first of its list; with an empty list it accepts nothing. */
  predicate ListOf(t: Tables, l: AcceptLists, s: nat)
    requires s < |t.accept| && s + 1 < |l.first|
  {
    if HasAction(l, s) then l.first[s] < |l.actions| && l.actions[l.first[s]] == t.accept[s] != 0
    else t.accept[s] == 0
  }

  predicate Lists(t: Tables, l: AcceptLists) {
    && WellFormed(t)
    && |l.first| == t.limit + 1
    && forall s :: 0 < s < t.limit ==> ListOf(t, l, s)
  }

  /** What a state that accepts something does is the action at the beginning of its part of the list. */
  lemma FirstOfList(t: Tables, l: AcceptLists, s: nat)
    requires Lists(t, l) && 0 < s < t.limit
    ensures t.accept[s] != 0 <==> l.first[s] != 0 && l.first[s] < l.first[s + 1]
    ensures t.accept[s] != 0 ==> l.first[s] < |l.actions| && t.accept[s] == l.actions[l.first[s]]
  {
    assert ListOf(t, l, s);
  }

  /**
   Having read `n` characters the match loop reads no more: the automaton has jammed, or it is in a
   jamming state, which stops the loop except just behind a NUL.
   */
  predicate Stops(t: Tables, text: seq<Byte>, n: nat)
    requires WellFormed(t) && n <= |text|
  {
    var s := After(t, text, n);
    s == t.jam || (Jams(t, s) && n > 0 && text[n - 1] != 0)
  }

  /** The text has `n` characters on which the match loop does not stop. */
  predicate Overflows(t: Tables, text: seq<Byte>, n: nat)
    requires WellFormed(t)
  {
    n <= |text| && !Stops(t, text, n)
  }

  /** Once stopped, the loop would stay so. */
  lemma StopsForGood(t: Tables, text: seq<Byte>, m: nat, n: nat)
    requires WellFormed(t) && m <= n <= |text| && Stops(t, text, m)
    ensures Stops(t, text, n)
  {
    assert Jams(t, After(t, text, m));
    if m < n { DeadAfterJam(t, text, m, n); }
  }

  /** So a text overflows exactly if none of its first `n` prefixes stops the loop. */
  lemma OverflowsMeans(t: Tables, text: seq<Byte>, n: nat)
    requires WellFormed(t) && n <= |text|
    ensures Overflows(t, text, n) <==> forall m :: 0 <= m <= n ==> !Stops(t, text, m)
  {
    forall m | 0 <= m <= n && Stops(t, text, m) ensures Stops(t, text, n) { StopsForGood(t, text, m, n); }
  }

  /** The loop stops from the prefix of `stop` characters on. */
  predicate StopsFrom(t: Tables, text: seq<Byte>, stop: nat)
    requires WellFormed(t)
  {
    0 < stop && forall n {:trigger Stops(t, text, n)} :: 0 <= n <= |text| ==> (Stops(t, text, n) <==> stop <= n)
  }

  /** It does from some prefix on, not the empty one. */
  lemma StopExists(t: Tables, text: seq<Byte>) returns (stop: nat)
    requires WellFormed(t)
    ensures StopsFrom(t, text, stop)
  {
    assert FirstAccepted(t, NUL_CLASS) && TextStep(t, t.start, NUL_CLASS);
    assert !Stops(t, text, 0);
    stop := 1;
    while stop <= |text| && !Stops(t, text, stop)
      invariant 0 < stop <= |text| + 1
      invariant forall n :: 0 <= n < stop ==> !Stops(t, text, n)
    {
      stop := stop + 1;
    }
    forall n | stop <= n <= |text| ensures Stops(t, text, n) { StopsForGood(t, text, stop, n); }
  }

  class Scanner {
    const t: Tables
    const l: AcceptLists
    const buf: Buffer
    const stateBuf: array<nat>  // yy_state_buf
    var statePtr: nat           // yy_state_ptr

    constructor (t: Tables, l: AcceptLists, buf: Buffer)
      ensures this.t == t && this.l == l && this.buf == buf && stateBuf.Length == buf.bufSize + 2 && fresh(stateBuf)
    {
      this.t, this.l, this.buf := t, l, buf;
      stateBuf := new nat[buf.bufSize + 2](_ => 0);
      statePtr := 0;
    }

    /** The buffer from `bp` on begins `text`, and is never filled to the last character, since it does not grow. */
    ghost predicate Holds(bp: nat, text: seq<Byte>)
      reads buf, buf.chBuf
    {
      && Lists(t, l) && buf.Sound()
      && Sized()
      && bp <= buf.nChars
      && buf.nChars - bp <= |text|
      && (forall i {:trigger buf.chBuf[i]} :: bp <= i < buf.nChars ==> buf.chBuf[i] == text[i - bp])
    }

    /** The state buffer holds the states of the first `n` prefixes of the text, and that of the empty one. */
    ghost predicate Trail(n: nat, text: seq<Byte>)
      reads this, stateBuf
    {
      && WellFormed(t) && n <= |text|
      && n < stateBuf.Length
      && statePtr == n + 1
      && forall k {:trigger stateBuf[k]} :: 0 <= k <= n ==> stateBuf[k] == After(t, text, k)
    }

    /** The state buffer holds proper states. */
    ghost predicate Proper()
      reads this, stateBuf
    {
      statePtr <= stateBuf.Length && forall k {:trigger stateBuf[k]} :: 0 <= k < statePtr ==> 0 < stateBuf[k] < t.limit
    }

    /** The last character before `pos` is an end-of-buffer character. */
    ghost predicate OverEnd(from: nat, pos: nat)
      reads buf, buf.chBuf
      requires buf.Sound()
    {
      from < pos <= buf.nChars + 1 && buf.chBuf[pos - 1] == END_OF_BUFFER_CHAR
    }

    /** `*yy_state_ptr++ = state` */
    method Push(state: nat)
      requires statePtr < stateBuf.Length
      modifies this, stateBuf
      ensures statePtr == old(statePtr) + 1
      ensures stateBuf[old(statePtr)] == state
      ensures forall k :: 0 <= k < old(statePtr) ==> stateBuf[k] == old(stateBuf[k])
    {
      stateBuf[statePtr] := state;
      statePtr := statePtr + 1;
    }

    /** The trail of the empty prefix. */
    method Start(ghost text: seq<Byte>) returns (state: nat)
      requires Lists(t, l) && stateBuf.Length > 0
      modifies this, stateBuf
      ensures Trail(0, text) && state == After(t, text, 0)
    {
      state := t.start;
      statePtr := 0;
      Push(state);
    }

    /** One character: the transition, pushed. */
    method Feed(state: nat, class_: nat, ghost n: nat, ghost text: seq<Byte>) returns (next: nat)
      requires WellFormed(t) && 0 < state < t.limit && class_ < |t.meta| && statePtr < stateBuf.Length
      modifies this, stateBuf
      ensures next == Step(t, state, class_)
      ensures statePtr == old(statePtr) + 1 && stateBuf[old(statePtr)] == next
      ensures forall k :: 0 <= k < old(statePtr) ==> stateBuf[k] == old(stateBuf[k])
      ensures old(Trail(n, text)) && state == After(t, text, n) && n < |text| && class_ == Class(t, text[n]) ==>
        Trail(n + 1, text) && next == After(t, text, n + 1)
      ensures old(Proper()) ==> Proper()
    {
      ghost var path;
      next, path := Advance(t, state, class_);
      Push(next);
    }

    /**
     The do-while loop at yy_match. It stops in a jamming state of the text, or runs over an
     end-of-buffer character. The state buffer is never overrun: it is used up exactly when the
     whole buffer is one token and the scanner reads both end-of-buffer marks.
     */
    method MatchLoop(cp0: nat, state0: nat, ghost bp: nat, ghost text: seq<Byte>, ghost stop: nat)
      returns (cp: nat, state: nat, ghost inText: bool)
      requires Holds(bp, text) && bp <= cp0 <= buf.nChars && StopsFrom(t, text, stop) && cp0 < bp + stop
      requires Trail(cp0 - bp, text) && state0 == After(t, text, cp0 - bp)
      modifies this, stateBuf
      ensures inText ==> cp0 < cp <= buf.nChars && Trail(cp - bp, text)
      ensures inText ==> Jams(t, After(t, text, cp - bp)) && bp + stop <= cp
      ensures !inText ==> cp - 2 < bp + stop
      ensures !inText ==>
        && 1 < statePtr == cp - bp + 1 && Proper() && OverEnd(cp0, cp - 1)
        && stateBuf[statePtr - 1] == t.jam && stateBuf[statePtr - 2] == t.eob
    {
      cp, state, inText := cp0, state0, true;
      while true
        invariant cp0 <= cp <= buf.nChars + 1
        invariant Reading(inText, cp0, cp, state, bp, text)
        invariant if inText then cp < bp + stop else cp - 1 < bp + stop
        decreases buf.nChars + 2 - cp
      {
        state, inText := Read(cp0, cp, state, inText, bp, text);
        cp := cp + 1;
        assert inText ==> (Stops(t, text, cp - bp) <==> Jams(t, state));
        if Jams(t, state) { break; }
      }
    }

    /** Where the match stands: in the text with its trail, or just over an end-of-buffer character. */
    ghost predicate Reading(inText: bool, cp0: nat, cp: nat, state: nat, bp: nat, text: seq<Byte>)
      reads this, stateBuf, buf, buf.chBuf
      requires Holds(bp, text)
    {
      && bp <= cp && statePtr == cp - bp + 1 && Proper()
      && if inText then cp <= buf.nChars && Trail(cp - bp, text) && state == After(t, text, cp - bp)
         else state == t.eob == stateBuf[statePtr - 1] && OverEnd(cp0, cp)
    }

    /** One character of the match loop. */
    method Read(cp0: nat, cp: nat, state: nat, ghost inText: bool, ghost bp: nat, ghost text: seq<Byte>)
      returns (next: nat, ghost inText2: bool)
      requires Holds(bp, text) && cp0 <= cp <= buf.nChars + 1 && Reading(inText, cp0, cp, state, bp, text)
      modifies this, stateBuf
      ensures inText ==> cp <= buf.nChars
      ensures inText2 ==> inText && Reading(true, cp0, cp + 1, next, bp, text) && text[cp - bp] != 0
      ensures inText && !inText2 ==> Reading(false, cp0, cp + 1, next, bp, text) && !Jams(t, next)
      ensures !inText ==> (
        && !inText2 && next == t.jam && statePtr == cp + 1 - bp + 1 && Proper() && OverEnd(cp0, cp)
        && stateBuf[statePtr - 1] == t.jam && stateBuf[statePtr - 2] == t.eob)
    {
      var c := t.ec[buf.chBuf[cp]];
      if state == t.eob { assert MarkJams(t, c); } else { assert MarkedState(t, state); }
      assert inText && cp < buf.nChars ==> buf.chBuf[cp] == text[cp - bp];
      inText2 := inText && buf.chBuf[cp] != END_OF_BUFFER_CHAR;
      next := Feed(state, c, cp - bp, text);
    }

    /** yy_find_action and find_rule: back up, state by state, to the last one that accepts something. */
    method FindRule(cp0: nat, ghost k: nat) returns (cp: nat, action: nat)
      requires Lists(t, l) && Proper() && 0 < statePtr <= cp0 + 1
      requires k < statePtr && t.accept[stateBuf[k]] != 0
      modifies this
      ensures k <= statePtr < old(statePtr) && cp0 - cp == old(statePtr) - 1 - statePtr
      ensures action == t.accept[stateBuf[statePtr]] != 0
      ensures forall k :: statePtr < k < old(statePtr) ==> t.accept[stateBuf[k]] == 0
    {
      cp := cp0;
      statePtr := statePtr - 1;
      var state := stateBuf[statePtr];
      while !HasAction(l, state)
        invariant k <= statePtr < old(statePtr) && cp0 - cp == old(statePtr) - 1 - statePtr
        invariant state == stateBuf[statePtr]
        invariant forall k :: statePtr < k < old(statePtr) ==> t.accept[stateBuf[k]] == 0
        decreases statePtr
      {
        assert ListOf(t, l, state);
        cp := cp - 1;
        statePtr := statePtr - 1;
        state := stateBuf[statePtr];
      }
      assert ListOf(t, l, state);
      action := l.actions[l.first[state]];
    }

    /** What find_rule answers where the match has stopped in the text. */
    method BackUp(cp0: nat, ghost bp: nat, ghost text: seq<Byte>) returns (cp: nat, action: nat)
      requires Lists(t, l) && bp <= cp0 && Trail(cp0 - bp, text) && NothingBeyond(t, text, cp0 - bp) && text != []
      modifies this
      ensures bp <= cp <= cp0 && Longest(t, text, cp - bp) && action == t.accept[After(t, text, cp - bp)]
    {
      TrailAccepts(cp0 - bp, text);
      cp, action := FindRule(cp0, 1);
      LastIsLongest(cp0 - bp, text);
    }

    /** Some state on the trail of a text that is not empty, and beyond which nothing is accepted, accepts. */
    lemma TrailAccepts(n: nat, text: seq<Byte>)
      requires Trail(n, text) && NothingBeyond(t, text, n) && text != []
      ensures Proper() && n > 0 && t.accept[stateBuf[1]] != 0
    {
      FirstByteAccepted(t, text);
      assert stateBuf[1] == After(t, text, 1);
    }

    /** With nothing accepted beyond the trail, the last accepting state on it ends the maximal munch. */
    lemma LastIsLongest(n: nat, text: seq<Byte>)
      requires WellFormed(t) && statePtr <= n < stateBuf.Length && n <= |text|
      requires forall k {:trigger stateBuf[k]} :: 0 <= k <= n ==> stateBuf[k] == After(t, text, k)
      requires stateBuf[statePtr] < |t.accept| && t.accept[stateBuf[statePtr]] != 0
      requires forall k :: statePtr < k <= n ==> stateBuf[k] < |t.accept| && t.accept[stateBuf[k]] == 0
      requires NothingBeyond(t, text, n)
      ensures Longest(t, text, statePtr) && stateBuf[statePtr] == After(t, text, statePtr)
      ensures t.accept[stateBuf[statePtr]] != t.eobAction
    {
      assert MarkedState(t, stateBuf[statePtr]);
      assert stateBuf[statePtr] == After(t, text, statePtr);
      forall j | statePtr < j <= |text| ensures !Accepts(t, text, j) {
        if j <= n { assert stateBuf[j] == After(t, text, j); }
      }
    }

    /** The match loop and find_rule together. */
    method Match(cp0: nat, state0: nat, ghost bp: nat, ghost text: seq<Byte>, ghost stop: nat)
      returns (cp: nat, action: nat)
      requires Holds(bp, text) && bp <= cp0 <= buf.nChars && StopsFrom(t, text, stop) && cp0 < bp + stop
      requires Trail(cp0 - bp, text) && state0 == After(t, text, cp0 - bp)
      modifies this, stateBuf
      ensures action == t.eobAction ==> OverEnd(cp0, cp) && cp <= bp + stop
      ensures action != t.eobAction ==> stop < buf.bufSize
      ensures action != t.eobAction ==>
        && text != [] && bp <= cp <= buf.nChars
        && Longest(t, text, cp - bp) && action == t.accept[After(t, text, cp - bp)]
    {
      ghost var inText;
      var state;
      cp, state, inText := MatchLoop(cp0, state0, bp, text, stop);
      ghost var n := cp - bp;
      if inText { JamAccepts(n, text); }
      assert inText || t.accept[t.eob] == t.eobAction != 0 == t.accept[t.jam];
      cp, action := FindRule(cp, if inText then 1 else statePtr - 2);
      assert cp - bp == statePtr;
      if inText { LastIsLongest(n, text); }
    }

    /** Where the trail ends in a jamming state, nothing longer is accepted, and the first character is. */
    lemma JamAccepts(n: nat, text: seq<Byte>)
      requires Trail(n, text) && Jams(t, After(t, text, n)) && n > 0
      ensures Proper() && NothingBeyond(t, text, n) && t.accept[stateBuf[1]] != 0
    {
      NothingLonger(t, text, n);
      TrailAccepts(n, text);
    }

    /** yy_get_previous_state: the trail of the token so far, now taking NULs as text. */
    method PreviousState(upTo: nat, ghost text: seq<Byte>) returns (state: nat)
      requires Holds(buf.textPtr, text) && buf.textPtr <= upTo <= buf.nChars
      modifies this, stateBuf
      ensures Trail(upTo - buf.textPtr, text) && state == After(t, text, upTo - buf.textPtr)
    {
      state := Start(text);
      var cp := buf.textPtr;
      while cp < upTo
        invariant buf.textPtr <= cp <= upTo
        invariant Trail(cp - buf.textPtr, text) && state == After(t, text, cp - buf.textPtr)
      {
        assert buf.chBuf[cp] == text[cp - buf.textPtr];
        var c := if buf.chBuf[cp] != 0 then t.ec[buf.chBuf[cp]] else NUL_CLASS;
        state := Feed(state, c, cp - buf.textPtr, text);
        cp := cp + 1;
      }
    }

    /** yy_try_NUL_trans: the transition on a NUL that is part of the text, pushed, or 0 if it jams. */
    method TryNul(cp: nat, state: nat, ghost text: seq<Byte>, ghost stop: nat) returns (next: nat)
      requires Holds(buf.textPtr, text) && buf.textPtr <= cp < buf.nChars && buf.chBuf[cp] == 0
      requires Trail(cp - buf.textPtr, text) && state == After(t, text, cp - buf.textPtr) && StopsFrom(t, text, stop)
      modifies this, stateBuf
      ensures next != 0 ==> Trail(cp + 1 - buf.textPtr, text) && next == After(t, text, cp + 1 - buf.textPtr)
      ensures next == 0 ==> Trail(cp - buf.textPtr, text) && NothingBeyond(t, text, cp - buf.textPtr)
      ensures next == 0 <==> buf.textPtr + stop <= cp + 1
    {
      assert buf.chBuf[cp] == text[cp - buf.textPtr];
      assert Stops(t, text, cp + 1 - buf.textPtr) <==> Move(t, state, 0) == t.jam;
      ghost var path;
      next, path := Advance(t, state, NUL_CLASS);
      if next == t.jam {
        NothingLonger(t, text, cp - buf.textPtr);
        return 0;
      }
      Push(next);
    }

    // ----- a whole call -----

    /** The buffer, which does not grow, is never filled to the last character, and the state buffer has its size. */
    ghost predicate Sized()
      reads buf`nChars, buf`bufSize, buf`chBuf
    {
      buf.nChars < buf.bufSize && stateBuf.Length == buf.bufSize + 2 && stateBuf as object != buf.chBuf
    }

    /** Between two tokens. */
    ghost predicate Ready()
      reads buf, buf.chBuf
    {
      Lists(t, l) && Sized() && buf.Held()
    }

    /** The buffer and the file together hold exactly `text`, from the text pointer on. */
    ghost predicate Whole(text: seq<Byte>)
      reads buf, buf.chBuf
    {
      Holds(buf.textPtr, text) && buf.Pending(text)
    }

    /** The token ends at `cp`. */
    method Deliver(cp: nat, action: nat, ghost text: seq<Byte>) returns (length: nat)
      requires Whole(text) && text != [] && buf.textPtr <= cp <= buf.nChars
      requires Longest(t, text, cp - buf.textPtr) && action == t.accept[After(t, text, cp - buf.textPtr)]
      modifies buf, buf.chBuf
      ensures buf.fillBuffer == old(buf.fillBuffer)
      ensures buf.chBuf == old(buf.chBuf) && Taken(t, buf, text, action, length) && Sized()
    {
      length := cp - buf.textPtr;
      assert Longest(t, text, length) && action == t.accept[After(t, text, length)];
      buf.EndText(cp, text);
    }

    /** From yy_match to the action: the token is delivered, or `cp` lies past an end-of-buffer character. */
    method Token(cp0: nat, state0: nat, ghost text: seq<Byte>, ghost stop: nat)
      returns (done: bool, cp: nat, action: nat, length: nat)
      requires Whole(text) && Standing(true, cp0, state0, text, stop) && StopsFrom(t, text, stop)
      modifies this, stateBuf, buf, buf.chBuf
      ensures buf.fillBuffer == old(buf.fillBuffer)
      ensures buf.chBuf == old(buf.chBuf)
      ensures done ==> Taken(t, buf, text, action, length) && Sized() && stop < old(buf.bufSize)
      ensures !done ==> buf.textPtr == old(buf.textPtr) && buf.ToCome() == old(buf.ToCome()) && SameLimits()
      ensures !done ==> Whole(text) && OverEnd(cp0, cp) && cp <= buf.textPtr + stop
    {
      length := 0;
      cp, action := Match(cp0, state0, buf.textPtr, text, stop);
      done := action != t.eobAction;
      if done { length := Deliver(cp, action, text); }
    }

    /** What decides whether the buffer may be filled is as before. */
    twostate predicate SameLimits()
      reads buf
    {
      buf.bufSize == old(buf.bufSize) && buf.fillBuffer == old(buf.fillBuffer) && buf.eofPending == old(buf.eofPending)
    }

    /** The file has not ended. */
    ghost predicate Filling()
      reads buf
    {
      buf.fillBuffer && !buf.eofPending
    }

    /** Back in the text: matching goes on at `cp` in `state`, or the match has stopped there. */
    ghost predicate Standing(resume: bool, cp: nat, state: nat, text: seq<Byte>, stop: nat)
      reads this, stateBuf, buf, buf.chBuf
      requires Whole(text)
    {
      && buf.textPtr <= cp <= buf.nChars
      && Trail(cp - buf.textPtr, text)
      && if resume then state == After(t, text, cp - buf.textPtr) && cp < buf.textPtr + stop
         else text != [] && NothingBeyond(t, text, cp - buf.textPtr)
    }

    /** A NUL inside the buffer. */
    method AtNul(cp: nat, ghost text: seq<Byte>, ghost stop: nat) returns (resume: bool, cp2: nat, state: nat)
      requires Whole(text) && buf.textPtr < cp <= buf.nChars && buf.chBuf[cp - 1] == 0 && StopsFrom(t, text, stop)
      modifies this, stateBuf
      ensures Standing(resume, cp2, state, text, stop) && (resume ==> cp2 == cp)
      ensures !resume ==> stop < buf.bufSize
    {
      state := PreviousState(cp - 1, text);
      var next := TryNul(cp - 1, state, text, stop);
      resume := next != 0;
      cp2, state := if resume then cp else cp - 1, next;
    }

    /** The buffer is full of a token that has not ended: "input buffer overflow". */
    method Full() returns (full: bool)
      requires buf.Sound()
      ensures full <==> buf.NeedsGrowth()
    {
      full := buf.fillBuffer && !buf.eofPending && buf.bufSize <= buf.nChars - buf.textPtr + 1;
    }

    /** The mark behind the text in the buffer, where there is room to read on. */
    method AtMark(cp0: nat, ghost text: seq<Byte>) returns (r: RefillResult, cp: nat)
      requires Whole(text) && cp0 == buf.nChars + 1 && !buf.NeedsGrowth()
      modifies buf, buf.chBuf
      ensures buf.fillBuffer == old(buf.fillBuffer)
      ensures buf.chBuf == old(buf.chBuf)
      ensures r == EndOfFile ==> text == [] && buf.Held() && buf.Unread() == [] == buf.ToCome() && Sized()
      ensures r != EndOfFile ==> Whole(text) && text != [] && buf.textPtr <= cp <= buf.nChars
      ensures r == ContinueScan ==>
        |buf.ToCome()| < |old(buf.ToCome())| && cp - buf.textPtr == old(buf.nChars - buf.textPtr)
      ensures r == ContinueScan ==> SameLimits()
      ensures r == LastMatch ==> cp - buf.textPtr == |text|
      ensures r != ContinueScan && old(Filling()) ==> |text| < old(buf.bufSize) - 1
    {
      buf.cBufP, buf.holdChar := cp0, buf.chBuf[cp0];
      r, cp := buf.Refill(text);
    }

    /**
     The end-of-buffer action: the scan ends, or it resumes farther
     on in the text or with more of it in the buffer, or fails.
     */
    method EndOfBuffer(cp0: nat, ghost text: seq<Byte>, ghost stop: nat)
      returns (r: RefillResult, fatal: bool, cp: nat, state: nat)
      requires Whole(text) && OverEnd(buf.textPtr, cp0) && cp0 <= buf.textPtr + stop && StopsFrom(t, text, stop)
      modifies this, stateBuf, buf, buf.chBuf
      ensures buf.fillBuffer == old(buf.fillBuffer)
      ensures buf.chBuf == old(buf.chBuf)
      ensures fatal ==> old(Filling()) && old(buf.bufSize) - 1 < stop && old(buf.bufSize) - 1 <= |text|
      ensures !fatal && r != ContinueScan && old(Filling()) ==> stop < old(buf.bufSize) || |text| < old(buf.bufSize) - 1
      ensures !fatal && r == ContinueScan ==> SameLimits()
      ensures !fatal && r == EndOfFile ==> text == [] && buf.Held() && buf.Unread() == [] == buf.ToCome() && Sized()
      ensures !fatal && r != EndOfFile ==> Whole(text) && Standing(r == ContinueScan, cp, state, text, stop)
      ensures !fatal && r == ContinueScan ==> (
        || |buf.ToCome()| < |old(buf.ToCome())|
        || (buf.ToCome() == old(buf.ToCome()) && buf.textPtr == old(buf.textPtr) && cp == cp0))
    {
      fatal, r, cp, state := false, LastMatch, cp0, 0;
      if cp0 <= buf.nChars {
        var resume;
        resume, cp, state := AtNul(cp0, text, stop);
        if resume { r := ContinueScan; }
        return;
      }
      fatal := Full();
      if !fatal {
        r, cp := AtMark(cp0, text);
        if r != EndOfFile { state := PreviousState(cp, text); }
      }
    }

    /** The token is delivered where the match has stopped. */
    method DeliverLast(cp0: nat, ghost text: seq<Byte>) returns (action: nat, length: nat)
      requires Whole(text) && buf.textPtr <= cp0 <= buf.nChars && text != []
      requires Trail(cp0 - buf.textPtr, text) && NothingBeyond(t, text, cp0 - buf.textPtr)
      modifies this, buf, buf.chBuf
      ensures buf.fillBuffer == old(buf.fillBuffer)
      ensures buf.chBuf == old(buf.chBuf) && Taken(t, buf, text, action, length) && Sized()
    {
      var cp;
      cp, action := BackUp(cp0, buf.textPtr, text);
      length := Deliver(cp, action, text);
    }

    /** The same, with the token delivered where the match has stopped. */
    method AtEnd(cp0: nat, ghost text: seq<Byte>, ghost stop: nat)
      returns (done: bool, fatal: bool, cp: nat, state: nat, action: nat, length: nat)
      requires Whole(text) && OverEnd(buf.textPtr, cp0) && cp0 <= buf.textPtr + stop && StopsFrom(t, text, stop)
      modifies this, stateBuf, buf, buf.chBuf
      ensures buf.fillBuffer == old(buf.fillBuffer)
      ensures buf.chBuf == old(buf.chBuf)
      ensures fatal ==> done
      ensures done ==> (fatal <==> old(Filling()) && old(buf.bufSize) - 1 < stop && old(buf.bufSize) - 1 <= |text|)
      ensures !done ==> SameLimits()
      ensures done && !fatal ==> Taken(t, buf, text, action, length) && Sized()
      ensures !done ==> Whole(text) && Standing(true, cp, state, text, stop)
      ensures !done ==> (
        || |buf.ToCome()| < |old(buf.ToCome())|
        || (buf.ToCome() == old(buf.ToCome()) && buf.textPtr == old(buf.textPtr) && cp == cp0))
    {
      var r;
      r, fatal, cp, state := EndOfBuffer(cp0, text, stop);
      done, action, length := fatal || r != ContinueScan, 0, 0;
      if !fatal && r == LastMatch {
        action, length := DeliverLast(cp, text);
      }
    }

    /** All that is pending between two tokens. */
    ghost function Ahead(): seq<Byte>
      reads buf, buf.chBuf
      requires buf.Held()
    {
      buf.Unread() + buf.ToCome()
    }

    /** Undo the hold; a token starts here. */
    method Begin() returns (cp: nat, state: nat, ghost text: seq<Byte>)
      requires Ready()
      modifies this, stateBuf, buf`textPtr, buf.chBuf
      ensures text == old(Ahead()) && Whole(text) && Filling() == old(Filling()) && buf.bufSize == old(buf.bufSize)
      ensures cp == buf.textPtr && Trail(0, text) && state == After(t, text, 0)
    {
      text := OpenText();
      cp := buf.textPtr;
      state := Start(text);
    }

    /** Undo the hold. */
    method OpenText() returns (ghost text: seq<Byte>)
      requires Ready()
      modifies buf`textPtr, buf.chBuf
      ensures text == old(Ahead()) && Whole(text)
    {
      ghost var unread, toCome := buf.Unread(), buf.ToCome();
      text := unread + toCome;
      buf.Open();
      Begins(unread, toCome, text);
    }

    /**
     One call of the scanner: the longest accepted prefix of all that is pending, found by way of the
     state buffer. It fails exactly if the file has not ended and the match loop would not stop on the
     characters that fit into the buffer, which cannot grow.
     */
    method Lex() returns (fatal: bool, action: nat, length: nat)
      requires Ready()
      modifies this, stateBuf, buf, buf.chBuf
      ensures buf.fillBuffer == old(buf.fillBuffer)
      ensures !fatal ==> Taken(t, buf, old(Ahead()), action, length) && Ready()
      ensures fatal <==> old(Filling()) && Overflows(t, old(Ahead()), old(buf.bufSize) - 1)
    {
      ghost var text;
      var cp, state;
      cp, state, text := Begin();
      ghost var stop := StopExists(t, text);
      ghost var n := buf.bufSize - 1;
      assert n <= |text| ==> (Stops(t, text, n) <==> stop <= n);
      fatal, action, length := Tokens(cp, state, text, stop);
    }

    /** The loop of the scanner, from yy_match on. */
    method Tokens(cp0: nat, state0: nat, ghost text: seq<Byte>, ghost stop: nat)
      returns (fatal: bool, action: nat, length: nat)
      requires Whole(text) && Standing(true, cp0, state0, text, stop) && StopsFrom(t, text, stop)
      modifies this, stateBuf, buf, buf.chBuf
      ensures buf.fillBuffer == old(buf.fillBuffer)
      ensures !fatal ==> Taken(t, buf, text, action, length) && Sized()
      ensures fatal <==> old(Filling()) && old(buf.bufSize) - 1 < stop && old(buf.bufSize) - 1 <= |text|
    {
      var cp: nat, state: nat := cp0, state0;
      while true
        invariant buf.chBuf == old(buf.chBuf) && SameLimits()
        invariant Whole(text) && Standing(true, cp, state, text, stop)
        decreases |buf.ToCome()|, |text| - (cp - buf.textPtr)
      {
        var done;
        fatal := false;
        done, cp, action, length := Token(cp, state, text, stop);
        if done { return; }
        done, fatal, cp, state, action, length := AtEnd(cp, text, stop);
        if done { return; }
      }
    }
  }
}
