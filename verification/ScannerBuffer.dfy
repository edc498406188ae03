/**
 The scanner's buffer as language-scanner.c keeps it: an array with two end-of-buffer marks
 behind the characters in use, a current position whose character is held aside, refill with
 growth, push-back and single-character input.
 */
module ScannerBuffer {
  import opened Wrappers
  import opened ScannerTables

  /** Amount read at once. */
  const YY_READ_BUF_SIZE := 8192

  datatype RefillResult = ContinueScan | LastMatch | EndOfFile

  /** What a refill owes: the pending text is the same, and each result means what it says. */
  predicate Refilled(r: RefillResult, token: seq<Byte>, toCome: seq<Byte>, token2: seq<Byte>, toCome2: seq<Byte>) {
    && token2 + toCome2 == token + toCome
    && match r
       case ContinueScan => |toCome2| < |toCome|
       case LastMatch => token != [] && toCome == [] == toCome2
       case EndOfFile => token == [] == toCome == toCome2
  }

  class Buffer {
    var chBuf: array<Byte>
    var bufSize: nat
    var nChars: nat
    var cBufP: nat        // yy_c_buf_p, as an index
    var textPtr: nat      // yytext_ptr
    var holdChar: Byte
    var eofPending: bool
    var fillBuffer: bool
    var file: seq<Byte>   // what the file still has

    /** The array has its size, and the marks are in place. */
    ghost predicate Sound()
      reads this`chBuf, this`bufSize, this`nChars, this`textPtr, this`eofPending, this`file, chBuf
    {
      && chBuf.Length == bufSize + 2
      && 0 < bufSize && nChars <= bufSize
      && chBuf[nChars] == END_OF_BUFFER_CHAR && chBuf[nChars + 1] == END_OF_BUFFER_CHAR
      && textPtr <= nChars
      && (eofPending ==> file == [])
    }

    /** Between two tokens: the character at the current position is the held one. */
    ghost predicate Held()
      reads this, chBuf
    {
      && chBuf.Length == bufSize + 2
      && 0 < bufSize && nChars <= bufSize && cBufP <= nChars && textPtr <= nChars
      && (cBufP < nChars ==> chBuf[nChars] == END_OF_BUFFER_CHAR)
      && (cBufP == nChars ==> holdChar == END_OF_BUFFER_CHAR)
      && chBuf[nChars + 1] == END_OF_BUFFER_CHAR
      && (eofPending ==> file == [])
    }

    /** The characters in the buffer that have not been read. */
    ghost function Unread(): seq<Byte>
      reads this, chBuf
      requires Held()
    {
      if cBufP == nChars then [] else [holdChar] + chBuf[cBufP + 1..nChars]
    }

    /** What the file may still deliver. */
    ghost function ToCome(): seq<Byte>
      reads this`fillBuffer, this`file
    {
      if fillBuffer then file else []
    }

    /** A fresh buffer on a file. */
    constructor (size: nat, input: seq<Byte>)
      requires size > 0
      ensures Held() && Unread() == [] && ToCome() == input && fresh(chBuf)
    {
      bufSize := size;
      chBuf := new Byte[size + 2](_ => END_OF_BUFFER_CHAR);
      nChars, cBufP, textPtr := 0, 0, 0;
      holdChar := END_OF_BUFFER_CHAR;
      eofPending, fillBuffer := false, true;
      file := input;
    }

    /** `*yy_c_buf_p = yy_hold_char` */
    method Restore()
      requires Held()
      modifies chBuf
      ensures Sound()
      ensures chBuf[cBufP..nChars] == old(Unread())
      ensures chBuf[..cBufP] == old(chBuf[..cBufP])
    {
      chBuf[cBufP] := holdChar;
    }

    /** A token starts at the current position. */
    method Open()
      requires Held()
      modifies this`textPtr, chBuf
      ensures Sound() && textPtr == cBufP
      ensures chBuf[textPtr..nChars] == old(Unread()) && ToCome() == old(ToCome())
    {
      Restore();
      textPtr := cBufP;
    }

    /** Hold the character at `cp` and end the text there: the end of YY_DO_BEFORE_ACTION. */
    method Hold(cp: nat)
      requires Sound() && textPtr <= cp <= nChars
      modifies this`cBufP, this`holdChar, chBuf
      ensures Held() && cBufP == cp
      ensures Unread() == old(chBuf[cp..nChars])
      ensures chBuf[textPtr..cp] == old(chBuf[textPtr..cp])
    {
      holdChar := chBuf[cp];
      chBuf[cp] := 0;
      cBufP := cp;
    }

    /** YY_INPUT: at least one and at most `max` characters, as long as there are any. */
    method ReadFile(at: nat, max: nat) returns (n: nat)
      requires 0 < max && at + max < chBuf.Length
      modifies this`file, chBuf
      ensures n <= max && n <= |old(file)| && (n == 0 <==> old(file) == [])
      ensures file == old(file)[n..]
      ensures chBuf[..at + n] == old(chBuf[..at]) + old(file)[..n]
    {
      var source := file;
      if source == [] {
        return 0;
      }
      n :| 1 <= n <= max && n <= |source|;
      var i := 0;
      while i < n
        invariant 0 <= i <= n && file == source
        invariant chBuf[..at + i] == old(chBuf[..at]) + source[..i]
      {
        chBuf[at + i] := source[i];
        i := i + 1;
      }
      file := source[n..];
    }

    /** Double the buffer until more than `used` characters fit, keeping the first `used`. */
    method Grow(used: nat)
      requires chBuf.Length == bufSize + 2 && 0 < bufSize && used <= bufSize
      modifies this`chBuf, this`bufSize
      ensures chBuf.Length == bufSize + 2 && used + 1 < bufSize
      ensures used + 1 < old(bufSize) ==> chBuf == old(chBuf) && bufSize == old(bufSize)
      ensures chBuf == old(chBuf) || fresh(chBuf)
      ensures chBuf[..used] == old(chBuf[..used])
    {
      while bufSize <= used + 1
        invariant chBuf.Length == bufSize + 2 && 0 < bufSize && used <= bufSize
        invariant chBuf == old(chBuf) || fresh(chBuf)
        invariant used + 1 < old(bufSize) ==> chBuf == old(chBuf) && bufSize == old(bufSize)
        invariant chBuf[..used] == old(chBuf[..used])
        decreases used + 2 - bufSize
      {
        var bigger := Enlarged(chBuf, bufSize * 2 + 2);
        assert bigger[..used] == chBuf[..used];
        chBuf := bigger;
        bufSize := bufSize * 2;
      }
    }

    /** yy_flex_realloc. */
    static method Enlarged(a: array<Byte>, size: nat) returns (b: array<Byte>)
      requires a.Length <= size
      ensures fresh(b) && b.Length == size
      ensures forall k :: 0 <= k < a.Length ==> b[k] == a[k]
    {
      b := new Byte[size](_ => 0);
      var i := 0;
      while i < a.Length
        invariant 0 <= i <= a.Length
        invariant forall k :: 0 <= k < i ==> b[k] == a[k]
      {
        b[i] := a[i];
        i := i + 1;
      }
    }

    /** Move `number` characters from the text pointer to the front. */
    method MoveToFront(number: nat)
      requires textPtr + number <= chBuf.Length
      modifies chBuf
      ensures chBuf[..number] == old(chBuf[textPtr..textPtr + number])
    {
      var i := 0;
      while i < number
        invariant 0 <= i <= number
        invariant chBuf[..i] == old(chBuf[textPtr..textPtr + i])
        invariant forall k :: textPtr + i <= k < chBuf.Length ==> chBuf[k] == old(chBuf[k])
      {
        chBuf[i] := chBuf[textPtr + i];
        i := i + 1;
      }
    }

    /** Make room behind the `number` characters kept, and read a chunk of the file into it. */
    method ReadChunk(number: nat) returns (n: nat)
      requires chBuf.Length == bufSize + 2 && 0 < bufSize && number <= bufSize
      modifies this`chBuf, this`bufSize, this`file, chBuf
      ensures chBuf.Length == bufSize + 2 && number + n < bufSize
      ensures chBuf == old(chBuf) || fresh(chBuf)
      ensures number + 1 < old(bufSize) ==> chBuf == old(chBuf) && bufSize == old(bufSize)
      ensures n <= |old(file)| && (n == 0 <==> old(file) == [])
      ensures file == old(file)[n..]
      ensures chBuf[..number + n] == old(chBuf[..number]) + old(file)[..n]
    {
      Grow(number);
      var numToRead := bufSize - number - 1;
      if numToRead > YY_READ_BUF_SIZE { numToRead := YY_READ_BUF_SIZE; }
      n := ReadFile(number, numToRead);
    }

    /** Put the marks behind the `n` characters now in use. */
    method Terminate(n: nat)
      requires chBuf.Length == bufSize + 2 && 0 < bufSize && n <= bufSize
      modifies this`nChars, this`textPtr, chBuf
      ensures nChars == n && textPtr == 0
      ensures chBuf[nChars] == END_OF_BUFFER_CHAR && chBuf[nChars + 1] == END_OF_BUFFER_CHAR
      ensures chBuf[textPtr..nChars] == old(chBuf[..n])
    {
      nChars := n;
      chBuf[nChars] := END_OF_BUFFER_CHAR;
      chBuf[nChars + 1] := END_OF_BUFFER_CHAR;
      textPtr := 0;
    }

    /** Behind the token at the front comes what the file delivers, unless it has ended, and then the marks. */
    method ReadBehind(number: nat, ghost token: seq<Byte>) returns (n: nat)
      requires chBuf.Length == bufSize + 2 && 0 < bufSize && number <= bufSize && chBuf[..number] == token
      requires eofPending ==> file == []
      modifies this`chBuf, this`bufSize, this`file, this`nChars, this`textPtr, chBuf
      ensures Sound() && textPtr == 0 && nChars == number + n && (chBuf == old(chBuf) || fresh(chBuf))
      ensures eofPending || number + 1 < old(bufSize) ==> chBuf == old(chBuf) && bufSize == old(bufSize)
      ensures !eofPending ==> nChars < bufSize
      ensures n <= |old(file)| && (n == 0 <==> old(file) == []) && file == old(file)[n..]
      ensures chBuf[textPtr..nChars] == token + old(file)[..n]
    {
      n := 0;
      if !eofPending { n := ReadChunk(number); }
      assert chBuf[..number + n] == token + old(file)[..n];
      Terminate(number + n);
    }

    /** The token so far leaves no room to read on. */
    ghost predicate NeedsGrowth()
      reads this
    {
      fillBuffer && !eofPending && bufSize <= nChars - textPtr + 1
    }

    /**
     yy_get_next_buffer, called with the current position just behind the first end-of-buffer
     mark. The token read so far moves to the front and is followed by what the file delivers;
     nothing of it is lost, whatever the size of the chunk and however often the buffer grows.
     */
    method GetNextBuffer() returns (r: RefillResult)
      requires Sound() && cBufP == nChars + 1
      modifies this, chBuf
      ensures Sound() && (chBuf == old(chBuf) || fresh(chBuf))
      ensures !old(NeedsGrowth()) ==> chBuf == old(chBuf) && bufSize == old(bufSize)
      ensures old(nChars) < old(bufSize) ==> nChars < bufSize
      ensures fillBuffer == old(fillBuffer) && (holdChar == old(holdChar) || holdChar == END_OF_BUFFER_CHAR)
      ensures r == ContinueScan ==> eofPending == old(eofPending)
      ensures Refilled(r, old(chBuf[textPtr..nChars]), old(ToCome()), chBuf[textPtr..nChars], ToCome())
    {
      ghost var token := chBuf[textPtr..nChars];
      if !fillBuffer {
        return if cBufP - textPtr == 1 then EndOfFile else LastMatch;
      }
      var numberToMove := cBufP - textPtr - 1;
      MoveToFront(numberToMove);
      assert chBuf[..numberToMove] == token;
      ghost var all := file;
      var n := ReadBehind(numberToMove, token);
      r := if n > 0 then ContinueScan else if numberToMove == 0 then EndOfFile else LastMatch;
      Chunk(token, all, n, r);
      if r == EndOfFile {
        cBufP, holdChar := 0, END_OF_BUFFER_CHAR;  // with the marks, all of yyrestart
      } else if r == LastMatch {
        eofPending := true;
      }
    }

    /** The buffer from the text pointer on and the file together hold exactly `text`. */
    ghost predicate Pending(text: seq<Byte>)
      reads this`chBuf, this`bufSize, this`nChars, this`textPtr, this`eofPending, this`fillBuffer, this`file, chBuf
    {
      && Sound()
      && |text| == nChars - textPtr + |ToCome()|
      && (forall i {:trigger chBuf[i]} :: textPtr <= i < nChars ==> chBuf[i] == text[i - textPtr])
      && (forall j {:trigger ToCome()[j]} :: 0 <= j < |ToCome()| ==> ToCome()[j] == text[nChars - textPtr + j])
    }

    /** The same, piece by piece. */
    lemma PendingPieces(text: seq<Byte>)
      requires Pending(text)
      ensures chBuf[textPtr..nChars] == text[..nChars - textPtr] && ToCome() == text[nChars - textPtr..]
    {
    }

    /** The text from the text pointer to `cp` is a token of the pending text. */
    method EndText(cp: nat, ghost text: seq<Byte>)
      requires Pending(text) && textPtr <= cp <= nChars
      modifies this`cBufP, this`holdChar, chBuf
      ensures Held() && cBufP == cp && cp - textPtr <= |text|
      ensures chBuf[textPtr..cp] == text[..cp - textPtr]
      ensures Unread() + ToCome() == text[cp - textPtr..]
    {
      ghost var length, all := cp - textPtr, chBuf[textPtr..nChars];
      assert all[..length] == chBuf[textPtr..cp] && all[length..] == chBuf[cp..nChars];
      PendingPieces(text);
      Cut(all, ToCome(), text, length);
      Hold(cp);
    }

    /** What the scanner does at the end-of-buffer mark: refill, and answer where the token so far ends. */
    method Refill(ghost text: seq<Byte>) returns (r: RefillResult, cp: nat)
      requires Pending(text) && cBufP == nChars + 1 && holdChar == END_OF_BUFFER_CHAR
      modifies this, chBuf
      ensures chBuf == old(chBuf) || fresh(chBuf)
      ensures !old(NeedsGrowth()) ==> chBuf == old(chBuf) && bufSize == old(bufSize)
      ensures old(nChars) < old(bufSize) ==> nChars < bufSize
      ensures r == EndOfFile ==> text == [] && Held() && Unread() == [] == ToCome()
      ensures r != EndOfFile ==> Pending(text) && text != [] && textPtr <= cp <= nChars
      ensures r == ContinueScan ==> |ToCome()| < |old(ToCome())| && cp - textPtr == old(nChars - textPtr)
      ensures fillBuffer == old(fillBuffer) && (r == ContinueScan ==> eofPending == old(eofPending))
      ensures r == LastMatch ==> cp - textPtr == |text| == old(nChars - textPtr)
    {
      var amount := nChars - textPtr;
      r := RefillPending(text);
      cp := if r == EndOfFile then textPtr else if r == ContinueScan then textPtr + amount else nChars;
      cBufP := cp;
      if r == EndOfFile { NothingHeld(); }
    }

    /** At the end of an empty buffer. */
    lemma NothingHeld()
      requires Sound() && cBufP == textPtr == nChars && holdChar == END_OF_BUFFER_CHAR
      ensures Held() && Unread() == []
    {
    }

    /** yy_get_next_buffer, seen from the text pending. */
    method RefillPending(ghost text: seq<Byte>) returns (r: RefillResult)
      requires Pending(text) && cBufP == nChars + 1
      modifies this, chBuf
      ensures Pending(text) && (chBuf == old(chBuf) || fresh(chBuf))
      ensures !old(NeedsGrowth()) ==> chBuf == old(chBuf) && bufSize == old(bufSize)
      ensures old(nChars) < old(bufSize) ==> nChars < bufSize
      ensures holdChar == old(holdChar) || holdChar == END_OF_BUFFER_CHAR
      ensures r == ContinueScan ==>
        old(nChars - textPtr) < nChars - textPtr && |ToCome()| < |old(ToCome())| && text != []
      ensures fillBuffer == old(fillBuffer) && (r == ContinueScan ==> eofPending == old(eofPending))
      ensures r == LastMatch ==> nChars - textPtr == |text| == old(nChars - textPtr) && text != []
      ensures r == EndOfFile ==> text == [] && nChars == textPtr && ToCome() == []
    {
      ghost var token, toCome := chBuf[textPtr..nChars], ToCome();
      PendingPieces(text);
      Rejoined(text, nChars - textPtr);
      r := GetNextBuffer();
      PendingAgain(text, r, token, toCome);
    }

    lemma PendingAgain(text: seq<Byte>, r: RefillResult, token: seq<Byte>, toCome: seq<Byte>)
      requires Sound() && Refilled(r, token, toCome, chBuf[textPtr..nChars], ToCome()) && token + toCome == text
      ensures Pending(text)
      ensures r == ContinueScan ==> |token| < nChars - textPtr && |ToCome()| < |toCome| && text != []
      ensures r == LastMatch ==> nChars - textPtr == |text| && text != []
      ensures r == EndOfFile ==> text == [] && nChars == textPtr && ToCome() == []
    {
      ghost var token2 := chBuf[textPtr..nChars];
      RefilledText(r, token, toCome, token2, ToCome(), text);
      assert |token2| == nChars - textPtr;
      forall i | textPtr <= i < nChars ensures chBuf[i] == text[i - textPtr] {
        assert chBuf[i] == token2[i - textPtr];
      }
    }

    /** yyrestart: the buffer is emptied. */
    method Restart()
      requires chBuf.Length == bufSize + 2 && 0 < bufSize
      modifies this`nChars, this`cBufP, this`textPtr, this`holdChar, this`eofPending, chBuf
      ensures Held() && Sound() && nChars == cBufP == textPtr == 0
      ensures Unread() == []
    {
      nChars := 0;
      chBuf[0] := END_OF_BUFFER_CHAR;
      chBuf[1] := END_OF_BUFFER_CHAR;
      cBufP, textPtr, holdChar := 0, 0, END_OF_BUFFER_CHAR;
      eofPending := false;
    }

    /** Shift everything in use to the end of the array, to make room in front. Answers how far. */
    method ShiftUp() returns (shift: nat)
      requires Sound()
      modifies chBuf
      ensures shift == bufSize - nChars
      ensures ShiftedBy(old(chBuf[..]), chBuf[..], shift)
    {
      var dest, source := bufSize + 2, nChars + 2;
      ghost var was := chBuf[..];
      shift := dest - source;
      while source > 0
        invariant 0 <= source <= nChars + 2 && dest == source + shift
        invariant forall k {:trigger chBuf[k]} :: dest <= k < chBuf.Length ==> chBuf[k] == was[k - shift]
        invariant forall k {:trigger chBuf[k]} :: 0 <= k < source ==> chBuf[k] == was[k]
        decreases source
      {
        dest, source := dest - 1, source - 1;
        chBuf[dest] := chBuf[source];
      }
    }

    /** The part of yyunput that makes room: answers the current position afterwards. */
    method MakeRoom() returns (cp: nat)
      requires Sound() && cBufP <= nChars
      modifies this`nChars, this`textPtr, chBuf
      ensures Sound() && cp <= nChars
      ensures nChars - cp == old(nChars) - cBufP
      ensures chBuf[cp..nChars] == old(chBuf[cBufP..nChars])
      ensures cp == (if cBufP < 2 then cBufP + bufSize - old(nChars) else cBufP)
    {
      cp := cBufP;
      ghost var was, n := chBuf[..], nChars;
      if cp < 2 {
        var shift := ShiftUp();
        cp := cp + shift;
        textPtr := textPtr + shift;
        nChars := bufSize;
        ghost var now := chBuf[..];
        Shifted(was, now, shift, cBufP, n);
        assert chBuf[cp..nChars] == now[cp..nChars] && was[cBufP..n] == old(chBuf[cBufP..nChars]);
        assert chBuf[nChars] == now[nChars] && chBuf[nChars + 1] == now[nChars + 1];
      }
    }

    /** The last part of yyunput: `c` goes in front of position `cp` and is held. */
    method PutBefore(cp: nat, c: Byte)
      requires Sound() && 1 <= cp <= nChars
      modifies this`cBufP, this`holdChar, chBuf
      ensures Held() && Unread() == [c] + old(chBuf[cp..nChars])
    {
      chBuf[cp - 1] := c;
      holdChar := chBuf[cp - 1];
      cBufP := cp - 1;
    }

    /** yyunput: put `c` back in front of what is unread. It fails only if the buffer has no room left in front. */
    method Unput(c: Byte) returns (ok: bool)
      requires Held()
      modifies this, chBuf
      ensures chBuf == old(chBuf) && file == old(file) && fillBuffer == old(fillBuffer)
      ensures !ok <==> old(cBufP) < 2 && old(cBufP + bufSize - nChars) < 2
      ensures ok ==> Held() && Unread() + ToCome() == [c] + (old(Unread()) + ToCome())
    {
      Restore();
      ghost var unread := chBuf[cBufP..nChars];
      var cp := MakeRoom();
      ok := cp >= 2;
      if ok {
        PutBefore(cp, c);
        Regroup(c, unread, ToCome());
      }
    }

    /** The last part of input: take the character at the current position and hold the next. */
    method Take() returns (c: Byte)
      requires Sound() && cBufP < nChars
      modifies this`cBufP, this`holdChar, chBuf
      ensures Held()
      ensures [c] + Unread() == old(chBuf[cBufP..nChars])
    {
      c := chBuf[cBufP];
      chBuf[cBufP] := 0;
      cBufP := cBufP + 1;
      holdChar := chBuf[cBufP];
    }

    /** The part of input that refills: with nothing unread, it gets more or finds that there is none. */
    method NeedMore() returns (more: bool)
      requires Sound() && cBufP == nChars
      modifies this, chBuf
      ensures (chBuf == old(chBuf) || fresh(chBuf)) && fillBuffer == old(fillBuffer)
      ensures more ==> Sound() && cBufP < nChars && chBuf[cBufP..nChars] + ToCome() == old(ToCome())
      ensures !more ==> Held() && Unread() == [] == ToCome() == old(ToCome())
    {
      var offset := cBufP - textPtr;
      ghost var token := chBuf[textPtr..nChars];
      cBufP := cBufP + 1;
      var r := GetNextBuffer();
      more := r == ContinueScan;
      if more {
        RestOf(token, old(ToCome()), chBuf[textPtr..nChars], ToCome());
        cBufP := textPtr + offset;
        assert chBuf[cBufP..nChars] == chBuf[textPtr..nChars][|token|..];
      } else {
        Restart();
      }
    }

    /** input: take the next unread character, refilling if need be; None at the end of the file. */
    method Input() returns (c: Option<Byte>)
      requires Held()
      modifies this, chBuf
      ensures Held() && (chBuf == old(chBuf) || fresh(chBuf)) && fillBuffer == old(fillBuffer)
      ensures c.None? ==> old(Unread() + ToCome()) == [] == Unread() + ToCome()
      ensures c.Some? ==> [c.value] + (Unread() + ToCome()) == old(Unread() + ToCome())
    {
      ghost var unread, toCome := Unread(), ToCome();
      Restore();
      if chBuf[cBufP] == END_OF_BUFFER_CHAR && cBufP >= nChars {
        assert unread == [];
        var more := NeedMore();
        if !more { return None; }
        assert chBuf[cBufP..nChars] + ToCome() == unread + toCome;
      }
      var b := Take();
      c := Some(b);
      Regroup(b, Unread(), ToCome());
    }

    /** Putting a character back, where there is room, and taking it again leaves the pending text as it was. */
    method UnputInput(c: Byte) returns (ok: bool, r: Option<Byte>)
      requires Held()
      modifies this, chBuf
      ensures !ok <==> old(cBufP) < 2 && old(cBufP + bufSize - nChars) < 2
      ensures ok ==> r == Some(c) && Held() && Unread() + ToCome() == old(Unread() + ToCome())
    {
      ok := Unput(c);
      r := None;
      if ok {
        r := Input();
        if r.Some? {
          SameHead(c, old(Unread()) + old(ToCome()), r.value, Unread() + ToCome());
        }
      }
    }
  }

  /** Everything from `shift` on is what was `shift` places before. */
  predicate ShiftedBy(was: seq<Byte>, now: seq<Byte>, shift: nat) {
    |now| == |was| && forall k {:trigger now[k]} :: shift <= k < |now| ==> now[k] == was[k - shift]
  }

  /** What stands behind a position, after the `n` characters in use and the marks have been shifted to the end. */
  lemma Shifted(was: seq<Byte>, now: seq<Byte>, shift: nat, at: nat, n: nat)
    requires ShiftedBy(was, now, shift) && |was| == shift + n + 2 && at <= n
    ensures now[shift + at..shift + n] == was[at..n]
    ensures now[shift + n] == was[n] && now[shift + n + 1] == was[n + 1]
  {
  }

  /** If two pieces make up `text`, the first is where it begins and the second how it goes on. */
  lemma Begins(a: seq<Byte>, b: seq<Byte>, text: seq<Byte>)
    requires a + b == text
    ensures |a| <= |text| && a == text[..|a|] && b == text[|a|..]
  {
  }

  /** Cutting a text inside its first piece. */
  lemma Cut(a: seq<Byte>, b: seq<Byte>, text: seq<Byte>, n: nat)
    requires |a| <= |text| && a == text[..|a|] && b == text[|a|..] && n <= |a|
    ensures a[..n] == text[..n] && a[n..] + b == text[n..]
  {
  }

  lemma Rejoined(text: seq<Byte>, n: nat)
    requires n <= |text|
    ensures text[..n] + text[n..] == text
  {
  }

  /** What a refill leaves of the pending text. */
  lemma RefilledText(r: RefillResult, token: seq<Byte>, toCome: seq<Byte>, token2: seq<Byte>, toCome2: seq<Byte>,
                     text: seq<Byte>)
    requires Refilled(r, token, toCome, token2, toCome2) && token + toCome == text
    ensures |token2| <= |text| && token2 == text[..|token2|] && toCome2 == text[|token2|..]
    ensures r == ContinueScan ==> |token| < |token2| && |toCome2| < |toCome| && text != []
    ensures r == LastMatch ==> |token2| == |text| && text != []
    ensures r == EndOfFile ==> text == [] && |token2| == 0 && toCome2 == []
  {
    assert |token2 + toCome2| == |text|;
  }

  /** The fate of the pending text after one call of a scanner: nothing left, or a maximal munch taken off its front. */
  ghost predicate Taken(t: Tables, buf: Buffer, pending: seq<Byte>, action: nat, length: nat)
    reads buf, buf.chBuf
    requires WellFormed(t)
  {
    && buf.Held()
    && if pending == [] then action == 0 && length == 0 && buf.Unread() == [] == buf.ToCome()
       else
         && Longest(t, pending, length)
         && action == t.accept[After(t, pending, length)]
         && buf.textPtr <= buf.cBufP && buf.chBuf[buf.textPtr..buf.cBufP] == pending[..length]
         && buf.Unread() + buf.ToCome() == pending[length..]
  }

  /** After a refill the text behind the token so far is what was still to come. */
  lemma RestOf(token: seq<Byte>, toCome: seq<Byte>, token2: seq<Byte>, toCome2: seq<Byte>)
    requires Refilled(ContinueScan, token, toCome, token2, toCome2)
    ensures |token| < |token2| && token2[..|token|] == token
    ensures token2[|token|..] + toCome2 == toCome
  {
    assert |token2 + toCome2| == |token + toCome|;
    assert (token2 + toCome2)[|token|..] == token2[|token|..] + toCome2;
    assert (token2 + toCome2)[..|token|] == token2[..|token|];
  }

  lemma Regroup(a: Byte, x: seq<Byte>, y: seq<Byte>)
    ensures ([a] + x) + y == [a] + (x + y)
  {
  }

  /** A chunk of `n` characters of the file read behind the token. */
  lemma Chunk(token: seq<Byte>, all: seq<Byte>, n: nat, r: RefillResult)
    requires n <= |all| && (n == 0 <==> all == [])
    requires r == if n > 0 then ContinueScan else if token == [] then EndOfFile else LastMatch
    ensures Refilled(r, token, all, token + all[..n], all[n..])
  {
    assert all[..n] + all[n..] == all;
  }

  lemma SameHead(a: Byte, x: seq<Byte>, b: Byte, y: seq<Byte>)
    ensures [a] + x == [b] + y ==> a == b && x == y
  {
    assert ([a] + x)[0] == a && ([b] + y)[0] == b;
    assert ([a] + x)[1..] == x && ([b] + y)[1..] == y;
  }
}
