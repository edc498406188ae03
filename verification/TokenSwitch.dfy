/**
 The token cache as a `for` header sees it: tc_switch of token_cache.c exchanges, in place, the
 tokens of the second and the third header expression around the second semicolon.
 */
module TokenSwitch {
  import S = ControlState

  const TOKEN_BITS_SPAN := 0x10_0000   // 1 << TOKEN_BITS

  /** A token: its type, its place, and all that travels with it unchanged. */
  datatype Token = Token(tokenType: int, lineno: int, offset: int, switched: bool)

  /** TC_OFFSET and TOKEN_OFFSET of a token number. */
  function CacheOf(number: nat): nat {
    number / TOKEN_BITS_SPAN
  }

  function PlaceOf(number: nat): nat {
    number % TOKEN_BITS_SPAN
  }

  function Number(cache: nat, place: nat): nat {
    cache * TOKEN_BITS_SPAN + place
  }

  lemma NumberRoundTrip(cache: nat, place: nat)
    requires place < 1048576
    ensures CacheOf(Number(cache, place)) == cache && PlaceOf(Number(cache, place)) == place
    ensures Number(0, place) == place && Number(cache + 1, place) == Number(cache, place) + 1048576
  {
  }

  /** Each token is numbered by its place. */
  predicate Numbered(cache: nat, tokens: seq<Token>) {
    forall i :: 0 <= i < |tokens| ==> tokens[i].offset == Number(cache, i)
  }

  /** A token put at another place. */
  function At(cache: nat, place: nat, token: Token): Token {
    token.(offset := Number(cache, place))
  }

  /** Where the token at place `i` of a switched cache was before. */
  function Source(start: nat, middle: nat, end: nat, i: nat): nat
    requires start <= middle <= end
  {
    if i < start || i > end then i
    else if i < start + (end - middle) then i - start + middle + 1
    else if i == start + (end - middle) then middle
    else i - (end - middle) - 1
  }

  /** The tokens of two ranges exchanged around the one at `middle`, and renumbered. */
  predicate Switched(cache: nat, before: seq<Token>, after: seq<Token>, start: nat, middle: nat, end: nat)
    requires start <= middle <= end < |before|
  {
    && |after| == |before|
    && forall i {:trigger after[i]} :: 0 <= i < |before| ==>
         after[i] == if start <= i <= end then At(cache, i, before[Source(start, middle, end, i)]) else before[i]
  }

  /** The two ranges exchanged, whatever is now between them. */
  predicate Exchanged(before: seq<Token>, after: seq<Token>, start: nat, middle: nat, end: nat)
    requires start <= middle <= end < |before|
  {
    && |after| == |before|
    && forall i {:trigger after[i]} ::
         0 <= i < |before| && i != start + (end - middle) ==> after[i] == before[Source(start, middle, end, i)]
  }

  /** A piece copied over what is at `at`. */
  function Patch(s: seq<Token>, at: nat, piece: seq<Token>): seq<Token>
    requires at + |piece| <= |s|
  {
    seq(|s|, i requires 0 <= i < |s| => if at <= i < at + |piece| then piece[i - at] else s[i])
  }

  lemma Patched(s: seq<Token>, at: nat, piece: seq<Token>, i: nat)
    requires at + |piece| <= |s| && i < |s|
    ensures |Patch(s, at, piece)| == |s|
    ensures Patch(s, at, piece)[i] == if at <= i < at + |piece| then piece[i - at] else s[i]
  {
  }

  lemma SecondSaved(s: seq<Token>, moved: seq<Token>, now: seq<Token>, start: nat, middle: nat, end: nat)
    requires start <= middle <= end < |s| && middle - start <= end - middle
    requires moved == Patch(s, end - (middle - start) + 1, s[start..middle])
    requires |moved| == |s| && now == Patch(moved, start, s[middle + 1..end + 1])
    ensures Exchanged(s, now, start, middle, end)
  {
    var at, first, second := end - (middle - start) + 1, s[start..middle], s[middle + 1..end + 1];
    forall i | 0 <= i < |s| && i != start + (end - middle) ensures now[i] == s[Source(start, middle, end, i)] {
      Patched(s, at, first, i);
      Patched(moved, start, second, i);
    }
  }

  lemma FirstSaved(s: seq<Token>, moved: seq<Token>, now: seq<Token>, start: nat, middle: nat, end: nat)
    requires start <= middle <= end < |s| && middle - start >= end - middle
    requires moved == Patch(s, start, s[middle + 1..end + 1])
    requires |moved| == |s| && now == Patch(moved, end - (middle - start) + 1, s[start..middle])
    ensures Exchanged(s, now, start, middle, end)
  {
    var at, first, second := end - (middle - start) + 1, s[start..middle], s[middle + 1..end + 1];
    forall i | 0 <= i < |s| && i != start + (end - middle) ensures now[i] == s[Source(start, middle, end, i)] {
      Patched(s, start, second, i);
      Patched(moved, at, first, i);
    }
  }

  /** Where the middle token is after a switch; switching around it again undoes the switch. */
  lemma SwitchTwice(cache: nat, s: seq<Token>, t: seq<Token>, u: seq<Token>, start: nat, middle: nat, end: nat)
    requires start <= middle <= end < |s| && Numbered(cache, s)
    requires Switched(cache, s, t, start, middle, end)
    requires Switched(cache, t, u, start, start + (end - middle), end)
    ensures u == s && Numbered(cache, t)
  {
    var mid2 := start + (end - middle);
    forall i | 0 <= i < |s| ensures u[i] == s[i] {
      if start <= i <= end {
        assert Source(start, middle, end, Source(start, mid2, end, i)) == i;
        assert u[i] == At(cache, i, t[Source(start, mid2, end, i)]);
      }
    }
    assert forall i :: 0 <= i < |t| ==> t[i].offset == Number(cache, i);
  }

  /** The types of the tokens of a range. */
  function Types(tokens: seq<Token>, from: nat, to: nat): seq<int>
    requires from <= to <= |tokens|
  {
    seq(to - from, i requires 0 <= i < to - from => tokens[from + i].tokenType)
  }

  lemma SameTypes(s: seq<Token>, t: seq<Token>, from: nat, to: nat)
    requires from <= to <= |s| == |t| && forall i :: from <= i < to ==> t[i] == s[i]
    ensures Types(t, from, to) == Types(s, from, to)
  {
  }

  /** What the parser reads in the header after a switch: third expression, semicolon, second expression. */
  lemma HeaderSwitched(cache: nat, s: seq<Token>, t: seq<Token>, start: nat, middle: nat, end: nat)
    requires start <= middle <= end < |s| && Switched(cache, s, t, start, middle, end)
    ensures Types(t, start, end + 1) == Types(s, middle + 1, end + 1) + [s[middle].tokenType] + Types(s, start, middle)
    ensures Types(t, 0, start) == Types(s, 0, start) && Types(t, end + 1, |t|) == Types(s, end + 1, |s|)
  {
    var x, y := Types(t, start, end + 1), Types(s, middle + 1, end + 1) + [s[middle].tokenType]
      + Types(s, start, middle);
    assert |x| == |y|;
    forall k | 0 <= k < |x| ensures x[k] == y[k] {
      assert t[start + k].tokenType == s[Source(start, middle, end, start + k)].tokenType;
    }
    SameTypes(s, t, 0, start);
    SameTypes(s, t, end + 1, |s|);
  }

  // ----- the headers of a script, and which of them the control machine takes to be swapped -----

  /**
   The places of a `for` header as written: its second expression,
   its second semicolon, and the end of its third expression.
   */
  datatype Header = Header(start: nat, middle: nat, end: nat)

  /** The headers lie within the tokens, and apart from each other. */
  predicate Apart(headers: map<nat, Header>, n: nat) {
    && (forall o :: o in headers ==> headers[o].start <= headers[o].middle <= headers[o].end < n)
    && (forall o, q ::
        o in headers && q in headers && o != q ==>
          headers[o].end < headers[q].start || headers[q].end < headers[o].start)
  }

  predicate Within(h: Header, i: nat) {
    h.start <= i <= h.end
  }

  /** The cache holds the tokens as written, but for the headers in `swapped`, whose parts have changed places. */
  ghost predicate Shows(cache: nat, written: seq<Token>, now: seq<Token>, headers: map<nat, Header>, swapped: set<nat>)
    requires Apart(headers, |written|)
  {
    && |now| == |written|
    && (forall o, i: nat {:trigger Within(headers[o], i)} :: o in headers && Within(headers[o], i) ==>
         now[i] == if o in swapped then
           At(cache, i, written[Source(headers[o].start, headers[o].middle, headers[o].end, i)]) else written[i])
    && (forall i {:trigger now[i]} ::
        0 <= i < |now| && (forall o :: o in headers ==> !Within(headers[o], i)) ==> now[i] == written[i])
  }

  /** Where the second semicolon is now. */
  function MiddleNow(h: Header, swapped: bool): nat
    requires h.start <= h.middle <= h.end
  {
    if swapped then h.start + (h.end - h.middle) else h.middle
  }

  /** What tc_switch does to the tokens of a header is what SwitchHeader does to `swapped`. */
  lemma SwitchShows(cache: nat, written: seq<Token>, now: seq<Token>, next: seq<Token>, headers: map<nat, Header>,
                    m: S.Machine, off: nat)
    requires Numbered(cache, written) && Apart(headers, |written|) && off in headers
    requires Shows(cache, written, now, headers, m.swapped)
    requires var h := headers[off]; Switched(cache, now, next, h.start, MiddleNow(h, off in m.swapped), h.end)
    ensures Shows(cache, written, next, headers, S.SwitchHeader(m, off).swapped)
  {
    var h, was := headers[off], off in m.swapped;
    var mid := MiddleNow(h, was);
    var swapped := S.SwitchHeader(m, off).swapped;
    forall o, i: nat | o in headers && Within(headers[o], i)
      ensures next[i] == if o in swapped then
        At(cache, i, written[Source(headers[o].start, headers[o].middle, headers[o].end, i)]) else written[i]
    {
      if o == off {
        var j := Source(h.start, mid, h.end, i);
        assert Within(h, j) && next[i] == At(cache, i, now[j]);
        if was { assert Source(h.start, h.middle, h.end, j) == i; }
      } else {
        assert !Within(h, i) && next[i] == now[i];
      }
    }
    forall i | 0 <= i < |next| && (forall o :: o in headers ==> !Within(headers[o], i)) ensures next[i] == written[i] {
      assert !Within(h, i) && next[i] == now[i];
    }
  }

  /**
   In a header that is swapped the parser reads the third
   expression second, and the second third, as the walk does.
   */
  lemma HeaderReads(cache: nat, written: seq<Token>, now: seq<Token>, headers: map<nat, Header>, swapped: set<nat>,
                    off: nat)
    requires Apart(headers, |written|) && off in headers && Shows(cache, written, now, headers, swapped)
    ensures var h, mid := headers[off], MiddleNow(headers[off], off in swapped);
      && mid < |now| && now[mid].tokenType == written[h.middle].tokenType
      && Types(now, h.start, mid)
           == (if off in swapped then Types(written, h.middle + 1, h.end + 1) else Types(written, h.start, h.middle))
      && Types(now, mid + 1, h.end + 1)
           == (if off in swapped then Types(written, h.start, h.middle) else Types(written, h.middle + 1, h.end + 1))
  {
    var h := headers[off];
    forall i: nat | h.start <= i <= h.end
      ensures now[i].tokenType == written[if off in swapped then Source(h.start, h.middle, h.end, i) else i].tokenType
    {
      assert Within(headers[off], i);
    }
    if off in swapped { PartsSwapped(written, now, h); } else { PartsAsWritten(written, now, h); }
  }

  lemma PartsSwapped(s: seq<Token>, t: seq<Token>, h: Header)
    requires h.start <= h.middle <= h.end < |s| == |t|
    requires forall i: nat {:trigger t[i]} ::
      h.start <= i <= h.end ==> t[i].tokenType == s[Source(h.start, h.middle, h.end, i)].tokenType
    ensures var mid := MiddleNow(h, true);
      && t[mid].tokenType == s[h.middle].tokenType
      && Types(t, h.start, mid) == Types(s, h.middle + 1, h.end + 1)
      && Types(t, mid + 1, h.end + 1) == Types(s, h.start, h.middle)
  {
    SamePart(s, t, h.middle + 1, h.start, h.end - h.middle);
    SamePart(s, t, h.start, MiddleNow(h, true) + 1, h.middle - h.start);
  }

  lemma PartsAsWritten(s: seq<Token>, t: seq<Token>, h: Header)
    requires h.start <= h.middle <= h.end < |s| == |t|
    requires forall i: nat {:trigger t[i]} :: h.start <= i <= h.end ==> t[i].tokenType == s[i].tokenType
    ensures t[h.middle].tokenType == s[h.middle].tokenType
    ensures Types(t, h.start, h.middle) == Types(s, h.start, h.middle)
    ensures Types(t, h.middle + 1, h.end + 1) == Types(s, h.middle + 1, h.end + 1)
  {
  }

  lemma SamePart(s: seq<Token>, t: seq<Token>, from: nat, at: nat, n: nat)
    requires from + n <= |s| && at + n <= |t|
    requires forall i {:trigger t[i]} :: at <= i < at + n ==> t[i].tokenType == s[i - at + from].tokenType
    ensures Types(t, at, at + n) == Types(s, from, from + n)
  {
  }

  class TokenCache {
    var tokens: array<Token>
    var count: nat

    constructor (blockSize: nat)
      ensures tokens.Length == blockSize && count == 0 && fresh(tokens)
    {
      tokens := new Token[blockSize](_ => Token(0, 0, 0, false));
      count := 0;
    }

    /** memcpy, from tokens saved elsewhere. */
    method Restore(at: nat, src: array<Token>)
      requires tokens != src && at + src.Length <= tokens.Length
      modifies tokens
      ensures tokens[..] == Patch(old(tokens[..]), at, src[..])
    {
      var i, n := 0, src.Length;
      while i < n
        invariant 0 <= i <= n
        invariant forall k {:trigger tokens[k]} ::
          0 <= k < tokens.Length ==> tokens[k] == if at <= k < at + i then src[k - at] else old(tokens[k])
      {
        tokens[at + i] := src[i];
        i := i + 1;
      }
    }

    /** memcpy, to save tokens elsewhere. */
    method Save(from: nat, to: nat) returns (temp: array<Token>)
      requires from <= to <= tokens.Length
      ensures fresh(temp) && temp.Length == to - from && temp[..] == tokens[..][from..to]
    {
      temp := new Token[to - from](_ => Token(0, 0, 0, false));
      var i := 0;
      while i < to - from
        invariant 0 <= i <= to - from
        invariant temp[..i] == tokens[from..from + i]
      {
        temp[i] := tokens[from + i];
        i := i + 1;
      }
    }

    /** memcpy within the tokens, where the ranges do not overlap. */
    method Move(at: nat, from: nat, to: nat)
      requires from <= to <= tokens.Length && at + (to - from) <= tokens.Length
        && (at + (to - from) <= from || to <= at)
      modifies tokens
      ensures |tokens[..]| == |old(tokens[..])| && tokens[..] == Patch(old(tokens[..]), at, old(tokens[..])[from..to])
    {
      var i := 0;
      ghost var was := tokens[..];
      while i < to - from
        invariant 0 <= i <= to - from
        invariant forall k {:trigger tokens[k]} ::
          0 <= k < tokens.Length ==> tokens[k] == if at <= k < at + i then was[k - at + from] else was[k]
      {
        assert tokens[from + i] == was[from + i];
        tokens[at + i] := tokens[from + i];
        i := i + 1;
      }
    }

    /** The memcpys if the second range is the longer one; the middle token is overwritten. */
    method SaveSecond(start: nat, middle: nat, end: nat)
      requires start <= middle <= end < tokens.Length && middle - start < end - middle
      modifies tokens
      ensures Exchanged(old(tokens[..]), tokens[..], start, middle, end)
    {
      ghost var was := tokens[..];
      var temp := Save(middle + 1, end + 1);
      ghost var saved := temp[..];
      Move(end - (middle - start) + 1, start, middle);
      ghost var moved := tokens[..];
      Restore(start, temp);
      assert temp[..] == saved;
      SecondSaved(was, moved, tokens[..], start, middle, end);
    }

    /** The memcpys if it is not. */
    method SaveFirst(start: nat, middle: nat, end: nat)
      requires start <= middle <= end < tokens.Length && middle - start >= end - middle
      modifies tokens
      ensures Exchanged(old(tokens[..]), tokens[..], start, middle, end)
    {
      ghost var was := tokens[..];
      var temp := Save(start, middle);
      ghost var saved := temp[..];
      Move(start, middle + 1, end + 1);
      ghost var moved := tokens[..];
      Restore(end - (middle - start) + 1, temp);
      assert temp[..] == saved;
      FirstSaved(was, moved, tokens[..], start, middle, end);
    }

    /** The last loop of tc_switch. */
    method Renumber(active: nat, start: nat, end: nat)
      requires start <= end < tokens.Length
      modifies tokens
      ensures forall k :: 0 <= k < tokens.Length ==>
        tokens[k] == if start <= k <= end then At(active, k, old(tokens[k])) else old(tokens[k])
    {
      var i := start;
      while i <= end
        invariant start <= i <= end + 1
        invariant forall k :: 0 <= k < tokens.Length ==>
          tokens[k] == if start <= k < i then At(active, k, old(tokens[k])) else old(tokens[k])
      {
        tokens[i] := tokens[i].(offset := Number(active, i));
        i := i + 1;
      }
    }

    /**
     tc_switch. It fails exactly when the three numbers are not places of the cache in order;
     otherwise the ranges on both sides of the middle token change places, and nothing else moves.
     */
    method TcSwitch(startNumber: nat, endNumber: nat, middleNumber: nat) returns (ok: bool)
      requires count <= tokens.Length
      requires Numbered(CacheOf(startNumber), tokens[..count])
      modifies tokens
      ensures ok <==> PlaceOf(startNumber) <= PlaceOf(middleNumber) <= PlaceOf(endNumber) < count
      ensures ok ==>
        Switched(CacheOf(startNumber), old(tokens[..count]), tokens[..count], PlaceOf(startNumber),
                 PlaceOf(middleNumber), PlaceOf(endNumber))
      ensures forall k :: 0 <= k < tokens.Length && (!ok || count <= k) ==> tokens[k] == old(tokens[k])
    {
      var active := CacheOf(startNumber);
      var start, end, middle := PlaceOf(startNumber), PlaceOf(endNumber), PlaceOf(middleNumber);
      if end >= count || middle < start || middle > end {
        return false;
      }
      ok := true;
      if start == middle == end {
        return;
      }
      var middleToken := tokens[middle];
      if middle - start < end - middle {
        SaveSecond(start, middle, end);
      } else {
        SaveFirst(start, middle, end);
      }
      tokens[start + (end - middle)] := middleToken;
      Renumber(active, start, end);
    }
  }
}
