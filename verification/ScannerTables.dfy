/**
 The compressed tables of a flex scanner and the automaton they encode. `limit` is the first
 template state (1258 in language-scanner.c), `jamBase` the base at which matching stops (6703),
 `jam` the jammed state, `eob` the state every text state enters on the end-of-buffer mark.
 */
module ScannerTables {
  import opened Wrappers

  const END_OF_BUFFER_CHAR: Byte := 0

  datatype Tables = Tables(
    ec: seq<nat>,        // class of a byte
    accept: seq<nat>,    // action of a state, 0 if it accepts nothing
    base: seq<nat>,
    def: seq<nat>,
    chk: seq<int>,
    nxt: seq<nat>,
    meta: seq<nat>,
    rank: seq<nat>,      // how far a state is from one whose row is complete, along `def`
    limit: nat,
    jamBase: nat,
    jam: nat,
    eob: nat,
    eobAction: nat,
    start: nat,
    live: set<nat>)      // the states reached on text

  /** Class 0 is the end-of-buffer mark; a NUL that is part of the text has class 1. */
  const EOB_CLASS := 0
  const NUL_CLASS := 1

  /** Row `s` answers class `c` itself, with a proper state, or leaves it to a state nearer to a complete row. */
  predicate Answers(t: Tables, s: nat, c: nat)
    requires |t.def| == |t.base| == |t.rank| && |t.nxt| == |t.chk|
    requires s < |t.base|
  {
    var slot := t.base[s] + c;
    && slot < |t.chk|
    && (t.chk[slot] == s ==> 0 < t.nxt[slot] < t.limit)
    && (t.chk[slot] != s ==> 0 < t.def[s] < |t.base| && t.rank[t.def[s]] < t.rank[s])
  }

  /** Every row answers; state 0 stands for none and has no row. */
  predicate Rows(t: Tables) {
    && |t.def| == |t.base| == |t.rank| && |t.nxt| == |t.chk| && t.limit <= |t.base| && t.limit <= |t.accept|
    && (forall c :: 0 <= c < |t.meta| ==> t.meta[c] < |t.meta|)
    && (forall s, c :: 0 < s < |t.base| && 0 <= c < |t.meta| ==> Answers(t, s, c))
  }

  /** The transition function the tables encode. */
  function Step(t: Tables, s: nat, c: nat): (r: nat)
    requires Rows(t) && 0 < s < |t.base| && c < |t.meta|
    ensures 0 < r < t.limit
    decreases if s < |t.rank| then t.rank[s] else 0
  {
    assert Answers(t, s, c);
    if t.chk[t.base[s] + c] == s then t.nxt[t.base[s] + c]
    else Step(t, t.def[s], if t.def[s] >= t.limit then t.meta[c] else c)
  }

  /** A row looked at, and the class looked for in it. */
  datatype Look = Look(row: nat, class_: nat)

  /**
   From row to row along `def` as long as the row has no entry for the class, which is translated by
   `meta` on the way into every template row.
   */
  predicate Followed(t: Tables, path: seq<Look>) {
    && |t.def| == |t.base| && path != []
    && (forall i {:trigger path[i]} :: 0 <= i < |path| ==>
        path[i].row < |t.base| && path[i].class_ < |t.meta| && t.base[path[i].row] + path[i].class_ < |t.chk|)
    && (forall i {:trigger path[i]} :: 0 <= i < |path| - 1 ==>
        t.chk[t.base[path[i].row] + path[i].class_] != path[i].row)
    && (forall i {:trigger t.def[path[i].row]} :: 0 <= i < |path| - 1 ==>
        var row := t.def[path[i].row];
        path[i + 1] == Look(row, if row >= t.limit then t.meta[path[i].class_] else path[i].class_))
  }

  lemma OneMoreLook(t: Tables, first: Look, rest: seq<Look>)
    requires Followed(t, rest) && first.row < |t.base| && first.class_ < |t.meta|
    requires t.base[first.row] + first.class_ < |t.chk| && t.chk[t.base[first.row] + first.class_] != first.row
    requires rest[0] == (
      var row := t.def[first.row]; Look(row, if row >= t.limit then t.meta[first.class_] else first.class_))
    ensures Followed(t, [first] + rest)
  {
    var path := [first] + rest;
    assert forall i {:trigger path[i]} :: 0 < i < |path| ==> path[i] == rest[i - 1];
    assert path[0] == first;
    forall i | 0 <= i < |path| - 1
      ensures var row := t.def[path[i].row];
        path[i + 1] == Look(row, if row >= t.limit then t.meta[path[i].class_] else path[i].class_)
    {
      if i > 0 { assert path[i] == rest[i - 1] && path[i + 1] == rest[i]; }
    }
  }

  /** The transition function leads to the first row that has an entry for the class. */
  lemma {:induction false} StepFollowsRows(t: Tables, s: nat, c: nat) returns (path: seq<Look>)
    requires Rows(t) && 0 < s < |t.base| && c < |t.meta|
    ensures Followed(t, path) && path[0] == Look(s, c)
    ensures var last := path[|path| - 1];
      && t.chk[t.base[last.row] + last.class_] == last.row
      && Step(t, s, c) == t.nxt[t.base[last.row] + last.class_]
    decreases t.rank[s]
  {
    assert Answers(t, s, c);
    path := [Look(s, c)];
    if t.chk[t.base[s] + c] != s {
      var rest := StepFollowsRows(t, t.def[s], if t.def[s] >= t.limit then t.meta[c] else c);
      OneMoreLook(t, Look(s, c), rest);
      path := path + rest;
    }
  }

  /** One transition through the compressed tables; `path` is what it looks at. */
  method Advance(t: Tables, state: nat, class_: nat) returns (r: nat, ghost path: seq<Look>)
    requires Rows(t) && 0 < state < |t.base| && class_ < |t.meta|
    ensures r == Step(t, state, class_)
    ensures path != [] && path[0] == Look(state, class_)
    ensures forall i {:trigger path[i]} :: 0 <= i < |path| ==>
      path[i].row < |t.base| && path[i].class_ < |t.meta| && t.base[path[i].row] + path[i].class_ < |t.nxt| == |t.chk|
    ensures forall i {:trigger path[i]} :: 0 <= i < |path| - 1 ==>
      t.chk[t.base[path[i].row] + path[i].class_] != path[i].row
    ensures forall i {:trigger t.def[path[i].row]} :: 0 <= i < |path| - 1 ==>
      var row := t.def[path[i].row];
      path[i + 1] == Look(row, if row >= t.limit then t.meta[path[i].class_] else path[i].class_)
    ensures var last := path[|path| - 1];
      t.chk[t.base[last.row] + last.class_] == last.row && r == t.nxt[t.base[last.row] + last.class_]
  {
    path := StepFollowsRows(t, state, class_);
    var s: nat, c: nat := state, class_;
    assert Answers(t, s, c);
    while t.chk[t.base[s] + c] != s
      invariant 0 < s < |t.base| && c < |t.meta| && Step(t, s, c) == Step(t, state, class_)
      invariant Answers(t, s, c)
      decreases t.rank[s]
    {
      s := t.def[s];
      if s >= t.limit { c := t.meta[c]; }
      assert Answers(t, s, c);
    }
    r := t.nxt[t.base[s] + c];
  }

  predicate Jams(t: Tables, s: nat)
    requires s < |t.base|
  {
    t.base[s] == t.jamBase
  }

  /** A text state runs into the end-of-buffer state on the mark, and does not have its action. */
  predicate MarkedState(t: Tables, s: nat)
    requires Rows(t) && t.limit <= |t.base| && |t.meta| > NUL_CLASS
  {
    0 < s < t.limit ==> t.accept[s] != t.eobAction && Step(t, s, EOB_CLASS) == t.eob
  }

  /** On text a text state goes to a text state, and a jamming one to the jammed state. */
  predicate TextStep(t: Tables, s: nat, c: nat)
    requires Rows(t) && c < |t.meta|
  {
    0 < s < t.limit ==> Step(t, s, c) in t.live && (Jams(t, s) ==> Step(t, s, c) == t.jam)
  }

  /** After the mark the end-of-buffer state jams. */
  predicate MarkJams(t: Tables, c: nat)
    requires Rows(t) && c < |t.meta| && 0 < t.eob < t.limit
  {
    Step(t, t.eob, c) == t.jam
  }

  /** Any first character is accepted, by the default rule if by no other. */
  predicate FirstAccepted(t: Tables, c: nat)
    requires Rows(t) && c < |t.meta| && 0 < t.start < t.limit
  {
    t.accept[Step(t, t.start, c)] != 0
  }

  /** What a generated scanner's tables satisfy. */
  predicate WellFormed(t: Tables) {
    && Rows(t) && |t.meta| > NUL_CLASS
    && |t.ec| == 256 && t.ec[0] == EOB_CLASS && (forall b :: 0 < b < 256 ==> 1 <= t.ec[b] < |t.meta|)
    && t.start in t.live && t.jam in t.live && t.eob !in t.live && 0 < t.eob < t.limit
    && (forall s :: s in t.live ==> 0 < s < t.limit)
    && Jams(t, t.jam) && t.accept[t.jam] == 0
    && !Jams(t, t.eob) && t.accept[t.eob] == t.eobAction != 0
    && (forall s {:trigger MarkedState(t, s)} :: s in t.live ==> MarkedState(t, s))
    && (forall s, c {:trigger TextStep(t, s, c)} :: s in t.live && 1 <= c < |t.meta| ==> TextStep(t, s, c))
    && (forall c {:trigger MarkJams(t, c)} :: 0 <= c < |t.meta| ==> MarkJams(t, c))
    && (forall c {:trigger FirstAccepted(t, c)} :: 1 <= c < |t.meta| ==> FirstAccepted(t, c))
  }

  /** The class of a byte of text. */
  function Class(t: Tables, b: Byte): (c: nat)
    requires WellFormed(t)
    ensures 1 <= c < |t.meta|
  {
    if b == 0 then NUL_CLASS else t.ec[b]
  }

  /** The transition on a byte of text. */
  function Move(t: Tables, s: nat, b: Byte): (r: nat)
    requires WellFormed(t) && s in t.live
    ensures r in t.live && 0 < r < t.limit
    ensures Jams(t, s) ==> r == t.jam
  {
    assert TextStep(t, s, Class(t, b));
    Step(t, s, Class(t, b))
  }

  /** The state after reading the first `n` bytes of a text from the start. */
  function After(t: Tables, text: seq<Byte>, n: nat): (s: nat)
    requires WellFormed(t) && n <= |text|
    ensures s in t.live && 0 < s < t.limit
  {
    if n == 0 then t.start else Move(t, After(t, text, n - 1), text[n - 1])
  }

  /** Some rule accepts the first `n` bytes of a text. */
  predicate Accepts(t: Tables, text: seq<Byte>, n: nat)
    requires WellFormed(t) && n <= |text|
  {
    t.accept[After(t, text, n)] != 0
  }

  /** Nothing longer than `n` bytes is accepted. */
  predicate NothingBeyond(t: Tables, text: seq<Byte>, n: nat)
    requires WellFormed(t)
  {
    forall j {:trigger Accepts(t, text, j)} :: n < j <= |text| ==> !Accepts(t, text, j)
  }

  /** The maximal munch: the longest prefix of `text` that some rule accepts. */
  predicate Longest(t: Tables, text: seq<Byte>, k: nat)
    requires WellFormed(t)
  {
    k <= |text| && Accepts(t, text, k) && NothingBeyond(t, text, k)
  }

  lemma LongestIsUnique(t: Tables, text: seq<Byte>, j: nat, k: nat)
    requires WellFormed(t) && Longest(t, text, j) && Longest(t, text, k)
    ensures j == k
  {
  }

  lemma FirstByteAccepted(t: Tables, text: seq<Byte>)
    requires WellFormed(t) && text != []
    ensures Accepts(t, text, 1)
  {
    assert After(t, text, 0) == t.start;
    assert FirstAccepted(t, Class(t, text[0]));
  }

  /** Once the automaton is in a jamming state, or its next step jams, nothing longer is accepted. */
  lemma {:induction false} DeadAfterJam(t: Tables, text: seq<Byte>, n: nat, j: nat)
    requires WellFormed(t) && n < j <= |text|
    requires Jams(t, After(t, text, n)) || Move(t, After(t, text, n), text[n]) == t.jam
    ensures After(t, text, j) == t.jam
    decreases j
  {
    if n < j - 1 { DeadAfterJam(t, text, n, j - 1); }
  }

  lemma NothingLonger(t: Tables, text: seq<Byte>, n: nat)
    requires WellFormed(t) && n <= |text|
    requires Jams(t, After(t, text, n)) || (n < |text| && Move(t, After(t, text, n), text[n]) == t.jam)
    ensures NothingBeyond(t, text, n)
  {
    forall j | n < j <= |text| ensures !Accepts(t, text, j) { DeadAfterJam(t, text, n, j); }
  }
}
