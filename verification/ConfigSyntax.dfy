/** Reading a configuration file statement by statement, and that this reads exactly the sentences of the grammar. */
module ConfigSyntax {
  import opened ConfigGrammar

  /** What the scanner hands over: its return code and the text in `cfglval`. */
  datatype Token = Token(code: nat, text: string)

  datatype Statement =
    | Assign(name: string, value: string)
    | Bare(name: string)
    | Load(library: string)
    | Section(title: string)
    | Blank

  /** The statements completed before the end, or before the first syntax error if `ok` is false. */
  datatype Reading = Reading(ok: bool, done: seq<Statement>)

  function Kind(t: Token): nat {
    Translate(t.code)
  }

  function Kinds(ts: seq<Token>): seq<int> {
    seq(|ts|, i requires 0 <= i < |ts| => Kind(ts[i]))
  }

  predicate IsString(k: int) {
    k == STRING || k == ENCAPSULATED
  }

  predicate IsValue(k: int) {
    IsString(k) || k == TRUE || k == FALSE || k == NEWLINE
  }

  function ValueOf(t: Token): string {
    if Kind(t) == NEWLINE then "" else t.text
  }

  function After(s: Statement, r: Reading): Reading {
    r.(done := [s] + r.done)
  }

  const FAILED := Reading(false, [])

  function Read(ts: seq<Token>): Reading
    decreases |ts|, 1
  {
    if ts == [] then Reading(true, [])
    else if IsString(Kind(ts[0])) then ReadNamed(ts[0].text, ts[1..])
    else if Kind(ts[0]) == EXTENSION then ReadExtension(ts[1..])
    else if Kind(ts[0]) == SECTION then After(Section(ts[0].text), Read(ts[1..]))
    else if Kind(ts[0]) == NEWLINE then After(Blank, Read(ts[1..]))
    else FAILED
  }

  /** After a string: an assignment if `=` follows, otherwise a statement of its own. */
  function ReadNamed(name: string, ts: seq<Token>): Reading
    decreases |ts|, 2
  {
    if ts != [] && Kind(ts[0]) == EQUALS then ReadValue(name, ts[1..]) else After(Bare(name), Read(ts))
  }

  function ReadValue(name: string, ts: seq<Token>): Reading
    decreases |ts|, 2
  {
    if ts != [] && IsValue(Kind(ts[0])) then After(Assign(name, ValueOf(ts[0])), Read(ts[1..])) else FAILED
  }

  function ReadExtension(ts: seq<Token>): Reading
    decreases |ts|, 2
  {
    if ts != [] && Kind(ts[0]) == EQUALS then ReadLibrary(ts[1..]) else FAILED
  }

  function ReadLibrary(ts: seq<Token>): Reading
    decreases |ts|, 2
  {
    if ts != [] && IsString(Kind(ts[0])) then After(Load(ts[0].text), Read(ts[1..])) else FAILED
  }

  // ----- the same on internal tokens -----

  /** The token sequences that make one statement. */
  predicate IsStatement(ks: seq<int>) {
    || (|ks| == 3 && IsString(ks[0]) && ks[1] == EQUALS && IsValue(ks[2]))
    || (|ks| == 1 && IsString(ks[0]))
    || (|ks| == 3 && ks[0] == EXTENSION && ks[1] == EQUALS && IsString(ks[2]))
    || (|ks| == 1 && (ks[0] == SECTION || ks[0] == NEWLINE))
  }

  /** How many tokens the statement at the start of `ks` takes, 0 if there is none. */
  function FirstLength(ks: seq<int>): (n: nat)
    ensures n <= |ks|
  {
    if |ks| >= 2 && IsString(ks[0]) && ks[1] == EQUALS then (if |ks| >= 3 && IsValue(ks[2]) then 3 else 0)
    else if |ks| >= 3 && ks[0] == EXTENSION && ks[1] == EQUALS && IsString(ks[2]) then 3
    else if |ks| >= 1 && (IsString(ks[0]) || ks[0] == SECTION || ks[0] == NEWLINE) then 1
    else 0
  }

  predicate Readable(ks: seq<int>) {
    ks == [] || (var n := FirstLength(ks); n > 0 && Readable(ks[n..]))
  }

  lemma KindsFrom(ts: seq<Token>, n: nat)
    requires n <= |ts|
    ensures Kinds(ts)[n..] == Kinds(ts[n..])
  {
  }

  /** Reading takes the first statement, if there is one, and goes on behind it. */
  lemma FirstStatement(ts: seq<Token>)
    requires ts != []
    ensures var n := FirstLength(Kinds(ts)); Read(ts).ok <==> n > 0 && Read(ts[n..]).ok
  {
    var ks := Kinds(ts);
    assert ks[0] == Kind(ts[0]);
    if |ts| >= 2 {
      assert ks[1] == Kind(ts[1]) && ts[1..][0] == ts[1] && ts[1..][1..] == ts[2..];
      if |ts| >= 3 { assert ks[2] == Kind(ts[2]) && ts[2..][0] == ts[2] && ts[2..][1..] == ts[3..]; }
    }
    if IsString(ks[0]) {
      assert Read(ts) == ReadNamed(ts[0].text, ts[1..]);
      if |ts| >= 2 && ks[1] == EQUALS {
        assert ReadNamed(ts[0].text, ts[1..]) == ReadValue(ts[0].text, ts[2..]);
      } else {
        assert ReadNamed(ts[0].text, ts[1..]) == After(Bare(ts[0].text), Read(ts[1..]));
      }
    } else if ks[0] == EXTENSION {
      assert Read(ts) == ReadExtension(ts[1..]);
      if |ts| >= 2 && ks[1] == EQUALS {
        assert ReadExtension(ts[1..]) == ReadLibrary(ts[2..]);
      }
    }
  }

  lemma {:induction false} ReadIsReadable(ts: seq<Token>)
    ensures Read(ts).ok <==> Readable(Kinds(ts))
    decreases |ts|
  {
    if ts != [] {
      var n := FirstLength(Kinds(ts));
      FirstStatement(ts);
      if n > 0 {
        KindsFrom(ts, n);
        ReadIsReadable(ts[n..]);
      }
    }
  }

  // ----- derivations of statement and string -----

  lemma Rules()
    ensures Rhs(1) == [11, 12] && Rhs(2) == [] && Rhs(3) == [13, 9, 14] && Rhs(4) == [13] && Rhs(5) == [8, 9, 13]
    ensures Rhs(6) == [5] && Rhs(7) == [10] && Rhs(8) == [3] && Rhs(9) == [4] && Rhs(10) == [13]
    ensures Rhs(11) == [6] && Rhs(12) == [7] && Rhs(13) == [10]
  {
  }

  lemma OneKid(f: Forest, a: int)
    requires DerivesAll(f, [a])
    ensures f.Cons? && Derives(f.first, a) && f.rest == Nil && YieldAll(f) == Yield(f.first)
  {
    assert [a][1..] == [];
  }

  lemma ThreeKids(f: Forest, a: int, b: int, c: int)
    requires DerivesAll(f, [a, b, c])
    ensures f.Cons? && f.rest.Cons? && f.rest.rest.Cons? && f.rest.rest.rest == Nil
    ensures Derives(f.first, a) && Derives(f.rest.first, b) && Derives(f.rest.rest.first, c)
    ensures YieldAll(f) == Yield(f.first) + Yield(f.rest.first) + Yield(f.rest.rest.first)
  {
    assert [a, b, c][1..] == [b, c];
    OneKid(f.rest.rest, c);
  }

  lemma TerminalYield(t: Tree, k: int)
    requires Derives(t, k) && k < YYNTBASE
    ensures Yield(t) == [k]
  {
    if t.Node? { assert false; }
  }

  lemma StringYield(t: Tree)
    requires Derives(t, 13)
    ensures |Yield(t)| == 1 && IsString(Yield(t)[0])
  {
    Rules();
    assert t.rule == 8 || t.rule == 9;
    OneKid(t.kids, Rhs(t.rule)[0]);
    TerminalYield(t.kids.first, Rhs(t.rule)[0]);
  }

  lemma ValueYield(t: Tree)
    requires Derives(t, 14)
    ensures |Yield(t)| == 1 && IsValue(Yield(t)[0])
  {
    Rules();
    assert 10 <= t.rule <= 13;
    OneKid(t.kids, Rhs(t.rule)[0]);
    if t.rule == 10 { StringYield(t.kids.first); } else { TerminalYield(t.kids.first, Rhs(t.rule)[0]); }
  }

  lemma StatementYield(t: Tree)
    requires Derives(t, 12)
    ensures IsStatement(Yield(t))
  {
    Rules();
    assert 3 <= t.rule <= 7;
    match t.rule {
      case 3 =>
        ThreeKids(t.kids, 13, 9, 14);
        StringYield(t.kids.first);
        TerminalYield(t.kids.rest.first, 9);
        ValueYield(t.kids.rest.rest.first);
      case 4 =>
        OneKid(t.kids, 13);
        StringYield(t.kids.first);
      case 5 =>
        ThreeKids(t.kids, 8, 9, 13);
        TerminalYield(t.kids.first, 8);
        TerminalYield(t.kids.rest.first, 9);
        StringYield(t.kids.rest.rest.first);
      case 6 =>
        OneKid(t.kids, 5);
        TerminalYield(t.kids.first, 5);
      case 7 =>
        OneKid(t.kids, 10);
        TerminalYield(t.kids.first, 10);
    }
  }

  function One(t: Tree): Forest { Cons(t, Nil) }

  function StringTree(k: int): Tree {
    Node(if k == STRING then 8 else 9, One(Leaf(k)))
  }

  function ValueTree(k: int): Tree {
    if IsString(k) then Node(10, One(StringTree(k)))
    else Node(if k == TRUE then 11 else if k == FALSE then 12 else 13, One(Leaf(k)))
  }

  function StatementTree(ks: seq<int>): Tree
    requires IsStatement(ks)
  {
    if |ks| == 3 then
      if ks[0] == EXTENSION then Node(5, Cons(Leaf(EXTENSION), Cons(Leaf(EQUALS), One(StringTree(ks[2])))))
      else Node(3, Cons(StringTree(ks[0]), Cons(Leaf(EQUALS), One(ValueTree(ks[2])))))
    else if IsString(ks[0]) then Node(4, One(StringTree(ks[0])))
    else Node(if ks[0] == SECTION then 6 else 7, One(Leaf(ks[0])))
  }

  lemma StringTreeDerives(k: int)
    requires IsString(k)
    ensures Derives(StringTree(k), 13) && Yield(StringTree(k)) == [k]
  {
    Rules();
    assert Rhs(StringTree(k).rule) == [k];
  }

  lemma ValueTreeDerives(k: int)
    requires IsValue(k)
    ensures Derives(ValueTree(k), 14) && Yield(ValueTree(k)) == [k]
  {
    Rules();
    if IsString(k) { StringTreeDerives(k); } else { assert Rhs(ValueTree(k).rule) == [k]; }
  }

  lemma StatementTreeDerives(ks: seq<int>)
    requires IsStatement(ks)
    ensures Derives(StatementTree(ks), 12) && Yield(StatementTree(ks)) == ks
  {
    Rules();
    var t := StatementTree(ks);
    if |ks| == 3 {
      var r := Rhs(t.rule);
      assert r[1..] == [r[1], r[2]] && r[1..][1..] == [r[2]] && r[1..][1..][1..] == [];
      if ks[0] == EXTENSION { StringTreeDerives(ks[2]); } else { StringTreeDerives(ks[0]); ValueTreeDerives(ks[2]); }
    } else if IsString(ks[0]) {
      StringTreeDerives(ks[0]);
    } else {
      assert Rhs(t.rule) == [ks[0]];
    }
  }

  // ----- the grammar is what Read reads -----

  lemma FirstLengthAppend(ks: seq<int>, s: seq<int>)
    requires FirstLength(ks) > 0 && IsStatement(s)
    ensures FirstLength(ks + s) == FirstLength(ks)
  {
    var all := ks + s;
    assert all[0] == ks[0];
    if |ks| >= 2 { assert all[1] == ks[1]; }
    if |ks| >= 3 { assert all[2] == ks[2]; }
  }

  lemma {:induction false} ReadableAppend(ks: seq<int>, s: seq<int>)
    requires Readable(ks) && IsStatement(s)
    ensures Readable(ks + s)
    decreases |ks|
  {
    if ks == [] {
      assert ks + s == s;
      assert FirstLength(s) == |s| && s[|s|..] == [];
    } else {
      var n := FirstLength(ks);
      ReadableAppend(ks[n..], s);
      assert (ks + s)[n..] == ks[n..] + s;
      FirstLengthAppend(ks, s);
    }
  }

  lemma {:induction false} SentencesAreReadable(t: Tree)
    requires Derives(t, 11)
    ensures Readable(Yield(t))
    decreases t
  {
    Rules();
    assert t.rule == 1 || t.rule == 2;
    if t.rule == 1 {
      assert [11, 12][1..] == [12];
      var list := t.kids.first;
      OneKid(t.kids.rest, 12);
      SentencesAreReadable(list);
      StatementYield(t.kids.rest.first);
      ReadableAppend(Yield(list), Yield(t.kids.rest.first));
    }
  }

  function Extend(prefix: Tree, s: seq<int>): Tree
    requires IsStatement(s)
  {
    Node(1, Cons(prefix, One(StatementTree(s))))
  }

  lemma ExtendDerives(prefix: Tree, s: seq<int>)
    requires Derives(prefix, 11) && IsStatement(s)
    ensures Derives(Extend(prefix, s), 11) && Yield(Extend(prefix, s)) == Yield(prefix) + s
  {
    StatementTreeDerives(s);
    Rules();
    assert [11, 12][1..] == [12] && [12][1..] == [];
    assert YieldAll(One(StatementTree(s))) == s + [];
  }

  lemma FirstIsStatement(ks: seq<int>)
    requires FirstLength(ks) > 0
    ensures IsStatement(ks[..FirstLength(ks)])
  {
  }

  lemma Rejoin(a: seq<int>, ks: seq<int>, n: nat)
    requires n <= |ks|
    ensures a + ks[..n] + ks[n..] == a + ks
  {
  }

  /** A list tree for `prefix` grows, statement by statement, into one for `prefix + ks`. */
  lemma {:induction false} GrowSentence(prefix: Tree, ks: seq<int>)
    requires Derives(prefix, 11) && Readable(ks)
    ensures Sentence(Yield(prefix) + ks)
    decreases |ks|
  {
    if ks == [] {
      assert Yield(prefix) + ks == Yield(prefix);
    } else {
      var n := FirstLength(ks);
      var s, rest := ks[..n], ks[n..];
      FirstIsStatement(ks);
      ExtendDerives(prefix, s);
      GrowSentence(Extend(prefix, s), rest);
      Rejoin(Yield(prefix), ks, n);
    }
  }

  /** The statement-wise reading succeeds on exactly the token sequences the grammar derives. */
  lemma ReadIsGrammar(ts: seq<Token>)
    ensures Read(ts).ok <==> Sentence(Kinds(ts))
  {
    ReadIsReadable(ts);
    if Read(ts).ok {
      Rules();
      GrowSentence(Node(2, Nil), Kinds(ts));
      assert [] + Kinds(ts) == Kinds(ts);
    }
    if Sentence(Kinds(ts)) {
      var t :| Derives(t, 11) && Yield(t) == Kinds(ts);
      SentencesAreReadable(t);
    }
  }
}
