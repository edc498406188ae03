/** The grammar and the LR tables of configuration-parser.tab.c, and what the grammar derives. */
module ConfigGrammar {

  const YYFINAL := 18
  const YYFLAG := -32768
  const YYNTBASE := 11
  const YYLAST := 18
  const YYTERROR := 1

  // Internal token numbers.
  const END := 0
  const STRING := 3
  const ENCAPSULATED := 4
  const SECTION := 5
  const TRUE := 6
  const FALSE := 7
  const EXTENSION := 8
  const EQUALS := 9
  const NEWLINE := 10

  /** YYTRANSLATE: from what the scanner returns to the numbers above; 2 stands for an undefined token. */
  function Translate(code: nat): nat {
    if code > 263 then 15
    else if code >= 258 then code - 255
    else if code == 61 then EQUALS
    else if code == 10 then NEWLINE
    else if code == 256 then YYTERROR
    else if code == 0 then END
    else 2
  }

  // ----- the tables; an index outside them is never used -----

  /** yyprhs: where a rule starts in yyrhs */
  function Prhs(i: int): int {
    match i
    case 0 => 0 case 1 => 0 case 2 => 3 case 3 => 4 case 4 => 8 case 5 => 10 case 6 => 14 case 7 => 16
    case 8 => 18 case 9 => 20 case 10 => 22 case 11 => 24 case 12 => 26 case 13 => 28 case _ => 0
  }

  /** yyrhs: the right-hand sides, each ended by 0 */
  function RhsSymbol(i: int): int {
    match i
    case 0 => 11 case 1 => 12 case 2 => 0 case 3 => 0 case 4 => 13 case 5 => 9 case 6 => 14 case 7 => 0
    case 8 => 13 case 9 => 0 case 10 => 8 case 11 => 9 case 12 => 13 case 13 => 0 case 14 => 5 case 15 => 0
    case 16 => 10 case 17 => 0 case 18 => 3 case 19 => 0 case 20 => 4 case 21 => 0 case 22 => 13 case 23 => 0
    case 24 => 6 case 25 => 0 case 26 => 7 case 27 => 0 case 28 => 10 case 29 => 0 case _ => 0
  }

  /** yyr1: the left-hand side of a rule */
  function R1(i: int): int {
    match i
    case 0 => 0 case 1 => 11 case 2 => 11 case 3 => 12 case 4 => 12 case 5 => 12 case 6 => 12 case 7 => 12
    case 8 => 13 case 9 => 13 case 10 => 14 case 11 => 14 case 12 => 14 case 13 => 14 case _ => 0
  }

  /** yyr2: the length of a right-hand side */
  function R2(i: int): int {
    match i
    case 0 => 0 case 1 => 2 case 2 => 0 case 3 => 3 case 4 => 1 case 5 => 3 case 6 => 1 case 7 => 1 case 8 => 1
    case 9 => 1 case 10 => 1 case 11 => 1 case 12 => 1 case 13 => 1 case _ => 0
  }

  /** yydefact */
  function Defact(i: int): int {
    match i
    case 0 => 2 case 1 => 0 case 2 => 8 case 3 => 9 case 4 => 6 case 5 => 0 case 6 => 7 case 7 => 1 case 8 => 4
    case 9 => 0 case 10 => 0 case 11 => 5 case 12 => 11 case 13 => 12 case 14 => 13 case 15 => 10 case 16 => 3
    case 17 => 0 case 18 => 0 case _ => 0
  }

  /** yydefgoto */
  function Defgoto(i: int): int {
    match i
    case 0 => 1 case 1 => 7 case 2 => 8 case 3 => 16 case _ => 0
  }

  /** yypact */
  function Pact(i: int): int {
    match i
    case 0 => -32768 case 1 => 0 case 2 => -32768 case 3 => -32768 case 4 => -32768 case 5 => 4 case 6 => -32768
    case 7 => -32768 case 8 => 7 case 9 => -2 case 10 => 8 case 11 => -32768 case 12 => -32768 case 13 => -32768
    case 14 => -32768 case 15 => -32768 case 16 => -32768 case 17 => 9 case 18 => -32768 case _ => 0
  }

  /** yypgoto */
  function Pgoto(i: int): int {
    match i
    case 0 => -32768 case 1 => -32768 case 2 => -3 case 3 => -32768 case _ => 0
  }

  /** yytable */
  function Table(i: int): int {
    match i
    case 0 => 17 case 1 => 2 case 2 => 3 case 3 => 2 case 4 => 3 case 5 => 4 case 6 => 11 case 7 => 15
    case 8 => 5 case 9 => 18 case 10 => 6 case 11 => 2 case 12 => 3 case 13 => 9 case 14 => 12 case 15 => 13
    case 16 => 10 case 17 => 0 case 18 => 14 case _ => 0
  }

  /** yycheck */
  function Check(i: int): int {
    match i
    case 0 => 0 case 1 => 3 case 2 => 4 case 3 => 3 case 4 => 4 case 5 => 5 case 6 => 9 case 7 => 10 case 8 => 8
    case 9 => 0 case 10 => 10 case 11 => 3 case 12 => 4 case 13 => 9 case 14 => 6 case 15 => 7 case 16 => 9
    case 17 => -1 case 18 => 10 case _ => 0
  }

  // ----- the driver's use of the tables -----

  datatype Action = Shift(state: int) | Reduce(rule: int) | Accept | Error

  function DefaultAction(s: nat): Action
    requires s <= YYFINAL
  {
    if Defact(s) == 0 then Error else Reduce(Defact(s))
  }

  /** What state `s` does without looking at the next token (None of its entries), or with next token `la`. */
  function TokenAction(s: nat, la: nat): Action
    requires s <= YYFINAL
  {
    var yyn := Pact(s) + la;
    if yyn < 0 || yyn > YYLAST || Check(yyn) != la then DefaultAction(s)
    else
      var t := Table(yyn);
      if t < 0 then (if t == YYFLAG then Error else Reduce(-t))
      else if t == 0 then Error
      else if t == YYFINAL then Accept
      else Shift(t)
  }

  /** The state after reducing by `rule` down to state `top`. */
  function Goto(rule: nat, top: nat): int
    requires 1 <= rule <= 13
  {
    var nt := R1(rule) - YYNTBASE;
    var g := Pgoto(nt) + top;
    if 0 <= g <= YYLAST && Check(g) == top then Table(g) else Defgoto(nt)
  }

  // ----- derivations -----

  /** The right-hand side of a rule; none is longer than three symbols. */
  function Rhs(rule: nat): seq<int>
    requires 1 <= rule <= 13
  {
    var p := Prhs(rule);
    if R2(rule) == 0 then []
    else if R2(rule) == 1 then [RhsSymbol(p)]
    else if R2(rule) == 2 then [RhsSymbol(p), RhsSymbol(p + 1)]
    else [RhsSymbol(p), RhsSymbol(p + 1), RhsSymbol(p + 2)]
  }

  /** A parse tree, its nodes labelled with the rule that was used. */
  datatype Tree = Leaf(token: int) | Node(rule: nat, kids: Forest)
  datatype Forest = Nil | Cons(first: Tree, rest: Forest)

  /** `t` derives from grammar symbol `symbol`. */
  predicate Derives(t: Tree, symbol: int) {
    match t
    case Leaf(token) => token == symbol && 0 <= symbol < YYNTBASE
    case Node(rule, kids) => 1 <= rule <= 13 && R1(rule) == symbol && DerivesAll(kids, Rhs(rule))
  }

  predicate DerivesAll(f: Forest, symbols: seq<int>) {
    match f
    case Nil => symbols == []
    case Cons(t, rest) => symbols != [] && Derives(t, symbols[0]) && DerivesAll(rest, symbols[1..])
  }

  function Yield(t: Tree): seq<int> {
    match t
    case Leaf(token) => [token]
    case Node(_, kids) => YieldAll(kids)
  }

  function YieldAll(f: Forest): seq<int> {
    match f
    case Nil => []
    case Cons(t, rest) => Yield(t) + YieldAll(rest)
  }

  /** A sequence of internal tokens is a sentence: it derives from `statement_list`. */
  ghost predicate Sentence(ks: seq<int>) {
    exists t :: Derives(t, 11) && Yield(t) == ks
  }
}
