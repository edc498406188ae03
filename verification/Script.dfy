/**
 The scripts the control machine runs, as the grammar of language-parser.y reads them.
 A loop carries the token-cache offset of its keyword. Expressions that are not about
 control (assignments, echo, arithmetic, internal functions) are one strict operation
 `Prim` on the values of their operands. A body in braces, or between a colon and its closing
 keyword, is one `Block`; a body of one statement that is no block has no closing token.
 */
module Script {
  import opened Wrappers

  datatype Expr =
    | Prim(op: nat, args: Exprs)
    | And(left: Expr, right: Expr)
    | Or(left: Expr, right: Expr)
    | Ternary(test: Expr, yes: Expr, no: Expr)
    | Call(name: string, args: Exprs)

  datatype Exprs = NoExprs | Comma(first: Expr, rest: Exprs)

  datatype Change = Nothing | Break | Continue

  datatype Stmt =
    | Eval(e: Expr)
    | Block(stmts: Stmts)
    | If(cond: Expr, thn: Stmts, alts: Alternatives)
    | While(off: nat, cond: Expr, body: Stmts)
    | DoWhile(off: nat, body: Stmts, cond: Expr)
    | For(off: nat, e1: Exprs, e2: Exprs, e3: Exprs, body: Stmts)
    | Switch(off: nat, subject: Expr, cases: Cases)
    | Jump(isBreak: bool, count: Option<Expr>)
    | Return(result: Option<Expr>)
    | Declare(name: string, body: Stmts)

  datatype Stmts = Skip | Seq(head: Stmt, tail: Stmts)

  /** What may follow the first branch of an `if`: any number of `elseif`s, then perhaps one `else`. */
  datatype Alternatives = NoMore | Else(els: Stmts) | ElseIf(cond: Expr, thn: Stmts, alts: Alternatives)

  /** The grammar allows `default` only as the last label. */
  datatype Cases = NoCases | Case(test: Expr, body: Stmts, rest: Cases) | Default(body: Stmts)

  /** An entry of the function table. */
  datatype Function = User(body: Stmts) | Internal(op: nat)

  /** What a run does to the world: an operation on operand values, or the parameters of a user function bound. */
  datatype Event = Did(op: nat, operands: seq<int>) | Bound(name: string, operands: seq<int>)

  type History = seq<Event>

  /**
   Everything the control machine does not decide: the value an operation yields after a given
   history, the loose equality `switch` uses, and the content a value slot has after a given
   history if its expression was parsed but not executed.
   */
  datatype World = World(
    value: (History, nat, seq<int>) -> int,
    equal: (int, int) -> bool,
    junk: (History, Expr) -> int)

  /** The value `var_reset` stores: the empty string, which is not true. */
  const RESET := 0

  /** The truth value of an empty `for` expression. */
  const EMPTY_HEADER := 1

  predicate IsTrue(v: int) {
    v != 0
  }

  function Truth(b: bool): int {
    if b then 1 else 0
  }

  /** The value of one `for` header slot: that of its last expression. */
  function HeaderValue(vs: seq<int>): int {
    if |vs| == 0 then EMPTY_HEADER else vs[|vs| - 1]
  }

  /** How a run of the machine, or of the structured semantics, can end. */
  datatype Run<+T> =
    | Done(value: T)
    | Halted(hist: History)   // a fatal error, or `return` outside every function
    | Misread(hist: History)  // where a statement must begin, a loop met whose keyword still reads as continued
    | OutOfFuel
  {
    predicate IsFailure() {
      !Done?
    }

    function PropagateFailure<U>(): Run<U>
      requires IsFailure()
    {
      match this
      case Halted(h) => Halted(h)
      case Misread(h) => Misread(h)
      case OutOfFuel => OutOfFuel
    }

    function Extract(): T
      requires Done?
    {
      value
    }
  }

  // ----- static facts about a script -----

  /** The offsets of the `for` loops in a piece of script, function bodies included. */
  function Fors(s: Stmt): set<nat> {
    match s
    case Eval(_) => {}
    case Block(ss) => ForsIn(ss)
    case If(_, thn, alts) => ForsIn(thn) + ForsInAlts(alts)
    case While(_, _, body) => ForsIn(body)
    case DoWhile(_, body, _) => ForsIn(body)
    case For(off, _, _, _, body) => {off} + ForsIn(body)
    case Switch(_, _, cases) => ForsInCases(cases)
    case Jump(_, _) => {}
    case Return(_) => {}
    case Declare(_, body) => ForsIn(body)
  }

  function ForsIn(ss: Stmts): set<nat> {
    match ss
    case Skip => {}
    case Seq(s, rest) => Fors(s) + ForsIn(rest)
  }

  function ForsInAlts(alts: Alternatives): set<nat> {
    match alts
    case NoMore => {}
    case Else(els) => ForsIn(els)
    case ElseIf(_, thn, rest) => ForsIn(thn) + ForsInAlts(rest)
  }

  function ForsInCases(cases: Cases): set<nat> {
    match cases
    case NoCases => {}
    case Case(_, body, rest) => ForsIn(body) + ForsInCases(rest)
    case Default(body) => ForsIn(body)
  }

  /** No `for` loop occurs, by offset, inside its own body: true of every script text. */
  predicate WellFormed(s: Stmt) {
    match s
    case Eval(_) => true
    case Block(ss) => AllWellFormed(ss)
    case If(_, thn, alts) => AllWellFormed(thn) && AltsWellFormed(alts)
    case While(_, _, body) => AllWellFormed(body)
    case DoWhile(_, body, _) => AllWellFormed(body)
    case For(off, _, _, _, body) => off !in ForsIn(body) && AllWellFormed(body)
    case Switch(_, _, cases) => CasesWellFormed(cases)
    case Jump(_, _) => true
    case Return(_) => true
    case Declare(_, body) => AllWellFormed(body)
  }

  predicate AllWellFormed(ss: Stmts) {
    match ss
    case Skip => true
    case Seq(s, rest) => WellFormed(s) && AllWellFormed(rest)
  }

  predicate AltsWellFormed(alts: Alternatives) {
    match alts
    case NoMore => true
    case Else(els) => AllWellFormed(els)
    case ElseIf(_, thn, rest) => AllWellFormed(thn) && AltsWellFormed(rest)
  }

  predicate CasesWellFormed(cases: Cases) {
    match cases
    case NoCases => true
    case Case(_, body, rest) => AllWellFormed(body) && CasesWellFormed(rest)
    case Default(body) => AllWellFormed(body)
  }
}
