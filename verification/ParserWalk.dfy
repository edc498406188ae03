/**
 One run of the parser over a script: each construct calls the control actions in the order in
 which the grammar rules call them, whether or not code is being executed, and a loop that
 sought the token cache back to its keyword is read again from there. Behind the last pass of a
 `while` any `while` whose keyword reads as continued is one more pass, wherever that leaves it.
 */
module ParserWalk {
  import opened Wrappers
  import opened Script
  import opened LoopPlaces
  import opened ControlState

  // ----- expressions -----

  function WalkExpr(w: World, e: Expr, m: Machine, fuel: nat): Run<(Machine, int)>
    decreases fuel, e, 0
  {
    match e
    case Prim(op, args) =>
      var (m1, vs) :- WalkList(w, args, m, fuel);
      if m1.execute then Done((m1.Record(Did(op, vs)), w.value(m1.hist, op, vs)))
      else Done((m1, w.junk(m1.hist, e)))
    case And(l, r) =>
      var (m1, u) :- WalkExpr(w, l, m, fuel);
      var (m2, v) :- WalkExpr(w, r, PreAnd(m1, u), fuel);
      var m3 := PostBoolean(m2);
      Done((m3, if m3.execute then Truth(IsTrue(u) && IsTrue(v)) else w.junk(m3.hist, e)))
    case Or(l, r) =>
      var (m1, u) :- WalkExpr(w, l, m, fuel);
      var (m2, v) :- WalkExpr(w, r, PreOr(m1, u), fuel);
      var m3 := PostBoolean(m2);
      Done((m3, if m3.execute then Truth(IsTrue(u) || IsTrue(v)) else w.junk(m3.hist, e)))
    case Ternary(test, yes, no) =>
      var (m1, u) :- WalkExpr(w, test, m, fuel);
      var (m2, v1) :- WalkExpr(w, yes, QuestionmarkPreExpr1(m1, u), fuel);
      var (m3, v2) :- WalkExpr(w, no, QuestionmarkPreExpr2(m2, u), fuel);
      var m4 := QuestionmarkPostExpr2(m3);
      Done((m4, if m4.execute then (if IsTrue(u) then v1 else v2) else w.junk(m4.hist, e)))
    case Call(name, args) =>
      if !m.execute then
        var (m1, _) :- WalkList(w, args, m, fuel);
        Done((m1, RESET))
      else if name !in m.funs then Halted(m.hist)
      else
        var (m1, vs) :- WalkList(w, args, CallPreVariablePassing(m), fuel);
        var m2 := CallPostVariablePassing(m1);
        match m.funs[name]
        case Internal(op) =>
          var m3 := m2.Record(Did(op, vs)).(returnValue := w.value(m2.hist, op, vs));
          Done(CallEnd(m3, false))
        case User(body) =>
          if fuel == 0 then OutOfFuel
          else
            var m3 :- WalkStmts(w, body, CLOSED, m2.Record(Bound(name, vs)), fuel - 1);
            Done(CallEnd(m3, true))
  }

  function WalkList(w: World, es: Exprs, m: Machine, fuel: nat): (r: Run<(Machine, seq<int>)>)
    decreases fuel, es, 0
  {
    match es
    case NoExprs => Done((m, []))
    case Comma(e, rest) =>
      var (m1, v) :- WalkExpr(w, e, m, fuel);
      var (m2, vs) :- WalkList(w, rest, m1, fuel);
      Done((m2, [v] + vs))
  }

  // ----- statements -----

  /**
   Where a statement or a list of them stands: `after`, directly behind a `while`; and `next`, the
   statements that the parser goes on to if the last thing read in it ends a `while`, empty where a
   closing token comes first.
   */
  datatype Place = Place(after: bool, next: Stmts)

  const CLOSED := Place(false, Skip)

  function BodyPlace(body: Stmts, next: Stmts): Place {
    Place(false, if body.Seq? && body.tail.Skip? then next else Skip)
  }

  /** The place of the first statement of a list. */
  function Head(ss: Stmts, p: Place): Place
    requires ss.Seq?
  {
    Place(p.after, if ss.tail.Skip? then p.next else if TakesNext(ss.head) then ss.tail else Skip)
  }

  function Tail(ss: Stmts, p: Place): Place
    requires ss.Seq?
  {
    Place(Welcomes(ss.head), p.next)
  }

  /** A loop statement begins with a keyword that is not continued, or stands where a continued one is welcome. */
  predicate Readable(m: Machine, off: nat, after: bool) {
    off !in m.continued || after
  }

  /** The next statement is read as one more pass of the `while` just finished. */
  predicate RunsOn(m: Machine, next: Stmts) {
    m.eaten == 0 && next.Seq? && next.head.While? && next.head.off in m.continued
  }

  function WalkStmt(w: World, s: Stmt, p: Place, m: Machine, fuel: nat): Run<Machine>
    decreases fuel, s, 3
  {
    match s
    case Eval(e) =>
      var (m1, _) :- WalkExpr(w, e, m, fuel);
      Done(m1)
    case Block(ss) => WalkStmts(w, ss, CLOSED, m, fuel)
    case If(cond, thn, alts) =>
      var (m1, v) :- WalkExpr(w, cond, m, fuel);
      var m2 :- WalkStmts(w, thn, ThenPlace(thn, alts, p.next), StartIf(m1, v), fuel);
      var m3 :- WalkAlts(w, alts, p.next, m2, fuel);
      Done(EndIf(m3))
    case While(off, _, _) =>
      if Readable(m, off, p.after) then WalkWhile(w, s, p.next, m, fuel) else Misread(m.hist)
    case DoWhile(off, _, _) =>
      if Readable(m, off, false) then WalkDo(w, s, m, fuel) else Misread(m.hist)
    case For(off, _, _, _, _) =>
      if Readable(m, off, false) then WalkFor(w, s, p.next, m, fuel) else Misread(m.hist)
    case Switch(off, subject, cases) =>
      var (m1, v) :- WalkExpr(w, subject, m, fuel);
      var m2 :- WalkCases(w, cases, SwitchStart(m1, off, v), fuel);
      Done(SwitchEnd(m2))
    case Jump(isBreak, count) =>
      var (m1, n) :- if count.None? then Done((m, 1)) else WalkExpr(w, count.value, m, fuel);
      var r := BreakContinue(m1, n, isBreak);
      if r.Some? then Done(r.value) else Halted(m1.hist)
    case Return(result) =>
      var (m1, v) :- if result.None? then Done((m, RESET)) else WalkExpr(w, result.value, m, fuel);
      var r := DoReturn(m1, v);
      if r.Some? then Done(r.value) else Halted(m1.hist)
    case Declare(name, body) =>
      var m1 :- WalkStmts(w, body, CLOSED, StartFunctionDeclaration(m), fuel);
      var r := EndFunctionDeclaration(m1, name, body);
      if r.Some? then Done(r.value) else Halted(m1.hist)
  }

  /** A list; statements already read as passes of a `while` are passed over. */
  function WalkStmts(w: World, ss: Stmts, p: Place, m: Machine, fuel: nat): Run<Machine>
    decreases fuel, ss, 0
  {
    match ss
    case Skip => Done(m)
    case Seq(s, rest) =>
      if m.eaten > 0 then WalkStmts(w, rest, p.(after := false), m.(eaten := m.eaten - 1), fuel)
      else
        var m1 :- WalkStmt(w, s, Head(ss, p), m, fuel);
        WalkStmts(w, rest, Tail(ss, p), m1, fuel)
  }

  /** Before an `elseif` or `else` nothing can be taken for a further pass. */
  function ThenPlace(thn: Stmts, alts: Alternatives, next: Stmts): Place {
    BodyPlace(thn, if alts.NoMore? then next else Skip)
  }

  function WalkAlts(w: World, alts: Alternatives, next: Stmts, m: Machine, fuel: nat): Run<Machine>
    decreases fuel, alts, 0
  {
    match alts
    case NoMore => Done(m)
    case Else(els) => WalkStmts(w, els, BodyPlace(els, next), StartElse(m), fuel)
    case ElseIf(cond, thn, rest) =>
      var (m1, v) :- WalkExpr(w, cond, ElseIfStartEvaluate(m), fuel);
      var m2 :- WalkStmts(w, thn, ThenPlace(thn, rest, next), StartElseIf(ElseIfEndEvaluate(m1), v), fuel);
      WalkAlts(w, rest, next, m2, fuel)
  }

  function WalkCases(w: World, cases: Cases, m: Machine, fuel: nat): Run<Machine>
    decreases fuel, cases, 0
  {
    match cases
    case NoCases => Done(m)
    case Default(body) =>
      var m1 :- WalkStmts(w, body, CLOSED, SwitchCasePre(w, m, None), fuel);
      Done(SwitchCasePost(m1))
    case Case(test, body, rest) =>
      var (m1, v) :- WalkExpr(w, test, m, fuel);
      var m2 :- WalkStmts(w, body, CLOSED, SwitchCasePre(w, m1, Some(v)), fuel);
      WalkCases(w, rest, SwitchCasePost(m2), fuel)
  }

  /** One pass over a `while`, and what its end leads to. */
  function WalkWhile(w: World, s: Stmt, next: Stmts, m: Machine, fuel: nat): Run<Machine>
    requires s.While?
    decreases fuel, s, 1
  {
    var (m1, v) :- WalkExpr(w, s.cond, m, fuel);
    var m2 :- WalkStmts(w, s.body, BodyPlace(s.body, next), StartWhile(m1, s.off, v), fuel);
    WalkWhileOn(w, s, next, m2, fuel)
  }

  /**
   The end of a `while` body, all passes it seeks back for, and then the `while` statements behind it
   whose keyword is continued: each costs a unit of fuel and counts as eaten.
   */
  function WalkWhileOn(w: World, s: Stmt, next: Stmts, m: Machine, fuel: nat): Run<Machine>
    requires s.While?
    decreases fuel, s, 0
  {
    var (m3, again) := EndWhile(m, s.off);
    if again then
      if fuel == 0 then OutOfFuel else WalkWhile(w, s, next, m3.(eaten := 0), fuel - 1)
    else if RunsOn(m3, next) then
      if fuel == 0 then OutOfFuel
      else
        var m4 :- WalkWhile(w, next.head, next.tail, m3, fuel - 1);
        Done(m4.(eaten := m4.eaten + 1))
    else Done(m3)
  }

  function WalkDo(w: World, s: Stmt, m: Machine, fuel: nat): Run<Machine>
    requires s.DoWhile?
    decreases fuel, s, 0
  {
    var m1 :- WalkStmts(w, s.body, CLOSED, StartDoWhile(m, s.off), fuel);
    var (m2, v) :- WalkExpr(w, s.cond, ForceEvalDoWhile(m1), fuel);
    var (m3, again) := EndDoWhile(m2, s.off, v);
    if !again then Done(m3)
    else if fuel == 0 then OutOfFuel
    else WalkDo(w, s, m3, fuel - 1)
  }

  /** The expressions now standing second and third in the header. */
  function Second(s: Stmt, m: Machine): Exprs
    requires s.For?
  {
    if s.off in m.swapped then s.e3 else s.e2
  }

  function Third(s: Stmt, m: Machine): Exprs
    requires s.For?
  {
    if s.off in m.swapped then s.e2 else s.e3
  }

  /** The second and third header slot of one pass over a `for`. */
  function WalkForConditions(w: World, s: Stmt, m: Machine, sw: bool, fuel: nat): Run<Machine>
    requires s.For?
    decreases fuel, s, 0
  {
    var m1 := ForPreExpr2(m, s.off, sw);
    var (m2, vs2) :- WalkList(w, Second(s, m1), m1, fuel);
    var v2 := ForExpr2Value(m2, s.off, sw, HeaderValue(vs2));
    var m3 := ForPreExpr3(m2, sw);
    var (m4, vs3) :- WalkList(w, Third(s, m3), m3, fuel);
    Done(ForPreStatement(m4, sw, v2, HeaderValue(vs3)))
  }

  /** One pass over a `for`, up to its body. */
  function WalkForHeader(w: World, s: Stmt, m: Machine, fuel: nat): Run<Machine>
    requires s.For?
    decreases fuel, s, 1
  {
    var (m1, _) :- WalkList(w, s.e1, ForPreExpr1(m, s.off), fuel);
    WalkForConditions(w, s, m1, s.off in m.switched, fuel)
  }

  function WalkFor(w: World, s: Stmt, next: Stmts, m: Machine, fuel: nat): Run<Machine>
    requires s.For?
    decreases fuel, s, 2
  {
    var m1 :- WalkForHeader(w, s, m, fuel);
    var m2 :- WalkStmts(w, s.body, BodyPlace(s.body, next), m1, fuel);
    var (m3, again) := ForPostStatement(m2, s.off, s.off in m.switched);
    if !again then Done(m3)
    else if fuel == 0 then OutOfFuel
    else WalkFor(w, s, next, m3.(eaten := 0), fuel - 1)
  }
}
