/**
 What every walk keeps, from any state whatever, reentering or not: `Execute` is what SHOULD_EXECUTE
 computes, the control-structure stack, the stack of function states, the `switch` stack and the
 loop depth are as before, the `for` stack is as before below the loops of this call, and an expression, calls
 included, leaves the flag, the loop state of the function and the whole `for` stack as they were.
 */
module WalkInvariants {
  import opened Wrappers
  import opened Script
  import opened ControlState
  import opened ParserWalk

  predicate Balanced(m: Machine, m1: Machine) {
    && Synced(m1) && m1.css == m.css && m1.fsStack == m.fsStack && m1.switchStack == m.switchStack
    && UnwindFor(m1.forStack) == UnwindFor(m.forStack)
    && m1.fs.nest == m.fs.nest && m1.fs.inFunction == m.fs.inFunction
  }

  predicate Unmoved(m: Machine, m1: Machine) {
    Balanced(m, m1) && m1.flag == m.flag && m1.fs == m.fs && m1.forStack == m.forStack
  }

  /** Inside a `switch` its entry on the `switch` stack may get marked. */
  predicate BalancedInSwitch(m: Machine, m1: Machine) {
    Balanced(m.(switchStack := m1.switchStack), m1) && Pop(m1.switchStack) == Pop(m.switchStack)
  }

  lemma {:induction false} ExprKeeps(w: World, e: Expr, m: Machine, fuel: nat)
    requires Synced(m) && WalkExpr(w, e, m, fuel).Done?
    ensures Unmoved(m, WalkExpr(w, e, m, fuel).value.0)
    decreases fuel, e, 0
  {
    match e
    case Prim(_, args) => ListKeeps(w, args, m, fuel);
    case And(l, r) =>
      ExprKeeps(w, l, m, fuel);
      var (m1, u) := WalkExpr(w, l, m, fuel).value;
      ExprKeeps(w, r, PreAnd(m1, u), fuel);
    case Or(l, r) =>
      ExprKeeps(w, l, m, fuel);
      var (m1, u) := WalkExpr(w, l, m, fuel).value;
      ExprKeeps(w, r, PreOr(m1, u), fuel);
    case Ternary(test, yes, no) =>
      ExprKeeps(w, test, m, fuel);
      var (m1, u) := WalkExpr(w, test, m, fuel).value;
      ExprKeeps(w, yes, QuestionmarkPreExpr1(m1, u), fuel);
      var m2 := WalkExpr(w, yes, QuestionmarkPreExpr1(m1, u), fuel).value.0;
      ExprKeeps(w, no, QuestionmarkPreExpr2(m2, u), fuel);
    case Call(name, args) =>
      if !m.execute {
        ListKeeps(w, args, m, fuel);
      } else {
        var m0 := CallPreVariablePassing(m);
        ListKeeps(w, args, m0, fuel);
        if m.funs[name].User? {
          var (m1, vs) := WalkList(w, args, m0, fuel).value;
          StmtsKeep(w, m.funs[name].body, CLOSED, CallPostVariablePassing(m1).Record(Bound(name, vs)), fuel - 1);
        }
      }
  }

  lemma {:induction false} ListKeeps(w: World, es: Exprs, m: Machine, fuel: nat)
    requires Synced(m) && WalkList(w, es, m, fuel).Done?
    ensures Unmoved(m, WalkList(w, es, m, fuel).value.0)
    decreases fuel, es, 0
  {
    match es
    case NoExprs =>
    case Comma(e, rest) =>
      ExprKeeps(w, e, m, fuel);
      ListKeeps(w, rest, WalkExpr(w, e, m, fuel).value.0, fuel);
  }

  lemma {:induction false} StmtsKeep(w: World, ss: Stmts, p: Place, m: Machine, fuel: nat)
    requires Synced(m) && WalkStmts(w, ss, p, m, fuel).Done?
    ensures Balanced(m, WalkStmts(w, ss, p, m, fuel).value)
    decreases fuel, ss, 0
  {
    match ss
    case Skip =>
    case Seq(s, rest) =>
      if m.eaten > 0 {
        StmtsKeep(w, rest, p.(after := false), m.(eaten := m.eaten - 1), fuel);
      } else {
        StmtKeeps(w, s, Head(ss, p), m, fuel);
        StmtsKeep(w, rest, Tail(ss, p), WalkStmt(w, s, Head(ss, p), m, fuel).value, fuel);
      }
  }

  lemma {:induction false} StmtKeeps(w: World, s: Stmt, p: Place, m: Machine, fuel: nat)
    requires Synced(m) && WalkStmt(w, s, p, m, fuel).Done?
    ensures Balanced(m, WalkStmt(w, s, p, m, fuel).value)
    decreases fuel, s, 2
  {
    match s
    case Eval(e) => ExprKeeps(w, e, m, fuel);
    case Block(ss) => StmtsKeep(w, ss, CLOSED, m, fuel);
    case If(cond, thn, alts) =>
      ExprKeeps(w, cond, m, fuel);
      var (m1, v) := WalkExpr(w, cond, m, fuel).value;
      var q := ThenPlace(thn, alts, p.next);
      StmtsKeep(w, thn, q, StartIf(m1, v), fuel);
      AltsKeep(w, alts, p.next, WalkStmts(w, thn, q, StartIf(m1, v), fuel).value, fuel);
    case While(_, _, _) => WhileKeeps(w, s, p.next, m, fuel);
    case DoWhile(_, _, _) => DoKeeps(w, s, m, fuel);
    case For(_, _, _, _, _) => ForKeeps(w, s, p.next, m, fuel);
    case Switch(off, subject, cases) =>
      ExprKeeps(w, subject, m, fuel);
      var (m1, v) := WalkExpr(w, subject, m, fuel).value;
      CasesKeep(w, cases, SwitchStart(m1, off, v), fuel);
    case Jump(_, count) => if count.Some? { ExprKeeps(w, count.value, m, fuel); }
    case Return(result) => if result.Some? { ExprKeeps(w, result.value, m, fuel); }
    case Declare(_, body) => StmtsKeep(w, body, CLOSED, StartFunctionDeclaration(m), fuel);
  }

  lemma {:induction false} AltsKeep(w: World, alts: Alternatives, next: Stmts, m: Machine, fuel: nat)
    requires Synced(m) && WalkAlts(w, alts, next, m, fuel).Done?
    ensures Balanced(m, WalkAlts(w, alts, next, m, fuel).value)
    decreases fuel, alts, 0
  {
    match alts
    case NoMore =>
    case Else(els) => StmtsKeep(w, els, BodyPlace(els, next), StartElse(m), fuel);
    case ElseIf(cond, thn, rest) =>
      ExprKeeps(w, cond, ElseIfStartEvaluate(m), fuel);
      var (m1, v) := WalkExpr(w, cond, ElseIfStartEvaluate(m), fuel).value;
      var m2, q := StartElseIf(ElseIfEndEvaluate(m1), v), ThenPlace(thn, rest, next);
      StmtsKeep(w, thn, q, m2, fuel);
      AltsKeep(w, rest, next, WalkStmts(w, thn, q, m2, fuel).value, fuel);
  }

  lemma {:induction false} CasesKeep(w: World, cases: Cases, m: Machine, fuel: nat)
    requires Synced(m) && WalkCases(w, cases, m, fuel).Done?
    ensures BalancedInSwitch(m, WalkCases(w, cases, m, fuel).value)
    decreases fuel, cases, 0
  {
    match cases
    case NoCases =>
    case Default(body) => StmtsKeep(w, body, CLOSED, SwitchCasePre(w, m, None), fuel);
    case Case(test, body, rest) =>
      ExprKeeps(w, test, m, fuel);
      var (m1, v) := WalkExpr(w, test, m, fuel).value;
      var m2 := SwitchCasePre(w, m1, Some(v));
      StmtsKeep(w, body, CLOSED, m2, fuel);
      CasesKeep(w, rest, SwitchCasePost(WalkStmts(w, body, CLOSED, m2, fuel).value), fuel);
  }

  lemma {:induction false} WhileKeeps(w: World, s: Stmt, next: Stmts, m: Machine, fuel: nat)
    requires s.While? && Synced(m) && WalkWhile(w, s, next, m, fuel).Done?
    ensures Balanced(m, WalkWhile(w, s, next, m, fuel).value)
    decreases fuel, s, 0
  {
    ExprKeeps(w, s.cond, m, fuel);
    var (m1, v) := WalkExpr(w, s.cond, m, fuel).value;
    var m2, q := StartWhile(m1, s.off, v), BodyPlace(s.body, next);
    StmtsKeep(w, s.body, q, m2, fuel);
    var (m3, again) := EndWhile(WalkStmts(w, s.body, q, m2, fuel).value, s.off);
    if again {
      WhileKeeps(w, s, next, m3.(eaten := 0), fuel - 1);
    } else if RunsOn(m3, next) {
      WhileKeeps(w, next.head, next.tail, m3, fuel - 1);
    }
  }

  lemma {:induction false} DoKeeps(w: World, s: Stmt, m: Machine, fuel: nat)
    requires s.DoWhile? && Synced(m) && WalkDo(w, s, m, fuel).Done?
    ensures Balanced(m, WalkDo(w, s, m, fuel).value)
    decreases fuel, s, 0
  {
    StmtsKeep(w, s.body, CLOSED, StartDoWhile(m, s.off), fuel);
    var m1 := ForceEvalDoWhile(WalkStmts(w, s.body, CLOSED, StartDoWhile(m, s.off), fuel).value);
    assert Balanced(m.Nest(1).Enter(), m1);
    ExprKeeps(w, s.cond, m1, fuel);
    var (m2, v) := WalkExpr(w, s.cond, m1, fuel).value;
    var (m3, again) := EndDoWhile(m2, s.off, v);
    assert Balanced(m, m3);
    if again { DoKeeps(w, s, m3, fuel - 1); }
  }

  lemma {:induction false} ForKeeps(w: World, s: Stmt, next: Stmts, m: Machine, fuel: nat)
    requires s.For? && Synced(m) && WalkFor(w, s, next, m, fuel).Done?
    ensures Balanced(m, WalkFor(w, s, next, m, fuel).value)
    decreases fuel, s, 1
  {
    HeaderKeeps(w, s, m, fuel);
    var m1, q := WalkForHeader(w, s, m, fuel).value, BodyPlace(s.body, next);
    StmtsKeep(w, s.body, q, m1, fuel);
    var m2 := WalkStmts(w, s.body, q, m1, fuel).value;
    PostKeeps(m, m2, s.off, s.off in m.switched);
    var (m3, again) := ForPostStatement(m2, s.off, s.off in m.switched);
    if again { ForKeeps(w, s, next, m3.(eaten := 0), fuel - 1); }
  }

  lemma PostKeeps(m: Machine, m2: Machine, off: nat, sw: bool)
    requires Balanced(m.Nest(1).Enter(), m2)
    ensures Balanced(m, ForPostStatement(m2, off, sw).0)
  {
    NoteKeeps(m.Nest(1).Enter(), m2, off, sw);
  }

  lemma NoteKeeps(m: Machine, m2: Machine, off: nat, sw: bool)
    requires Balanced(m, m2)
    ensures Balanced(m, ForNotePass(m2, off, sw)) && Balanced(m, PopFor(ForNotePass(m2, off, sw), off))
  {
  }

  lemma {:induction false} HeaderKeeps(w: World, s: Stmt, m: Machine, fuel: nat)
    requires s.For? && Synced(m) && WalkForHeader(w, s, m, fuel).Done?
    ensures Balanced(m.Nest(1).Enter(), WalkForHeader(w, s, m, fuel).value)
    decreases fuel, s, 0
  {
    var off, sw := s.off, s.off in m.switched;
    ListKeeps(w, s.e1, ForPreExpr1(m, off), fuel);
    var m1 := ForPreExpr2(WalkList(w, s.e1, ForPreExpr1(m, off), fuel).value.0, off, sw);
    ListKeeps(w, Second(s, m1), m1, fuel);
    var m3 := ForPreExpr3(WalkList(w, Second(s, m1), m1, fuel).value.0, sw);
    ListKeeps(w, Third(s, m3), m3, fuel);
  }
}
