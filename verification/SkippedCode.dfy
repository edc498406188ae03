/** Code that is read while nothing is executed: it changes nothing but the orientation of `for` headers. */
module SkippedCode {
  import opened Wrappers
  import opened Script
  import opened LoopPlaces
  import opened ControlState
  import opened ParserWalk

  /** Code is only being parsed. */
  predicate Idle(m: Machine) {
    && !m.execute
    && !m.ShouldExecute()
    && m.swapped == m.switched
    && (m.fs.change != Nothing ==> m.fs.level <= m.fs.nest)
    && m.eaten == 0
  }

  function Settled(m: Machine, offs: set<nat>): Machine {
    m.(switched := m.switched + offs, swapped := m.swapped + offs)
  }

  lemma SettledTwice(m: Machine, a: set<nat>, b: set<nat>)
    ensures Settled(Settled(m, a), b) == Settled(m, a + b)
  {
    assert m.switched + a + b == m.switched + (a + b);
    assert m.swapped + a + b == m.swapped + (a + b);
  }

  /** The statement behind is no `while` that is continued. */
  predicate Clear(m: Machine, next: Stmts) {
    next.Seq? && next.head.While? ==> next.head.off !in m.continued
  }

  /**
   The text can be read from here as it stands: no loop keyword in it is continued where it must not be,
   none behind it, and none of its `for` loops is on top of the FOR stack.
   */
  predicate Legible(m: Machine, fors: set<nat>, barred: set<nat>, next: Stmts) {
    && m.continued !! barred
    && (forall o | o in fors :: o != IntTop(m.forStack))
    && Clear(m, next)
  }

  lemma LegibleList(m: Machine, ss: Stmts, p: Place)
    requires ss.Seq? && Legible(m, ForsIn(ss), BarredIn(ss, p.after), p.next)
    ensures Legible(m, Fors(ss.head), Barred(ss.head, p.after), Head(ss, p).next)
    ensures Legible(m, ForsIn(ss.tail), BarredIn(ss.tail, Tail(ss, p).after), Tail(ss, p).next)
  {
    var rest := ss.tail;
    if TakesNext(ss.head) && rest.Seq? && rest.head.While? {
      assert !Welcomes(ss.head) && rest.head.off in Barred(rest.head, false);
      assert rest.head.off in BarredIn(rest, false);
    }
  }

  lemma {:induction false} SkippedExpr(w: World, e: Expr, m: Machine, fuel: nat)
    requires Idle(m)
    ensures WalkExpr(w, e, m, fuel).Done? && WalkExpr(w, e, m, fuel).value.0 == m
    decreases e
  {
    match e
    case Prim(_, args) => SkippedList(w, args, m, fuel);
    case And(l, r) =>
      SkippedExpr(w, l, m, fuel);
      SkippedExpr(w, r, m.Enter(), fuel);
    case Or(l, r) =>
      SkippedExpr(w, l, m, fuel);
      SkippedExpr(w, r, m.Enter(), fuel);
    case Ternary(test, yes, no) =>
      SkippedExpr(w, test, m, fuel);
      SkippedExpr(w, yes, m.Enter(), fuel);
      SkippedExpr(w, no, m.Enter(), fuel);
    case Call(_, args) => SkippedList(w, args, m, fuel);
  }

  lemma {:induction false} SkippedList(w: World, es: Exprs, m: Machine, fuel: nat)
    requires Idle(m)
    ensures WalkList(w, es, m, fuel).Done? && WalkList(w, es, m, fuel).value.0 == m
    decreases es
  {
    match es
    case NoExprs =>
    case Comma(e, rest) =>
      SkippedExpr(w, e, m, fuel);
      SkippedList(w, rest, m, fuel);
  }

  lemma {:induction false} SkippedStmt(w: World, s: Stmt, p: Place, m: Machine, fuel: nat)
    requires Idle(m) && WellFormed(s) && Legible(m, Fors(s), Barred(s, p.after), p.next)
    ensures WalkStmt(w, s, p, m, fuel) == Done(Settled(m, Fors(s)))
    decreases s
  {
    assert Settled(m, {}) == m;
    match s
    case Eval(e) => SkippedExpr(w, e, m, fuel);
    case Block(ss) => SkippedStmts(w, ss, CLOSED, m, fuel);
    case If(cond, thn, alts) =>
      SkippedExpr(w, cond, m, fuel);
      var v := WalkExpr(w, cond, m, fuel).value.1;
      SkippedStmts(w, thn, ThenPlace(thn, alts, p.next), StartIf(m, v), fuel);
      SkippedAlts(w, alts, p.next, Settled(StartIf(m, v), ForsIn(thn)), fuel);
      SettledTwice(m, ForsIn(thn), ForsInAlts(alts));
    case While(off, _, _) => SkippedWhile(w, s, p.next, m, fuel);
    case DoWhile(off, _, _) =>
      assert off in Barred(s, p.after);
      SkippedDo(w, s, m, fuel);
    case For(off, _, _, _, _) =>
      assert off in Barred(s, p.after);
      SkippedFor(w, s, p.next, m, fuel);
    case Switch(off, subject, cases) =>
      SkippedExpr(w, subject, m, fuel);
      var v := WalkExpr(w, subject, m, fuel).value.1;
      SkippedCases(w, cases, SwitchStart(m, off, v), fuel);
    case Jump(_, count) => if count.Some? { SkippedExpr(w, count.value, m, fuel); }
    case Return(result) => if result.Some? { SkippedExpr(w, result.value, m, fuel); }
    case Declare(_, body) => SkippedStmts(w, body, CLOSED, StartFunctionDeclaration(m), fuel);
  }

  lemma {:induction false} SkippedWhile(w: World, s: Stmt, next: Stmts, m: Machine, fuel: nat)
    requires s.While?
    requires Idle(m) && WellFormed(s) && Legible(m, Fors(s), BarredIn(s.body, false), next)
    ensures WalkWhile(w, s, next, m, fuel) == Done(Settled(m, Fors(s)))
    decreases s, 0
  {
    SkippedExpr(w, s.cond, m, fuel);
    var v := WalkExpr(w, s.cond, m, fuel).value.1;
    SkippedStmts(w, s.body, BodyPlace(s.body, next), StartWhile(m, s.off, v), fuel);
    var m2 := Settled(StartWhile(m, s.off, v), ForsIn(s.body));
    assert EndWhile(m2, s.off) == (Settled(m, Fors(s)), false);
  }

  lemma {:induction false} SkippedDo(w: World, s: Stmt, m: Machine, fuel: nat)
    requires s.DoWhile?
    requires Idle(m) && WellFormed(s) && Legible(m, Fors(s), BarredIn(s.body, false), Skip)
    ensures WalkDo(w, s, m, fuel) == Done(Settled(m, Fors(s)))
    decreases s, 0
  {
    var m1 := Settled(StartDoWhile(m, s.off), ForsIn(s.body));
    SkippedStmts(w, s.body, CLOSED, StartDoWhile(m, s.off), fuel);
    SkippedExpr(w, s.cond, m1, fuel);
  }

  lemma {:induction false} SkippedFor(w: World, s: Stmt, next: Stmts, m: Machine, fuel: nat)
    requires s.For?
    requires Idle(m) && WellFormed(s) && Legible(m, Fors(s), BarredIn(s.body, false), next)
    ensures WalkFor(w, s, next, m, fuel) == Done(Settled(m, Fors(s)))
    decreases s, 0
  {
    var off, sw := s.off, s.off in m.switched;
    var m1 := ForPreExpr1(m, off);
    SkippedList(w, s.e1, m1, fuel);
    var m2 := ForPreExpr2(m1, off, sw);
    SkippedList(w, Second(s, m2), m2, fuel);
    var m4 := ForPreExpr3(m2, sw);
    SkippedList(w, Third(s, m4), m4, fuel);
    assert WalkForHeader(w, s, m, fuel) == Done(m1);
    SkippedStmts(w, s.body, BodyPlace(s.body, next), m1, fuel);
    var m6 := Settled(m1, ForsIn(s.body));
    var (m7, again) := ForPostStatement(m6, off, sw);
    assert !again;
    assert m7.switched == m.switched + Fors(s);
    assert m7.swapped == m.swapped + Fors(s);
  }

  lemma {:induction false} SkippedStmts(w: World, ss: Stmts, p: Place, m: Machine, fuel: nat)
    requires Idle(m) && AllWellFormed(ss) && Legible(m, ForsIn(ss), BarredIn(ss, p.after), p.next)
    ensures WalkStmts(w, ss, p, m, fuel) == Done(Settled(m, ForsIn(ss)))
    decreases ss
  {
    match ss
    case Skip => assert Settled(m, {}) == m;
    case Seq(s, rest) =>
      LegibleList(m, ss, p);
      SkippedStmt(w, s, Head(ss, p), m, fuel);
      SkippedStmts(w, rest, Tail(ss, p), Settled(m, Fors(s)), fuel);
      SettledTwice(m, Fors(s), ForsIn(rest));
  }

  lemma {:induction false} SkippedAlts(w: World, alts: Alternatives, next: Stmts, m: Machine, fuel: nat)
    requires Idle(m) && m.flag == DONT_EXECUTE && m.css.Push?
    requires AltsWellFormed(alts) && Legible(m, ForsInAlts(alts), BarredInAlts(alts), next)
    ensures WalkAlts(w, alts, next, m, fuel) == Done(Settled(m, ForsInAlts(alts)))
    decreases alts
  {
    match alts
    case NoMore => assert Settled(m, {}) == m;
    case Else(els) => SkippedStmts(w, els, BodyPlace(els, next), m, fuel);
    case ElseIf(cond, thn, rest) =>
      SkippedExpr(w, cond, m.Enter(), fuel);
      SkippedStmts(w, thn, ThenPlace(thn, rest, next), m, fuel);
      SkippedAlts(w, rest, next, Settled(m, ForsIn(thn)), fuel);
      SettledTwice(m, ForsIn(thn), ForsInAlts(rest));
  }

  lemma {:induction false} SkippedCases(w: World, cases: Cases, m: Machine, fuel: nat)
    requires Idle(m) && m.css.Push? && IntTop(m.css) == m.flag
    requires CasesWellFormed(cases) && Legible(m, ForsInCases(cases), BarredInCases(cases), Skip)
    ensures WalkCases(w, cases, m, fuel) == Done(Settled(m, ForsInCases(cases)))
    decreases cases
  {
    match cases
    case NoCases => assert Settled(m, {}) == m;
    case Default(body) => SkippedStmts(w, body, CLOSED, m, fuel);
    case Case(test, body, rest) =>
      SkippedExpr(w, test, m, fuel);
      SkippedStmts(w, body, CLOSED, m, fuel);
      SkippedCases(w, rest, Settled(m, ForsIn(body)), fuel);
      SettledTwice(m, ForsIn(body), ForsInCases(rest));
  }
}
