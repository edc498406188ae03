/**
 In texts where no `while` follows a statement that would take it, a loop whose keyword is continued
 is never read past, unless it stands directly behind a `while`.
 */
module KeptKeywords {
  import opened Wrappers
  import opened Script
  import opened LoopPlaces
  import opened ControlState
  import opened ParserWalk

  predicate FunsFit(h: set<nat>, funs: map<string, Function>) {
    forall f | f in funs && funs[f].User? :: AllFit(h, funs[f].body, false)
  }

  /** Loop `o` stands where it is not welcome, its keyword is continued, and all functions are such texts. */
  predicate Stuck(h: set<nat>, o: nat, m: Machine) {
    o !in h && o in m.continued && FunsFit(h, m.funs) && m.eaten == 0
  }

  /** No `while` stands behind. */
  predicate NoWhile(next: Stmts) {
    next.Seq? ==> !next.head.While?
  }

  lemma {:induction false} KeptExpr(h: set<nat>, o: nat, w: World, e: Expr, m: Machine, fuel: nat)
    requires Stuck(h, o, m) && WalkExpr(w, e, m, fuel).Done?
    ensures Stuck(h, o, WalkExpr(w, e, m, fuel).value.0)
    decreases fuel, e, 0
  {
    match e
    case Prim(_, args) => KeptList(h, o, w, args, m, fuel);
    case And(l, r) =>
      KeptExpr(h, o, w, l, m, fuel);
      var (m1, u) := WalkExpr(w, l, m, fuel).value;
      KeptExpr(h, o, w, r, PreAnd(m1, u), fuel);
    case Or(l, r) =>
      KeptExpr(h, o, w, l, m, fuel);
      var (m1, u) := WalkExpr(w, l, m, fuel).value;
      KeptExpr(h, o, w, r, PreOr(m1, u), fuel);
    case Ternary(test, yes, no) =>
      KeptExpr(h, o, w, test, m, fuel);
      var (m1, u) := WalkExpr(w, test, m, fuel).value;
      KeptExpr(h, o, w, yes, QuestionmarkPreExpr1(m1, u), fuel);
      var m2 := WalkExpr(w, yes, QuestionmarkPreExpr1(m1, u), fuel).value.0;
      KeptExpr(h, o, w, no, QuestionmarkPreExpr2(m2, u), fuel);
    case Call(name, args) =>
      if !m.execute {
        KeptList(h, o, w, args, m, fuel);
      } else {
        var m0 := CallPreVariablePassing(m);
        KeptList(h, o, w, args, m0, fuel);
        if m.funs[name].User? {
          var (m1, vs) := WalkList(w, args, m0, fuel).value;
          KeptStmts(h, o, w, m.funs[name].body, CLOSED, CallPostVariablePassing(m1).Record(Bound(name, vs)), fuel - 1);
        }
      }
  }

  lemma {:induction false} KeptList(h: set<nat>, o: nat, w: World, es: Exprs, m: Machine, fuel: nat)
    requires Stuck(h, o, m) && WalkList(w, es, m, fuel).Done?
    ensures Stuck(h, o, WalkList(w, es, m, fuel).value.0)
    decreases fuel, es, 0
  {
    match es
    case NoExprs =>
    case Comma(e, rest) =>
      KeptExpr(h, o, w, e, m, fuel);
      KeptList(h, o, w, rest, WalkExpr(w, e, m, fuel).value.0, fuel);
  }

  lemma {:induction false} KeptStmts(h: set<nat>, o: nat, w: World, ss: Stmts, p: Place, m: Machine, fuel: nat)
    requires Stuck(h, o, m) && AllFit(h, ss, p.after) && NoWhile(p.next) && WalkStmts(w, ss, p, m, fuel).Done?
    ensures Stuck(h, o, WalkStmts(w, ss, p, m, fuel).value) && o !in BarredIn(ss, p.after)
    decreases fuel, ss, 0
  {
    match ss
    case Skip =>
    case Seq(s, rest) =>
      KeptStmt(h, o, w, s, Head(ss, p), m, fuel);
      KeptStmts(h, o, w, rest, Tail(ss, p), WalkStmt(w, s, Head(ss, p), m, fuel).value, fuel);
  }

  lemma {:induction false} KeptStmt(h: set<nat>, o: nat, w: World, s: Stmt, p: Place, m: Machine, fuel: nat)
    requires Stuck(h, o, m) && Fits(h, s, p.after) && NoWhile(p.next) && WalkStmt(w, s, p, m, fuel).Done?
    ensures Stuck(h, o, WalkStmt(w, s, p, m, fuel).value) && o !in Barred(s, p.after)
    decreases fuel, s, 2
  {
    match s
    case Eval(e) => KeptExpr(h, o, w, e, m, fuel);
    case Block(ss) => KeptStmts(h, o, w, ss, CLOSED, m, fuel);
    case If(cond, thn, alts) =>
      KeptExpr(h, o, w, cond, m, fuel);
      var (m1, v) := WalkExpr(w, cond, m, fuel).value;
      var q := ThenPlace(thn, alts, p.next);
      KeptStmts(h, o, w, thn, q, StartIf(m1, v), fuel);
      KeptAlts(h, o, w, alts, p.next, WalkStmts(w, thn, q, StartIf(m1, v), fuel).value, fuel);
    case While(_, _, _) => KeptWhile(h, o, w, s, p.next, m, fuel);
    case DoWhile(_, _, _) => KeptDo(h, o, w, s, m, fuel);
    case For(_, _, _, _, _) => KeptFor(h, o, w, s, p.next, m, fuel);
    case Switch(off, subject, cases) =>
      KeptExpr(h, o, w, subject, m, fuel);
      var (m1, v) := WalkExpr(w, subject, m, fuel).value;
      KeptCases(h, o, w, cases, SwitchStart(m1, off, v), fuel);
    case Jump(_, count) => if count.Some? { KeptExpr(h, o, w, count.value, m, fuel); }
    case Return(result) => if result.Some? { KeptExpr(h, o, w, result.value, m, fuel); }
    case Declare(_, body) => KeptStmts(h, o, w, body, CLOSED, StartFunctionDeclaration(m), fuel);
  }

  lemma {:induction false} KeptAlts(h: set<nat>, o: nat, w: World, alts: Alternatives, next: Stmts, m: Machine,
                                    fuel: nat)
    requires Stuck(h, o, m) && AltsFit(h, alts) && NoWhile(next) && WalkAlts(w, alts, next, m, fuel).Done?
    ensures Stuck(h, o, WalkAlts(w, alts, next, m, fuel).value) && o !in BarredInAlts(alts)
    decreases fuel, alts, 0
  {
    match alts
    case NoMore =>
    case Else(els) => KeptStmts(h, o, w, els, BodyPlace(els, next), StartElse(m), fuel);
    case ElseIf(cond, thn, rest) =>
      KeptExpr(h, o, w, cond, ElseIfStartEvaluate(m), fuel);
      var (m1, v) := WalkExpr(w, cond, ElseIfStartEvaluate(m), fuel).value;
      var m2 := StartElseIf(ElseIfEndEvaluate(m1), v);
      var q := ThenPlace(thn, rest, next);
      KeptStmts(h, o, w, thn, q, m2, fuel);
      KeptAlts(h, o, w, rest, next, WalkStmts(w, thn, q, m2, fuel).value, fuel);
  }

  lemma {:induction false} KeptCases(h: set<nat>, o: nat, w: World, cases: Cases, m: Machine, fuel: nat)
    requires Stuck(h, o, m) && CasesFit(h, cases) && WalkCases(w, cases, m, fuel).Done?
    ensures Stuck(h, o, WalkCases(w, cases, m, fuel).value) && o !in BarredInCases(cases)
    decreases fuel, cases, 0
  {
    match cases
    case NoCases =>
    case Default(body) => KeptStmts(h, o, w, body, CLOSED, SwitchCasePre(w, m, None), fuel);
    case Case(test, body, rest) =>
      KeptExpr(h, o, w, test, m, fuel);
      var (m1, v) := WalkExpr(w, test, m, fuel).value;
      var m2 := SwitchCasePre(w, m1, Some(v));
      KeptStmts(h, o, w, body, CLOSED, m2, fuel);
      KeptCases(h, o, w, rest, SwitchCasePost(WalkStmts(w, body, CLOSED, m2, fuel).value), fuel);
  }

  lemma {:induction false} KeptWhile(h: set<nat>, o: nat, w: World, s: Stmt, next: Stmts, m: Machine, fuel: nat)
    requires s.While? && s.off != o && AllFit(h, s.body, false) && NoWhile(next)
    requires Stuck(h, o, m) && WalkWhile(w, s, next, m, fuel).Done?
    ensures Stuck(h, o, WalkWhile(w, s, next, m, fuel).value) && o !in BarredIn(s.body, false)
    decreases fuel, s, 0
  {
    KeptExpr(h, o, w, s.cond, m, fuel);
    var (m1, v) := WalkExpr(w, s.cond, m, fuel).value;
    var m2, q := StartWhile(m1, s.off, v), BodyPlace(s.body, next);
    KeptStmts(h, o, w, s.body, q, m2, fuel);
    var (m3, again) := EndWhile(WalkStmts(w, s.body, q, m2, fuel).value, s.off);
    if again { KeptWhile(h, o, w, s, next, m3.(eaten := 0), fuel - 1); }
  }

  lemma {:induction false} KeptDo(h: set<nat>, o: nat, w: World, s: Stmt, m: Machine, fuel: nat)
    requires s.DoWhile? && s.off != o && AllFit(h, s.body, false)
    requires Stuck(h, o, m) && WalkDo(w, s, m, fuel).Done?
    ensures Stuck(h, o, WalkDo(w, s, m, fuel).value) && o !in BarredIn(s.body, false)
    decreases fuel, s, 0
  {
    KeptStmts(h, o, w, s.body, CLOSED, StartDoWhile(m, s.off), fuel);
    var m1 := ForceEvalDoWhile(WalkStmts(w, s.body, CLOSED, StartDoWhile(m, s.off), fuel).value);
    KeptExpr(h, o, w, s.cond, m1, fuel);
    var (m2, v) := WalkExpr(w, s.cond, m1, fuel).value;
    var (m3, again) := EndDoWhile(m2, s.off, v);
    if again { KeptDo(h, o, w, s, m3, fuel - 1); }
  }

  lemma {:induction false} KeptFor(h: set<nat>, o: nat, w: World, s: Stmt, next: Stmts, m: Machine, fuel: nat)
    requires s.For? && s.off != o && AllFit(h, s.body, false) && NoWhile(next)
    requires Stuck(h, o, m) && WalkFor(w, s, next, m, fuel).Done?
    ensures Stuck(h, o, WalkFor(w, s, next, m, fuel).value) && o !in BarredIn(s.body, false)
    decreases fuel, s, 1
  {
    KeptHeader(h, o, w, s, m, fuel);
    var m1, q := WalkForHeader(w, s, m, fuel).value, BodyPlace(s.body, next);
    KeptStmts(h, o, w, s.body, q, m1, fuel);
    var m2 := WalkStmts(w, s.body, q, m1, fuel).value;
    ForPostKeeps(h, o, s.off, s.off in m.switched, m2);
    var (m3, again) := ForPostStatement(m2, s.off, s.off in m.switched);
    if again { KeptFor(h, o, w, s, next, m3.(eaten := 0), fuel - 1); }
  }

  lemma ForPostKeeps(h: set<nat>, o: nat, off: nat, sw: bool, m: Machine)
    requires Stuck(h, o, m) && off != o
    ensures Stuck(h, o, ForPostStatement(m, off, sw).0)
  {
  }

  lemma {:induction false} KeptHeader(h: set<nat>, o: nat, w: World, s: Stmt, m: Machine, fuel: nat)
    requires s.For? && s.off != o
    requires Stuck(h, o, m) && WalkForHeader(w, s, m, fuel).Done?
    ensures Stuck(h, o, WalkForHeader(w, s, m, fuel).value)
    decreases fuel, s, 0
  {
    var off, sw := s.off, s.off in m.switched;
    KeptList(h, o, w, s.e1, ForPreExpr1(m, off), fuel);
    var m1 := ForPreExpr2(WalkList(w, s.e1, ForPreExpr1(m, off), fuel).value.0, off, sw);
    KeptList(h, o, w, Second(s, m1), m1, fuel);
    var m3 := ForPreExpr3(WalkList(w, Second(s, m1), m1, fuel).value.0, sw);
    KeptList(h, o, w, Third(s, m3), m3, fuel);
  }

  // ----- in a text that fits, the loops that are barred are those not welcome -----

  lemma {:induction false} BarredIsUnfit(h: set<nat>, ss: Stmts, after: bool, o: nat)
    requires AllFit(h, ss, after) && o in BarredIn(ss, after)
    ensures o !in h
    decreases ss
  {
    if o in Barred(ss.head, after) {
      BarredStmtIsUnfit(h, ss.head, after, o);
    } else {
      BarredIsUnfit(h, ss.tail, Welcomes(ss.head), o);
    }
  }

  lemma {:induction false} BarredStmtIsUnfit(h: set<nat>, s: Stmt, after: bool, o: nat)
    requires Fits(h, s, after) && o in Barred(s, after)
    ensures o !in h
    decreases s
  {
    match s
    case Block(ss) => BarredIsUnfit(h, ss, false, o);
    case If(_, thn, alts) =>
      if o in BarredIn(thn, false) {
        BarredIsUnfit(h, thn, false, o);
      } else {
        BarredAltsAreUnfit(h, alts, o);
      }
    case While(off, _, body) => if o in BarredIn(body, false) { BarredIsUnfit(h, body, false, o); }
    case DoWhile(off, body, _) => if o != off { BarredIsUnfit(h, body, false, o); }
    case For(off, _, _, _, body) => if o != off { BarredIsUnfit(h, body, false, o); }
    case Switch(_, _, cases) => BarredCasesAreUnfit(h, cases, o);
    case Declare(_, body) => BarredIsUnfit(h, body, false, o);
  }

  lemma {:induction false} BarredAltsAreUnfit(h: set<nat>, alts: Alternatives, o: nat)
    requires AltsFit(h, alts) && o in BarredInAlts(alts)
    ensures o !in h
    decreases alts
  {
    match alts
    case Else(els) => BarredIsUnfit(h, els, false, o);
    case ElseIf(_, thn, rest) =>
      if o in BarredIn(thn, false) {
        BarredIsUnfit(h, thn, false, o);
      } else {
        BarredAltsAreUnfit(h, rest, o);
      }
  }

  lemma {:induction false} BarredCasesAreUnfit(h: set<nat>, cases: Cases, o: nat)
    requires CasesFit(h, cases) && o in BarredInCases(cases)
    ensures o !in h
    decreases cases
  {
    match cases
    case Case(_, body, rest) =>
      if o in BarredIn(body, false) {
        BarredIsUnfit(h, body, false, o);
      } else {
        BarredCasesAreUnfit(h, rest, o);
      }
    case Default(body) => BarredIsUnfit(h, body, false, o);
  }
}
