/** The flag machine refines the structured semantics. */
module ControlRefinement {
  import opened Wrappers
  import opened Script
  import opened Structured
  import opened ControlState
  import opened ParserWalk
  import opened LoopPlaces
  import opened SkippedCode
  import opened KeptKeywords

  /**
   Every user function is well formed, and its `for` headers have been switched when it was declared.
   If `h` is given, its text fits `h`.
   */
  predicate FunsSettled(h: Option<set<nat>>, funs: map<string, Function>, switched: set<nat>) {
    && (forall f | f in funs && funs[f].User? :: AllWellFormed(funs[f].body) && ForsIn(funs[f].body) <= switched)
    && (h.Some? ==> FunsFit(h.value, funs))
  }

  /** Code is being executed. */
  predicate Ready(h: Option<set<nat>>, m: Machine) {
    && m.execute
    && m.ShouldExecute()
    && m.fs.nest >= 0
    && m.swapped == m.switched
    && m.eaten == 0
    && FunsSettled(h, m.funs, m.switched)
  }

  function EnvOf(m: Machine): Env {
    Env(m.hist, m.funs, m.continued)
  }

  // ----- texts that can be run from a state -----

  predicate Text(h: Option<set<nat>>, s: Stmt, p: Place, m: Machine) {
    && WellFormed(s) && Legible(m, Fors(s), Barred(s, p.after), p.next)
    && (h.Some? ==> Fits(h.value, s, p.after))
  }

  predicate TextList(h: Option<set<nat>>, ss: Stmts, p: Place, m: Machine) {
    && AllWellFormed(ss) && Legible(m, ForsIn(ss), BarredIn(ss, p.after), p.next)
    && (h.Some? ==> AllFit(h.value, ss, p.after))
  }

  predicate TextAlts(h: Option<set<nat>>, alts: Alternatives, next: Stmts, m: Machine) {
    && AltsWellFormed(alts) && Legible(m, ForsInAlts(alts), BarredInAlts(alts), next)
    && (h.Some? ==> AltsFit(h.value, alts))
  }

  predicate TextCases(h: Option<set<nat>>, cases: Cases, m: Machine) {
    && CasesWellFormed(cases) && Legible(m, ForsInCases(cases), BarredInCases(cases), Skip)
    && (h.Some? ==> CasesFit(h.value, cases))
  }

  /** A loop whose keyword has been read. */
  predicate TextLoop(h: Option<set<nat>>, s: Stmt, next: Stmts, m: Machine) {
    && (s.While? || s.DoWhile? || s.For?)
    && WellFormed(s) && Legible(m, Fors(s), BarredIn(s.body, false), next)
    && (h.Some? ==> AllFit(h.value, s.body, false))
  }

  // ----- executed code does what the structured semantics says -----

  predicate Signalled(m: Machine, sig: Signal) {
    match sig
    case Normal => m.flag == EXECUTE && m.fs.change == Nothing && !m.fs.returned
    case Leave(k) =>
      1 <= k <= m.fs.nest && m.flag == EXECUTE && m.fs.change == Break && m.fs.level == m.fs.nest - k + 1
        && !m.fs.returned
    case Next(k) =>
      1 <= k <= m.fs.nest && m.flag == EXECUTE && m.fs.change == Continue && m.fs.level == m.fs.nest - k + 1
        && !m.fs.returned
    case Ret(v) =>
      m.flag != BEFORE_EXECUTE && m.fs.change == Nothing && m.fs.returned && m.returnValue == v && m.fs.inFunction
  }

  /** All of the machine that a statement must leave as it was, its own loops aside. */
  predicate SameFrame(m0: Machine, m1: Machine) {
    && m1.css == m0.css
    && m1.forStack == m0.forStack
    && m1.switchStack == m0.switchStack
    && m1.fsStack == m0.fsStack
    && m1.continued <= m0.continued
    && m1.eaten == 0
    && m1.fs.nest == m0.fs.nest
    && m1.fs.inFunction == m0.fs.inFunction
  }

  predicate After(h: Option<set<nat>>, m0: Machine, offs: set<nat>, env: Env, sig: Signal, m1: Machine) {
    && SameFrame(m0, m1)
    && m1.switched == m1.swapped == m0.switched + offs
    && EnvOf(m1) == env
    && FunsSettled(h, m1.funs, m1.switched)
    && m1.execute == m1.ShouldExecute()
    && Signalled(m1, sig)
  }

  predicate Agrees(h: Option<set<nat>>, m0: Machine, offs: set<nat>, spec: Run<(Env, Signal)>, run: Run<Machine>) {
    match spec
    case Done((env, sig)) => run.Done? && After(h, m0, offs, env, sig, run.value)
    case Halted(hist) => run == Halted(hist)
    case Misread(_) => h.Some? ==> !run.Done?
    case OutOfFuel => run == OutOfFuel
  }

  /**
   An executed expression changes the history, the function table and the return-value slot, may put
   continued keywords back, and changes nothing else.
   */
  predicate Evaluated<T(==)>(h: Option<set<nat>>, m0: Machine, spec: Run<(Env, T)>, run: Run<(Machine, T)>) {
    match spec
    case Done((env, v)) =>
      && run.Done?
      && run.value.1 == v
      && run.value.0
           == m0.(hist := env.hist, funs := env.funs, continued := env.busy, returnValue := run.value.0.returnValue)
      && env.busy <= m0.continued
      && FunsSettled(h, env.funs, m0.switched)
    case Halted(hist) => run == Halted(hist)
    case Misread(_) => h.Some? ==> !run.Done?
    case OutOfFuel => run == OutOfFuel
  }

  /** What evaluating an expression may change. */
  predicate Evolved(m: Machine, m1: Machine) {
    && m1 == m.(hist := m1.hist, funs := m1.funs, continued := m1.continued, returnValue := m1.returnValue)
    && m1.continued <= m.continued
  }

  lemma AgreesBefore(h: Option<set<nat>>, m: Machine, m1: Machine, offs: set<nat>, spec: Run<(Env, Signal)>,
                     run: Run<Machine>)
    requires Evolved(m, m1) && Agrees(h, m1, offs, spec, run)
    ensures Agrees(h, m, offs, spec, run)
  {
  }

  lemma {:induction false} ExprAgrees(h: Option<set<nat>>, w: World, e: Expr, m: Machine, fuel: nat)
    requires Ready(h, m)
    ensures Evaluated(h, m, EvalExpr(w, e, EnvOf(m), TRACKED, fuel), WalkExpr(w, e, m, fuel))
    decreases fuel, e, 2
  {
    match e
    case Prim(_, args) => ListAgrees(h, w, args, m, fuel);
    case And(l, r) =>
      ExprAgrees(h, w, l, m, fuel);
      if EvalExpr(w, l, EnvOf(m), TRACKED, fuel).Done? {
        var (m1, u) := WalkExpr(w, l, m, fuel).value;
        if IsTrue(u) { ExprAgrees(h, w, r, PreAnd(m1, u), fuel); } else { SkippedExpr(w, r, PreAnd(m1, u), fuel); }
      }
    case Or(l, r) =>
      ExprAgrees(h, w, l, m, fuel);
      if EvalExpr(w, l, EnvOf(m), TRACKED, fuel).Done? {
        var (m1, u) := WalkExpr(w, l, m, fuel).value;
        if IsTrue(u) { SkippedExpr(w, r, PreOr(m1, u), fuel); } else { ExprAgrees(h, w, r, PreOr(m1, u), fuel); }
      }
    case Ternary(test, yes, no) => TernaryAgrees(h, w, e, m, fuel);
    case Call(_, _) => CallAgrees(h, w, e, m, fuel);
  }

  lemma {:induction false} TernaryAgrees(h: Option<set<nat>>, w: World, e: Expr, m: Machine, fuel: nat)
    requires Ready(h, m) && e.Ternary?
    ensures Evaluated(h, m, EvalExpr(w, e, EnvOf(m), TRACKED, fuel), WalkExpr(w, e, m, fuel))
    decreases fuel, e, 1
  {
    ExprAgrees(h, w, e.test, m, fuel);
    if EvalExpr(w, e.test, EnvOf(m), TRACKED, fuel).Done? {
      var (m1, u) := WalkExpr(w, e.test, m, fuel).value;
      var m2 := QuestionmarkPreExpr1(m1, u);
      if IsTrue(u) {
        ExprAgrees(h, w, e.yes, m2, fuel);
        if EvalExpr(w, e.yes, EnvOf(m2), TRACKED, fuel).Done? {
          SkippedExpr(w, e.no, QuestionmarkPreExpr2(WalkExpr(w, e.yes, m2, fuel).value.0, u), fuel);
        }
      } else {
        SkippedExpr(w, e.yes, m2, fuel);
        ExprAgrees(h, w, e.no, QuestionmarkPreExpr2(m2, u), fuel);
      }
    }
  }

  lemma {:induction false} ListAgrees(h: Option<set<nat>>, w: World, es: Exprs, m: Machine, fuel: nat)
    requires Ready(h, m)
    ensures Evaluated(h, m, EvalList(w, es, EnvOf(m), TRACKED, fuel), WalkList(w, es, m, fuel))
    decreases fuel, es, 0
  {
    match es
    case NoExprs =>
    case Comma(e, rest) =>
      ExprAgrees(h, w, e, m, fuel);
      if EvalExpr(w, e, EnvOf(m), TRACKED, fuel).Done? {
        ListAgrees(h, w, rest, WalkExpr(w, e, m, fuel).value.0, fuel);
      }
  }

  lemma {:induction false} CallAgrees(h: Option<set<nat>>, w: World, e: Expr, m: Machine, fuel: nat)
    requires Ready(h, m) && e.Call?
    ensures Evaluated(h, m, EvalExpr(w, e, EnvOf(m), TRACKED, fuel), WalkExpr(w, e, m, fuel))
    decreases fuel, e, 1
  {
    if e.name in m.funs {
      var m0 := CallPreVariablePassing(m);
      ListAgrees(h, w, e.args, m0, fuel);
      if EvalList(w, e.args, EnvOf(m), TRACKED, fuel).Done? {
        var (m1, vs) := WalkList(w, e.args, m0, fuel).value;
        var m2 := CallPostVariablePassing(m1);
        match m.funs[e.name]
        case Internal(op) =>
        case User(body) =>
          if fuel > 0 {
            var m3 := m2.Record(Bound(e.name, vs));
            BodyAgrees(h, w, body, m3, fuel - 1);
          }
      }
    }
  }

  /** The body of a function just called: read to the end if no loop of it is busy where it must not be. */
  lemma {:induction false} BodyAgrees(h: Option<set<nat>>, w: World, body: Stmts, m: Machine, fuel: nat)
    requires Ready(h, m) && AllWellFormed(body) && ForsIn(body) <= m.switched
      && (h.Some? ==> AllFit(h.value, body, false))
    requires IntTop(m.forStack) == CALL_MARK
    ensures m.continued !! BarredIn(body, false) ==>
      Agrees(h, m, ForsIn(body), ExecList(w, body, EnvOf(m), m.fs.nest, m.fs.inFunction, TRACKED, fuel),
             WalkStmts(w, body, CLOSED, m, fuel))
    ensures !(m.continued !! BarredIn(body, false)) && h.Some? ==> !WalkStmts(w, body, CLOSED, m, fuel).Done?
    decreases fuel, body, 1
  {
    if m.continued !! BarredIn(body, false) {
      StmtsAgree(h, w, body, CLOSED, m, fuel);
    } else if h.Some? {
      var o :| o in m.continued && o in BarredIn(body, false);
      BarredIsUnfit(h.value, body, false, o);
      if WalkStmts(w, body, CLOSED, m, fuel).Done? { KeptStmts(h.value, o, w, body, CLOSED, m, fuel); }
    }
  }

  lemma {:induction false} StmtsAgree(h: Option<set<nat>>, w: World, ss: Stmts, p: Place, m: Machine, fuel: nat)
    requires Ready(h, m) && TextList(h, ss, p, m)
    ensures Agrees(h, m, ForsIn(ss), ExecList(w, ss, EnvOf(m), m.fs.nest, m.fs.inFunction, TRACKED, fuel),
                   WalkStmts(w, ss, p, m, fuel))
    decreases fuel, ss, 0
  {
    match ss
    case Skip =>
    case Seq(s, rest) =>
      LegibleList(m, ss, p);
      StmtAgrees(h, w, s, Head(ss, p), m, fuel);
      var spec := Exec(w, s, EnvOf(m), m.fs.nest, m.fs.inFunction, TRACKED, fuel);
      if spec.Done? {
        var m1 := WalkStmt(w, s, Head(ss, p), m, fuel).value;
        if spec.value.1 == Normal {
          StmtsAgree(h, w, rest, Tail(ss, p), m1, fuel);
        } else {
          SkippedStmts(w, rest, Tail(ss, p), m1, fuel);
        }
      }
  }

  lemma {:induction false} StmtAgrees(h: Option<set<nat>>, w: World, s: Stmt, p: Place, m: Machine, fuel: nat)
    requires Ready(h, m) && Text(h, s, p, m)
    ensures Agrees(h, m, Fors(s), Exec(w, s, EnvOf(m), m.fs.nest, m.fs.inFunction, TRACKED, fuel),
                   WalkStmt(w, s, p, m, fuel))
    decreases fuel, s, 6
  {
    match s
    case Eval(_) => LeafAgrees(h, w, s, p, m, fuel);
    case Block(ss) => StmtsAgree(h, w, ss, CLOSED, m, fuel);
    case If(_, _, _) => IfAgrees(h, w, s, p, m, fuel);
    case While(_, _, _) => WhileAgrees(h, w, s, p.next, m, false, fuel);
    case DoWhile(off, _, _) =>
      assert off in Barred(s, p.after);
      DoAgrees(h, w, s, m, false, fuel);
    case For(off, _, _, _, _) =>
      assert off in Barred(s, p.after);
      ForAgrees(h, w, s, p.next, m, fuel);
    case Switch(_, _, _) => SwitchAgrees(h, w, s, p, m, fuel);
    case Jump(_, _) => LeafAgrees(h, w, s, p, m, fuel);
    case Return(_) => LeafAgrees(h, w, s, p, m, fuel);
    case Declare(_, body) =>
      SkippedStmts(w, body, CLOSED, StartFunctionDeclaration(m), fuel);
      DeclareAgrees(h, w, s, p, m, fuel);
  }

  lemma {:induction false} LeafAgrees(h: Option<set<nat>>, w: World, s: Stmt, p: Place, m: Machine, fuel: nat)
    requires s.Eval? || s.Jump? || s.Return?
    requires Ready(h, m)
    ensures Agrees(h, m, {}, Exec(w, s, EnvOf(m), m.fs.nest, m.fs.inFunction, TRACKED, fuel),
                   WalkStmt(w, s, p, m, fuel))
    decreases fuel, s, 1
  {
    match s
    case Eval(e) => ExprAgrees(h, w, e, m, fuel);
    case Jump(_, _) => JumpAgrees(h, w, s, p, m, fuel);
    case Return(_) => ReturnAgrees(h, w, s, p, m, fuel);
  }

  lemma {:induction false} JumpAgrees(h: Option<set<nat>>, w: World, s: Stmt, p: Place, m: Machine, fuel: nat)
    requires s.Jump? && Ready(h, m)
    ensures Agrees(h, m, {}, Exec(w, s, EnvOf(m), m.fs.nest, m.fs.inFunction, TRACKED, fuel),
                   WalkStmt(w, s, p, m, fuel))
    decreases fuel, s, 0
  {
    if s.count.Some? { ExprAgrees(h, w, s.count.value, m, fuel); }
  }

  lemma {:induction false} ReturnAgrees(h: Option<set<nat>>, w: World, s: Stmt, p: Place, m: Machine, fuel: nat)
    requires s.Return? && Ready(h, m)
    ensures Agrees(h, m, {}, Exec(w, s, EnvOf(m), m.fs.nest, m.fs.inFunction, TRACKED, fuel),
                   WalkStmt(w, s, p, m, fuel))
    decreases fuel, s, 0
  {
    if s.result.Some? { ExprAgrees(h, w, s.result.value, m, fuel); }
  }

  lemma DeclareAgrees(h: Option<set<nat>>, w: World, s: Stmt, p: Place, m: Machine, fuel: nat)
    requires s.Declare? && Ready(h, m) && Text(h, s, p, m)
    requires WalkStmts(w, s.body, CLOSED, StartFunctionDeclaration(m), fuel)
      == Done(Settled(StartFunctionDeclaration(m), ForsIn(s.body)))
    ensures Agrees(h, m, Fors(s), Exec(w, s, EnvOf(m), m.fs.nest, m.fs.inFunction, TRACKED, fuel),
                   WalkStmt(w, s, p, m, fuel))
  {
    var m1 := Settled(StartFunctionDeclaration(m), ForsIn(s.body));
    assert EndFunctionDeclaration(m1, s.name, s.body)
        == if s.name in m.funs then None else Some(Settled(m, ForsIn(s.body)).(funs := m.funs[s.name := User(s.body)]));
  }

  // ----- if -----

  lemma {:induction false} IfAgrees(h: Option<set<nat>>, w: World, s: Stmt, p: Place, m: Machine, fuel: nat)
    requires s.If?
    requires Ready(h, m) && Text(h, s, p, m)
    ensures Agrees(h, m, Fors(s), Exec(w, s, EnvOf(m), m.fs.nest, m.fs.inFunction, TRACKED, fuel),
                   WalkStmt(w, s, p, m, fuel))
    decreases fuel, s, 1
  {
    ExprAgrees(h, w, s.cond, m, fuel);
    if EvalExpr(w, s.cond, EnvOf(m), TRACKED, fuel).Done? {
      var (m1, v) := WalkExpr(w, s.cond, m, fuel).value;
      assert Evolved(m, m1);
      if IsTrue(v) { ThenAgrees(h, w, s, p, m1, v, fuel); } else { OtherwiseAgrees(h, w, s, p, m1, v, fuel); }
      AgreesBefore(h, m, m1, Fors(s), Exec(w, s, EnvOf(m), m.fs.nest, m.fs.inFunction, TRACKED, fuel),
                   WalkStmt(w, s, p, m, fuel));
    }
  }

  /** What the parser does once the condition of an `if` has value `v`. */
  function IfWalk(w: World, s: Stmt, p: Place, v: int, m: Machine, fuel: nat): Run<Machine>
    requires s.If?
  {
    var m2 :- WalkStmts(w, s.thn, ThenPlace(s.thn, s.alts, p.next), StartIf(m, v), fuel);
    var m3 :- WalkAlts(w, s.alts, p.next, m2, fuel);
    Done(EndIf(m3))
  }

  lemma {:induction false} ThenAgrees(h: Option<set<nat>>, w: World, s: Stmt, p: Place, m: Machine, v: int, fuel: nat)
    requires s.If? && IsTrue(v)
    requires Ready(h, m) && Text(h, s, p, m)
    ensures Agrees(h, m, Fors(s), ExecList(w, s.thn, EnvOf(m), m.fs.nest, m.fs.inFunction, TRACKED, fuel),
                   IfWalk(w, s, p, v, m, fuel))
    decreases fuel, s, 0
  {
    var m2, q := StartIf(m, v), ThenPlace(s.thn, s.alts, p.next);
    var a, b := ForsIn(s.thn), ForsInAlts(s.alts);
    assert m.switched + a + b == m.switched + (a + b);
    StmtsAgree(h, w, s.thn, q, m2, fuel);
    if ExecList(w, s.thn, EnvOf(m), m.fs.nest, m.fs.inFunction, TRACKED, fuel).Done? {
      TakenAlts(w, s.alts, p.next, WalkStmts(w, s.thn, q, m2, fuel).value, fuel);
    }
  }

  lemma {:induction false} OtherwiseAgrees(h: Option<set<nat>>, w: World, s: Stmt, p: Place, m: Machine, v: int,
                                           fuel: nat)
    requires s.If? && !IsTrue(v)
    requires Ready(h, m) && Text(h, s, p, m)
    ensures Agrees(h, m, Fors(s), ExecAlts(w, s.alts, EnvOf(m), m.fs.nest, m.fs.inFunction, TRACKED, fuel),
                   IfWalk(w, s, p, v, m, fuel))
    decreases fuel, s, 0
  {
    var m2 := StartIf(m, v);
    var a, b := ForsIn(s.thn), ForsInAlts(s.alts);
    assert m.switched + a + b == m.switched + (a + b);
    SkippedStmts(w, s.thn, ThenPlace(s.thn, s.alts, p.next), m2, fuel);
    AltsAgree(h, w, s.alts, p.next, Settled(m2, a), fuel);
  }

  /** After a branch was taken the alternatives are only read. */
  lemma {:induction false} TakenAlts(w: World, alts: Alternatives, next: Stmts, m: Machine, fuel: nat)
    requires m.flag != BEFORE_EXECUTE && m.css.Push? && m.execute == m.ShouldExecute()
    requires m.swapped == m.switched && m.eaten == 0
    requires m.fs.change != Nothing ==> m.fs.level <= m.fs.nest
    requires AltsWellFormed(alts) && Legible(m, ForsInAlts(alts), BarredInAlts(alts), next)
    ensures var r := WalkAlts(w, alts, next, m, fuel);
      && r.Done?
      && r.value == Settled(m, ForsInAlts(alts)).(flag := r.value.flag, execute := r.value.execute)
    decreases alts
  {
    match alts
    case NoMore =>
    case Else(els) =>
      SkippedStmts(w, els, BodyPlace(els, next), if m.flag == EXECUTE then m.WithFlag(DONT_EXECUTE) else m, fuel);
    case ElseIf(_, thn, rest) =>
      var m1 := StopTaken(m);
      PassedBranch(w, alts, next, m, fuel);
      TakenAlts(w, rest, next, Settled(m1, ForsIn(thn)), fuel);
      SettledTwice(m1, ForsIn(thn), ForsInAlts(rest));
  }

  /** An `elseif` behind the branch taken. */
  lemma PassedBranch(w: World, alts: Alternatives, next: Stmts, m: Machine, fuel: nat)
    requires alts.ElseIf? && m.flag != BEFORE_EXECUTE && m.css.Push? && m.execute == m.ShouldExecute()
    requires m.swapped == m.switched && m.eaten == 0
    requires m.fs.change != Nothing ==> m.fs.level <= m.fs.nest
    requires AltsWellFormed(alts) && Legible(m, ForsInAlts(alts), BarredInAlts(alts), next)
    ensures WalkAlts(w, alts, next, m, fuel)
      == WalkAlts(w, alts.alts, next, Settled(StopTaken(m), ForsIn(alts.thn)), fuel)
  {
    var m1 := StopTaken(m);
    SkippedExpr(w, alts.cond, m1.Enter(), fuel);
    SkippedStmts(w, alts.thn, ThenPlace(alts.thn, alts.alts, next), m1, fuel);
  }

  /** While no branch has been taken the machine waits in BEFORE_EXECUTE. */
  predicate Waiting(h: Option<set<nat>>, m: Machine) {
    && m.flag == BEFORE_EXECUTE && !m.execute
    && IntTop(m.css) == EXECUTE
    && m.fs.change == Nothing && !m.fs.returned && m.fs.nest >= 0
    && m.swapped == m.switched && m.eaten == 0
    && FunsSettled(h, m.funs, m.switched)
  }

  predicate AltsOutcome(h: Option<set<nat>>, m0: Machine, offs: set<nat>, spec: Run<(Env, Signal)>, run: Run<Machine>) {
    match spec
    case Done((env, sig)) => run.Done? && After(h, EndIf(m0), offs, env, sig, EndIf(run.value))
    case Halted(hist) => run == Halted(hist)
    case Misread(_) => h.Some? ==> !run.Done?
    case OutOfFuel => run == OutOfFuel
  }

  lemma {:induction false} AltsAgree(h: Option<set<nat>>, w: World, alts: Alternatives, next: Stmts, m: Machine,
                                     fuel: nat)
    requires Waiting(h, m) && TextAlts(h, alts, next, m)
    ensures AltsOutcome(h, m, ForsInAlts(alts), ExecAlts(w, alts, EnvOf(m), m.fs.nest, m.fs.inFunction, TRACKED, fuel),
                        WalkAlts(w, alts, next, m, fuel))
    decreases fuel, alts, 2
  {
    match alts
    case NoMore =>
    case Else(els) => ElseAgrees(h, w, els, next, m, fuel);
    case ElseIf(_, _, _) => ElseIfTested(h, w, alts, next, m, fuel);
  }

  lemma {:induction false} ElseIfTested(h: Option<set<nat>>, w: World, alts: Alternatives, next: Stmts, m: Machine,
                                        fuel: nat)
    requires alts.ElseIf? && Waiting(h, m) && TextAlts(h, alts, next, m)
    ensures AltsOutcome(h, m, ForsInAlts(alts), ExecAlts(w, alts, EnvOf(m), m.fs.nest, m.fs.inFunction, TRACKED, fuel),
                        WalkAlts(w, alts, next, m, fuel))
    decreases fuel, alts, 1
  {
    var m1 := ElseIfStartEvaluate(m);
    ExprAgrees(h, w, alts.cond, m1, fuel);
    var spec := EvalExpr(w, alts.cond, EnvOf(m), TRACKED, fuel);
    if spec.Done? {
      var (m2, v) := WalkExpr(w, alts.cond, m1, fuel).value;
      var m3 := ElseIfEndEvaluate(m2);
      assert Evolved(m, m3);
      ElseIfAgrees(h, w, alts, next, m3, v, fuel);
      OutcomeBefore(h, m, m3, ForsInAlts(alts), ExecAlts(w, alts, EnvOf(m), m.fs.nest, m.fs.inFunction, TRACKED, fuel),
                    WalkAlts(w, alts, next, m, fuel));
    }
  }

  lemma OutcomeBefore(h: Option<set<nat>>, m: Machine, m1: Machine, offs: set<nat>, spec: Run<(Env, Signal)>,
                      run: Run<Machine>)
    requires Evolved(m, m1) && AltsOutcome(h, m1, offs, spec, run)
    ensures AltsOutcome(h, m, offs, spec, run)
  {
  }

  lemma {:induction false} ElseAgrees(h: Option<set<nat>>, w: World, els: Stmts, next: Stmts, m: Machine, fuel: nat)
    requires Waiting(h, m) && TextAlts(h, Else(els), next, m)
    ensures AltsOutcome(h, m, ForsIn(els), ExecList(w, els, EnvOf(m), m.fs.nest, m.fs.inFunction, TRACKED, fuel),
                        WalkStmts(w, els, BodyPlace(els, next), StartElse(m), fuel))
    decreases fuel, els, 1
  {
    StmtsAgree(h, w, els, BodyPlace(els, next), m.WithFlag(EXECUTE), fuel);
  }

  /** What the spec and the parser do once the condition of an `elseif` has value `v`. */
  function ElseIfSpec(w: World, alts: Alternatives, v: int, env: Env, depth: nat, inFunction: bool,
                      fuel: nat): Run<(Env, Signal)>
    requires alts.ElseIf?
  {
    if IsTrue(v) then ExecList(w, alts.thn, env, depth, inFunction, TRACKED, fuel)
    else ExecAlts(w, alts.alts, env, depth, inFunction, TRACKED, fuel)
  }

  function ElseIfWalk(w: World, alts: Alternatives, next: Stmts, v: int, m: Machine, fuel: nat): Run<Machine>
    requires alts.ElseIf?
  {
    var m2 :- WalkStmts(w, alts.thn, ThenPlace(alts.thn, alts.alts, next), StartElseIf(m, v), fuel);
    WalkAlts(w, alts.alts, next, m2, fuel)
  }

  lemma {:induction false} ElseIfAgrees(h: Option<set<nat>>, w: World, alts: Alternatives, next: Stmts, m: Machine,
                                        v: int, fuel: nat)
    requires alts.ElseIf? && Waiting(h, m) && TextAlts(h, alts, next, m)
    ensures AltsOutcome(h, m, ForsInAlts(alts),
              ElseIfSpec(w, alts, v, EnvOf(m), m.fs.nest, m.fs.inFunction, fuel), ElseIfWalk(w, alts, next, v, m, fuel))
    decreases fuel, alts, 0
  {
    if IsTrue(v) { ElseIfTaken(h, w, alts, next, m, v, fuel); } else { ElseIfPassed(h, w, alts, next, m, v, fuel); }
  }

  lemma {:induction false} ElseIfTaken(h: Option<set<nat>>, w: World, alts: Alternatives, next: Stmts, m: Machine,
                                       v: int, fuel: nat)
    requires alts.ElseIf? && Waiting(h, m) && TextAlts(h, alts, next, m) && IsTrue(v)
    ensures AltsOutcome(h, m, ForsInAlts(alts),
              ElseIfSpec(w, alts, v, EnvOf(m), m.fs.nest, m.fs.inFunction, fuel), ElseIfWalk(w, alts, next, v, m, fuel))
    decreases fuel, alts, -1
  {
    var m3, q := StartElseIf(m, v), ThenPlace(alts.thn, alts.alts, next);
    StmtsAgree(h, w, alts.thn, q, m3, fuel);
    var spec := ExecList(w, alts.thn, EnvOf(m), m.fs.nest, m.fs.inFunction, TRACKED, fuel);
    if spec.Done? {
      var m4 := WalkStmts(w, alts.thn, q, m3, fuel).value;
      TakenAlts(w, alts.alts, next, m4, fuel);
      RestIsRead(h, m, m3, ForsIn(alts.thn), ForsInAlts(alts.alts), spec.value.0, spec.value.1, m4,
                 WalkAlts(w, alts.alts, next, m4, fuel).value);
    }
  }

  /** Once a branch is over the other branches are only read. */
  lemma RestIsRead(h: Option<set<nat>>, m: Machine, m3: Machine, a: set<nat>, b: set<nat>, env: Env, sig: Signal,
                   m4: Machine, m5: Machine)
    requires Waiting(h, m) && m3 == m.WithFlag(EXECUTE) && After(h, m3, a, env, sig, m4)
    requires m5 == Settled(m4, b).(flag := m5.flag, execute := m5.execute)
    ensures After(h, EndIf(m), a + b, env, sig, EndIf(m5))
  {
    assert m.switched + a + b == m.switched + (a + b);
  }

  lemma {:induction false} ElseIfPassed(h: Option<set<nat>>, w: World, alts: Alternatives, next: Stmts, m: Machine,
                                        v: int, fuel: nat)
    requires alts.ElseIf? && Waiting(h, m) && TextAlts(h, alts, next, m) && !IsTrue(v)
    ensures AltsOutcome(h, m, ForsInAlts(alts),
              ElseIfSpec(w, alts, v, EnvOf(m), m.fs.nest, m.fs.inFunction, fuel), ElseIfWalk(w, alts, next, v, m, fuel))
    decreases fuel, alts, -1
  {
    var m3 := StartElseIf(m, v);
    var a, b := ForsIn(alts.thn), ForsInAlts(alts.alts);
    assert m.switched + a + b == m.switched + (a + b);
    SkippedStmts(w, alts.thn, ThenPlace(alts.thn, alts.alts, next), m3, fuel);
    AltsAgree(h, w, alts.alts, next, Settled(m3, a), fuel);
  }

  // ----- loops -----

  /** `m2` is `m` one loop level further in, at the start of the body. */
  predicate Entered(m: Machine, m2: Machine) {
    && m2.css == Push(m.flag, m.css)
    && m2.forStack == m.forStack
    && m2.switchStack == m.switchStack
    && m2.fsStack == m.fsStack
    && m2.continued <= m.continued
    && m2.switched == m.switched
    && m2.swapped == m.swapped
    && m2.fs.nest == m.fs.nest + 1
    && m2.fs.inFunction == m.fs.inFunction
  }

  lemma AgreesLater(h: Option<set<nat>>, m: Machine, m1: Machine, a: set<nat>, b: set<nat>, env: Env,
                    spec: Run<(Env, Signal)>, run: Run<Machine>)
    requires After(h, m, a, env, Normal, m1) && Agrees(h, m1, b, spec, run) && b <= a
    ensures Agrees(h, m, a, spec, run)
  {
    assert m.switched + a + b == m.switched + a;
  }

  /** The end of a `while` body: either back to the keyword, or out with the signal one level lower. */
  lemma WhileEnds(h: Option<set<nat>>, m: Machine, m2: Machine, offs: set<nat>, env: Env, sig: Signal, m3: Machine,
                  off: nat)
    requires Ready(h, m) && Entered(m, m2) && After(h, m2, offs, env, sig, m3)
    ensures var (m4, more) := EndWhile(m3, off);
      && more == GoesOn(sig)
      && if more then m4.continued == m3.continued + {off}
           && After(h, m, offs, env, Normal, m4.(continued := m3.continued))
         else After(h, m, offs, env, Outward(sig), m4)
  {
  }

  /** At the keyword of a `while`, for the first or a further pass. */
  function Opened(m: Machine, off: nat, again: bool): Machine {
    if again then m.(continued := m.continued + {off}) else m
  }

  lemma {:induction false} WhileAgrees(h: Option<set<nat>>, w: World, s: Stmt, next: Stmts, m: Machine, again: bool,
                                       fuel: nat)
    requires s.While? && (again ==> s.off !in m.continued)
    requires Ready(h, m) && TextLoop(h, s, next, m)
    ensures Agrees(h, m, Fors(s), ExecWhile(w, s, EnvOf(m), m.fs.nest, m.fs.inFunction, TRACKED, again, fuel),
                   WalkWhile(w, s, next, Opened(m, s.off, again), fuel))
    decreases fuel, s, 3
  {
    var start := Opened(m, s.off, again);
    var test := Testing(EnvOf(m), s.off, again, TRACKED);
    ExprAgrees(h, w, s.cond, start, fuel);
    var spec := EvalExpr(w, s.cond, test, TRACKED, fuel);
    WhileUnfolds(w, s, next, EnvOf(m), again, m.fs.nest, m.fs.inFunction, start, fuel);
    if spec.Done? {
      var (m1, v) := WalkExpr(w, s.cond, start, fuel).value;
      WhileStarted(h, m, m1, s.off, again, v);
      assert EnvOf(StartWhile(m1, s.off, v)) == Tested(spec.value.0, s.off);
      WhileTested(h, w, s, next, m, StartWhile(m1, s.off, v), v, fuel);
    }
  }

  /** Behind the condition. */
  lemma WhileStarted(h: Option<set<nat>>, m: Machine, m1: Machine, off: nat, again: bool, v: int)
    requires Ready(h, m) && Evolved(Opened(m, off, again), m1) && FunsSettled(h, m1.funs, m.switched)
    ensures var m2 := StartWhile(m1, off, v);
      && Entered(m, m2) && off !in m2.continued && FunsSettled(h, m2.funs, m2.switched)
      && if IsTrue(v) then Ready(h, m2) else Idle(m2) && m2.fs.change == Nothing && !m2.fs.returned
  {
  }

  function WhileSpecTested(w: World, s: Stmt, test: Run<(Env, int)>, depth: nat, inFunction: bool,
                           fuel: nat): Run<(Env, Signal)>
    requires s.While?
  {
    var (env1, v) :- test;
    if IsTrue(v) then WhileSpec(w, s, Tested(env1, s.off), depth, inFunction, fuel)
    else Done((Tested(env1, s.off), Normal))
  }

  function WhileWalkTested(w: World, s: Stmt, next: Stmts, test: Run<(Machine, int)>, fuel: nat): Run<Machine>
    requires s.While?
  {
    var (m1, v) :- test;
    WhileWalk(w, s, next, StartWhile(m1, s.off, v), fuel)
  }

  lemma WhileUnfolds(w: World, s: Stmt, next: Stmts, env: Env, again: bool, depth: nat, inFunction: bool, m: Machine,
                     fuel: nat)
    requires s.While?
    ensures ExecWhile(w, s, env, depth, inFunction, TRACKED, again, fuel)
         == WhileSpecTested(w, s, EvalExpr(w, s.cond, Testing(env, s.off, again, TRACKED), TRACKED, fuel),
                            depth, inFunction, fuel)
    ensures WalkWhile(w, s, next, m, fuel) == WhileWalkTested(w, s, next, WalkExpr(w, s.cond, m, fuel), fuel)
  {
  }

  /** Once the condition has value `v`. */
  lemma {:induction false} WhileTested(h: Option<set<nat>>, w: World, s: Stmt, next: Stmts, m: Machine, m2: Machine,
                                       v: int, fuel: nat)
    requires s.While? && s.off !in m2.continued
    requires Ready(h, m) && TextLoop(h, s, next, m)
    requires Entered(m, m2) && FunsSettled(h, m2.funs, m2.switched)
    requires if IsTrue(v) then Ready(h, m2) else Idle(m2) && m2.fs.change == Nothing && !m2.fs.returned
    ensures Agrees(h, m, Fors(s),
              if IsTrue(v) then WhileSpec(w, s, EnvOf(m2), m.fs.nest, m.fs.inFunction, fuel)
              else Done((EnvOf(m2), Normal)),
              WhileWalk(w, s, next, m2, fuel))
    decreases fuel, s, 2
  {
    if IsTrue(v) {
      WhileBodyAgrees(h, w, s, next, m, m2, fuel);
    } else {
      SkippedStmts(w, s.body, BodyPlace(s.body, next), m2, fuel);
      WhileEndsFalse(h, m, m2, ForsIn(s.body), s.off);
    }
  }

  lemma WhileEndsFalse(h: Option<set<nat>>, m: Machine, m2: Machine, body: set<nat>, off: nat)
    requires Ready(h, m) && Entered(m, m2) && Idle(m2) && FunsSettled(h, m2.funs, m2.switched)
    requires m2.fs.change == Nothing && !m2.fs.returned
    ensures var (m4, more) := EndWhile(Settled(m2, body), off);
      !more && After(h, m, body, EnvOf(m2), Normal, m4)
  {
  }

  function WhileSpec(w: World, s: Stmt, env: Env, depth: nat, inFunction: bool, fuel: nat): Run<(Env, Signal)>
    requires s.While?
  {
    var (env2, sig) :- ExecList(w, s.body, env, depth + 1, inFunction, TRACKED, fuel);
    AfterWhileBody(w, s, env2, sig, depth, inFunction, fuel)
  }

  function WhileWalk(w: World, s: Stmt, next: Stmts, m: Machine, fuel: nat): Run<Machine>
    requires s.While?
  {
    var m3 :- WalkStmts(w, s.body, BodyPlace(s.body, next), m, fuel);
    WalkWhileOn(w, s, next, m3, fuel)
  }

  /** From a true condition on. */
  lemma {:induction false} WhileBodyAgrees(h: Option<set<nat>>, w: World, s: Stmt, next: Stmts, m: Machine, m2: Machine,
                                           fuel: nat)
    requires s.While? && s.off !in m2.continued
    requires Ready(h, m) && TextLoop(h, s, next, m)
    requires Entered(m, m2) && Ready(h, m2)
    ensures Agrees(h, m, Fors(s), WhileSpec(w, s, EnvOf(m2), m.fs.nest, m.fs.inFunction, fuel),
                   WhileWalk(w, s, next, m2, fuel))
    decreases fuel, s, 1
  {
    var q := BodyPlace(s.body, next);
    StmtsAgree(h, w, s.body, q, m2, fuel);
    var spec := ExecList(w, s.body, EnvOf(m2), m2.fs.nest, m.fs.inFunction, TRACKED, fuel);
    if spec.Done? {
      WhileNext(h, w, s, next, m, m2, spec.value.0, spec.value.1, WalkStmts(w, s.body, q, m2, fuel).value, fuel);
    }
  }

  /** What the spec does after a `while` body that ended with `sig`. */
  function AfterWhileBody(w: World, s: Stmt, env: Env, sig: Signal, depth: nat, inFunction: bool,
                          fuel: nat): Run<(Env, Signal)>
    requires s.While?
  {
    if !GoesOn(sig) then Done((env, Outward(sig)))
    else if fuel == 0 then OutOfFuel
    else ExecWhile(w, s, env, depth, inFunction, TRACKED, true, fuel - 1)
  }

  lemma {:induction false} WhileNext(h: Option<set<nat>>, w: World, s: Stmt, next: Stmts, m: Machine, m2: Machine,
                                     env: Env, sig: Signal, m3: Machine, fuel: nat)
    requires s.While? && s.off !in m2.continued
    requires Ready(h, m) && TextLoop(h, s, next, m)
    requires Entered(m, m2) && After(h, m2, Fors(s), env, sig, m3)
    ensures Agrees(h, m, Fors(s), AfterWhileBody(w, s, env, sig, m.fs.nest, m.fs.inFunction, fuel),
                   WalkWhileOn(w, s, next, m3, fuel))
    decreases fuel, s, 0
  {
    var (m4, more) := EndWhile(m3, s.off);
    WhileEnds(h, m, m2, Fors(s), env, sig, m3, s.off);
    if more && fuel > 0 {
      var m5 := m4.(continued := m3.continued);
      assert m4.(eaten := 0) == Opened(m5, s.off, true);
      WhileAgrees(h, w, s, next, m5, true, fuel - 1);
      AgreesLater(h, m, m5, Fors(s), Fors(s), env,
        ExecWhile(w, s, env, m.fs.nest, m.fs.inFunction, TRACKED, true, fuel - 1),
        WalkWhile(w, s, next, m4.(eaten := 0), fuel - 1));
    }
  }

  /** The end of a `do` body that leaves the loop: the condition is only read. */
  lemma DoLeaves(h: Option<set<nat>>, m: Machine, m2: Machine, offs: set<nat>, env: Env, sig: Signal, m3: Machine,
                 off: nat, v: int)
    requires Ready(h, m) && Entered(m, m2) && After(h, m2, offs, env, sig, m3) && !GoesOn(sig)
    ensures ForceEvalDoWhile(m3) == m3 && Idle(m3)
    ensures var (m4, more) := EndDoWhile(m3, off, v); !more && After(h, m, offs, env, Outward(sig), m4)
  {
  }

  /** A `do` body that goes on: the condition is evaluated in a state that is executing. */
  lemma DoGoesOn(h: Option<set<nat>>, m: Machine, m2: Machine, offs: set<nat>, env: Env, sig: Signal, m3: Machine)
    requires Ready(h, m) && Entered(m, m2) && After(h, m2, offs, env, sig, m3) && GoesOn(sig)
    ensures var m4 := ForceEvalDoWhile(m3);
      Ready(h, m4) && EnvOf(m4) == env && Entered(m, m4.(switched := m.switched, swapped := m.swapped))
      && m4.switched == m.switched + offs
  {
  }

  /** After the condition of a `do`. */
  lemma DoTested(h: Option<set<nat>>, m: Machine, offs: set<nat>, m5: Machine, off: nat, v: int)
    requires Ready(h, m) && Ready(h, m5) && Entered(m, m5.(switched := m.switched, swapped := m.swapped))
      && m5.switched == m.switched + offs
    ensures var (m6, more) := EndDoWhile(m5, off, v);
      && more == IsTrue(v)
      && m6.continued == (if more then m5.continued + {off} else m5.continued)
      && After(h, m, offs, EnvOf(m5), Normal, m6.(continued := m5.continued))
  {
  }

  lemma {:induction false} DoAgrees(h: Option<set<nat>>, w: World, s: Stmt, m: Machine, again: bool, fuel: nat)
    requires s.DoWhile? && s.off !in m.continued
    requires Ready(h, m) && TextLoop(h, s, Skip, m)
    ensures Agrees(h, m, Fors(s), ExecDo(w, s, EnvOf(m), m.fs.nest, m.fs.inFunction, TRACKED, fuel),
                   WalkDo(w, s, Opened(m, s.off, again), fuel))
    decreases fuel, s, 3
  {
    var m2 := StartDoWhile(Opened(m, s.off, again), s.off);
    assert m2.continued == m.continued;
    DoBodyAgrees(h, w, s, m, m2, fuel);
    DoUnfolds(w, s, EnvOf(m), m.fs.nest, m.fs.inFunction, Opened(m, s.off, again), fuel);
  }

  function DoSpec(w: World, s: Stmt, env: Env, depth: nat, inFunction: bool, fuel: nat): Run<(Env, Signal)>
    requires s.DoWhile?
  {
    var (env1, sig) :- ExecList(w, s.body, env, depth + 1, inFunction, TRACKED, fuel);
    AfterDoBody(w, s, env1, sig, depth, inFunction, fuel)
  }

  function DoWalk(w: World, s: Stmt, m2: Machine, fuel: nat): Run<Machine>
    requires s.DoWhile?
  {
    var m3 :- WalkStmts(w, s.body, CLOSED, m2, fuel);
    WalkDoCondition(w, s, m3, fuel)
  }

  lemma DoUnfolds(w: World, s: Stmt, env: Env, depth: nat, inFunction: bool, m: Machine, fuel: nat)
    requires s.DoWhile?
    ensures ExecDo(w, s, env, depth, inFunction, TRACKED, fuel) == DoSpec(w, s, env, depth, inFunction, fuel)
    ensures WalkDo(w, s, m, fuel) == DoWalk(w, s, StartDoWhile(m, s.off), fuel)
  {
  }

  lemma {:induction false} DoBodyAgrees(h: Option<set<nat>>, w: World, s: Stmt, m: Machine, m2: Machine, fuel: nat)
    requires s.DoWhile? && s.off !in m.continued
    requires Ready(h, m) && TextLoop(h, s, Skip, m)
    requires Entered(m, m2) && Ready(h, m2) && EnvOf(m2) == EnvOf(m)
    ensures Agrees(h, m, Fors(s), DoSpec(w, s, EnvOf(m), m.fs.nest, m.fs.inFunction, fuel), DoWalk(w, s, m2, fuel))
    decreases fuel, s, 2
  {
    StmtsAgree(h, w, s.body, CLOSED, m2, fuel);
    var spec := ExecList(w, s.body, EnvOf(m), m2.fs.nest, m.fs.inFunction, TRACKED, fuel);
    if spec.Done? {
      DoNext(h, w, s, m, m2, spec.value.0, spec.value.1, WalkStmts(w, s.body, CLOSED, m2, fuel).value, fuel);
    }
  }

  /** What the spec does after a `do` body. */
  function AfterDoBody(w: World, s: Stmt, env: Env, sig: Signal, depth: nat, inFunction: bool,
                       fuel: nat): Run<(Env, Signal)>
    requires s.DoWhile?
  {
    if !GoesOn(sig) then Done((env, Outward(sig)))
    else
      var (env2, v) :- EvalExpr(w, s.cond, env, TRACKED, fuel);
      if !IsTrue(v) then Done((env2, Normal))
      else if fuel == 0 then OutOfFuel
      else ExecDo(w, s, env2, depth, inFunction, TRACKED, fuel - 1)
  }

  function WalkDoCondition(w: World, s: Stmt, m: Machine, fuel: nat): Run<Machine>
    requires s.DoWhile?
  {
    var (m2, v) :- WalkExpr(w, s.cond, ForceEvalDoWhile(m), fuel);
    var (m3, more) := EndDoWhile(m2, s.off, v);
    if !more then Done(m3) else if fuel == 0 then OutOfFuel else WalkDo(w, s, m3, fuel - 1)
  }

  lemma {:induction false} DoNext(h: Option<set<nat>>, w: World, s: Stmt, m: Machine, m2: Machine, env: Env,
                                  sig: Signal, m3: Machine, fuel: nat)
    requires s.DoWhile? && s.off !in m.continued
    requires Ready(h, m) && TextLoop(h, s, Skip, m)
    requires Entered(m, m2) && After(h, m2, Fors(s), env, sig, m3)
    ensures Agrees(h, m, Fors(s), AfterDoBody(w, s, env, sig, m.fs.nest, m.fs.inFunction, fuel),
                   WalkDoCondition(w, s, m3, fuel))
    decreases fuel, s, 1
  {
    if GoesOn(sig) {
      DoCondition(h, w, s, m, m2, env, sig, m3, fuel);
    } else {
      DoLeaves(h, m, m2, Fors(s), env, sig, m3, s.off, 0);
      SkippedExpr(w, s.cond, m3, fuel);
      DoLeaves(h, m, m2, Fors(s), env, sig, m3, s.off, WalkExpr(w, s.cond, m3, fuel).value.1);
    }
  }

  lemma {:induction false} DoCondition(h: Option<set<nat>>, w: World, s: Stmt, m: Machine, m2: Machine, env: Env,
                                       sig: Signal, m3: Machine, fuel: nat)
    requires s.DoWhile? && s.off !in m.continued
    requires Ready(h, m) && TextLoop(h, s, Skip, m)
    requires Entered(m, m2) && After(h, m2, Fors(s), env, sig, m3) && GoesOn(sig)
    ensures Agrees(h, m, Fors(s), AfterDoBody(w, s, env, sig, m.fs.nest, m.fs.inFunction, fuel),
                   WalkDoCondition(w, s, m3, fuel))
    decreases fuel, s, 0
  {
    var m4 := ForceEvalDoWhile(m3);
    DoGoesOn(h, m, m2, Fors(s), env, sig, m3);
    ExprAgrees(h, w, s.cond, m4, fuel);
    var spec := EvalExpr(w, s.cond, env, TRACKED, fuel);
    if spec.Done? {
      var (m5, v) := WalkExpr(w, s.cond, m4, fuel).value;
      var (m6, more) := EndDoWhile(m5, s.off, v);
      DoTested(h, m, Fors(s), m5, s.off, v);
      var m7 := m6.(continued := m5.continued);
      if more && fuel > 0 {
        assert m6 == Opened(m7, s.off, true);
        DoAgrees(h, w, s, m7, true, fuel - 1);
        AgreesLater(h, m, m7, Fors(s), Fors(s), spec.value.0,
          ExecDo(w, s, spec.value.0, m.fs.nest, m.fs.inFunction, TRACKED, fuel - 1), WalkDo(w, s, m6, fuel - 1));
      }
    }
  }

  // ----- for -----

  /** Inside a `for` pass: the loop is on top of the FOR stack from its second pass on. */
  predicate InFor(m: Machine, m2: Machine, off: nat) {
    && IntTop(m.forStack) != off
    && (m2.forStack == m.forStack || m2.forStack == Push(off, m.forStack))
    && Entered(m, m2.(forStack := m.forStack))
  }

  /** What the spec and the parser do once the condition of this pass has value `v`. */
  function ForSpecRest(w: World, s: Stmt, env: Env, v: int, depth: nat, inFunction: bool, fuel: nat): Run<(Env, Signal)>
    requires s.For?
  {
    if !IsTrue(v) then Done((env, Normal))
    else
      var (env2, sig) :- ExecList(w, s.body, env, depth + 1, inFunction, TRACKED, fuel);
      ForSpecNext(w, s, env2, sig, depth, inFunction, fuel)
  }

  function ForSpecNext(w: World, s: Stmt, env: Env, sig: Signal, depth: nat, inFunction: bool,
                       fuel: nat): Run<(Env, Signal)>
    requires s.For?
  {
    if !GoesOn(sig) then Done((env, Outward(sig)))
    else if fuel == 0 then OutOfFuel
    else ForSpecLater(w, s, env, depth, inFunction, fuel - 1)
  }

  /** A pass after the first: the step, then the loop. */
  function ForSpecLater(w: World, s: Stmt, env: Env, depth: nat, inFunction: bool, fuel: nat): Run<(Env, Signal)>
    requires s.For?
  {
    var (env3, _) :- EvalList(w, s.e3, env, TRACKED, fuel);
    ExecFor(w, s, env3, depth, inFunction, TRACKED, fuel)
  }

  function ForWalkRest(w: World, s: Stmt, next: Stmts, m: Machine, sw: bool, fuel: nat): Run<Machine>
    requires s.For?
  {
    var m6 :- WalkStmts(w, s.body, BodyPlace(s.body, next), m, fuel);
    ForWalkNext(w, s, next, m6, sw, fuel)
  }

  function ForWalkNext(w: World, s: Stmt, next: Stmts, m: Machine, sw: bool, fuel: nat): Run<Machine>
    requires s.For?
  {
    var (m7, again) := ForPostStatement(m, s.off, sw);
    if !again then Done(m7) else if fuel == 0 then OutOfFuel else WalkFor(w, s, next, m7.(eaten := 0), fuel - 1)
  }

  /** Between two passes, seen from the state `m` the loop was entered in. */
  function Sought(m: Machine, off: nat): Machine {
    m.(continued := m.continued + {off}, forStack := Push(off, m.forStack))
  }

  lemma ForHeaders(m: Machine, m3: Machine, body: set<nat>, off: nat)
    requires m.switched == m.swapped && off !in body && m3.switched == m3.swapped == m.switched + body
    ensures var m4 := ForPostStatement(m3, off, off in m.switched).0;
      m4.switched == m4.swapped == m.switched + ({off} + body)
  {
  }

  lemma ForGoesOn(h: Option<set<nat>>, m: Machine, m2: Machine, body: set<nat>, env: Env, sig: Signal, m3: Machine,
                  off: nat)
    requires Ready(h, m) && InFor(m, m2, off) && After(h, m2, body, env, sig, m3) && off !in body && GoesOn(sig)
    ensures var (m4, more) := ForPostStatement(m3, off, off in m.switched);
      var m5 := m4.(continued := m3.continued, forStack := m.forStack);
      more && m4 == Sought(m5, off) && After(h, m, {off} + body, env, Normal, m5)
  {
    ForHeaders(m, m3, body, off);
  }

  lemma ForLeaves(h: Option<set<nat>>, m: Machine, m2: Machine, body: set<nat>, env: Env, sig: Signal, m3: Machine,
                  off: nat)
    requires Ready(h, m) && InFor(m, m2, off) && After(h, m2, body, env, sig, m3) && off !in body && !GoesOn(sig)
    ensures var (m4, more) := ForPostStatement(m3, off, off in m.switched);
      !more && After(h, m, {off} + body, env, Outward(sig), m4)
  {
    ForHeaders(m, m3, body, off);
    ForPops(m, m2, body, sig, m3, off);
  }

  /** The stacks behind a pass that leaves the loop. */
  lemma ForPops(m: Machine, m2: Machine, body: set<nat>, sig: Signal, m3: Machine, off: nat)
    requires m.execute && m.ShouldExecute() && InFor(m, m2, off) && SameFrame(m2, m3) && !GoesOn(sig)
    requires m3.execute == m3.ShouldExecute() && Signalled(m3, sig)
    ensures var (m4, more) := ForPostStatement(m3, off, off in m.switched);
      !more && SameFrame(m, m4) && m4.execute == m4.ShouldExecute()
  {
  }

  lemma ForEndsFalse(h: Option<set<nat>>, m: Machine, m2: Machine, body: set<nat>, off: nat)
    requires Ready(h, m) && InFor(m, m2, off) && off !in body
    requires FunsSettled(h, m2.funs, m2.switched)
    requires Idle(m2) && m2.fs.change == Nothing && !m2.fs.returned
    ensures var (m4, more) := ForPostStatement(Settled(m2, body), off, off in m.switched);
      !more && After(h, m, {off} + body, EnvOf(m2), Normal, m4)
  {
    ForHeaders(m, Settled(m2, body), body, off);
  }

  lemma {:induction false} ForRestAgrees(h: Option<set<nat>>, w: World, s: Stmt, next: Stmts, m: Machine, m2: Machine,
                                         v: int, fuel: nat)
    requires s.For? && s.off !in m.continued
    requires Ready(h, m) && TextLoop(h, s, next, m)
    requires InFor(m, m2, s.off) && FunsSettled(h, m2.funs, m2.switched)
    requires if IsTrue(v) then Ready(h, m2) else Idle(m2) && m2.fs.change == Nothing && !m2.fs.returned
    ensures Agrees(h, m, Fors(s), ForSpecRest(w, s, EnvOf(m2), v, m.fs.nest, m.fs.inFunction, fuel),
                   ForWalkRest(w, s, next, m2, s.off in m.switched, fuel))
    decreases fuel, s, 3
  {
    if IsTrue(v) {
      ForBodyAgrees(h, w, s, next, m, m2, fuel);
    } else {
      SkippedStmts(w, s.body, BodyPlace(s.body, next), m2, fuel);
      ForEndsFalse(h, m, m2, ForsIn(s.body), s.off);
    }
  }

  /** From a true condition on. */
  lemma {:induction false} ForBodyAgrees(h: Option<set<nat>>, w: World, s: Stmt, next: Stmts, m: Machine, m2: Machine,
                                         fuel: nat)
    requires s.For? && s.off !in m.continued
    requires Ready(h, m) && TextLoop(h, s, next, m)
    requires InFor(m, m2, s.off) && Ready(h, m2)
    ensures Agrees(h, m, Fors(s), ForSpecRest(w, s, EnvOf(m2), 1, m.fs.nest, m.fs.inFunction, fuel),
                   ForWalkRest(w, s, next, m2, s.off in m.switched, fuel))
    decreases fuel, s, 2
  {
    var q := BodyPlace(s.body, next);
    StmtsAgree(h, w, s.body, q, m2, fuel);
    var spec := ExecList(w, s.body, EnvOf(m2), m2.fs.nest, m.fs.inFunction, TRACKED, fuel);
    if spec.Done? {
      ForNext(h, w, s, next, m, m2, spec.value.0, spec.value.1, WalkStmts(w, s.body, q, m2, fuel).value, fuel);
    }
  }

  lemma {:induction false} ForNext(h: Option<set<nat>>, w: World, s: Stmt, next: Stmts, m: Machine, m2: Machine,
                                   env: Env, sig: Signal, m3: Machine, fuel: nat)
    requires s.For? && s.off !in m.continued
    requires Ready(h, m) && TextLoop(h, s, next, m)
    requires InFor(m, m2, s.off) && After(h, m2, ForsIn(s.body), env, sig, m3)
    ensures Agrees(h, m, Fors(s), ForSpecNext(w, s, env, sig, m.fs.nest, m.fs.inFunction, fuel),
                   ForWalkNext(w, s, next, m3, s.off in m.switched, fuel))
    decreases fuel, s, 1
  {
    if GoesOn(sig) {
      ForAgain(h, w, s, next, m, m2, env, sig, m3, fuel);
    } else {
      ForLeaves(h, m, m2, ForsIn(s.body), env, sig, m3, s.off);
    }
  }

  lemma {:induction false} ForAgain(h: Option<set<nat>>, w: World, s: Stmt, next: Stmts, m: Machine, m2: Machine,
                                    env: Env, sig: Signal, m3: Machine, fuel: nat)
    requires s.For? && s.off !in m.continued
    requires Ready(h, m) && TextLoop(h, s, next, m)
    requires InFor(m, m2, s.off) && After(h, m2, ForsIn(s.body), env, sig, m3) && GoesOn(sig)
    ensures Agrees(h, m, Fors(s), ForSpecNext(w, s, env, sig, m.fs.nest, m.fs.inFunction, fuel),
                   ForWalkNext(w, s, next, m3, s.off in m.switched, fuel))
    decreases fuel, s, 0
  {
    ForGoesOn(h, m, m2, ForsIn(s.body), env, sig, m3, s.off);
    if fuel > 0 {
      var m4 := ForPostStatement(m3, s.off, s.off in m.switched).0;
      var m5 := m4.(continued := m3.continued, forStack := m.forStack);
      assert m4.(eaten := 0) == m4;
      ForLater(h, w, s, next, m5, fuel - 1);
      AgreesLater(h, m, m5, Fors(s), Fors(s), env,
        ForSpecLater(w, s, env, m.fs.nest, m.fs.inFunction, fuel - 1), WalkFor(w, s, next, m4, fuel - 1));
    }
  }

  /** After the header the condition, wherever it stood, has decided whether the body is executed. */
  predicate HeaderDone(h: Option<set<nat>>, m: Machine, off: nat, spec: Run<(Env, seq<int>)>, run: Run<Machine>) {
    match spec
    case Done((env, vs)) =>
      && run.Done?
      && InFor(m, run.value, off)
      && EnvOf(run.value) == env
      && FunsSettled(h, env.funs, m.switched)
      && (if IsTrue(HeaderValue(vs)) then Ready(h, run.value)
          else Idle(run.value) && run.value.fs.change == Nothing && !run.value.fs.returned)
    case Halted(hist) => run == Halted(hist)
    case Misread(_) => h.Some? ==> !run.Done?
    case OutOfFuel => run == OutOfFuel
  }

  /** First pass, header switched before: the step stands second and is skipped. */
  lemma {:induction false} ConditionsFirstSwitched(h: Option<set<nat>>, w: World, s: Stmt, m: Machine, m1: Machine,
                                                   fuel: nat)
    requires s.For? && s.off in m.switched
    requires Ready(h, m) && InFor(m, m1, s.off) && m1.forStack == m.forStack && Ready(h, m1)
    ensures HeaderDone(h, m, s.off, EvalList(w, s.e2, EnvOf(m1), TRACKED, fuel),
                       WalkForConditions(w, s, m1, true, fuel))
    decreases fuel, s, 0
  {
    var m2 := ForPreExpr2(m1, s.off, true);
    SkippedList(w, Second(s, m2), m2, fuel);
    var m4 := ForPreExpr3(m2, true);
    assert Third(s, m4) == s.e2;
    ListAgrees(h, w, s.e2, m4, fuel);
  }

  /** The very first pass: the header still stands as written, and the step, third, is skipped. */
  lemma {:induction false} ConditionsFirstFresh(h: Option<set<nat>>, w: World, s: Stmt, m: Machine, m1: Machine,
                                                fuel: nat)
    requires s.For? && s.off !in m.switched
    requires Ready(h, m) && InFor(m, m1, s.off) && m1.forStack == m.forStack && Ready(h, m1)
    ensures HeaderDone(h, m, s.off, EvalList(w, s.e2, EnvOf(m1), TRACKED, fuel),
                       WalkForConditions(w, s, m1, false, fuel))
    decreases fuel, s, 0
  {
    var m2 := ForPreExpr2(m1, s.off, false);
    assert Second(s, m2) == s.e2;
    ListAgrees(h, w, s.e2, m2, fuel);
    if EvalList(w, s.e2, EnvOf(m1), TRACKED, fuel).Done? {
      var m4 := ForPreExpr3(WalkList(w, s.e2, m2, fuel).value.0, false);
      SkippedList(w, Third(s, m4), m4, fuel);
    }
  }

  /** Every later pass: the step, now second, and then the condition, now third, are evaluated. */
  lemma {:induction false} ConditionsLater(h: Option<set<nat>>, w: World, s: Stmt, m: Machine, m1: Machine, fuel: nat)
    requires s.For? && s.off in m.switched
    requires Ready(h, m) && InFor(m, m1, s.off) && m1.forStack == Push(s.off, m.forStack)
    requires m1.fs.change == Nothing && !m1.fs.returned && m1.eaten == 0 && EnvOf(m1) == EnvOf(m)
    ensures HeaderDone(h, m, s.off, StepAndTest(w, s, EnvOf(m1), fuel), WalkForConditions(w, s, m1, true, fuel))
    decreases fuel, s, 0
  {
    var m2 := ForPreExpr2(m1, s.off, true);
    assert Second(s, m2) == s.e3;
    ListAgrees(h, w, s.e3, m2, fuel);
    var step := EvalList(w, s.e3, EnvOf(m), TRACKED, fuel);
    if step.Done? {
      var m4 := ForPreExpr3(WalkList(w, s.e3, m2, fuel).value.0, true);
      assert Third(s, m4) == s.e2;
      ListAgrees(h, w, s.e2, m4, fuel);
    }
  }

  function InitAndTest(w: World, s: Stmt, env: Env, fuel: nat): Run<(Env, seq<int>)>
    requires s.For?
  {
    var (env1, _) :- EvalList(w, s.e1, env, TRACKED, fuel);
    EvalList(w, s.e2, env1, TRACKED, fuel)
  }

  function StepAndTest(w: World, s: Stmt, env: Env, fuel: nat): Run<(Env, seq<int>)>
    requires s.For?
  {
    var (env1, _) :- EvalList(w, s.e3, env, TRACKED, fuel);
    EvalList(w, s.e2, env1, TRACKED, fuel)
  }

  lemma {:induction false} HeaderFirst(h: Option<set<nat>>, w: World, s: Stmt, m: Machine, fuel: nat)
    requires s.For? && s.off !in m.continued && IntTop(m.forStack) != s.off && Ready(h, m)
    ensures HeaderDone(h, m, s.off, InitAndTest(w, s, EnvOf(m), fuel), WalkForHeader(w, s, m, fuel))
    decreases fuel, s, 1
  {
    var m0 := ForPreExpr1(m, s.off);
    assert m0.continued == m.continued;
    ListAgrees(h, w, s.e1, m0, fuel);
    if EvalList(w, s.e1, EnvOf(m), TRACKED, fuel).Done? {
      var m1 := WalkList(w, s.e1, m0, fuel).value.0;
      if s.off in m.switched {
        ConditionsFirstSwitched(h, w, s, m, m1, fuel);
      } else {
        ConditionsFirstFresh(h, w, s, m, m1, fuel);
      }
    }
  }

  lemma {:induction false} HeaderLater(h: Option<set<nat>>, w: World, s: Stmt, m: Machine, fuel: nat)
    requires s.For? && s.off !in m.continued && s.off in m.switched && IntTop(m.forStack) != s.off && Ready(h, m)
    ensures HeaderDone(h, m, s.off, StepAndTest(w, s, EnvOf(m), fuel), WalkForHeader(w, s, Sought(m, s.off), fuel))
    decreases fuel, s, 1
  {
    var m0 := ForPreExpr1(Sought(m, s.off), s.off);
    assert m0.continued == m.continued;
    SkippedList(w, s.e1, m0, fuel);
    ConditionsLater(h, w, s, m, m0, fuel);
  }

  lemma {:induction false} ForLater(h: Option<set<nat>>, w: World, s: Stmt, next: Stmts, m: Machine, fuel: nat)
    requires s.For? && s.off !in m.continued && s.off in m.switched
    requires Ready(h, m) && TextLoop(h, s, next, m)
    ensures Agrees(h, m, Fors(s), ForSpecLater(w, s, EnvOf(m), m.fs.nest, m.fs.inFunction, fuel),
                   WalkFor(w, s, next, Sought(m, s.off), fuel))
    decreases fuel, s, 5
  {
    HeaderLater(h, w, s, m, fuel);
    ForTested(h, w, s, next, m, StepAndTest(w, s, EnvOf(m), fuel), WalkForHeader(w, s, Sought(m, s.off), fuel), fuel);
    LaterPassSpec(w, s, EnvOf(m), m.fs.nest, m.fs.inFunction, fuel);
    PassWalk(w, s, next, Sought(m, s.off), fuel);
  }

  /** The pass, once its header has been read. */
  function ForSpecTested(w: World, s: Stmt, test: Run<(Env, seq<int>)>, depth: nat, inFunction: bool,
                         fuel: nat): Run<(Env, Signal)>
    requires s.For?
  {
    var (env, vs) :- test;
    ForSpecRest(w, s, env, HeaderValue(vs), depth, inFunction, fuel)
  }

  function ForWalkTested(w: World, s: Stmt, next: Stmts, header: Run<Machine>, sw: bool, fuel: nat): Run<Machine>
    requires s.For?
  {
    var m2 :- header;
    ForWalkRest(w, s, next, m2, sw, fuel)
  }

  lemma {:induction false} ForTested(h: Option<set<nat>>, w: World, s: Stmt, next: Stmts, m: Machine,
                                     test: Run<(Env, seq<int>)>, header: Run<Machine>, fuel: nat)
    requires s.For? && s.off !in m.continued
    requires Ready(h, m) && TextLoop(h, s, next, m) && HeaderDone(h, m, s.off, test, header)
    ensures Agrees(h, m, Fors(s), ForSpecTested(w, s, test, m.fs.nest, m.fs.inFunction, fuel),
                   ForWalkTested(w, s, next, header, s.off in m.switched, fuel))
    decreases fuel, s, 4
  {
    if test.Done? { ForRestAgrees(h, w, s, next, m, header.value, HeaderValue(test.value.1), fuel); }
  }

  lemma {:induction false} ForAgrees(h: Option<set<nat>>, w: World, s: Stmt, next: Stmts, m: Machine, fuel: nat)
    requires s.For? && s.off !in m.continued
    requires Ready(h, m) && TextLoop(h, s, next, m)
    ensures Agrees(h, m, Fors(s), Exec(w, s, EnvOf(m), m.fs.nest, m.fs.inFunction, TRACKED, fuel),
                   WalkFor(w, s, next, m, fuel))
    decreases fuel, s, 5
  {
    HeaderFirst(h, w, s, m, fuel);
    ForTested(h, w, s, next, m, InitAndTest(w, s, EnvOf(m), fuel), WalkForHeader(w, s, m, fuel), fuel);
    FirstPassSpec(w, s, EnvOf(m), m.fs.nest, m.fs.inFunction, fuel);
    PassWalk(w, s, next, m, fuel);
  }

  lemma LaterPassSpec(w: World, s: Stmt, env: Env, depth: nat, inFunction: bool, fuel: nat)
    requires s.For?
    ensures ForSpecLater(w, s, env, depth, inFunction, fuel)
      == ForSpecTested(w, s, StepAndTest(w, s, env, fuel), depth, inFunction, fuel)
  {
  }

  lemma PassWalk(w: World, s: Stmt, next: Stmts, m: Machine, fuel: nat)
    requires s.For?
    ensures WalkFor(w, s, next, m, fuel)
      == ForWalkTested(w, s, next, WalkForHeader(w, s, m, fuel), s.off in m.switched, fuel)
  {
  }

  lemma FirstPassSpec(w: World, s: Stmt, env: Env, depth: nat, inFunction: bool, fuel: nat)
    requires s.For?
    ensures Exec(w, s, env, depth, inFunction, TRACKED, fuel)
      == ForSpecTested(w, s, InitAndTest(w, s, env, fuel), depth, inFunction, fuel)
  {
    var init := EvalList(w, s.e1, env, TRACKED, fuel);
    if init.Done? {
      assert Exec(w, s, env, depth, inFunction, TRACKED, fuel)
        == ExecFor(w, s, init.value.0, depth, inFunction, TRACKED, fuel);
    }
  }

  // ----- switch -----

  lemma {:induction false} SwitchAgrees(h: Option<set<nat>>, w: World, s: Stmt, p: Place, m: Machine, fuel: nat)
    requires s.Switch?
    requires Ready(h, m) && Text(h, s, p, m)
    ensures Agrees(h, m, Fors(s), Exec(w, s, EnvOf(m), m.fs.nest, m.fs.inFunction, TRACKED, fuel),
                   WalkStmt(w, s, p, m, fuel))
    decreases fuel, s, 1
  {
    ExprAgrees(h, w, s.subject, m, fuel);
    var subject := EvalExpr(w, s.subject, EnvOf(m), TRACKED, fuel);
    if subject.Done? {
      var (m1, v) := WalkExpr(w, s.subject, m, fuel).value;
      var m2 := SwitchStart(m1, s.off, v);
      CasesAgree(h, w, s.cases, v, false, m2, fuel);
      var spec := ExecCases(w, s.cases, v, false, EnvOf(m2), m2.fs.nest, m.fs.inFunction, TRACKED, fuel);
      if spec.Done? {
        SwitchEnds(h, m, m2, Fors(s), spec.value.0, spec.value.1, WalkCases(w, s.cases, m2, fuel).value);
      }
    }
  }

  /** As `After`, but the innermost switch may have been marked as matched. */
  predicate AfterCases(h: Option<set<nat>>, m0: Machine, offs: set<nat>, env: Env, sig: Signal, m1: Machine) {
    && m1.switchStack.Push?
    && Pop(m1.switchStack) == Pop(m0.switchStack)
    && After(h, m0.(switchStack := m1.switchStack), offs, env, sig, m1)
  }

  predicate CasesOutcome(h: Option<set<nat>>, m0: Machine, offs: set<nat>, spec: Run<(Env, Signal)>,
                         run: Run<Machine>) {
    match spec
    case Done((env, sig)) => run.Done? && AfterCases(h, m0, offs, env, sig, run.value)
    case Halted(hist) => run == Halted(hist)
    case Misread(_) => h.Some? ==> !run.Done?
    case OutOfFuel => run == OutOfFuel
  }

  lemma SwitchEnds(h: Option<set<nat>>, m: Machine, m2: Machine, offs: set<nat>, env: Env, sig: Signal, m3: Machine)
    requires Ready(h, m) && Entered(m, m2.(switchStack := m.switchStack)) && Pop(m2.switchStack) == m.switchStack
    requires AfterCases(h, m2, offs, env, sig, m3)
    ensures After(h, m, offs, env, Outward(sig), SwitchEnd(m3))
  {
  }

  /** Inside a switch on `v` that is being executed. */
  predicate InSwitch(h: Option<set<nat>>, m: Machine, v: int, matched: bool) {
    && Ready(h, m)
    && IntTop(m.css) == EXECUTE && m.css.Push?
    && m.switchStack.Push?
    && m.switchStack.top.subject == v
    && ((m.switchStack.top.offset == MATCHED) <==> matched)
  }

  lemma {:induction false} CasesAgree(h: Option<set<nat>>, w: World, cases: Cases, v: int, matched: bool, m: Machine,
                                      fuel: nat)
    requires InSwitch(h, m, v, matched) && TextCases(h, cases, m)
    ensures CasesOutcome(h, m, ForsInCases(cases),
              ExecCases(w, cases, v, matched, EnvOf(m), m.fs.nest, m.fs.inFunction, TRACKED, fuel),
              WalkCases(w, cases, m, fuel))
    decreases fuel, cases, 3
  {
    match cases
    case NoCases =>
    case Default(body) =>
      var m1 := SwitchCasePre(w, m, None);
      StmtsAgree(h, w, body, CLOSED, m1, fuel);
    case Case(test, body, rest) =>
      LabelAgrees(h, w, cases, v, matched, m, fuel);
  }

  lemma {:induction false} LabelAgrees(h: Option<set<nat>>, w: World, cases: Cases, v: int, matched: bool, m: Machine,
                                       fuel: nat)
    requires cases.Case? && InSwitch(h, m, v, matched) && TextCases(h, cases, m)
    ensures CasesOutcome(h, m, ForsInCases(cases),
              ExecCases(w, cases, v, matched, EnvOf(m), m.fs.nest, m.fs.inFunction, TRACKED, fuel),
              WalkCases(w, cases, m, fuel))
    decreases fuel, cases, 2
  {
    ExprAgrees(h, w, cases.test, m, fuel);
    var spec := EvalExpr(w, cases.test, EnvOf(m), TRACKED, fuel);
    if spec.Done? {
      var (m1, u) := WalkExpr(w, cases.test, m, fuel).value;
      assert Evolved(m, m1);
      CaseAgrees(h, w, cases, v, matched, m1, u, fuel);
      CasesBefore(h, m, m1, ForsInCases(cases),
        ExecCases(w, cases, v, matched, EnvOf(m), m.fs.nest, m.fs.inFunction, TRACKED, fuel),
        WalkCases(w, cases, m, fuel));
    }
  }

  lemma CasesBefore(h: Option<set<nat>>, m: Machine, m1: Machine, offs: set<nat>, spec: Run<(Env, Signal)>,
                    run: Run<Machine>)
    requires Evolved(m, m1) && CasesOutcome(h, m1, offs, spec, run)
    ensures CasesOutcome(h, m, offs, spec, run)
  {
  }

  /** What the spec and the parser do once the label has value `u`. */
  function CaseSpec(w: World, cases: Cases, v: int, matched: bool, u: int, env: Env, depth: nat, inFunction: bool,
                    fuel: nat): Run<(Env, Signal)>
    requires cases.Case?
  {
    if matched || w.equal(v, u) then
      var (env2, sig) :- ExecList(w, cases.body, env, depth, inFunction, TRACKED, fuel);
      if sig == Normal then ExecCases(w, cases.rest, v, true, env2, depth, inFunction, TRACKED, fuel)
      else Done((env2, sig))
    else ExecCases(w, cases.rest, v, false, env, depth, inFunction, TRACKED, fuel)
  }

  function CaseWalk(w: World, cases: Cases, u: int, m: Machine, fuel: nat): Run<Machine>
    requires cases.Case?
  {
    var m2 :- WalkStmts(w, cases.body, CLOSED, SwitchCasePre(w, m, Some(u)), fuel);
    WalkCases(w, cases.rest, SwitchCasePost(m2), fuel)
  }

  lemma {:induction false} CaseAgrees(h: Option<set<nat>>, w: World, cases: Cases, v: int, matched: bool, m: Machine,
                                      u: int, fuel: nat)
    requires cases.Case? && InSwitch(h, m, v, matched) && TextCases(h, cases, m)
    ensures CasesOutcome(h, m, ForsInCases(cases),
              CaseSpec(w, cases, v, matched, u, EnvOf(m), m.fs.nest, m.fs.inFunction, fuel),
              CaseWalk(w, cases, u, m, fuel))
    decreases fuel, cases, 1
  {
    var m1, a := SwitchCasePre(w, m, Some(u)), ForsIn(cases.body);
    if matched || w.equal(v, u) {
      StmtsAgree(h, w, cases.body, CLOSED, m1, fuel);
      var spec := ExecList(w, cases.body, EnvOf(m), m.fs.nest, m.fs.inFunction, TRACKED, fuel);
      if spec.Done? {
        CaseRun(h, w, cases, v, m, m1, spec.value.0, spec.value.1, WalkStmts(w, cases.body, CLOSED, m1, fuel).value,
                fuel);
      }
    } else {
      SkippedStmts(w, cases.body, CLOSED, m1, fuel);
      var m3 := SwitchCasePost(Settled(m1, a));
      CasesAgree(h, w, cases.rest, v, false, m3, fuel);
      CasesLater(h, m, m3, a, ForsInCases(cases.rest), EnvOf(m3), cases,
        ExecCases(w, cases.rest, v, false, EnvOf(m3), m.fs.nest, m.fs.inFunction, TRACKED, fuel),
        WalkCases(w, cases.rest, m3, fuel));
    }
  }

  /** The statements of a label have been run, and ended with `sig`. */
  lemma {:induction false} CaseRun(h: Option<set<nat>>, w: World, cases: Cases, v: int, m: Machine, m1: Machine,
                                   env: Env, sig: Signal, m2: Machine, fuel: nat)
    requires cases.Case? && Ready(h, m) && TextCases(h, cases, m) && InSwitch(h, m1, v, true)
    requires m1 == m.(switchStack := m1.switchStack) && m.switchStack.Push? && Pop(m1.switchStack) == Pop(m.switchStack)
    requires After(h, m1, ForsIn(cases.body), env, sig, m2)
    ensures CasesOutcome(h, m, ForsInCases(cases),
              if sig == Normal then ExecCases(w, cases.rest, v, true, env, m.fs.nest, m.fs.inFunction, TRACKED, fuel)
              else Done((env, sig)),
              WalkCases(w, cases.rest, SwitchCasePost(m2), fuel))
    decreases fuel, cases, 0
  {
    var m3, a, b := SwitchCasePost(m2), ForsIn(cases.body), ForsInCases(cases.rest);
    if sig == Normal {
      CasesAgree(h, w, cases.rest, v, true, m3, fuel);
      CasesLater(h, m, m3, a, b, env, cases,
        ExecCases(w, cases.rest, v, true, env, m.fs.nest, m.fs.inFunction, TRACKED, fuel),
        WalkCases(w, cases.rest, m3, fuel));
    } else {
      SkippedCases(w, cases.rest, m3, fuel);
      assert m.switched + a + b == m.switched + (a + b);
    }
  }

  lemma CasesLater(h: Option<set<nat>>, m: Machine, m3: Machine, a: set<nat>, b: set<nat>, env: Env, cases: Cases,
                   spec: Run<(Env, Signal)>, run: Run<Machine>)
    requires m3.switchStack.Push? && Pop(m3.switchStack) == Pop(m.switchStack)
    requires After(h, m.(switchStack := m3.switchStack), a, env, Normal, m3) && CasesOutcome(h, m3, b, spec, run)
    requires cases.Case? && a == ForsIn(cases.body) && b == ForsInCases(cases.rest)
    ensures CasesOutcome(h, m, ForsInCases(cases), spec, run)
  {
    assert m.switched + a + b == m.switched + (a + b);
  }
}
