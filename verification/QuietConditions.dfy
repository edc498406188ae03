/**
 A class of scripts, recognisable from their text, that never reenter a loop where its keyword must not
 be continued: no `while` condition calls a user function, except that of a `while` directly behind
 another. The machine runs them all as the plain structured semantics does.
 */
module QuietConditions {
  import opened Wrappers
  import opened Script
  import opened LoopPlaces
  import opened Structured
  import opened ControlState
  import opened ControlTheorems

  predicate CallFree(e: Expr) {
    match e
    case Prim(_, args) => AllCallFree(args)
    case And(l, r) => CallFree(l) && CallFree(r)
    case Or(l, r) => CallFree(l) && CallFree(r)
    case Ternary(test, yes, no) => CallFree(test) && CallFree(yes) && CallFree(no)
    case Call(_, _) => false
  }

  predicate AllCallFree(es: Exprs) {
    match es
    case NoExprs => true
    case Comma(e, rest) => CallFree(e) && AllCallFree(rest)
  }

  /** The condition of a `while` that is not in `h` calls no user function. */
  predicate Quiet(h: set<nat>, s: Stmt) {
    match s
    case Block(ss) => AllQuiet(h, ss)
    case If(_, thn, alts) => AllQuiet(h, thn) && AltsQuiet(h, alts)
    case While(off, cond, body) => (CallFree(cond) || off in h) && AllQuiet(h, body)
    case DoWhile(_, body, _) => AllQuiet(h, body)
    case For(_, _, _, _, body) => AllQuiet(h, body)
    case Switch(_, _, cases) => CasesQuiet(h, cases)
    case Declare(_, body) => AllQuiet(h, body)
    case _ => true
  }

  predicate AllQuiet(h: set<nat>, ss: Stmts) {
    match ss
    case Skip => true
    case Seq(s, rest) => Quiet(h, s) && AllQuiet(h, rest)
  }

  predicate AltsQuiet(h: set<nat>, alts: Alternatives) {
    match alts
    case NoMore => true
    case Else(els) => AllQuiet(h, els)
    case ElseIf(_, thn, rest) => AllQuiet(h, thn) && AltsQuiet(h, rest)
  }

  predicate CasesQuiet(h: set<nat>, cases: Cases) {
    match cases
    case NoCases => true
    case Case(_, body, rest) => AllQuiet(h, body) && CasesQuiet(h, rest)
    case Default(body) => AllQuiet(h, body)
  }

  predicate FunsQuiet(h: set<nat>, funs: map<string, Function>) {
    forall f | f in funs && funs[f].User? :: AllQuiet(h, funs[f].body) && BarredIn(funs[f].body, false) !! h
  }

  /** Every function declared is quiet, and only loops in `h` are busy. */
  predicate Still(h: set<nat>, env: Env) {
    FunsQuiet(h, env.funs) && env.busy <= h
  }

  /** Not ended by reentry, and still after it. */
  predicate Calm<T>(h: set<nat>, r: Run<(Env, T)>) {
    match r
    case Done((env, _)) => Still(h, env)
    case Misread(_) => false
    case _ => true
  }

  lemma {:induction false} CallFreeEval(w: World, e: Expr, env: Env, track: bool, fuel: nat)
    requires CallFree(e)
    ensures var r := EvalExpr(w, e, env, track, fuel);
      r.Done? && r.value.0.funs == env.funs && r.value.0.busy == env.busy
    decreases e
  {
    match e
    case Prim(_, args) => CallFreeList(w, args, env, track, fuel);
    case And(l, r) =>
      CallFreeEval(w, l, env, track, fuel);
      CallFreeEval(w, r, EvalExpr(w, l, env, track, fuel).value.0, track, fuel);
    case Or(l, r) =>
      CallFreeEval(w, l, env, track, fuel);
      CallFreeEval(w, r, EvalExpr(w, l, env, track, fuel).value.0, track, fuel);
    case Ternary(test, yes, no) =>
      CallFreeEval(w, test, env, track, fuel);
      var (env1, u) := EvalExpr(w, test, env, track, fuel).value;
      CallFreeEval(w, if IsTrue(u) then yes else no, env1, track, fuel);
  }

  lemma {:induction false} CallFreeList(w: World, es: Exprs, env: Env, track: bool, fuel: nat)
    requires AllCallFree(es)
    ensures var r := EvalList(w, es, env, track, fuel);
      r.Done? && r.value.0.funs == env.funs && r.value.0.busy == env.busy
    decreases es
  {
    match es
    case NoExprs =>
    case Comma(e, rest) =>
      CallFreeEval(w, e, env, track, fuel);
      CallFreeList(w, rest, EvalExpr(w, e, env, track, fuel).value.0, track, fuel);
  }

  lemma {:induction false} CalmExpr(h: set<nat>, w: World, e: Expr, env: Env, fuel: nat)
    requires Still(h, env)
    ensures Calm(h, EvalExpr(w, e, env, TRACKED, fuel))
    decreases fuel, e, 0
  {
    match e
    case Prim(_, args) => CalmList(h, w, args, env, fuel);
    case And(l, r) =>
      CalmExpr(h, w, l, env, fuel);
      var a := EvalExpr(w, l, env, TRACKED, fuel);
      if a.Done? { CalmExpr(h, w, r, a.value.0, fuel); }
    case Or(l, r) =>
      CalmExpr(h, w, l, env, fuel);
      var a := EvalExpr(w, l, env, TRACKED, fuel);
      if a.Done? { CalmExpr(h, w, r, a.value.0, fuel); }
    case Ternary(test, yes, no) =>
      CalmExpr(h, w, test, env, fuel);
      var a := EvalExpr(w, test, env, TRACKED, fuel);
      if a.Done? { CalmExpr(h, w, if IsTrue(a.value.1) then yes else no, a.value.0, fuel); }
    case Call(name, args) =>
      if name in env.funs {
        CalmList(h, w, args, env, fuel);
        var a := EvalList(w, args, env, TRACKED, fuel);
        if a.Done? && env.funs[name].User? && fuel > 0 {
          var bound := a.value.0.(hist := a.value.0.hist + [Bound(name, a.value.1)]);
          CalmStmts(h, w, env.funs[name].body, false, bound, 0, true, fuel - 1);
        }
      }
  }

  lemma {:induction false} CalmList(h: set<nat>, w: World, es: Exprs, env: Env, fuel: nat)
    requires Still(h, env)
    ensures Calm(h, EvalList(w, es, env, TRACKED, fuel))
    decreases fuel, es, 0
  {
    match es
    case NoExprs =>
    case Comma(e, rest) =>
      CalmExpr(h, w, e, env, fuel);
      var a := EvalExpr(w, e, env, TRACKED, fuel);
      if a.Done? { CalmList(h, w, rest, a.value.0, fuel); }
  }

  lemma {:induction false} CalmStmts(h: set<nat>, w: World, ss: Stmts, after: bool, env: Env, depth: nat,
                                     inFunction: bool, fuel: nat)
    requires Still(h, env) && AllQuiet(h, ss) && BarredIn(ss, after) !! h
    ensures Calm(h, ExecList(w, ss, env, depth, inFunction, TRACKED, fuel))
    decreases fuel, ss, 0
  {
    match ss
    case Skip =>
    case Seq(s, rest) =>
      CalmStmt(h, w, s, after, env, depth, inFunction, fuel);
      var a := Exec(w, s, env, depth, inFunction, TRACKED, fuel);
      if a.Done? { CalmStmts(h, w, rest, Welcomes(s), a.value.0, depth, inFunction, fuel); }
  }

  lemma {:induction false} CalmStmt(h: set<nat>, w: World, s: Stmt, after: bool, env: Env, depth: nat, inFunction: bool,
                                    fuel: nat)
    requires Still(h, env) && Quiet(h, s) && Barred(s, after) !! h
    ensures Calm(h, Exec(w, s, env, depth, inFunction, TRACKED, fuel))
    decreases fuel, s, 1
  {
    match s
    case Eval(e) => CalmExpr(h, w, e, env, fuel);
    case Block(ss) => CalmStmts(h, w, ss, false, env, depth, inFunction, fuel);
    case If(cond, thn, alts) =>
      CalmExpr(h, w, cond, env, fuel);
      var a := EvalExpr(w, cond, env, TRACKED, fuel);
      if a.Done? {
        if IsTrue(a.value.1) { CalmStmts(h, w, thn, false, a.value.0, depth, inFunction, fuel); }
        else { CalmAlts(h, w, alts, a.value.0, depth, inFunction, fuel); }
      }
    case While(_, _, _) => CalmWhile(h, w, s, env, depth, inFunction, false, fuel);
    case DoWhile(_, _, _) => CalmDo(h, w, s, env, depth, inFunction, fuel);
    case For(_, e1, _, _, _) =>
      CalmList(h, w, e1, env, fuel);
      var a := EvalList(w, e1, env, TRACKED, fuel);
      if a.Done? { CalmFor(h, w, s, a.value.0, depth, inFunction, fuel); }
    case Switch(_, subject, cases) =>
      CalmExpr(h, w, subject, env, fuel);
      var a := EvalExpr(w, subject, env, TRACKED, fuel);
      if a.Done? { CalmCases(h, w, cases, a.value.1, false, a.value.0, depth + 1, inFunction, fuel); }
    case Jump(_, count) => if count.Some? { CalmExpr(h, w, count.value, env, fuel); }
    case Return(result) => if result.Some? { CalmExpr(h, w, result.value, env, fuel); }
    case Declare(_, _) =>
  }

  lemma {:induction false} CalmAlts(h: set<nat>, w: World, alts: Alternatives, env: Env, depth: nat, inFunction: bool,
                                    fuel: nat)
    requires Still(h, env) && AltsQuiet(h, alts) && BarredInAlts(alts) !! h
    ensures Calm(h, ExecAlts(w, alts, env, depth, inFunction, TRACKED, fuel))
    decreases fuel, alts, 0
  {
    match alts
    case NoMore =>
    case Else(els) => CalmStmts(h, w, els, false, env, depth, inFunction, fuel);
    case ElseIf(cond, thn, rest) =>
      CalmExpr(h, w, cond, env, fuel);
      var a := EvalExpr(w, cond, env, TRACKED, fuel);
      if a.Done? {
        if IsTrue(a.value.1) { CalmStmts(h, w, thn, false, a.value.0, depth, inFunction, fuel); }
        else { CalmAlts(h, w, rest, a.value.0, depth, inFunction, fuel); }
      }
  }

  lemma {:induction false} CalmCases(h: set<nat>, w: World, cases: Cases, v: int, matched: bool, env: Env, depth: nat,
                                     inFunction: bool, fuel: nat)
    requires Still(h, env) && CasesQuiet(h, cases) && BarredInCases(cases) !! h
    ensures Calm(h, ExecCases(w, cases, v, matched, env, depth, inFunction, TRACKED, fuel))
    decreases fuel, cases, 0
  {
    match cases
    case NoCases =>
    case Default(body) => CalmStmts(h, w, body, false, env, depth, inFunction, fuel);
    case Case(test, body, rest) =>
      CalmExpr(h, w, test, env, fuel);
      var a := EvalExpr(w, test, env, TRACKED, fuel);
      if a.Done? {
        if matched || w.equal(v, a.value.1) {
          CalmStmts(h, w, body, false, a.value.0, depth, inFunction, fuel);
          var b := ExecList(w, body, a.value.0, depth, inFunction, TRACKED, fuel);
          if b.Done? { CalmCases(h, w, rest, v, true, b.value.0, depth, inFunction, fuel); }
        } else {
          CalmCases(h, w, rest, v, false, a.value.0, depth, inFunction, fuel);
        }
      }
  }

  lemma {:induction false} CalmWhile(h: set<nat>, w: World, s: Stmt, env: Env, depth: nat, inFunction: bool,
                                     again: bool, fuel: nat)
    requires s.While? && Still(h, env) && Quiet(h, s) && BarredIn(s.body, false) !! h
    ensures Calm(h, ExecWhile(w, s, env, depth, inFunction, TRACKED, again, fuel))
    decreases fuel, s, 0
  {
    var env0 := Testing(env, s.off, again, TRACKED);
    if CallFree(s.cond) { CallFreeEval(w, s.cond, env0, TRACKED, fuel); } else { CalmExpr(h, w, s.cond, env0, fuel); }
    var a := EvalExpr(w, s.cond, env0, TRACKED, fuel);
    if a.Done? && IsTrue(a.value.1) {
      var env1 := Tested(a.value.0, s.off);
      CalmStmts(h, w, s.body, false, env1, depth + 1, inFunction, fuel);
      var b := ExecList(w, s.body, env1, depth + 1, inFunction, TRACKED, fuel);
      if b.Done? && fuel > 0 { CalmWhile(h, w, s, b.value.0, depth, inFunction, true, fuel - 1); }
    }
  }

  lemma {:induction false} CalmDo(h: set<nat>, w: World, s: Stmt, env: Env, depth: nat, inFunction: bool, fuel: nat)
    requires s.DoWhile? && Still(h, env) && Quiet(h, s) && BarredIn(s.body, false) !! h
    ensures Calm(h, ExecDo(w, s, env, depth, inFunction, TRACKED, fuel))
    decreases fuel, s, 0
  {
    CalmStmts(h, w, s.body, false, env, depth + 1, inFunction, fuel);
    var a := ExecList(w, s.body, env, depth + 1, inFunction, TRACKED, fuel);
    if a.Done? {
      CalmExpr(h, w, s.cond, a.value.0, fuel);
      var b := EvalExpr(w, s.cond, a.value.0, TRACKED, fuel);
      if b.Done? && fuel > 0 { CalmDo(h, w, s, b.value.0, depth, inFunction, fuel - 1); }
    }
  }

  lemma {:induction false} CalmFor(h: set<nat>, w: World, s: Stmt, env: Env, depth: nat, inFunction: bool, fuel: nat)
    requires s.For? && Still(h, env) && Quiet(h, s) && BarredIn(s.body, false) !! h
    ensures Calm(h, ExecFor(w, s, env, depth, inFunction, TRACKED, fuel))
    decreases fuel, s, 0
  {
    CalmList(h, w, s.e2, env, fuel);
    var a := EvalList(w, s.e2, env, TRACKED, fuel);
    if a.Done? {
      CalmStmts(h, w, s.body, false, a.value.0, depth + 1, inFunction, fuel);
      var b := ExecList(w, s.body, a.value.0, depth + 1, inFunction, TRACKED, fuel);
      if b.Done? && fuel > 0 {
        CalmList(h, w, s.e3, b.value.0, fuel - 1);
        var c := EvalList(w, s.e3, b.value.0, TRACKED, fuel - 1);
        if c.Done? { CalmFor(h, w, s, c.value.0, depth, inFunction, fuel - 1); }
      }
    }
  }

  /**
   The machine runs a script exactly as the structured semantics does, whether or not the run ends,
   if the condition of a `while` calls user functions only where the loop stands directly behind
   another `while`. `h` are loops that stand so.
   */
  lemma QuietScriptsAreRefined(h: set<nat>, w: World, script: Stmts, funs: map<string, Function>, fuel: nat)
    requires AllWellFormed(script) && AllQuiet(h, script) && BarredIn(script, false) !! h && OnlyInternal(funs)
    ensures
      var run, plain := MachineRun(w, script, funs, fuel), ScriptRun(w, script, funs, PLAIN, fuel);
      && (run.Done? <==> plain.Done?)
      && (run.Done? ==> run.value.hist == plain.value.0.hist && run.value.funs == plain.value.0.funs)
      && (plain.Halted? ==> run == Halted(plain.hist))
      && (plain.OutOfFuel? ==> run == OutOfFuel)
  {
    CalmStmts(h, w, script, false, Env([], funs, {}), 0, false, fuel);
    RunAgrees(w, script, funs, fuel);
  }

  /** function f() { while (op0()) ; while (op1() ? op2() : f()) ; } f(); */
  const BEHIND_BODY: Stmts := Seq(While(5, Prim(0, NoExprs), Skip), Seq(While(7, REENTRANT_COND, Skip), Skip))
  const BEHIND: Stmts := OneCall(BEHIND_BODY)

  /**
   The second loop calls its own function from its condition,
   yet in every world the machine yields what the script does.
   */
  lemma BehindAnotherWhileIsRun(w: World, hist: History)
    ensures MachineYields(w, BEHIND, map[], hist) <==> ScriptYields(w, BEHIND, map[], hist)
  {
    assert BarredIn(BEHIND_BODY, false) == {5};
    assert BarredIn(BEHIND, false) == {5};
    forall fuel: nat
      ensures MachineRun(w, BEHIND, map[], fuel).Done? <==> ScriptRun(w, BEHIND, map[], PLAIN, fuel).Done?
      ensures MachineRun(w, BEHIND, map[], fuel).Done? ==>
        MachineRun(w, BEHIND, map[], fuel).value.hist == ScriptRun(w, BEHIND, map[], PLAIN, fuel).value.0.hist
    {
      QuietScriptsAreRefined({7}, w, BEHIND, map[], fuel);
    }
  }
}
