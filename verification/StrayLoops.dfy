/**
 A `while` that follows a statement with a `while` at its end, without a closing token between them: if its
 keyword is continued when it is met, the parser reads it as part of that statement. Here that is
 an `if` that is not taken, so that the loop is passed over.
 */
module StrayLoops {
  import opened Wrappers
  import opened Script
  import opened LoopPlaces
  import opened Structured
  import opened ControlState
  import opened ParserWalk
  import opened SkippedCode
  import opened ControlTheorems

  /** function f() { if (op1()) while (op2()) ; while (op3() ? op4() : f()) ; } f(); */
  const INNER: Stmt := While(5, Prim(2, NoExprs), Skip)
  const COND: Expr := Ternary(Prim(3, NoExprs), Prim(4, NoExprs), Expr.Call("f", NoExprs))
  const STRAY: Stmt := While(7, COND, Skip)
  const UNTAKEN: Stmt := If(Prim(1, NoExprs), Seq(INNER, Skip), NoMore)
  const BODY: Stmts := Seq(UNTAKEN, Seq(STRAY, Skip))
  const SCRIPT: Stmts := OneCall(BODY)

  /** The answers at the second, third and seventh step are true. */
  function Answers(): World {
    World((h: History, op: nat, vs: seq<int>) => if |h| == 2 || |h| == 3 || |h| == 7 then 1 else 0,
          (a: int, b: int) => a == b, (h: History, e: Expr) => 0)
  }

  predicate Running(m: Machine) {
    m.execute && m.ShouldExecute() && m.eaten == 0 && m.swapped == m.switched
  }

  /** One internal operation while executing. */
  lemma Step(m: Machine, op: nat, fuel: nat)
    requires Running(m)
    ensures WalkExpr(Answers(), Prim(op, NoExprs), m, fuel)
         == Done((m.Record(Did(op, [])), if |m.hist| == 2 || |m.hist| == 3 || |m.hist| == 7 then 1 else 0))
  {
    assert WalkList(Answers(), NoExprs, m, fuel) == Done((m, []));
  }

  /** The `if` with the loop behind it: the loop is skipped with the `if` if its keyword is continued, and only then. */
  lemma UntakenIf(m: Machine, fuel: nat)
    requires Running(m) && |m.hist| in {1, 6} && 5 !in m.continued && fuel > 0
    ensures WalkStmt(Answers(), UNTAKEN, Place(false, Seq(STRAY, Skip)), m, fuel)
         == Done(m.Record(Did(1, [])).(eaten := if 7 in m.continued then 1 else 0))
  {
    var w, next := Answers(), Seq(STRAY, Skip);
    Step(m, 1, fuel);
    var m1 := m.Record(Did(1, []));
    var m2 := StartIf(m1, 0);
    assert Idle(m2);
    SkippedExpr(w, INNER.cond, m2, fuel);
    var v := WalkExpr(w, INNER.cond, m2, fuel).value.1;
    assert EndWhile(StartWhile(m2, 5, v), 5) == (m2, false);
    assert Settled(m2, {}) == m2;
    if 7 in m.continued { SkippedWhile(w, STRAY, Skip, m2, fuel - 1); }
    var e := if 7 in m.continued then 1 else 0;
    assert WalkWhile(w, INNER, next, m2, fuel) == Done(m2.(eaten := e));
    assert WalkStmt(w, INNER, Place(false, next), m2, fuel) == Done(m2.(eaten := e));
    assert WalkStmts(w, Seq(INNER, Skip), Place(false, next), m2, fuel) == Done(m2.(eaten := e));
    assert EndIf(m2.(eaten := e)) == m1.(eaten := e);
  }

  /** The body of f with the keyword of its second loop continued: the loop is passed over. */
  lemma PassedOver(m: Machine, fuel: nat)
    requires Running(m) && |m.hist| == 6 && 5 !in m.continued && 7 in m.continued && fuel > 0
    ensures WalkStmts(Answers(), BODY, CLOSED, m, fuel) == Done(m.Record(Did(1, [])))
  {
    UntakenIf(m, fuel);
    var m1 := m.Record(Did(1, []));
    assert WalkStmts(Answers(), Seq(STRAY, Skip), Tail(BODY, CLOSED), m1.(eaten := 1), fuel)
        == WalkStmts(Answers(), Skip, CLOSED, m1, fuel);
  }

  /** The state behind a call of f that has recorded `hist`. */
  function Called(m: Machine, hist: History): Machine {
    m.(hist := hist, returnValue := RESET)
  }

  lemma CallComesBack(m: Machine, m3: Machine, hist: History)
    requires Running(m) && m3 == CallPostVariablePassing(CallPreVariablePassing(m)).(hist := hist)
    ensures CallEnd(m3, true) == (Called(m, hist), RESET)
  {
  }

  /** The condition evaluated again: its call of f passes the loop over. */
  lemma SecondTest(m: Machine, fuel: nat)
    requires Running(m) && |m.hist| == 4 && m.continued == {7} && "f" in m.funs && m.funs["f"] == User(BODY) && fuel > 1
    ensures WalkExpr(Answers(), COND, m, fuel)
         == Done((Called(m, m.hist + [Did(3, [])] + [Bound("f", [])] + [Did(1, [])]), 0))
  {
    var w := Answers();
    Step(m, 3, fuel);
    var m1 := m.Record(Did(3, []));
    var m2 := QuestionmarkPreExpr1(m1, 0);
    SkippedExpr(w, COND.yes, m2, fuel);
    var m3 := QuestionmarkPreExpr2(m2, 0);
    assert Running(m3) && m3 == m1.Enter();
    var m4 := CallPostVariablePassing(CallPreVariablePassing(m3)).Record(Bound("f", []));
    assert WalkList(w, NoExprs, CallPreVariablePassing(m3), fuel) == Done((CallPreVariablePassing(m3), []));
    PassedOver(m4, fuel - 1);
    CallComesBack(m3, m4.Record(Did(1, [])), m4.hist + [Did(1, [])]);
    assert WalkExpr(w, COND.no, m3, fuel) == Done((Called(m3, m4.hist + [Did(1, [])]), RESET));
    assert QuestionmarkPostExpr2(Called(m3, m4.hist + [Did(1, [])])) == Called(m, m4.hist + [Did(1, [])]);
  }

  lemma FirstTest(m: Machine, fuel: nat)
    requires Running(m) && |m.hist| == 2
    ensures WalkExpr(Answers(), COND, m, fuel) == Done((m.(hist := m.hist + [Did(3, [])] + [Did(4, [])]), 1))
  {
    var w := Answers();
    Step(m, 3, fuel);
    var m2 := QuestionmarkPreExpr1(m.Record(Did(3, [])), 1);
    Step(m2, 4, fuel);
    var m3 := QuestionmarkPreExpr2(m2.Record(Did(4, [])), 1);
    SkippedExpr(w, COND.no, m3, fuel);
    assert QuestionmarkPostExpr2(m3) == m.(hist := m.hist + [Did(3, [])] + [Did(4, [])]);
  }

  const FIRST: History := [Bound("f", [])] + [Did(1, [])]
  const PASS: History := FIRST + [Did(3, [])] + [Did(4, [])]
  const AGAIN: History := PASS + [Did(3, [])] + [Bound("f", [])] + [Did(1, [])]

  /** A pass of the loop with an empty body. */
  lemma OnePass(m: Machine, v: int)
    requires Running(m) && m.continued <= {7}
    ensures EndWhile(StartWhile(m, 7, v), 7) == (m.(continued := if IsTrue(v) then {7} else {}), IsTrue(v))
  {
    assert m.continued - {7} == {} && {} + {7} == {7};
  }

  /** Both passes of the loop as the machine makes them. */
  lemma StrayPasses(m: Machine, fuel: nat)
    requires Running(m) && m.hist == FIRST && m.continued == {} && "f" in m.funs && m.funs["f"] == User(BODY)
      && fuel > 2
    ensures WalkWhile(Answers(), STRAY, Skip, m, fuel) == Done(Called(m, AGAIN))
  {
    FirstTest(m, fuel);
    var m1 := m.(hist := PASS);
    OnePass(m1, 1);
    SecondPass(m1.(continued := {7}), fuel - 1);
    assert Called(m1.(continued := {}), AGAIN) == Called(m, AGAIN);
  }

  lemma SecondPass(m: Machine, fuel: nat)
    requires Running(m) && m.hist == PASS && m.continued == {7} && "f" in m.funs && m.funs["f"] == User(BODY)
      && fuel > 1
    ensures WalkWhile(Answers(), STRAY, Skip, m, fuel) == Done(Called(m.(continued := {}), AGAIN))
  {
    SecondTest(m, fuel);
    OnePass(Called(m, AGAIN), 0);
  }

  lemma StrayCall(m: Machine, fuel: nat)
    requires Running(m) && m.hist == [] && m.continued == {} && "f" in m.funs && m.funs["f"] == User(BODY) && fuel > 3
    ensures WalkExpr(Answers(), Expr.Call("f", NoExprs), m, fuel) == Done((Called(m, AGAIN), RESET))
  {
    var w := Answers();
    var m0 := CallPreVariablePassing(m);
    var m1 := CallPostVariablePassing(m0).Record(Bound("f", []));
    assert WalkList(w, NoExprs, m0, fuel) == Done((m0, []));
    assert m1.hist == [Bound("f", [])];
    UntakenIf(m1, fuel - 1);
    var m2 := m1.Record(Did(1, []));
    assert m2.hist == FIRST && m2.(eaten := 0) == m2;
    StrayPasses(m2, fuel - 1);
    var m3 := Called(m2, AGAIN);
    assert WalkStmt(w, STRAY, Place(false, Skip), m2, fuel - 1) == Done(m3);
    assert WalkStmts(w, Seq(STRAY, Skip), Tail(BODY, CLOSED), m2, fuel - 1) == Done(m3);
    assert WalkStmts(w, BODY, CLOSED, m1, fuel - 1) == Done(m3);
    CallComesBack(m, m3, AGAIN);
  }

  lemma Declared(m: Machine)
    requires Running(m) && m == Start(map[])
    ensures WalkStmt(Answers(), SCRIPT.head, Head(SCRIPT, CLOSED), m, 4) == Done(m.(funs := map["f" := User(BODY)]))
  {
    var m0 := StartFunctionDeclaration(m);
    BodyIsLegible(m0);
    SkippedStmts(Answers(), BODY, CLOSED, m0, 4);
    DeclaredBody(Answers(), "f", BODY, Head(SCRIPT, CLOSED), m, 4);
  }

  lemma DeclaredBody(w: World, name: string, body: Stmts, p: Place, m: Machine, fuel: nat)
    requires Running(m) && name !in m.funs
    requires WalkStmts(w, body, CLOSED, StartFunctionDeclaration(m), fuel) == Done(StartFunctionDeclaration(m))
    ensures WalkStmt(w, Declare(name, body), p, m, fuel) == Done(m.(funs := m.funs[name := User(body)]))
  {
  }

  lemma BodyIsLegible(m: Machine)
    requires m.continued == {}
    ensures AllWellFormed(BODY) && Legible(m, ForsIn(BODY), BarredIn(BODY, false), Skip)
      && Settled(m, ForsIn(BODY)) == m
  {
    assert ForsIn(BODY) == {} && m.switched + {} == m.switched && m.swapped + {} == m.swapped;
  }

  /** The machine completes with a history in which the inner run of the loop is missing. */
  lemma MachineHistory()
    ensures MachineYields(Answers(), SCRIPT, map[], AGAIN)
  {
    var w, m := Answers(), Start(map[]);
    Declared(m);
    var m1 := m.(funs := map["f" := User(BODY)]);
    StrayCall(m1, 4);
    var call := SCRIPT.tail;
    assert WalkStmt(w, call.head, Head(call, Tail(SCRIPT, CLOSED)), m1, 4) == Done(Called(m1, AGAIN));
    assert WalkStmts(w, call, Tail(SCRIPT, CLOSED), m1, 4) == Done(Called(m1, AGAIN));
    assert MachineRun(w, SCRIPT, map[], 4) == Done(Called(m1, AGAIN));
  }

  // ----- what the script means -----

  const WHOLE: History := AGAIN + [Did(3, [])] + [Did(4, [])]

  lemma Lengths()
    ensures |FIRST| == 2 && |PASS| == 4 && |AGAIN| == 7 && |WHOLE| == 9
  {
  }

  lemma Plain(env: Env, op: nat, fuel: nat)
    ensures EvalExpr(Answers(), Prim(op, NoExprs), env, PLAIN, fuel)
         == Done((env.(hist := env.hist + [Did(op, [])]),
                  if |env.hist| == 2 || |env.hist| == 3 || |env.hist| == 7 then 1 else 0))
  {
    assert EvalList(Answers(), NoExprs, env, PLAIN, fuel) == Done((env, []));
  }

  /** The `if` is not taken. */
  lemma PlainIf(env: Env, fuel: nat)
    requires |env.hist| in {1, 6}
    ensures Exec(Answers(), UNTAKEN, env, 0, true, PLAIN, fuel) == Done((env.(hist := env.hist + [Did(1, [])]), Normal))
  {
    Plain(env, 1, fuel);
  }

  lemma PlainWhileEnds(env: Env, env1: Env, again: bool, fuel: nat)
    requires EvalExpr(Answers(), COND, env, PLAIN, fuel) == Done((env1, 0)) && env1.busy == {}
    ensures ExecWhile(Answers(), STRAY, env, 0, true, PLAIN, again, fuel) == Done((env1, Normal))
  {
    assert env1.busy - {7} == {};
  }

  /** The inner run: the loop is entered and its condition is false. */
  lemma PlainInner(env: Env, fuel: nat)
    requires env.hist == PASS + [Did(3, [])] + [Bound("f", [])] && env.busy == {}
    ensures ExecList(Answers(), BODY, env, 0, true, PLAIN, fuel) == Done((env.(hist := WHOLE), Normal))
  {
    Lengths();
    PlainIf(env, fuel);
    var env1 := env.(hist := AGAIN);
    Plain(env1, 3, fuel);
    Plain(env1.(hist := AGAIN + [Did(3, [])]), 4, fuel);
    assert EvalExpr(Answers(), COND, env1, PLAIN, fuel) == Done((env.(hist := WHOLE), 0));
    PlainWhileEnds(env1, env.(hist := WHOLE), false, fuel);
    assert Exec(Answers(), STRAY, env1, 0, true, PLAIN, fuel) == Done((env.(hist := WHOLE), Normal));
    assert ExecList(Answers(), Seq(STRAY, Skip), env1, 0, true, PLAIN, fuel) == Done((env.(hist := WHOLE), Normal));
  }

  lemma PlainSecondTest(env: Env, fuel: nat)
    requires env.hist == PASS && env.busy == {} && "f" in env.funs && env.funs["f"] == User(BODY) && fuel > 0
    ensures EvalExpr(Answers(), COND, env, PLAIN, fuel) == Done((env.(hist := WHOLE), RESET))
  {
    Plain(env, 3, fuel);
    var env1 := env.(hist := PASS + [Did(3, [])]);
    assert EvalList(Answers(), NoExprs, env1, PLAIN, fuel) == Done((env1, []));
    PlainInner(env1.(hist := env1.hist + [Bound("f", [])]), fuel - 1);
  }

  lemma PlainPasses(env: Env, fuel: nat)
    requires env.hist == FIRST && env.busy == {} && "f" in env.funs && env.funs["f"] == User(BODY) && fuel > 1
    ensures Exec(Answers(), STRAY, env, 0, true, PLAIN, fuel) == Done((env.(hist := WHOLE), Normal))
  {
    Lengths();
    Plain(env, 3, fuel);
    Plain(env.(hist := FIRST + [Did(3, [])]), 4, fuel);
    var env1 := env.(hist := PASS);
    assert EvalExpr(Answers(), COND, env, PLAIN, fuel) == Done((env1, 1));
    PlainSecondTest(env1, fuel - 1);
    PlainWhileEnds(env1, env.(hist := WHOLE), true, fuel - 1);
    assert Tested(env1, 7) == env1 by { assert env.busy - {7} == {}; }
    assert ExecWhile(Answers(), STRAY, env, 0, true, PLAIN, false, fuel) == Done((env.(hist := WHOLE), Normal));
  }

  lemma PlainBody(env: Env, fuel: nat)
    requires env.hist == [Bound("f", [])] && env.busy == {} && "f" in env.funs && env.funs["f"] == User(BODY)
      && fuel > 1
    ensures ExecList(Answers(), BODY, env, 0, true, PLAIN, fuel) == Done((env.(hist := WHOLE), Normal))
  {
    PlainIf(env, fuel);
    var env1 := env.(hist := FIRST);
    PlainPasses(env1, fuel);
    assert ExecList(Answers(), Seq(STRAY, Skip), env1, 0, true, PLAIN, fuel) == Done((env.(hist := WHOLE), Normal));
  }

  lemma ScriptHistory()
    ensures ScriptYields(Answers(), SCRIPT, map[], WHOLE)
  {
    PlainBody(Env([Bound("f", [])], map["f" := User(BODY)], {}), 2);
    OneCallRuns(Answers(), BODY, PLAIN, 3);
    assert ScriptRun(Answers(), SCRIPT, map[], PLAIN, 3).value.0.hist == WHOLE;
  }

  /** A script that the machine completes with a history that is not the script's, which has one. */
  lemma StrayScriptGoesWrong()
    ensures MachineYields(Answers(), SCRIPT, map[], AGAIN) && !ScriptYields(Answers(), SCRIPT, map[], AGAIN)
    ensures ScriptYields(Answers(), SCRIPT, map[], WHOLE)
    ensures forall h :: !AllFit(h, SCRIPT, false)
  {
    MachineHistory();
    ScriptHistory();
    Lengths();
    if ScriptYields(Answers(), SCRIPT, map[], AGAIN) {
      OneHistory(Answers(), SCRIPT, map[], AGAIN, WHOLE);
      assert false;
    }
    forall h ensures !AllFit(h, SCRIPT, false) {
      assert TakesNext(UNTAKEN) && !AllFit(h, BODY, false);
      assert !Fits(h, SCRIPT.head, false);
    }
  }
}
