/** The main results about the control machine, over whole scripts and whole runs. */
module ControlTheorems {
  import opened Wrappers
  import opened Script
  import opened LoopPlaces
  import opened Structured
  import opened ControlState
  import opened ParserWalk
  import opened ControlRefinement
  import opened StructuredFacts

  /** The function table before the script: only functions of the interpreter. */
  predicate OnlyInternal(funs: map<string, Function>) {
    forall f | f in funs :: funs[f].Internal?
  }

  function MachineRun(w: World, script: Stmts, funs: map<string, Function>, fuel: nat): Run<Machine> {
    WalkStmts(w, script, CLOSED, Start(funs), fuel)
  }

  function ScriptRun(w: World, script: Stmts, funs: map<string, Function>, track: bool, fuel: nat): Run<(Env, Signal)> {
    ExecList(w, script, Env([], funs, {}), 0, false, track, fuel)
  }

  /** All stacks empty, no loop keyword continued, executing: the state between two top-level statements. */
  predicate AtRest(m: Machine) {
    && m.css.Empty? && m.forStack.Empty? && m.switchStack.Empty? && m.fsStack.Empty?
    && m.continued == {} && m.eaten == 0 && m.execute && m.fs.nest == 0 && !m.fs.inFunction
  }

  /** The machine has ended as the plain semantics has, having done the same things in the same order. */
  predicate SameEnd(script: Stmts, plain: Run<(Env, Signal)>, run: Run<Machine>) {
    match plain
    case Done((env, sig)) =>
      && run.Done? && sig == Normal
      && run.value.hist == env.hist && run.value.funs == env.funs
      && AtRest(run.value)
      && run.value.switched == run.value.swapped == ForsIn(script)
    case Halted(hist) => run == Halted(hist)
    case Misread(_) => false
    case OutOfFuel => run == OutOfFuel
  }

  /**
   Every run of a script, fuel by fuel: unless it calls, from a `while` condition under re-evaluation, a
   function in whose text that loop stands where its keyword must not be continued, the machine ends as
   the structured semantics does; completed, it is at rest and has switched every `for` header once.
   */
  lemma RunAgrees(w: World, script: Stmts, funs: map<string, Function>, fuel: nat)
    requires AllWellFormed(script) && OnlyInternal(funs)
    ensures !ScriptRun(w, script, funs, TRACKED, fuel).Misread? ==>
      SameEnd(script, ScriptRun(w, script, funs, PLAIN, fuel), MachineRun(w, script, funs, fuel))
  {
    StmtsAgree(None, w, script, CLOSED, Start(funs), fuel);
    if !ScriptRun(w, script, funs, TRACKED, fuel).Misread? {
      StableStmts(w, script, Env([], funs, {}), 0, false, TRACKED, PLAIN, fuel, fuel);
    }
  }

  /**
   If in addition no `while` of the script follows a statement that would take it for a pass of a `while`
   inside it, the machine completes a run only if it does not reenter so. `h` are the loops that
   stand directly behind a `while`.
   */
  lemma RunAgreesExactly(h: set<nat>, w: World, script: Stmts, funs: map<string, Function>, fuel: nat)
    requires AllWellFormed(script) && OnlyInternal(funs) && AllFit(h, script, false)
    ensures
      var run, plain := MachineRun(w, script, funs, fuel), ScriptRun(w, script, funs, PLAIN, fuel);
      var reenters := ScriptRun(w, script, funs, TRACKED, fuel).Misread?;
      && (run.Done? <==> plain.Done? && !reenters)
      && (!reenters ==> SameEnd(script, plain, run))
  {
    StmtsAgree(Some(h), w, script, CLOSED, Start(funs), fuel);
    RunAgrees(w, script, funs, fuel);
  }

  // ----- the same without fuel -----

  ghost predicate MachineYields(w: World, script: Stmts, funs: map<string, Function>, h: History) {
    exists fuel: nat :: MachineRun(w, script, funs, fuel).Done? && MachineRun(w, script, funs, fuel).value.hist == h
  }

  ghost predicate ScriptYields(w: World, script: Stmts, funs: map<string, Function>, h: History) {
    exists fuel: nat ::
      ScriptRun(w, script, funs, PLAIN, fuel).Done? && ScriptRun(w, script, funs, PLAIN, fuel).value.0.hist == h
  }

  /** Somewhere the run calls, from a `while` condition evaluated again, a function where that loop is barred. */
  ghost predicate Reenters(w: World, script: Stmts, funs: map<string, Function>) {
    exists fuel: nat :: ScriptRun(w, script, funs, TRACKED, fuel).Misread?
  }

  /** A script that does not reenter so yields with the machine what it yields by itself. */
  lemma MachineRefinesScript(w: World, script: Stmts, funs: map<string, Function>, hist: History)
    requires AllWellFormed(script) && OnlyInternal(funs) && !Reenters(w, script, funs)
    ensures MachineYields(w, script, funs, hist) <==> ScriptYields(w, script, funs, hist)
  {
    forall fuel: nat
      ensures SameEnd(script, ScriptRun(w, script, funs, PLAIN, fuel), MachineRun(w, script, funs, fuel)) {
      RunAgrees(w, script, funs, fuel);
    }
  }

  /** And if no `while` follows a statement that would take it, the machine yields something only then. */
  lemma MachineRefinesScriptExactly(h: set<nat>, w: World, script: Stmts, funs: map<string, Function>, hist: History)
    requires AllWellFormed(script) && OnlyInternal(funs) && AllFit(h, script, false)
    ensures MachineYields(w, script, funs, hist) <==> ScriptYields(w, script, funs, hist) && !Reenters(w, script, funs)
  {
    if MachineYields(w, script, funs, hist) && Reenters(w, script, funs) {
      var fuel: nat :| MachineRun(w, script, funs, fuel).Done? && MachineRun(w, script, funs, fuel).value.hist == hist;
      var other: nat :| ScriptRun(w, script, funs, TRACKED, other).Misread?;
      RunAgreesExactly(h, w, script, funs, fuel);
      StmtsAgree(Some(h), w, script, CLOSED, Start(funs), fuel);
      if other <= fuel {
        StableStmts(w, script, Env([], funs, {}), 0, false, TRACKED, TRACKED, other, fuel);
      } else {
        StableStmts(w, script, Env([], funs, {}), 0, false, TRACKED, TRACKED, fuel, other);
      }
      assert false;
    }
    if !Reenters(w, script, funs) { MachineRefinesScript(w, script, funs, hist); }
  }

  /** A script yields at most one history, whatever the fuel. */
  lemma OneHistory(w: World, script: Stmts, funs: map<string, Function>, h1: History, h2: History)
    requires ScriptYields(w, script, funs, h1) && ScriptYields(w, script, funs, h2)
    ensures h1 == h2
  {
    var f1: nat :| ScriptRun(w, script, funs, PLAIN, f1).Done?
      && ScriptRun(w, script, funs, PLAIN, f1).value.0.hist == h1;
    var f2: nat :| ScriptRun(w, script, funs, PLAIN, f2).Done?
      && ScriptRun(w, script, funs, PLAIN, f2).value.0.hist == h2;
    if f1 <= f2 {
      StableStmts(w, script, Env([], funs, {}), 0, false, PLAIN, PLAIN, f1, f2);
    } else {
      StableStmts(w, script, Env([], funs, {}), 0, false, PLAIN, PLAIN, f2, f1);
    }
  }

  // ----- calls -----

  /**
   A call of a user function that comes back, however it was left and however it recursed, leaves every
   stack, the flags and all loop fields of the caller as they were; continued keywords may have been
   put back. It must not have reentered a barred loop, which is certain if the functions fit some `h`.
   */
  lemma CallRestores(h: Option<set<nat>>, w: World, name: string, args: Exprs, m: Machine, fuel: nat)
    requires Ready(h, m)
    ensures var r := WalkExpr(w, Expr.Call(name, args), m, fuel);
      r.Done? && (h.Some? || !EvalExpr(w, Expr.Call(name, args), EnvOf(m), TRACKED, fuel).Misread?) ==>
        && r.value.0 == m.(hist := r.value.0.hist, funs := r.value.0.funs, returnValue := r.value.0.returnValue,
                           continued := r.value.0.continued)
        && r.value.0.continued <= m.continued
  {
    ExprAgrees(h, w, Expr.Call(name, args), m, fuel);
  }

  // ----- the loop that is not refined -----

  /** function f() { while (op1() ? op2() : f()) ; } f(); */
  const REENTRANT_COND: Expr := Ternary(Prim(1, NoExprs), Prim(2, NoExprs), Expr.Call("f", NoExprs))
  const REENTRANT_BODY: Stmts := Seq(While(7, REENTRANT_COND, Skip), Skip)
  const REENTRANT: Stmts := OneCall(REENTRANT_BODY)

  /** op1 is false the second time it is asked, op2 the second time too. */
  function ReentrantWorld(): World {
    World((h: History, op: nat, vs: seq<int>) => if |h| == 3 || |h| == 6 then 0 else 1,
          (a: int, b: int) => a == b, (h: History, e: Expr) => 0)
  }

  /** The run of f from a history of length 5: one evaluation of the condition. */
  lemma ReentrantInner(env: Env, track: bool)
    requires |env.hist| == 5 && 7 !in env.busy
    ensures ExecList(ReentrantWorld(), REENTRANT_BODY, env, 0, true, track, 0)
         == Done((env.(hist := env.hist + [Did(1, [])] + [Did(2, [])]), Normal))
  {
    var w := ReentrantWorld();
    var env1 := env.(hist := env.hist + [Did(1, [])]);
    var env2 := env1.(hist := env1.hist + [Did(2, [])]);
    assert EvalExpr(w, Prim(1, NoExprs), env, track, 0) == Done((env1, 1));
    assert EvalExpr(w, Prim(2, NoExprs), env1, track, 0) == Done((env2, 0));
    assert EvalExpr(w, REENTRANT_COND, env, track, 0) == Done((env2, 0));
    assert Tested(env2, 7) == env2;
  }

  /** function f() { body } f(); */
  function OneCall(body: Stmts): Stmts {
    Seq(Declare("f", body), Seq(Eval(Expr.Call("f", NoExprs)), Skip))
  }

  /** The run of such a script is that of the body. */
  lemma OneCallRuns(w: World, body: Stmts, track: bool, fuel: nat)
    requires fuel > 0
    ensures var r := ExecList(w, body, Env([Bound("f", [])], map["f" := User(body)], {}), 0, true, track, fuel - 1);
      var run := ScriptRun(w, OneCall(body), map[], track, fuel);
      && run.Misread? == r.Misread? && run.Done? == r.Done?
      && (r.Done? ==> run.value.0 == r.value.0)
  {
    var env := Env([], map["f" := User(body)], {});
    assert EvalList(w, NoExprs, env, track, fuel) == Done((env, []));
    assert [] + [Bound("f", [])] == [Bound("f", [])];
    var call := EvalExpr(w, Expr.Call("f", NoExprs), env, track, fuel);
    var r := ExecList(w, body, env.(hist := [Bound("f", [])]), 0, true, track, fuel - 1);
    assert call.Done? == r.Done? && call.Misread? == r.Misread? && (r.Done? ==> call.value.0 == r.value.0);
    var stmt := Eval(Expr.Call("f", NoExprs));
    var one := Exec(w, stmt, env, 0, false, track, fuel);
    assert one.Done? == call.Done? && one.Misread? == call.Misread?
      && (call.Done? ==> one.value == (call.value.0, Normal));
    OneStatement(w, stmt, env, track, fuel);
    var start := Env([], map[], {});
    assert start.funs["f" := User(body)] == env.funs;
    assert Exec(w, Declare("f", body), start, 0, false, track, fuel) == Done((env, Normal));
  }

  lemma OneStatement(w: World, s: Stmt, env: Env, track: bool, fuel: nat)
    ensures ExecList(w, Seq(s, Skip), env, 0, false, track, fuel) == Exec(w, s, env, 0, false, track, fuel)
  {
    var one := Exec(w, s, env, 0, false, track, fuel);
    if one.Done? { assert ExecList(w, Skip, one.value.0, 0, false, track, fuel) == Done((one.value.0, Normal)); }
  }

  lemma ReentrantRun(track: bool)
    ensures ScriptRun(ReentrantWorld(), REENTRANT, map[], track, 3).Done? == !track
    ensures ScriptRun(ReentrantWorld(), REENTRANT, map[], track, 3).Misread? == track
  {
    ReentrantBody(Env([Bound("f", [])], map["f" := User(REENTRANT_BODY)], {}), track);
    OneCallRuns(ReentrantWorld(), REENTRANT_BODY, track, 3);
  }

  lemma ReentrantBody(env: Env, track: bool)
    requires |env.hist| == 1 && env.busy == {} && env.funs == map["f" := User(REENTRANT_BODY)]
    ensures ExecList(ReentrantWorld(), REENTRANT_BODY, env, 0, true, track, 2).Done? == !track
    ensures ExecList(ReentrantWorld(), REENTRANT_BODY, env, 0, true, track, 2).Misread? == track
  {
    var w, s := ReentrantWorld(), REENTRANT_BODY.head;
    var env2 := env.(hist := env.hist + [Did(1, [])]);
    var env3 := env2.(hist := env2.hist + [Did(2, [])]);
    assert EvalExpr(w, Prim(1, NoExprs), env, track, 2) == Done((env2, 1));
    assert EvalExpr(w, Prim(2, NoExprs), env2, track, 2) == Done((env3, 1));
    assert EvalExpr(w, REENTRANT_COND, env, track, 2) == Done((env3, 1));
    assert Tested(env3, 7) == env3;
    ReentrantAgain(env3, track);
    assert ExecWhile(w, s, env, 0, true, track, false, 2) == ExecWhile(w, s, env3, 0, true, track, true, 1);
    assert Exec(w, s, env, 0, true, track, 2) == ExecWhile(w, s, env, 0, true, track, false, 2);
  }

  /** The second evaluation of the condition, from which f is called again. */
  lemma ReentrantAgain(env: Env, track: bool)
    requires |env.hist| == 3 && env.busy == {} && env.funs == map["f" := User(REENTRANT_BODY)]
    ensures ExecWhile(ReentrantWorld(), REENTRANT_BODY.head, env, 0, true, track, true, 1).Done? == !track
    ensures ExecWhile(ReentrantWorld(), REENTRANT_BODY.head, env, 0, true, track, true, 1).Misread? == track
  {
    var w := ReentrantWorld();
    var env3 := Testing(env, 7, true, track);
    var env4 := env3.(hist := env3.hist + [Did(1, [])]);
    var env5 := env4.(hist := env4.hist + [Bound("f", [])]);
    assert EvalExpr(w, Prim(1, NoExprs), env3, track, 1) == Done((env4, 0));
    assert EvalList(w, NoExprs, env4, track, 1) == Done((env4, []));
    assert BarredIn(REENTRANT_BODY, false) == {7};
    if !track { ReentrantInner(env5, track); }
    var inner := EvalExpr(w, REENTRANT_COND, env3, track, 1);
    assert inner.Done? == !track && inner.Misread? == track;
  }

  /** A script that terminates, and that the machine does not complete whatever the fuel. */
  lemma ReentrantScriptIsNotRun()
    ensures exists hist :: ScriptYields(ReentrantWorld(), REENTRANT, map[], hist)
    ensures forall hist :: !MachineYields(ReentrantWorld(), REENTRANT, map[], hist)
  {
    var w := ReentrantWorld();
    ReentrantRun(PLAIN);
    ReentrantRun(TRACKED);
    assert ScriptYields(w, REENTRANT, map[], ScriptRun(w, REENTRANT, map[], PLAIN, 3).value.0.hist);
    assert Reenters(w, REENTRANT, map[]);
    forall hist ensures !MachineYields(w, REENTRANT, map[], hist) {
      MachineRefinesScriptExactly({}, w, REENTRANT, map[], hist);
    }
  }
}
