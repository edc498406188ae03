/**
 What the values of a script decide, told by the history the machine leaves: which branch is taken,
 whether a loop is entered, what an operator or a call yields. 0 is the one value that is not true.
 */
module Decisions {
  import opened Wrappers
  import opened Script
  import opened Structured
  import opened StructuredFacts
  import opened ControlState
  import opened ControlTheorems

  /** An operation without operands, as a statement; two such operations leave different histories. */
  function Does(op: nat): Stmt {
    Eval(Prim(op, NoExprs))
  }

  function Only(s: Stmt): Stmts {
    Seq(s, Skip)
  }

  function Fresh(funs: map<string, Function>): Env {
    Env([], funs, {})
  }

  /** The machine leaves the history of the script, and ends as it does. */
  lemma MachineLeaves(w: World, script: Stmts, funs: map<string, Function>, fuel: nat)
    requires AllWellFormed(script) && OnlyInternal(funs) && !ScriptRun(w, script, funs, TRACKED, fuel).Misread?
    ensures var r, run := ScriptRun(w, script, funs, TRACKED, fuel), MachineRun(w, script, funs, fuel);
      && (r.Done? ==> run.Done? && run.value.hist == r.value.0.hist)
      && (r.Halted? ==> run == Halted(r.hist))
      && (r.OutOfFuel? ==> run == OutOfFuel)
  {
    RunAgrees(w, script, funs, fuel);
    StableStmts(w, script, Fresh(funs), 0, false, TRACKED, PLAIN, fuel, fuel);
  }

  lemma OneStmt(w: World, s: Stmt, env: Env, depth: nat, inFunction: bool, fuel: nat)
    ensures ExecList(w, Only(s), env, depth, inFunction, TRACKED, fuel)
      == Exec(w, s, env, depth, inFunction, TRACKED, fuel)
  {
    var r := Exec(w, s, env, depth, inFunction, TRACKED, fuel);
    if r.Done? {
      assert ExecList(w, Skip, r.value.0, depth, inFunction, TRACKED, fuel) == Done((r.value.0, Normal));
    }
  }

  lemma DoesRecords(w: World, op: nat, env: Env, depth: nat, inFunction: bool, fuel: nat)
    ensures Exec(w, Does(op), env, depth, inFunction, TRACKED, fuel)
         == Done((env.(hist := env.hist + [Did(op, [])]), Normal))
  {
    assert EvalList(w, NoExprs, env, TRACKED, fuel) == Done((env, []));
  }

  /** { op(); break; } */
  function OnceBody(op: nat): Stmts {
    Seq(Does(op), Only(Jump(true, None)))
  }

  lemma SimpleBodies(op: nat)
    ensures AllWellFormed(Only(Does(op))) && AllWellFormed(OnceBody(op)) && ForsIn(OnceBody(op)) == {}
  {
    assert AllWellFormed(Only(Jump(true, None)));
    assert ForsIn(Only(Jump(true, None))) == {};
  }

  lemma OnceRuns(w: World, op: nat, env: Env, depth: nat, fuel: nat)
    requires depth > 0
    ensures ExecList(w, OnceBody(op), env, depth, false, TRACKED, fuel)
         == Done((env.(hist := env.hist + [Did(op, [])]), Leave(1)))
  {
    var env1 := env.(hist := env.hist + [Did(op, [])]);
    DoesRecords(w, op, env, depth, false, fuel);
    OneStmt(w, Jump(true, None), env1, depth, false, fuel);
    assert Exec(w, Jump(true, None), env1, depth, false, TRACKED, fuel) == Done((env1, Leave(1)));
  }

  /**
   for (; e2; ) { op(); break; }: the body is entered exactly if the last expression of the header does not
   yield 0, and always if there is none.
   */
  lemma ForEnters(w: World, off: nat, e2: Exprs, op: nat, funs: map<string, Function>, fuel: nat)
    requires OnlyInternal(funs) && EvalList(w, e2, Fresh(funs), TRACKED, fuel).Done?
    ensures var (env, vs) := EvalList(w, e2, Fresh(funs), TRACKED, fuel).value;
      var run := MachineRun(w, Only(For(off, NoExprs, e2, NoExprs, OnceBody(op))), funs, fuel);
      && run.Done?
      && run.value.hist == env.hist + if vs == [] || vs[|vs| - 1] != 0 then [Did(op, [])] else []
  {
    var s := For(off, NoExprs, e2, NoExprs, OnceBody(op));
    var (env, vs) := EvalList(w, e2, Fresh(funs), TRACKED, fuel).value;
    SimpleBodies(op);
    OnceRuns(w, op, env, 1, fuel);
    assert EvalList(w, NoExprs, Fresh(funs), TRACKED, fuel) == Done((Fresh(funs), []));
    assert Exec(w, s, Fresh(funs), 0, false, TRACKED, fuel) == ExecFor(w, s, Fresh(funs), 0, false, TRACKED, fuel);
    OneStmt(w, s, Fresh(funs), 0, false, fuel);
    assert WellFormed(s) && AllWellFormed(Only(s));
    MachineLeaves(w, Only(s), funs, fuel);
  }

  /**
   Any `for`, at any pass: it ends where the last expression
   of its header yields 0, and otherwise goes into the body.
   */
  lemma ForDecides(w: World, s: Stmt, env: Env, depth: nat, inFunction: bool, track: bool, fuel: nat)
    requires s.For? && EvalList(w, s.e2, env, track, fuel).Done?
    ensures var (env1, vs) := EvalList(w, s.e2, env, track, fuel).value;
      var body := ExecList(w, s.body, env1, depth + 1, inFunction, track, fuel);
      var run := ExecFor(w, s, env, depth, inFunction, track, fuel);
      && (vs != [] && vs[|vs| - 1] == 0 ==> run == Done((env1, Normal)))
      && (vs == [] || vs[|vs| - 1] != 0 ==>
          && (body.Misread? ==> run == Misread(body.hist)) && (body.Halted? ==> run == Halted(body.hist))
          && (body.Done? && body.value.1.Ret? ==> run == body)
          && (body.Done? && body.value.1 == Leave(1) ==> run == Done((body.value.0, Normal))))
  {
  }

  /** while (cond) { op(); break; } */
  lemma WhileEnters(w: World, off: nat, cond: Expr, op: nat, funs: map<string, Function>, fuel: nat)
    requires OnlyInternal(funs) && EvalExpr(w, cond, Fresh(funs), TRACKED, fuel).Done?
    ensures var (env, v) := EvalExpr(w, cond, Fresh(funs), TRACKED, fuel).value;
      var run := MachineRun(w, Only(While(off, cond, OnceBody(op))), funs, fuel);
      run.Done? && run.value.hist == env.hist + if v != 0 then [Did(op, [])] else []
  {
    var s := While(off, cond, OnceBody(op));
    var (env, v) := EvalExpr(w, cond, Fresh(funs), TRACKED, fuel).value;
    SimpleBodies(op);
    OnceRuns(w, op, Tested(env, off), 1, fuel);
    assert Exec(w, s, Fresh(funs), 0, false, TRACKED, fuel)
        == ExecWhile(w, s, Fresh(funs), 0, false, TRACKED, false, fuel);
    OneStmt(w, s, Fresh(funs), 0, false, fuel);
    assert WellFormed(s) && AllWellFormed(Only(s));
    MachineLeaves(w, Only(s), funs, fuel);
  }

  /**
   do { op(); } while (cond), without fuel for a second pass:
   it asks for one exactly if the condition does not yield 0.
   */
  lemma DoRepeats(w: World, off: nat, cond: Expr, op: nat, funs: map<string, Function>)
    requires OnlyInternal(funs)
    requires EvalExpr(w, cond, Fresh(funs).(hist := [Did(op, [])]), TRACKED, 0).Done?
    ensures var (env, v) := EvalExpr(w, cond, Fresh(funs).(hist := [Did(op, [])]), TRACKED, 0).value;
      var run := MachineRun(w, Only(DoWhile(off, Only(Does(op)), cond)), funs, 0);
      && (v != 0 ==> run == OutOfFuel)
      && (v == 0 ==> run.Done? && run.value.hist == env.hist)
  {
    var s := DoWhile(off, Only(Does(op)), cond);
    var env1 := Fresh(funs).(hist := [Did(op, [])]);
    assert [] + [Did(op, [])] == [Did(op, [])];
    SimpleBodies(op);
    DoesRecords(w, op, Fresh(funs), 1, false, 0);
    OneStmt(w, Does(op), Fresh(funs), 1, false, 0);
    assert Exec(w, s, Fresh(funs), 0, false, TRACKED, 0) == ExecDo(w, s, Fresh(funs), 0, false, TRACKED, 0);
    OneStmt(w, s, Fresh(funs), 0, false, 0);
    assert WellFormed(s) && AllWellFormed(Only(s));
    MachineLeaves(w, Only(s), funs, 0);
  }

  /** if (cond) { yes(); } else { no(); } */
  lemma IfChooses(w: World, cond: Expr, yes: nat, no: nat, funs: map<string, Function>, fuel: nat)
    requires OnlyInternal(funs) && EvalExpr(w, cond, Fresh(funs), TRACKED, fuel).Done?
    ensures var (env, v) := EvalExpr(w, cond, Fresh(funs), TRACKED, fuel).value;
      var run := MachineRun(w, Only(If(cond, Only(Does(yes)), Else(Only(Does(no))))), funs, fuel);
      run.Done? && run.value.hist == env.hist + [Did(if v != 0 then yes else no, [])]
  {
    var s := If(cond, Only(Does(yes)), Else(Only(Does(no))));
    var (env, v) := EvalExpr(w, cond, Fresh(funs), TRACKED, fuel).value;
    var op := if v != 0 then yes else no;
    SimpleBodies(yes);
    SimpleBodies(no);
    assert AltsWellFormed(s.alts);
    DoesRecords(w, op, env, 0, false, fuel);
    OneStmt(w, Does(op), env, 0, false, fuel);
    assert Exec(w, s, Fresh(funs), 0, false, TRACKED, fuel)
      == ExecList(w, Only(Does(op)), env, 0, false, TRACKED, fuel);
    OneStmt(w, s, Fresh(funs), 0, false, fuel);
    assert WellFormed(s) && AllWellFormed(Only(s));
    MachineLeaves(w, Only(s), funs, fuel);
  }

  /**
   switch (subject) { case test: yes(); default: no(); }: the
   subject is compared with the label, and yes() falls through.
   */
  lemma SwitchChooses(w: World, off: nat, subject: Expr, test: Expr, yes: nat, no: nat, funs: map<string, Function>,
                      fuel: nat)
    requires OnlyInternal(funs) && EvalExpr(w, subject, Fresh(funs), TRACKED, fuel).Done?
    requires EvalExpr(w, test, EvalExpr(w, subject, Fresh(funs), TRACKED, fuel).value.0, TRACKED, fuel).Done?
    ensures var (env, v) := EvalExpr(w, subject, Fresh(funs), TRACKED, fuel).value;
      var (env1, u) := EvalExpr(w, test, env, TRACKED, fuel).value;
      var s := Switch(off, subject, Case(test, Only(Does(yes)), Default(Only(Does(no)))));
      var run := MachineRun(w, Only(s), funs, fuel);
      run.Done? && run.value.hist == env1.hist + (if w.equal(v, u) then [Did(yes, [])] else []) + [Did(no, [])]
  {
    var cases := Case(test, Only(Does(yes)), Default(Only(Does(no))));
    var s := Switch(off, subject, cases);
    var (env, v) := EvalExpr(w, subject, Fresh(funs), TRACKED, fuel).value;
    var (env1, u) := EvalExpr(w, test, env, TRACKED, fuel).value;
    var env2 := if w.equal(v, u) then env1.(hist := env1.hist + [Did(yes, [])]) else env1;
    var env3 := env2.(hist := env2.hist + [Did(no, [])]);
    SimpleBodies(yes);
    SimpleBodies(no);
    assert CasesWellFormed(cases.rest) && CasesWellFormed(cases);
    DoesRecords(w, yes, env1, 1, false, fuel);
    OneStmt(w, Does(yes), env1, 1, false, fuel);
    DoesRecords(w, no, env2, 1, false, fuel);
    OneStmt(w, Does(no), env2, 1, false, fuel);
    assert ExecCases(w, cases.rest, v, w.equal(v, u), env2, 1, false, TRACKED, fuel) == Done((env3, Normal));
    assert ExecCases(w, cases, v, false, env, 1, false, TRACKED, fuel) == Done((env3, Normal));
    assert Exec(w, s, Fresh(funs), 0, false, TRACKED, fuel) == Done((env3, Normal));
    OneStmt(w, s, Fresh(funs), 0, false, fuel);
    assert WellFormed(s) && AllWellFormed(Only(s));
    MachineLeaves(w, Only(s), funs, fuel);
  }

  // ----- what expressions yield -----

  /** op(e): the history tells what `e` yields. */
  function Shows(op: nat, e: Expr): Stmts {
    Only(Eval(Prim(op, Comma(e, NoExprs))))
  }

  lemma MachineShows(w: World, op: nat, e: Expr, funs: map<string, Function>, fuel: nat)
    requires OnlyInternal(funs) && EvalExpr(w, e, Fresh(funs), TRACKED, fuel).Done?
    ensures var (env, v) := EvalExpr(w, e, Fresh(funs), TRACKED, fuel).value;
      var run := MachineRun(w, Shows(op, e), funs, fuel);
      run.Done? && run.value.hist == env.hist + [Did(op, [v])]
  {
    var (env, v) := EvalExpr(w, e, Fresh(funs), TRACKED, fuel).value;
    assert EvalList(w, NoExprs, env, TRACKED, fuel) == Done((env, []));
    assert [v] + [] == [v];
    assert EvalList(w, Comma(e, NoExprs), Fresh(funs), TRACKED, fuel) == Done((env, [v]));
    var s := Eval(Prim(op, Comma(e, NoExprs)));
    assert Exec(w, s, Fresh(funs), 0, false, TRACKED, fuel)
        == Done((env.(hist := env.hist + [Did(op, [v])]), Normal));
    OneStmt(w, s, Fresh(funs), 0, false, fuel);
    MachineLeaves(w, Shows(op, e), funs, fuel);
  }

  /** op(l && r): `r` is evaluated exactly if `l` does not yield 0, and the value is 1 if neither does, otherwise 0. */
  lemma AndYields(w: World, op: nat, l: Expr, r: Expr, funs: map<string, Function>, fuel: nat)
    requires OnlyInternal(funs) && EvalExpr(w, l, Fresh(funs), TRACKED, fuel).Done?
    requires var (env, u) := EvalExpr(w, l, Fresh(funs), TRACKED, fuel).value;
      u != 0 ==> EvalExpr(w, r, env, TRACKED, fuel).Done?
    ensures var (env, u) := EvalExpr(w, l, Fresh(funs), TRACKED, fuel).value;
      var run := MachineRun(w, Shows(op, And(l, r)), funs, fuel);
      && run.Done?
      && (u == 0 ==> run.value.hist == env.hist + [Did(op, [0])])
      && (u != 0 ==>
          var (env1, v) := EvalExpr(w, r, env, TRACKED, fuel).value;
          run.value.hist == env1.hist + [Did(op, [if v != 0 then 1 else 0])])
  {
    MachineShows(w, op, And(l, r), funs, fuel);
  }

  /** op(l || r) */
  lemma OrYields(w: World, op: nat, l: Expr, r: Expr, funs: map<string, Function>, fuel: nat)
    requires OnlyInternal(funs) && EvalExpr(w, l, Fresh(funs), TRACKED, fuel).Done?
    requires var (env, u) := EvalExpr(w, l, Fresh(funs), TRACKED, fuel).value;
      u == 0 ==> EvalExpr(w, r, env, TRACKED, fuel).Done?
    ensures var (env, u) := EvalExpr(w, l, Fresh(funs), TRACKED, fuel).value;
      var run := MachineRun(w, Shows(op, Or(l, r)), funs, fuel);
      && run.Done?
      && (u != 0 ==> run.value.hist == env.hist + [Did(op, [1])])
      && (u == 0 ==>
          var (env1, v) := EvalExpr(w, r, env, TRACKED, fuel).value;
          run.value.hist == env1.hist + [Did(op, [if v != 0 then 1 else 0])])
  {
    MachineShows(w, op, Or(l, r), funs, fuel);
  }

  /** op(test ? yes : no) */
  lemma TernaryYields(w: World, op: nat, test: Expr, yes: Expr, no: Expr, funs: map<string, Function>, fuel: nat)
    requires OnlyInternal(funs) && EvalExpr(w, test, Fresh(funs), TRACKED, fuel).Done?
    requires var (env, u) := EvalExpr(w, test, Fresh(funs), TRACKED, fuel).value;
      EvalExpr(w, if u != 0 then yes else no, env, TRACKED, fuel).Done?
    ensures var (env, u) := EvalExpr(w, test, Fresh(funs), TRACKED, fuel).value;
      var (env1, v) := EvalExpr(w, if u != 0 then yes else no, env, TRACKED, fuel).value;
      var run := MachineRun(w, Shows(op, Ternary(test, yes, no)), funs, fuel);
      run.Done? && run.value.hist == env1.hist + [Did(op, [v])]
  {
    MachineShows(w, op, Ternary(test, yes, no), funs, fuel);
  }

  // ----- what a call yields -----

  /** function f(...) { body } op(f(args)); */
  function ShowsCall(op: nat, body: Stmts, args: Exprs): Stmts {
    Seq(Declare("f", body), Shows(op, Expr.Call("f", args)))
  }

  function Declared(body: Stmts): Env {
    Env([], map["f" := User(body)], {})
  }

  /**
   A function has the values of its arguments bound before its body runs; it yields
   what it returns, and 0 if it returns nothing or comes to its end.
   */
  lemma CallYields(w: World, op: nat, body: Stmts, args: Exprs, fuel: nat)
    requires AllWellFormed(body) && EvalList(w, args, Declared(body), TRACKED, fuel + 1).Done?
    requires var (env, vs) := EvalList(w, args, Declared(body), TRACKED, fuel + 1).value;
      && env.busy == {} && env.funs == Declared(body).funs
      && ExecList(w, body, env.(hist := env.hist + [Bound("f", vs)]), 0, true, TRACKED, fuel).Done?
    ensures var (env, vs) := EvalList(w, args, Declared(body), TRACKED, fuel + 1).value;
      var (env1, sig) := ExecList(w, body, env.(hist := env.hist + [Bound("f", vs)]), 0, true, TRACKED, fuel).value;
      var run := MachineRun(w, ShowsCall(op, body, args), map[], fuel + 1);
      run.Done? && run.value.hist == env1.hist + [Did(op, [if sig.Ret? then sig.v else 0])]
  {
    var start, decl := Fresh(map[]), Declared(body);
    var call := Expr.Call("f", args);
    var (env, vs) := EvalList(w, args, decl, TRACKED, fuel + 1).value;
    var (env1, sig) := ExecList(w, body, env.(hist := env.hist + [Bound("f", vs)]), 0, true, TRACKED, fuel).value;
    var v := if sig.Ret? then sig.v else 0;
    assert start.funs["f" := User(body)] == decl.funs;
    assert Exec(w, Declare("f", body), start, 0, false, TRACKED, fuel + 1) == Done((decl, Normal));
    assert EvalExpr(w, call, decl, TRACKED, fuel + 1) == Done((env1, v));
    assert EvalList(w, NoExprs, env1, TRACKED, fuel + 1) == Done((env1, []));
    assert [v] + [] == [v];
    assert EvalList(w, Comma(call, NoExprs), decl, TRACKED, fuel + 1) == Done((env1, [v]));
    var s := Eval(Prim(op, Comma(call, NoExprs)));
    var env2 := env1.(hist := env1.hist + [Did(op, [v])]);
    assert Exec(w, s, decl, 0, false, TRACKED, fuel + 1) == Done((env2, Normal));
    OneStmt(w, s, decl, 0, false, fuel + 1);
    MachineLeaves(w, ShowsCall(op, body, args), map[], fuel + 1);
  }

  /** A function of the interpreter yields the value the world gives it for its arguments. */
  lemma InternalYields(w: World, op: nat, name: string, g: nat, args: Exprs, funs: map<string, Function>, fuel: nat)
    requires OnlyInternal(funs) && name in funs && funs[name] == Internal(g)
    requires EvalList(w, args, Fresh(funs), TRACKED, fuel).Done?
    ensures var (env, vs) := EvalList(w, args, Fresh(funs), TRACKED, fuel).value;
      var run := MachineRun(w, Shows(op, Expr.Call(name, args)), funs, fuel);
      run.Done? && run.value.hist == env.hist + [Did(g, vs)] + [Did(op, [w.value(env.hist, g, vs)])]
  {
    MachineShows(w, op, Expr.Call(name, args), funs, fuel);
  }

  /** `return;` returns 0, and `return e;` what `e` yields. */
  lemma Returns(w: World, e: Option<Expr>, env: Env, depth: nat, fuel: nat)
    requires e.Some? ==> EvalExpr(w, e.value, env, TRACKED, fuel).Done?
    ensures ExecList(w, Only(Return(e)), env, depth, true, TRACKED, fuel) == Done(
      if e.None? then (env, Ret(0))
      else (EvalExpr(w, e.value, env, TRACKED, fuel).value.0, Ret(EvalExpr(w, e.value, env, TRACKED, fuel).value.1)))
  {
    OneStmt(w, Return(e), env, depth, true, fuel);
  }
}
