/** What the structured semantics owes its reader: fuel does not matter, and tracking only ever ends a run early. */
module StructuredFacts {
  import opened Wrappers
  import opened Script
  import opened LoopPlaces
  import opened Structured

  /** An environment as the plain semantics sees it, in which no loop is ever busy, or as it is. */
  function Seen(env: Env, track: bool): Env {
    if track then env else env.(busy := {})
  }

  function SeenRun<T>(r: Run<(Env, T)>, track: bool): Run<(Env, T)> {
    if r.Done? then Done((Seen(r.value.0, track), r.value.1)) else r
  }

  /**
   A result found with `t` and `fuel` is also found with `t2` and `fuel2`: a finished run keeps its
   result under any larger fuel, and the plain semantics agrees with the tracked one unless the latter
   ended as Misread.
   */
  predicate Carries<T>(r: Run<T>, t: bool, t2: bool, fuel: nat, fuel2: nat) {
    && (t2 == t == TRACKED || (t2 == PLAIN && !r.Misread?))
    && (fuel2 == fuel || (fuel <= fuel2 && !r.OutOfFuel?))
  }

  lemma {:induction false} StableExpr(w: World, e: Expr, env: Env, t: bool, t2: bool, fuel: nat, fuel2: nat)
    requires Carries(EvalExpr(w, e, env, t, fuel), t, t2, fuel, fuel2)
    ensures EvalExpr(w, e, Seen(env, t2), t2, fuel2) == SeenRun(EvalExpr(w, e, env, t, fuel), t2)
    decreases fuel, e, 0
  {
    match e
    case Prim(_, args) => StableList(w, args, env, t, t2, fuel, fuel2);
    case And(l, r) =>
      StableExpr(w, l, env, t, t2, fuel, fuel2);
      var a := EvalExpr(w, l, env, t, fuel);
      if a.Done? && IsTrue(a.value.1) { StableExpr(w, r, a.value.0, t, t2, fuel, fuel2); }
    case Or(l, r) =>
      StableExpr(w, l, env, t, t2, fuel, fuel2);
      var a := EvalExpr(w, l, env, t, fuel);
      if a.Done? && !IsTrue(a.value.1) { StableExpr(w, r, a.value.0, t, t2, fuel, fuel2); }
    case Ternary(test, yes, no) =>
      StableExpr(w, test, env, t, t2, fuel, fuel2);
      var a := EvalExpr(w, test, env, t, fuel);
      if a.Done? { StableExpr(w, if IsTrue(a.value.1) then yes else no, a.value.0, t, t2, fuel, fuel2); }
    case Call(name, args) =>
      if name in env.funs {
        StableList(w, args, env, t, t2, fuel, fuel2);
        var a := EvalList(w, args, env, t, fuel);
        if a.Done? && env.funs[name].User? && fuel > 0 && a.value.0.busy !! BarredIn(env.funs[name].body, false) {
          var bound := a.value.0.(hist := a.value.0.hist + [Bound(name, a.value.1)]);
          StableStmts(w, env.funs[name].body, bound, 0, true, t, t2, fuel - 1, fuel2 - 1);
        }
      }
  }

  lemma {:induction false} StableList(w: World, es: Exprs, env: Env, t: bool, t2: bool, fuel: nat, fuel2: nat)
    requires Carries(EvalList(w, es, env, t, fuel), t, t2, fuel, fuel2)
    ensures EvalList(w, es, Seen(env, t2), t2, fuel2) == SeenRun(EvalList(w, es, env, t, fuel), t2)
    decreases fuel, es, 0
  {
    match es
    case NoExprs =>
    case Comma(e, rest) =>
      StableExpr(w, e, env, t, t2, fuel, fuel2);
      var a := EvalExpr(w, e, env, t, fuel);
      if a.Done? { StableList(w, rest, a.value.0, t, t2, fuel, fuel2); }
  }

  lemma {:induction false} StableStmts(w: World, ss: Stmts, env: Env, depth: nat, inFunction: bool, t: bool, t2: bool,
                                       fuel: nat, fuel2: nat)
    requires Carries(ExecList(w, ss, env, depth, inFunction, t, fuel), t, t2, fuel, fuel2)
    ensures ExecList(w, ss, Seen(env, t2), depth, inFunction, t2, fuel2)
      == SeenRun(ExecList(w, ss, env, depth, inFunction, t, fuel), t2)
    decreases fuel, ss, 0
  {
    match ss
    case Skip =>
    case Seq(s, rest) =>
      StableStmt(w, s, env, depth, inFunction, t, t2, fuel, fuel2);
      var a := Exec(w, s, env, depth, inFunction, t, fuel);
      if a.Done? && a.value.1 == Normal { StableStmts(w, rest, a.value.0, depth, inFunction, t, t2, fuel, fuel2); }
  }

  lemma {:induction false} StableStmt(w: World, s: Stmt, env: Env, depth: nat, inFunction: bool, t: bool, t2: bool,
                                      fuel: nat, fuel2: nat)
    requires Carries(Exec(w, s, env, depth, inFunction, t, fuel), t, t2, fuel, fuel2)
    ensures Exec(w, s, Seen(env, t2), depth, inFunction, t2, fuel2)
      == SeenRun(Exec(w, s, env, depth, inFunction, t, fuel), t2)
    decreases fuel, s, 2
  {
    match s
    case Eval(e) => StableExpr(w, e, env, t, t2, fuel, fuel2);
    case Block(ss) => StableStmts(w, ss, env, depth, inFunction, t, t2, fuel, fuel2);
    case If(_, _, _) => StableIf(w, s, env, depth, inFunction, t, t2, fuel, fuel2);
    case While(_, _, _) => StableWhile(w, s, env, depth, inFunction, t, t2, false, fuel, fuel2);
    case DoWhile(_, _, _) => StableDo(w, s, env, depth, inFunction, t, t2, fuel, fuel2);
    case For(_, _, _, _, _) => StableHeader(w, s, env, depth, inFunction, t, t2, fuel, fuel2);
    case Switch(_, _, _) => StableSwitch(w, s, env, depth, inFunction, t, t2, fuel, fuel2);
    case Jump(_, count) => if count.Some? { StableExpr(w, count.value, env, t, t2, fuel, fuel2); }
    case Return(result) => if result.Some? { StableExpr(w, result.value, env, t, t2, fuel, fuel2); }
    case Declare(_, _) =>
  }

  lemma {:induction false} StableIf(w: World, s: Stmt, env: Env, depth: nat, inFunction: bool, t: bool, t2: bool,
                                    fuel: nat, fuel2: nat)
    requires s.If? && Carries(Exec(w, s, env, depth, inFunction, t, fuel), t, t2, fuel, fuel2)
    ensures Exec(w, s, Seen(env, t2), depth, inFunction, t2, fuel2)
      == SeenRun(Exec(w, s, env, depth, inFunction, t, fuel), t2)
    decreases fuel, s, 1
  {
    StableExpr(w, s.cond, env, t, t2, fuel, fuel2);
    var a := EvalExpr(w, s.cond, env, t, fuel);
    if a.Done? {
      if IsTrue(a.value.1) { StableStmts(w, s.thn, a.value.0, depth, inFunction, t, t2, fuel, fuel2); }
      else { StableAlts(w, s.alts, a.value.0, depth, inFunction, t, t2, fuel, fuel2); }
    }
  }

  lemma {:induction false} StableHeader(w: World, s: Stmt, env: Env, depth: nat, inFunction: bool, t: bool, t2: bool,
                                        fuel: nat, fuel2: nat)
    requires s.For? && Carries(Exec(w, s, env, depth, inFunction, t, fuel), t, t2, fuel, fuel2)
    ensures Exec(w, s, Seen(env, t2), depth, inFunction, t2, fuel2)
      == SeenRun(Exec(w, s, env, depth, inFunction, t, fuel), t2)
    decreases fuel, s, 1
  {
    StableList(w, s.e1, env, t, t2, fuel, fuel2);
    var a := EvalList(w, s.e1, env, t, fuel);
    if a.Done? { StableFor(w, s, a.value.0, depth, inFunction, t, t2, fuel, fuel2); }
  }

  lemma {:induction false} StableSwitch(w: World, s: Stmt, env: Env, depth: nat, inFunction: bool, t: bool, t2: bool,
                                        fuel: nat, fuel2: nat)
    requires s.Switch? && Carries(Exec(w, s, env, depth, inFunction, t, fuel), t, t2, fuel, fuel2)
    ensures Exec(w, s, Seen(env, t2), depth, inFunction, t2, fuel2)
      == SeenRun(Exec(w, s, env, depth, inFunction, t, fuel), t2)
    decreases fuel, s, 1
  {
    StableExpr(w, s.subject, env, t, t2, fuel, fuel2);
    var a := EvalExpr(w, s.subject, env, t, fuel);
    if a.Done? { StableCases(w, s.cases, a.value.1, false, a.value.0, depth + 1, inFunction, t, t2, fuel, fuel2); }
  }

  lemma {:induction false} StableAlts(w: World, alts: Alternatives, env: Env, depth: nat, inFunction: bool, t: bool,
                                      t2: bool, fuel: nat, fuel2: nat)
    requires Carries(ExecAlts(w, alts, env, depth, inFunction, t, fuel), t, t2, fuel, fuel2)
    ensures ExecAlts(w, alts, Seen(env, t2), depth, inFunction, t2, fuel2)
      == SeenRun(ExecAlts(w, alts, env, depth, inFunction, t, fuel), t2)
    decreases fuel, alts, 0
  {
    match alts
    case NoMore =>
    case Else(els) => StableStmts(w, els, env, depth, inFunction, t, t2, fuel, fuel2);
    case ElseIf(cond, thn, rest) =>
      StableExpr(w, cond, env, t, t2, fuel, fuel2);
      var a := EvalExpr(w, cond, env, t, fuel);
      if a.Done? {
        if IsTrue(a.value.1) { StableStmts(w, thn, a.value.0, depth, inFunction, t, t2, fuel, fuel2); }
        else { StableAlts(w, rest, a.value.0, depth, inFunction, t, t2, fuel, fuel2); }
      }
  }

  lemma {:induction false} StableCases(w: World, cases: Cases, v: int, matched: bool, env: Env, depth: nat,
                                       inFunction: bool, t: bool, t2: bool, fuel: nat, fuel2: nat)
    requires Carries(ExecCases(w, cases, v, matched, env, depth, inFunction, t, fuel), t, t2, fuel, fuel2)
    ensures ExecCases(w, cases, v, matched, Seen(env, t2), depth, inFunction, t2, fuel2)
      == SeenRun(ExecCases(w, cases, v, matched, env, depth, inFunction, t, fuel), t2)
    decreases fuel, cases, 0
  {
    match cases
    case NoCases =>
    case Default(body) => StableStmts(w, body, env, depth, inFunction, t, t2, fuel, fuel2);
    case Case(test, body, rest) =>
      StableExpr(w, test, env, t, t2, fuel, fuel2);
      var a := EvalExpr(w, test, env, t, fuel);
      if a.Done? {
        if matched || w.equal(v, a.value.1) {
          StableStmts(w, body, a.value.0, depth, inFunction, t, t2, fuel, fuel2);
          var b := ExecList(w, body, a.value.0, depth, inFunction, t, fuel);
          if b.Done? && b.value.1 == Normal {
            StableCases(w, rest, v, true, b.value.0, depth, inFunction, t, t2, fuel, fuel2);
          }
        } else {
          StableCases(w, rest, v, false, a.value.0, depth, inFunction, t, t2, fuel, fuel2);
        }
      }
  }

  lemma {:induction false} StableWhile(w: World, s: Stmt, env: Env, depth: nat, inFunction: bool, t: bool, t2: bool,
                                       again: bool, fuel: nat, fuel2: nat)
    requires s.While?
    requires Carries(ExecWhile(w, s, env, depth, inFunction, t, again, fuel), t, t2, fuel, fuel2)
    ensures ExecWhile(w, s, Seen(env, t2), depth, inFunction, t2, again, fuel2)
      == SeenRun(ExecWhile(w, s, env, depth, inFunction, t, again, fuel), t2)
    decreases fuel, s, 0
  {
    var env0 := Testing(env, s.off, again, t);
    assert Tested(Env([], map[], {}), s.off) == Env([], map[], {});
    StableExpr(w, s.cond, env0, t, t2, fuel, fuel2);
    var a := EvalExpr(w, s.cond, env0, t, fuel);
    if a.Done? && IsTrue(a.value.1) {
      var env1 := Tested(a.value.0, s.off);
      StableStmts(w, s.body, env1, depth + 1, inFunction, t, t2, fuel, fuel2);
      var b := ExecList(w, s.body, env1, depth + 1, inFunction, t, fuel);
      if b.Done? && GoesOn(b.value.1) && fuel > 0 {
        StableWhile(w, s, b.value.0, depth, inFunction, t, t2, true, fuel - 1, fuel2 - 1);
      }
    }
  }

  lemma {:induction false} StableDo(w: World, s: Stmt, env: Env, depth: nat, inFunction: bool, t: bool, t2: bool,
                                    fuel: nat, fuel2: nat)
    requires s.DoWhile?
    requires Carries(ExecDo(w, s, env, depth, inFunction, t, fuel), t, t2, fuel, fuel2)
    ensures ExecDo(w, s, Seen(env, t2), depth, inFunction, t2, fuel2)
      == SeenRun(ExecDo(w, s, env, depth, inFunction, t, fuel), t2)
    decreases fuel, s, 0
  {
    StableStmts(w, s.body, env, depth + 1, inFunction, t, t2, fuel, fuel2);
    var a := ExecList(w, s.body, env, depth + 1, inFunction, t, fuel);
    if a.Done? && GoesOn(a.value.1) {
      StableExpr(w, s.cond, a.value.0, t, t2, fuel, fuel2);
      var b := EvalExpr(w, s.cond, a.value.0, t, fuel);
      if b.Done? && IsTrue(b.value.1) && fuel > 0 {
        StableDo(w, s, b.value.0, depth, inFunction, t, t2, fuel - 1, fuel2 - 1);
      }
    }
  }

  lemma {:induction false} StableFor(w: World, s: Stmt, env: Env, depth: nat, inFunction: bool, t: bool, t2: bool,
                                     fuel: nat, fuel2: nat)
    requires s.For?
    requires Carries(ExecFor(w, s, env, depth, inFunction, t, fuel), t, t2, fuel, fuel2)
    ensures ExecFor(w, s, Seen(env, t2), depth, inFunction, t2, fuel2)
      == SeenRun(ExecFor(w, s, env, depth, inFunction, t, fuel), t2)
    decreases fuel, s, 0
  {
    StableList(w, s.e2, env, t, t2, fuel, fuel2);
    var a := EvalList(w, s.e2, env, t, fuel);
    if a.Done? && IsTrue(HeaderValue(a.value.1)) {
      StableStmts(w, s.body, a.value.0, depth + 1, inFunction, t, t2, fuel, fuel2);
      var b := ExecList(w, s.body, a.value.0, depth + 1, inFunction, t, fuel);
      if b.Done? && GoesOn(b.value.1) && fuel > 0 {
        StableList(w, s.e3, b.value.0, t, t2, fuel - 1, fuel2 - 1);
        var c := EvalList(w, s.e3, b.value.0, t, fuel - 1);
        if c.Done? {
          StableFor(w, s, c.value.0, depth, inFunction, t, t2, fuel - 1, fuel2 - 1);
        }
      }
    }
  }
}
