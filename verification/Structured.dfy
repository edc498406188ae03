/**
 Big-step structured semantics of scripts: no flags, no stacks, no re-reading of tokens.
 A loop iteration and a user-function call each need one unit of fuel, which bounds how deep
 they nest, so that a run that has an end has it for every sufficient fuel.
 */
module Structured {
  import opened Wrappers
  import opened Script
  import opened LoopPlaces

  /** `busy` are the `while` loops whose condition is being evaluated again in some active call. */
  datatype Env = Env(hist: History, funs: map<string, Function>, busy: set<nat>)

  /** How a statement ended: `Leave(k)` and `Next(k)` are a pending `break k` and `continue k`. */
  datatype Signal = Normal | Leave(k: nat) | Next(k: nat) | Ret(v: int)

  /**
   With `track`, calling a function whose text has a busy loop where it must not be one ends the run
   as `Misread`; without it no loop is ever busy, which is the plain semantics.
   */
  const TRACKED := true
  const PLAIN := false

  /** Before the condition of a loop is evaluated, and after. */
  function Testing(env: Env, off: nat, again: bool, track: bool): Env {
    if again && track then env.(busy := env.busy + {off}) else env
  }

  function Tested(env: Env, off: nat): Env {
    env.(busy := env.busy - {off})
  }

  /** The signal a loop or a switch passes on once its own level is taken off. */
  function Outward(sig: Signal): Signal {
    match sig
    case Normal => Normal
    case Leave(k) => if k <= 1 then Normal else Leave(k - 1)
    case Next(k) => if k <= 1 then Normal else Next(k - 1)
    case Ret(v) => Ret(v)
  }

  /** Does a loop go on after its body ended like this? */
  predicate GoesOn(sig: Signal) {
    sig == Normal || sig == Next(1)
  }

  // ----- expressions -----

  function EvalExpr(w: World, e: Expr, env: Env, track: bool, fuel: nat): Run<(Env, int)>
    decreases fuel, e, 0
  {
    match e
    case Prim(op, args) =>
      var (env1, vs) :- EvalList(w, args, env, track, fuel);
      Done((env1.(hist := env1.hist + [Did(op, vs)]), w.value(env1.hist, op, vs)))
    case And(l, r) =>
      var (env1, u) :- EvalExpr(w, l, env, track, fuel);
      if !IsTrue(u) then Done((env1, Truth(false)))
      else
        var (env2, v) :- EvalExpr(w, r, env1, track, fuel);
        Done((env2, Truth(IsTrue(v))))
    case Or(l, r) =>
      var (env1, u) :- EvalExpr(w, l, env, track, fuel);
      if IsTrue(u) then Done((env1, Truth(true)))
      else
        var (env2, v) :- EvalExpr(w, r, env1, track, fuel);
        Done((env2, Truth(IsTrue(v))))
    case Ternary(test, yes, no) =>
      var (env1, u) :- EvalExpr(w, test, env, track, fuel);
      EvalExpr(w, if IsTrue(u) then yes else no, env1, track, fuel)
    case Call(name, args) =>
      if name !in env.funs then Halted(env.hist)
      else
        var (env1, vs) :- EvalList(w, args, env, track, fuel);
        match env.funs[name]
        case Internal(op) =>
          Done((env1.(hist := env1.hist + [Did(op, vs)]), w.value(env1.hist, op, vs)))
        case User(body) =>
          if fuel == 0 then OutOfFuel
          else if !(env1.busy !! BarredIn(body, false)) then Misread(env1.hist)
          else
            var bound := env1.(hist := env1.hist + [Bound(name, vs)]);
            var (env2, sig) :- ExecList(w, body, bound, 0, true, track, fuel - 1);
            Done((env2, if sig.Ret? then sig.v else RESET))
  }

  function EvalList(w: World, es: Exprs, env: Env, track: bool, fuel: nat): Run<(Env, seq<int>)>
    decreases fuel, es, 0
  {
    match es
    case NoExprs => Done((env, []))
    case Comma(e, rest) =>
      var (env1, v) :- EvalExpr(w, e, env, track, fuel);
      var (env2, vs) :- EvalList(w, rest, env1, track, fuel);
      Done((env2, [v] + vs))
  }

  // ----- statements: `depth` counts the loops and switches around, within the current function -----

  function Exec(w: World, s: Stmt, env: Env, depth: nat, inFunction: bool, track: bool, fuel: nat): Run<(Env, Signal)>
    decreases fuel, s, 1
  {
    match s
    case Eval(e) =>
      var (env1, _) :- EvalExpr(w, e, env, track, fuel);
      Done((env1, Normal))
    case Block(ss) => ExecList(w, ss, env, depth, inFunction, track, fuel)
    case If(cond, thn, alts) =>
      var (env1, v) :- EvalExpr(w, cond, env, track, fuel);
      if IsTrue(v) then ExecList(w, thn, env1, depth, inFunction, track, fuel)
      else ExecAlts(w, alts, env1, depth, inFunction, track, fuel)
    case While(_, _, _) => ExecWhile(w, s, env, depth, inFunction, track, false, fuel)
    case DoWhile(_, _, _) => ExecDo(w, s, env, depth, inFunction, track, fuel)
    case For(_, e1, _, _, _) =>
      var (env1, _) :- EvalList(w, e1, env, track, fuel);
      ExecFor(w, s, env1, depth, inFunction, track, fuel)
    case Switch(_, subject, cases) =>
      var (env1, v) :- EvalExpr(w, subject, env, track, fuel);
      var (env2, sig) :- ExecCases(w, cases, v, false, env1, depth + 1, inFunction, track, fuel);
      Done((env2, Outward(sig)))
    case Jump(isBreak, count) =>
      var (env1, n) :-
        if count.None? then Done((env, 1)) else EvalExpr(w, count.value, env, track, fuel);
      if 1 <= n <= depth then Done((env1, if isBreak then Leave(n) else Next(n)))
      else Halted(env1.hist)
    case Return(result) =>
      var (env1, v) :-
        if result.None? then Done((env, RESET)) else EvalExpr(w, result.value, env, track, fuel);
      if inFunction then Done((env1, Ret(v))) else Halted(env1.hist)
    case Declare(name, body) =>
      if name in env.funs then Halted(env.hist)
      else Done((env.(funs := env.funs[name := User(body)]), Normal))
  }

  function ExecList(w: World, ss: Stmts, env: Env, depth: nat, inFunction: bool, track: bool,
                    fuel: nat): Run<(Env, Signal)>
    decreases fuel, ss, 0
  {
    match ss
    case Skip => Done((env, Normal))
    case Seq(s, rest) =>
      var (env1, sig) :- Exec(w, s, env, depth, inFunction, track, fuel);
      if sig == Normal then ExecList(w, rest, env1, depth, inFunction, track, fuel) else Done((env1, sig))
  }

  function ExecAlts(w: World, alts: Alternatives, env: Env, depth: nat, inFunction: bool, track: bool,
                    fuel: nat): Run<(Env, Signal)>
    decreases fuel, alts, 0
  {
    match alts
    case NoMore => Done((env, Normal))
    case Else(els) => ExecList(w, els, env, depth, inFunction, track, fuel)
    case ElseIf(cond, thn, rest) =>
      var (env1, v) :- EvalExpr(w, cond, env, track, fuel);
      if IsTrue(v) then ExecList(w, thn, env1, depth, inFunction, track, fuel)
      else ExecAlts(w, rest, env1, depth, inFunction, track, fuel)
  }

  /** `while`; `again` says that this is not the first evaluation of the condition. */
  function ExecWhile(w: World, s: Stmt, env: Env, depth: nat, inFunction: bool, track: bool, again: bool,
                     fuel: nat): Run<(Env, Signal)>
    requires s.While?
    decreases fuel, s, 0
  {
    var (env1, v) :- EvalExpr(w, s.cond, Testing(env, s.off, again, track), track, fuel);
    if !IsTrue(v) then Done((Tested(env1, s.off), Normal))
    else
      var (env2, sig) :- ExecList(w, s.body, Tested(env1, s.off), depth + 1, inFunction, track, fuel);
      if !GoesOn(sig) then Done((env2, Outward(sig)))
      else if fuel == 0 then OutOfFuel
      else ExecWhile(w, s, env2, depth, inFunction, track, true, fuel - 1)
  }

  function ExecDo(w: World, s: Stmt, env: Env, depth: nat, inFunction: bool, track: bool, fuel: nat): Run<(Env, Signal)>
    requires s.DoWhile?
    decreases fuel, s, 0
  {
    var (env1, sig) :- ExecList(w, s.body, env, depth + 1, inFunction, track, fuel);
    if !GoesOn(sig) then Done((env1, Outward(sig)))
    else
      var (env2, v) :- EvalExpr(w, s.cond, env1, track, fuel);
      if !IsTrue(v) then Done((env2, Normal))
      else if fuel == 0 then OutOfFuel
      else ExecDo(w, s, env2, depth, inFunction, track, fuel - 1)
  }

  /** `for` after its first header expression: while (e2) { body; e3 }. */
  function ExecFor(w: World, s: Stmt, env: Env, depth: nat, inFunction: bool, track: bool,
                   fuel: nat): Run<(Env, Signal)>
    requires s.For?
    decreases fuel, s, 0
  {
    var (env1, vs) :- EvalList(w, s.e2, env, track, fuel);
    if !IsTrue(HeaderValue(vs)) then Done((env1, Normal))
    else
      var (env2, sig) :- ExecList(w, s.body, env1, depth + 1, inFunction, track, fuel);
      if !GoesOn(sig) then Done((env2, Outward(sig)))
      else if fuel == 0 then OutOfFuel
      else
        var (env3, _) :- EvalList(w, s.e3, env2, track, fuel - 1);
        ExecFor(w, s, env3, depth, inFunction, track, fuel - 1)
  }

  /**
   The labels of a switch on value `v`. Once one has matched, the later labels are still
   evaluated as control falls through them, but no longer compared.
   */
  function ExecCases(w: World, cases: Cases, v: int, matched: bool, env: Env, depth: nat, inFunction: bool, track: bool,
                     fuel: nat): Run<(Env, Signal)>
    decreases fuel, cases, 0
  {
    match cases
    case NoCases => Done((env, Normal))
    case Default(body) => ExecList(w, body, env, depth, inFunction, track, fuel)
    case Case(test, body, rest) =>
      var (env1, u) :- EvalExpr(w, test, env, track, fuel);
      if matched || w.equal(v, u) then
        var (env2, sig) :- ExecList(w, body, env1, depth, inFunction, track, fuel);
        if sig == Normal then ExecCases(w, rest, v, true, env2, depth, inFunction, track, fuel)
        else Done((env2, sig))
      else ExecCases(w, rest, v, false, env1, depth, inFunction, track, fuel)
  }
}
