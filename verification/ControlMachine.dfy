/**
 The interpreter's global control state and the actions of control_structures_inline.h as they
 update it in place, and the parser that drives them. Every action is proved to have the effect
 ControlState gives for it, the parser to have that of ParserWalk, and a whole run to agree
 with the structured semantics.
 */
module ControlMachine {
  import opened Wrappers
  import opened Script
  import opened LoopPlaces
  import S = ControlState
  import W = ParserWalk
  import Structured
  import ControlTheorems

  datatype Status = Fine | Stopped | Confused | Exhausted

  predicate Ended(r: Run<S.Machine>, st: Status, now: S.Machine) {
    match r
    case Done(m) => st == Fine && now == m
    case Halted(h) => st == Stopped && now.hist == h
    case Misread(h) => st == Confused && now.hist == h
    case OutOfFuel => st == Exhausted
  }

  predicate Valued<T(==)>(r: Run<(S.Machine, T)>, st: Status, now: S.Machine, v: T) {
    match r
    case Done((m, u)) => st == Fine && now == m && v == u
    case Halted(h) => st == Stopped && now.hist == h
    case Misread(h) => st == Confused && now.hist == h
    case OutOfFuel => st == Exhausted
  }

  class Interpreter {
    const world: World

    var executeFlag: int
    var execute: bool
    var css: Stack<int>
    var forStack: Stack<int>
    var switchStack: Stack<S.SwitchEntry>
    var functionState: S.FunctionState
    var functionStateStack: Stack<S.FunctionState>
    var returnValue: int
    var continued: set<nat>
    var switched: set<nat>
    var swapped: set<nat>
    var eaten: nat
    var functionTable: map<string, Function>
    var history: History

    ghost function View(): S.Machine
      reads this
    {
      S.Machine(executeFlag, execute, css, forStack, switchStack, functionState, functionStateStack,
                returnValue, continued, switched, swapped, eaten, functionTable, history)
    }

    constructor (w: World, internals: map<string, Function>)
      ensures world == w && View() == S.Start(internals)
    {
      world := w;
      executeFlag, execute := S.EXECUTE, true;
      css, forStack, switchStack, functionStateStack := Empty, Empty, Empty, Empty;
      functionState := S.FunctionState(0, Nothing, 0, false, false);
      returnValue := RESET;
      continued, switched, swapped, eaten := {}, {}, {}, 0;
      functionTable := internals;
      history := [];
    }

    /** `Execute = SHOULD_EXECUTE` */
    method Refresh()
      modifies this`execute
      ensures View() == old(View()).Refresh()
    {
      execute := executeFlag == S.EXECUTE && !functionState.returned && functionState.change == Nothing;
    }

    method SetFlag(f: int)
      modifies this`execute, this`executeFlag
      ensures View() == old(View()).WithFlag(f)
    {
      executeFlag := f;
      Refresh();
    }

    method PushFlag()
      modifies this`css
      ensures View() == old(View()).Enter()
    {
      css := Push(executeFlag, css);
    }

    method PopFlag()
      modifies this`css, this`execute, this`executeFlag
      ensures View() == old(View()).Leave()
    {
      executeFlag := IntTop(css);
      css := Pop(css);
      Refresh();
    }

    method NestLevel(delta: int)
      modifies this`functionState
      ensures View() == old(View()).Nest(delta)
    {
      functionState := functionState.(nest := functionState.nest + delta);
    }

    method ClearChange()
      modifies this`functionState
      ensures View() == old(View()).ClearChange()
    {
      functionState := functionState.(change := Nothing, level := 0);
    }

    method Record(e: Event)
      modifies this`history
      ensures View() == old(View()).Record(e)
    {
      history := history + [e];
    }

    // ----- while -----

    method StartWhile(off: nat, v: int)
      modifies this
      ensures View() == S.StartWhile(old(View()), off, v)
    {
      NestLevel(1);
      PushFlag();
      if execute {
        continued := continued - {off};
        if IsTrue(v) { SetFlag(S.EXECUTE); } else { SetFlag(S.DONT_EXECUTE); }
      }
    }

    method EndWhile(off: nat) returns (sought: bool)
      modifies this
      ensures (View(), sought) == S.EndWhile(old(View()), off)
    {
      sought := false;
      if execute {
        continued := continued + {off};
        sought := true;
      } else if functionState.change != Nothing && functionState.level == functionState.nest {
        if functionState.change == Continue {
          continued := continued + {off};
          sought := true;
        }
        ClearChange();
      }
      PopFlag();
      NestLevel(-1);
    }

    // ----- do ... while -----

    method StartDoWhile(off: nat)
      modifies this
      ensures View() == S.StartDoWhile(old(View()), off)
    {
      NestLevel(1);
      PushFlag();
      if execute { continued := continued - {off}; }
    }

    method ForceEvalDoWhile()
      modifies this
      ensures View() == S.ForceEvalDoWhile(old(View()))
    {
      if functionState.level == functionState.nest && functionState.change == Continue {
        ClearChange();
        SetFlag(S.EXECUTE);
      }
    }

    method EndDoWhile(off: nat, v: int) returns (sought: bool)
      modifies this
      ensures (View(), sought) == S.EndDoWhile(old(View()), off, v)
    {
      sought := execute && IsTrue(v);
      if sought {
        continued := continued + {off};
      } else if functionState.change != Nothing && functionState.level == functionState.nest {
        ClearChange();
      }
      PopFlag();
      NestLevel(-1);
    }

    // ----- if -----

    method StartIf(v: int)
      modifies this
      ensures View() == S.StartIf(old(View()), v)
    {
      PushFlag();
      if execute {
        if IsTrue(v) { SetFlag(S.EXECUTE); } else { SetFlag(S.BEFORE_EXECUTE); }
      } else {
        executeFlag := S.DONT_EXECUTE;
      }
    }

    method EndIf()
      modifies this
      ensures View() == S.EndIf(old(View()))
    {
      PopFlag();
    }

    method ElseIfStartEvaluate()
      modifies this
      ensures View() == S.ElseIfStartEvaluate(old(View()))
    {
      if executeFlag == S.EXECUTE { SetFlag(S.DONT_EXECUTE); }
      var localStackTop := IntTop(css);
      PushFlag();
      if executeFlag == S.BEFORE_EXECUTE && localStackTop == S.EXECUTE { SetFlag(S.EXECUTE); }
    }

    method ElseIfEndEvaluate()
      modifies this
      ensures View() == S.ElseIfEndEvaluate(old(View()))
    {
      PopFlag();
    }

    method StartElseIf(v: int)
      modifies this
      ensures View() == S.StartElseIf(old(View()), v)
    {
      if executeFlag == S.EXECUTE { SetFlag(S.DONT_EXECUTE); }
      if executeFlag == S.BEFORE_EXECUTE {
        if IsTrue(v) { SetFlag(S.EXECUTE); }
      }
    }

    method StartElse()
      modifies this
      ensures View() == S.StartElse(old(View()))
    {
      if executeFlag == S.EXECUTE { SetFlag(S.DONT_EXECUTE); }
      if executeFlag == S.BEFORE_EXECUTE { SetFlag(S.EXECUTE); }
    }

    // ----- break, continue, return -----

    /** `ok` is false where the source raises its fatal error; the state is then of no more use. */
    method BreakContinue(n: int, isBreak: bool) returns (ok: bool)
      modifies this
      ensures var r := S.BreakContinue(old(View()), n, isBreak);
        ok == r.Some? && (ok ==> View() == r.value)
      ensures history == old(history)
    {
      ok := true;
      if execute {
        functionState := functionState.(level := functionState.nest - n + 1);
        if functionState.level <= 0 || functionState.level > functionState.nest {
          return false;
        }
        functionState := functionState.(change := if isBreak then Break else Continue);
        execute := false;
      }
    }

    method DoReturn(v: int) returns (ok: bool)
      modifies this
      ensures var r := S.DoReturn(old(View()), v);
        ok == r.Some? && (ok ==> View() == r.value)
      ensures history == old(history)
    {
      ok := true;
      if execute {
        if !functionState.inFunction { return false; }
        returnValue := v;
        functionState := functionState.(returned := true);
        SetFlag(S.DONT_EXECUTE);
      }
    }

    // ----- for -----

    method ForPreExpr1(off: nat)
      modifies this
      ensures View() == S.ForPreExpr1(old(View()), off)
    {
      NestLevel(1);
      PushFlag();
      if execute {
        continued := continued - {off};
        if IntTop(forStack) == off { SetFlag(S.DONT_EXECUTE); }
      }
    }

    method ForPreExpr2(off: nat, sw: bool)
      modifies this
      ensures View() == S.ForPreExpr2(old(View()), off, sw)
    {
      SetFlag(IntTop(css));
      if sw && IntTop(forStack) != off { SetFlag(S.DONT_EXECUTE); }
    }

    /** Answers the value the second header slot holds from now on. */
    method ForPreExpr3(off: nat, sw: bool, v2: int) returns (kept: int)
      modifies this
      ensures View() == S.ForPreExpr3(old(View()), sw)
      ensures kept == S.ForExpr2Value(old(View()), off, sw, v2)
    {
      kept := v2;
      if sw && IntTop(forStack) != off { kept := RESET; }
      SetFlag(IntTop(css));
      if execute && !sw { SetFlag(S.DONT_EXECUTE); }
    }

    method ForPreStatement(sw: bool, v2: int, v3: int)
      modifies this
      ensures View() == S.ForPreStatement(old(View()), sw, v2, v3)
    {
      SetFlag(IntTop(css));
      if execute && sw {
        if IsTrue(v3) { SetFlag(S.EXECUTE); } else { SetFlag(S.DONT_EXECUTE); }
      } else if execute && !sw {
        if IsTrue(v2) { SetFlag(S.EXECUTE); } else { SetFlag(S.DONT_EXECUTE); }
      }
    }

    method ForNotePass(off: nat, sw: bool)
      modifies this`forStack, this`swapped, this`switched
      ensures View() == S.ForNotePass(old(View()), off, sw)
    {
      if IntTop(forStack) != off { forStack := Push(off, forStack); }
      if !sw {
        swapped := if off in swapped then swapped - {off} else swapped + {off};
        switched := switched + {off};
      }
    }

    method ForPostStatement(off: nat, sw: bool) returns (sought: bool)
      modifies this
      ensures (View(), sought) == S.ForPostStatement(old(View()), off, sw)
    {
      sought := false;
      ForNotePass(off, sw);
      if execute {
        continued := continued + {off};
        sought := true;
      } else if functionState.change != Nothing && functionState.level == functionState.nest {
        if functionState.change == Continue {
          continued := continued + {off};
          sought := true;
        } else if IntTop(forStack) == off {
          forStack := Pop(forStack);
        }
        ClearChange();
      } else if IntTop(forStack) == off {
        forStack := Pop(forStack);
      }
      PopFlag();
      NestLevel(-1);
    }

    // ----- switch -----

    method SwitchStart(off: nat, v: int)
      modifies this
      ensures View() == S.SwitchStart(old(View()), off, v)
    {
      NestLevel(1);
      PushFlag();
      switchStack := Push(S.SwitchEntry(v, off, execute), switchStack);
    }

    method SwitchCasePre(test: Option<int>)
      modifies this
      ensures View() == S.SwitchCasePre(world, old(View()), test)
    {
      if execute && switchStack.Push? {
        var se := switchStack.top;
        if se.offset != S.MATCHED {
          var isEqual := test.Some? && world.equal(se.subject, test.value);
          if test.None? || isEqual {
            switchStack := Push(se.(offset := S.MATCHED), switchStack.below);
            SetFlag(S.EXECUTE);
          } else {
            SetFlag(S.DONT_EXECUTE);
          }
        }
      }
    }

    method SwitchCasePost()
      modifies this
      ensures View() == S.SwitchCasePost(old(View()))
    {
      SetFlag(IntTop(css));
    }

    method SwitchEnd()
      modifies this
      ensures View() == S.SwitchEnd(old(View()))
    {
      if !execute {
        if functionState.level == functionState.nest { functionState := functionState.(change := Nothing); }
      }
      PopFlag();
      switchStack := Pop(switchStack);
      NestLevel(-1);
    }

    // ----- short-circuit operators -----

    method PreOr(left: int)
      modifies this
      ensures View() == S.PreOr(old(View()), left)
    {
      PushFlag();
      if execute && IsTrue(left) { SetFlag(S.DONT_EXECUTE); }
    }

    method PreAnd(left: int)
      modifies this
      ensures View() == S.PreAnd(old(View()), left)
    {
      PushFlag();
      if execute && !IsTrue(left) { SetFlag(S.DONT_EXECUTE); }
    }

    method QuestionmarkPreExpr2(test: int)
      modifies this
      ensures View() == S.QuestionmarkPreExpr2(old(View()), test)
    {
      SetFlag(IntTop(css));
      if execute && IsTrue(test) { SetFlag(S.DONT_EXECUTE); }
    }

    // ----- functions -----

    method StartFunctionDeclaration()
      modifies this
      ensures View() == S.StartFunctionDeclaration(old(View()))
    {
      PushFlag();
      SetFlag(S.DONT_EXECUTE);
    }

    method EndFunctionDeclaration(name: string, body: Stmts) returns (ok: bool)
      modifies this
      ensures var r := S.EndFunctionDeclaration(old(View()), name, body);
        ok == r.Some? && (ok ==> View() == r.value)
      ensures history == old(history)
    {
      ok := true;
      PopFlag();
      if execute {
        if name in functionTable { return false; }
        functionTable := functionTable[name := User(body)];
      }
    }

    method CallPreVariablePassing()
      modifies this
      ensures View() == S.CallPreVariablePassing(old(View()))
    {
      forStack := Push(S.CALL_MARK, forStack);
      functionStateStack := Push(functionState, functionStateStack);
      functionState := functionState.(inFunction := true);
    }

    method CallPostVariablePassing()
      modifies this
      ensures View() == S.CallPostVariablePassing(old(View()))
    {
      PushFlag();
      functionState := functionState.(nest := 0, change := Nothing, level := 0);
      returnValue := RESET;
    }

    method CallEnd(user: bool) returns (v: int)
      modifies this
      ensures (View(), v) == S.CallEnd(old(View()), user)
    {
      v := returnValue;
      if user && !functionState.returned { v := RESET; }
      ghost var before := forStack;
      while IntTop(forStack) != S.CALL_MARK
        invariant S.UnwindFor(forStack) == S.UnwindFor(before)
        invariant View() == old(View()).(forStack := forStack)
        decreases forStack
      {
        forStack := Pop(forStack);
      }
      forStack := Pop(forStack);
      if functionStateStack.Push? {
        functionState := functionStateStack.top;
        functionStateStack := functionStateStack.below;
      }
      PopFlag();
    }

    // ----- the parser -----

    method ParseExpr(e: Expr, fuel: nat) returns (st: Status, v: int)
      modifies this
      ensures Valued(W.WalkExpr(world, e, old(View()), fuel), st, View(), v)
      decreases fuel, e, 0
    {
      v := 0;
      match e
      case Prim(op, args) =>
        var vs;
        st, vs := ParseList(args, fuel);
        if st == Fine {
          if execute {
            v := world.value(history, op, vs);
            Record(Did(op, vs));
          } else {
            v := world.junk(history, e);
          }
        }
      case And(l, r) =>
        var left, right;
        st, left := ParseExpr(l, fuel);
        if st != Fine { return; }
        PreAnd(left);
        st, right := ParseExpr(r, fuel);
        if st != Fine { return; }
        PopFlag();
        v := if execute then Truth(IsTrue(left) && IsTrue(right)) else world.junk(history, e);
      case Or(l, r) =>
        var left, right;
        st, left := ParseExpr(l, fuel);
        if st != Fine { return; }
        PreOr(left);
        st, right := ParseExpr(r, fuel);
        if st != Fine { return; }
        PopFlag();
        v := if execute then Truth(IsTrue(left) || IsTrue(right)) else world.junk(history, e);
      case Ternary(test, yes, no) =>
        var truth, v1, v2;
        st, truth := ParseExpr(test, fuel);
        if st != Fine { return; }
        PreAnd(truth);
        st, v1 := ParseExpr(yes, fuel);
        if st != Fine { return; }
        QuestionmarkPreExpr2(truth);
        st, v2 := ParseExpr(no, fuel);
        if st != Fine { return; }
        PopFlag();
        v := if execute then (if IsTrue(truth) then v1 else v2) else world.junk(history, e);
      case Call(name, args) =>
        st, v := ParseCall(e, fuel);
    }

    method ParseCall(e: Expr, fuel: nat) returns (st: Status, v: int)
      requires e.Call?
      modifies this
      ensures Valued(W.WalkExpr(world, e, old(View()), fuel), st, View(), v)
      decreases fuel, e, -1
    {
      v := RESET;
      var vs;
      if !execute {
        st, vs := ParseList(e.args, fuel);
        return;
      }
      if e.name !in functionTable { return Stopped, v; }
      var callee := functionTable[e.name];
      CallPreVariablePassing();
      st, vs := ParseList(e.args, fuel);
      if st != Fine { return; }
      CallPostVariablePassing();
      match callee
      case Internal(op) =>
        returnValue := world.value(history, op, vs);
        Record(Did(op, vs));
        v := CallEnd(false);
      case User(body) =>
        if fuel == 0 { return Exhausted, v; }
        Record(Bound(e.name, vs));
        st := ParseStmts(body, W.CLOSED, fuel - 1);
        if st == Fine { v := CallEnd(true); }
    }

    method ParseList(es: Exprs, fuel: nat) returns (st: Status, vs: seq<int>)
      modifies this
      ensures Valued(W.WalkList(world, es, old(View()), fuel), st, View(), vs)
      decreases fuel, es, 0
    {
      vs := [];
      st := Fine;
      match es
      case NoExprs =>
      case Comma(e, rest) =>
        var v, more;
        st, v := ParseExpr(e, fuel);
        if st != Fine { return; }
        st, more := ParseList(rest, fuel);
        vs := [v] + more;
    }

    method ParseStmt(s: Stmt, p: W.Place, fuel: nat) returns (st: Status)
      modifies this
      ensures Ended(W.WalkStmt(world, s, p, old(View()), fuel), st, View())
      decreases fuel, s, 3
    {
      var v;
      match s
      case Eval(e) =>
        st, v := ParseExpr(e, fuel);
      case Block(ss) =>
        st := ParseStmts(ss, W.CLOSED, fuel);
      case If(cond, thn, alts) =>
        st, v := ParseExpr(cond, fuel);
        if st != Fine { return; }
        StartIf(v);
        st := ParseStmts(thn, W.ThenPlace(thn, alts, p.next), fuel);
        if st != Fine { return; }
        st := ParseAlts(alts, p.next, fuel);
        if st == Fine { EndIf(); }
      case While(off, _, _) =>
        if off in continued && !p.after { return Confused; }
        st := ParseWhile(s, p.next, fuel);
      case DoWhile(off, _, _) =>
        if off in continued { return Confused; }
        st := ParseDo(s, fuel);
      case For(off, _, _, _, _) =>
        if off in continued { return Confused; }
        st := ParseFor(s, p.next, fuel);
      case Switch(off, subject, cases) =>
        st, v := ParseExpr(subject, fuel);
        if st != Fine { return; }
        SwitchStart(off, v);
        st := ParseCases(cases, fuel);
        if st == Fine { SwitchEnd(); }
      case Jump(_, _) =>
        st := ParseJump(s, p, fuel);
      case Return(_) =>
        st := ParseJump(s, p, fuel);
      case Declare(name, body) =>
        StartFunctionDeclaration();
        st := ParseStmts(body, W.CLOSED, fuel);
        if st != Fine { return; }
        var ok := EndFunctionDeclaration(name, body);
        st := if ok then Fine else Stopped;
    }

    method ParseJump(s: Stmt, ghost p: W.Place, fuel: nat) returns (st: Status)
      requires s.Jump? || s.Return?
      modifies this
      ensures Ended(W.WalkStmt(world, s, p, old(View()), fuel), st, View())
      decreases fuel, s, 0
    {
      var ok;
      var operand := if s.Jump? then s.count else s.result;
      var v := if s.Jump? then 1 else RESET;
      if operand.Some? {
        st, v := ParseExpr(operand.value, fuel);
        if st != Fine { return; }
      }
      if s.Jump? {
        ok := BreakContinue(v, s.isBreak);
      } else {
        ok := DoReturn(v);
      }
      st := if ok then Fine else Stopped;
    }

    /** A list; what has been eaten by a `while` in front of it is passed over. */
    method ParseStmts(ss: Stmts, p: W.Place, fuel: nat) returns (st: Status)
      modifies this
      ensures Ended(W.WalkStmts(world, ss, p, old(View()), fuel), st, View())
      decreases fuel, ss, 0
    {
      st := Fine;
      match ss
      case Skip =>
      case Seq(s, rest) =>
        if eaten > 0 {
          eaten := eaten - 1;
          st := ParseStmts(rest, p.(after := false), fuel);
        } else {
          st := ParseStmt(s, W.Head(ss, p), fuel);
          if st == Fine { st := ParseStmts(rest, W.Tail(ss, p), fuel); }
        }
    }

    method ParseAlts(alts: Alternatives, next: Stmts, fuel: nat) returns (st: Status)
      modifies this
      ensures Ended(W.WalkAlts(world, alts, next, old(View()), fuel), st, View())
      decreases fuel, alts, 0
    {
      st := Fine;
      match alts
      case NoMore =>
      case Else(els) =>
        StartElse();
        st := ParseStmts(els, W.BodyPlace(els, next), fuel);
      case ElseIf(cond, thn, rest) =>
        var v;
        ElseIfStartEvaluate();
        st, v := ParseExpr(cond, fuel);
        if st != Fine { return; }
        ElseIfEndEvaluate();
        StartElseIf(v);
        st := ParseStmts(thn, W.ThenPlace(thn, rest, next), fuel);
        if st == Fine { st := ParseAlts(rest, next, fuel); }
    }

    method ParseCases(cases: Cases, fuel: nat) returns (st: Status)
      modifies this
      ensures Ended(W.WalkCases(world, cases, old(View()), fuel), st, View())
      decreases fuel, cases, 0
    {
      st := Fine;
      match cases
      case NoCases =>
      case Default(body) =>
        SwitchCasePre(None);
        st := ParseStmts(body, W.CLOSED, fuel);
        if st == Fine { SwitchCasePost(); }
      case Case(test, body, rest) =>
        var v;
        st, v := ParseExpr(test, fuel);
        if st != Fine { return; }
        SwitchCasePre(Some(v));
        st := ParseStmts(body, W.CLOSED, fuel);
        if st != Fine { return; }
        SwitchCasePost();
        st := ParseCases(rest, fuel);
    }

    /**
     A loop construct, read again from its keyword as often as the
     end of it seeks back; and what then reads as a further pass.
     */
    method ParseWhile(s: Stmt, next: Stmts, fuel: nat) returns (st: Status)
      requires s.While?
      modifies this
      ensures Ended(W.WalkWhile(world, s, next, old(View()), fuel), st, View())
      decreases fuel, s, 1
    {
      var v;
      st, v := ParseExpr(s.cond, fuel);
      if st != Fine { return; }
      StartWhile(s.off, v);
      st := ParseStmts(s.body, W.BodyPlace(s.body, next), fuel);
      if st != Fine { return; }
      st := ParseWhileOn(s, next, fuel);
    }

    /** From the end of the body on. */
    method ParseWhileOn(s: Stmt, next: Stmts, fuel: nat) returns (st: Status)
      requires s.While?
      modifies this
      ensures Ended(W.WalkWhileOn(world, s, next, old(View()), fuel), st, View())
      decreases fuel, s, 0
    {
      st := Fine;
      var sought := EndWhile(s.off);
      if sought {
        if fuel == 0 { return Exhausted; }
        eaten := 0;
        st := ParseWhile(s, next, fuel - 1);
      } else if eaten == 0 && next.Seq? && next.head.While? && next.head.off in continued {
        if fuel == 0 { return Exhausted; }
        st := ParseWhile(next.head, next.tail, fuel - 1);
        if st == Fine { eaten := eaten + 1; }
      }
    }

    method ParseDo(s: Stmt, fuel: nat) returns (st: Status)
      requires s.DoWhile?
      modifies this
      ensures Ended(W.WalkDo(world, s, old(View()), fuel), st, View())
      decreases fuel, s, 0
    {
      var v;
      StartDoWhile(s.off);
      st := ParseStmts(s.body, W.CLOSED, fuel);
      if st != Fine { return; }
      ForceEvalDoWhile();
      st, v := ParseExpr(s.cond, fuel);
      if st != Fine { return; }
      var sought := EndDoWhile(s.off, v);
      if sought {
        if fuel == 0 { return Exhausted; }
        st := ParseDo(s, fuel - 1);
      }
    }

    method ParseForConditions(s: Stmt, sw: bool, fuel: nat) returns (st: Status)
      requires s.For?
      modifies this
      ensures Ended(W.WalkForConditions(world, s, old(View()), sw, fuel), st, View())
      decreases fuel, s, 0
    {
      var vs;
      ForPreExpr2(s.off, sw);
      st, vs := ParseList(if s.off in swapped then s.e3 else s.e2, fuel);
      if st != Fine { return; }
      var v2 := ForPreExpr3(s.off, sw, HeaderValue(vs));
      st, vs := ParseList(if s.off in swapped then s.e2 else s.e3, fuel);
      if st != Fine { return; }
      ForPreStatement(sw, v2, HeaderValue(vs));
    }

    method ParseForHeader(s: Stmt, sw: bool, fuel: nat) returns (st: Status)
      requires s.For? && sw == (s.off in switched)
      modifies this
      ensures Ended(W.WalkForHeader(world, s, old(View()), fuel), st, View())
      decreases fuel, s, 1
    {
      var vs;
      ForPreExpr1(s.off);
      st, vs := ParseList(s.e1, fuel);
      if st != Fine { return; }
      st := ParseForConditions(s, sw, fuel);
    }

    method ParseFor(s: Stmt, next: Stmts, fuel: nat) returns (st: Status)
      requires s.For?
      modifies this
      ensures Ended(W.WalkFor(world, s, next, old(View()), fuel), st, View())
      decreases fuel, s, 2
    {
      var sw := s.off in switched;
      st := ParseForHeader(s, sw, fuel);
      if st != Fine { return; }
      st := ParseStmts(s.body, W.BodyPlace(s.body, next), fuel);
      if st != Fine { return; }
      var sought := ForPostStatement(s.off, sw);
      if sought {
        if fuel == 0 { return Exhausted; }
        eaten := 0;
        st := ParseFor(s, next, fuel - 1);
      }
    }

    /**
     A whole script on a fresh interpreter: unless it reenters a barred
     loop, it ends as the script does, with the script's history.
     */
    method RunScript(script: Stmts, fuel: nat) returns (st: Status)
      requires AllWellFormed(script) && ControlTheorems.OnlyInternal(functionTable)
      requires View() == S.Start(functionTable)
      modifies this
      ensures
        var plain := ControlTheorems.ScriptRun(world, script, old(functionTable), Structured.PLAIN, fuel);
        !ControlTheorems.ScriptRun(world, script, old(functionTable), Structured.TRACKED, fuel).Misread? ==>
          && (st == Fine <==> plain.Done?)
          && (st == Fine ==>
              history == plain.value.0.hist && functionTable == plain.value.0.funs && ControlTheorems.AtRest(View()))
          && (plain.Halted? ==> st == Stopped && history == plain.hist)
      ensures (exists h :: AllFit(h, script, false)) && st == Fine ==>
        !ControlTheorems.ScriptRun(world, script, old(functionTable), Structured.TRACKED, fuel).Misread?
    {
      ControlTheorems.RunAgrees(world, script, functionTable, fuel);
      if h :| AllFit(h, script, false) { ControlTheorems.RunAgreesExactly(h, world, script, functionTable, fuel); }
      st := ParseStmts(script, W.CLOSED, fuel);
    }
  }
}
