/**
 The state that steers execution while the parser reads, and what each action of
 control_structures_inline.h does to it. `execute` is the C variable Execute, `flag` is
 ExecuteFlag, `css` the control-structure stack. The token cache is kept as what the actions
 change in it: which loop keywords currently read as their "continued" form, which `for`
 tokens are marked switched, and in which headers the second and third expression stand in
 swapped order. Of the parser's position `eaten` is kept: how many of the statements behind the one
 being read have already been read as further passes of a `while` inside it.
 */
module ControlState {
  import opened Wrappers
  import opened Script

  const EXECUTE := 0
  const BEFORE_EXECUTE := 1
  const DONT_EXECUTE := 2

  /** The part of FunctionState that control uses. */
  datatype FunctionState = FunctionState(nest: int, change: Change, level: int, returned: bool, inFunction: bool)

  datatype SwitchEntry = SwitchEntry(subject: int, offset: int, execute: bool)

  const MATCHED := -1
  const CALL_MARK := -1

  datatype Machine = Machine(
    flag: int,
    execute: bool,
    css: Stack<int>,
    forStack: Stack<int>,
    switchStack: Stack<SwitchEntry>,
    fs: FunctionState,
    fsStack: Stack<FunctionState>,
    returnValue: int,
    continued: set<nat>,
    switched: set<nat>,
    swapped: set<nat>,
    eaten: nat,
    funs: map<string, Function>,
    hist: History)
  {
    /** SHOULD_EXECUTE of control_structures.h. */
    predicate ShouldExecute() {
      flag == EXECUTE && !fs.returned && fs.change == Nothing
    }

    function Refresh(): Machine {
      this.(execute := ShouldExecute())
    }

    function WithFlag(f: int): Machine {
      this.(flag := f).Refresh()
    }

    /** `ExecuteFlag = stack_int_top(&css); Execute = SHOULD_EXECUTE` */
    function Restore(): Machine {
      WithFlag(IntTop(css))
    }

    /** Restore and delete the top of the control-structure stack. */
    function Leave(): Machine {
      var m := this.(flag := IntTop(css), css := Pop(css));
      m.Refresh()
    }

    function Enter(): Machine {
      this.(css := Push(flag, css))
    }

    function Nest(delta: int): Machine {
      this.(fs := fs.(nest := fs.nest + delta))
    }

    predicate ChangeIsHere() {
      fs.change != Nothing && fs.level == fs.nest
    }

    function ClearChange(): Machine {
      this.(fs := fs.(change := Nothing, level := 0))
    }

    function Record(e: Event): Machine {
      this.(hist := hist + [e])
    }
  }

  function Start(funs: map<string, Function>): Machine {
    Machine(EXECUTE, true, Empty, Empty, Empty, FunctionState(0, Nothing, 0, false, false), Empty,
            RESET, {}, {}, {}, 0, funs, [])
  }

  // ----- while -----

  function StartWhile(m: Machine, off: nat, v: int): Machine {
    var m1 := m.Nest(1).Enter();
    if m1.execute then
      m1.(continued := m1.continued - {off}).WithFlag(if IsTrue(v) then EXECUTE else DONT_EXECUTE)
    else m1
  }

  /** Also answers whether the token cache was sought back to the loop keyword. */
  function EndWhile(m: Machine, off: nat): (Machine, bool) {
    var again := m.execute || (m.ChangeIsHere() && m.fs.change == Continue);
    var m1 := if again then m.(continued := m.continued + {off}) else m;
    var m2 := if !m.execute && m.ChangeIsHere() then m1.ClearChange() else m1;
    (m2.Leave().Nest(-1), again)
  }

  // ----- do ... while -----

  function StartDoWhile(m: Machine, off: nat): Machine {
    var m1 := m.Nest(1).Enter();
    if m1.execute then m1.(continued := m1.continued - {off}) else m1
  }

  /** A `continue` of this loop still has to evaluate the condition. */
  function ForceEvalDoWhile(m: Machine): Machine {
    if m.fs.level == m.fs.nest && m.fs.change == Continue then m.ClearChange().WithFlag(EXECUTE) else m
  }

  function EndDoWhile(m: Machine, off: nat, v: int): (Machine, bool) {
    var again := m.execute && IsTrue(v);
    var m1 :=
      if again then m.(continued := m.continued + {off})
      else if m.ChangeIsHere() then m.ClearChange()
      else m;
    (m1.Leave().Nest(-1), again)
  }

  // ----- if -----

  function StartIf(m: Machine, v: int): Machine {
    var m1 := m.Enter();
    if m1.execute then m1.WithFlag(if IsTrue(v) then EXECUTE else BEFORE_EXECUTE)
    else m1.(flag := DONT_EXECUTE)
  }

  function EndIf(m: Machine): Machine {
    m.Leave()
  }

  function StopTaken(m: Machine): Machine {
    if m.flag == EXECUTE then m.WithFlag(DONT_EXECUTE) else m
  }

  function ElseIfStartEvaluate(m: Machine): Machine {
    var m1 := StopTaken(m);
    var m2 := m1.Enter();
    if m2.flag == BEFORE_EXECUTE && IntTop(m1.css) == EXECUTE then m2.WithFlag(EXECUTE) else m2
  }

  function ElseIfEndEvaluate(m: Machine): Machine {
    m.Leave()
  }

  function StartElseIf(m: Machine, v: int): Machine {
    var m1 := StopTaken(m);
    if m1.flag == BEFORE_EXECUTE && IsTrue(v) then m1.WithFlag(EXECUTE) else m1
  }

  function StartElse(m: Machine): Machine {
    var m1 := StopTaken(m);
    if m1.flag == BEFORE_EXECUTE then m1.WithFlag(EXECUTE) else m1
  }

  // ----- break, continue, return -----

  /** None where the source raises a fatal error: the count does not name an enclosing loop. */
  function BreakContinue(m: Machine, n: int, isBreak: bool): Option<Machine> {
    if !m.execute then Some(m)
    else
      var level := m.fs.nest - n + 1;
      if level <= 0 || level > m.fs.nest then None
      else Some(m.(fs := m.fs.(level := level, change := if isBreak then Break else Continue), execute := false))
  }

  /** None where `return` is met in the main script, which ends the run. */
  function DoReturn(m: Machine, v: int): Option<Machine> {
    if !m.execute then Some(m)
    else if !m.fs.inFunction then None
    else Some(m.(returnValue := v, fs := m.fs.(returned := true)).WithFlag(DONT_EXECUTE))
  }

  // ----- for -----

  function ForPreExpr1(m: Machine, off: nat): Machine {
    var m1 := m.Nest(1).Enter();
    if !m1.execute then m1
    else
      var m2 := m1.(continued := m1.continued - {off});
      if IntTop(m2.forStack) == off then m2.WithFlag(DONT_EXECUTE) else m2
  }

  /** `sw` is the switched mark on the `for` token as the parser read it. */
  predicate FirstOfSwitched(m: Machine, off: nat, sw: bool) {
    sw && IntTop(m.forStack) != off
  }

  function ForPreExpr2(m: Machine, off: nat, sw: bool): Machine {
    var m1 := m.Restore();
    if FirstOfSwitched(m1, off, sw) then m1.WithFlag(DONT_EXECUTE) else m1
  }

  /** The value left in the second header slot. */
  function ForExpr2Value(m: Machine, off: nat, sw: bool, v2: int): int {
    if FirstOfSwitched(m, off, sw) then RESET else v2
  }

  function ForPreExpr3(m: Machine, sw: bool): Machine {
    var m1 := m.Restore();
    if m1.execute && !sw then m1.WithFlag(DONT_EXECUTE) else m1
  }

  function ForPreStatement(m: Machine, sw: bool, v2: int, v3: int): Machine {
    var m1 := m.Restore();
    if !m1.execute then m1
    else m1.WithFlag(if IsTrue(if sw then v3 else v2) then EXECUTE else DONT_EXECUTE)
  }

  /** tc_switch on the header, then tc_set_switched on the keyword. */
  function SwitchHeader(m: Machine, off: nat): Machine {
    m.(swapped := if off in m.swapped then m.swapped - {off} else m.swapped + {off},
       switched := m.switched + {off})
  }

  function PopFor(m: Machine, off: nat): Machine {
    if IntTop(m.forStack) == off then m.(forStack := Pop(m.forStack)) else m
  }

  /** After its first pass a loop is on the FOR stack and its header is switched. */
  function ForNotePass(m: Machine, off: nat, sw: bool): Machine {
    var m1 := if IntTop(m.forStack) != off then m.(forStack := Push(off, m.forStack)) else m;
    if !sw then SwitchHeader(m1, off) else m1
  }

  function ForPostStatement(m: Machine, off: nat, sw: bool): (Machine, bool) {
    var m2 := ForNotePass(m, off, sw);
    var again := m2.execute || (m2.ChangeIsHere() && m2.fs.change == Continue);
    var m3 := if again then m2.(continued := m2.continued + {off}) else PopFor(m2, off);
    var m4 := if !m2.execute && m2.ChangeIsHere() then m3.ClearChange() else m3;
    (m4.Leave().Nest(-1), again)
  }

  // ----- switch -----

  function SwitchStart(m: Machine, off: nat, v: int): Machine {
    var m1 := m.Nest(1).Enter();
    m1.(switchStack := Push(SwitchEntry(v, off, m1.execute), m1.switchStack))
  }

  /** `test` is None for the default label. */
  function SwitchCasePre(w: World, m: Machine, test: Option<int>): Machine {
    if !m.execute || m.switchStack.Empty? || m.switchStack.top.offset == MATCHED then m
    else
      var se := m.switchStack.top;
      if test.None? || w.equal(se.subject, test.value) then
        m.(switchStack := Push(se.(offset := MATCHED), m.switchStack.below)).WithFlag(EXECUTE)
      else m.WithFlag(DONT_EXECUTE)
  }

  function SwitchCasePost(m: Machine): Machine {
    m.Restore()
  }

  function SwitchEnd(m: Machine): Machine {
    var m1 :=
      if !m.execute && m.fs.level == m.fs.nest then m.(fs := m.fs.(change := Nothing)) else m;
    var m2 := m1.Leave();
    m2.(switchStack := Pop(m2.switchStack)).Nest(-1)
  }

  // ----- short-circuit operators -----

  function PreOr(m: Machine, left: int): Machine {
    var m1 := m.Enter();
    if m1.execute && IsTrue(left) then m1.WithFlag(DONT_EXECUTE) else m1
  }

  function PreAnd(m: Machine, left: int): Machine {
    var m1 := m.Enter();
    if m1.execute && !IsTrue(left) then m1.WithFlag(DONT_EXECUTE) else m1
  }

  /** Common to `||` and `&&`; their values are computed from both operands. */
  function PostBoolean(m: Machine): Machine {
    m.Leave()
  }

  function QuestionmarkPreExpr1(m: Machine, test: int): Machine {
    PreAnd(m, test)
  }

  function QuestionmarkPreExpr2(m: Machine, test: int): Machine {
    var m1 := m.Restore();
    if m1.execute && IsTrue(test) then m1.WithFlag(DONT_EXECUTE) else m1
  }

  function QuestionmarkPostExpr2(m: Machine): Machine {
    m.Leave()
  }

  // ----- functions -----

  function StartFunctionDeclaration(m: Machine): Machine {
    m.Enter().WithFlag(DONT_EXECUTE)
  }

  /** None where a function of that name exists already, which is fatal. */
  function EndFunctionDeclaration(m: Machine, name: string, body: Stmts): Option<Machine> {
    var m1 := m.Leave();
    if !m1.execute then Some(m1)
    else if name in m1.funs then None
    else Some(m1.(funs := m1.funs[name := User(body)]))
  }

  /** Before the parameters, once the function was found. */
  function CallPreVariablePassing(m: Machine): Machine {
    m.(forStack := Push(CALL_MARK, m.forStack),
       fsStack := Push(m.fs, m.fsStack),
       fs := m.fs.(inFunction := true))
  }

  /** After the parameters: a fresh loop state for the callee. */
  function CallPostVariablePassing(m: Machine): Machine {
    m.Enter().(fs := m.fs.(nest := 0, change := Nothing, level := 0), returnValue := RESET)
  }

  /** Pop the FOR stack down to the mark of this call. */
  function UnwindFor(s: Stack<int>): Stack<int> {
    if IntTop(s) != CALL_MARK then UnwindFor(Pop(s)) else s
  }

  function CallEnd(m: Machine, user: bool): (Machine, int) {
    var v := if user && !m.fs.returned then RESET else m.returnValue;
    var m1 := m.(forStack := Pop(UnwindFor(m.forStack)));
    var m2 := if m1.fsStack.Empty? then m1 else m1.(fs := m1.fsStack.top, fsStack := m1.fsStack.below);
    (m2.Leave(), v)
  }

  // ----- the invariant between flag and Execute -----

  /** Execute is always what SHOULD_EXECUTE computes. */
  predicate Synced(m: Machine) {
    m.execute == m.ShouldExecute()
  }

  // ----- when code is executed -----

  /**
   Behind an action that opens a piece of code, that code is executed
   exactly if its surroundings are and the value asks for it.
   */
  lemma OpenedCode(m: Machine, off: nat, v: int)
    requires Synced(m)
    ensures StartWhile(m, off, v).execute <==> m.execute && IsTrue(v)
    ensures StartDoWhile(m, off).execute <==> m.execute
    ensures StartIf(m, v).execute <==> m.execute && IsTrue(v)
    ensures PreAnd(m, v).execute <==> m.execute && IsTrue(v)
    ensures PreOr(m, v).execute <==> m.execute && !IsTrue(v)
    ensures QuestionmarkPreExpr2(QuestionmarkPreExpr1(m, v), v).execute <==> m.execute && !IsTrue(v)
    ensures !StartFunctionDeclaration(m).execute
  {
  }

  /** Of the branches of an `if` exactly the first whose condition holds is executed, and no condition behind it. */
  lemma OneBranch(m: Machine, v: int, v2: int)
    requires Synced(m)
    ensures StartElse(StartIf(m, v)).execute <==> m.execute && !IsTrue(v)
    ensures var m1 := ElseIfStartEvaluate(StartIf(m, v)); m1.execute <==> m.execute && !IsTrue(v)
    ensures var m2 := StartElseIf(ElseIfEndEvaluate(ElseIfStartEvaluate(StartIf(m, v))), v2);
      && (m2.execute <==> m.execute && !IsTrue(v) && IsTrue(v2))
      && (StartElse(m2).execute <==> m.execute && !IsTrue(v) && !IsTrue(v2))
      && (ElseIfStartEvaluate(m2).execute <==> m.execute && !IsTrue(v) && !IsTrue(v2))
  {
  }

  /**
   The parts of a `for` header: the first is executed unless the loop is on top of the FOR stack; in a
   header not yet switched the second is and the third is not; in a switched one the third is, and the second
   unless this is the first pass. What decides on the body is the part that was written second.
   */
  lemma HeaderParts(m: Machine, off: nat, sw: bool, v2: int, v3: int)
    requires Synced(m)
    ensures var m1 := ForPreExpr1(m, off);
      var m2 := ForPreExpr2(m1, off, sw);
      var m3 := ForPreExpr3(m2, sw);
      var m4 := ForPreStatement(m3, sw, v2, v3);
      && (m1.execute <==> m.execute && IntTop(m.forStack) != off)
      && (m2.execute <==> m.execute && (sw ==> IntTop(m.forStack) == off))
      && (m3.execute <==> m.execute && sw)
      && (m4.execute <==> m.execute && IsTrue(if sw then v3 else v2))
      && m4.css == m.Enter().css && m4.forStack == m.forStack && m4.fs == m.Nest(1).fs
  {
  }

  /** A label of a `switch` is executed if it is the first to match, or one has matched before. */
  lemma LabelRuns(w: World, m: Machine, off: nat, v: int, test: Option<int>)
    requires Synced(m)
    ensures var m1 := SwitchStart(m, off, v);
      var m2 := SwitchCasePre(w, m1, test);
      var matches := test.None? || w.equal(v, test.value);
      && (m2.execute <==> m.execute && matches)
      && (m2.execute ==> SwitchCasePost(m2).execute && SwitchCasePre(w, SwitchCasePost(m2), Some(v)).execute)
      && (m.execute ==> SwitchCasePost(m2).execute)
  {
  }

  /**
   A jump names one of the loops and switches around it in the
   same function, or is fatal; behind it nothing is executed.
   */
  lemma JumpsStop(m: Machine, n: int, isBreak: bool, v: int)
    requires Synced(m) && m.execute
    ensures BreakContinue(m, n, isBreak).Some? <==> 1 <= n <= m.fs.nest
    ensures BreakContinue(m, n, isBreak).Some? ==>
      var m1 := BreakContinue(m, n, isBreak).value;
      !m1.execute && m1.fs.level == m.fs.nest + 1 - n && (m1.ChangeIsHere() <==> n == 1)
    ensures DoReturn(m, v).Some? <==> m.fs.inFunction
    ensures DoReturn(m, v).Some? ==> !DoReturn(m, v).value.execute && DoReturn(m, v).value.returnValue == v
  {
  }

  // ----- what is opened is closed -----

  /** With nothing read between them, the actions at the ends of a construct that is not a loop undo each other. */
  lemma ConstructsClose(m: Machine, v: int)
    requires Synced(m)
    ensures EndIf(StartIf(m, v)) == m && EndIf(StartElse(StartIf(m, v))) == m
    ensures ElseIfEndEvaluate(ElseIfStartEvaluate(m)) == StopTaken(m)
    ensures PostBoolean(PreAnd(m, v)) == m && PostBoolean(PreOr(m, v)) == m
    ensures QuestionmarkPostExpr2(QuestionmarkPreExpr2(QuestionmarkPreExpr1(m, v), v)) == m
  {
  }

  lemma SwitchCloses(w: World, m: Machine, off: nat, v: int, test: Option<int>)
    requires Synced(m) && (m.fs.change != Nothing ==> m.fs.level <= m.fs.nest)
    ensures SwitchEnd(SwitchCasePost(SwitchCasePre(w, SwitchStart(m, off, v), test))) == m
  {
  }

  /**
   A declaration adds its function if it is executed, and is
   fatal if the name is taken; a call leaves the caller's state.
   */
  lemma FunctionsClose(m: Machine, name: string, body: Stmts, user: bool)
    requires Synced(m)
    ensures EndFunctionDeclaration(StartFunctionDeclaration(m), name, body)
         == if !m.execute then Some(m) else if name in m.funs then None
           else Some(m.(funs := m.funs[name := User(body)]))
    ensures CallEnd(CallPostVariablePassing(CallPreVariablePassing(m)), user).0 == m.(returnValue := RESET)
  {
  }

  /**
   A loop whose body is only read changes nothing; one whose body
   goes on is back at its keyword, which then reads as continued.
   */
  lemma LoopsClose(m: Machine, off: nat, v: int)
    requires Synced(m) && (m.fs.change != Nothing ==> m.fs.level <= m.fs.nest)
    ensures var (m1, again) := EndWhile(StartWhile(m, off, v), off);
      && (again <==> m.execute && IsTrue(v))
      && m1 == if again then m.(continued := m.continued + {off})
           else if m.execute then m.(continued := m.continued - {off}) else m
    ensures var (m1, again) := EndDoWhile(ForceEvalDoWhile(StartDoWhile(m, off)), off, v);
      && (again <==> m.execute && IsTrue(v))
      && m1 == if again then m.(continued := m.continued + {off})
           else if m.execute then m.(continued := m.continued - {off}) else m
  {
    assert m.continued - {off} + {off} == m.continued + {off};
  }
}
