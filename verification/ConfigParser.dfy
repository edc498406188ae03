/** The table-driven parser `yyparse` of configuration-parser.tab.c on its state and value stacks. */
module ConfigParser {
  import opened Wrappers
  import opened ConfigGrammar
  import opened ConfigSyntax
  import opened ConfigActions

  const YYINITDEPTH := 200
  const YYEMPTY := -2
  const YYEOF := 0

  /** `yyparse` returns 0 or 1; FAULT stands for a run that follows the null section pointer. */
  const FAULT := -1

  /** No stack the parser ever holds is deeper. */
  const MAX_DEPTH := 5

  /** The state stacks that occur. */
  predicate Stacked(ss: seq<int>) {
    && 1 <= |ss| <= MAX_DEPTH
    && ss[0] == 0
    && (|ss| >= 2 ==> ss[1] == 1)
    && (|ss| == 3 ==> 2 <= ss[2] <= 8 || ss[2] == 17)
    && (|ss| == 4 ==> (ss[2] == 8 && ss[3] == 10) || (ss[2] == 5 && ss[3] == 9))
    && (|ss| == 5 ==>
          || (ss[2] == 8 && ss[3] == 10 && (ss[4] == 2 || ss[4] == 3 || 12 <= ss[4] <= 16))
          || (ss[2] == 5 && ss[3] == 9 && (ss[4] == 2 || ss[4] == 3 || ss[4] == 11)))
  }

  function Top(ss: seq<int>): nat
    requires Stacked(ss)
  {
    ss[|ss| - 1]
  }

  /** What is still to be read when the stacks are `ss` and `vs` and the tokens `rest` are left, lookahead included. */
  function Pending(ss: seq<int>, vs: seq<string>, rest: seq<Token>): Reading
    requires Stacked(ss) && |vs| == |ss|
  {
    if |ss| <= 2 then Read(rest)
    else if |ss| == 3 then
      if ss[2] == 4 then After(Section(vs[2]), Read(rest))
      else if ss[2] == 5 then ReadExtension(rest)
      else if ss[2] == 6 then After(Blank, Read(rest))
      else if ss[2] == 7 || ss[2] == 17 then Read(rest)
      else ReadNamed(vs[2], rest)
    else if |ss| == 4 then
      if ss[3] == 10 then ReadValue(vs[2], rest) else ReadLibrary(rest)
    else if ss[3] == 10 then
      After(Assign(vs[2], if ss[4] == 14 then "" else vs[4]), Read(rest))
    else After(Load(vs[4]), Read(rest))
  }

  /** Reductions that finish a statement, and the statement they finish. */
  predicate Finishes(rule: int) {
    3 <= rule <= 7
  }

  function Finished(rule: int, vs: seq<string>): Statement
    requires Finishes(rule) && |vs| >= R2(rule)
  {
    var n := |vs|;
    match rule
    case 3 => Assign(vs[n - 3], vs[n - 1])
    case 4 => Bare(vs[n - 1])
    case 5 => Load(vs[n - 1])
    case 6 => Section(vs[n - 1])
    case _ => Blank
  }

  /** The semantic value of a reduction; `stale` is what was in `yyval` before. */
  function Reduced(rule: int, vs: seq<string>, stale: string): string
    requires 1 <= rule <= 13 && |vs| >= R2(rule)
  {
    if rule == 13 then "" else if R2(rule) > 0 then vs[|vs| - R2(rule)] else stale
  }

  /** How far a state is from the next token, to show that reductions come to an end. */
  function Rank(s: int): nat {
    match s
    case 0 => 9 case 2 => 8 case 3 => 8 case 12 => 7 case 13 => 7 case 14 => 7 case 15 => 7 case 11 => 7
    case 16 => 6 case 8 => 5 case 4 => 5 case 6 => 5 case 7 => 4 case 1 => 3 case _ => 2
  }

  function Lookahead(rest: seq<Token>): nat {
    if rest == [] then END else Kind(rest[0])
  }

  /** A state that acts without a lookahead, or has one that tells it to use its default. */
  function Next(s: nat, rest: seq<Token>): Action
    requires s <= YYFINAL
  {
    On(s, Lookahead(rest))
  }

  function On(s: nat, k: nat): Action
    requires s <= YYFINAL
  {
    if Pact(s) == YYFLAG then DefaultAction(s) else TokenAction(s, k)
  }

  /** The tables, state by state. */
  predicate Tabled(s: nat, k: nat, a: Action) {
    match s
    case 0 => a == Reduce(2)
    case 1 => a == (if k == END then Shift(17) else if k == STRING then Shift(2) else if k == ENCAPSULATED then Shift(3)
                    else if k == SECTION then Shift(4) else if k == EXTENSION then Shift(5)
                    else if k == NEWLINE then Shift(6) else Error)
    case 2 => a == Reduce(8)
    case 3 => a == Reduce(9)
    case 4 => a == Reduce(6)
    case 5 => a == (if k == EQUALS then Shift(9) else Error)
    case 6 => a == Reduce(7)
    case 7 => a == Reduce(1)
    case 8 => a == (if k == EQUALS then Shift(10) else Reduce(4))
    case 9 => a == (if k == STRING then Shift(2) else if k == ENCAPSULATED then Shift(3) else Error)
    case 10 => a == (if k == STRING then Shift(2) else if k == ENCAPSULATED then Shift(3)
                     else if k == TRUE then Shift(12) else if k == FALSE then Shift(13)
                     else if k == NEWLINE then Shift(14) else Error)
    case 11 => a == Reduce(5)
    case 12 => a == Reduce(11)
    case 13 => a == Reduce(12)
    case 14 => a == Reduce(13)
    case 15 => a == Reduce(10)
    case 16 => a == Reduce(3)
    case 17 => a == (if k == END then Accept else Error)
    case _ => true
  }

  lemma OnListState(k: nat)
    ensures Tabled(1, k, On(1, k))
  {
  }

  lemma OnEqualsStates(k: nat)
    ensures Tabled(5, k, On(5, k)) && Tabled(8, k, On(8, k)) && Tabled(9, k, On(9, k))
  {
  }

  lemma OnValueStates(k: nat)
    ensures Tabled(10, k, On(10, k)) && Tabled(17, k, On(17, k))
  {
  }

  lemma OnStates(s: nat, k: nat)
    requires s <= YYFINAL
    ensures Tabled(s, k, On(s, k))
  {
    if s == 1 { OnListState(k); }
    else if s == 5 || s == 8 || s == 9 { OnEqualsStates(k); }
    else if s == 10 || s == 17 { OnValueStates(k); }
    else { assert Pact(s) == YYFLAG || s > 17; }
  }

  lemma NextInStates(ss: seq<int>, rest: seq<Token>)
    requires Stacked(ss)
    ensures Tabled(Top(ss), Lookahead(rest), Next(Top(ss), rest))
  {
    OnStates(Top(ss), Lookahead(rest));
  }

  predicate Coded(ts: seq<Token>) {
    forall i :: 0 <= i < |ts| ==> ts[i].code > 0
  }

  lemma ShiftKeeps(ss: seq<int>, vs: seq<string>, rest: seq<Token>, to: int, v: string)
    requires Stacked(ss) && |vs| == |ss| && Coded(rest)
    requires Next(Top(ss), rest) == Shift(to)
    requires rest != [] ==> v == rest[0].text
    ensures Stacked(ss + [to])
    ensures rest == [] ==> to == 17
    ensures Pending(ss + [to], vs + [v], if rest == [] then [] else rest[1..]) == Pending(ss, vs, rest)
  {
    NextInStates(ss, rest);
    if rest != [] { assert Translate(rest[0].code) != END; }
  }

  lemma ReduceKeeps(ss: seq<int>, vs: seq<string>, rest: seq<Token>, rule: int, stale: string)
    requires Stacked(ss) && |vs| == |ss|
    requires Next(Top(ss), rest) == Reduce(rule)
    ensures 1 <= rule <= 13 && |ss| > R2(rule) && R2(rule) >= 0
    ensures var base := |ss| - R2(rule);
      var to := Goto(rule, ss[base - 1]);
      var ss2, vs2 := ss[..base] + [to], vs[..base] + [Reduced(rule, vs, stale)];
      && Stacked(ss2)
      && Rank(to) < Rank(Top(ss))
      && Pending(ss, vs, rest) ==
           if Finishes(rule) then After(Finished(rule, vs), Pending(ss2, vs2, rest)) else Pending(ss2, vs2, rest)
  {
    NextInStates(ss, rest);
  }

  lemma EndsKnown(ss: seq<int>, vs: seq<string>, rest: seq<Token>)
    requires Stacked(ss) && |vs| == |ss|
    ensures Next(Top(ss), rest) == Error ==>
      Pending(ss, vs, rest) == FAILED || (Top(ss) == 17 && Lookahead(rest) != END)
    ensures Next(Top(ss), rest) == Accept ==> Top(ss) == 17 && Lookahead(rest) == END
    ensures Next(Top(ss), rest).Shift? ==> Pact(Top(ss)) != YYFLAG
  {
    NextInStates(ss, rest);
  }

  /** No table entry accepts the error token. */
  lemma ErrorTokenIsNeverShifted(s: nat)
    requires s <= YYFINAL
    ensures Pact(s) == YYFLAG || Pact(s) + YYTERROR < 0 || Check(Pact(s) + YYTERROR) != YYTERROR
  {
  }

  /**
   The result a file must have: the statements read have been
   applied in order, and the code tells whether all of it was read.
   */
  function Outcome(c: Config, ts: seq<Token>): (Option<Config>, int) {
    var r := Read(ts);
    var after := ApplyAll(c, r.done);
    (after, if after.None? then FAULT else if r.ok then 0 else 1)
  }

  /** Reading on from here, with the tables as they are now, gives what reading the whole file had to give. */
  predicate OnCourse(init: Config, ts: seq<Token>, now: Config, ss: seq<int>, vs: seq<string>, rest: seq<Token>) {
    && Stacked(ss) && |vs| == |ss| && Coded(rest)
    && (Top(ss) == 17 ==> rest == [])
    && Read(ts).ok == Pending(ss, vs, rest).ok
    && ApplyAll(init, Read(ts).done) == ApplyAll(now, Pending(ss, vs, rest).done)
  }

  lemma ShiftStep(init: Config, ts: seq<Token>, now: Config, ss: seq<int>, vs: seq<string>, rest: seq<Token>, to: int,
                  v: string)
    requires OnCourse(init, ts, now, ss, vs, rest) && Next(Top(ss), rest) == Shift(to)
    requires rest != [] ==> v == rest[0].text
    ensures OnCourse(init, ts, now, ss + [to], vs + [v], if rest == [] then [] else rest[1..])
    ensures rest == [] ==> Rank(to) < Rank(Top(ss))
    ensures rest != [] ==> to != 17
  {
    NextInStates(ss, rest);
    if rest != [] { assert Translate(rest[0].code) != END; }
    ShiftKeeps(ss, vs, rest, to, v);
  }

  lemma StartsOnCourse(init: Config, ts: seq<Token>, vs: seq<string>)
    requires Coded(ts) && |vs| == 1
    ensures OnCourse(init, ts, init, [0], vs, ts)
  {
  }

  /** When the parser accepts or finds an error, the tables are what they had to become. */
  lemma Concluded(init: Config, ts: seq<Token>, now: Config, ss: seq<int>, vs: seq<string>, rest: seq<Token>)
    requires OnCourse(init, ts, now, ss, vs, rest)
    ensures Next(Top(ss), rest) == Accept ==> Outcome(init, ts) == (Some(now), 0)
    ensures Next(Top(ss), rest) == Error ==> Outcome(init, ts) == (Some(now), 1)
  {
    EndsKnown(ss, vs, rest);
  }

  predicate Reducible(ss: seq<int>, rule: int) {
    1 <= rule <= 13 && 0 <= R2(rule) < |ss| && 0 <= ss[|ss| - R2(rule) - 1]
  }

  lemma ReduceInRange(init: Config, ts: seq<Token>, now: Config, ss: seq<int>, vs: seq<string>, rest: seq<Token>,
                      rule: int, stale: string)
    requires OnCourse(init, ts, now, ss, vs, rest) && Next(Top(ss), rest) == Reduce(rule)
    ensures Reducible(ss, rule)
  {
    NextInStates(ss, rest);
    ReduceKeeps(ss, vs, rest, rule, stale);
  }

  /** One reduction, after which the stacks are `ss2` and `vs2`. */
  lemma ReduceStep(init: Config, ts: seq<Token>, now: Config, ss: seq<int>, vs: seq<string>, rest: seq<Token>,
                   rule: int, stale: string, ss2: seq<int>, vs2: seq<string>)
    requires OnCourse(init, ts, now, ss, vs, rest) && Next(Top(ss), rest) == Reduce(rule)
    requires Reducible(ss, rule)
    requires ss2 == ss[..|ss| - R2(rule)] + [Goto(rule, ss[|ss| - R2(rule) - 1])]
    requires vs2 == vs[..|ss| - R2(rule)] + [Reduced(rule, vs, stale)]
    ensures Stacked(ss2) && MovesTo(Moment(ss, rest), Moment(ss2, rest)) && Nearer(Moment(ss2, rest), Moment(ss, rest))
    ensures !Finishes(rule) ==> OnCourse(init, ts, now, ss2, vs2, rest)
    ensures Finishes(rule) ==>
      var r := Apply(now, Finished(rule, vs));
      if r.None? then ApplyAll(init, Read(ts).done).None? else OnCourse(init, ts, r.value, ss2, vs2, rest)
  {
    NextInStates(ss, rest);
    ReduceKeeps(ss, vs, rest, rule, stale);
    if Finishes(rule) {
      var later := Pending(ss2, vs2, rest);
      assert After(Finished(rule, vs), later).done[1..] == later.done;
    }
  }

  /** The tokens left: the lookahead, if one has been read, and what the scanner still has. */
  predicate Remaining(ts: seq<Token>, pos: nat, yychar: int, yylval: string, rest: seq<Token>)
    requires pos <= |ts|
  {
    if yychar == YYEMPTY then rest == ts[pos..]
    else if yychar == YYEOF then rest == [] && pos == |ts|
    else yychar > 0 && rest == [Token(yychar, yylval)] + ts[pos..]
  }

  /** The state stack, and the tokens left. */
  datatype Moment = Moment(stack: seq<int>, rest: seq<Token>)

  /** A state pushed, and a token, if there is one, consumed. */
  function Shifted(a: Moment, to: int): Moment {
    Moment(a.stack + [to], if a.rest == [] then [] else a.rest[1..])
  }

  /** What the tables make of a moment: a shift or a reduction. */
  predicate MovesTo(a: Moment, b: Moment) {
    var n := |a.stack|;
    && n > 0 && 0 <= a.stack[n - 1] <= YYFINAL
    && match Next(a.stack[n - 1], a.rest)
       case Shift(to) => b == Shifted(a, to)
       case Reduce(rule) =>
         && Reducible(a.stack, rule)
         && b == Moment(a.stack[..n - R2(rule)] + [Goto(rule, a.stack[n - R2(rule) - 1])], a.rest)
       case _ => false
  }

  lemma ShiftMoves(init: Config, ts: seq<Token>, c: Config, now: Moment, vs: seq<string>, to: int, v: string)
    requires OnCourse(init, ts, c, now.stack, vs, now.rest) && Next(Top(now.stack), now.rest) == Shift(to)
    requires now.rest != [] ==> v == now.rest[0].text
    ensures OnCourse(init, ts, c, Shifted(now, to).stack, vs + [v], Shifted(now, to).rest)
    ensures MovesTo(now, Shifted(now, to)) && Nearer(Shifted(now, to), now) && |now.stack| < MAX_DEPTH
  {
    ShiftStep(init, ts, c, now.stack, vs, now.rest, to, v);
  }

  /** The symbols of a rule replaced by what it makes, on both stacks. */
  predicate Unwound(a: Moment, vs: seq<string>, rule: int, v: string, b: Moment, vs2: seq<string>)
    requires Reducible(a.stack, rule) && |vs| == |a.stack|
  {
    var n := |a.stack| - R2(rule);
    b.stack == a.stack[..n] + [Goto(rule, a.stack[n - 1])] && vs2 == vs[..n] + [v]
  }

  lemma ReduceMoves(init: Config, ts: seq<Token>, c: Config, now: Moment, vs: seq<string>, rule: int, stale: string)
      returns (now2: Moment, vs2: seq<string>)
    requires OnCourse(init, ts, c, now.stack, vs, now.rest) && Next(Top(now.stack), now.rest) == Reduce(rule)
    requires Reducible(now.stack, rule)
    ensures Unwound(now, vs, rule, Reduced(rule, vs, stale), now2, vs2)
    ensures MovesTo(now, now2) && Nearer(now2, now) && now2.rest == now.rest
    ensures !Finishes(rule) ==> OnCourse(init, ts, c, now2.stack, vs2, now2.rest)
    ensures Finishes(rule) ==>
      var r := Apply(c, Finished(rule, vs));
      if r.None? then ApplyAll(init, Read(ts).done).None? else OnCourse(init, ts, r.value, now2.stack, vs2, now2.rest)
  {
    var n := |now.stack| - R2(rule);
    now2 := Moment(now.stack[..n] + [Goto(rule, now.stack[n - 1])], now.rest);
    vs2 := vs[..n] + [Reduced(rule, vs, stale)];
    ReduceStep(init, ts, c, now.stack, vs, now.rest, rule, stale, now2.stack, vs2);
  }

  /** A run of the automaton from the start of a file. */
  predicate Run(ts: seq<Token>, trace: seq<Moment>) {
    && trace != [] && trace[0] == Moment([0], ts)
    && forall i {:trigger trace[i]} :: 0 < i < |trace| ==> MovesTo(trace[i - 1], trace[i])
  }

  function Last(trace: seq<Moment>): Moment
    requires trace != []
  {
    trace[|trace| - 1]
  }

  /** A run and one move more. */
  function Onward(ts: seq<Token>, trace: seq<Moment>, next: Moment): (r: seq<Moment>)
    requires Run(ts, trace) && MovesTo(Last(trace), next)
    ensures Run(ts, r) && Last(r) == next
  {
    trace + [next]
  }

  function TopOf(a: Moment): int {
    if a.stack == [] then 0 else a.stack[|a.stack| - 1]
  }

  /** There is less to read, or the same and the state is nearer to reading it. */
  predicate Nearer(a: Moment, b: Moment) {
    |a.rest| < |b.rest| || (a.rest == b.rest && Rank(TopOf(a)) < Rank(TopOf(b)))
  }

  /** A move keeps the shape of the stack. */
  lemma MovesAreShallow(a: Moment, b: Moment)
    requires Stacked(a.stack) && Coded(a.rest) && MovesTo(a, b)
    ensures Stacked(b.stack) && Coded(b.rest)
  {
    var vs := seq(|a.stack|, _ => "");
    var action := Next(Top(a.stack), a.rest);
    if action.Shift? {
      ShiftKeeps(a.stack, vs, a.rest, action.state, if a.rest == [] then "" else a.rest[0].text);
    } else {
      ReduceKeeps(a.stack, vs, a.rest, action.rule, "");
    }
  }

  /** At no moment of any run is the stack deeper than MAX_DEPTH. */
  lemma {:induction false} RunsAreShallow(ts: seq<Token>, trace: seq<Moment>, i: nat)
    requires Coded(ts) && Run(ts, trace) && i < |trace|
    ensures |trace[i].stack| <= 5 && Stacked(trace[i].stack) && Coded(trace[i].rest)
  {
    if i > 0 {
      RunsAreShallow(ts, trace, i - 1);
      MovesAreShallow(trace[i - 1], trace[i]);
    }
  }

  lemma AllShallow(ts: seq<Token>, trace: seq<Moment>)
    requires Coded(ts) && Run(ts, trace)
    ensures forall i :: 0 <= i < |trace| ==> |trace[i].stack| <= MAX_DEPTH
  {
    forall i | 0 <= i < |trace| ensures |trace[i].stack| <= MAX_DEPTH { RunsAreShallow(ts, trace, i); }
  }

  /** The run has ended: with 0 where the tables accept, with 1 where they have no action. */
  predicate Ends(a: Moment, r: int) {
    var n := |a.stack|;
    && n > 0 && 0 <= a.stack[n - 1] <= YYFINAL
    && (r == 0 <==> Next(a.stack[n - 1], a.rest) == Accept)
    && (r == 1 <==> Next(a.stack[n - 1], a.rest) == Error)
  }

  class Parser {
    const browscap: bool
    var table: map<string, string>
    var sections: map<string, map<string, string>>
    var current: Option<string>
    var loaded: seq<string>

    constructor (browscap: bool)
      ensures View() == Config(browscap, map[], map[], None, [])
    {
      this.browscap := browscap;
      table, sections, current, loaded := map[], map[], None, [];
    }

    ghost function View(): Config
      reads this
    {
      Config(browscap, table, sections, current, loaded)
    }

    /**
     The action of a rule that finishes a statement: `first`
     and `last` are the values of its first and last symbol.
     */
    method Perform(rule: int, first: string, last: string, ghost vs: seq<string>) returns (ok: bool)
      requires Finishes(rule) && |vs| >= R2(rule) && first == vs[|vs| - R2(rule)] && last == vs[|vs| - 1]
      modifies this
      ensures var r := Apply(old(View()), Finished(rule, vs));
        ok == r.Some? && (ok ==> View() == r.value)
    {
      ok := true;
      match rule
      case 3 =>
        if !browscap {
          table := table[first := last];
        } else if current.None? || current.value !in sections {
          ok := false;
        } else {
          sections := sections[current.value := sections[current.value][Lower(first) := last]];
        }
      case 5 =>
        loaded := loaded + [last];
      case 6 =>
        if browscap {
          sections := sections[last := map[]];
          current := Some(last);
          sections := sections[last := sections[last][PATTERN_KEY := BrowscapPattern.Convert(last)]];
        }
      case _ =>
    }

    /** Pop states until one accepts the error token: none does, so the stack empties and the parser gives up. */
    method Unwind(yyss: array<int>, top: nat, ghost ss: seq<int>) returns (r: int)
      requires top < yyss.Length && yyss[..top + 1] == ss && Stacked(ss)
      ensures r == 1
    {
      var ssp := top;
      assert forall i :: 0 <= i <= top ==> yyss[i] == ss[i];
      while true
        invariant 0 <= ssp <= top
        decreases ssp
      {
        ErrorTokenIsNeverShifted(yyss[ssp]);
        var yyn := Pact(yyss[ssp]);
        if yyn != YYFLAG {
          yyn := yyn + YYTERROR;
          assert yyn < 0 || yyn > YYLAST || Check(yyn) != YYTERROR;
        }
        if ssp == 0 { return 1; }
        ssp := ssp - 1;
      }
    }

    /** Read a lookahead token if there is none. */
    method Lex(ts: seq<Token>, pos: nat, yychar: int, yylval: string, ghost rest: seq<Token>)
      returns (pos2: nat, yychar2: int, yylval2: string)
      requires pos <= |ts| && Remaining(ts, pos, yychar, yylval, rest) && Coded(rest)
      ensures pos2 <= |ts| && Remaining(ts, pos2, yychar2, yylval2, rest)
      ensures yychar2 != YYEMPTY
      ensures (if yychar2 == YYEOF then END else Translate(yychar2)) == Lookahead(rest)
      ensures rest != [] ==> yylval2 == rest[0].text && yychar2 != YYEOF
    {
      pos2, yychar2, yylval2 := pos, yychar, yylval;
      if yychar == YYEMPTY {
        if pos < |ts| {
          yychar2, yylval2 := ts[pos].code, ts[pos].text;
          pos2 := pos + 1;
        } else {
          yychar2 := YYEOF;
        }
      }
    }

    /** What to do in state `yystate`, reading a lookahead token only if the state asks for one. */
    method Decide(yystate: nat, ts: seq<Token>, pos: nat, yychar: int, yylval: string, ghost rest: seq<Token>)
      returns (action: Action, pos2: nat, yychar2: int, yylval2: string)
      requires yystate <= YYFINAL && pos <= |ts| && Remaining(ts, pos, yychar, yylval, rest) && Coded(rest)
      ensures action == Next(yystate, rest)
      ensures pos2 <= |ts| && Remaining(ts, pos2, yychar2, yylval2, rest)
      ensures Pact(yystate) != YYFLAG ==>
        yychar2 != YYEMPTY && (rest != [] ==> yylval2 == rest[0].text && yychar2 != YYEOF)
    {
      pos2, yychar2, yylval2 := pos, yychar, yylval;
      action := DefaultAction(yystate);
      if Pact(yystate) != YYFLAG {
        pos2, yychar2, yylval2 := Lex(ts, pos, yychar, yylval, rest);
        action := TokenAction(yystate, if yychar2 == YYEOF then END else Translate(yychar2));
      }
    }

    /** What to do in the state on top of the stack. */
    method DecideTop(yyss: array<int>, ssp: nat, ts: seq<Token>, pos: nat, yychar: int, yylval: string,
                     ghost ss: seq<int>, ghost rest: seq<Token>)
      returns (action: Action, pos2: nat, yychar2: int, yylval2: string)
      requires ssp < yyss.Length && yyss[..ssp + 1] == ss && Stacked(ss) && Coded(rest)
      requires pos <= |ts| && Remaining(ts, pos, yychar, yylval, rest)
      ensures action == Next(Top(ss), rest)
      ensures pos2 <= |ts| && Remaining(ts, pos2, yychar2, yylval2, rest)
      ensures action.Shift? ==> yychar2 != YYEMPTY && (rest != [] ==> yylval2 == rest[0].text && yychar2 != YYEOF)
    {
      assert yyss[ssp] == yyss[..ssp + 1][ssp] == Top(ss);
      NextInStates(ss, rest);
      action, pos2, yychar2, yylval2 := Decide(yyss[ssp], ts, pos, yychar, yylval, rest);
    }

    /** Push a state and its semantic value. */
    method PushState(yyss: array<int>, yyvs: array<string>, ssp: nat, to: int, v: string)
      requires ssp + 1 < yyss.Length == yyvs.Length
      modifies yyss, yyvs
      ensures yyss[..ssp + 2] == old(yyss[..ssp + 1]) + [to]
      ensures yyvs[..ssp + 2] == old(yyvs[..ssp + 1]) + [v]
    {
      yyvs[ssp + 1] := v;
      yyss[ssp + 1] := to;
    }

    /** Pop the symbols of a rule and push the state to go to. */
    method PopAndGo(yyss: array<int>, yyvs: array<string>, top: nat, rule: int, yyval: string, ghost now: Moment,
                    ghost vs: seq<string>, ghost now2: Moment, ghost vs2: seq<string>)
      returns (ssp: nat)
      requires top + 1 < yyss.Length == yyvs.Length
      requires yyss[..top + 1] == now.stack && yyvs[..top + 1] == vs
      requires Reducible(now.stack, rule) && Unwound(now, vs, rule, yyval, now2, vs2)
      modifies yyss, yyvs
      ensures ssp + 1 == |now2.stack| && yyss[..ssp + 1] == now2.stack && yyvs[..ssp + 1] == vs2
    {
      ghost var ss := now.stack;
      var base := top - R2(rule);
      assert yyss[..base + 1] == ss[..base + 1] && yyvs[..base + 1] == vs[..base + 1];
      assert yyss[base] == ss[base];
      PushState(yyss, yyvs, base, Goto(rule, yyss[base]), yyval);
      ssp := base + 1;
    }

    /** Where the loop stands: the stacks of this moment are on the arrays, and its tokens are still to be read. */
    ghost predicate Standing(init: Config, ts: seq<Token>, yyss: array<int>, yyvs: array<string>, ssp: nat,
                             vs: seq<string>, now: Moment)
      reads this, yyss, yyvs
    {
      && yyss.Length == yyvs.Length == YYINITDEPTH && ssp < MAX_DEPTH
      && yyss[..ssp + 1] == now.stack && yyvs[..ssp + 1] == vs
      && OnCourse(init, ts, View(), now.stack, vs, now.rest)
    }

    /** One shift. */
    method ShiftRound(ts: seq<Token>, yyss: array<int>, yyvs: array<string>, top: nat, to: int, pos: nat, yychar: int,
                      yylval: string, ghost init: Config, ghost vs: seq<string>, ghost now: Moment)
      returns (yychar2: int, ghost vs2: seq<string>, ghost now2: Moment)
      requires Standing(init, ts, yyss, yyvs, top, vs, now) && Next(Top(now.stack), now.rest) == Shift(to)
      requires pos <= |ts| && Remaining(ts, pos, yychar, yylval, now.rest) && yychar != YYEMPTY
      requires now.rest != [] ==> yylval == now.rest[0].text && yychar != YYEOF
      modifies yyss, yyvs
      ensures Standing(init, ts, yyss, yyvs, top + 1, vs2, now2) && Remaining(ts, pos, yychar2, yylval, now2.rest)
      ensures MovesTo(now, now2) && Nearer(now2, now)
    {
      ShiftMoves(init, ts, View(), now, vs, to, yylval);
      PushState(yyss, yyvs, top, to, yylval);
      vs2, yychar2 := vs + [yylval], if yychar != YYEOF then YYEMPTY else yychar;
      now2 := Shifted(now, to);
    }

    /** One reduction: the action, then the stacks. It fails where the action faults. */
    method ReduceRound(ts: seq<Token>, yyss: array<int>, yyvs: array<string>, top: nat, stale: string, rule: int,
                       ghost init: Config, ghost vs: seq<string>, ghost now: Moment)
      returns (ssp: nat, yyval: string, ok: bool, ghost vs2: seq<string>, ghost now2: Moment)
      requires Standing(init, ts, yyss, yyvs, top, vs, now) && Next(Top(now.stack), now.rest) == Reduce(rule)
      modifies this, yyss, yyvs
      ensures ok ==> Standing(init, ts, yyss, yyvs, ssp, vs2, now2)
      ensures ok ==> MovesTo(now, now2) && now2.rest == now.rest && Nearer(now2, now)
      ensures !ok ==> Outcome(init, ts).1 == FAULT
    {
      ReduceInRange(init, ts, View(), now.stack, vs, now.rest, rule, stale);
      now2, vs2 := ReduceMoves(init, ts, View(), now, vs, rule, stale);
      yyval, ok := Act(yyvs, top, stale, rule, vs);
      ssp := top;
      if ok { ssp := PopAndGo(yyss, yyvs, top, rule, yyval, now, vs, now2, vs2); }
    }

    /** The semantic value and the action of a reduction. */
    method Act(yyvs: array<string>, top: nat, stale: string, rule: int, ghost vs: seq<string>)
      returns (yyval: string, ok: bool)
      requires top < yyvs.Length && yyvs[..top + 1] == vs && 1 <= rule <= 13 && 0 <= R2(rule) < |vs|
      modifies this
      ensures yyval == Reduced(rule, vs, stale)
      ensures !Finishes(rule) ==> ok && View() == old(View())
      ensures Finishes(rule) ==>
        var r := Apply(old(View()), Finished(rule, vs));
        ok == r.Some? && (ok ==> View() == r.value)
    {
      ok := true;
      yyval := Value(yyvs, top, stale, rule, vs);
      if Finishes(rule) {
        assert yyvs[top] == vs[top] && yyvs[top + 1 - R2(rule)] == vs[top + 1 - R2(rule)];
        ok := Perform(rule, yyvs[top + 1 - R2(rule)], yyvs[top], vs);
      }
    }

    /** The semantic value: by default that of the first symbol, if there is one. */
    method Value(yyvs: array<string>, top: nat, stale: string, rule: int, ghost vs: seq<string>) returns (yyval: string)
      requires top < yyvs.Length && yyvs[..top + 1] == vs && 1 <= rule <= 13 && 0 <= R2(rule) < |vs|
      ensures yyval == Reduced(rule, vs, stale)
    {
      var yylen := R2(rule);
      assert yylen > 0 ==> yyvs[top + 1 - yylen] == vs[top + 1 - yylen];
      yyval := if rule == 13 then "" else if yylen > 0 then yyvs[top + 1 - yylen] else stale;
    }

    /** One round, unless the parser ends with `r`. */
    method Round(ts: seq<Token>, yyss: array<int>, yyvs: array<string>, top: nat, pos: nat, yychar: int, yylval: string,
                 stale: string, ghost init: Config, ghost vs: seq<string>, ghost now: Moment)
      returns (r: Option<int>, ssp: nat, pos2: nat, yychar2: int, yylval2: string, yyval: string,
               ghost vs2: seq<string>, ghost now2: Moment)
      requires Standing(init, ts, yyss, yyvs, top, vs, now)
      requires pos <= |ts| && Remaining(ts, pos, yychar, yylval, now.rest)
      modifies this, yyss, yyvs
      ensures r.None? ==> Standing(init, ts, yyss, yyvs, ssp, vs2, now2)
      ensures r.None? ==> pos2 <= |ts| && Remaining(ts, pos2, yychar2, yylval2, now2.rest)
      ensures r.None? ==> MovesTo(now, now2) && Nearer(now2, now)
      ensures r.Some? ==> r.value == Outcome(init, ts).1 && (r.value != FAULT ==> View() == Outcome(init, ts).0.value)
      ensures r.Some? ==> Ends(now, r.value)
    {
      r, ssp, yyval, vs2, now2 := None, top, stale, vs, now;
      Concluded(init, ts, View(), now.stack, vs, now.rest);
      var action;
      action, pos2, yychar2, yylval2 := DecideTop(yyss, top, ts, pos, yychar, yylval, now.stack, now.rest);
      match action
      case Accept =>
        r := Some(0);
      case Error =>
        var code := Unwind(yyss, top, now.stack);
        r := Some(code);
      case Shift(to) =>
        yychar2, vs2, now2 := ShiftRound(ts, yyss, yyvs, top, to, pos2, yychar2, yylval2, init, vs, now);
        ssp := top + 1;
      case Reduce(rule) =>
        var ok;
        ssp, yyval, ok, vs2, now2 := ReduceRound(ts, yyss, yyvs, top, stale, rule, init, vs, now);
        if !ok { r := Some(FAULT); }
    }

    /**
     The parser loop: one round per state pushed. It always ends, in a run of the automaton that `trace`
     records, never with more than MAX_DEPTH entries on its stacks, and leaves the tables as the
     statements read so far make them.
     */
    method Yyparse(ts: seq<Token>) returns (r: int, ghost trace: seq<Moment>)
      requires Coded(ts)
      modifies this
      ensures r == Outcome(old(View()), ts).1
      ensures r != FAULT ==> View() == Outcome(old(View()), ts).0.value
      ensures Run(ts, trace) && Ends(Last(trace), r)
      ensures forall i :: 0 <= i < |trace| ==> |trace[i].stack| <= 5
    {
      var yyss := new int[YYINITDEPTH];
      var yyvs := new string[YYINITDEPTH](_ => "");
      var ssp, pos := 0, 0;
      var yychar, yylval, yyval := YYEMPTY, "", "";
      yyss[0] := 0;
      ghost var init, vs := View(), yyvs[..1];
      trace := [Moment([0], ts)];
      StartsOnCourse(init, ts, vs);
      var end: Option<int> := None;
      while end.None?
        invariant Run(ts, trace) && (end.Some? ==> Ends(Last(trace), end.value))
        // so the stacks are never extended
        invariant end.None? ==> Standing(init, ts, yyss, yyvs, ssp, vs, Last(trace))
        invariant end.None? ==> 0 <= pos <= |ts| && Remaining(ts, pos, yychar, yylval, Last(trace).rest)
        invariant end.Some? ==>
          end.value == Outcome(init, ts).1 && (end.value != FAULT ==> View() == Outcome(init, ts).0.value)
        decreases end.None?, |Last(trace).rest|, Rank(TopOf(Last(trace)))
      {
        ghost var now2;
        end, ssp, pos, yychar, yylval, yyval, vs, now2 :=
          Round(ts, yyss, yyvs, ssp, pos, yychar, yylval, yyval, init, vs, Last(trace));
        if end.None? { trace := Onward(ts, trace, now2); }
      }
      r := end.value;
      AllShallow(ts, trace);
    }
  }

  /** From the start of a file the parser returns 0 for exactly the sentences of the grammar, unless it faults. */
  lemma AcceptsTheGrammar(c: Config, ts: seq<Token>)
    ensures Outcome(c, ts).1 == 0 <==> Sentence(Kinds(ts)) && Outcome(c, ts).0.Some?
    ensures Outcome(c, ts).1 == 1 <==> !Sentence(Kinds(ts)) && Outcome(c, ts).0.Some?
  {
    ReadIsGrammar(ts);
  }

  /** It faults on a browscap file that is one assignment. */
  lemma EarlyAssignmentFaults(name: string, value: string)
    ensures Outcome(Config(true, map[], map[], None, []), [Token(258, name), Token(61, "="), Token(258, value)]).1
      == FAULT
  {
    var ts := [Token(258, name), Token(61, "="), Token(258, value)];
    assert ts[1..] == [Token(61, "="), Token(258, value)] && ts[1..][1..] == [Token(258, value)]
      && ts[1..][1..][1..] == [];
    assert Kind(ts[0]) == STRING && Kind(ts[1]) == EQUALS && Kind(ts[2]) == STRING;
    assert ReadValue(name, ts[1..][1..]) == Reading(true, [Assign(name, value)] + []);
    assert Read(ts) == Reading(true, [Assign(name, value)]);
    var ss := [Assign(name, value)];
    FaultsExactly(Config(true, map[], map[], None, []), ts);
    assert Homeless(ss);
  }

  /** It never faults in cfg mode, and in browscap mode exactly when an assignment comes before the first section. */
  lemma FaultsExactly(c: Config, ts: seq<Token>)
    requires c.current.None?
    ensures Outcome(c, ts).1 == FAULT <==> c.browscap && Homeless(Read(ts).done)
  {
    if c.browscap { BrowscapIsSectionwise(c, Read(ts).done); } else { CfgIsLastWriterWins(c, Read(ts).done); }
  }
}
