/**
 Where the loops of a script stand. After the last pass of a `while` the grammar is in
 `while_iterations`: if the keyword that comes next reads as continued, it is taken for one more
 pass, whatever loop it belongs to. Where a `while` stands decides what happens if it is met with
 its keyword continued: directly behind another `while` it is simply read; behind a statement whose
 last token ends a `while` further inside it is read as part of that statement; anywhere else the
 keyword is a syntax error.
 */
module LoopPlaces {
  import opened Script

  /** The statement ends where a `while` does. */
  predicate EndsInWhile(s: Stmt) {
    match s
    case While(_, _, _) => true
    case If(_, thn, NoMore) => BodyEndsInWhile(thn)
    case If(_, _, alts) => AltsEndInWhile(alts)
    case For(_, _, _, _, body) => BodyEndsInWhile(body)
    case _ => false
  }

  predicate BodyEndsInWhile(body: Stmts) {
    body.Seq? && body.tail.Skip? && EndsInWhile(body.head)
  }

  predicate AltsEndInWhile(alts: Alternatives) {
    match alts
    case NoMore => false
    case Else(els) => BodyEndsInWhile(els)
    case ElseIf(_, thn, NoMore) => BodyEndsInWhile(thn)
    case ElseIf(_, _, rest) => AltsEndInWhile(rest)
  }

  /** A `while` further inside the statement would take a continued keyword behind it. */
  predicate TakesNext(s: Stmt) {
    if s.While? then BodyEndsInWhile(s.body) else EndsInWhile(s)
  }

  /** A continued `while` directly behind the statement is read as it stands. */
  predicate Welcomes(s: Stmt) {
    s.While? && !BodyEndsInWhile(s.body)
  }

  /**
   A statement whose last part is a statement without braces takes what that takes, or what stands behind
   it if that is a `while`; no other statement takes anything.
   */
  lemma TakesNextByShape(s: Stmt, c: Expr, d: Expr, thn: Stmts, alts: Alternatives, off: nat, e1: Exprs, e2: Exprs,
                         e3: Exprs)
    ensures TakesNext(If(c, Seq(s, Skip), NoMore)) <==> s.While? || TakesNext(s)
    ensures TakesNext(If(c, thn, Else(Seq(s, Skip)))) <==> s.While? || TakesNext(s)
    ensures TakesNext(If(c, thn, ElseIf(d, Seq(s, Skip), NoMore))) <==> s.While? || TakesNext(s)
    ensures !alts.NoMore? ==> (TakesNext(If(c, thn, ElseIf(d, Seq(s, Skip), alts))) <==> TakesNext(If(c, thn, alts)))
    ensures TakesNext(For(off, e1, e2, e3, Seq(s, Skip))) <==> s.While? || TakesNext(s)
    ensures TakesNext(While(off, c, Seq(s, Skip))) <==> s.While? || TakesNext(s)
  {
    assert EndsInWhile(s) <==> s.While? || TakesNext(s);
    assert BodyEndsInWhile(Seq(s, Skip)) <==> EndsInWhile(s);
    assert AltsEndInWhile(Else(Seq(s, Skip))) <==> BodyEndsInWhile(Seq(s, Skip));
    assert AltsEndInWhile(ElseIf(d, Seq(s, Skip), NoMore)) <==> BodyEndsInWhile(Seq(s, Skip));
    if !alts.NoMore? { assert AltsEndInWhile(ElseIf(d, Seq(s, Skip), alts)) <==> AltsEndInWhile(alts); }
  }

  lemma TakesNothing(s: Stmt)
    requires s.Eval? || s.Block? || s.DoWhile? || s.Switch? || s.Jump? || s.Return? || s.Declare?
      || (s.While? && !(s.body.Seq? && s.body.tail.Skip?)) || (s.For? && !(s.body.Seq? && s.body.tail.Skip?))
      || (s.If? && s.alts.NoMore? && !(s.thn.Seq? && s.thn.tail.Skip?))
      || (s.If? && s.alts.Else? && !(s.alts.els.Seq? && s.alts.els.tail.Skip?))
    ensures !TakesNext(s)
  {
    match s
    case If(_, thn, NoMore) => assert EndsInWhile(s) <==> BodyEndsInWhile(thn);
    case If(_, _, Else(els)) => assert AltsEndInWhile(s.alts) <==> BodyEndsInWhile(els);
    case For(_, _, _, _, body) => assert EndsInWhile(s) <==> BodyEndsInWhile(body);
    case _ =>
  }

  /**
   Behind any other statement than a `while` a loop is barred, and behind one exactly if that takes what follows;
   so it is at the beginning of a list.
   */
  lemma BarredBehind(s: Stmt, off: nat, c: Expr, b: Stmts)
    requires off !in Barred(s, false) && off !in BarredIn(b, false)
    ensures off in BarredIn(Seq(s, Seq(While(off, c, b), Skip)), false) <==> !s.While? || TakesNext(s)
    ensures off in BarredIn(Seq(While(off, c, b), Skip), false)
  {
    var loop := While(off, c, b);
    assert BarredIn(Seq(loop, Skip), Welcomes(s)) == Barred(loop, Welcomes(s)) + BarredIn(Skip, false);
  }

  // ----- loops whose keyword must not be continued when they are met -----

  function Barred(s: Stmt, after: bool): set<nat> {
    match s
    case Eval(_) => {}
    case Block(ss) => BarredIn(ss, false)
    case If(_, thn, alts) => BarredIn(thn, false) + BarredInAlts(alts)
    case While(off, _, body) => (if after then {} else {off}) + BarredIn(body, false)
    case DoWhile(off, body, _) => {off} + BarredIn(body, false)
    case For(off, _, _, _, body) => {off} + BarredIn(body, false)
    case Switch(_, _, cases) => BarredInCases(cases)
    case Jump(_, _) => {}
    case Return(_) => {}
    case Declare(_, body) => BarredIn(body, false)
  }

  /** `after` says that a `while` that welcomes one stands directly in front. */
  function BarredIn(ss: Stmts, after: bool): set<nat> {
    match ss
    case Skip => {}
    case Seq(s, rest) => Barred(s, after) + BarredIn(rest, Welcomes(s))
  }

  function BarredInAlts(alts: Alternatives): set<nat> {
    match alts
    case NoMore => {}
    case Else(els) => BarredIn(els, false)
    case ElseIf(_, thn, rest) => BarredIn(thn, false) + BarredInAlts(rest)
  }

  function BarredInCases(cases: Cases): set<nat> {
    match cases
    case NoCases => {}
    case Case(_, body, rest) => BarredIn(body, false) + BarredInCases(rest)
    case Default(body) => BarredIn(body, false)
  }

  // ----- texts that fit a set of welcome loops -----

  /**
   Every `while` directly behind one that welcomes it is in `h`, no other loop is, and no `while`
   follows a statement that would take it.
   */
  predicate Fits(h: set<nat>, s: Stmt, after: bool) {
    match s
    case Eval(_) => true
    case Block(ss) => AllFit(h, ss, false)
    case If(_, thn, alts) => AllFit(h, thn, false) && AltsFit(h, alts)
    case While(off, _, body) => (off in h <==> after) && AllFit(h, body, false)
    case DoWhile(off, body, _) => off !in h && AllFit(h, body, false)
    case For(off, _, _, _, body) => off !in h && AllFit(h, body, false)
    case Switch(_, _, cases) => CasesFit(h, cases)
    case Jump(_, _) => true
    case Return(_) => true
    case Declare(_, body) => AllFit(h, body, false)
  }

  predicate AllFit(h: set<nat>, ss: Stmts, after: bool) {
    match ss
    case Skip => true
    case Seq(s, rest) =>
      && Fits(h, s, after) && AllFit(h, rest, Welcomes(s))
      && (TakesNext(s) && rest.Seq? ==> !rest.head.While?)
  }

  predicate AltsFit(h: set<nat>, alts: Alternatives) {
    match alts
    case NoMore => true
    case Else(els) => AllFit(h, els, false)
    case ElseIf(_, thn, rest) => AllFit(h, thn, false) && AltsFit(h, rest)
  }

  predicate CasesFit(h: set<nat>, cases: Cases) {
    match cases
    case NoCases => true
    case Case(_, body, rest) => AllFit(h, body, false) && CasesFit(h, rest)
    case Default(body) => AllFit(h, body, false)
  }
}
