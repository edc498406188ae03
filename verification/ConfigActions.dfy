/** What the statements of a configuration file do to the tables being built. */
module ConfigActions {
  import opened Wrappers
  import opened ConfigSyntax
  import BrowscapPattern

  /**
   `browscap` is the parsing mode. In cfg mode the directives go to `table`; in browscap mode
   each section has a table of its own, and `current` names the section being filled.
   */
  datatype Config = Config(
    browscap: bool,
    table: map<string, string>,
    sections: map<string, map<string, string>>,
    current: Option<string>,
    loaded: seq<string>)

  const PATTERN_KEY := "browser_name_pattern"

  function LowerChar(c: char): char {
    if 'A' <= c <= 'Z' then c - 'A' + 'a' else c
  }

  function Lower(s: string): string {
    seq(|s|, i requires 0 <= i < |s| => LowerChar(s[i]))
  }

  function NewSection(title: string): map<string, string> {
    map[PATTERN_KEY := BrowscapPattern.Convert(title)]
  }

  /** None where an assignment in browscap mode finds no section to go to: the source follows a null pointer. */
  function Apply(c: Config, s: Statement): Option<Config> {
    match s
    case Assign(name, value) =>
      if !c.browscap then Some(c.(table := c.table[name := value]))
      else if c.current.None? || c.current.value !in c.sections then None
      else
        var title := c.current.value;
        Some(c.(sections := c.sections[title := c.sections[title][Lower(name) := value]]))
    case Section(title) =>
      if c.browscap then Some(c.(sections := c.sections[title := NewSection(title)], current := Some(title)))
      else Some(c)
    case Load(library) => Some(c.(loaded := c.loaded + [library]))
    case Bare(_) => Some(c)
    case Blank => Some(c)
  }

  function ApplyAll(c: Config, ss: seq<Statement>): Option<Config>
    decreases |ss|
  {
    if ss == [] then Some(c)
    else
      var r := Apply(c, ss[0]);
      if r.None? then None else ApplyAll(r.value, ss[1..])
  }

  lemma {:induction false} ApplyAllAppend(c: Config, a: seq<Statement>, b: seq<Statement>)
    ensures ApplyAll(c, a + b) == (var r := ApplyAll(c, a); if r.None? then None else ApplyAll(r.value, b))
    decreases |a|
  {
    if a == [] {
      assert a + b == b;
    } else {
      assert (a + b)[1..] == a[1..] + b;
      var r := Apply(c, a[0]);
      if r.Some? { ApplyAllAppend(r.value, a[1..], b); }
    }
  }

  predicate Assigns(s: Statement, name: string) {
    s.Assign? && s.name == name
  }

  // ----- cfg mode -----

  /** The last value a file gives to a directive. */
  function LastValue(ss: seq<Statement>, name: string): Option<string> {
    if ss == [] then None
    else if Assigns(ss[|ss| - 1], name) then Some(ss[|ss| - 1].value)
    else LastValue(ss[..|ss| - 1], name)
  }

  lemma {:induction false} LastValueIsLast(ss: seq<Statement>, name: string, i: nat)
    requires i < |ss| && Assigns(ss[i], name)
    requires forall j :: i < j < |ss| ==> !Assigns(ss[j], name)
    ensures LastValue(ss, name) == Some(ss[i].value)
  {
    if i < |ss| - 1 { LastValueIsLast(ss[..|ss| - 1], name, i); }
  }

  /**
   In cfg mode the table ends as the last writer of each
   directive left it; bare names and sections change nothing.
   */
  lemma {:induction false} CfgIsLastWriterWins(c: Config, ss: seq<Statement>)
    requires !c.browscap
    ensures var r := ApplyAll(c, ss);
      && r.Some? && !r.value.browscap
      && r.value.sections == c.sections && r.value.current == c.current
      && (forall name ::
          LastValue(ss, name).Some? ==> name in r.value.table && r.value.table[name] == LastValue(ss, name).value)
      && (forall name ::
          LastValue(ss, name).None? && name in c.table ==>
            name in r.value.table && r.value.table[name] == c.table[name])
      && (forall name :: name in r.value.table ==> name in c.table || LastValue(ss, name).Some?)
    decreases |ss|
  {
    if ss != [] {
      var init, last := ss[..|ss| - 1], ss[|ss| - 1];
      CfgIsLastWriterWins(c, init);
      assert ss == init + [last];
      ApplyAllAppend(c, init, [last]);
      assert [last][1..] == [];
      var mid := ApplyAll(c, init).value;
      assert ApplyAll(mid, [last]) == Apply(mid, last);
    }
  }

  // ----- browscap mode -----

  /** The table of a section that begins with `title` and goes on with statements none of which is a section. */
  function SectionTable(title: string, ss: seq<Statement>): map<string, string> {
    if ss == [] then NewSection(title)
    else
      var last := ss[|ss| - 1];
      var before := SectionTable(title, ss[..|ss| - 1]);
      if last.Assign? then before[Lower(last.name) := last.value] else before
  }

  /** Where the last section begins, if there is one. */
  function LastSection(ss: seq<Statement>): (r: Option<nat>)
    ensures r.Some? ==> r.value < |ss| && ss[r.value].Section?
  {
    if ss == [] then None
    else if ss[|ss| - 1].Section? then Some(|ss| - 1)
    else LastSection(ss[..|ss| - 1])
  }

  /**
   The tables a browscap file describes, read from its end: a
   later section of the same title replaces an earlier one.
   */
  function Described(earlier: map<string, map<string, string>>, ss: seq<Statement>): map<string, map<string, string>>
    decreases |ss|
  {
    var at := LastSection(ss);
    if at.None? then earlier
    else
      var title := ss[at.value].title;
      Described(earlier, ss[..at.value])[title := SectionTable(title, ss[at.value + 1..])]
  }

  /** Does an assignment come before the first section? */
  predicate Homeless(ss: seq<Statement>) {
    exists i :: 0 <= i < |ss| && ss[i].Assign? && forall j :: 0 <= j < i ==> !ss[j].Section?
  }

  lemma {:induction false} NoSection(ss: seq<Statement>)
    requires LastSection(ss).None?
    ensures forall i :: 0 <= i < |ss| ==> !ss[i].Section?
  {
    if ss != [] { NoSection(ss[..|ss| - 1]); }
  }

  lemma {:induction false} LastSectionIsLast(ss: seq<Statement>)
    requires LastSection(ss).Some?
    ensures forall i :: LastSection(ss).value < i < |ss| ==> !ss[i].Section?
  {
    if !ss[|ss| - 1].Section? { LastSectionIsLast(ss[..|ss| - 1]); }
  }

  lemma HomelessPrefix(ss: seq<Statement>)
    requires ss != []
    ensures var init := ss[..|ss| - 1];
      Homeless(ss) <==> Homeless(init) || (ss[|ss| - 1].Assign? && LastSection(init).None?)
  {
    var init, n := ss[..|ss| - 1], |ss| - 1;
    if Homeless(init) {
      var i :| 0 <= i < |init| && init[i].Assign? && forall j :: 0 <= j < i ==> !init[j].Section?;
      assert ss[i].Assign? && forall j :: 0 <= j < i ==> !ss[j].Section?;
    }
    if ss[n].Assign? && LastSection(init).None? {
      NoSection(init);
      assert forall j :: 0 <= j < n ==> ss[j] == init[j];
    }
    if Homeless(ss) {
      var i :| 0 <= i < |ss| && ss[i].Assign? && forall j :: 0 <= j < i ==> !ss[j].Section?;
      if i < n {
        assert init[i].Assign? && forall j :: 0 <= j < i ==> !init[j].Section?;
      } else if LastSection(init).Some? {
        assert ss[LastSection(init).value].Section?;
      }
    }
  }

  /** One more statement at the end of the file. */
  lemma DescribedStep(earlier: map<string, map<string, string>>, init: seq<Statement>, last: Statement)
    ensures LastSection(init + [last]) == (if last.Section? then Some(|init|) else LastSection(init))
    ensures last.Section? ==>
      Described(earlier, init + [last]) == Described(earlier, init)[last.title := NewSection(last.title)]
    ensures !last.Section? && (LastSection(init).None? || !last.Assign?) ==>
      Described(earlier, init + [last]) == Described(earlier, init)
    ensures LastSection(init).Some? ==>
      var title, d := init[LastSection(init).value].title, Described(earlier, init);
      && title in d
      && (last.Assign? ==> Described(earlier, init + [last]) == d[title := d[title][Lower(last.name) := last.value]])
  {
    var ss := init + [last];
    assert ss[..|ss| - 1] == init;
    var at := LastSection(ss);
    if last.Section? {
      assert ss[at.value + 1..] == [];
    } else if at.Some? {
      assert ss[..at.value] == init[..at.value];
      assert ss[at.value + 1..][..|ss| - at.value - 2] == init[at.value + 1..];
    }
  }

  predicate Sectioned(c: Config, ss: seq<Statement>, r: Config) {
    && r.browscap && r.table == c.table
    && r.sections == Described(c.sections, ss)
    && r.current == (var at := LastSection(ss); if at.None? then None else Some(ss[at.value].title))
  }

  lemma SectionedStep(c: Config, init: seq<Statement>, last: Statement, mid: Config)
    requires Sectioned(c, init, mid)
    ensures var r := Apply(mid, last);
      && (r.None? <==> last.Assign? && LastSection(init).None?)
      && (r.Some? ==> Sectioned(c, init + [last], r.value))
  {
    DescribedStep(c.sections, init, last);
    var at := LastSection(init);
    if at.Some? { assert (init + [last])[at.value] == init[at.value]; }
  }

  /**
   In browscap mode, from a parser that has seen no section: the file can be applied exactly if
   no assignment comes before its first section, and then every section has the table its last
   occurrence describes, keys in lower case.
   */
  lemma {:induction false} BrowscapIsSectionwise(c: Config, ss: seq<Statement>)
    requires c.browscap && c.current.None?
    ensures ApplyAll(c, ss).None? <==> Homeless(ss)
    ensures !Homeless(ss) ==> Sectioned(c, ss, ApplyAll(c, ss).value)
    decreases |ss|
  {
    if ss != [] {
      var init, last := ss[..|ss| - 1], ss[|ss| - 1];
      BrowscapIsSectionwise(c, init);
      HomelessPrefix(ss);
      assert ss == init + [last];
      ApplyAllAppend(c, init, [last]);
      if !Homeless(init) {
        var mid := ApplyAll(c, init).value;
        assert ApplyAll(mid, [last]) == Apply(mid, last);
        SectionedStep(c, init, last, mid);
      }
    }
  }
}
