/**
 What a configuration file means, in terms of the scanner's own token codes and of the tables that come
 out: which tokens make which statement, and what each table holds for each key at the end.
 */
module ConfigMeaning {
  import opened Wrappers
  import opened ConfigSyntax
  import opened ConfigActions
  import opened BrowscapPattern

  // ----- tokens: 258 a string, 259 a quoted one, 260 a section, 261 and 262 true and false, 263 `extension` -----

  /** A string before `=`: an assignment, if a value follows; nothing else is read. */
  lemma {:induction false} ReadsAssignment(ts: seq<Token>)
    requires |ts| > 1 && ts[0].code in {258, 259} && ts[1].code == 61
    ensures |ts| > 2 && ts[2].code in {258, 259, 261, 262} ==>
      Read(ts) == Reading(Read(ts[3..]).ok, [Assign(ts[0].text, ts[2].text)] + Read(ts[3..]).done)
    ensures |ts| > 2 && ts[2].code == 10 ==>
      Read(ts) == Reading(Read(ts[3..]).ok, [Assign(ts[0].text, "")] + Read(ts[3..]).done)
    ensures |ts| == 2 || ts[2].code !in {258, 259, 261, 262, 10} ==> Read(ts) == Reading(false, [])
  {
    assert Read(ts) == ReadNamed(ts[0].text, ts[1..]);
    assert ts[1..][0] == ts[1] && ts[1..][1..] == ts[2..];
    assert Read(ts) == ReadValue(ts[0].text, ts[2..]);
    if |ts| > 2 { assert ts[2..][0] == ts[2] && ts[2..][1..] == ts[3..]; }
  }

  /** `extension` before `=`: a library, if a string follows. */
  lemma {:induction false} ReadsExtension(ts: seq<Token>)
    requires |ts| > 1 && ts[0].code == 263 && ts[1].code == 61
    ensures |ts| > 2 && ts[2].code in {258, 259} ==>
      Read(ts) == Reading(Read(ts[3..]).ok, [Load(ts[2].text)] + Read(ts[3..]).done)
    ensures |ts| == 2 || ts[2].code !in {258, 259} ==> Read(ts) == Reading(false, [])
  {
    assert Read(ts) == ReadExtension(ts[1..]);
    assert ts[1..][0] == ts[1] && ts[1..][1..] == ts[2..];
    assert Read(ts) == ReadLibrary(ts[2..]);
    if |ts| > 2 { assert ts[2..][0] == ts[2] && ts[2..][1..] == ts[3..]; }
  }

  /** A string or `extension` with no `=` behind it: a statement of its own, or none. */
  lemma {:induction false} ReadsNoEquals(ts: seq<Token>)
    requires ts != [] && ts[0].code in {258, 259, 263} && (|ts| > 1 ==> ts[1].code != 61)
    ensures ts[0].code != 263 ==> Read(ts) == Reading(Read(ts[1..]).ok, [Bare(ts[0].text)] + Read(ts[1..]).done)
    ensures ts[0].code == 263 ==> Read(ts) == Reading(false, [])
  {
    if |ts| > 1 { assert ts[1..][0].code == ts[1].code; }
  }

  /** Any other beginning: a section, an empty line, or an error. */
  lemma {:induction false} ReadsOneToken(ts: seq<Token>)
    requires ts != [] && ts[0].code !in {258, 259, 263}
    ensures ts[0].code == 260 ==> Read(ts) == Reading(Read(ts[1..]).ok, [Section(ts[0].text)] + Read(ts[1..]).done)
    ensures ts[0].code == 10 ==> Read(ts) == Reading(Read(ts[1..]).ok, [Blank] + Read(ts[1..]).done)
    ensures ts[0].code !in {260, 10} ==> Read(ts) == Reading(false, [])
  {
  }

  lemma NothingToRead()
    ensures Read([]) == Reading(true, [])
  {
  }

  // ----- cfg mode -----

  /** The table ends with the last value given to a directive, under the name as written. */
  lemma {:induction false} LastValueStays(c: Config, ss: seq<Statement>, i: nat)
    requires !c.browscap && i < |ss| && ss[i].Assign?
    requires forall j :: i < j < |ss| && ss[j].Assign? ==> ss[j].name != ss[i].name
    ensures var r := ApplyAll(c, ss);
      r.Some? && ss[i].name in r.value.table && r.value.table[ss[i].name] == ss[i].value
  {
    LastValueIsLast(ss, ss[i].name, i);
    CfgIsLastWriterWins(c, ss);
  }

  /** And a name to which nothing is given is as it was. */
  lemma OthersStay(c: Config, ss: seq<Statement>, name: string)
    requires !c.browscap && forall j :: 0 <= j < |ss| && ss[j].Assign? ==> ss[j].name != name
    ensures var r := ApplyAll(c, ss);
      r.Some? && (name in r.value.table <==> name in c.table)
        && (name in c.table ==> r.value.table[name] == c.table[name])
  {
    NoLastValue(ss, name);
    CfgIsLastWriterWins(c, ss);
  }

  lemma {:induction false} NoLastValue(ss: seq<Statement>, name: string)
    requires forall j :: 0 <= j < |ss| && ss[j].Assign? ==> ss[j].name != name
    ensures LastValue(ss, name) == None
  {
    if ss != [] { NoLastValue(ss[..|ss| - 1], name); }
  }

  // ----- in both modes -----

  /** The extensions a file names. */
  function Libraries(ss: seq<Statement>): seq<string> {
    if ss == [] then [] else (if ss[0].Load? then [ss[0].library] else []) + Libraries(ss[1..])
  }

  /** They are loaded, all of them and in order. */
  lemma {:induction false} LoadedInOrder(c: Config, ss: seq<Statement>)
    requires ApplyAll(c, ss).Some?
    ensures ApplyAll(c, ss).value.loaded == c.loaded + Libraries(ss)
    decreases |ss|
  {
    if ss != [] { LoadedInOrder(Apply(c, ss[0]).value, ss[1..]); }
  }

  // ----- browscap mode -----

  /** Section `i` goes on to statement `j`. */
  predicate GoesTo(ss: seq<Statement>, i: nat, j: nat)
    requires j < |ss|
  {
    i <= j && forall k :: i < k <= j ==> !ss[k].Section?
  }

  /** Statement `i` begins the last section of its title. */
  predicate LastOfTitle(ss: seq<Statement>, i: nat) {
    i < |ss| && ss[i].Section? && forall j :: i < j < |ss| && ss[j].Section? ==> ss[j].title != ss[i].title
  }

  lemma GoesAlike(ss: seq<Statement>, i: nat)
    requires ss != []
    ensures var init := ss[..|ss| - 1];
      forall x: nat :: x < |init| ==> (GoesTo(init, i, x) <==> GoesTo(ss, i, x)) && init[x] == ss[x]
  {
  }

  /** One statement more. */
  lemma LastApplied(c: Config, init: seq<Statement>, last: Statement)
    requires ApplyAll(c, init + [last]).Some?
    ensures ApplyAll(c, init).Some? && Apply(ApplyAll(c, init).value, last) == ApplyAll(c, init + [last])
  {
    ApplyAllAppend(c, init, [last]);
    if ApplyAll(c, init).Some? {
      var mid := ApplyAll(c, init).value;
      assert [last][1..] == [];
      var r := Apply(mid, last);
      if r.Some? { assert ApplyAll(r.value, []) == Some(r.value); }
      assert ApplyAll(mid, [last]) == r;
    }
  }

  /** The section has a table, and is being filled exactly as long as it goes on. */
  lemma {:induction false} BeingFilled(c: Config, ss: seq<Statement>, i: nat)
    requires c.browscap && LastOfTitle(ss, i) && ApplyAll(c, ss).Some?
    ensures var r := ApplyAll(c, ss).value;
      && r.browscap && ss[i].title in r.sections
      && (r.current == Some(ss[i].title) <==> GoesTo(ss, i, |ss| - 1))
  {
    var init, last := ss[..|ss| - 1], ss[|ss| - 1];
    assert ss == init + [last];
    LastApplied(c, init, last);
    ModeStays(c, init);
    if i < |ss| - 1 {
      assert init[i] == ss[i];
      BeingFilled(c, init, i);
      assert GoesTo(ss, i, |ss| - 1) <==> GoesTo(init, i, |init| - 1) && !last.Section?;
    }
  }

  lemma {:induction false} ModeStays(c: Config, ss: seq<Statement>)
    requires ApplyAll(c, ss).Some?
    ensures ApplyAll(c, ss).value.browscap == c.browscap
    decreases |ss|
  {
    if ss != [] { ModeStays(Apply(c, ss[0]).value, ss[1..]); }
  }

  /** What one statement does to the table of a title. */
  lemma TableStep(c: Config, s: Statement, p: string)
    requires c.browscap && p in c.sections && Apply(c, s).Some? && !(s.Section? && s.title == p)
    ensures var r := Apply(c, s).value;
      && p in r.sections
      && r.sections[p] ==
         if s.Assign? && c.current == Some(p) then c.sections[p][Lower(s.name) := s.value] else c.sections[p]
  {
  }

  /**
   What the table of a title holds at the end under key `k`, if nothing in its last section is assigned to `k`
   behind statement `j`: what `j` assigns, or for `j == i`, the section's own beginning, the pattern or nothing.
   */
  lemma {:induction false} SectionEntry(c: Config, ss: seq<Statement>, i: nat, j: nat, k: string)
    requires c.browscap && LastOfTitle(ss, i) && ApplyAll(c, ss).Some?
    requires j < |ss| && GoesTo(ss, i, j) && (j == i || (ss[j].Assign? && Lower(ss[j].name) == k))
    requires forall x: nat :: j < x < |ss| && GoesTo(ss, i, x) && ss[x].Assign? ==> Lower(ss[x].name) != k
    ensures var sections := ApplyAll(c, ss).value.sections;
      && ss[i].title in sections
      && (j > i || k == "browser_name_pattern" ==>
          && k in sections[ss[i].title]
          && sections[ss[i].title][k] == (if j > i then ss[j].value else Convert(ss[i].title)))
      && (j == i && k != "browser_name_pattern" ==> k !in sections[ss[i].title])
  {
    var init, last := ss[..|ss| - 1], ss[|ss| - 1];
    assert ss == init + [last];
    LastApplied(c, init, last);
    ModeStays(c, init);
    BeingFilled(c, ss, i);
    if i < |ss| - 1 {
      assert init[i] == ss[i] && LastOfTitle(init, i);
      BeingFilled(c, init, i);
      assert GoesTo(ss, i, |ss| - 1) <==> GoesTo(init, i, |init| - 1) && !last.Section?;
      TableStep(ApplyAll(c, init).value, last, ss[i].title);
      if j < |ss| - 1 {
        GoesAlike(ss, i);
        SectionEntry(c, init, i, j, k);
      }
    }
  }

  /**
   The pattern of a section is its title, read as a pattern: with wildcards the expression kept matches
   exactly the texts that the title does, and without it is the title.
   */
  lemma SectionPattern(c: Config, ss: seq<Statement>, i: nat, text: string)
    requires c.browscap && LastOfTitle(ss, i) && ApplyAll(c, ss).Some?
    requires forall x: nat :: i < x < |ss| && GoesTo(ss, i, x) && ss[x].Assign? ==>
      Lower(ss[x].name) != "browser_name_pattern"
    ensures var p, sections := ss[i].title, ApplyAll(c, ss).value.sections;
      && p in sections && "browser_name_pattern" in sections[p]
      && ('*' !in p && '?' !in p ==> sections[p]["browser_name_pattern"] == p)
      && (('*' in p || '?' in p) && Plain(p) ==>
          (Matches(Pieces(sections[p]["browser_name_pattern"]), text) <==> Glob(p, text)))
  {
    SectionEntry(c, ss, i, i, "browser_name_pattern");
    if HasWildcard(ss[i].title) && Plain(ss[i].title) { ConvertPreservesMeaning(ss[i].title, text); }
  }

  /** An assignment is found under its name in lower case, unless a later one of the section has the same. */
  lemma FoundInLowerCase(c: Config, ss: seq<Statement>, i: nat, j: nat, k: string)
    requires c.browscap && LastOfTitle(ss, i) && ApplyAll(c, ss).Some?
    requires i < j < |ss| && GoesTo(ss, i, j) && ss[j].Assign?
    requires |k| == |ss[j].name| && forall x :: 0 <= x < |k| ==>
      k[x] as int == ss[j].name[x] as int + if 65 <= ss[j].name[x] as int <= 90 then 32 else 0
    requires forall x: nat :: j < x < |ss| && GoesTo(ss, i, x) && ss[x].Assign? ==> Lower(ss[x].name) != k
    ensures var sections := ApplyAll(c, ss).value.sections;
      ss[i].title in sections && k in sections[ss[i].title] && sections[ss[i].title][k] == ss[j].value
  {
    assert Lower(ss[j].name) == k;
    SectionEntry(c, ss, i, j, k);
  }

  /** A title that no section has keeps the table it had. */
  lemma {:induction false} OtherTitles(c: Config, ss: seq<Statement>, title: string)
    requires c.browscap && ApplyAll(c, ss).Some? && c.current != Some(title)
    requires forall j :: 0 <= j < |ss| && ss[j].Section? ==> ss[j].title != title
    ensures var r := ApplyAll(c, ss).value.sections;
      (title in r <==> title in c.sections) && (title in r ==> r[title] == c.sections[title])
    decreases |ss|
  {
    if ss != [] { OtherTitles(Apply(c, ss[0]).value, ss[1..], title); }
  }
}
