/**
 Following an index path into an array variable: missing nodes are created on the way, and the
 topmost of them is tracked so that it can be taken back if nothing is assigned to it.
 Hash tables are maps that remember their next free index.
 */
module ArrayIndex {
  import opened Wrappers

  datatype Key = Index(i: int) | Name(s: string)

  /** What kind of value a node holds; the empty and the undefined string are told apart by their address. */
  datatype Kind = Null | Undefined | Empty | Text(length: nat) | Arr | Scalar

  /** An index expression, with the integer it converts to. */
  datatype Expr = LongExpr(lval: int) | StringExpr(s: string, asLong: int) | OtherExpr(asLong: int)

  class HashTable {
    var entries: map<Key, Pval>
    var nextFree: int

    constructor ()
      ensures entries == map[] && nextFree == 0
    {
      entries, nextFree := map[], 0;
    }
  }

  class Pval {
    var kind: Kind
    var ht: HashTable?

    constructor (kind: Kind, ht: HashTable?)
      ensures this.kind == kind && this.ht == ht
    {
      this.kind, this.ht := kind, ht;
    }
  }

  /** What has to be deleted to take a new variable back. */
  datatype Tracker = Tracker(ht: HashTable, key: Key)

  /** A place in a variable: a node, or a character of the string at a node. */
  datatype Place = Place(node: Pval?, arrayWrite: bool, stringOffset: int)

  /** The key an expression selects, None for an illegal type. */
  function KeyOf(e: Expr): Option<Key> {
    match e
    case LongExpr(l) => Some(Index(l))
    case StringExpr(s, _) => Some(Name(s))
    case OtherExpr(_) => None
  }

  function AsLong(e: Expr): int {
    match e
    case LongExpr(l) => l
    case StringExpr(_, l) => l
    case OtherExpr(l) => l
  }

  datatype Value = Value(kind: Kind, ht: HashTable?)

  /** All tables and nodes with their contents. */
  datatype Image = Image(entries: map<HashTable, map<Key, Pval>>, values: map<Pval, Value>)

  ghost predicate WellFormed(m: Image) {
    && (forall t, k {:trigger m.entries[t][k]} :: t in m.entries && k in m.entries[t] ==> m.entries[t][k] in m.values)
    && (forall p {:trigger m.values[p]} ::
        p in m.values && m.values[p].kind == Arr ==> m.values[p].ht != null && m.values[p].ht in m.entries)
  }

  /** A NULL node `p` entered in table `t`. */
  ghost function Entered(m: Image, t: HashTable, key: Key, p: Pval): Image
    requires t in m.entries
  {
    Image(m.entries[t := m.entries[t][key := p]], m.values[p := Value(Null, null)])
  }

  /** Node `p` made an array, with the table `t`. */
  ghost function Converted(m: Image, p: Pval, t: HashTable): Image {
    Image(m.entries[t := map[]], m.values[p := Value(Arr, t)])
  }

  /** What changes when an element of table `t` is fetched: the node is there, or is made and is the element. */
  ghost predicate Made(m: Image, n: Image, t: HashTable, node: Pval?, made: Option<Tracker>) {
    match made
    case None => n == m && (node != null ==> node in m.values)
    case Some(tracker) =>
      && t in m.entries && tracker.ht == t && tracker.key !in m.entries[t]
      && node != null && node !in m.values && n == Entered(m, t, tracker.key, node)
  }

  /** A key that is not in the table, or none at all. */
  ghost predicate Absent(entries: map<Key, Pval>, expr: Option<Expr>) {
    expr.Some? && KeyOf(expr.value).Some? ==> KeyOf(expr.value).value !in entries
  }

  /** A value that indexing turns into an array. */
  predicate Blank(kind: Kind) {
    kind.Null? || kind.Undefined? || kind.Empty?
  }

  /** A variable that indexing accepts: an array or any string. */
  predicate Indexable(kind: Kind) {
    !kind.Null? && !kind.Scalar?
  }

  /** The character an index selects. */
  predicate InRange(kind: Kind, offset: int, expr: Option<Expr>) {
    kind.Text? && offset == -1 && expr.Some? && 0 <= AsLong(expr.value) < kind.length
  }

  /** What fetching one dimension of a place does. */
  ghost predicate Fetched(m: Image, n: Image, dim: Place, expr: Option<Expr>, r: Place, made: Option<Tracker>) {
    if dim.node == null then n == m && made == None && r.node == null
    else
      && dim.node in m.values && dim.node in n.values
      && var value := m.values[dim.node];
         if Blank(value.kind) then
           var t := n.values[dim.node].ht;
           t != null && t !in m.entries && Made(Converted(m, dim.node, t), n, t, r.node, made)
             && (made.None? ==> r.node == null)
         else if value.kind == Arr then
           && value.ht != null && value.ht in m.entries && Made(m, n, value.ht, r.node, made)
           && r.stringOffset == dim.stringOffset
           && if Absent(m.entries[value.ht], expr) then (made.None? ==> r.node == null)
              else (made.None? && r.node == m.entries[value.ht][KeyOf(expr.value).value])
         else
           && n == m && made == None
           && if InRange(value.kind, dim.stringOffset, expr) then r.node == dim.node
                && r.stringOffset == AsLong(expr.value)
              else r.node == null
  }

  /** What starting on a variable does. */
  ghost predicate Started(m: Image, n: Image, target: HashTable?, key: Key, node: Pval?, made: Option<Tracker>) {
    if target == null then n == m && made == None && node == null
    else
      && target in m.entries
      && if key in m.entries[target] then
           && n == m && made == None
           && var p := m.entries[target][key];
              p in m.values && node == if Indexable(m.values[p].kind) then p else null
         else
           && made == Some(Tracker(target, key)) && node != null && node !in m.values && node in n.values
           && var t := n.values[node].ht;
              t != null && t !in m.entries && n == Converted(Entered(m, target, key, node), node, t)
  }

  /** Whether a path from an old value leads to one that is set. */
  ghost predicate IsSet(m: Image, node: Pval?, offset: int, path: seq<Option<Expr>>)
    requires WellFormed(m)
    decreases |path|
  {
    && node != null && node in m.values
    && var value := m.values[node];
       if path == [] then !value.kind.Undefined?
       else if value.kind.Arr? then
         !Absent(m.entries[value.ht], path[0])
           && IsSet(m, m.entries[value.ht][KeyOf(path[0].value).value], offset, path[1..])
       else InRange(value.kind, offset, path[0]) && IsSet(m, node, AsLong(path[0].value), path[1..])
  }

  /**
   In an array an index goes to the entry under it: a string to the one under that string, an integer to
   the one under that integer. A missing entry, an index of another type, and no index lead nowhere.
   */
  lemma IsSetInArray(m: Image, node: Pval, offset: int, e: Option<Expr>, rest: seq<Option<Expr>>)
    requires WellFormed(m) && node in m.values && m.values[node].kind.Arr?
    ensures var entries, set_ := m.entries[m.values[node].ht], IsSet(m, node, offset, [e] + rest);
      && (e.None? || e.value.OtherExpr? ==> !set_)
      && (e.Some? && e.value.StringExpr? ==>
          (set_ <==> Name(e.value.s) in entries && IsSet(m, entries[Name(e.value.s)], offset, rest)))
      && (e.Some? && e.value.LongExpr? ==>
          (set_ <==> Index(e.value.lval) in entries && IsSet(m, entries[Index(e.value.lval)], offset, rest)))
  {
    assert ([e] + rest)[1..] == rest;
  }

  /** In a string one index goes to a character, if there are so many; a second one leads nowhere. */
  lemma IsSetInString(m: Image, node: Pval, e: Option<Expr>, rest: seq<Option<Expr>>)
    requires WellFormed(m) && node in m.values && m.values[node].kind.Text?
    ensures IsSet(m, node, -1, [e] + rest) <==>
      && rest == [] && e.Some?
      && 0 <= (if e.value.LongExpr? then e.value.lval else e.value.asLong) < m.values[node].kind.length
  {
    assert ([e] + rest)[1..] == rest;
  }

  /** Into other values no index leads, and without an index only an undefined value is not set. */
  lemma IsSetElsewhere(m: Image, node: Pval, offset: int, path: seq<Option<Expr>>)
    requires WellFormed(m) && node in m.values
      && (path == [] || m.values[node].kind in {Null, Undefined, Kind.Empty, Scalar})
    ensures IsSet(m, node, offset, path) <==> path == [] && m.values[node].kind != Undefined
  {
  }

  /** The old value a path runs into that does not stay what it is: one that is blank, or NULL at the end. */
  ghost function Hit(m: Image, node: Pval?, path: seq<Option<Expr>>): Option<Pval>
    requires WellFormed(m)
    decreases |path|
  {
    if node == null || node !in m.values then None
    else
      var value := m.values[node];
      if path == [] then (if value.kind.Null? then Some(node) else None)
      else if Blank(value.kind) then Some(node)
      else if value.kind.Arr? && !Absent(m.entries[value.ht], path[0]) then
        Hit(m, m.entries[value.ht][KeyOf(path[0].value).value], path[1..])
      else None
  }

  /** What is old has stayed as it was, but for the entry tracked and the blank value, now an array. */
  ghost predicate Kept(m: Image, n: Image, made: Option<Tracker>, blank: Option<Pval>) {
    && (forall t {:trigger t in m.entries} :: t in m.entries ==> (
        && t in n.entries
        && if made.Some? && t == made.value.ht
           then made.value.key !in m.entries[t] && n.entries[t] - {made.value.key} == m.entries[t]
           else n.entries[t] == m.entries[t]))
    && (forall p {:trigger p in m.values} ::
        p in m.values ==> p in n.values && (blank == Some(p) || n.values[p] == m.values[p]))
  }

  /**
   The entry tracked is the topmost that is new: it is in a
   table that is old, or in that of the old value made an array.
   */
  ghost predicate Topmost(m: Image, n: Image, made: Tracker, blank: Option<Pval>) {
    && made.ht in n.entries && made.key in n.entries[made.ht] && n.entries[made.ht][made.key] !in m.values
    && match blank
       case None => made.ht in m.entries
       case Some(p) => p in n.values && made.ht == n.values[p].ht && n.entries[made.ht].Keys == {made.key}
  }

  /** The blank value is an array now, whose table is new and holds nothing but what is tracked. */
  ghost predicate MadeArray(m: Image, n: Image, made: Option<Tracker>, p: Pval) {
    && p in m.values && Blank(m.values[p].kind) && p in n.values && n.values[p].kind.Arr?
    && var t := n.values[p].ht;
       t != null && t !in m.entries && t in n.entries && (made.None? ==> n.entries[t] == map[])
  }

  /** What following a path has done; `blank` is the value on it made an array. */
  ghost predicate Followed(m: Image, n: Image, node: Pval?, made: Option<Tracker>, blank: Option<Pval>) {
    && WellFormed(m) && WellFormed(n)
    && Kept(m, n, made, blank)
    && (blank.Some? ==> MadeArray(m, n, made, blank.value) && (made.None? ==> node == null))
    && (made.Some? ==> Topmost(m, n, made.value, blank))
    && (made.None? && blank.None? ==> n == m)
    && (node != null ==> node in n.values)
    && (node != null && made.Some? ==> node !in m.values && Untouched(m, n, node, made.value.ht))
  }

  /** A new node: NULL still, or an array with an empty table of its own. */
  ghost predicate Untouched(m: Image, n: Image, node: Pval, t: HashTable)
    requires node in n.values
  {
    var value := n.values[node];
    || value.kind.Null?
    || (value.kind.Arr? && value.ht != null && value.ht in n.entries && value.ht !in m.entries && value.ht != t
        && n.entries[value.ht] == map[])
  }

  lemma AfterStart(m: Image, n: Image, target: HashTable?, key: Key, node: Pval?, made: Option<Tracker>)
    requires WellFormed(m) && WellFormed(n) && Started(m, n, target, key, node, made)
    ensures Followed(m, n, node, made, None)
  {
  }

  /** The first change on the way: nothing had been made, and no blank value met. */
  lemma FirstChange(m: Image, n: Image, dim: Place, expr: Option<Expr>, r: Place, made: Option<Tracker>)
    requires WellFormed(m) && WellFormed(n) && Fetched(m, n, dim, expr, r, made)
    ensures Followed(m, n, r.node, made, if dim.node != null
                     && Blank(m.values[dim.node].kind) then Some(dim.node) else None)
  {
  }

  /** Later changes stay below the topmost new entry. */
  lemma LaterChange(m: Image, k: Image, n: Image, dim: Place, expr: Option<Expr>, r: Place, first: Tracker,
                    blank: Option<Pval>, made: Option<Tracker>)
    requires Followed(m, k, dim.node, Some(first), blank) && WellFormed(n) && Fetched(k, n, dim, expr, r, made)
    ensures Followed(m, n, r.node, Some(first), blank)
  {
  }

  ghost function Start(m: Image, target: HashTable, key: Key): Pval? {
    if target in m.entries && key in m.entries[target] then m.entries[target][key] else null
  }

  /** The variable is not there or can be indexed. */
  ghost predicate Accepted(m: Image, target: HashTable, key: Key) {
    var p := Start(m, target, key);
    p != null && p in m.values ==> Indexable(m.values[p].kind)
  }

  function First(made: Option<Tracker>, more: Option<Tracker>): Option<Tracker> {
    if made.Some? then made else more
  }

  /** The blank value met so far, given the next node indexed. */
  ghost function Met(k: Image, node: Pval?, made: Option<Tracker>, blank: Option<Pval>): Option<Pval> {
    if made.None? && blank.None? && node != null && node in k.values && Blank(k.values[node].kind) then Some(node)
    else blank
  }

  /**
   What is known on the way: nothing has changed and the rest
   of the path decides, or the path has left the old values.
   */
  ghost predicate Tracking(m: Image, n: Image, start: Pval?, path: seq<Option<Expr>>, dim: Place, made: Option<Tracker>,
                           blank: Option<Pval>, rest: seq<Option<Expr>>) {
    && Followed(m, n, dim.node, made, blank)
    && if made.None? && blank.None? then
         && IsSet(m, start, -1, path) == IsSet(m, dim.node, dim.stringOffset, rest)
         && Hit(m, start, path) == Hit(m, dim.node, rest)
       else !IsSet(m, start, -1, path) && Hit(m, start, path) == blank
  }

  lemma Begun(m: Image, n: Image, target: HashTable, key: Key, r: Place, made: Option<Tracker>, path: seq<Option<Expr>>)
    requires WellFormed(m) && WellFormed(n) && Started(m, n, target, key, r.node, made)
    requires Accepted(m, target, key) && r.stringOffset == -1
    ensures Tracking(m, n, Start(m, target, key), path, r, made, None, path)
    ensures made.None? ==> r.node != null
  {
    AfterStart(m, n, target, key, r.node, made);
  }

  lemma OneDimension(m: Image, k: Image, n: Image, start: Pval?, path: seq<Option<Expr>>, dim: Place, r: Place,
                     made: Option<Tracker>, blank: Option<Pval>, more: Option<Tracker>, rest: seq<Option<Expr>>)
    requires Tracking(m, k, start, path, dim, made, blank, rest) && rest != []
    requires WellFormed(n) && Fetched(k, n, dim, rest[0], r, more)
    ensures Tracking(m, n, start, path, r, First(made, more), Met(k, dim.node, made, blank), rest[1..])
  {
    if made.None? && blank.None? {
      FirstChange(m, n, dim, rest[0], r, more);
    } else if made.Some? {
      LaterChange(m, k, n, dim, rest[0], r, made.value, blank, more);
    }
  }

  /** The end of a path. */
  ghost function Ended(m: Image, node: Pval?): Image {
    if node != null && node in m.values && m.values[node].kind.Null?
    then m.(values := m.values[node := Value(Kind.Empty, m.values[node].ht)]) else m
  }

  lemma EndedWellFormed(m: Image, node: Pval?)
    requires WellFormed(m)
    ensures WellFormed(Ended(m, node))
  {
    var n := Ended(m, node);
    forall u, k | u in n.entries && k in n.entries[u] ensures n.entries[u][k] in n.values {
      assert m.entries[u][k] in m.values;
    }
    forall q | q in n.values && n.values[q].kind == Arr ensures n.values[q].ht != null && n.values[q].ht in n.entries {
      assert m.values[q].ht in m.entries;
    }
  }

  /** What is tracked deleted. */
  ghost function Deleted(m: Image, tracker: Tracker): Image {
    if tracker.ht in m.entries then m.(entries := m.entries[tracker.ht := m.entries[tracker.ht] - {tracker.key}]) else m
  }

  lemma DeletedWellFormed(m: Image, tracker: Tracker)
    requires WellFormed(m)
    ensures WellFormed(Deleted(m, tracker))
  {
    var n := Deleted(m, tracker);
    forall u, k | u in n.entries && k in n.entries[u] ensures n.entries[u][k] in n.values {
      assert m.entries[u][k] in m.values;
    }
    forall q | q in n.values && n.values[q].kind == Arr ensures n.values[q].ht != null && n.values[q].ht in n.entries {
      assert m.values[q].ht in m.entries;
    }
  }

  /** Every table and value of `m` is in `n` as it was. */
  ghost predicate OldKept(m: Image, n: Image) {
    && (forall t {:trigger t in m.entries} :: t in m.entries ==> t in n.entries && n.entries[t] == m.entries[t])
    && (forall p {:trigger p in m.values} :: p in m.values ==> p in n.values && n.values[p] == m.values[p])
  }

  /**
   With the tracked entry deleted the old values are back, unless
   the path has run into one that does not stay what it is.
   */
  lemma TakenBack(m: Image, n: Image, start: Pval?, path: seq<Option<Expr>>, r: Place, made: Option<Tracker>,
                  blank: Option<Pval>)
    requires Tracking(m, n, start, path, r, made, blank, [])
    ensures var ended := Ended(n, r.node);
      && (OldKept(m, if made.Some? then Deleted(ended, made.value) else ended) <==> Hit(m, start, path) == None)
      && (IsSet(m, start, -1, path) <==> made.None? && r.node != null && !ended.values[r.node].kind.Undefined?)
  {
  }

  /**
   `isset($a[0])` where `$a` is the empty string: the answer is no,
   and `$a` does not stay what it is; `isset($a)` does no harm.
   */
  lemma EmptyStringBecomesArray(symbols: HashTable, a: Pval)
    ensures var m := Image(map[symbols := map[Name("a") := a]], map[a := Value(Kind.Empty, null)]);
      && WellFormed(m) && Accepted(m, symbols, Name("a")) && Start(m, symbols, Name("a")) == a
      && !IsSet(m, a, -1, [Some(LongExpr(0))]) && Hit(m, a, [Some(LongExpr(0))]) == Some(a)
      && IsSet(m, a, -1, []) && Hit(m, a, []) == None
  {
  }

  lemma StaysWellFormed(m: Image, t: HashTable, key: Key, p: Pval)
    requires WellFormed(m) && t in m.entries
    ensures WellFormed(Entered(m, t, key, p))
  {
    var n := Entered(m, t, key, p);
    forall u, k | u in n.entries && k in n.entries[u] ensures n.entries[u][k] in n.values {
      if !(u == t && k == key) { assert m.entries[u][k] in m.values; }
    }
    forall q | q in n.values && n.values[q].kind == Arr ensures n.values[q].ht != null && n.values[q].ht in n.entries {
      assert q != p && m.values[q].ht in m.entries;
    }
  }

  lemma ConvertedWellFormed(m: Image, p: Pval, t: HashTable)
    requires WellFormed(m) && p in m.values && t !in m.entries
    ensures WellFormed(Converted(m, p, t))
  {
    var n := Converted(m, p, t);
    forall u, k | u in n.entries && k in n.entries[u] ensures n.entries[u][k] in n.values {
      assert m.entries[u][k] in m.values;
    }
    forall q | q in n.values && n.values[q].kind == Arr ensures n.values[q].ht != null && n.values[q].ht in n.entries {
      if q != p { assert m.values[q].ht in m.entries; }
    }
  }

  class Store {
    const symbols: HashTable
    var trackers: seq<Tracker>    // variable_unassign_stack, its top last
    ghost var tables: set<HashTable>
    ghost var nodes: set<Pval>

    constructor ()
      ensures Valid() && trackers == [] && Now() == Image(map[symbols := map[]], map[])
    {
      symbols := new HashTable();
      trackers := [];
      new;
      tables, nodes := {symbols}, {};
    }

    ghost function Entries(): map<HashTable, map<Key, Pval>>
      reads this`tables, tables`entries
    {
      map t | t in tables :: t.entries
    }

    ghost function Values(): map<Pval, Value>
      reads this`nodes, nodes`kind, nodes`ht
    {
      map p | p in nodes :: Value(p.kind, p.ht)
    }

    ghost function Now(): Image
      reads this, tables, nodes
    {
      Image(Entries(), Values())
    }

    ghost predicate Valid()
      reads this, tables, nodes
    {
      symbols in tables && WellFormed(Now()) && Fresh()
    }

    /** The next free index of a table is beyond all its indices. */
    ghost predicate Fresh()
      reads this, tables
    {
      forall t, i :: t in tables && Index(i) in t.entries ==> i < t.nextFree
    }

    /** Tables and nodes only get more, by new ones. */
    twostate predicate NewOnly()
      reads this
    {
      && old(tables) <= tables && old(nodes) <= nodes
      && (forall t {:trigger t in tables} :: t in tables ==> t in old(tables) || fresh(t))
      && (forall p {:trigger p in nodes} :: p in nodes ==> p in old(nodes) || fresh(p))
    }

    /** A NULL node under `key`: one hash table update. */
    method Enter(t: HashTable, key: Key) returns (p: Pval)
      requires Valid() && t in tables
      modifies this`nodes, t
      ensures Valid() && fresh(p) && Now() == Entered(old(Now()), t, key, p)
      ensures tables == old(tables) && nodes == old(nodes) + {p}
      ensures t.entries == old(t.entries)[key := p]
      ensures t.nextFree == if key.Index? && key.i >= old(t.nextFree) then key.i + 1 else old(t.nextFree)
    {
      p := new Pval(Null, null);
      t.entries := t.entries[key := p];
      if key.Index? && key.i >= t.nextFree { t.nextFree := key.i + 1; }
      nodes := nodes + {p};
      assert Values() == old(Values())[p := Value(Null, null)];
      assert Entries() == old(Entries())[t := t.entries];
      StaysWellFormed(old(Now()), t, key, p);
    }

    /** array_init of a node. */
    method MakeArray(p: Pval)
      requires Valid() && p in nodes
      modifies this`tables, p
      ensures Valid() && p.ht != null && fresh(p.ht) && Now() == Converted(old(Now()), p, p.ht)
      ensures tables == old(tables) + {p.ht} && nodes == old(nodes)
      ensures p.kind == Arr && p.ht.entries == map[] && p.ht.nextFree == 0
    {
      var t := new HashTable();
      p.kind, p.ht := Arr, t;
      tables := tables + {t};
      assert Now() == Converted(old(Now()), p, t);
      ConvertedWellFormed(old(Now()), p, t);
    }

    /** A new node under `key`, tracked if it is the first on the path. */
    method Make(t: HashTable, key: Key, dim: Place) returns (r: Place)
      requires Valid() && t in tables && key !in t.entries
      modifies this`nodes, this`trackers, t
      ensures Valid() && tables == old(tables) && NewOnly()
      ensures Made(old(Now()), Now(), t, r.node, Some(Tracker(t, key)))
      ensures trackers == old(trackers) + if dim.arrayWrite then [] else [Tracker(t, key)]
      ensures r == dim.(node := r.node, arrayWrite := true)
      ensures r.node != null && fresh(r.node) && t.entries == old(t.entries)[key := r.node]
    {
      assert Entries()[t] == t.entries;
      var p := Enter(t, key);
      r := dim.(node := p, arrayWrite := true);
      if !dim.arrayWrite { trackers := trackers + [Tracker(t, key)]; }
    }

    /** The node under `key`, found or made; `made` names the new entry. */
    method Reach(t: HashTable, key: Key, dim: Place) returns (r: Place, ghost made: Option<Tracker>)
      requires Valid() && t in tables
      modifies this`nodes, this`trackers, t
      ensures Valid() && tables == old(tables) && NewOnly()
      ensures Made(old(Now()), Now(), t, r.node, made)
      ensures trackers == old(trackers) + if made.Some? && !dim.arrayWrite then [made.value] else []
      ensures r == dim.(node := r.node, arrayWrite := dim.arrayWrite || made.Some?)
      ensures made == if key in old(t.entries) then None else Some(Tracker(t, key))
      ensures key in old(t.entries) ==> r.node == old(t.entries[key]) && t.entries == old(t.entries)
      ensures key !in old(t.entries) ==> r.node != null && fresh(r.node) && t.entries == old(t.entries)[key := r.node]
    {
      made := None;
      if key in t.entries {
        r := dim.(node := t.entries[key]);
        assert Entries()[t][key] in Values();
      } else {
        r := Make(t, key, dim);
        made := Some(Tracker(t, key));
      }
    }

    /** The part of fetch_array_index for a string that is not empty: a character of it. */
    method FetchOffset(dim: Place, expr: Option<Expr>) returns (r: Place)
      requires dim.node != null && dim.node.kind.Text?
      ensures r.arrayWrite == dim.arrayWrite
      ensures if InRange(dim.node.kind, dim.stringOffset, expr) then r == dim.(stringOffset := AsLong(expr.value))
        else r.node == null
    {
      r := dim.(node := null);
      if dim.stringOffset == -1 && expr.Some? {
        var offset := AsLong(expr.value);
        if 0 <= offset < dim.node.kind.length { r := dim.(stringOffset := offset); }
      }
    }

    /** The part of fetch_array_index for an array: by key, or the next free index. */
    method FetchElement(t: HashTable, dim: Place, expr: Option<Expr>) returns (r: Place, ghost made: Option<Tracker>)
      requires Valid() && t in tables
      modifies this`nodes, this`trackers, t
      ensures Valid() && tables == old(tables) && NewOnly()
      ensures Made(old(Now()), Now(), t, r.node, made)
      ensures trackers == old(trackers) + if made.Some? && !dim.arrayWrite then [made.value] else []
      ensures r == dim.(node := r.node, arrayWrite := dim.arrayWrite || made.Some?)
      ensures if Absent(old(t.entries), expr) then (made.None? ==> r.node == null)
              else (made.None? && r.node == old(t.entries[KeyOf(expr.value).value]))
      ensures
        var key :=
          if expr.None? then Some(Index(old(t.nextFree)))
          else if expr.value.LongExpr? then Some(Index(expr.value.lval))
          else if expr.value.StringExpr? then Some(Name(expr.value.s)) else None;
        if key.None? then made.None? && r.node == null && t.entries == old(t.entries)
        else if key.value in old(t.entries) then made.None? && r.node == old(t.entries)[key.value]
          && t.entries == old(t.entries)
        else
          && made == Some(Tracker(t, key.value)) && r.node != null && fresh(r.node)
          && t.entries == old(t.entries)[key.value := r.node]
    {
      r, made := dim.(node := null), None;
      match expr {
        case Some(e) =>
          match KeyOf(e) {
            case Some(key) => r, made := Reach(t, key, dim);
            case None =>
          }
        case None =>
          r, made := Reach(t, Index(t.nextFree), dim);
      }
    }

    /** The part of fetch_array_index for a value that is an array or is made one. */
    method FetchInArray(dim: Place, expr: Option<Expr>) returns (r: Place, ghost made: Option<Tracker>)
      requires Valid() && dim.node != null && dim.node in nodes && (dim.node.kind.Arr? || Blank(dim.node.kind))
      modifies this`trackers, this`nodes, this`tables, dim.node, tables
      ensures Valid() && Fetched(old(Now()), Now(), dim, expr, r, made)
      ensures NewOnly()
      ensures trackers == old(trackers) + if made.Some? && !dim.arrayWrite then [made.value] else []
      ensures r.arrayWrite == (dim.arrayWrite || made.Some?)
      ensures dim.node.kind.Arr? && dim.node.ht != null &&
        var t := dim.node.ht;
        var was := old(dim.node.kind.Arr? && dim.node.ht != null);
        var before := if was then old(dim.node.ht.entries) else map[];
        var next := if was then old(dim.node.ht.nextFree) else 0;
        var key :=
          if expr.None? then Some(Index(next))
          else if expr.value.LongExpr? then Some(Index(expr.value.lval))
          else if expr.value.StringExpr? then Some(Name(expr.value.s)) else None;
        if key.None? then made.None? && r.node == null && t.entries == before
        else if key.value in before then made.None? && r.node == before[key.value] && t.entries == before
        else
          && made == Some(Tracker(t, key.value)) && r.node != null && fresh(r.node)
          && t.entries == before[key.value := r.node]
    {
      var node := dim.node;
      assert Values()[node] == Value(node.kind, node.ht);
      if Blank(node.kind) { MakeArray(node); }
      ghost var m := Now();
      assert m.values[node].ht == node.ht && m.entries[node.ht] == node.ht.entries;
      r, made := FetchElement(node.ht, dim, expr);
      assert Now().values[node].ht == node.ht;
    }

    /** fetch_array_index: one more dimension. */
    method FetchArrayIndex(dim: Place, expr: Option<Expr>) returns (r: Place, ghost made: Option<Tracker>)
      requires Valid() && (dim.node != null ==> dim.node in nodes)
      modifies this, nodes, tables
      ensures Valid() && Fetched(old(Now()), Now(), dim, expr, r, made)
      ensures NewOnly()
      ensures trackers == old(trackers) + if made.Some? && !dim.arrayWrite then [made.value] else []
      ensures r.arrayWrite == (dim.arrayWrite || made.Some?)
      ensures dim.node != null && old(dim.node.kind) in {Arr, Null, Undefined, Kind.Empty} ==>
        dim.node.kind.Arr? && dim.node.ht != null &&
        var t := dim.node.ht;
        var was := old(dim.node.kind.Arr? && dim.node.ht != null);
        var before := if was then old(dim.node.ht.entries) else map[];
        var next := if was then old(dim.node.ht.nextFree) else 0;
        var key :=
          if expr.None? then Some(Index(next))
          else if expr.value.LongExpr? then Some(Index(expr.value.lval))
          else if expr.value.StringExpr? then Some(Name(expr.value.s)) else None;
        if key.None? then made.None? && r.node == null && t.entries == before
        else if key.value in before then made.None? && r.node == before[key.value] && t.entries == before
        else
          && made == Some(Tracker(t, key.value)) && r.node != null && fresh(r.node)
          && t.entries == before[key.value := r.node]
    {
      r, made := dim, None;
      if dim.node == null { return; }
      var kind := dim.node.kind;
      assert Values()[dim.node].kind == kind;
      if kind.Text? {
        r := FetchOffset(dim, expr);
      } else if kind.Scalar? {
        r := dim.(node := null);
      } else {
        r, made := FetchInArray(dim, expr);
      }
    }

    /** A new variable that is an empty array. */
    method Create(target: HashTable, key: Key) returns (p: Pval)
      requires Valid() && target in tables && key !in target.entries
      modifies this`nodes, this`tables, target
      ensures Valid() && Started(old(Now()), Now(), target, key, p, Some(Tracker(target, key)))
      ensures NewOnly()
    {
      p := Enter(target, key);
      MakeArray(p);
    }

    /** start_array_parsing and start_dimensions_parsing; `target` is null where there is no object. */
    method StartArrayParsing(target: HashTable?, name: string) returns (r: Place, ghost made: Option<Tracker>)
      requires Valid() && (target != null ==> target in tables)
      modifies this`trackers, this`nodes, this`tables, tables
      ensures Valid() && Started(old(Now()), Now(), target, Name(name), r.node, made)
      ensures NewOnly()
      ensures trackers == old(trackers) + if made.Some? then [made.value] else []
      ensures r.node != null ==> r.arrayWrite == made.Some?
      ensures r.stringOffset == -1
      ensures target != null && Name(name) in old(target.entries) ==>
        var p := old(target.entries[Name(name)]);
        made == None && r.node == if p.kind.Arr? || p.kind.Text? || p.kind.Empty? || p.kind.Undefined? then p else null
      ensures target != null && Name(name) !in old(target.entries) ==> made == Some(Tracker(target, Name(name)))
    {
      var write := *;
      r, made := Place(null, write, -1), None;
      if target == null { return; }
      var key := Name(name);
      if key in target.entries {
        var p := target.entries[key];
        assert Entries()[target] == target.entries && Now().entries[target][key] in Now().values;
        assert Values()[p] == Value(p.kind, p.ht);
        r := Place(if Indexable(p.kind) then p else null, false, -1);
      } else {
        var p := Create(target, key);
        r, made := Place(p, true, -1), Some(Tracker(target, key));
        trackers := trackers + [Tracker(target, key)];
      }
    }


    /** end_array_parsing: a node that is still NULL becomes the empty string. */
    method EndArrayParsing(r: Place)
      requires Valid() && (r.node != null ==> r.node in nodes)
      modifies r.node
      ensures Valid() && Now() == Ended(old(Now()), r.node)
    {
      if r.node != null {
        assert Values()[r.node] == Value(r.node.kind, r.node.ht);
        if r.node.kind.Null? { r.node.kind := Kind.Empty; }
        assert Now().values == Ended(old(Now()), r.node).values;
        EndedWellFormed(old(Now()), r.node);
      }
    }

    /** clean_unassigned_variable_top: drop the top tracker, with what it tracks if asked to. */
    method CleanTop(deleteVar: bool)
      requires Valid() && (trackers != [] ==> trackers[|trackers| - 1].ht in tables)
      modifies this`trackers, tables
      ensures Valid() && tables == old(tables) && nodes == old(nodes)
      ensures trackers == if old(trackers) == [] then [] else old(trackers)[..|old(trackers)| - 1]
      ensures Now() == if old(trackers) != []
        && deleteVar then Deleted(old(Now()), old(trackers)[|old(trackers)| - 1]) else old(Now())
    {
      if trackers != [] {
        var top := trackers[|trackers| - 1];
        if deleteVar {
          top.ht.entries := top.ht.entries - {top.key};
          assert Entries() == old(Entries())[top.ht := top.ht.entries];
          DeletedWellFormed(old(Now()), top);
        }
        trackers := trackers[..|trackers| - 1];
      }
    }

    /** One more dimension, seen from the start of the path. */
    method Dimension(dim: Place, expr: Option<Expr>, ghost m: Image, ghost start: Pval?, ghost path: seq<Option<Expr>>,
                     ghost made: Option<Tracker>, ghost blank: Option<Pval>, ghost rest: seq<Option<Expr>>)
      returns (r: Place, ghost made2: Option<Tracker>, ghost blank2: Option<Pval>)
      requires Valid() && Tracking(m, Now(), start, path, dim, made, blank, rest)
      requires rest != [] && rest[0] == expr && dim.arrayWrite == made.Some?
      modifies this, nodes, tables
      ensures Valid() && Tracking(m, Now(), start, path, r, made2, blank2, rest[1..])
      ensures NewOnly()
      ensures made.Some? ==> made2 == made && trackers == old(trackers)
      ensures made.None? ==> trackers == old(trackers) + if made2.Some? then [made2.value] else []
      ensures r.arrayWrite == made2.Some?
    {
      ghost var k, more := Now(), None;
      assert dim.node != null ==> dim.node in Values();
      r, more := FetchArrayIndex(dim, expr);
      OneDimension(m, k, Now(), start, path, dim, r, made, blank, more, rest);
      made2, blank2 := First(made, more), Met(k, dim.node, made, blank);
    }

    /** The dimensions, one after the other as the grammar reads them. */
    method Dimensions(r0: Place, rest: seq<Option<Expr>>, ghost m: Image, ghost start: Pval?,
                      ghost path: seq<Option<Expr>>, ghost made0: Option<Tracker>, ghost blank0: Option<Pval>)
      returns (r: Place, ghost made: Option<Tracker>, ghost blank: Option<Pval>)
      requires Valid() && Tracking(m, Now(), start, path, r0, made0, blank0, rest) && r0.arrayWrite == made0.Some?
      modifies this, nodes, tables
      ensures Valid() && Tracking(m, Now(), start, path, r, made, blank, [])
      ensures NewOnly()
      ensures made0.Some? ==> made == made0 && trackers == old(trackers)
      ensures made0.None? ==> trackers == old(trackers) + if made.Some? then [made.value] else []
      ensures r.arrayWrite == made.Some?
      decreases |rest|
    {
      r, made, blank := r0, made0, blank0;
      if rest != [] {
        r, made, blank := Dimension(r0, rest[0], m, start, path, made0, blank0, rest);
        r, made, blank := Dimensions(r, rest[1..], m, start, path, made, blank);
      }
    }

    /** A variable with its dimensions. */
    method Follow(target: HashTable, name: string, path: seq<Option<Expr>>)
      returns (r: Place, ghost made: Option<Tracker>, ghost blank: Option<Pval>)
      requires Valid() && target in tables && Accepted(Now(), target, Name(name))
      modifies this, nodes, tables
      ensures Valid() && NewOnly()
      ensures Tracking(old(Now()), Now(), Start(old(Now()), target, Name(name)), path, r, made, blank, [])
      ensures trackers == old(trackers) + if made.Some? then [made.value] else []
      ensures r.arrayWrite == made.Some?
    {
      ghost var m, start, made0 := Now(), Start(Now(), target, Name(name)), None;
      r, made0 := FirstPlace(target, name, path);
      r, made, blank := Dimensions(r, path, m, start, path, made0, None);
    }

    /** The variable, where a path starts. */
    method FirstPlace(target: HashTable, name: string, ghost path: seq<Option<Expr>>)
      returns (r: Place, ghost made: Option<Tracker>)
      requires Valid() && target in tables && Accepted(Now(), target, Name(name))
      modifies this`trackers, this`nodes, this`tables, tables
      ensures Valid() && NewOnly()
      ensures Tracking(old(Now()), Now(), Start(old(Now()), target, Name(name)), path, r, made, None, path)
      ensures trackers == old(trackers) + if made.Some? then [made.value] else []
      ensures r.arrayWrite == made.Some?
    {
      ghost var m := Now();
      r, made := StartArrayParsing(target, name);
      Begun(m, Now(), target, Name(name), r, made, path);
    }

    /**
     php3_isset of a variable with dimensions: it answers whether the path leads through old values
     to one that is set. Whatever was made on the way is taken back, and the store is as before
     except that a blank value on the path has become an array.
     */
    method Isset(target: HashTable, name: string, path: seq<Option<Expr>>) returns (set_: bool)
      requires Valid() && target in tables && Accepted(Now(), target, Name(name))
      modifies this, nodes, tables
      ensures Valid() && trackers == old(trackers)
      ensures var m, start := old(Now()), Start(old(Now()), target, Name(name));
        && set_ == IsSet(m, start, -1, path)
        && (OldKept(m, Now()) <==> Hit(m, start, path) == None)
    {
      ghost var m, start := Now(), Start(Now(), target, Name(name));
      var r;
      ghost var made, blank;
      r, made, blank := Follow(target, name, path);
      ghost var n := Now();
      assert r.node != null ==> r.node in Values();
      EndArrayParsing(r);
      assert r.node != null ==> r.node in Values() && Now().values[r.node].kind == r.node.kind;
      set_ := !(r.arrayWrite || r.node == null || r.node.kind.Undefined?);
      TakenBack(m, n, start, path, r, made, blank);
      if r.arrayWrite {
        assert trackers[|trackers| - 1] == made.value && made.value.ht in Entries();
        CleanTop(true);
        assert trackers == old(trackers);
      }
    }
  }
}
