/**
 convert_browscap_pattern: from a browscap section name with wildcards to a regular expression.
 The expression is read as an extended regular expression of POSIX.1-2017 (XBD section 9.4), as
 far as such expressions can arise: ordinary characters, `.`, a quoted character and `*`.
 */
module BrowscapPattern {

  predicate HasWildcard(p: string) {
    '*' in p || '?' in p
  }

  function Expand(c: char): string {
    if c == '?' then "." else if c == '*' then ".*" else if c == '.' then "\\." else [c]
  }

  function ExpandAll(p: string): string {
    if p == "" then "" else Expand(p[0]) + ExpandAll(p[1..])
  }

  /** The specification of the conversion. */
  function Convert(p: string): string {
    if HasWildcard(p) then ExpandAll(p) else p
  }

  function Doubled(p: string): nat {
    if p == "" then 0 else (if p[0] == '*' || p[0] == '.' then 1 else 0) + Doubled(p[1..])
  }

  lemma {:induction false} ExpandAllAppend(p: string, c: char)
    ensures ExpandAll(p + [c]) == ExpandAll(p) + Expand(c)
  {
    if p == "" {
      assert p + [c] == [c] && [c][1..] == "";
    } else {
      assert (p + [c])[1..] == p[1..] + [c];
      ExpandAllAppend(p[1..], c);
    }
  }

  lemma {:induction false} ConvertedLength(p: string)
    ensures |ExpandAll(p)| == |p| + Doubled(p)
    ensures Doubled(p) <= |p|
    ensures Doubled(p) == |p| <==> (forall i :: 0 <= i < |p| ==> p[i] == '*' || p[i] == '.')
  {
    if p != "" {
      var q := p[1..];
      ConvertedLength(q);
      assert (forall i :: 0 <= i < |q| ==> q[i] == '*' || q[i] == '.')
        <==> (forall i :: 1 <= i < |p| ==> p[i] == '*' || p[i] == '.') by {
        assert forall i :: 1 <= i < |p| ==> p[i] == q[i - 1];
        assert forall i :: 0 <= i < |q| ==> q[i] == p[i + 1];
      }
    }
  }

  /** The conversion of one character, written into the buffer from index `j` on. */
  method Put(t: array<char>, j: nat, c: char) returns (k: nat)
    requires j + 1 < t.Length
    modifies t
    ensures k == j + |Expand(c)|
    ensures t[..k] == old(t[..j]) + Expand(c)
  {
    k := j;
    if c == '?' {
      t[k] := '.';
    } else if c == '*' {
      t[k] := '.';
      k := k + 1;
      t[k] := '*';
    } else if c == '.' {
      t[k] := '\\';
      k := k + 1;
      t[k] := '.';
    } else {
      t[k] := c;
    }
    k := k + 1;
  }

  /**
   The conversion as the C code runs it: a scan for a wildcard, then two indices moving through
   the text and through a buffer of twice its length, and a final NUL. The text and its length are
   replaced. `overrun` says that the NUL would be written behind the buffer.
   */
  method ConvertPattern(val: array<char>) returns (t: array<char>, len: nat, overrun: bool)
    ensures len <= t.Length && t[..len] == Convert(val[..])
    ensures !HasWildcard(val[..]) ==> t == val && !overrun
    ensures HasWildcard(val[..]) ==> fresh(t) && t.Length == 2 * val.Length
    ensures HasWildcard(val[..]) ==> (overrun <==> forall i :: 0 <= i < val.Length ==> val[i] == '*' || val[i] == '.')
    ensures HasWildcard(val[..]) && !overrun ==> len < t.Length && t[len] == '\0'
  {
    var i := 0;
    while i < val.Length
      invariant 0 <= i <= val.Length
      invariant forall k :: 0 <= k < i ==> val[k] != '*' && val[k] != '?'
    {
      if val[i] == '*' || val[i] == '?' { break; }
      i := i + 1;
    }
    if i == val.Length {
      return val, val.Length, false;
    }
    assert val[..][i] == '*' || val[..][i] == '?';
    t := new char[val.Length * 2];
    var j := 0;
    i := 0;
    while i < val.Length
      invariant 0 <= i <= val.Length && 0 <= j <= 2 * i
      invariant t[..j] == ExpandAll(val[..i])
    {
      ExpandAllAppend(val[..i], val[i]);
      assert val[..i + 1] == val[..i] + [val[i]];
      j := Put(t, j, val[i]);
      i := i + 1;
    }
    assert val[..val.Length] == val[..];
    len := j;
    TerminatorFits(val[..]);
    assert forall k :: 0 <= k < val.Length ==> val[..][k] == val[k];
    overrun := len == t.Length;
    if !overrun { t[len] := '\0'; }
  }

  /** The terminator written after the text still falls inside the buffer exactly if some character stays single. */
  lemma TerminatorFits(p: string)
    requires HasWildcard(p)
    ensures |Convert(p)| < 2 * |p| <==> exists i :: 0 <= i < |p| && p[i] != '*' && p[i] != '.'
  {
    ConvertedLength(p);
  }

  // ----- what the two notations match -----

  /** For the pattern `*` it does not: the expression fills its two characters. */
  lemma TerminatorOverruns()
    ensures |Convert("*")| == 2 * |"*"|
  {
    TerminatorFits("*");
    ConvertedLength("*");
  }

  /** The pattern as a browscap file means it: `*` any run of characters, `?` any one. */
  predicate Glob(p: string, text: string)
    decreases |p| + |text|
  {
    if p == "" then text == ""
    else if p[0] == '*' then Glob(p[1..], text) || (text != "" && Glob(p, text[1..]))
    else text != "" && (p[0] == '?' || p[0] == text[0]) && Glob(p[1..], text[1..])
  }

  // What patterns match: characters themselves, `*` everything, `?` one character, and one pattern behind another.

  lemma {:induction false} GlobLiteral(p: string, text: string)
    requires '*' !in p && '?' !in p
    ensures Glob(p, text) <==> p == text
    decreases |p|
  {
    if p != "" {
      assert p[0] in p && p == [p[0]] + p[1..];
      if text != "" {
        assert text == [text[0]] + text[1..];
        GlobLiteral(p[1..], text[1..]);
      }
    }
  }

  lemma {:induction false} GlobWildcards(text: string)
    ensures Glob("*", text) && (Glob("?", text) <==> |text| == 1)
    decreases |text|
  {
    assert "*"[1..] == "" && "?"[1..] == "";
    if text != "" { GlobWildcards(text[1..]); }
  }

  lemma GlobConcat(p: string, q: string, text: string)
    ensures Glob(p + q, text) <==> exists k :: 0 <= k <= |text| && Glob(p, text[..k]) && Glob(q, text[k..])
  {
    if Glob(p + q, text) { var k := GlobSplit(p, q, text); }
    forall k | 0 <= k <= |text| && Glob(p, text[..k]) && Glob(q, text[k..]) ensures Glob(p + q, text) {
      GlobJoin(p, q, text, k);
    }
  }

  lemma {:induction false} GlobSplit(p: string, q: string, text: string) returns (k: nat)
    requires Glob(p + q, text)
    ensures k <= |text| && Glob(p, text[..k]) && Glob(q, text[k..])
    decreases |p| + |text|
  {
    if p == "" {
      k := 0;
      assert p + q == q && text[0..] == text;
    } else {
      assert (p + q)[1..] == p[1..] + q;
      if p[0] == '*' && Glob(p[1..] + q, text) {
        k := GlobSplit(p[1..], q, text);
      } else {
        k := GlobSplit(if p[0] == '*' then p else p[1..], q, text[1..]);
        k := k + 1;
        assert text[..k][1..] == text[1..][..k - 1] && text[k..] == text[1..][k - 1..];
      }
    }
  }

  lemma {:induction false} GlobJoin(p: string, q: string, text: string, k: nat)
    requires k <= |text| && Glob(p, text[..k]) && Glob(q, text[k..])
    ensures Glob(p + q, text)
    decreases |p| + k
  {
    if p == "" {
      assert p + q == q && text[k..] == text;
    } else {
      assert (p + q)[1..] == p[1..] + q;
      if p[0] == '*' && Glob(p[1..], text[..k]) {
        GlobJoin(p[1..], q, text, k);
      } else {
        assert text[..k][1..] == text[1..][..k - 1] && text[k..] == text[1..][k - 1..];
        GlobJoin(if p[0] == '*' then p else p[1..], q, text[1..], k - 1);
      }
    }
  }

  datatype Atom = Any | Exactly(c: char)
  datatype Piece = Once(a: Atom) | Many(a: Atom)

  predicate AtomMatches(a: Atom, c: char) {
    a.Any? || a.c == c
  }

  /** One expression split into pieces: an atom, perhaps followed by `*`. */
  function Pieces(r: string): seq<Piece>
    decreases |r|
  {
    if r == "" then []
    else
      var quoted := r[0] == '\\' && |r| > 1;
      var atom := if quoted then Exactly(r[1]) else if r[0] == '.' then Any else Exactly(r[0]);
      var rest := if quoted then r[2..] else r[1..];
      if rest != "" && rest[0] == '*' then [Many(atom)] + Pieces(rest[1..])
      else [Once(atom)] + Pieces(rest)
  }

  predicate Matches(ps: seq<Piece>, text: string)
    decreases |ps| + |text|
  {
    if ps == [] then text == ""
    else if ps[0].Many? then
      Matches(ps[1..], text) || (text != "" && AtomMatches(ps[0].a, text[0]) && Matches(ps, text[1..]))
    else text != "" && AtomMatches(ps[0].a, text[0]) && Matches(ps[1..], text[1..])
  }

  /** No character with a meaning of its own in an extended regular expression, other than those converted. */
  predicate Plain(p: string) {
    forall c :: c in p ==> c !in "^$+()[]{}|\\"
  }

  function PieceOf(c: char): Piece {
    if c == '?' then Once(Any) else if c == '*' then Many(Any) else Once(Exactly(c))
  }

  function PiecesOf(p: string): seq<Piece> {
    if p == "" then [] else [PieceOf(p[0])] + PiecesOf(p[1..])
  }

  /** The converted text is split again at exactly the characters of the pattern. */
  lemma {:induction false} PiecesOfConverted(p: string)
    requires Plain(p)
    ensures Pieces(ExpandAll(p)) == PiecesOf(p)
    ensures ExpandAll(p) != "" ==> ExpandAll(p)[0] != '*'
  {
    if p != "" {
      var rest := ExpandAll(p[1..]);
      PiecesOfConverted(p[1..]);
      var r := Expand(p[0]) + rest;
      assert p[0] in p;
      if p[0] == '*' {
        assert r[1..] == ['*'] + rest && r[1..][1..] == rest;
      } else if p[0] == '.' {
        assert r[2..] == rest;
      } else {
        assert r[1..] == rest;
      }
    }
  }

  lemma {:induction false} GlobIsPieces(p: string, text: string)
    ensures Glob(p, text) <==> Matches(PiecesOf(p), text)
    decreases |p| + |text|
  {
    if p != "" {
      assert PiecesOf(p)[1..] == PiecesOf(p[1..]);
      GlobIsPieces(p[1..], text);
      if text != "" {
        GlobIsPieces(p[1..], text[1..]);
        GlobIsPieces(p, text[1..]);
      }
    }
  }

  /** The conversion preserves meaning, for every pattern and every text. */
  lemma ConvertPreservesMeaning(p: string, text: string)
    requires Plain(p) && HasWildcard(p)
    ensures Glob(p, text) <==> Matches(Pieces(Convert(p)), text)
  {
    PiecesOfConverted(p);
    GlobIsPieces(p, text);
  }

  /** The inverse of the conversion. */
  function Contract(r: string): string
    decreases |r|
  {
    if r == "" then ""
    else if |r| > 1 && r[0] == '\\' then "." + Contract(r[2..])
    else if |r| > 1 && r[0] == '.' && r[1] == '*' then "*" + Contract(r[2..])
    else if r[0] == '.' then "?" + Contract(r[1..])
    else [r[0]] + Contract(r[1..])
  }

  lemma {:induction false} ContractConverted(p: string)
    requires '\\' !in p
    ensures Contract(ExpandAll(p)) == p
    ensures ExpandAll(p) != "" ==> ExpandAll(p)[0] != '*'
  {
    if p != "" {
      assert p == [p[0]] + p[1..];
      ContractConverted(p[1..]);
      var r := ExpandAll(p);
      if p[0] == '*' || p[0] == '.' {
        assert r[2..] == ExpandAll(p[1..]);
      } else {
        assert r[1..] == ExpandAll(p[1..]);
      }
    }
  }

  /** Two different wildcard patterns never become the same expression. */
  lemma ConvertIsInjective(p: string, q: string)
    requires HasWildcard(p) && HasWildcard(q) && '\\' !in p && '\\' !in q && Convert(p) == Convert(q)
    ensures p == q
  {
    ContractConverted(p);
    ContractConverted(q);
  }

  /** Both restrictions are needed: a pattern without wildcards is not converted, and a backslash is not quoted. */
  lemma ConvertCollides()
    ensures Convert("a?b") == Convert("a.b")
    ensures Convert("\\?*") == Convert(".*")
  {
    assert ExpandAll("b") == "b" by { assert "b"[1..] == ""; }
    assert ExpandAll("?b") == ".b" by { assert "?b"[1..] == "b"; }
    assert ExpandAll("a?b") == "a.b" by { assert "a?b"[1..] == "?b"; }
    assert "a?b"[1] == '?';
    assert ExpandAll("*") == ".*" by { assert "*"[1..] == ""; }
    assert ExpandAll("?*") == "..*" by { assert "?*"[1..] == "*"; }
    assert ExpandAll("\\?*") == "\\..*" by { assert "\\?*"[1..] == "?*"; }
    assert ExpandAll(".*") == "\\..*" by { assert ".*"[1..] == "*"; }
    assert "\\?*"[1] == '?' && ".*"[1] == '*';
  }
}
