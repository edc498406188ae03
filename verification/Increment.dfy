/** The `++` operator of operators.c, with its carry loop over a string. */
module Increment {
  datatype CharClass = Lower | Upper | Numeric | Other

  function ClassOf(c: char): CharClass {
    if 'a' <= c <= 'z' then Lower
    else if 'A' <= c <= 'Z' then Upper
    else if '0' <= c <= '9' then Numeric
    else Other
  }

  /** The least character of a class. */
  function Least(k: CharClass): char
    requires k != Other
  {
    match k
    case Lower => 'a'
    case Upper => 'A'
    case Numeric => '0'
  }

  /** How many characters a class has. */
  function Radix(k: CharClass): nat
    requires k != Other
  {
    if k == Numeric then 10 else 26
  }

  predicate Alphanumeric(w: string) {
    forall i :: 0 <= i < |w| ==> ClassOf(w[i]) != Other
  }

  function Rank(c: char): (d: nat)
    requires ClassOf(c) != Other
    ensures d < Radix(ClassOf(c))
  {
    (c - Least(ClassOf(c))) as nat
  }

  predicate AtMax(c: char) {
    ClassOf(c) != Other && Rank(c) == Radix(ClassOf(c)) - 1
  }

  predicate AllMax(w: string) {
    forall i :: 0 <= i < |w| ==> AtMax(w[i])
  }

  function Succ(c: char): (r: char)
    requires ClassOf(c) != Other && !AtMax(c)
    ensures ClassOf(r) == ClassOf(c) && Rank(r) == Rank(c) + 1
  {
    c + 1 as char
  }

  /** The string with a unit carried into its last character. */
  function Bump(s: string): string {
    if s == [] then []
    else
      var rest, c := s[..|s| - 1], s[|s| - 1];
      if ClassOf(c) == Other then s
      else if AtMax(c) then Bump(rest) + [Least(ClassOf(c))]
      else rest + [Succ(c)]
  }

  /** The character a string of maxima grows by. */
  function Lead(c: char): char
    requires ClassOf(c) != Other
  {
    if ClassOf(c) == Numeric then '1' else Least(ClassOf(c))
  }

  function Incremented(s: string): string {
    if s != [] && AllMax(s) then [Lead(s[0])] + Bump(s) else Bump(s)
  }

  // What incrementing means

  /** `v` moved up by one place of a class. */
  function Scaled(k: CharClass, v: nat): nat
    requires k != Other
  {
    if k == Numeric then 10 * v else 26 * v
  }

  /** The number an alphanumeric word stands for, each place counted in the radix of its character. */
  function Value(w: string): nat
    requires Alphanumeric(w)
  {
    if w == [] then 0
    else Scaled(ClassOf(w[|w| - 1]), Value(w[..|w| - 1])) + Rank(w[|w| - 1])
  }

  /** How many words there are with the same classes. */
  function Capacity(w: string): nat
    requires Alphanumeric(w)
  {
    if w == [] then 1 else Scaled(ClassOf(w[|w| - 1]), Capacity(w[..|w| - 1]))
  }

  predicate SameClasses(v: string, w: string) {
    |v| == |w| && forall i :: 0 <= i < |v| ==> ClassOf(v[i]) == ClassOf(w[i])
  }

  lemma Split(rest: string, c: char)
    ensures Alphanumeric(rest + [c]) <==> Alphanumeric(rest) && ClassOf(c) != Other
    ensures AllMax(rest + [c]) <==> AllMax(rest) && AtMax(c)
    ensures (rest + [c])[..|rest|] == rest
    ensures Alphanumeric(rest + [c]) ==>
      && Value(rest + [c]) == Scaled(ClassOf(c), Value(rest)) + Rank(c)
      && Capacity(rest + [c]) == Scaled(ClassOf(c), Capacity(rest))
  {
    var w := rest + [c];
    assert w[..|w| - 1] == rest && w[|w| - 1] == c;
    assert forall i :: 0 <= i < |rest| ==> w[i] == rest[i];
  }

  lemma SameClassesAppend(v: string, b: char, w: string, c: char)
    requires SameClasses(v, w) && ClassOf(b) == ClassOf(c)
    ensures SameClasses(v + [b], w + [c])
  {
  }

  /** The value of a word is below its capacity, and is the last below it exactly if every place is at its maximum. */
  lemma {:induction false} MaxIsLast(w: string)
    requires Alphanumeric(w)
    ensures Value(w) < Capacity(w)
    ensures Value(w) == Capacity(w) - 1 <==> AllMax(w)
  {
    if w != [] {
      var rest, c := w[..|w| - 1], w[|w| - 1];
      assert w == rest + [c];
      Split(rest, c);
      MaxIsLast(rest);
    }
  }

  /** On a word the value rises by one, and wraps to zero past the last; the classes stay. */
  lemma {:induction false} BumpCounts(w: string)
    requires Alphanumeric(w)
    ensures SameClasses(Bump(w), w)
    ensures Alphanumeric(Bump(w))
    ensures Value(Bump(w)) == if AllMax(w) then 0 else Value(w) + 1
  {
    if w != [] {
      var rest, c := w[..|w| - 1], w[|w| - 1];
      assert w == rest + [c];
      Split(rest, c);
      if AtMax(c) {
        BumpCounts(rest);
        Split(Bump(rest), Least(ClassOf(c)));
        SameClassesAppend(Bump(rest), Least(ClassOf(c)), rest, c);
      } else {
        Split(rest, Succ(c));
        SameClassesAppend(rest, Succ(c), rest, c);
      }
    }
  }

  lemma Assoc(a: string, b: string, c: string)
    ensures a + (b + c) == (a + b) + c
  {
  }

  lemma BumpLast(rest: string, c: char)
    ensures Bump(rest + [c]) ==
      if ClassOf(c) == Other then rest + [c]
      else if AtMax(c) then Bump(rest) + [Least(ClassOf(c))]
      else rest + [Succ(c)]
  {
    assert (rest + [c])[..|rest|] == rest;
  }

  /** What one place becomes when a unit is carried into it. */
  function Carried(c: char): char {
    if ClassOf(c) == Other then c else if AtMax(c) then Least(ClassOf(c)) else Succ(c)
  }

  /**
   `t` is `s` carried into at every place from `pos` on, each
   but `pos` being at its maximum; -1 is in front of all.
   */
  predicate CarriedFrom(s: string, t: string, pos: int) {
    && -1 <= pos < |s| == |t|
    && (forall i :: 0 <= i < pos ==> t[i] == s[i])
    && (forall i :: 0 <= i && pos <= i < |s| ==> t[i] == Carried(s[i]))
    && (forall i :: pos < i < |s| ==> AtMax(s[i]))
    && (pos >= 0 ==> !AtMax(s[pos]))
  }

  lemma {:induction false} CarriedIsBump(s: string, t: string, pos: int)
    requires CarriedFrom(s, t, pos)
    ensures t == Bump(s) && (AllMax(s) <==> pos == -1)
    decreases |s|
  {
    if s != [] {
      var rest, c := s[..|s| - 1], s[|s| - 1];
      assert s == rest + [c] && t == t[..|s| - 1] + [t[|s| - 1]];
      BumpLast(rest, c);
      if pos < |s| - 1 {
        CarriedIsBump(rest, t[..|s| - 1], pos);
      } else {
        assert t[..|s| - 1] == rest;
      }
    }
  }

  /** Only the alphanumeric suffix counts: what is in front of it, up to another character, stays. */
  lemma {:induction false} BumpIsLocal(prefix: string, w: string)
    requires Alphanumeric(w) && (prefix == [] || ClassOf(prefix[|prefix| - 1]) == Other)
    ensures Bump(prefix + w) == prefix + Bump(w)
    decreases |w|
  {
    if w == [] {
      assert prefix + w == prefix;
    } else {
      var rest, c := w[..|w| - 1], w[|w| - 1];
      assert w == rest + [c];
      Assoc(prefix, rest, [c]);
      BumpLast(prefix + rest, c);
      BumpLast(rest, c);
      if AtMax(c) {
        BumpIsLocal(prefix, rest);
        Assoc(prefix, Bump(rest), [Least(ClassOf(c))]);
      } else {
        Assoc(prefix, rest, [Succ(c)]);
      }
    }
  }

  /**
   A string incremented: unless each place of its maximal alphanumeric suffix is at its maximum, the value
   of the suffix rises by one. Maxima wrap to minima; if they are the whole string, it grows by
   one leading character.
   */
  lemma IncrementedValue(prefix: string, w: string)
    requires Alphanumeric(w) && (prefix == [] || ClassOf(prefix[|prefix| - 1]) == Other)
    ensures var b := Bump(w);
      && SameClasses(b, w) && Alphanumeric(b)
      && (!AllMax(w) ==> Value(b) == Value(w) + 1)
      && (AllMax(w) ==> Value(b) == 0)
      && Incremented(prefix + w) == (if prefix == [] && w != [] && AllMax(w) then [Lead(w[0])] else prefix) + b
  {
    BumpIsLocal(prefix, w);
    BumpCounts(w);
    MaxIsLast(w);
    if prefix != [] {
      assert (prefix + w)[|prefix| - 1] == prefix[|prefix| - 1];
    }
    assert [] + w == w;
  }

  predicate Uniform(w: string, k: CharClass) {
    forall i :: 0 <= i < |w| ==> ClassOf(w[i]) == k
  }

  lemma {:induction false} ValueCons(c: char, w: string)
    requires ClassOf(c) != Other && Alphanumeric(w) && Rank(c) <= 1
    ensures Alphanumeric([c] + w)
    ensures Value([c] + w) == (if Rank(c) == 0 then 0 else Capacity(w)) + Value(w)
  {
    if w == [] {
      assert [] + [c] == [c] + w;
      Split([], c);
    } else {
      var rest, d := w[..|w| - 1], w[|w| - 1];
      assert w == rest + [d] && [c] + w == ([c] + rest) + [d];
      Split(rest, d);
      ValueCons(c, rest);
      Split([c] + rest, d);
    }
  }

  /** A string of maxima grows to minima behind its leading character: by one if that is a digit, to zero otherwise. */
  lemma GrowthValue(w: string)
    requires Alphanumeric(w) && w != [] && AllMax(w)
    ensures Alphanumeric(Incremented(w)) && |Incremented(w)| == |w| + 1
    ensures Value(Incremented(w)) == if ClassOf(w[0]) == Numeric then Value(w) + 1 else 0
  {
    BumpCounts(w);
    MaxIsLast(w);
    var b := Bump(w);
    ValueCons(Lead(w[0]), b);
    SameCapacity(b, w);
  }

  lemma {:induction false} SameCapacity(v: string, w: string)
    requires SameClasses(v, w) && Alphanumeric(v) && Alphanumeric(w)
    ensures Capacity(v) == Capacity(w)
  {
    if v != [] { SameCapacity(v[..|v| - 1], w[..|w| - 1]); }
  }

  /** All characters are within a range. */
  predicate Within(w: string, first: char, last: char) {
    forall i :: 0 <= i < |w| ==> first <= w[i] <= last
  }

  /** The number a string of digits is. */
  function Decimal(w: string): nat
    requires Within(w, '0', '9')
  {
    if w == [] then 0 else Decimal(w[..|w| - 1]) * 10 + (w[|w| - 1] - '0') as nat
  }

  lemma {:induction false} DecimalValue(w: string)
    requires Within(w, '0', '9')
    ensures Uniform(w, Numeric) && Value(w) == Decimal(w)
  {
    if w != [] { DecimalValue(w[..|w| - 1]); }
  }

  lemma UniformDigits(w: string)
    requires w != [] && Uniform(w, Numeric)
    ensures Within(Incremented(w), '0', '9') && Value(Incremented(w)) == Value(w) + 1
  {
    BumpCounts(w);
    if AllMax(w) { GrowthValue(w); }
  }

  /** On digit strings `++` is the decimal successor. */
  lemma DigitsCount(w: string)
    requires w != [] && Within(w, '0', '9')
    ensures Within(Incremented(w), '0', '9') && Decimal(Incremented(w)) == Decimal(w) + 1
  {
    DecimalValue(w);
    UniformDigits(w);
    DecimalValue(Incremented(w));
  }

  function Power(n: nat): nat {
    if n == 0 then 1 else Power(n - 1) * 26
  }

  function Ones(n: nat): nat {
    if n == 0 then 0 else Ones(n - 1) * 26 + 1
  }

  /** The number a word of letters stands for when its digits are 1 to 26: a, ..., z, aa, ab, ... */
  function Bijective(w: string, first: char): nat
    requires Within(w, first, 'z')
  {
    if w == [] then 0
    else
      var last := w[|w| - 1];
      Bijective(w[..|w| - 1], first) * 26 + (last - first) as nat + 1
  }

  lemma {:induction false} BijectiveValue(w: string, k: CharClass)
    requires Uniform(w, k) && (k == Lower || k == Upper)
    ensures Within(w, Least(k), if k == Lower then 'z' else 'Z')
    ensures Bijective(w, Least(k)) == Value(w) + Ones(|w|) && Capacity(w) == Power(|w|)
    ensures Ones(|w| + 1) == Power(|w|) + Ones(|w|)
  {
    if w != [] { BijectiveValue(w[..|w| - 1], k); }
  }

  lemma BumpUniform(w: string, k: CharClass)
    requires Uniform(w, k) && k != Other
    ensures Uniform(Bump(w), k) && |Bump(w)| == |w|
  {
    BumpCounts(w);
  }

  lemma UniformCounts(w: string, k: CharClass)
    requires w != [] && Uniform(w, k) && (k == Lower || k == Upper)
    ensures Uniform(Incremented(w), k) && Within(Incremented(w), Least(k), if k == Lower then 'z' else 'Z')
    ensures Within(w, Least(k), if k == Lower then 'z' else 'Z')
    ensures Bijective(Incremented(w), Least(k)) == Bijective(w, Least(k)) + 1
  {
    BijectiveValue(w, k);
    if AllMax(w) {
      GrowthValue(w);
      BumpUniform(w, k);
      MaxIsLast(w);
    } else {
      BumpCounts(w);
    }
    BijectiveValue(Incremented(w), k);
  }

  /** On words of letters of one case `++` is the successor in bijective base 26. */
  lemma LettersCount(w: string)
    requires w != []
    ensures Within(w, 'a', 'z') ==>
      Within(Incremented(w), 'a', 'z') && Bijective(Incremented(w), 'a') == Bijective(w, 'a') + 1
    ensures Within(w, 'A', 'Z') ==>
      Within(Incremented(w), 'A', 'Z') && Bijective(Incremented(w), 'A') == Bijective(w, 'A') + 1
  {
    if Within(w, 'a', 'z') { UniformCounts(w, Lower); }
    if Within(w, 'A', 'Z') { UniformCounts(w, Upper); }
  }

  /** Classes mixed, growth by the class in front, and a character of no class stopping the carry. */
  lemma MixedStrings()
    ensures Incremented("Az") == "Ba" && Incremented("Zz9") == "AAa0" && Incremented("9Zz") == "10Aa"
    ensures Incremented("-z9") == "-a0" && Incremented("a8") == "a9" && Incremented("x{") == "x{"
  {
    BumpTwo('A', 'z');
    BumpTwo('a', '8');
    BumpTwo('x', '{');
    BumpThree('Z', 'z', '9');
    BumpThree('9', 'Z', 'z');
    BumpThree('-', 'z', '9');
    assert !AtMax("Az"[0]) && !AtMax("a8"[0]) && !AtMax("x{"[0]) && !AtMax("-z9"[0]);
  }

  lemma BumpTwo(a: char, b: char)
    ensures Bump([a, b]) == if AtMax(b) then [Carried(a), Carried(b)] else [a, Carried(b)]
  {
    BumpOne(a);
    BumpLast([a], b);
    assert [a] + [b] == [a, b];
  }

  lemma BumpOne(a: char)
    ensures Bump([a]) == [Carried(a)]
  {
    assert [a][..0] == [];
  }

  lemma BumpThree(a: char, b: char, c: char)
    ensures Bump([a, b, c]) ==
      if !AtMax(c) then [a, b, Carried(c)] else if !AtMax(b) then [a, Carried(b), Carried(c)]
      else [Carried(a), Carried(b), Carried(c)]
  {
    BumpLast([a, b], c);
    BumpTwo(a, b);
    assert [a, b] + [c] == [a, b, c];
  }

  const LONG_MAX := 0x7fff_ffff_ffff_ffff

  /** A value of the operands' types that `++` knows, and one more for all others. */
  datatype Kind = IsLong | IsDouble | IsString | IsOther

  class Pval {
    var kind: Kind
    var lval: int
    var dval: real
    var str: array<char>   // the characters and a final NUL
    var len: nat

    ghost predicate Valid()
      reads this, str
    {
      kind == IsString ==> str.Length == len + 1 && str[len] == '\0'
    }

    ghost function Text(): string
      reads this, str
      requires Valid() && kind == IsString
    {
      str[..len]
    }

    constructor (text: string)
      ensures Valid() && kind == IsString && Text() == text && fresh(str)
    {
      kind, lval, dval, len := IsString, 0, 0.0, |text|;
      str := new char[|text| + 1](i requires i >= 0 => if i < |text| then text[i] else '\0');
    }

    /** The carry loop, over the characters in place. */
    method CarryLoop() returns (carry: bool, last: CharClass)
      requires Valid() && kind == IsString
      modifies str
      ensures Valid() && Text() == Bump(old(Text()))
      ensures carry <==> old(Text()) != [] && AllMax(old(Text()))
      ensures carry ==> last == ClassOf(old(Text())[0])
    {
      ghost var s := Text();
      var pos := len - 1;
      carry, last := false, Other;
      while pos >= 0
        invariant -1 <= pos < len && Valid() && |s| == len
        invariant forall i :: 0 <= i <= pos ==> str[i] == s[i]
        invariant forall i :: pos < i < len ==> AtMax(s[i]) && str[i] == Carried(s[i])
        invariant carry <==> pos < len - 1
        invariant carry ==> last == ClassOf(s[pos + 1])
        decreases pos
      {
        var c := str[pos];
        last := if ClassOf(c) == Other then last else ClassOf(c);
        carry := AtMax(c);
        if AtMax(c) {
          str[pos] := Least(ClassOf(c));
        } else {
          if ClassOf(c) != Other { str[pos] := Succ(c); }
          break;
        }
        pos := pos - 1;
      }
      CarriedIsBump(s, Text(), pos);
    }

    /** memcpy(t + 1, ...) into a buffer one longer, which replaces the string's own. */
    method Grow(c: char)
      requires Valid() && kind == IsString
      modifies this`str, this`len
      ensures Valid() && fresh(str) && Text() == [c] + old(Text())
    {
      var t := new char[len + 2](_ => '\0');
      var i := 0;
      while i < len
        invariant 0 <= i <= len && str == old(str) && len == old(len)
        invariant t[len + 1] == '\0' && t[1..i + 1] == str[..i]
      {
        t[i + 1] := str[i];
        i := i + 1;
      }
      t[0] := c;
      assert t[..len + 1] == [c] + str[..len];
      str, len := t, len + 1;
    }

    /** increment_string */
    method IncrementString()
      requires Valid() && kind == IsString
      modifies this`str, this`len, str
      ensures Valid() && Text() == Incremented(old(Text()))
    {
      var carry, last := CarryLoop();
      if carry {
        Grow(if last == Numeric then '1' else if last == Upper then 'A' else 'a');
      }
    }

    /** increment_function: the empty string counts as 0, and only the three types have a successor. */
    method Increment() returns (ok: bool)
      requires Valid()
      modifies this, str
      ensures Valid() && (ok <==> old(kind) != IsOther)
      ensures old(kind) == IsLong ==>
        kind == IsLong && lval == if old(lval) == 9223372036854775807 then -9223372036854775808 else old(lval) + 1
      ensures old(kind) == IsDouble ==> kind == IsDouble && dval == old(dval) + 1.0
      ensures old(kind) == IsString && old(len) == 0 ==> kind == IsLong && lval == 1
      ensures old(kind) == IsString && old(len) != 0 ==> kind == IsString && Text() == Incremented(old(Text()))
      ensures old(kind) == IsOther ==> kind == IsOther && lval == old(lval) && dval == old(dval) && str == old(str)
    {
      ok := true;
      match kind {
        case IsLong =>
          lval := if lval == LONG_MAX then -LONG_MAX - 1 else lval + 1;
        case IsDouble =>
          dval := dval + 1.0;
        case IsString =>
          if len == 0 {
            kind, lval := IsLong, 1;
          } else {
            IncrementString();
          }
        case IsOther =>
          ok := false;
      }
    }
  }
}
