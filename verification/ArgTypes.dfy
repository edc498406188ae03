/**
 The table of passing modes that a function declaration builds in place: byte 0 is the position
 of the last parameter taken by reference, and byte `i` the mode of parameter `i`, from 1.
 Parameters behind the last one by reference have no byte.
 */
module ArgTypes {
  import opened Wrappers

  const BYREF_NONE: Byte := 0
  const BYREF_FORCE: Byte := 1
  const BYREF_ALLOW: Byte := 2

  /** An int stored in an unsigned char. */
  function UChar(n: int): Byte {
    n % 256
  }

  function Zeros(n: nat): seq<Byte> {
    seq(n, _ => 0)
  }

  type Table = t: Option<seq<Byte>> | t.Some? ==> 0 < |t.value| && t.value[0] < |t.value|
    witness None

  /** The modes a table holds. */
  function Kept(table: Table): seq<Byte> {
    if table.Some? then table.value[1..table.value[0] + 1] else []
  }

  /** A table of these modes, then of zeros up to parameter `index`, whose mode is the last. */
  function Extend(kept: seq<Byte>, index: nat, mode: Byte): (bytes: seq<Byte>)
    requires |kept| <= index
    ensures |bytes| == index + 2 && bytes[0] <= index + 1
  {
    [UChar(index + 1)] + kept + Zeros(index - |kept|) + [mode]
  }

  /** The bytes built for a list of parameters; None is the null pointer. */
  function Compact(modes: seq<Byte>): (table: Table)
    ensures |Kept(table)| <= |modes| && (table.Some? ==> |table.value| <= |modes| + 1)
  {
    if modes == [] then None
    else
      var index, mode := |modes| - 1, modes[|modes| - 1];
      var table := Compact(modes[..index]);
      if mode == BYREF_NONE then table else Some(Extend(Kept(table), index, mode))
  }

  /** The mode the table answers for the argument with `before` arguments in front of it. */
  function ModeOf(table: Table, before: nat): Byte {
    ModeAt(table, UChar(UChar(before) + 1))
  }

  /** The byte for a position. */
  function ModeAt(table: Table, offset: Byte): Byte {
    if table.Some? && offset <= table.value[0] then table.value[offset] else BYREF_NONE
  }

  /** The declared mode of an argument; more arguments than parameters are passed by value. */
  function Declared(modes: seq<Byte>, before: nat): Byte {
    if before < |modes| then modes[before] else BYREF_NONE
  }

  /** The parameters beyond the first 255 are taken by value. */
  predicate Fits(modes: seq<Byte>) {
    forall i :: 255 <= i < |modes| ==> modes[i] == BYREF_NONE
  }

  /** As long as they fit, the stored count is that of the parameters up to the last by reference. */
  lemma {:induction false} StoredCount(modes: seq<Byte>)
    requires Fits(modes) && Compact(modes).Some?
    ensures var table := Compact(modes).value;
      0 < table[0] == |table| - 1 && table[0] <= |modes| && table[table[0]] == modes[table[0] - 1] != BYREF_NONE
    ensures forall i :: Compact(modes).value[0] <= i < |modes| ==> modes[i] == BYREF_NONE
  {
    var index := |modes| - 1;
    if modes[index] == BYREF_NONE {
      assert Fits(modes[..index]);
      StoredCount(modes[..index]);
    }
  }

  /** A table with the bytes kept, then zeros, then one more mode. */
  lemma Extended(kept: seq<Byte>, n: nat, mode: Byte, before: nat)
    requires |kept| <= n < 255 && before < 255
    ensures ModeOf(Some(Extend(kept, n, mode)), before) ==
      if before < |kept| then kept[before] else if before == n then mode else BYREF_NONE
  {
    assert UChar(UChar(before) + 1) == before + 1;
  }

  lemma ModeIsKept(table: Table, before: nat)
    requires before < 255
    ensures ModeOf(table, before) == if before < |Kept(table)| then Kept(table)[before] else BYREF_NONE
  {
    assert UChar(UChar(before) + 1) == before + 1;
  }

  lemma OneMoreParameter(rest: seq<Byte>, mode: Byte, before: nat)
    requires |rest| < 255 && before < 255 && mode != BYREF_NONE
    ensures ModeOf(Compact(rest + [mode]), before) ==
      if before == |rest| then mode else ModeOf(Compact(rest), before)
  {
    assert (rest + [mode])[..|rest|] == rest;
    Extended(Kept(Compact(rest)), |rest|, mode, before);
    ModeIsKept(Compact(rest), before);
  }

  lemma {:induction false} FirstArguments(modes: seq<Byte>, before: nat)
    requires Fits(modes) && before < 255
    ensures ModeOf(Compact(modes), before) == Declared(modes, before)
  {
    if modes != [] {
      var index := |modes| - 1;
      var rest := modes[..index];
      assert Fits(rest);
      FirstArguments(rest, before);
      if modes[index] != BYREF_NONE {
        if Compact(rest).Some? { StoredCount(rest); }
        OneMoreParameter(rest, modes[index], before);
        assert rest + [modes[index]] == modes;
      }
    }
  }

  /** The position of the last parameter by reference, 0 if there is none. */
  function LastByReference(modes: seq<Byte>): nat {
    if modes == [] then 0
    else if modes[|modes| - 1] != BYREF_NONE then |modes|
    else LastByReference(modes[..|modes| - 1])
  }

  lemma {:induction false} CountIsLast(modes: seq<Byte>)
    requires Fits(modes)
    ensures LastByReference(modes) == if Compact(modes).Some? then Compact(modes).value[0] else 0
    ensures LastByReference(modes) == 0 <==> forall i :: 0 <= i < |modes| ==> modes[i] == BYREF_NONE
  {
    if modes != [] {
      assert Fits(modes[..|modes| - 1]);
      if modes[|modes| - 1] == BYREF_NONE {
        CountIsLast(modes[..|modes| - 1]);
      } else {
        assert UChar(|modes|) == |modes|;
      }
    }
  }

  /**
   The answer for every argument: its position is counted modulo 256, and where that gives 0 the count
   byte itself is taken for the mode.
   */
  lemma TableAnswers(modes: seq<Byte>, before: nat)
    requires Fits(modes)
    ensures ModeOf(Compact(modes), before) ==
      if before % 256 == 255 then LastByReference(modes) else Declared(modes, before % 256)
  {
    OffsetRepeats(before);
    if before % 256 == 255 { CountIsLast(modes); } else { FirstArguments(modes, before % 256); }
  }

  lemma OffsetRepeats(before: nat)
    ensures UChar(UChar(before) + 1) == UChar(UChar(before % 256) + 1)
    ensures before % 256 == 255 ==> UChar(UChar(before) + 1) == 0
  {
  }

  /**
   For every argument the answer is the declared mode exactly if it is one of the first 255, or its
   position modulo 256 falls behind all parameters by reference or on one taken by value; where it
   gives 0, exactly if there is no parameter by reference.
   */
  lemma TableIsDeclaration(modes: seq<Byte>, before: nat)
    requires Fits(modes)
    ensures ModeOf(Compact(modes), before) == Declared(modes, before) <==>
      || before < 255
      || (if before % 256 == 255 then forall i :: 0 <= i < |modes| ==> modes[i] == BYREF_NONE
          else Declared(modes, before % 256) == BYREF_NONE)
  {
    TableAnswers(modes, before);
    CountIsLast(modes);
    if before < 255 { FirstArguments(modes, before); }
  }

  /** Two calls it fails for: the 256th argument reads the count byte, the 257th the first parameter's mode. */
  lemma LateArguments()
    ensures ModeOf(Compact([BYREF_ALLOW]), 255) == 1 != Declared([BYREF_ALLOW], 255)
    ensures ModeOf(Compact([BYREF_ALLOW]), 256) == BYREF_ALLOW != Declared([BYREF_ALLOW], 256)
  {
    var modes := [BYREF_ALLOW];
    assert Fits(modes) && LastByReference(modes) == 1;
    TableAnswers(modes, 255);
    TableAnswers(modes, 256);
  }

  /** With exactly 256 parameters, the last of them by reference, the count wraps to 0. */
  lemma CountWraps(modes: seq<Byte>, before: nat)
    requires |modes| == 256 && modes[255] != BYREF_NONE && before < 255
    ensures ModeOf(Compact(modes), before) == BYREF_NONE
  {
  }

  /**
   Up to 256 parameters the table is right about the first 255 arguments unless a 256th parameter
   is by reference and an earlier one is as well.
   */
  lemma RightExactlyIf(modes: seq<Byte>)
    requires |modes| <= 256
    ensures (forall before :: 0 <= before < 255 ==> ModeOf(Compact(modes), before) == Declared(modes, before))
      <==> (|modes| == 256 && modes[255] != BYREF_NONE ==> forall i :: 0 <= i < 255 ==> modes[i] == BYREF_NONE)
  {
    forall before | 0 <= before < 255
      ensures if |modes| == 256 && modes[255] != BYREF_NONE then ModeOf(Compact(modes), before) == BYREF_NONE
              else ModeOf(Compact(modes), before) == Declared(modes, before)
    {
      if |modes| == 256 && modes[255] != BYREF_NONE {
        CountWraps(modes, before);
      } else {
        FirstArguments(modes, before);
      }
    }
    if |modes| == 256 && modes[255] != BYREF_NONE && exists i :: 0 <= i < 255 && modes[i] != BYREF_NONE {
      var i :| 0 <= i < 255 && modes[i] != BYREF_NONE;
      CountWraps(modes, i);
    }
  }

  /** From the 257th argument on the answers repeat. */
  lemma ArgumentsWrap(table: Table, before: nat)
    ensures ModeOf(table, before + 256) == ModeOf(table, before)
  {
  }

  /** What the declaration and the call of a function keep of its arguments. */
  class FunctionState {
    var funcArgTypes: array?<Byte>
    var paramIndex: nat
    var functionType: nat          // 0 keeps the call from being executed
    var nextFree: nat              // arguments in the function's symbol table
    ghost var modes: seq<Byte>     // the parameters declared so far

    /** The bytes in use. */
    ghost function Bytes(): Option<seq<Byte>>
      reads this, funcArgTypes
    {
      if funcArgTypes == null then None else Some(funcArgTypes[..])
    }

    ghost predicate Valid()
      reads this, funcArgTypes
    {
      paramIndex == |modes| && Bytes() == Compact(modes)
    }

    constructor ()
      ensures Valid() && modes == [] && nextFree == 0
    {
      funcArgTypes, paramIndex, functionType, nextFree := null, 0, 1, 0;
      modes := [];
    }

    /** ecalloc of the table, or erealloc of it with the new part zeroed up to the last byte. */
    method Enlarge(size: nat) returns (a: array<Byte>)
      requires size >= 2
      requires funcArgTypes != null ==> 0 < funcArgTypes.Length < size && funcArgTypes[0] < funcArgTypes.Length
      ensures fresh(a) && a.Length == size
      ensures funcArgTypes == null ==> forall k :: 0 <= k < size ==> a[k] == 0
      ensures funcArgTypes != null ==> forall k :: 0 <= k < size - 1 ==>
        a[k] == if k <= funcArgTypes[0] then funcArgTypes[k] else 0
    {
      if funcArgTypes == null {
        a := new Byte[size](_ => 0);
      } else {
        a := new Byte[size];
        var i: nat := 0;
        while i < funcArgTypes.Length
          invariant 0 <= i <= funcArgTypes.Length
          invariant forall k :: 0 <= k < i ==> a[k] == funcArgTypes[k]
        {
          a[i] := funcArgTypes[i];
          i := i + 1;
        }
        i := a[0] as int + 1;
        while i < size - 1
          invariant funcArgTypes[0] < i <= size - 1
          invariant forall k :: 0 <= k < i && k < size - 1 ==>
            a[k] == if k <= funcArgTypes[0] then funcArgTypes[k] else 0
        {
          a[i] := 0;
          i := i + 1;
        }
      }
    }

    /** get_function_parameter while the declaration is read: one more parameter. */
    method GetFunctionParameter(mode: Byte)
      requires Valid()
      modifies this`funcArgTypes, this`paramIndex, this`modes
      ensures Valid() && modes == old(modes) + [mode]
    {
      ghost var kept := Kept(Compact(modes));
      if mode != BYREF_NONE {
        var a := Enlarge(paramIndex + 2);
        a[0] := UChar(paramIndex + 1);
        a[paramIndex + 1] := mode;
        funcArgTypes := a;
        assert a[..] == Extend(kept, paramIndex, mode);
      }
      paramIndex := paramIndex + 1;
      modes := modes + [mode];
      assert modes[..|modes| - 1] == old(modes);
    }

    /** pass_parameter: whether the argument goes by reference. */
    method PassParameter(byReference: bool) returns (r: bool)
      requires Valid()
      ensures r <==> byReference || ModeOf(Compact(modes), nextFree) != BYREF_NONE
    {
      r := byReference;
      if funcArgTypes != null {
        var offset := UChar(UChar(nextFree) + 1);
        if offset <= funcArgTypes[0] && funcArgTypes[offset] != BYREF_NONE { r := true; }
      }
    }

    /**
     pass_parameter_by_value: an expression as an argument that
     must be a reference keeps the call from being executed.
     */
    method PassParameterByValue()
      requires Valid()
      modifies this`functionType, this`nextFree
      ensures nextFree == old(nextFree) + 1
      ensures functionType == if ModeOf(Compact(modes), old(nextFree)) == 1 then 0 else old(functionType)
    {
      if funcArgTypes != null {
        var offset := UChar(UChar(nextFree) + 1);
        if offset <= funcArgTypes[0] && funcArgTypes[offset] == BYREF_FORCE { functionType := 0; }
      }
      nextFree := nextFree + 1;
    }
  }
}
