/** The portable alloca of alloca.c: a chain of headers tagged with the stack depth of their allocation. */
module Alloca {

  class Header {
    var next: Header?
    const deep: int          // a stack address
    ghost const owner: nat   // the frame that allocated the block

    constructor (next: Header?, deep: int, ghost owner: nat)
      ensures this.next == next && this.deep == deep && this.owner == owner
    {
      this.next, this.deep, this.owner := next, deep, owner;
    }
  }

  /** A frame of the stack: a name for it, and where a block it allocates is tagged. */
  datatype Frame = Frame(id: nat, address: int)

  /** Whether address `a` is deeper in the stack than `b`. */
  predicate Deeper(dir: int, a: int, b: int) {
    (dir > 0 && a > b) || (dir < 0 && a < b)
  }

  ghost predicate Linked(head: Header?, chain: seq<Header>)
    reads chain
  {
    if chain == [] then head == null
    else head == chain[0] && Linked(chain[0].next, chain[1..])
  }

  /** No header is deeper than one in front of it. */
  ghost predicate Sorted(dir: int, chain: seq<Header>) {
    forall i, j :: 0 <= i < j < |chain| ==> !Deeper(dir, chain[j].deep, chain[i].deep)
  }

  /** The headers deeper than `depth`, wherever they are in the chain. */
  ghost function Garbage(dir: int, chain: seq<Header>, depth: int): seq<Header> {
    if chain == [] then []
    else (if Deeper(dir, chain[0].deep, depth) then [chain[0]] else []) + Garbage(dir, chain[1..], depth)
  }

  /** The others. */
  ghost function Kept(dir: int, chain: seq<Header>, depth: int): seq<Header> {
    if chain == [] then []
    else (if Deeper(dir, chain[0].deep, depth) then [] else [chain[0]]) + Kept(dir, chain[1..], depth)
  }

  lemma {:induction false} NothingDeeper(dir: int, chain: seq<Header>, depth: int)
    requires Sorted(dir, chain) && (chain != [] ==> !Deeper(dir, chain[0].deep, depth))
    ensures Garbage(dir, chain, depth) == [] && Kept(dir, chain, depth) == chain
  {
    if chain != [] {
      assert forall i :: 0 <= i < |chain[1..]| ==> chain[1..][i] == chain[i + 1];
      NothingDeeper(dir, chain[1..], depth);
    }
  }

  /** A deeper header in front is garbage, and what is behind it decides on the rest. */
  lemma OneGarbage(dir: int, chain: seq<Header>, depth: int, freed: seq<Header>)
    requires Sorted(dir, chain) && chain != [] && Deeper(dir, chain[0].deep, depth)
    ensures Sorted(dir, chain[1..]) && Kept(dir, chain, depth) == Kept(dir, chain[1..], depth)
    ensures freed + Garbage(dir, chain, depth) == (freed + [chain[0]]) + Garbage(dir, chain[1..], depth)
  {
    assert forall i :: 0 <= i < |chain[1..]| ==> chain[1..][i] == chain[i + 1];
  }

  lemma {:induction false} KeptContents(dir: int, chain: seq<Header>, depth: int)
    ensures forall h :: h in Kept(dir, chain, depth) <==> h in chain && !Deeper(dir, h.deep, depth)
    ensures forall h :: h in Garbage(dir, chain, depth) <==> h in chain && Deeper(dir, h.deep, depth)
  {
    if chain != [] { KeptContents(dir, chain[1..], depth); }
  }

  lemma Contents(dir: int, chain: seq<Header>, depth: int, freed: seq<Header>, chain2: seq<Header>, freed2: seq<Header>)
    requires chain2 == Kept(dir, chain, depth) && freed2 == freed + Garbage(dir, chain, depth)
    ensures forall h :: h in chain2 <==> h in chain && !Deeper(dir, h.deep, depth)
    ensures forall h :: h in freed2 <==> h in freed || (h in chain && Deeper(dir, h.deep, depth))
  {
    KeptContents(dir, chain, depth);
  }

  class Stack {
    const dir: int
    var lastAllocaHeader: Header?
    ghost var chain: seq<Header>
    ghost var freed: seq<Header>
    ghost var handed: set<Header>    // every block ever handed out
    ghost var frames: seq<Frame>     // the active ones, the innermost last
    ghost var nextId: nat

    /** Active frames are nested: each is deeper than those around it, and named once. */
    ghost predicate Nested()
      reads this
    {
      && (forall i, j :: 0 <= i < j < |frames| ==> Deeper(dir, frames[j].address, frames[i].address))
      && (forall i, j :: 0 <= i < j < |frames| ==> frames[i].id < frames[j].id)
      && (forall i :: 0 <= i < |frames| ==> frames[i].id < nextId)
    }

    /** A block of an active frame is tagged with the frame's address and has not been freed. */
    ghost predicate Safe(h: Header)
      reads this
    {
      forall i :: 0 <= i < |frames| && frames[i].id == h.owner ==>
        h.deep == frames[i].address && h in chain && h !in freed
    }

    ghost predicate Valid()
      reads this, chain
    {
      && dir != 0
      && Linked(lastAllocaHeader, chain) && Sorted(dir, chain)
      && Nested()
      && (forall h :: h in chain ==> h in handed && h !in freed)
      && (forall h :: h in freed ==> h in handed)
      && (forall h :: h in handed ==> h.owner < nextId && Safe(h))
    }

    constructor (dir: int)
      requires dir == 1 || dir == -1
      ensures Valid() && frames == [] && this.dir == dir
    {
      this.dir, lastAllocaHeader := dir, null;
      chain, freed, handed, frames, nextId := [], [], {}, [], 0;
    }

    /** A function is called: its frame is deeper than the active ones. */
    ghost method Enter(address: int)
      requires Valid() && (frames != [] ==> Deeper(dir, address, frames[|frames| - 1].address))
      modifies this`frames, this`nextId
      ensures Valid() && frames == old(frames) + [Frame(old(nextId), address)]
    {
      frames := frames + [Frame(nextId, address)];
      nextId := nextId + 1;
    }

    /** The innermost function returns. */
    ghost method Leave()
      requires Valid() && frames != []
      modifies this`frames
      ensures Valid() && frames == old(frames)[..|old(frames)| - 1]
    {
      frames := frames[..|frames| - 1];
    }

    /** The first loop of alloca: free headers up to the first that is not deeper than the caller. */
    method Reclaim(depth: int)
      requires Linked(lastAllocaHeader, chain) && Sorted(dir, chain)
      modifies this`lastAllocaHeader, this`chain, this`freed
      ensures chain == Kept(dir, old(chain), depth) && Linked(lastAllocaHeader, chain) && Sorted(dir, chain)
      ensures freed == old(freed) + Garbage(dir, old(chain), depth)
    {
      var hp := lastAllocaHeader;
      ghost var rest := chain;
      while hp != null && Deeper(dir, hp.deep, depth)
        invariant Linked(hp, rest) && Sorted(dir, rest) && chain == old(chain)
        invariant Kept(dir, chain, depth) == Kept(dir, rest, depth)
        invariant freed + Garbage(dir, rest, depth) == old(freed) + Garbage(dir, chain, depth)
        decreases |rest|
      {
        var np := hp.next;
        OneGarbage(dir, rest, depth, freed);
        freed := freed + [hp];
        hp := np;
        rest := rest[1..];
      }
      NothingDeeper(dir, rest, depth);
      lastAllocaHeader := hp;
      chain := rest;
    }

    /** The loop as alloca runs it: no active frame loses a block. */
    method Collect(depth: int)
      requires Valid() && frames != [] && depth == frames[|frames| - 1].address
      modifies this`lastAllocaHeader, this`chain, this`freed
      ensures Valid()
      ensures chain == Kept(dir, old(chain), depth) && freed == old(freed) + Garbage(dir, old(chain), depth)
      ensures forall h :: h in chain ==> !Deeper(dir, h.deep, depth)
      ensures forall h :: h in old(chain) ==>
        (h in freed <==> (dir > 0 && h.deep > depth) || (dir < 0 && h.deep < depth))
    {
      ghost var was := chain;
      Reclaim(depth);
      Contents(dir, was, depth, old(freed), chain, freed);
      forall h | h in handed ensures Safe(h) {
        assert old(Safe(h));
      }
    }

    /**
     alloca, called by the innermost function at stack address `depth`: what is freed is exactly the blocks
     tagged deeper than the caller, and so no block of a function that has not returned.
     */
    method Alloca(size: nat, depth: int) returns (p: Header?)
      requires Valid() && frames != [] && depth == frames[|frames| - 1].address
      modifies this`lastAllocaHeader, this`chain, this`freed, this`handed
      ensures Valid()
      ensures freed == old(freed) + Garbage(dir, old(chain), depth)
      ensures chain == (if p == null then [] else [p]) + Kept(dir, old(chain), depth)
      ensures p == null <==> size == 0
      ensures forall h :: h in old(chain) ==>
        (h in freed <==> (dir > 0 && h.deep > depth) || (dir < 0 && h.deep < depth))
      ensures p != null ==> p.deep == depth
      ensures p != null ==> fresh(p) && p.owner == frames[|frames| - 1].id && handed == old(handed) + {p}
      ensures p == null ==> handed == old(handed)
    {
      Collect(depth);
      if size == 0 { return null; }
      p := Add(depth, frames[|frames| - 1].id);
    }

    /** The second part of alloca: a new header in front of the chain. */
    method Add(depth: int, ghost id: nat) returns (p: Header)
      requires Valid() && frames != [] && frames[|frames| - 1] == Frame(id, depth)
      requires forall h :: h in chain ==> !Deeper(dir, h.deep, depth)
      modifies this`lastAllocaHeader, this`chain, this`handed
      ensures Valid() && fresh(p) && p.owner == id && p.deep == depth
      ensures chain == [p] + old(chain) && handed == old(handed) + {p}
    {
      p := new Header(lastAllocaHeader, depth, id);
      assert Linked(lastAllocaHeader, chain);
      lastAllocaHeader := p;
      chain := [p] + chain;
      assert chain[1..] == old(chain);
      handed := handed + {p};
      forall h | h in handed ensures Safe(h) {
        if h != p { assert old(Safe(h)); }
      }
    }
  }
}
