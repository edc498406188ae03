/**
 The request allocator of alloc.c: every block is on a doubly linked list, small blocks that
 are freed stay on it and wait in a cache row of their size, and a counter keeps the bytes of
 all listed blocks. The MEMORY_LIMIT variant is modelled, without DEBUG.
 */
module Allocator {
  import opened Wrappers

  const MAX_CACHED_MEMORY := 64
  const MAX_CACHED_ENTRIES := 16
  const SLACK := 1048576         // how far the limit may be exceeded before the process exits
  const UINT := 0x1_0000_0000    // allocated_memory is an unsigned int
  const INT_MAX := 0x7fff_ffff   // a block's size is an int

  class Header {
    var pNext: Header?
    var pLast: Header?
    var size: int

    constructor (pNext: Header?, pLast: Header?, size: int)
      ensures this.pNext == pNext && this.pLast == pLast && this.size == size
    {
      this.pNext, this.pLast, this.size := pNext, pLast, size;
    }
  }

  ghost predicate Distinct(bs: seq<Header>) {
    forall i, j :: 0 <= i < j < |bs| ==> bs[i] != bs[j]
  }

  ghost function At(bs: seq<Header>, i: int): Header? {
    if 0 <= i < |bs| then bs[i] else null
  }

  /** The blocks form an acyclic list from `head`, linked alike in both directions. */
  ghost predicate Linked(head: Header?, bs: seq<Header>)
    reads bs`pNext, bs`pLast
  {
    && Distinct(bs)
    && head == At(bs, 0)
    && (forall i {:trigger bs[i].pNext} :: 0 <= i < |bs| ==> bs[i].pNext == At(bs, i + 1))
    && (forall i {:trigger bs[i].pLast} :: 0 <= i < |bs| ==> bs[i].pLast == At(bs, i - 1))
  }

  /** The bytes of some blocks. */
  ghost function Total(bs: seq<Header>): int
    reads bs`size
  {
    if bs == [] then 0 else bs[0].size + Total(bs[1..])
  }

  ghost function Without(bs: seq<Header>, k: nat): seq<Header>
    requires k < |bs|
  {
    bs[..k] + bs[k + 1..]
  }

  lemma {:induction false} TotalWithout(bs: seq<Header>, k: nat)
    requires k < |bs|
    ensures Total(bs) == bs[k].size + Total(Without(bs, k))
  {
    if k == 0 {
      assert Without(bs, 0) == bs[1..];
    } else {
      TotalWithout(bs[1..], k - 1);
      assert Without(bs, k)[1..] == Without(bs[1..], k - 1);
    }
  }

  lemma {:induction false} WithoutContents(bs: seq<Header>, k: nat)
    requires k < |bs| && Distinct(bs)
    ensures Distinct(Without(bs, k))
    ensures forall b :: b in Without(bs, k) <==> b in bs && b != bs[k]
    ensures multiset(Without(bs, k)) == multiset(bs) - multiset{bs[k]}
  {
    assert bs == bs[..k] + [bs[k]] + bs[k + 1..];
    forall b | b in bs && b != bs[k] ensures b in Without(bs, k) {
      var i :| 0 <= i < |bs| && bs[i] == b;
      assert Without(bs, k)[if i < k then i else i - 1] == b;
    }
  }

  lemma TotalLeft(bs: seq<Header>, k: nat)
    requires k < |bs| && Distinct(bs) && forall b :: b in bs ==> b.size >= 0
    ensures Total(bs) == bs[k].size + Total(Without(bs, k)) && Total(Without(bs, k)) >= 0 && bs[k].size >= 0
  {
    TotalWithout(bs, k);
    WithoutContents(bs, k);
    TotalNat(Without(bs, k));
  }

  /** No listed block has been given back. */
  ghost predicate NoneFreed(blocks: seq<Header>, freed: seq<Header>) {
    forall b :: b in freed ==> b !in blocks
  }

  ghost predicate Within(a: seq<Header>, b: seq<Header>) {
    forall i :: 0 <= i < |a| ==> a[i] in b
  }

  lemma FreedRemoved(blocks: seq<Header>, freed: seq<Header>, k: nat)
    requires NoneFreed(blocks, freed) && Distinct(blocks) && k < |blocks|
    ensures NoneFreed(Without(blocks, k), freed + [blocks[k]]) && blocks[k] !in freed
  {
    WithoutContents(blocks, k);
  }

  lemma StillListed(blocks: seq<Header>, freed: seq<Header>, k: nat)
    requires NoneFreed(blocks, freed) && Distinct(blocks) && k < |blocks|
    ensures NoneFreed(Without(blocks, k), freed) && blocks[k] !in freed && blocks[k] !in Without(blocks, k)
    ensures Within(Without(blocks, k), blocks)
  {
  }

  type Rows = rows: seq<seq<Header>> | |rows| == MAX_CACHED_MEMORY
    witness seq(MAX_CACHED_MEMORY, _ => [])

  /** The listed blocks are the live ones and the cached ones, and those are in the row of their size. */
  ghost predicate Partition(blocks: seq<Header>, live: set<Header>, rows: Rows)
    reads blocks`size
  {
    && (forall b {:trigger b in live} :: b in live ==> b in blocks)
    && (forall b {:trigger b in blocks} :: b in blocks ==>
        0 <= b.size <= INT_MAX && (b in live || (b.size < MAX_CACHED_MEMORY && b in rows[b.size])))
    && (forall i, b {:trigger b in rows[i]} :: 0 <= i < MAX_CACHED_MEMORY && b in rows[i] ==>
        b in blocks && b !in live && b.size == i)
    && (forall i {:trigger rows[i]} :: 0 <= i < MAX_CACHED_MEMORY ==> Distinct(rows[i]))
  }

  /** No block waits in two places. */
  ghost predicate Apart(rows: Rows) {
    && (forall i {:trigger rows[i]} :: 0 <= i < MAX_CACHED_MEMORY ==> Distinct(rows[i]))
    && (forall i, k, b {:trigger b in rows[i], b in rows[k]} ::
        0 <= i < k < MAX_CACHED_MEMORY && b in rows[i] ==> b !in rows[k])
  }

  lemma TakenFromRow(blocks: seq<Header>, live: set<Header>, rows: Rows, i: nat, row: seq<Header>, p: Header)
    requires Partition(blocks, live, rows) && i < MAX_CACHED_MEMORY && rows[i] == row + [p]
    ensures Partition(blocks, live + {p}, rows[i := row])
    ensures p in blocks && p !in live && p.size == i
  {
    assert forall b :: b in rows[i] <==> b in row || b == p;
    assert rows[i][|row|] == p && p in rows[i];
    assert forall j :: 0 <= j < |row| ==> rows[i][j] == row[j];
    var r: Rows := rows[i := row];
    forall k, b | 0 <= k < MAX_CACHED_MEMORY && b in r[k] ensures b in blocks && b !in live + {p} && b.size == k {
      assert b in rows[k];
    }
  }

  lemma PutInRow(blocks: seq<Header>, live: set<Header>, rows: Rows, p: Header)
    requires Partition(blocks, live, rows) && p in live && p.size < MAX_CACHED_MEMORY
    ensures Partition(blocks, live - {p}, rows[p.size := rows[p.size] + [p]])
  {
    assert p in blocks;
    var r: Rows := rows[p.size := rows[p.size] + [p]];
    assert forall k, b :: 0 <= k < MAX_CACHED_MEMORY ==> (b in r[k] <==> b in rows[k] || (b == p && k == p.size));
    assert p !in rows[p.size];
  }

  lemma BlockAdded(blocks: seq<Header>, live: set<Header>, rows: Rows, p: Header)
    requires Partition(blocks, live, rows) && p !in blocks && 0 <= p.size <= INT_MAX
    ensures Partition([p] + blocks, live + {p}, rows)
  {
  }

  lemma BlockRemoved(blocks: seq<Header>, live: set<Header>, rows: Rows, k: nat)
    requires Partition(blocks, live, rows) && Distinct(blocks) && k < |blocks| && blocks[k] in live
    ensures Partition(Without(blocks, k), live - {blocks[k]}, rows)
  {
    WithoutContents(blocks, k);
  }

  lemma {:induction false} TotalNat(bs: seq<Header>)
    requires forall b :: b in bs ==> b.size >= 0
    ensures Total(bs) >= 0
  {
    if bs != [] { TotalNat(bs[1..]); }
  }

  /** With the links around place `k` made to skip it, the other blocks form the list. */
  lemma Relinked(head: Header?, bs: seq<Header>, k: nat)
    requires k < |bs| && Distinct(bs)
    requires head == if k == 0 then At(bs, 1) else At(bs, 0)
    requires forall i {:trigger bs[i].pNext} ::
      0 <= i < |bs| && i != k ==> bs[i].pNext == At(bs, if i == k - 1 then k + 1 else i + 1)
    requires forall i {:trigger bs[i].pLast} ::
      0 <= i < |bs| && i != k ==> bs[i].pLast == At(bs, if i == k + 1 then k - 1 else i - 1)
    ensures Linked(head, Without(bs, k))
  {
    WithoutContents(bs, k);
    var rest := Without(bs, k);
    forall i | 0 <= i < |rest| ensures rest[i].pNext == At(rest, i + 1) && rest[i].pLast == At(rest, i - 1) {
      var o := if i < k then i else i + 1;
      assert rest[i] == bs[o] && bs[o].pNext == bs[o].pNext && bs[o].pLast == bs[o].pLast;
    }
  }

  class Manager {
    var head: Header?
    const cache: array2<Header?>
    const cacheCount: array<nat>
    var allocatedMemory: nat
    var memoryExhausted: bool
    var shutdownRequested: bool
    const memoryLimit: int
    ghost var blocks: seq<Header>   // the list
    ghost var rows: Rows            // the cache, row by row
    ghost var live: set<Header>     // handed out and not freed
    ghost var freed: seq<Header>    // given back to the system, in this order

    constructor (memoryLimit: int)
      requires memoryLimit + SLACK + INT_MAX < UINT
      ensures this.memoryLimit == memoryLimit && Configured() && fresh(cache) && fresh(cacheCount)
      ensures cache.Length0 == cacheCount.Length == MAX_CACHED_MEMORY && cache.Length1 == MAX_CACHED_ENTRIES
    {
      this.memoryLimit := memoryLimit;
      cache := new Header?[MAX_CACHED_MEMORY, MAX_CACHED_ENTRIES]((_, _) => null);
      cacheCount := new nat[MAX_CACHED_MEMORY](_ => 0);
    }

    /** The tables hold the rows. */
    ghost predicate Tables()
      reads this, cache, cacheCount
    {
      && cache.Length0 == cacheCount.Length == MAX_CACHED_MEMORY && cache.Length1 == MAX_CACHED_ENTRIES
      && (forall i :: 0 <= i < MAX_CACHED_MEMORY ==> cacheCount[i] == |rows[i]| <= MAX_CACHED_ENTRIES)
      && (forall i, j :: 0 <= i < MAX_CACHED_MEMORY && 0 <= j < |rows[i]| ==> cache[i, j] == rows[i][j])
    }

    /** The limit is small enough for an unsigned counter. */
    ghost predicate Configured() {
      memoryLimit + SLACK + INT_MAX < UINT
    }

    /** The counter is the bytes of all listed blocks, live and cached, and within the limit and its slack. */
    ghost predicate Accounts()
      reads this, blocks`size
    {
      && Configured()
      && allocatedMemory == Total(blocks)
      && (blocks != [] ==> allocatedMemory <= memoryLimit + SLACK)
    }

    ghost predicate Valid()
      reads this, cache, cacheCount, blocks
    {
      Linked(head, blocks) && Tables() && Partition(blocks, live, rows) && Accounts() && NoneFreed(blocks, freed)
    }

    /** REMOVE_POINTER_FROM_LIST */
    method Remove(p: Header, ghost k: nat)
      requires Linked(head, blocks) && k < |blocks| && blocks[k] == p
      modifies this`head, this`blocks, blocks`pNext, blocks`pLast
      ensures blocks == old(Without(blocks, k)) && Linked(head, blocks)
    {
      assert p == head <==> k == 0;
      if p == head {
        head := p.pNext;
      } else {
        p.pLast.pNext := p.pNext;
      }
      if p.pNext != null {
        p.pNext.pLast := p.pLast;
      }
      ghost var was := blocks;
      blocks := Without(blocks, k);
      Relinked(head, was, k);
    }

    /** Put a block in front of the list. */
    method Push(p: Header)
      requires Linked(head, blocks) && p !in blocks
      modifies this`head, this`blocks, blocks`pLast, p`pNext, p`pLast
      ensures blocks == [p] + old(blocks) && Linked(head, blocks)
    {
      p.pNext := head;
      if head != null {
        head.pLast := p;
      }
      p.pLast := null;
      head := p;
      blocks := [p] + blocks;
    }

    /** _CHECK_MEMORY_LIMIT: account for `s` more bytes; not `ok` if the process exits. */
    method CheckMemoryLimit(s: int) returns (ok: bool)
      modifies this`allocatedMemory, this`memoryExhausted
      ensures allocatedMemory == (old(allocatedMemory) + s) % UINT
      ensures ok <==> memoryLimit >= allocatedMemory || allocatedMemory <= memoryLimit + SLACK
      ensures ok ==> memoryExhausted == (old(memoryExhausted) || (allocatedMemory > memoryLimit && !shutdownRequested))
    {
      allocatedMemory := (allocatedMemory + s) % UINT;
      ok := true;
      if memoryLimit < allocatedMemory {
        if allocatedMemory > memoryLimit + SLACK {
          ok := false;
        } else if !memoryExhausted && !shutdownRequested {
          memoryExhausted := true;
        }
      }
    }

    /** The part of _emalloc that reuses the block cached last in the row. */
    method FromCache(size: nat) returns (p: Header)
      requires Valid() && size < MAX_CACHED_MEMORY && cacheCount[size] > 0
      modifies this`live, this`rows, cacheCount
      ensures Valid()
      ensures old(rows[size]) == rows[size] + [p] && rows == old(rows)[size := rows[size]]
      ensures p.size == size && p !in old(live) && live == old(live) + {p}
    {
      cacheCount[size] := cacheCount[size] - 1;
      p := cache[size, cacheCount[size]];
      ghost var row := rows[size][..cacheCount[size]];
      assert rows[size] == row + [p];
      TakenFromRow(blocks, live, rows, size, row, p);
      rows := rows[size := row];
      live := live + {p};
    }

    /** The block goes in front of the list and is accounted for, `p.size` becoming `size` (_emalloc and _erealloc). */
    method Enlist(p: Header, size: nat) returns (ok: bool)
      requires Linked(head, blocks) && p !in blocks && size <= INT_MAX && Configured()
      requires 0 <= p.size && allocatedMemory == Total(blocks) + p.size && 0 <= Total(blocks)
      requires allocatedMemory <= memoryLimit + SLACK || allocatedMemory == 0
      modifies this`head, this`blocks, this`allocatedMemory, this`memoryExhausted, blocks`pLast, p
      ensures ok <==> old(allocatedMemory - p.size) + size <= memoryLimit + SLACK
      ensures ok ==> blocks == [p] + old(blocks) && p.size == size && Linked(head, blocks) && Accounts()
      ensures ok ==> allocatedMemory == old(allocatedMemory - p.size) + size <= memoryLimit + SLACK
      ensures ok ==> memoryExhausted == (old(memoryExhausted) || (allocatedMemory > memoryLimit && !shutdownRequested))
    {
      ghost var rest := blocks;
      Push(p);
      ok := CheckMemoryLimit(size - p.size);
      if ok {
        p.size := size;
        assert blocks[1..] == rest && Total(blocks) == size + Total(rest);
      }
    }

    /** The part of _emalloc that asks the system for a block. */
    method FromSystem(size: nat) returns (p: Header?)
      requires Valid() && size <= INT_MAX
      modifies this`head, this`blocks, this`live, this`allocatedMemory, this`memoryExhausted, blocks`pLast
      ensures p == null <==> old(allocatedMemory) + size > memoryLimit + SLACK
      ensures p != null ==>
        && Valid() && fresh(p) && p.size == size
        && blocks == [p] + old(blocks) && live == old(live) + {p}
        && allocatedMemory == old(allocatedMemory) + size <= memoryLimit + SLACK
        && memoryExhausted == (old(memoryExhausted) || (allocatedMemory > memoryLimit && !shutdownRequested))
    {
      var b := new Header(null, null, 0);
      TotalNat(blocks);
      var ok := Enlist(b, size);
      if !ok { return null; }
      BlockAdded(old(blocks), live, rows, b);
      live := live + {b};
      p := b;
    }

    /** The block leaves the list and the accounts. */
    method Delist(p: Header, ghost k: nat)
      requires Linked(head, blocks) && k < |blocks| && blocks[k] == p
      requires Accounts() && forall b :: b in blocks ==> b.size >= 0
      modifies this`head, this`blocks, this`allocatedMemory, blocks`pNext, blocks`pLast
      ensures blocks == old(Without(blocks, k)) && Linked(head, blocks) && Accounts()
      ensures allocatedMemory == old(allocatedMemory) - p.size
    {
      TotalLeft(blocks, k);
      Remove(p, k);
      allocatedMemory := (allocatedMemory - p.size) % UINT;
    }

    /** The part of _efree that gives the block back to the system. */
    method ToSystem(p: Header) returns (ghost k: nat)
      requires Valid() && p in live
      modifies this`head, this`blocks, this`live, this`freed, this`allocatedMemory, blocks`pNext, blocks`pLast
      ensures Valid() && live == old(live) - {p} && freed == old(freed) + [p]
      ensures k < |old(blocks)| && old(blocks)[k] == p && blocks == old(Without(blocks, k))
      ensures allocatedMemory == old(allocatedMemory) - p.size
    {
      k :| 0 <= k < |blocks| && blocks[k] == p;
      BlockRemoved(blocks, live, rows, k);
      FreedRemoved(blocks, freed, k);
      Delist(p, k);
      freed := freed + [p];
      live := live - {p};
    }

    /** The part of _efree that keeps the block in the cache. */
    method ToCache(p: Header)
      requires Valid() && p in live && p.size < MAX_CACHED_MEMORY && cacheCount[p.size] < MAX_CACHED_ENTRIES
      modifies this`live, this`rows, cache, cacheCount
      ensures Valid() && live == old(live) - {p}
      ensures rows == old(rows)[p.size := old(rows[p.size]) + [p]]
    {
      PutInRow(blocks, live, rows, p);
      cache[p.size, cacheCount[p.size]] := p;
      cacheCount[p.size] := cacheCount[p.size] + 1;
      rows := rows[p.size := rows[p.size] + [p]];
      live := live - {p};
    }

    /**
     _emalloc: a block of the size that is not in use, from the cache if its row has one. The
     process exits exactly when a block from the system would exceed the limit and its slack. Exceeding
     the limit alone raises the flag, unless the request is shutting down.
     */
    method Emalloc(size: nat) returns (p: Header?)
      requires Valid() && size <= INT_MAX
      modifies this`head, this`blocks, this`live, this`rows, this`allocatedMemory, this`memoryExhausted, cacheCount,
        blocks`pLast
      ensures p == null <==>
        old(allocatedMemory) + size > memoryLimit + 1048576 && !(size < 64 && old(rows[size]) != [])
      ensures p != null ==>
        && Valid() && p.size == size
        && p !in old(live) && live == old(live) + {p} && allocatedMemory <= memoryLimit + SLACK
      ensures p != null && size < MAX_CACHED_MEMORY && old(rows[size]) != [] ==>
        && blocks == old(blocks) && allocatedMemory == old(allocatedMemory) && memoryExhausted == old(memoryExhausted)
        && old(rows[size]) == rows[size] + [p] && rows == old(rows)[size := rows[size]]
      ensures p != null && !(size < MAX_CACHED_MEMORY && old(rows[size]) != []) ==>
        && fresh(p) && blocks == [p] + old(blocks) && rows == old(rows)
        && allocatedMemory == old(allocatedMemory) + size
        && memoryExhausted == (old(memoryExhausted) || (allocatedMemory > memoryLimit && !shutdownRequested))
    {
      if size < MAX_CACHED_MEMORY && cacheCount[size] > 0 {
        p := FromCache(size);
      } else {
        p := FromSystem(size);
      }
    }

    /** _efree: the block waits in the cache, still listed and accounted for, if its row has room. */
    method Efree(p: Header)
      requires Valid() && p in live
      modifies this`head, this`blocks, this`live, this`rows, this`freed, this`allocatedMemory, cache, cacheCount,
        blocks`pNext, blocks`pLast
      ensures Valid() && live == old(live) - {p}
      ensures p.size < 64 && |old(rows[p.size])| < 16 ==>
        && blocks == old(blocks) && freed == old(freed) && allocatedMemory == old(allocatedMemory)
        && rows == old(rows)[p.size := old(rows[p.size]) + [p]]
      ensures !(p.size < 64 && |old(rows[p.size])| < 16) ==>
        && p !in blocks && freed == old(freed) + [p] && rows == old(rows)
        && allocatedMemory == old(allocatedMemory) - p.size
    {
      assert p in blocks;
      if p.size < MAX_CACHED_MEMORY && cacheCount[p.size] < MAX_CACHED_ENTRIES {
        ToCache(p);
      } else {
        ghost var k := ToSystem(p);
        FreedRemoved(old(blocks), old(freed), k);
      }
    }

    /** What is freed and small enough to be cached is what the next request of its size gets. */
    method FreeThenMalloc(p: Header) returns (q: Header?)
      requires Valid() && p in live && p.size < 64 && |rows[p.size]| < 16
      modifies this, cache, cacheCount, blocks
      ensures q == p && Valid() && live == old(live) && rows == old(rows) && blocks == old(blocks)
      ensures memoryExhausted == old(memoryExhausted) && allocatedMemory == old(allocatedMemory)
    {
      assert p in blocks;
      var size := p.size;
      ghost var row := rows[size];
      Efree(p);
      q := Emalloc(size);
      assert (row + [p])[|row|] == p && row == (row + [p])[..|row|];
    }

    /** The system's realloc: the block itself, or a new one in its place. */
    method Realloc(p: Header) returns (q: Header)
      requires NoneFreed(blocks, freed) && p !in blocks && p !in freed
      modifies this`freed
      ensures q.size == p.size && (q == p || fresh(q)) && freed == old(freed) + if q == p then [] else [p]
      ensures NoneFreed(blocks, freed) && q !in blocks && q !in freed
    {
      q := p;
      if * {
        q := new Header(p.pNext, p.pLast, p.size);
        freed := freed + [p];
      }
    }

    /** The first part of _erealloc: the block, or one in its place, is off the list. */
    method Detach(p: Header) returns (q: Header, ghost k: nat)
      requires Valid() && p in live
      modifies this`head, this`blocks, this`live, this`freed, blocks`pNext, blocks`pLast
      ensures Linked(head, blocks) && Tables() && Partition(blocks, live, rows) && NoneFreed(blocks, freed)
      ensures (q == p || fresh(q)) && q.size == p.size >= 0 && q !in blocks && q !in freed
      ensures live == old(live) - {p}
      ensures allocatedMemory == Total(blocks) + q.size && Total(blocks) >= 0
      ensures Within(blocks, old(blocks))
      ensures k < |old(blocks)| && old(blocks)[k] == p && blocks == old(Without(blocks, k))
      ensures freed == old(freed) + if q == p then [] else [p]
    {
      k :| 0 <= k < |blocks| && blocks[k] == p;
      BlockRemoved(blocks, live, rows, k);
      StillListed(blocks, freed, k);
      TotalLeft(blocks, k);
      Remove(p, k);
      live := live - {p};
      q := Realloc(p);
    }

    /**
     _erealloc of a block: the block, or one in its place, with the new size, now in front of the list;
     the cache is left alone.
     */
    method Resize(p: Header, size: nat) returns (q: Header?, ghost k: nat)
      requires Valid() && size <= INT_MAX && p in live
      modifies this`head, this`blocks, this`live, this`freed, this`allocatedMemory, this`memoryExhausted, blocks
      ensures q == null <==> old(allocatedMemory - p.size) + size > memoryLimit + SLACK
      ensures q != null ==>
        && Valid() && q.size == size && (q == p || fresh(q))
        && live == old(live) - {p} + {q} && rows == old(rows)
        && allocatedMemory == old(allocatedMemory - p.size) + size <= memoryLimit + SLACK
        && memoryExhausted == (old(memoryExhausted) || (allocatedMemory > memoryLimit && !shutdownRequested))
      ensures q != null ==>
        && k < |old(blocks)| && old(blocks)[k] == p && blocks == [q] + old(Without(blocks, k))
        && freed == old(freed) + if q == p then [] else [p]
      ensures forall b :: b in old(live) && b != p ==> b.size == old(b.size)
    {
      assert p in blocks;
      var b;
      b, k := Detach(p);
      ghost var rest := blocks;
      assert fresh(b) || b in old(blocks);
      var ok := Enlist(b, size);
      if !ok { return null, k; }
      BlockAdded(rest, live, rows, b);
      live := live + {b};
      q := b;
    }

    /** _erealloc: a block resized, and a new one for a null pointer. */
    method Erealloc(p: Header?, size: nat) returns (q: Header?, ghost k: nat)
      requires Valid() && size <= INT_MAX && (p == null || p in live)
      modifies this`head, this`blocks, this`live, this`rows, this`freed, this`allocatedMemory, this`memoryExhausted,
        cacheCount, blocks
      ensures q == null <==>
        && old(allocatedMemory) - old(if p == null then 0 else p.size) + size > memoryLimit + 1048576
        && !(p == null && size < 64 && old(rows[size]) != [])
      ensures q != null ==>
        && Valid() && q.size == size && q !in old(live) - {p} && live == old(live) - {p} + {q}
      ensures q != null && p == null && size < 64 && old(rows[size]) != [] ==>
        && blocks == old(blocks) && freed == old(freed) && allocatedMemory == old(allocatedMemory)
        && memoryExhausted == old(memoryExhausted)
        && old(rows[size]) == rows[size] + [q] && rows == old(rows)[size := rows[size]]
      ensures q != null && !(p == null && size < 64 && old(rows[size]) != []) ==>
        && rows == old(rows) && allocatedMemory == old(allocatedMemory) - old(if p == null then 0 else p.size) + size
        && memoryExhausted == (old(memoryExhausted) || (allocatedMemory > memoryLimit && !shutdownRequested))
      ensures q != null && p == null && !(size < 64 && old(rows[size]) != []) ==>
        fresh(q) && blocks == [q] + old(blocks) && freed == old(freed)
      ensures q != null && p != null ==>
        && (q == p || fresh(q)) && freed == old(freed) + (if q == p then [] else [p])
        && k < |old(blocks)| && old(blocks)[k] == p && blocks == [q] + old(Without(blocks, k))
      ensures forall b :: b in old(live) && b != p ==> b.size == old(b.size)
    {
      k := 0;
      if p == null {
        q := Emalloc(size);
      } else {
        q, k := Resize(p, size);
      }
    }

    /** Every row from `i` on, row `i` from its place `j` on, holds listed blocks. */
    ghost predicate Waiting(i: nat, j: nat)
      reads this
    {
      forall k, m {:trigger rows[k][m]} ::
        i <= k < MAX_CACHED_MEMORY && 0 <= m < |rows[k]| && (k == i ==> j <= m) ==> rows[k][m] in blocks
    }

    /** The list is in order, nothing on it has been freed, and with what has been it makes up `all`. */
    ghost predicate Draining(all: multiset<Header>)
      reads this, blocks
    {
      && Linked(head, blocks) && NoneFreed(blocks, freed)
      && multiset(freed) + multiset(blocks) == all
    }

    /** One cached block leaves the list and is freed. */
    method FreeCached(p: Header, ghost all: multiset<Header>)
      requires Draining(all) && p in blocks
      modifies this`head, this`blocks, this`freed, blocks`pNext, blocks`pLast
      ensures Draining(all) && rows == old(rows)
      ensures forall b :: b in blocks <==> b in old(blocks) && b != p
      ensures Within(blocks, old(blocks))
    {
      ghost var k :| 0 <= k < |blocks| && blocks[k] == p;
      FreedRemoved(blocks, freed, k);
      WithoutContents(blocks, k);
      Remove(p, k);
      freed := freed + [p];
    }

    /** The blocks of one cache row leave the list and are freed. */
    method FreeRow(i: nat, ghost all: multiset<Header>)
      requires i < MAX_CACHED_MEMORY && Tables() && Apart(rows) && Draining(all) && Waiting(i, 0)
      modifies this`head, this`blocks, this`freed, blocks`pNext, blocks`pLast
      ensures Draining(all) && rows == old(rows) && Waiting(i + 1, 0)
      ensures Within(blocks, old(blocks))
    {
      var j := 0;
      while j < cacheCount[i]
        invariant 0 <= j <= |rows[i]|
        invariant Draining(all) && rows == old(rows) && Waiting(i, j)
        invariant Within(blocks, old(blocks))
      {
        var p: Header := cache[i, j];
        assert p == rows[i][j];
        forall k, m | i <= k < MAX_CACHED_MEMORY && 0 <= m < |rows[k]| && (k == i ==> j + 1 <= m)
          ensures rows[k][m] != p {
          assert p in rows[i] && rows[k][m] in rows[k];
        }
        FreeCached(p, all);
        j := j + 1;
      }
    }

    /**
     shutdown_memory_manager: every listed block, live or cached, is given back exactly once.
     `head` and the cache are left as they are, for start_memory_manager to reset.
     */
    method Shutdown()
      requires Valid()
      modifies this`head, this`blocks, this`freed, blocks`pNext, blocks`pLast
      ensures multiset(freed) == old(multiset(freed) + multiset(blocks))
      ensures NoneFreed(old(blocks), old(freed)) && Distinct(old(blocks))
    {
      ghost var all := multiset(freed) + multiset(blocks);
      var i := 0;
      assert Apart(rows);
      forall k, m | 0 <= k < MAX_CACHED_MEMORY && 0 <= m < |rows[k]| ensures rows[k][m] in blocks {
        assert rows[k][m] in rows[k];
      }
      while i < MAX_CACHED_MEMORY
        invariant 0 <= i <= MAX_CACHED_MEMORY
        invariant Tables() && Apart(rows) && Draining(all) && Waiting(i, 0)
        invariant Within(blocks, old(blocks))
      {
        FreeRow(i, all);
        i := i + 1;
      }
      FreeList(all);
    }

    /** start_memory_manager: nothing is allocated. */
    method Start()
      requires Configured() && cache.Length0 == cacheCount.Length == MAX_CACHED_MEMORY
        && cache.Length1 == MAX_CACHED_ENTRIES
      modifies this`head, this`blocks, this`live, this`rows, this`freed, this`allocatedMemory, this`memoryExhausted,
        cacheCount
      ensures Valid() && live == {} && blocks == [] && freed == [] && forall i :: 0 <= i < 64 ==> rows[i] == []
      ensures allocatedMemory == 0 && !memoryExhausted
    {
      head := null;
      allocatedMemory, memoryExhausted := 0, false;
      var i := 0;
      while i < MAX_CACHED_MEMORY
        invariant 0 <= i <= MAX_CACHED_MEMORY
        invariant head == null && allocatedMemory == 0 && !memoryExhausted
        invariant forall k :: 0 <= k < i ==> cacheCount[k] == 0
      {
        cacheCount[i] := 0;
        i := i + 1;
      }
      blocks, live, freed := [], {}, [];
      rows := seq(MAX_CACHED_MEMORY, _ => []);
    }

    /** The last loop of shutdown_memory_manager: what is still listed is freed, from the head on. */
    method FreeList(ghost all: multiset<Header>)
      requires Draining(all)
      modifies this`freed
      ensures multiset(freed) == all
    {
      var t := head;
      ghost var k := 0;
      ghost var before := freed;
      assert blocks[..0] == [];
      while t != null
        invariant 0 <= k <= |blocks| && t == At(blocks, k)
        invariant freed == before + blocks[..k]
        decreases |blocks| - k
      {
        var next := t.pNext;
        freed := freed + [t];
        t := next;
        k := k + 1;
      }
      assert blocks[..k] == blocks;
    }
  }
}
