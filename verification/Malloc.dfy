/**
 The K&R allocator of user/umalloc.c.

 Addresses count units of sizeof(Header). `base` is the static header at which the
 free list begins; it lies below everything sbrk hands out.
 */
module Malloc {

  datatype Header = Header(ptr: nat, size: nat)

  type Memory = map<nat, Header>

  const UNIT: nat := 16            // sizeof(Header)
  const MINCORE: nat := 4096       // smallest number of units asked of sbrk

  // ---------------------------------------------------------------- the free list

  /** n follows a in the circular address order of the set free, whose least element is base. */
  ghost predicate Follows(free: set<nat>, base: nat, a: nat, n: nat) {
    && n in free
    && if a < n then forall b :: b in free ==> b <= a || n <= b
       else n == base && forall b :: b in free ==> b <= a
  }

  ghost predicate Linked(base: nat, mem: Memory, free: set<nat>, a: nat) {
    base <= a && a in mem && Follows(free, base, a, mem[a].ptr)
  }

  /**
   The headers in `free` form one circular list in address order beginning at base,
   and no two of its blocks touch: every possible join has been made.
   */
  ghost predicate FreeList(base: nat, mem: Memory, free: set<nat>) {
    && base in free && base in mem && mem[base].size == 0
    && (forall a :: a in free ==> base <= a && a in mem)
    && (forall a {:trigger Linked(base, mem, free, a)} :: a in free ==> Linked(base, mem, free, a))
    && (forall a, b :: a in free && b in free && a < b ==> a + mem[a].size < b)
  }

  function Walk(mem: Memory, a: nat, steps: nat): nat {
    if steps == 0 then a
    else
      var b := Walk(mem, a, steps - 1);
      if b in mem then mem[b].ptr else b
  }

  /** Walking upwards from a reaches every larger element. */
  lemma {:induction false} WalkUp(base: nat, mem: Memory, free: set<nat>, a: nat, b: nat) returns (n: nat)
    requires FreeList(base, mem, free) && a in free && b in free && a <= b
    ensures Walk(mem, a, n) == b
    decreases b
  {
    if a == b {
      return 0;
    }
    var below := set c | c in free && c < b;
    var c := Greatest(below, a);
    var m := WalkUp(base, mem, free, a, c);
    assert Linked(base, mem, free, c);
    assert mem[c].ptr !in below;
    return m + 1;
  }

  lemma {:induction false} Greatest(s: set<nat>, a: nat) returns (m: nat)
    requires a in s
    ensures m in s && a <= m && forall b :: b in s ==> b <= m
    decreases s
  {
    if b :| b in s && a < b {
      m := Greatest(s - {a}, b);
      assert forall c :: c in s ==> c == a || c in s - {a};
    } else {
      m := a;
    }
  }

  /** The list is one circle: from any element every element is reached. */
  lemma OneCircle(base: nat, mem: Memory, free: set<nat>, a: nat, b: nat) returns (n: nat)
    requires FreeList(base, mem, free) && a in free && b in free
    ensures Walk(mem, a, n) == b
  {
    var top := Greatest(free, a);
    var up := WalkUp(base, mem, free, a, top);
    assert Linked(base, mem, free, top);
    assert Walk(mem, a, up + 1) == base;
    var down := WalkUp(base, mem, free, base, b);
    WalkAdds(mem, a, up + 1, down);
    return up + 1 + down;
  }

  lemma {:induction false} WalkAdds(mem: Memory, a: nat, m: nat, n: nat)
    ensures Walk(mem, a, m + n) == Walk(mem, Walk(mem, a, m), n)
  {
    if n > 0 {
      WalkAdds(mem, a, m, n - 1);
    }
  }

  // ---------------------------------------------------------------- blocks tile the heap

  predicate Apart(a: nat, m: nat, b: nat, n: nat) {
    a + m <= b || b + n <= a
  }

  predicate Covers(blocks: map<nat, nat>, a: nat, u: nat) {
    a in blocks && a <= u < a + blocks[a]
  }

  /** The units obtained from sbrk, as the list of pieces it returned. */
  predicate InHeap(pieces: seq<(nat, nat)>, u: nat) {
    exists i :: 0 <= i < |pieces| && pieces[i].0 <= u < pieces[i].0 + pieces[i].1
  }

  ghost predicate Disjoint(blocks: map<nat, nat>) {
    forall a, b :: a in blocks && b in blocks && a != b ==> Apart(a, blocks[a], b, blocks[b])
  }

  ghost predicate Exact(blocks: map<nat, nat>, pieces: seq<(nat, nat)>) {
    forall u: nat :: InHeap(pieces, u) <==> exists a: nat :: Covers(blocks, a, u)
  }

  /** Every unit obtained from sbrk lies in exactly one block, and blocks hold nothing else. */
  ghost predicate Tiles(blocks: map<nat, nat>, pieces: seq<(nat, nat)>) {
    Disjoint(blocks) && Exact(blocks, pieces)
  }

  function Merged(blocks: map<nat, nat>, a: nat, b: nat): map<nat, nat>
    requires a in blocks && b in blocks
  {
    (blocks - {b})[a := blocks[a] + blocks[b]]
  }

  lemma MergeDisjoint(blocks: map<nat, nat>, a: nat, b: nat)
    requires Disjoint(blocks) && a in blocks && b in blocks && a < b && a + blocks[a] == b
    ensures Disjoint(Merged(blocks, a, b))
  {
    var merged := Merged(blocks, a, b);
    forall x, y | x in merged && y in merged && x != y ensures Apart(x, merged[x], y, merged[y]) {
      assert Apart(x, blocks[x], y, blocks[y]);
      assert x == a ==> Apart(y, blocks[y], b, blocks[b]);
      assert y == a ==> Apart(x, blocks[x], b, blocks[b]);
    }
  }

  lemma MergeTiles(blocks: map<nat, nat>, pieces: seq<(nat, nat)>, a: nat, b: nat)
    requires Tiles(blocks, pieces) && a in blocks && b in blocks && a < b && a + blocks[a] == b
    ensures Tiles(Merged(blocks, a, b), pieces)
  {
    var merged := Merged(blocks, a, b);
    MergeDisjoint(blocks, a, b);
    forall u: nat ensures InHeap(pieces, u) <==> exists x: nat :: Covers(merged, x, u) {
      if x: nat :| Covers(blocks, x, u) {
        assert Covers(merged, if x == b then a else x, u);
      }
      if x: nat :| Covers(merged, x, u) {
        assert Covers(blocks, if x == a && u >= b then b else x, u);
      }
    }
  }

  function Cut(blocks: map<nat, nat>, a: nat, n: nat): map<nat, nat>
    requires a in blocks && n <= blocks[a]
  {
    blocks[a := blocks[a] - n][a + blocks[a] - n := n]
  }

  lemma SplitDisjoint(blocks: map<nat, nat>, a: nat, n: nat)
    requires Disjoint(blocks) && a in blocks && 0 < n < blocks[a]
    ensures a + blocks[a] - n !in blocks && Disjoint(Cut(blocks, a, n))
  {
    var b := a + blocks[a] - n;
    if b in blocks {
      assert false;
    }
    var cut := Cut(blocks, a, n);
    forall x, y | x in cut && y in cut && x != y ensures Apart(x, cut[x], y, cut[y]) {
      var x', y' := if x == b then a else x, if y == b then a else y;
      assert x' != y' ==> Apart(x', blocks[x'], y', blocks[y']);
    }
  }

  lemma SplitTiles(blocks: map<nat, nat>, pieces: seq<(nat, nat)>, a: nat, n: nat)
    requires Tiles(blocks, pieces) && a in blocks && 0 < n < blocks[a]
    ensures a + blocks[a] - n !in blocks && Tiles(Cut(blocks, a, n), pieces)
  {
    var b := a + blocks[a] - n;
    SplitDisjoint(blocks, a, n);
    var cut := Cut(blocks, a, n);
    forall u: nat ensures InHeap(pieces, u) <==> exists x: nat :: Covers(cut, x, u) {
      if x: nat :| Covers(blocks, x, u) {
        assert Covers(cut, if x == a && u >= b then b else x, u);
      }
      if x: nat :| Covers(cut, x, u) {
        assert Covers(blocks, if x == b then a else x, u);
      }
    }
  }

  lemma GrowHeap(pieces: seq<(nat, nat)>, p: nat, n: nat, u: nat)
    ensures InHeap(pieces + [(p, n)], u) <==> InHeap(pieces, u) || p <= u < p + n
  {
    var more := pieces + [(p, n)];
    if i :| 0 <= i < |pieces| && pieces[i].0 <= u < pieces[i].0 + pieces[i].1 {
      assert more[i] == pieces[i];
    }
    assert more[|pieces|] == (p, n);
  }

  lemma GrowTiles(blocks: map<nat, nat>, pieces: seq<(nat, nat)>, p: nat, n: nat)
    requires Tiles(blocks, pieces) && n > 0
    requires forall a :: a in blocks ==> a + blocks[a] <= p && blocks[a] > 0
    ensures p !in blocks && Tiles(blocks[p := n], pieces + [(p, n)])
  {
    var more := blocks[p := n];
    forall x, y | x in more && y in more && x != y ensures Apart(x, more[x], y, more[y]) {
      assert x in blocks && y in blocks ==> Apart(x, blocks[x], y, blocks[y]);
    }
    forall u: nat ensures InHeap(pieces + [(p, n)], u) <==> exists x: nat :: Covers(more, x, u) {
      GrowHeap(pieces, p, n, u);
      if x: nat :| Covers(blocks, x, u) {
        assert Covers(more, x, u);
      }
      if p <= u < p + n {
        assert Covers(more, p, u);
      }
      if x: nat :| Covers(more, x, u) {
        assert x != p ==> Covers(blocks, x, u);
      }
    }
  }

  // ---------------------------------------------------------------- the whole heap

  /** What the headers stand for: the free list, the live blocks, all block sizes, and sbrk's pieces. */
  datatype Layout = Layout(free: set<nat>, live: set<nat>, blocks: map<nat, nat>, pieces: seq<(nat, nat)>)

  ghost predicate Agrees(base: nat, mem: Memory, brk: nat, l: Layout) {
    && l.free !! l.live
    && l.blocks.Keys == l.live + (l.free - {base})
    && (forall a :: a in l.blocks ==> a in mem && mem[a].size == l.blocks[a] > 0)
    && (forall a :: a in l.blocks ==> base < a && a + l.blocks[a] <= brk)
  }

  ghost predicate Inv(base: nat, mem: Memory, brk: nat, l: Layout) {
    && FreeList(base, mem, l.free)
    && Tiles(l.blocks, l.pieces)
    && Agrees(base, mem, brk, l)
  }

  /** Two blocks, live or free, whose headers claim the same unit are the same block: no unit is handed out twice. */
  lemma OneOwner(base: nat, mem: Memory, brk: nat, l: Layout, u: nat, a: nat, b: nat)
    requires Inv(base, mem, brk, l) && a in l.live + l.free && b in l.live + l.free && a in mem && b in mem
    requires a <= u < a + mem[a].size && b <= u < b + mem[b].size
    ensures a == b
  {
    BaseIsEmpty(base, mem, l.free);
    assert Covers(l.blocks, a, u) && Covers(l.blocks, b, u);
  }

  // ---------------------------------------------------------------- free

  /** Where free stops looking: bp lies between p and its successor, or beyond the end of the list. */
  predicate Stop(mem: Memory, p: nat, bp: nat)
    requires p in mem
  {
    (p < bp < mem[p].ptr) || (p >= mem[p].ptr && (bp > p || bp < mem[p].ptr))
  }

  /** The two joins at the end of free, as header updates. */
  function JoinUpper(mem: Memory, p: nat, bp: nat): (r: Memory)
    requires p in mem && bp in mem && mem[p].ptr in mem
    ensures r.Keys == mem.Keys
  {
    var u := mem[p].ptr;
    if bp + mem[bp].size == u then mem[bp := Header(mem[u].ptr, mem[bp].size + mem[u].size)]
    else mem[bp := mem[bp].(ptr := u)]
  }

  function JoinLower(mem: Memory, p: nat, bp: nat): Memory
    requires p in mem && bp in mem
  {
    if p + mem[p].size == bp then mem[p := Header(mem[bp].ptr, mem[p].size + mem[bp].size)]
    else mem[p := mem[p].(ptr := bp)]
  }

  ghost predicate Fits(base: nat, mem: Memory, free: set<nat>, p: nat, bp: nat) {
    && FreeList(base, mem, free) && p in free && bp in mem && bp !in free && base < bp && mem[bp].size > 0
    && Linked(base, mem, free, p) && Stop(mem, p, bp)
    && p + mem[p].size <= bp
    && (mem[p].ptr > bp ==> bp + mem[bp].size <= mem[p].ptr)
  }

  /** After the upper join bp heads the part of the list above p. */
  lemma UpperJoined(base: nat, mem: Memory, free: set<nat>, p: nat, bp: nat)
    requires Fits(base, mem, free, p, bp)
    ensures var u := mem[p].ptr; u in mem
    ensures var mem1, u := JoinUpper(mem, p, bp), mem[p].ptr;
      var up := bp + mem[bp].size == u;
      var free1 := if up then free - {u} else free;
      && p in free1 && base in free1
      && Linked(base, mem1, free1, bp)
      && (forall a :: a in free1 && a > bp ==> bp + mem1[bp].size < a)
  {
    var u := mem[p].ptr;
    assert Linked(base, mem, free, u);
  }

  ghost function FreeAfter(mem: Memory, free: set<nat>, p: nat, bp: nat): set<nat>
    requires p in mem && bp in mem
  {
    free - (if bp + mem[bp].size == mem[p].ptr then {mem[p].ptr} else {})
         + (if p + mem[p].size == bp then {} else {bp})
  }

  lemma OthersLinked(base: nat, mem: Memory, mem': Memory, free: set<nat>, p: nat, bp: nat, a: nat)
    requires Fits(base, mem, free, p, bp) && a in FreeAfter(mem, free, p, bp) && a != p && a != bp
    requires a in mem' && mem'[a] == mem[a]
    ensures Linked(base, mem', FreeAfter(mem, free, p, bp), a)
  {
    assert Linked(base, mem, free, a);
  }

  lemma BothJoined(base: nat, mem: Memory, free: set<nat>, p: nat, bp: nat)
    requires Fits(base, mem, free, p, bp)
    ensures mem[p].ptr in mem
    ensures var mem2, free2 := JoinLower(JoinUpper(mem, p, bp), p, bp), FreeAfter(mem, free, p, bp);
      && (p in free2 && Linked(base, mem2, free2, p))
      && (bp in free2 ==> Linked(base, mem2, free2, bp))
  {
    UpperJoined(base, mem, free, p, bp);
  }

  lemma JoinedApart(base: nat, mem: Memory, free: set<nat>, p: nat, bp: nat, a: nat, b: nat)
    requires Fits(base, mem, free, p, bp) && mem[p].ptr in mem
    requires a in FreeAfter(mem, free, p, bp) && b in FreeAfter(mem, free, p, bp) && a < b
    ensures a + JoinLower(JoinUpper(mem, p, bp), p, bp)[a].size < b
  {
    UpperJoined(base, mem, free, p, bp);
  }

  lemma JoinedHeaders(base: nat, mem: Memory, free: set<nat>, p: nat, bp: nat)
    requires Fits(base, mem, free, p, bp) && mem[p].ptr in mem
    ensures var mem2, free2 := JoinLower(JoinUpper(mem, p, bp), p, bp), FreeAfter(mem, free, p, bp);
      && base in free2 && base in mem2 && mem2[base].size == 0
      && forall a :: a in free2 ==> base <= a && a in mem2 && (a == p || a == bp || (a in mem && mem2[a] == mem[a]))
  {
  }

  /** The list after both joins is again circular, ordered and fully coalesced. */
  lemma FreeKeepsList(base: nat, mem: Memory, free: set<nat>, p: nat, bp: nat)
    requires p in mem && bp in mem && mem[p].ptr in mem && Fits(base, mem, free, p, bp)
    ensures FreeList(base, JoinLower(JoinUpper(mem, p, bp), p, bp), FreeAfter(mem, free, p, bp))
  {
    hide *;
    var mem2, free2 := JoinLower(JoinUpper(mem, p, bp), p, bp), FreeAfter(mem, free, p, bp);
    JoinedHeaders(base, mem, free, p, bp);
    forall a | a in free2 ensures Linked(base, mem2, free2, a) {
      BothJoined(base, mem, free, p, bp);
      if a != bp && a != p { OthersLinked(base, mem, mem2, free, p, bp, a); }
    }
    forall a, b | a in free2 && b in free2 && a < b ensures a + mem2[a].size < b {
      JoinedApart(base, mem, free, p, bp, a, b);
    }
    IsFreeList(base, mem2, free2);
  }

  lemma IsFreeList(base: nat, mem: Memory, free: set<nat>)
    requires base in free && base in mem && mem[base].size == 0 && forall a :: a in free ==> base <= a && a in mem
    requires forall a {:trigger Linked(base, mem, free, a)} :: a in free ==> Linked(base, mem, free, a)
    requires forall a, b :: a in free && b in free && a < b ==> a + mem[a].size < b
    ensures FreeList(base, mem, free)
  {
  }

  /** The block map after free: bp absorbs its upper neighbour, and is absorbed by its lower one. */
  ghost function BlocksAfter(mem: Memory, blocks: map<nat, nat>, p: nat, bp: nat): map<nat, nat>
    requires p in mem && bp in mem && bp in blocks
  {
    var u := mem[p].ptr;
    var up := if bp + mem[bp].size == u && u in blocks && u != bp then Merged(blocks, bp, u) else blocks;
    if p + mem[p].size == bp && p in up && p != bp then Merged(up, p, bp) else up
  }

  lemma LiveFits(base: nat, mem: Memory, brk: nat, l: Layout, p: nat, bp: nat)
    requires Inv(base, mem, brk, l) && bp in l.live && p in l.free && Stop(mem, p, bp)
    ensures Fits(base, mem, l.free, p, bp)
    ensures mem[p].ptr in l.free && mem[p].ptr in mem && p < bp
    ensures bp + mem[bp].size == mem[p].ptr ==> mem[p].ptr in l.blocks
    ensures p + mem[p].size == bp ==> p in l.blocks
  {
    assert Linked(base, mem, l.free, p);
    var u := mem[p].ptr;
    assert bp in l.blocks;
    if p != base {
      assert p in l.blocks;
      assert Apart(p, l.blocks[p], bp, l.blocks[bp]);
    }
    if u != base {
      assert u in l.blocks;
      assert Apart(u, l.blocks[u], bp, l.blocks[bp]);
    }
  }

  lemma FreeKeepsTiles(base: nat, mem: Memory, brk: nat, l: Layout, p: nat, bp: nat)
    requires Inv(base, mem, brk, l) && bp in l.live && p in l.free && Stop(mem, p, bp)
    ensures Tiles(BlocksAfter(mem, l.blocks, p, bp), l.pieces)
  {
    LiveFits(base, mem, brk, l, p, bp);
    var u := mem[p].ptr;
    var blocks := l.blocks;
    if bp + mem[bp].size == u {
      MergeTiles(l.blocks, l.pieces, bp, u);
      blocks := Merged(l.blocks, bp, u);
    }
    if p + mem[p].size == bp {
      assert p != u;
      MergeTiles(blocks, l.pieces, p, bp);
    }
  }

  ghost function Freed(mem: Memory, l: Layout, p: nat, bp: nat): Layout
    requires p in mem && bp in mem && bp in l.blocks
  {
    l.(free := FreeAfter(mem, l.free, p, bp), live := l.live - {bp}, blocks := BlocksAfter(mem, l.blocks, p, bp))
  }

  lemma FreedKeys(base: nat, mem: Memory, brk: nat, l: Layout, p: nat, bp: nat)
    requires Inv(base, mem, brk, l) && bp in l.live && p in l.free && Stop(mem, p, bp)
    ensures mem[p].ptr in mem
    ensures var f := Freed(mem, l, p, bp); f.free !! f.live && f.blocks.Keys == f.live + (f.free - {base})
  {
    hide Stop, Tiles, FreeList;
    LiveFits(base, mem, brk, l, p, bp);
    assert l.blocks.Keys == l.live + (l.free - {base});
  }

  lemma FreedBlock(base: nat, mem: Memory, brk: nat, l: Layout, p: nat, bp: nat, a: nat)
    requires Inv(base, mem, brk, l) && bp in l.live && p in l.free && Stop(mem, p, bp)
    ensures mem[p].ptr in mem
    ensures var mem2, blocks := JoinLower(JoinUpper(mem, p, bp), p, bp), BlocksAfter(mem, l.blocks, p, bp);
      && (a in blocks ==> a in mem2 && mem2[a].size == blocks[a] > 0 && base < a && a + blocks[a] <= brk)
      && (a in l.live && a != bp ==> a in blocks && blocks[a] == l.blocks[a])
  {
    hide Stop, Tiles, FreeList;
    LiveFits(base, mem, brk, l, p, bp);
  }

  lemma FreeKeepsAgreement(base: nat, mem: Memory, brk: nat, l: Layout, p: nat, bp: nat)
    requires Inv(base, mem, brk, l) && bp in l.live && p in l.free && Stop(mem, p, bp)
    ensures mem[p].ptr in mem
    ensures Agrees(base, JoinLower(JoinUpper(mem, p, bp), p, bp), brk, Freed(mem, l, p, bp))
    ensures forall a :: a in l.live && a != bp ==>
      a in Freed(mem, l, p, bp).blocks && Freed(mem, l, p, bp).blocks[a] == l.blocks[a]
  {
    FreedKeys(base, mem, brk, l, p, bp);
    hide Stop, Inv, BlocksAfter, FreeAfter, JoinLower, JoinUpper;
    forall a {
      FreedBlock(base, mem, brk, l, p, bp, a);
    }
  }

  /** free, as a whole: the invariant is kept, bp is no longer live and nothing else changes hands. */
  lemma FreeKeepsInv(base: nat, mem: Memory, brk: nat, l: Layout, p: nat, bp: nat)
    requires Inv(base, mem, brk, l) && bp in l.live && p in l.free && Stop(mem, p, bp)
    ensures mem[p].ptr in mem
    ensures Inv(base, JoinLower(JoinUpper(mem, p, bp), p, bp), brk, Freed(mem, l, p, bp))
    ensures p in Freed(mem, l, p, bp).free
    ensures var home := if p + mem[p].size == bp then p else bp;
      home in Freed(mem, l, p, bp).free && JoinLower(JoinUpper(mem, p, bp), p, bp)[home].size >= mem[bp].size
  {
    hide Stop, Tiles, FreeList, Agrees;
    LiveFits(base, mem, brk, l, p, bp);
    FreeKeepsList(base, mem, l.free, p, bp);
    BothJoined(base, mem, l.free, p, bp);
    FreeKeepsTiles(base, mem, brk, l, p, bp);
    FreeKeepsAgreement(base, mem, brk, l, p, bp);
  }

  // ---------------------------------------------------------------- malloc

  /** Units for nbytes of payload: rounded up, plus the header. */
  function Needed(nbytes: nat): (n: nat)
    ensures UNIT * (n - 1) >= nbytes && (n >= 2 ==> UNIT * (n - 2) < nbytes) && n >= 1
  {
    (nbytes + UNIT - 1) / UNIT + 1
  }

  /** An exact fit leaves the list. */
  ghost function TakenWhole(l: Layout, p: nat): Layout {
    l.(free := l.free - {p}, live := l.live + {p})
  }

  function Unlink(mem: Memory, prevp: nat, p: nat): Memory
    requires prevp in mem && p in mem
  {
    mem[prevp := mem[prevp].(ptr := mem[p].ptr)]
  }

  lemma UnlinkKeepsLink(base: nat, mem: Memory, free: set<nat>, prevp: nat, p: nat, a: nat)
    requires prevp in free && p in free && p in mem && prevp in mem && base < p == mem[prevp].ptr
    requires Linked(base, mem, free, prevp) && Linked(base, mem, free, p) && Linked(base, mem, free, a)
    requires a in free && a != p && base in free && base <= prevp
    ensures Linked(base, Unlink(mem, prevp, p), free - {p}, a)
  {
  }

  lemma UnlinkKeepsList(base: nat, mem: Memory, free: set<nat>, prevp: nat, p: nat)
    requires FreeList(base, mem, free) && prevp in free && p in mem && p == mem[prevp].ptr && mem[p].size > 0
    ensures p in free && p != prevp && FreeList(base, Unlink(mem, prevp, p), free - {p})
  {
    assert Linked(base, mem, free, prevp) && Linked(base, mem, free, p);
    assert base < p;
    var mem', free' := Unlink(mem, prevp, p), free - {p};
    forall a | a in free' ensures Linked(base, mem', free', a) {
      assert Linked(base, mem, free, a);
      UnlinkKeepsLink(base, mem, free, prevp, p, a);
    }
  }

  lemma TakeWhole(base: nat, mem: Memory, brk: nat, l: Layout, prevp: nat, p: nat)
    requires Inv(base, mem, brk, l) && prevp in l.free && prevp in mem
    requires p in mem && p == mem[prevp].ptr && mem[p].size > 0
    ensures p in l.free && prevp in l.free - {p} && p in l.blocks && l.blocks[p] == mem[p].size
    ensures Inv(base, Unlink(mem, prevp, p), brk, TakenWhole(l, p))
  {
    hide Tiles, FreeList;
    UnlinkKeepsList(base, mem, l.free, prevp, p);
    BaseIsEmpty(base, mem, l.free);
    assert l.blocks.Keys == (l.live + {p}) + (l.free - {p} - {base});
  }

  lemma BaseIsEmpty(base: nat, mem: Memory, free: set<nat>)
    requires FreeList(base, mem, free)
    ensures base in free && base in mem && mem[base].size == 0
  {
  }

  /** A larger block gives up its upper end. */
  ghost function TakenPart(l: Layout, p: nat, n: nat): Layout
    requires p in l.blocks && n <= l.blocks[p]
  {
    l.(live := l.live + {p + l.blocks[p] - n}, blocks := Cut(l.blocks, p, n))
  }

  lemma HeadersKeepList(base: nat, mem: Memory, mem': Memory, free: set<nat>)
    requires FreeList(base, mem, free) && base in mem'
    requires forall a :: a in free ==> a in mem' && a in mem && mem'[a].ptr == mem[a].ptr && mem'[a].size <= mem[a].size
    ensures FreeList(base, mem', free)
  {
    forall a | a in free ensures Linked(base, mem', free, a) {
      assert Linked(base, mem, free, a);
    }
  }

  function Carve(mem: Memory, p: nat, n: nat, h: Header): Memory
    requires p in mem && n <= mem[p].size
  {
    mem[p := mem[p].(size := mem[p].size - n)][p + mem[p].size - n := h]
  }

  lemma TakePart(base: nat, mem: Memory, brk: nat, l: Layout, p: nat, n: nat, h: Header)
    requires Inv(base, mem, brk, l) && p in l.free && p in mem && 0 < n < mem[p].size && h.size == n
    ensures p in l.blocks && l.blocks[p] == mem[p].size && p + mem[p].size - n !in l.blocks
    ensures Inv(base, Carve(mem, p, n, h), brk, TakenPart(l, p, n))
  {
    hide Tiles, FreeList;
    BaseIsEmpty(base, mem, l.free);
    assert p in l.blocks;
    SplitTiles(l.blocks, l.pieces, p, n);
    var tail := p + mem[p].size - n;
    assert tail !in l.free;
    ListIsInMemory(base, mem, l.free);
    HeadersKeepList(base, mem, Carve(mem, p, n, h), l.free);
    assert Cut(l.blocks, p, n).Keys == l.blocks.Keys + {tail};
  }

  lemma InvSets(base: nat, mem: Memory, brk: nat, l: Layout)
    requires Inv(base, mem, brk, l)
    ensures l.free !! l.live && l.live <= l.blocks.Keys && forall a :: a in l.free ==> base <= a && a in mem
  {
  }

  lemma ListIsInMemory(base: nat, mem: Memory, free: set<nat>)
    requires FreeList(base, mem, free)
    ensures forall a :: a in free ==> base <= a && a in mem
  {
  }

  /** A piece fresh from sbrk counts as one live block until morecore frees it. */
  ghost function Grown(l: Layout, p: nat, n: nat): Layout {
    l.(live := l.live + {p}, blocks := l.blocks[p := n], pieces := l.pieces + [(p, n)])
  }

  lemma GrowKeepsInv(base: nat, mem: Memory, brk: nat, l: Layout, n: nat, h: Header)
    requires Inv(base, mem, brk, l) && n > 0 && base < brk && h.size == n
    ensures Inv(base, mem[brk := h], brk + n, Grown(l, brk, n)) && brk !in l.live
  {
    hide Tiles, FreeList;
    BaseIsEmpty(base, mem, l.free);
    ListIsInMemory(base, mem, l.free);
    GrowTiles(l.blocks, l.pieces, brk, n);
    assert brk !in l.free;
    HeadersKeepList(base, mem, mem[brk := h], l.free);
  }

  // ---------------------------------------------------------------- searching the list

  /** The elements passed on the way from f to p, both excluded. */
  ghost function Visited(free: set<nat>, f: nat, p: nat): set<nat> {
    set a | a in free && if f < p then f < a < p else f < a || a < p
  }

  lemma SearchStarts(base: nat, mem: Memory, free: set<nat>, f: nat)
    requires FreeList(base, mem, free) && f in free && f in mem
    ensures mem[f].ptr in free && Visited(free, f, mem[f].ptr) == {}
  {
    assert Linked(base, mem, free, f);
  }

  lemma SearchAdvances(base: nat, mem: Memory, free: set<nat>, f: nat, p: nat)
    requires FreeList(base, mem, free) && f in free && p in free && p in mem && p != f
    ensures mem[p].ptr in free && p !in Visited(free, f, p)
    ensures Visited(free, f, mem[p].ptr) == Visited(free, f, p) + {p}
  {
    assert Linked(base, mem, free, p);
    var n := mem[p].ptr;
    forall a ensures a in Visited(free, f, n) <==> a in Visited(free, f, p) + {p} {
    }
  }

  /** Coming back to the start means having passed everything else. */
  lemma SearchEnds(free: set<nat>, f: nat)
    requires f in free
    ensures Visited(free, f, f) == free - {f}
  {
  }

  /** Some element of the list is the place where bp belongs. */
  lemma PlaceExists(base: nat, mem: Memory, free: set<nat>, bp: nat) returns (t: nat)
    requires FreeList(base, mem, free) && base < bp && bp !in free
    ensures t in free && t in mem && Stop(mem, t, bp)
  {
    var below := set a | a in free && a < bp;
    t := Greatest(below, base);
    assert Linked(base, mem, free, t);
    assert mem[t].ptr !in below || mem[t].ptr == base;
  }

  lemma EmptyHeap(base: nat, mem: Memory, brk: nat)
    ensures Inv(base, mem[base := Header(base, 0)], brk, Layout({base}, {}, map[], []))
  {
    var mem' := mem[base := Header(base, 0)];
    assert Linked(base, mem', {base}, base);
  }

  // ---------------------------------------------------------------- morecore

  /** What morecore asks for, in units. */
  function Asked(nu: nat): (n: nat)
    ensures n >= nu && n > 0
  {
    if nu < MINCORE then MINCORE else nu
  }

  /** sbrk takes a C int; what reaches it when `units` headers are asked for. */
  function SbrkArgument(units: nat): (n: int)
    ensures n % UNIT == 0 && n <= units * UNIT
  {
    var n := (units * UNIT) % 0x1_0000_0000;
    if n < 0x8000_0000 then n else n - 0x1_0000_0000
  }

  /** The end of the heap after a successful sbrk; uvmdealloc ignores a new end that wraps. */
  function Moved(brk: nat, bytes: int): nat {
    if brk + bytes / UNIT < 0 then brk else brk + bytes / UNIT
  }

  /** The heap reaches to the end of the block that morecore writes a header for exactly if its bytes are a C int. */
  lemma GrowthCovers(brk: nat, units: nat)
    requires units > 0
    ensures brk + units <= Moved(brk, SbrkArgument(units)) <==> units * UNIT < 0x8000_0000
    ensures units * UNIT < 0x8000_0000 ==> Moved(brk, SbrkArgument(units)) == brk + units
    ensures SbrkArgument(units) <= 0 ==> Moved(brk, SbrkArgument(units)) <= brk
  {
    var arg := SbrkArgument(units);
    if units * UNIT >= 0x8000_0000 {
      assert arg < units * UNIT;
      assert arg / UNIT < units;
    }
  }

  /** A growth at a unit that some block covers already: the blocks overlap, or are one and the same. */
  lemma GrowthOverlaps(l: Layout, brk: nat, a: nat, m: nat)
    requires Covers(l.blocks, a, brk) && m > 0
    ensures a == brk || !Disjoint(Grown(l, brk, m).blocks)
  {
    var blocks := Grown(l, brk, m).blocks;
    if a != brk {
      assert !Apart(a, blocks[a], brk, blocks[brk]);
    }
  }

  /** Where the byte count wraps to one that is not negative, the next growth lies in the block or is taken for it. */
  lemma WrappedGrowth(l: Layout, brk: nat, units: nat, m: nat)
    requires units > 0 && m > 0 && units * UNIT >= 0x8000_0000 && SbrkArgument(units) >= 0
    ensures var grown, end := Grown(l, brk, units), Moved(brk, SbrkArgument(units));
      end == brk || !Disjoint(Grown(grown, end, m).blocks)
  {
    GrowthCovers(brk, units);
    GrowthOverlaps(Grown(l, brk, units), Moved(brk, SbrkArgument(units)), brk, m);
  }

  /**
   malloc(4294967295) on a heap without so large a block: morecore's header claims 268435457
   units, sbrk adds 16 bytes, and the next growth, of any size, lies inside the block.
   */
  lemma LargestRequest(base: nat, mem: Memory, brk: nat, l: Layout, m: nat)
    requires Inv(base, mem, brk, l) && base < brk && m > 0
    ensures Needed(0xFFFF_FFFF) == 268435457 && SbrkArgument(268435457) == 16
    ensures var grown, end := Grown(l, brk, 268435457), Moved(brk, SbrkArgument(268435457));
      && Inv(base, mem[brk := Header(0, 268435457)], brk + 268435457, grown)
      && end == brk + 1 && !Disjoint(Grown(grown, end, m).blocks)
  {
    hide Inv;
    var n := 268435457;
    GrowKeepsInv(base, mem, brk, l, n, Header(0, n));
    assert (n * UNIT) % 0x1_0000_0000 == 16;
    WrappedGrowth(l, brk, n, m);
  }

  class Allocator {
    const base: nat
    var mem: Memory
    var freep: nat                // 0 until the first call of malloc
    var brk: nat                  // end of the heap
    ghost var top: nat            // end of what the headers claim
    ghost var l: Layout
    ghost var growths: nat        // calls of sbrk made so far

    ghost predicate Valid()
      reads this
    {
      && 0 < base < top && brk <= top
      && if freep == 0 then l == Layout({}, {}, map[], []) && brk == top else freep in l.free && Inv(base, mem, top, l)
    }

    /** All that the headers claim has been obtained from sbrk. */
    ghost predicate Backed()
      reads this
    {
      top <= brk
    }

    /** Live blocks keep their sizes. */
    twostate predicate Undisturbed(live: set<nat>)
      reads this
    {
      forall a :: a in live ==> a in l.blocks && a in old(l.blocks) && l.blocks[a] == old(l.blocks[a])
    }

    constructor (base: nat, brk: nat)
      requires 0 < base < brk
      ensures Valid() && Backed() && l == Layout({}, {}, map[], []) && growths == 0
    {
      this.base, this.brk, this.freep, this.mem := base, brk, 0, map[];
      this.l, this.growths, this.top := Layout({}, {}, map[], []), 0, brk;
    }

    /** The search loop of free. */
    method FindPlace(bp: nat) returns (p: nat)
      requires Valid() && bp in l.live
      ensures p in l.free && p in mem && Stop(mem, p, bp)
    {
      hide Tiles;
      p := freep;
      ghost var t := PlaceExists(base, mem, l.free, bp);
      ghost var first := true;
      ListIsInMemory(base, mem, l.free);
      while !(bp > p && bp < mem[p].ptr)
        invariant p in l.free && (first ==> p == freep)
        invariant !first ==> !Stop(mem, freep, bp)
        invariant !first ==> forall a :: a in Visited(l.free, freep, p) ==> a in mem && !Stop(mem, a, bp)
        decreases first, l.free - Visited(l.free, freep, p)
      {
        if p >= mem[p].ptr && (bp > p || bp < mem[p].ptr) {
          break;
        }
        if first {
          SearchStarts(base, mem, l.free, freep);
        } else {
          SearchEnds(l.free, freep);
          assert p != freep;
          SearchAdvances(base, mem, l.free, freep, p);
        }
        p, first := mem[p].ptr, false;
      }
    }

    /** The writes of free: join bp with its upper and its lower neighbour where they touch, or link it in. */
    method Join(p: nat, bp: nat)
      requires p in mem && bp in mem && mem[p].ptr in mem
      modifies this`mem
      ensures mem == JoinLower(JoinUpper(old(mem), p, bp), p, bp)
    {
      var up := mem[p].ptr;
      if bp + mem[bp].size == up {
        mem := mem[bp := Header(mem[up].ptr, mem[bp].size + mem[up].size)];
      } else {
        mem := mem[bp := mem[bp].(ptr := up)];
      }
      if p + mem[p].size == bp {
        mem := mem[p := Header(mem[bp].ptr, mem[p].size + mem[bp].size)];
      } else {
        mem := mem[p := mem[p].(ptr := bp)];
      }
    }

    /** free(ap) */
    method Free(ap: nat)
      requires Valid() && ap > 0 && ap - 1 in l.live
      modifies this
      ensures Valid() && freep != 0
      ensures l.live == old(l.live) - {ap - 1} && l.pieces == old(l.pieces)
      ensures Undisturbed(l.live)
      ensures brk == old(brk) && top == old(top) && growths == old(growths)
      ensures exists home :: home in l.free && home in mem && mem[home].size >= old(l.blocks[ap - 1])
    {
      hide Stop, FreeList, Tiles, FreeAfter, BlocksAfter, JoinLower, JoinUpper;
      var bp := ap - 1;
      var p := FindPlace(bp);
      FreeKeepsInv(base, mem, top, l, p, bp);
      FreeKeepsAgreement(base, mem, top, l, p, bp);
      ListIsInMemory(base, mem, l.free);
      ghost var after := Freed(mem, l, p, bp);
      ghost var home := if p + mem[p].size == bp then p else bp;
      Join(p, bp);
      freep, l := p, after;
      ListIsInMemory(base, mem, l.free);
      assert home in l.free;
    }

    /** sbrk: moves the break and returns where it was. Growing fails when there is no room left; shrinking does not. */
    method Sbrk(bytes: int, room: bool) returns (p: nat, ok: bool)
      modifies this`brk, this`growths
      ensures ok == (room || bytes <= 0) && growths == old(growths) + 1
      ensures ok ==> p == old(brk) && brk == Moved(old(brk), bytes)
      ensures !ok ==> brk == old(brk)
    {
      growths, p, ok := growths + 1, brk, room || bytes <= 0;
      if ok {
        brk := Moved(brk, bytes);
      }
    }

    /** morecore: the header claims all that was asked for, whatever sbrk made of the byte count. */
    method MoreCore(nu: nat, room: bool) returns (p: nat)
      requires Valid() && Backed() && freep != 0
      modifies this
      ensures Valid() && freep != 0 && growths == old(growths) + 1
      ensures l.live == old(l.live) && Undisturbed(l.live)
      ensures p == 0 <==> !room && SbrkArgument(Asked(nu)) > 0
      ensures p == 0 ==> l == old(l) && brk == old(brk) && top == old(top)
      ensures p != 0 ==> p == freep && l.pieces == old(l.pieces) + [(old(brk), Asked(nu))]
      ensures p != 0 ==>
        brk == Moved(old(brk), SbrkArgument(Asked(nu))) && (Backed() <==> Asked(nu) * UNIT < 0x8000_0000)
      ensures p != 0 ==> exists home :: home in l.free && home in mem && mem[home].size >= nu
    {
      hide FreeList, Tiles, SbrkArgument, Moved;
      var n := if nu < MINCORE then MINCORE else nu;
      GrowthCovers(brk, n);
      GrowKeepsInv(base, mem, brk, l, n, Header(0, n));
      ghost var more, end := Grown(l, brk, n), brk + n;
      var hp, ok := Sbrk(SbrkArgument(n), room);
      if !ok {
        return 0;
      }
      mem := mem[hp := Header(0, n)];
      l, top := more, end;
      Free(hp + 1);
      p := freep;
    }

    /** Unlink an exact fit or carve the tail of a larger block. */
    method Take(prevp: nat, p: nat, nunits: nat) returns (ap: nat)
      requires Valid() && freep != 0 && prevp in l.free && p in l.free && p in mem && prevp in mem
      requires p == mem[prevp].ptr && mem[p].size >= nunits > 0
      modifies this`mem, this`freep, this`l
      ensures Valid() && freep != 0
      ensures ap > 0 && ap - 1 !in old(l.live) && l.live == old(l.live) + {ap - 1}
      ensures ap - 1 in l.blocks && l.blocks[ap - 1] == nunits
      ensures Undisturbed(old(l.live)) && l.pieces == old(l.pieces)
    {
      hide Inv;
      InvSets(base, mem, top, l);
      var q := p;
      if mem[p].size == nunits {
        TakeWhole(base, mem, top, l, prevp, p);
        mem := mem[prevp := mem[prevp].(ptr := mem[p].ptr)];
        l := TakenWhole(l, p);
      } else {
        q := p + mem[p].size - nunits;
        var h := Header(if q in mem then mem[q].ptr else 0, nunits);
        TakePart(base, mem, top, l, p, nunits, h);
        ghost var after := TakenPart(l, p, nunits);
        mem := mem[p := mem[p].(size := mem[p].size - nunits)][q := h];
        l := after;
      }
      freep := prevp;
      ap := q + 1;
    }

    /** The first lines of malloc: build the one-element list around base. */
    method Init()
      requires Valid()
      modifies this`mem, this`freep, this`l
      ensures Valid() && freep != 0 && l.live == old(l.live) && l.pieces == old(l.pieces)
      ensures Undisturbed(l.live) && (old(freep) != 0 ==> l == old(l) && mem == old(mem))
      ensures old(freep) == 0 ==> l.free == {base} && mem == old(mem)[base := Header(base, 0)]
    {
      hide FreeList, Tiles;
      if freep == 0 {
        EmptyHeap(base, mem, top);
        mem, freep := mem[base := Header(base, 0)], base;
        l := Layout({base}, {}, map[], []);
      }
    }

    /** The search loop of malloc: stops at the first block that is large enough, or reports that none is. */
    method Search(nunits: nat) returns (prevp: nat, p: nat, found: bool)
      requires Valid() && freep != 0
      ensures prevp in l.free && p in l.free && p in mem && prevp in mem && p == mem[prevp].ptr
      ensures found ==> mem[p].size >= nunits && forall a :: a in Visited(l.free, freep, p) ==> mem[a].size < nunits
      ensures !found ==> p == freep && forall a :: a in l.free ==> a in mem && mem[a].size < nunits
      ensures !found ==> forall a :: a in l.free && a != base ==> a in l.blocks && l.blocks[a] < nunits
    {
      hide Tiles, FreeList;
      prevp := freep;
      ListIsInMemory(base, mem, l.free);
      SearchStarts(base, mem, l.free, freep);
      p, found := mem[prevp].ptr, false;
      while true
        invariant prevp in l.free && p in l.free && p == mem[prevp].ptr
        invariant forall a :: a in Visited(l.free, freep, p) ==> mem[a].size < nunits
        decreases l.free - Visited(l.free, freep, p)
      {
        if mem[p].size >= nunits {
          return prevp, p, true;
        }
        if p == freep {
          SearchEnds(l.free, freep);
          return;
        }
        SearchAdvances(base, mem, l.free, freep, p);
        prevp, p := p, mem[p].ptr;
      }
    }

    /**
     malloc(nbytes). The two rounds of the source's loop, before and after morecore, are
     the two searches; `room` says whether sbrk has memory left.
     */
    method Malloc(nbytes: nat, room: bool) returns (ap: nat)
      requires Valid() && nbytes <= 0xFFFF_FFFF
      requires Backed() || exists a :: a in l.free && a in mem && mem[a].size >= Needed(nbytes)
      modifies this
      ensures Valid() && freep != 0
      ensures growths <= old(growths) + 1
      ensures growths > old(growths) ==>
        forall a :: a in old(l.free) && a != base ==> a in old(l.blocks) && old(l.blocks)[a] < Needed(nbytes)
      ensures ap == 0 ==> !room && growths > old(growths) && l.live == old(l.live) && l.pieces == old(l.pieces)
      ensures ap > 0 ==> ap - 1 !in old(l.live) && l.live == old(l.live) + {ap - 1}
      ensures ap > 0 ==> ap - 1 in l.blocks && l.blocks[ap - 1] == Needed(nbytes)
      ensures Undisturbed(old(l.live))
      ensures growths == old(growths) || ap == 0 ==>
        l.pieces == old(l.pieces) && brk == old(brk) && (Backed() <==> old(Backed()))
      ensures growths > old(growths) && ap > 0 ==>
        && l.pieces == old(l.pieces) + [(old(brk), Asked(Needed(nbytes)))]
        && brk == Moved(old(brk), SbrkArgument(Asked(Needed(nbytes))))
        && (Backed() <==> Asked(Needed(nbytes)) * UNIT < 0x8000_0000)
    {
      hide Inv, Asked, SbrkArgument, Moved;
      var nunits := Needed(nbytes);
      Init();
      var prevp, p, found := Search(nunits);
      if !found {
        p := MoreCore(nunits, room);
        if p == 0 {
          return 0;
        }
        prevp, p, found := Search(nunits);
      }
      ap := Take(prevp, p, nunits);
    }
  }
}
