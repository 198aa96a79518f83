/** The allocation wrappers and the ledger of live blocks behind them. The ledger's own map is
    allocated through the same wrappers, with the ledger switched off meanwhile. */
module Ledger {
  import opened Prelude

  /** An address; 0 is NULL. */
  type Ptr = nat

  /** What the map does with memory while it is updated: any sequence of these, on its blocks. */
  datatype Upkeep = Obtain | Resize(i: nat) | Release(i: nat)

  function Dropped(s: seq<Ptr>, p: Ptr): (r: seq<Ptr>)
    ensures forall x :: x in r <==> x in s && x != p
  {
    if s == [] then [] else if s[0] == p then Dropped(s[1..], p) else [s[0]] + Dropped(s[1..], p)
  }

  lemma {:induction false} DroppedDistinct(s: seq<Ptr>, p: Ptr)
    requires Distinct(s)
    ensures Distinct(Dropped(s, p))
  {
    if s != [] {
      DroppedDistinct(s[1..], p);
      assert s[0] !in s[1..];
    }
  }

  lemma Removed(s: seq<Ptr>, k: nat)
    requires Distinct(s) && k < |s|
    ensures
      var r := s[..k] + s[k + 1..];
      Distinct(r) && s[k] !in r && Elements(s) == Elements(r) + {s[k]}
  {
    var r := s[..k] + s[k + 1..];
    assert forall i :: 0 <= i < |r| ==> r[i] == s[if i < k then i else i + 1];
    forall x | x in s
      ensures x in r || x == s[k]
    {
      var i :| 0 <= i < |s| && s[i] == x;
      if i < k {
        assert r[i] == x;
      } else if i > k {
        assert r[i - 1] == x;
      }
    }
  }

  lemma Added(s: seq<Ptr>, p: Ptr)
    requires Distinct(s) && p !in s
    ensures Distinct(s + [p]) && Elements(s + [p]) == Elements(s) + {p}
  {
  }

  lemma Together(a: seq<Ptr>, b: seq<Ptr>)
    requires Distinct(a) && Distinct(b) && Elements(a) !! Elements(b)
    ensures Distinct(a + b) && Elements(a + b) == Elements(a) + Elements(b)
  {
    forall i, j | 0 <= i < |a| && 0 <= j < |b|
      ensures a[i] != b[j]
    {
      assert a[i] in Elements(a) && b[j] in Elements(b);
    }
  }

  class Heap {
    var live: set<Ptr>         // blocks obtained from the C library and not yet freed
    var top: Ptr               // an address above every live block
    var gcOn: bool
    var memMap: seq<Ptr>       // the ledger, in its iteration order
    var internal: seq<Ptr>     // the blocks of the ledger's own map
    var released: seq<Ptr>     // what was passed to free, so far

    /** The live blocks are those of the program and those of the ledger, which are apart. */
    ghost predicate Split(user: set<Ptr>)
      reads this
    {
      && live == user + Elements(internal) && user !! Elements(internal)
      && Distinct(internal) && Distinct(memMap)
      && 0 !in live && 0 < top && forall p :: p in live ==> p < top
    }

    /** The ledger holds exactly the live blocks of the program and none of its own. */
    ghost predicate Exact(user: set<Ptr>)
      reads this
    {
      gcOn && Split(user) && Elements(memMap) == user
    }

    constructor ()
      ensures Exact({}) && live == {} && memMap == [] && internal == []
    {
      live, top, gcOn, memMap, internal, released := {}, 1, true, [], [], [];
    }

    // ----- the C library

    method Malloc() returns (p: Ptr)
      requires 0 < top && forall q :: q in live ==> q < top
      modifies this`live, this`top
      ensures p != 0 && p !in old(live) && live == old(live) + {p}
      ensures 0 < top && forall q :: q in live ==> q < top
    {
      p := top;
      live := live + {p};
      top := top + 1;
    }

    /** The block may stay where it is or move. */
    method Realloc(p: Ptr, stays: bool) returns (q: Ptr)
      requires p == 0 || p in live
      requires 0 < top && (forall q :: q in live ==> q < top)
      modifies this`live, this`top
      ensures q != 0 && (q == p || q !in old(live)) && live == old(live) - {p} + {q}
      ensures 0 < top && forall q :: q in live ==> q < top
    {
      if stays && p != 0 { return p; }
      live := live - {p};
      q := top;
      live := live + {q};
      top := top + 1;
    }

    /** Freeing anything but a live block is an error. */
    method LibraryFree(p: Ptr)
      requires p in live
      modifies this`live, this`released
      ensures live == old(live) - {p} && released == old(released) + [p]
    {
      live := live - {p};
      released := released + [p];
    }

    // ----- the wrappers

    method AllocateMemoryBlock(plan: seq<Upkeep>, ghost user: set<Ptr>) returns (p: Ptr)
      requires Split(user)
      modifies this
      ensures p != 0 && p !in user && p !in old(live) && Split(user + {p}) && gcOn == old(gcOn)
      ensures old(Exact(user)) ==> Exact(user + {p})
      ensures if gcOn then memMap == Dropped(old(memMap), p) + [p] else memMap == old(memMap) && internal == old(internal)
      decreases gcOn, 2
    {
      p := Malloc();
      OnAlloc(p, plan, user + {p});
    }

    method ReallocateMemoryBlock(p: Ptr, stays: bool, plan: seq<Upkeep>, ghost user: set<Ptr>) returns (q: Ptr)
      requires Split(user) && (p == 0 || p in user)
      modifies this
      ensures q != 0 && q !in user - {p} && (q == p || q !in old(live))
      ensures Split(user - {p} + {q}) && gcOn == old(gcOn)
      ensures old(Exact(user)) ==> Exact(user - {p} + {q})
      ensures if !gcOn then memMap == old(memMap) && internal == old(internal)
              else if p == 0 then memMap == Dropped(old(memMap), q) + [q]
              else memMap == Dropped(Dropped(old(memMap), p), q) + [q]
      decreases gcOn, 3
    {
      if p == 0 {
        q := AllocateMemoryBlock(plan, user);
        assert user - {p} == user;
        return;
      }
      q := Realloc(p, stays);
      OnFree(p, plan, user - {p} + {q});
      OnAlloc(q, plan, user - {p} + {q});
    }

    /** The array form also accepts NULL, which it passes on to the ledger. */
    method ReallocateMemoryBlockArray(p: Ptr, stays: bool, plan: seq<Upkeep>, ghost user: set<Ptr>) returns (q: Ptr)
      requires Split(user) && (p == 0 || p in user)
      modifies this
      ensures q != 0 && q !in user - {p} && (q == p || q !in old(live))
      ensures Split(user - {p} + {q}) && gcOn == old(gcOn)
      ensures old(Exact(user)) ==> Exact(user - {p} + {q})
      ensures if !gcOn then memMap == old(memMap) && internal == old(internal)
              else if p == 0 then memMap == Dropped(old(memMap), q) + [q]
              else memMap == Dropped(Dropped(old(memMap), p), q) + [q]
      decreases gcOn, 3
    {
      q := Realloc(p, stays);
      OnFree(p, plan, user - {p} + {q});
      OnAlloc(q, plan, user - {p} + {q});
    }

    method FreePtr(p: Ptr, plan: seq<Upkeep>, ghost user: set<Ptr>)
      requires Split(user) && (p == 0 || p in user)
      modifies this
      ensures Split(user - {p}) && gcOn == old(gcOn)
      ensures old(Exact(user)) ==> Exact(user - {p})
      ensures !gcOn && p != 0 ==> released == old(released) + [p]
      ensures if !gcOn then memMap == old(memMap) && internal == old(internal)
              else if p == 0 then memMap == old(memMap) else memMap == Dropped(old(memMap), p)
      decreases gcOn, 3
    {
      if p != 0 {
        OnFree(p, plan, user);
        LibraryFree(p);
      }
      assert p == 0 ==> user - {p} == user;
    }

    // ----- the ledger

    /** Mode 0. Called while the ledger is off, it does nothing. */
    method OnAlloc(p: Ptr, plan: seq<Upkeep>, ghost user: set<Ptr>)
      requires Split(user) && p != 0
      modifies this
      ensures Split(user) && gcOn == old(gcOn)
      ensures if gcOn then memMap == Dropped(old(memMap), p) + [p] else memMap == old(memMap) && internal == old(internal)
      decreases gcOn, 1
    {
      if !gcOn { return; }
      gcOn := false;
      Maintain(plan, user);
      DroppedDistinct(memMap, p);
      Added(Dropped(memMap, p), p);
      memMap := Dropped(memMap, p) + [p];
      gcOn := true;
    }

    /** Mode 1. A NULL key is ignored by the map. */
    method OnFree(p: Ptr, plan: seq<Upkeep>, ghost user: set<Ptr>)
      requires Split(user)
      modifies this
      ensures Split(user) && gcOn == old(gcOn)
      ensures !gcOn ==> live == old(live) && released == old(released)
      ensures if !gcOn then memMap == old(memMap) && internal == old(internal)
              else if p == 0 then memMap == old(memMap) else memMap == Dropped(old(memMap), p)
      decreases gcOn, 1
    {
      if !gcOn { return; }
      gcOn := false;
      Maintain(plan, user);
      if p != 0 {
        DroppedDistinct(memMap, p);
        memMap := Dropped(memMap, p);
      }
      gcOn := true;
    }

    /** The map's own allocations, through the wrappers, while the ledger is off. */
    method Maintain(plan: seq<Upkeep>, ghost user: set<Ptr>)
      requires Split(user) && !gcOn
      modifies this
      ensures Split(user) && !gcOn && memMap == old(memMap)
      decreases gcOn, 4
    {
      for i := 0 to |plan|
        invariant Split(user) && !gcOn && memMap == old(memMap)
      {
        match plan[i] {
          case Obtain =>
            var p := AllocateMemoryBlock([], user);
            Added(internal, p);
            internal := internal + [p];
          case Resize(k) =>
            if k < |internal| {
              var p := internal[k];
              Removed(internal, k);
              internal := internal[..k] + internal[k + 1..];
              var q := ReallocateMemoryBlockArray(p, k % 2 == 0, [], user + {p});
              assert user + {p} - {p} + {q} == user + {q};
              Added(internal, q);
              internal := internal + [q];
            }
          case Release(k) =>
            if k < |internal| {
              var p := internal[k];
              Removed(internal, k);
              internal := internal[..k] + internal[k + 1..];
              FreePtr(p, [], user + {p});
              assert user + {p} - {p} == user;
            }
        }
      }
    }

    // ----- any sequence of calls, and the final cleanup

    /** Mode 2: frees every block in the ledger, then the ledger's own map. The calls of free
        are for the live blocks, all of them and each once. */
    method FreeAll(ghost user: set<Ptr>) returns (ghost freed: seq<Ptr>)
      requires Exact(user)
      modifies this
      ensures released == old(released) + freed && Distinct(freed) && Elements(freed) == old(live)
      ensures live == {} && memMap == [] && internal == [] && gcOn
    {
      gcOn := false;
      freed := memMap + internal;
      ghost var known, own := memMap, internal;
      Together(known, own);
      var i := 0;
      while i < |memMap|
        modifies this`live, this`released
        invariant 0 <= i <= |memMap|
        invariant live == Elements(memMap[i..]) + Elements(internal)
        invariant released == old(released) + memMap[..i]
      {
        assert memMap[i..][0] == memMap[i] && memMap[i..][1..] == memMap[i + 1..];
        FirstOut(memMap[i..]);
        assert memMap[i] in memMap;
        LibraryFree(memMap[i]);
        i := i + 1;
      }
      assert known[..i] == known && known + own[..0] == known;
      memMap := [];
      ghost var k := 0;
      while internal != []
        modifies this
        invariant live == Elements(internal) && !gcOn && memMap == [] && Split({})
        invariant k <= |own| && internal == own[k..] && released == old(released) + (known + own[..k])
        decreases |internal|
      {
        var p := internal[0];
        Removed(internal, 0);
        internal := internal[1..];
        FreePtr(p, [], {p});
        k := k + 1;
        assert own[..k] == own[..k - 1] + [p];
      }
      gcOn := true;
      assert own[..k] == own;
    }

    lemma FirstOut(s: seq<Ptr>)
      requires s != [] && Distinct(s)
      ensures Elements(s) == {s[0]} + Elements(s[1..]) && s[0] !in Elements(s[1..])
    {
    }
  }

  /** A request of the program. Blocks are named by their position among those it holds; a
      position past the end stands for NULL. */
  datatype Request =
    | Allocate
    | Reallocate(i: nat, stays: bool)
    | ReallocateArray(i: nat, stays: bool)
    | Free(i: nat)

  /** What there is between two requests: the blocks the program holds, in the order by which it
      names them, the live blocks, the ledger, and the blocks of its map. */
  datatype Snapshot = Snapshot(held: seq<Ptr>, live: set<Ptr>, memMap: seq<Ptr>, internal: seq<Ptr>)
  {
    /** The ledger lists each block of the program once, nothing else, and none of its own. */
    ghost predicate Exact() {
      && Distinct(held) && Distinct(memMap) && Elements(memMap) == Elements(held)
      && live == Elements(held) + Elements(internal) && Elements(held) !! Elements(internal)
    }

    /** The block the program calls the `k`-th. */
    function Named(k: nat): Ptr {
      if k < |held| then held[k] else 0
    }
  }

  /** The program's blocks after a request: one block more, one replaced by the block it moved to,
      or one less. */
  predicate Follows(s: Snapshot, r: Request, t: Snapshot) {
    match r
    case Allocate => |t.held| == |s.held| + 1 && t.held[..|s.held|] == s.held && t.held[|s.held|] !in s.live
    case Reallocate(k, _) => Moved(s, k, t)
    case ReallocateArray(k, _) => Moved(s, k, t)
    case Free(k) => t.held == Without(s.held, k)
  }

  predicate Moved(s: Snapshot, k: nat, t: Snapshot) {
    var rest := Without(s.held, k);
    && |t.held| == |rest| + 1 && t.held[..|rest|] == rest
    && (t.held[|rest|] == s.Named(k) || t.held[|rest|] !in s.live) && t.held[|rest|] != 0
  }

  /** Over any sequence of requests, whatever the map does to maintain itself, the program's blocks
      follow the requests and the ledger is exact after each; and the cleanup then frees every block
      that is live, each once. */
  method RunProgram(requests: seq<Request>, plans: seq<seq<Upkeep>>)
    returns (h: Heap, ghost history: seq<Snapshot>, ghost before: seq<Ptr>, ghost freed: seq<Ptr>)
    requires |plans| == |requests|
    ensures |history| == |requests| + 1 && history[0] == Snapshot([], {}, [], [])
    ensures forall i :: 0 <= i <= |requests| ==> history[i].Exact()
    ensures forall i :: 0 <= i < |requests| ==> Follows(history[i], requests[i], history[i + 1])
    ensures Distinct(freed) && Elements(freed) == history[|requests|].live
    ensures h.released == before + freed && h.live == {} && h.memMap == []
  {
    h := new Heap();
    var mine: seq<Ptr> := [];
    history := [Snapshot(mine, h.live, h.memMap, h.internal)];
    for i := 0 to |requests|
      invariant fresh(h) && h.Exact(Elements(mine)) && Distinct(mine)
      invariant |history| == i + 1 && history[i] == Snapshot(mine, h.live, h.memMap, h.internal)
      invariant history[0] == Snapshot([], {}, [], [])
      invariant forall j :: 0 <= j <= i ==> history[j].Exact()
      invariant forall j :: 0 <= j < i ==> Follows(history[j], requests[j], history[j + 1])
    {
      mine := Serve(h, mine, requests[i], plans[i]);
      history := history + [Snapshot(mine, h.live, h.memMap, h.internal)];
    }
    before := h.released;
    freed := h.FreeAll(Elements(mine));
  }

  /** One request. */
  method Serve(h: Heap, mine: seq<Ptr>, request: Request, plan: seq<Upkeep>) returns (now: seq<Ptr>)
    requires h.Exact(Elements(mine)) && Distinct(mine)
    modifies h
    ensures h.Exact(Elements(now)) && Distinct(now)
    ensures Follows(Snapshot(mine, old(h.live), old(h.memMap), old(h.internal)), request,
                    Snapshot(now, h.live, h.memMap, h.internal))
  {
    match request {
      case Allocate =>
        var p := h.AllocateMemoryBlock(plan, Elements(mine));
        Added(mine, p);
        now := mine + [p];
      case Reallocate(k, stays) =>
        var p := if k < |mine| then mine[k] else 0;
        var q := h.ReallocateMemoryBlock(p, stays, plan, Elements(mine));
        now := Exchange(mine, k, p, q);
      case ReallocateArray(k, stays) =>
        var p := if k < |mine| then mine[k] else 0;
        var q := h.ReallocateMemoryBlockArray(p, stays, plan, Elements(mine));
        now := Exchange(mine, k, p, q);
      case Free(k) =>
        var p := if k < |mine| then mine[k] else 0;
        h.FreePtr(p, plan, Elements(mine));
        now := mine;
        if k < |mine| {
          Removed(mine, k);
          now := mine[..k] + mine[k + 1..];
        }
    }
  }

  /** The program's blocks after a reallocation of its `k`-th from `p` to `q`. */
  method Exchange(mine: seq<Ptr>, k: nat, p: Ptr, q: Ptr) returns (r: seq<Ptr>)
    requires Distinct(mine) && p == (if k < |mine| then mine[k] else 0)
    requires 0 !in mine && q !in Elements(mine) - {p}
    ensures Distinct(r) && Elements(r) == Elements(mine) - {p} + {q}
    ensures r == Without(mine, k) + [q]
  {
    r := Without(mine, k);
    if k < |mine| {
      Removed(mine, k);
    }
    Added(r, q);
    r := r + [q];
  }
}
