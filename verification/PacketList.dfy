/**
  One precedence of the packet queue of bcmutils.c (`struct pktq_prec`): an intrusive singly
  linked list of packets with head, tail and length.  `chain` is the list as a sequence; the
  operations are the pieces of the queue operations that work on a single list.
 */
module PacketList {
  import opened Options

  /** A packet as the queue sees it: an identity with a link field. */
  class Packet {
    var link: Packet?

    constructor ()
      ensures link == null
    {
      link := null;
    }
  }

  /** The packets of a chain; recursive so that proofs unfold it only where they ask for it. */
  ghost function NodeSet(c: seq<Packet>): set<Packet> {
    if c == [] then {} else NodeSet(c[..|c| - 1]) + {c[|c| - 1]}
  }

  lemma {:induction false} InNodeSet(c: seq<Packet>, p: Packet)
    ensures p in NodeSet(c) <==> p in c
  {
    if c != [] {
      InNodeSet(c[..|c| - 1], p);
      assert c == c[..|c| - 1] + [c[|c| - 1]];
    }
  }

  lemma NodeSetAppend(c: seq<Packet>, p: Packet)
    ensures NodeSet(c + [p]) == NodeSet(c) + {p}
  {
    assert (c + [p])[..|c|] == c;
  }

  lemma {:induction false} NodeSetPrepend(c: seq<Packet>, p: Packet)
    ensures NodeSet([p] + c) == NodeSet(c) + {p}
  {
    var d := [p] + c;
    if c == [] {
      assert d == [] + [p];
      NodeSetAppend([], p);
    } else {
      assert d[..|d| - 1] == [p] + c[..|c| - 1];
      NodeSetPrepend(c[..|c| - 1], p);
    }
  }

  lemma {:induction false} NodeSetRemove(c: seq<Packet>, k: nat)
    requires k < |c|
    requires forall i, j | 0 <= i < j < |c| :: c[i] != c[j]
    ensures NodeSet(c[..k] + c[k + 1..]) == NodeSet(c) - {c[k]}
  {
    var n := |c| - 1;
    var d := c[..k] + c[k + 1..];
    if k == n {
      assert d == c[..n];
      InNodeSet(c[..n], c[n]);
    } else {
      assert d[..n - 1] == c[..n][..k] + c[..n][k + 1..];
      NodeSetRemove(c[..n], k);
    }
  }

  lemma NodeSetTail(c: seq<Packet>)
    requires c != []
    requires forall i, j | 0 <= i < j < |c| :: c[i] != c[j]
    ensures NodeSet(c[1..]) == NodeSet(c) - {c[0]}
  {
    NodeSetRemove(c, 0);
    assert c[..0] + c[1..] == c[1..];
  }

  lemma NodeSetInit(c: seq<Packet>)
    requires c != []
    requires forall i, j | 0 <= i < j < |c| :: c[i] != c[j]
    ensures NodeSet(c[..|c| - 1]) == NodeSet(c) - {c[|c| - 1]}
  {
    NodeSetRemove(c, |c| - 1);
    assert c[..|c| - 1] + c[|c|..] == c[..|c| - 1];
  }

  /** The tail once the packet at position `k` of a list is unlinked by `pktq_pdel`. */
  function TailWithout(c: seq<Packet>, tail: Packet?, k: nat): Packet?
    requires k < |c|
  {
    if k == 0 then if |c| == 1 then null else tail
    else if tail == c[k] then c[k - 1] else tail
  }

  /** Whether `pktq_pflush` frees `p`: always without a filter. */
  predicate Drops(fn: Option<Packet -> bool>, p: Packet) {
    fn.None? || fn.value(p)
  }

  /** The packets a flush leaves queued, in order. */
  function Kept(fn: Option<Packet -> bool>, c: seq<Packet>): seq<Packet> {
    if c == [] then [] else (if Drops(fn, c[0]) then [] else [c[0]]) + Kept(fn, c[1..])
  }

  /** The packets a flush frees, in order. */
  function Freed(fn: Option<Packet -> bool>, c: seq<Packet>): seq<Packet> {
    if c == [] then [] else (if Drops(fn, c[0]) then [c[0]] else []) + Freed(fn, c[1..])
  }

  /** The flush loop as a function: the list and the freed packets once `c` is scanned from `k`. */
  ghost function FlushFrom(fn: Option<Packet -> bool>, c: seq<Packet>, k: nat, freed: seq<Packet>)
    : (seq<Packet>, seq<Packet>)
    requires k <= |c|
    decreases |c| - k
  {
    if k == |c| then (c, freed)
    else if Drops(fn, c[k]) then FlushFrom(fn, c[..k] + c[k + 1..], k, freed + [c[k]])
    else FlushFrom(fn, c, k + 1, freed)
  }

  /** Whether the last packet of the list survives the flush, or the flush empties the list. */
  ghost predicate KeepsTail(fn: Option<Packet -> bool>, c: seq<Packet>) {
    c == [] || !Drops(fn, c[|c| - 1]) || (forall i | 0 <= i < |c| :: Drops(fn, c[i]))
  }

  lemma {:induction false} FlushFromSplit(fn: Option<Packet -> bool>, c: seq<Packet>, k: nat, freed: seq<Packet>)
    requires k <= |c|
    ensures FlushFrom(fn, c, k, freed) == (c[..k] + Kept(fn, c[k..]), freed + Freed(fn, c[k..]))
    decreases |c| - k
  {
    if k == |c| {
      assert c[k..] == [] && c[..k] == c && c + [] == c && freed + [] == freed;
    } else {
      assert c[k..][1..] == c[k + 1..];
      if Drops(fn, c[k]) {
        var d := c[..k] + c[k + 1..];
        FlushFromSplit(fn, d, k, freed + [c[k]]);
        assert d[..k] == c[..k] && d[k..] == c[k + 1..];
        assert Kept(fn, c[k..]) == Kept(fn, c[k + 1..]);
        assert (freed + [c[k]]) + Freed(fn, c[k + 1..]) == freed + ([c[k]] + Freed(fn, c[k + 1..]));
      } else {
        FlushFromSplit(fn, c, k + 1, freed);
        assert c[..k + 1] == c[..k] + [c[k]];
        assert Freed(fn, c[k..]) == Freed(fn, c[k + 1..]);
        assert (c[..k] + [c[k]]) + Kept(fn, c[k + 1..]) == c[..k] + ([c[k]] + Kept(fn, c[k + 1..]));
      }
    }
  }

  lemma FlushResult(fn: Option<Packet -> bool>, c: seq<Packet>)
    ensures FlushFrom(fn, c, 0, []) == (Kept(fn, c), Freed(fn, c))
  {
    FlushFromSplit(fn, c, 0, []);
    assert c[0..] == c && c[..0] + Kept(fn, c) == Kept(fn, c) && [] + Freed(fn, c) == Freed(fn, c);
  }

  lemma {:induction false} KeepsNothing(fn: Option<Packet -> bool>, c: seq<Packet>)
    ensures Kept(fn, c) == [] <==> forall i | 0 <= i < |c| :: Drops(fn, c[i])
  {
    if c != [] {
      hide Drops;
      KeepsNothing(fn, c[1..]);
      if Kept(fn, c) == [] {
        forall i | 0 <= i < |c| ensures Drops(fn, c[i]) {
          assert i > 0 ==> c[i] == c[1..][i - 1];
        }
      } else if Drops(fn, c[0]) {
        var i :| 0 <= i < |c[1..]| && !Drops(fn, c[1..][i]);
        assert !Drops(fn, c[i + 1]);
      }
    }
  }

  lemma {:induction false} KeepsLast(fn: Option<Packet -> bool>, c: seq<Packet>)
    requires c != [] && !Drops(fn, c[|c| - 1])
    ensures Kept(fn, c) != [] && Kept(fn, c)[|Kept(fn, c)| - 1] == c[|c| - 1]
  {
    hide Drops;
    if |c| > 1 {
      KeepsLast(fn, c[1..]);
    } else {
      assert Kept(fn, c) == [c[0]] + Kept(fn, []);
    }
  }

  lemma {:induction false} KeptPasses(fn: Option<Packet -> bool>, c: seq<Packet>)
    ensures forall i | 0 <= i < |Kept(fn, c)| :: !Drops(fn, Kept(fn, c)[i])
  {
    hide Drops;
    if c != [] {
      KeptPasses(fn, c[1..]);
    }
  }

  /** The tail pointer, which a filtered flush does not repair, is right exactly in these cases. */
  lemma StaleTail(fn: Option<Packet -> bool>, c: seq<Packet>)
    ensures var k := Kept(fn, c); KeepsTail(fn, c) <==> k == [] || k[|k| - 1] == c[|c| - 1]
  {
    KeepsNothing(fn, c);
    KeptPasses(fn, c);
    if c != [] && !Drops(fn, c[|c| - 1]) {
      KeepsLast(fn, c);
    }
  }

  lemma {:induction false} KeptPlusFreed(fn: Option<Packet -> bool>, c: seq<Packet>)
    ensures |Kept(fn, c)| + |Freed(fn, c)| == |c|
    ensures multiset(Kept(fn, c)) + multiset(Freed(fn, c)) == multiset(c)
  {
    if c != [] {
      KeptPlusFreed(fn, c[1..]);
      assert c == [c[0]] + c[1..];
    }
  }

  class PrecList {
    var head: Packet?
    var tail: Packet?
    var len: nat
    var max: nat
    ghost var chain: seq<Packet>
    ghost var nodes: set<Packet>

    /** Everything except the tail, which a filtered flush may leave stale. */
    ghost predicate ValidButTail()
      reads this, nodes
    {
      && (forall k | 0 <= k < |chain| :: chain[k] in nodes)
      && nodes == NodeSet(chain)
      && (forall k, l | 0 <= k < l < |chain| :: chain[k] != chain[l])
      && len == |chain|
      && head == (if chain == [] then null else chain[0])
      && (forall k | 0 <= k < |chain| - 1 :: chain[k].link == chain[k + 1])
      && (chain != [] ==> chain[|chain| - 1].link == null)
    }

    ghost predicate TailValid()
      reads this
    {
      tail == if chain == [] then null else chain[|chain| - 1]
    }

    ghost predicate Valid()
      reads this, nodes
    {
      ValidButTail() && TailValid()
    }

    /** Following the links from the head gives `c`. */
    ghost predicate Leads(c: seq<Packet>)
      reads this, c
    {
      && head == (if c == [] then null else c[0])
      && (forall k | 0 <= k < |c| - 1 :: c[k].link == c[k + 1])
      && (c != [] ==> c[|c| - 1].link == null)
    }

    constructor (maxLen: nat)
      ensures Valid() && chain == [] && max == maxLen && nodes == {}
    {
      head, tail, len, max, chain, nodes := null, null, 0, maxLen, [], {};
    }

    /** The list part of `pktq_penq`. */
    method Append(p: Packet)
      requires Valid() && p.link == null && p !in nodes
      modifies this, tail
      ensures Valid() && max == old(max)
      ensures chain == old(chain) + [p] && nodes == old(nodes) + {p}
    {
      if head != null {
        tail.link := p;
      } else {
        head := p;
      }
      tail := p;
      len := len + 1;
      NodeSetAppend(chain, p);
      chain, nodes := chain + [p], nodes + {p};
    }

    /**
      The same statements where the tail may be stale: the list gets the packet at its end
      exactly if the tail was right.  Behind a tail that is off the list the packet is lost.
     */
    method AppendBehindTail(p: Packet)
      requires ValidButTail() && (tail == null <==> chain == []) && p.link == null && p !in nodes
      modifies this, tail
      ensures chain == old(chain) && nodes == old(nodes) && len == |chain| + 1 && tail == p
      ensures Leads(chain + [p]) <==> old(TailValid())
      ensures old(tail) != null && old(tail) !in nodes ==> Leads(chain)
    {
      if head != null {
        tail.link := p;
      } else {
        head := p;
      }
      tail := p;
      len := len + 1;
      ghost var d := chain + [p];
      assert forall k | 0 <= k < |chain| :: d[k] == chain[k] && d[k] in nodes;
      assert chain != [] ==> d[|chain| - 1].link == if old(TailValid()) then p else null;
      assert Leads(d) ==> forall k | 0 <= k < |d| - 1 :: d[k].link == d[k + 1];
    }

    /** The list part of `pktq_penq_head`, which does not look at the tail. */
    method Prepend(p: Packet)
      requires ValidButTail() && p.link == null && p !in nodes
      modifies this, p
      ensures ValidButTail() && max == old(max) && tail == if old(chain) == [] then p else old(tail)
      ensures chain == [p] + old(chain) && nodes == old(nodes) + {p}
    {
      if head == null {
        tail := p;
      }
      p.link := head;
      head := p;
      len := len + 1;
      NodeSetPrepend(chain, p);
      chain, nodes := [p] + chain, nodes + {p};
    }

    /** Unlink the first packet, leaving the tail alone. */
    method DropHead() returns (p: Packet)
      requires ValidButTail() && chain != []
      modifies this, head
      ensures ValidButTail() && max == old(max) && tail == old(tail)
      ensures p == old(chain)[0] && p.link == null
      ensures chain == old(chain)[1..] && nodes == old(nodes) - {p}
    {
      p := head;
      assert p == chain[0];
      head := p.link;
      len := len - 1;
      p.link := null;
      NodeSetTail(chain);
      chain, nodes := chain[1..], nodes - {p};
      assert forall k | 0 <= k < |chain| :: chain[k] == old(chain)[k + 1];
    }

    /** The list part of `pktq_pdeq`, `pktq_deq` and `pktq_mdeq`, which do not look at the tail. */
    method TakeHead() returns (p: Packet)
      requires ValidButTail() && chain != []
      modifies this, head
      ensures ValidButTail() && max == old(max) && tail == if chain == [] then null else old(tail)
      ensures p == old(chain)[0] && p.link == null
      ensures chain == old(chain)[1..] && nodes == old(nodes) - {p}
    {
      p := DropHead();
      if head == null {
        tail := null;
      }
    }

    /** The list part of `pktq_pdeq_tail` and `pktq_deq_tail`. */
    method TakeTail() returns (p: Packet)
      requires Valid() && chain != []
      modifies this, nodes
      ensures Valid() && max == old(max)
      ensures p == old(chain)[|old(chain)| - 1] && p.link == null
      ensures chain == old(chain)[..|old(chain)| - 1] && nodes == old(nodes) - {p}
    {
      p := head;
      var prev: Packet? := null;
      ghost var k := 0;
      while p != tail
        invariant 0 <= k < |chain| && p == chain[k]
        invariant prev == if k == 0 then null else chain[k - 1]
        decreases |chain| - k
      {
        prev := p;
        assert k < |chain| - 1 && chain[k].link == chain[k + 1];
        p := p.link;
        k := k + 1;
      }
      assert k == |chain| - 1 && p.link == null;
      if prev != null {
        prev.link := null;
      } else {
        head := null;
      }
      tail := prev;
      len := len - 1;
      NodeSetInit(chain);
      chain, nodes := chain[..k], nodes - {p};
    }

    /** What removing position `k` leaves behind. */
    static lemma RemovedFrom(c: seq<Packet>, k: nat)
      requires k < |c|
      requires forall i, j | 0 <= i < j < |c| :: c[i] != c[j]
      ensures var d := c[..k] + c[k + 1..];
              && (forall i | 0 <= i < |d| :: d[i] == if i < k then c[i] else c[i + 1])
              && (forall i, j | 0 <= i < j < |d| :: d[i] != d[j])
              && (forall i | 0 <= i < |d| :: d[i] != c[k])
    {
    }

    /** The search of `pktq_pdel`: the packet whose link is `pktbuf`. */
    method FindBefore(pktbuf: Packet) returns (p: Packet?, ghost k: nat)
      requires ValidButTail() && head != pktbuf
      ensures p == null ==> pktbuf !in chain
      ensures p != null ==> k < |chain| - 1 && p == chain[k] && chain[k + 1] == pktbuf
    {
      p, k := head, 0;
      while p != null && p.link != pktbuf
        invariant p == if k < |chain| then chain[k] else null
        invariant 0 <= k <= |chain|
        invariant forall l | 0 <= l <= k && l < |chain| :: chain[l] != pktbuf
        decreases |chain| - k
      {
        p := p.link;
        k := k + 1;
      }
    }

    /** A list whose `k`-th packet links past its successor is the list without it. */
    static lemma Relinked(c: seq<Packet>, k: nat)
      requires k < |c| - 1
      requires forall i | 0 <= i < |c| - 1 && i != k && i != k + 1 :: c[i].link == c[i + 1]
      requires c[k].link == if k + 2 < |c| then c[k + 2] else null
      requires k + 2 < |c| ==> c[|c| - 1].link == null
      ensures var d := c[..k + 1] + c[k + 2..];
              && (forall i | 0 <= i < |d| - 1 :: d[i].link == d[i + 1])
              && d[|d| - 1].link == null
    {
      var d := c[..k + 1] + c[k + 2..];
      forall i | 0 <= i < |d| - 1
        ensures d[i].link == d[i + 1]
      {
        if i < k {
          assert c[i].link == c[i + 1];
        } else if i > k {
          assert c[i + 1].link == c[i + 2];
        }
      }
    }

    /** Unlink `pktbuf`, which is not the first packet, leaving the tail alone. */
    method UnlinkAfter(p: Packet, pktbuf: Packet, ghost k: nat)
      requires ValidButTail() && k < |chain| - 1 && p == chain[k] && chain[k + 1] == pktbuf
      modifies this, p, pktbuf
      ensures ValidButTail() && max == old(max) && tail == old(tail)
      ensures chain == old(chain)[..k + 1] + old(chain)[k + 2..]
      ensures nodes == old(nodes) - {pktbuf} && pktbuf.link == null
    {
      p.link := pktbuf.link;
      len := len - 1;
      pktbuf.link := null;
      ghost var c := chain;
      chain, nodes := chain[..k + 1] + chain[k + 2..], nodes - {pktbuf};
      RemovedFrom(c, k + 1);
      NodeSetRemove(c, k + 1);
      Relinked(c, k);
    }

    /** `pktq_pdel` on one list: unlink `pktbuf` wherever it is; `at` is where it was. */
    method Delete(pktbuf: Packet) returns (found: bool, ghost at: nat)
      requires ValidButTail()
      modifies this, nodes
      ensures ValidButTail() && max == old(max)
      ensures found == (pktbuf in old(nodes))
      ensures !found ==> chain == old(chain) && nodes == old(nodes) && tail == old(tail)
      ensures found ==> at < |old(chain)| && old(chain)[at] == pktbuf
      ensures found ==> chain == old(chain)[..at] + old(chain)[at + 1..]
      ensures found ==> nodes == old(nodes) - {pktbuf} && pktbuf.link == null
      ensures found ==> tail == TailWithout(old(chain), old(tail), at)
    {
      if head == pktbuf {
        at := 0;
        var _ := TakeHead();
      } else {
        var p: Packet?;
        p, at := FindBefore(pktbuf);
        InNodeSet(chain, pktbuf);
        if p == null {
          return false, at;
        }
        UnlinkAfter(p, pktbuf, at);
        if tail == pktbuf {
          tail := p;
        }
        at := at + 1;
      }
      found := true;
    }

    /** The freeing branch of `pktq_pflush`: unlink `p` behind `prev` and find the next packet. */
    method FlushOne(p: Packet, prev: Packet?, ghost k: nat) returns (next: Packet?)
      requires ValidButTail() && k < |chain| && p == chain[k]
      requires prev == if k == 0 then null else chain[k - 1]
      modifies this, nodes
      ensures ValidButTail() && max == old(max) && tail == old(tail)
      ensures chain == old(chain)[..k] + old(chain)[k + 1..]
      ensures nodes == old(nodes) - {p} && p.link == null
      ensures next == if k < |chain| then chain[k] else null
    {
      var isHead := p == head;
      assert isHead <==> k == 0;
      if isHead {
        var _ := DropHead();
        next := head;
      } else {
        UnlinkAfter(prev, p, k - 1);
        assert prev == chain[k - 1];
        next := prev.link;
      }
    }

    /** One turn of the loop of `pktq_pflush`: look at `p`, the packet at position `k`. */
    method FlushTurn(fn: Option<Packet -> bool>, p: Packet, prev: Packet?, ghost k: nat)
      returns (dropped: bool, next: Packet?, last: Packet?, ghost j: nat)
      requires ValidButTail() && k < |chain| && p == chain[k]
      requires prev == if k == 0 then null else chain[k - 1]
      modifies this, nodes
      ensures ValidButTail() && max == old(max) && tail == old(tail)
      ensures dropped == Drops(fn, p) && j == if dropped then k else k + 1
      ensures chain == if dropped then old(chain)[..k] + old(chain)[k + 1..] else old(chain)
      ensures nodes == if dropped then old(nodes) - {p} else old(nodes)
      ensures dropped ==> p.link == null
      ensures j <= |chain| && next == if j < |chain| then chain[j] else null
      ensures last == if j == 0 then null else chain[j - 1]
    {
      dropped := fn.None? || fn.value(p);
      if dropped {
        next := FlushOne(p, prev, k);
        last, j := prev, k;
      } else {
        next, last, j := p.link, p, k + 1;
      }
    }

    /** The loop of `pktq_pflush`: free every packet the filter selects; `fn` may be absent. */
    method Flush(fn: Option<Packet -> bool>) returns (freed: seq<Packet>)
      requires ValidButTail()
      modifies this, nodes
      ensures ValidButTail() && max == old(max)
      ensures chain == Kept(fn, old(chain)) && freed == Freed(fn, old(chain))
      ensures nodes <= old(nodes) && forall x | x in old(nodes) && x !in nodes :: x.link == null
      ensures tail == if chain == [] then null else old(tail)
    {
      freed := [];
      var p := head;
      var prev: Packet? := null;
      ghost var k := 0;
      while p != null
        invariant ValidButTail() && max == old(max) && tail == old(tail) && nodes <= old(nodes)
        invariant k <= |chain| && p == if k < |chain| then chain[k] else null
        invariant prev == if k == 0 then null else chain[k - 1]
        invariant FlushFrom(fn, chain, k, freed) == FlushFrom(fn, old(chain), 0, [])
        invariant forall x | x in old(nodes) && x !in nodes :: x.link == null
        decreases |chain| - k
      {
        var dropped, next;
        ghost var j;
        dropped, next, prev, j := FlushTurn(fn, p, prev, k);
        if dropped {
          freed := freed + [p];
        }
        p, k := next, j;
      }
      FlushResult(fn, old(chain));
      if head == null {
        tail := null;
      }
    }
  
    /** `pktq_pflush` on one list: the tail stays right exactly when `KeepsTail` says so. */
    method FlushList(fn: Option<Packet -> bool>) returns (freed: seq<Packet>)
      requires ValidButTail()
      modifies this, nodes
      ensures ValidButTail() && max == old(max)
      ensures chain == Kept(fn, old(chain)) && freed == Freed(fn, old(chain))
      ensures nodes <= old(nodes) && forall x | x in old(nodes) && x !in nodes :: x.link == null
      ensures tail == if chain == [] then null else old(tail)
      ensures old(TailValid()) ==> (TailValid() <==> KeepsTail(fn, old(chain)))
    {
      hide ValidButTail, KeepsTail, Freed;
      StaleTail(fn, chain);
      freed := Flush(fn);
    }
  }
}
