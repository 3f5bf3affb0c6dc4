/**
  The multiple-precedence packet queue of bcmutils.c (`struct pktq`): one `PrecList` per
  precedence, a total length, and `hiPrec`, a cached upper bound on the highest non-empty
  precedence that is only lowered lazily.

  `chains` is the queue as a value, one sequence of packets per precedence.  Every operation
  is specified by its effect on `chains`; the laws of whole runs are in `QueueRuns`.
 */
module PacketQueue {
  import opened Options
  import opened PacketList

  const MAX_PREC := 16

  type Chains = seq<seq<Packet>>

  ghost function Total(ch: Chains): nat {
    if ch == [] then 0 else Total(ch[..|ch| - 1]) + |ch[|ch| - 1]|
  }

  lemma {:induction false} TotalUpdate(ch: Chains, i: nat, c: seq<Packet>)
    requires i < |ch|
    ensures Total(ch[i := c]) == Total(ch) - |ch[i]| + |c|
  {
    var n := |ch| - 1;
    if i < n {
      assert ch[i := c][..n] == ch[..n][i := c];
      TotalUpdate(ch[..n], i, c);
    } else {
      assert ch[i := c][..n] == ch[..n];
    }
  }

  lemma {:induction false} TotalZero(ch: Chains)
    ensures Total(ch) == 0 <==> forall i | 0 <= i < |ch| :: ch[i] == []
    ensures forall i | 0 <= i < |ch| :: |ch[i]| <= Total(ch)
  {
    if ch != [] {
      TotalZero(ch[..|ch| - 1]);
      forall i | 0 <= i < |ch| - 1 ensures ch[..|ch| - 1][i] == ch[i] {}
    }
  }

  /** `len` is the number of queued packets and `hiPrec` bounds the non-empty precedences. */
  ghost predicate Counted(ch: Chains, len: nat, hiPrec: nat) {
    && len == Total(ch) <= 0xffff
    && hiPrec < |ch|
    && (forall i | hiPrec < i < |ch| :: ch[i] == [])
  }

  lemma CountedUpdate(ch: Chains, len: nat, hiPrec: nat, prec: nat, c: seq<Packet>)
    requires Counted(ch, len, hiPrec) && prec < |ch|
    requires len - |ch[prec]| + |c| <= 0xffff
    ensures |ch[prec]| <= len
    ensures Counted(ch[prec := c], len - |ch[prec]| + |c|, if hiPrec < prec then prec else hiPrec)
    ensures c == [] || prec <= hiPrec ==> Counted(ch[prec := c], len - |ch[prec]| + |c|, hiPrec)
  {
    TotalZero(ch);
    TotalUpdate(ch, prec, c);
  }

  lemma LenZero(ch: Chains, len: nat, hiPrec: nat)
    requires Counted(ch, len, hiPrec)
    ensures len == 0 <==> Empty(ch)
  {
    TotalZero(ch);
  }

  /** Bit `prec` of a precedence bitmap. */
  predicate InMask(bmp: bv32, prec: nat)
    requires prec < 32
  {
    bmp & (1 << prec) != 0
  }

  /** The bits of the precedences count from the lowest. */
  lemma FirstBits(bmp: bv32)
    ensures InMask(bmp, 0) <==> bmp & 0x1 != 0
    ensures InMask(bmp, 1) <==> bmp & 0x2 != 0
    ensures InMask(bmp, 2) <==> bmp & 0x4 != 0
    ensures InMask(bmp, 3) <==> bmp & 0x8 != 0
    ensures InMask(bmp, 4) <==> bmp & 0x10 != 0
    ensures InMask(bmp, 5) <==> bmp & 0x20 != 0
    ensures InMask(bmp, 6) <==> bmp & 0x40 != 0
    ensures InMask(bmp, 7) <==> bmp & 0x80 != 0
  {
  }

  lemma LastBits(bmp: bv32)
    ensures InMask(bmp, 8) <==> bmp & 0x100 != 0
    ensures InMask(bmp, 9) <==> bmp & 0x200 != 0
    ensures InMask(bmp, 10) <==> bmp & 0x400 != 0
    ensures InMask(bmp, 11) <==> bmp & 0x800 != 0
    ensures InMask(bmp, 12) <==> bmp & 0x1000 != 0
    ensures InMask(bmp, 13) <==> bmp & 0x2000 != 0
    ensures InMask(bmp, 14) <==> bmp & 0x4000 != 0
    ensures InMask(bmp, 15) <==> bmp & 0x8000 != 0
  {
  }

  /** The sum over the first `n` precedences that are in the bitmap. */
  ghost function MaskedTotal(ch: Chains, bmp: bv32, n: nat): nat
    requires n <= |ch| <= MAX_PREC
  {
    if n == 0 then 0
    else MaskedTotal(ch, bmp, n - 1) + if InMask(bmp, n - 1) then |ch[n - 1]| else 0
  }

  lemma {:induction false} MaskedTotalStable(ch: Chains, bmp: bv32, m: nat, n: nat)
    requires m <= n <= |ch| <= MAX_PREC
    requires forall i | m <= i < n :: ch[i] == []
    ensures MaskedTotal(ch, bmp, m) == MaskedTotal(ch, bmp, n)
  {
    if m < n {
      MaskedTotalStable(ch, bmp, m, n - 1);
    }
  }

  /** The lists that are in the bitmap, the others emptied. */
  ghost function Masked(ch: Chains, bmp: bv32): (d: Chains)
    requires |ch| <= MAX_PREC
    ensures |d| == |ch| && forall i | 0 <= i < |ch| :: d[i] == if InMask(bmp, i) then ch[i] else []
  {
    seq(|ch|, i requires 0 <= i < |ch| => if InMask(bmp, i) then ch[i] else [])
  }

  /** The masked sum is the number of packets on those lists. */
  lemma {:induction false} MaskedTotalIs(ch: Chains, bmp: bv32, n: nat)
    requires n <= |ch| <= MAX_PREC
    ensures MaskedTotal(ch, bmp, n) == Total(Masked(ch, bmp)[..n])
  {
    if n > 0 {
      MaskedTotalIs(ch, bmp, n - 1);
      hide InMask, Masked;
      assert Masked(ch, bmp)[..n][..n - 1] == Masked(ch, bmp)[..n - 1];
    }
  }

  /** `prec` is the highest non-empty precedence. */
  ghost predicate IsHighest(ch: Chains, prec: nat) {
    && prec < |ch| && ch[prec] != []
    && forall j | prec < j < |ch| :: ch[j] == []
  }

  /** `prec` is the highest non-empty precedence of the bitmap. */
  ghost predicate IsHighestIn(ch: Chains, bmp: bv32, prec: nat) {
    && prec < |ch| <= MAX_PREC && ch[prec] != [] && InMask(bmp, prec)
    && forall j | prec < j < |ch| && InMask(bmp, j) :: ch[j] == []
  }

  /** `prec` is the lowest non-empty precedence. */
  ghost predicate IsLowest(ch: Chains, prec: nat) {
    && prec < |ch| && ch[prec] != []
    && forall j | 0 <= j < prec :: ch[j] == []
  }

  ghost predicate Empty(ch: Chains) {
    forall i | 0 <= i < |ch| :: ch[i] == []
  }

  class Pktq {
    const q: seq<PrecList>
    var hiPrec: nat
    var max: nat
    var len: nat
    ghost var chains: Chains

    ghost function Packets(): set<Packet>
      reads q
    {
      set i, p | 0 <= i < |q| && p in q[i].nodes :: p
    }

    /** The lists are well formed, up to their tails, disjoint, and hold the chains `ch`. */
    ghost predicate Holds(ch: Chains)
      reads q, Packets()
    {
      && |q| == |ch|
      && (forall i, j | 0 <= i < j < |q| :: q[i] != q[j] && q[i].nodes !! q[j].nodes)
      && (forall i | 0 <= i < |q| :: q[i].ValidButTail() && q[i].chain == ch[i] && (q[i].tail == null <==> ch[i] == []))
    }

    ghost predicate TailsValid()
      reads q
    {
      forall i | 0 <= i < |q| :: q[i].TailValid()
    }

    /** The tail pointers, right or stale. */
    ghost function Tails(): (t: seq<Packet?>)
      reads q
      ensures |t| == |q| && forall i | 0 <= i < |q| :: t[i] == q[i].tail
    {
      seq(|q|, i requires 0 <= i < |q| reads q => q[i].tail)
    }

    /** Everything except the tail pointers, which a filtered flush may leave stale. */
    ghost predicate ValidButTails()
      reads this, q, Packets()
    {
      && 0 < |q| == |chains| <= MAX_PREC
      && Holds(chains)
      && Counted(chains, len, hiPrec)
    }

    ghost predicate Valid()
      reads this, q, Packets()
    {
      ValidButTails() && TailsValid()
    }

    /** `pktq_init` */
    constructor (numPrec: nat, maxLen: nat)
      requires 0 < numPrec <= MAX_PREC && maxLen <= 0xffff
      ensures Valid() && fresh(q) && max == maxLen && Packets() == {}
      ensures |q| == numPrec && len == 0 && chains == seq(numPrec, i => [])
      ensures forall i | 0 <= i < |q| :: q[i].max == maxLen && q[i].len == 0 && q[i].tail == null
    {
      var lists: seq<PrecList> := [];
      for i := 0 to numPrec
        invariant |lists| == i
        invariant forall j | 0 <= j < i :: fresh(lists[j]) && lists[j].Valid()
        invariant forall j | 0 <= j < i :: lists[j].chain == [] && lists[j].max == maxLen
        invariant forall j | 0 <= j < i :: lists[j].nodes == {} && lists[j].len == 0 && lists[j].tail == null
        invariant forall j, k | 0 <= j < k < i :: lists[j] != lists[k]
      {
        var list := new PrecList(maxLen);
        lists := lists + [list];
      }
      q := lists;
      hiPrec, max, len := 0, maxLen, 0;
      chains := seq(numPrec, i => []);
      new;
      TotalZero(chains);
    }

    /** The list part of `pktq_penq`. */
    method AppendAt(prec: nat, p: Packet, ghost ch: Chains)
      requires Holds(ch) && prec < |q| && q[prec].TailValid() && p.link == null && p !in Packets()
      modifies q[prec], q[prec].tail
      ensures Holds(ch[prec := ch[prec] + [p]]) && q[prec].len == |ch[prec]| + 1 && q[prec].tail == p
      ensures Packets() <= old(Packets()) + {p}
      ensures forall i | 0 <= i < |q| :: q[i].max == old(q[i].max) && (i != prec ==> q[i].tail == old(q[i].tail))
    {
      q[prec].Append(p);
    }

    /** The queue part of an enqueue: `chains` becomes `ch`, one packet more at `prec`. */
    method Grow(prec: nat, ghost c: seq<Packet>)
      requires 0 < |q| <= MAX_PREC && prec < |q| == |chains| && len < 0xffff
      requires Counted(chains, len, hiPrec) && |c| == |chains[prec]| + 1
      requires Holds(chains[prec := c])
      modifies this
      ensures ValidButTails() && max == old(max) && len == old(len) + 1 && chains == old(chains)[prec := c]
    {
      CountedUpdate(chains, len, hiPrec, prec, c);
      len := len + 1;
      if hiPrec < prec {
        hiPrec := prec;
      }
      chains := chains[prec := c];
    }

    /** The queue part of removals: `n` packets less at `prec`, which now holds `c`. */
    method Shrink(prec: nat, ghost c: seq<Packet>, n: nat)
      requires 0 < |q| == |chains| <= MAX_PREC && prec < |q|
      requires Counted(chains, len, hiPrec) && |c| + n == |chains[prec]|
      requires Holds(chains[prec := c])
      modifies this`len, this`chains
      ensures ValidButTails() && chains == old(chains)[prec := c]
    {
      CountedUpdate(chains, len, hiPrec, prec, c);
      len := len - n;
      chains := chains[prec := c];
    }

    method PrependAt(prec: nat, p: Packet, ghost ch: Chains)
      requires Holds(ch) && prec < |q| && p.link == null && p !in Packets()
      modifies q[prec], p
      ensures Holds(ch[prec := [p] + ch[prec]])
      ensures q[prec].tail == if ch[prec] == [] then p else old(q[prec].tail)
      ensures Packets() <= old(Packets()) + {p}
      ensures forall i | 0 <= i < |q| :: q[i].max == old(q[i].max) && (i != prec ==> q[i].tail == old(q[i].tail))
    {
      q[prec].Prepend(p);
    }

    method TakeHeadAt(prec: nat, ghost ch: Chains) returns (p: Packet)
      requires Holds(ch) && prec < |q| && ch[prec] != []
      modifies q[prec], q[prec].nodes
      ensures Holds(ch[prec := ch[prec][1..]])
      ensures q[prec].tail == if |ch[prec]| == 1 then null else old(q[prec].tail)
      ensures p == ch[prec][0] && p.link == null && Packets() <= old(Packets()) - {p}
      ensures forall i | 0 <= i < |q| :: q[i].max == old(q[i].max) && (i != prec ==> q[i].tail == old(q[i].tail))
    {
      p := q[prec].TakeHead();
    }

    method TakeTailAt(prec: nat, ghost ch: Chains) returns (p: Packet)
      requires Holds(ch) && prec < |q| && q[prec].TailValid() && ch[prec] != []
      modifies q[prec], q[prec].nodes
      ensures Holds(ch[prec := ch[prec][..|ch[prec]| - 1]]) && q[prec].TailValid()
      ensures p == ch[prec][|ch[prec]| - 1] && p.link == null && Packets() <= old(Packets()) - {p}
      ensures forall i | 0 <= i < |q| :: q[i].max == old(q[i].max) && (i != prec ==> q[i].tail == old(q[i].tail))
    {
      p := q[prec].TakeTail();
    }

    method DeleteAt(prec: nat, p: Packet, ghost ch: Chains) returns (found: bool, ghost at: nat)
      requires Holds(ch) && prec < |q|
      modifies q[prec], q[prec].nodes
      ensures Holds(ch[prec := q[prec].chain])
      ensures found == (p in old(q[prec].nodes)) && Packets() <= old(Packets())
      ensures !found ==> Holds(ch) && q[prec].tail == old(q[prec].tail)
      ensures found ==> at < |ch[prec]| && ch[prec][at] == p && p.link == null
      ensures found ==> q[prec].chain == ch[prec][..at] + ch[prec][at + 1..] && p !in q[prec].nodes
      ensures found ==> q[prec].tail == TailWithout(ch[prec], old(q[prec].tail), at)
      ensures forall i | 0 <= i < |q| :: q[i].max == old(q[i].max) && (i != prec ==> q[i].tail == old(q[i].tail))
    {
      found, at := q[prec].Delete(p);
      assert ch[prec := ch[prec]] == ch;
    }

    method FlushAt(prec: nat, fn: Option<Packet -> bool>, ghost ch: Chains) returns (freed: seq<Packet>)
      requires Holds(ch) && prec < |q|
      modifies q[prec], q[prec].nodes
      ensures Holds(ch[prec := Kept(fn, ch[prec])]) && freed == Freed(fn, ch[prec])
      ensures q[prec].tail == if Kept(fn, ch[prec]) == [] then null else old(q[prec].tail)
      ensures old(q[prec].TailValid()) ==> (q[prec].TailValid() <==> KeepsTail(fn, ch[prec]))
      ensures forall i | 0 <= i < |q| && i != prec :: q[i].TailValid() == old(q[i].TailValid())
      ensures Packets() <= old(Packets()) && forall x | x in old(Packets()) && x !in Packets() :: x.link == null
      ensures forall i | 0 <= i < |q| :: q[i].max == old(q[i].max) && (i != prec ==> q[i].tail == old(q[i].tail))
    {
      hide Kept, Freed, KeepsTail;
      freed := q[prec].FlushList(fn);
    }

    /** `pktq_penq`: append at the tail of one precedence, whose tail pointer must be right. */
    method Penq(prec: nat, p: Packet) returns (r: Packet)
      requires ValidButTails() && prec < |q| && q[prec].TailValid() && p.link == null && p !in Packets()
      requires len < max <= 0xffff && q[prec].len < q[prec].max
      modifies this, q[prec], q[prec].tail
      ensures ValidButTails() && max == old(max) && r == p && len == old(len) + 1
      ensures chains == old(chains)[prec := old(chains)[prec] + [p]] && q[prec].len == |chains[prec]|
      ensures q[prec].tail == p && q[prec].TailValid()
      ensures Packets() <= old(Packets()) + {p}
      ensures forall i | 0 <= i < |q| :: q[i].max == old(q[i].max) && (i != prec ==> q[i].tail == old(q[i].tail))
    {
      AppendAt(prec, p, chains);
      Grow(prec, chains[prec] + [p]);
      r := p;
    }

    /** `pktq_penq_head`: insert at the head of one precedence. */
    method PenqHead(prec: nat, p: Packet) returns (r: Packet)
      requires ValidButTails() && prec < |q| && p.link == null && p !in Packets()
      requires len < max <= 0xffff && q[prec].len < q[prec].max
      modifies this, q[prec], p
      ensures ValidButTails() && max == old(max) && r == p && len == old(len) + 1
      ensures chains == old(chains)[prec := [p] + old(chains)[prec]]
      ensures q[prec].tail == if old(chains)[prec] == [] then p else old(q[prec].tail)
      ensures Packets() <= old(Packets()) + {p}
      ensures forall i | 0 <= i < |q| :: q[i].max == old(q[i].max) && (i != prec ==> q[i].tail == old(q[i].tail))
    {
      PrependAt(prec, p, chains);
      Grow(prec, [p] + chains[prec]);
      r := p;
    }

    /** `pktq_pdeq`: the oldest packet of one precedence.  A tail is right again once its list is empty. */
    method Pdeq(prec: nat) returns (p: Packet?)
      requires ValidButTails() && prec < |q|
      modifies this`len, this`chains, q, Packets()
      ensures ValidButTails() && Packets() <= old(Packets()) - {p}
      ensures p == null <==> old(chains)[prec] == []
      ensures p == null ==> chains == old(chains)
      ensures p != null ==>
                && p == old(chains)[prec][0] && p.link == null
                && chains == old(chains)[prec := old(chains)[prec][1..]]
      ensures q[prec].tail == if |old(chains)[prec]| <= 1 then null else old(q[prec].tail)
      ensures forall i | 0 <= i < |q| :: q[i].max == old(q[i].max) && (i != prec ==> q[i].tail == old(q[i].tail))
    {
      if q[prec].head == null {
        return null;
      }
      assert q[prec].chain == chains[prec];
      hide Holds;
      p := TakeHeadAt(prec, chains);
      Shrink(prec, chains[prec][1..], 1);
    }

    /** `pktq_pdeq_tail`: the newest packet of one precedence, whose tail pointer must be right. */
    method PdeqTail(prec: nat) returns (p: Packet?)
      requires ValidButTails() && prec < |q| && q[prec].TailValid()
      modifies this`len, this`chains, q, Packets()
      ensures ValidButTails() && q[prec].TailValid() && Packets() <= old(Packets()) - {p}
      ensures p == null <==> old(chains)[prec] == []
      ensures p == null ==> chains == old(chains)
      ensures p != null ==>
                var c := old(chains)[prec];
                && p == c[|c| - 1] && p.link == null
                && chains == old(chains)[prec := c[..|c| - 1]]
      ensures forall i | 0 <= i < |q| :: q[i].max == old(q[i].max) && (i != prec ==> q[i].tail == old(q[i].tail))
    {
      if q[prec].head == null {
        return null;
      }
      assert q[prec].chain == chains[prec];
      hide Holds;
      p := TakeTailAt(prec, chains);
      Shrink(prec, chains[prec][..|chains[prec]| - 1], 1);
    }

    /** `pktq_pdel`: remove one packet of one precedence; false when it is not queued there. */
    method Pdel(pktbuf: Packet?, prec: nat) returns (found: bool, ghost at: nat)
      requires ValidButTails() && prec < |q|
      modifies this`len, this`chains, q, Packets()
      ensures ValidButTails() && Packets() <= old(Packets())
      ensures found == (pktbuf != null && pktbuf in old(q[prec].nodes))
      ensures !found ==> chains == old(chains) && q[prec].tail == old(q[prec].tail)
      ensures found ==>
                var c := old(chains)[prec];
                && at < |c| && c[at] == pktbuf && pktbuf.link == null
                && chains == old(chains)[prec := c[..at] + c[at + 1..]]
                && q[prec].tail == TailWithout(c, old(q[prec].tail), at)
      ensures forall i | 0 <= i < |q| :: q[i].max == old(q[i].max) && (i != prec ==> q[i].tail == old(q[i].tail))
    {
      if pktbuf == null {
        return false, 0;
      }
      hide Holds, TailWithout;
      found, at := DeleteAt(prec, pktbuf, chains);
      if !found {
        return false, at;
      }
      Shrink(prec, q[prec].chain, 1);
    }

    method LowerHiPrec()
      requires ValidButTails() && hiPrec > 0 && q[hiPrec].head == null
      modifies this`hiPrec
      ensures ValidButTails() && hiPrec == old(hiPrec) - 1 && Packets() == old(Packets())
    {
      assert q[hiPrec].chain == chains[hiPrec];
      hiPrec := hiPrec - 1;
    }

    /** The loop that lowers `hi_prec` to the highest non-empty precedence, or to 0. */
    method SettleHiPrec()
      requires ValidButTails()
      modifies this`hiPrec
      ensures ValidButTails() && hiPrec <= old(hiPrec) && Packets() == old(Packets()) && Tails() == old(Tails())
      ensures Empty(chains) || IsHighest(chains, hiPrec)
    {
      while hiPrec > 0 && q[hiPrec].head == null
        invariant ValidButTails() && hiPrec <= old(hiPrec) && Packets() == old(Packets())
        decreases hiPrec
      {
        LowerHiPrec();
      }
      assert q[hiPrec].chain == chains[hiPrec];
    }

    /** `pktq_deq`: the oldest packet of the highest non-empty precedence. */
    method Deq() returns (p: Packet?, prec: nat)
      requires ValidButTails()
      modifies this, q, Packets()
      ensures ValidButTails() && max == old(max) && Packets() <= old(Packets()) - {p}
      ensures p == null <==> Empty(old(chains))
      ensures p == null ==> chains == old(chains)
      ensures p != null ==>
                && IsHighest(old(chains), prec)
                && p == old(chains)[prec][0] && p.link == null
                && chains == old(chains)[prec := old(chains)[prec][1..]]
      ensures forall i | 0 <= i < |q| :: q[i].max == old(q[i].max)
      ensures forall i | 0 <= i < |q| ::
                q[i].tail == if p != null && i == prec && |old(chains)[i]| == 1 then null else old(q[i].tail)
    {
      hide Holds;
      LenZero(chains, len, hiPrec);
      if len == 0 {
        return null, 0;
      }
      SettleHiPrec();
      prec := hiPrec;
      p := Pdeq(prec);
    }

    /** `pktq_mdeq`: the oldest packet of the highest non-empty precedence of the bitmap. */
    method Mdeq(bmp: bv32) returns (p: Packet?, prec: nat)
      requires ValidButTails()
      modifies this, q, Packets()
      ensures ValidButTails() && max == old(max) && Packets() <= old(Packets()) - {p}
      ensures p == null ==> chains == old(chains)
      ensures p == null <==> forall i | 0 <= i < |q| && InMask(bmp, i) :: old(chains)[i] == []
      ensures p != null ==>
                && IsHighestIn(old(chains), bmp, prec)
                && p == old(chains)[prec][0] && p.link == null
                && chains == old(chains)[prec := old(chains)[prec][1..]]
      ensures forall i | 0 <= i < |q| :: q[i].max == old(q[i].max)
      ensures forall i | 0 <= i < |q| ::
                q[i].tail == if p != null && i == prec && |old(chains)[i]| == 1 then null else old(q[i].tail)
    {
      hide Holds;
      LenZero(chains, len, hiPrec);
      if len == 0 {
        return null, 0;
      }
      SettleHiPrec();
      var found;
      found, prec := HighestUpTo(bmp);
      if !found {
        return null, 0;
      }
      p := Pdeq(prec);
    }

    /** The loop of `pktq_mdeq` that walks down to a non-empty precedence of the bitmap. */
    method HighestUpTo(bmp: bv32) returns (found: bool, prec: nat)
      requires ValidButTails()
      ensures found ==> IsHighestIn(chains, bmp, prec)
      ensures !found ==> forall j | 0 <= j < |q| && InMask(bmp, j) :: chains[j] == []
    {
      prec := hiPrec;
      while !InMask(bmp, prec) || q[prec].head == null
        invariant prec <= hiPrec
        invariant forall j | prec < j < |q| && InMask(bmp, j) :: chains[j] == []
        decreases prec
      {
        assert q[prec].chain == chains[prec];
        if prec == 0 {
          return false, 0;
        }
        prec := prec - 1;
      }
      assert q[prec].chain == chains[prec];
      found := true;
    }

    /** `pktq_deq_tail`: the newest packet of the lowest non-empty precedence. */
    method DeqTail() returns (p: Packet?, prec: nat)
      requires ValidButTails() && forall i: nat | i < |q| && IsLowest(chains, i) :: q[i].TailValid()
      modifies this, q, Packets()
      ensures ValidButTails() && max == old(max) && Packets() <= old(Packets()) - {p}
      ensures p == null <==> Empty(old(chains))
      ensures p == null ==> chains == old(chains)
      ensures p != null ==>
                && IsLowest(old(chains), prec)
                && p == old(chains)[prec][|old(chains)[prec]| - 1] && p.link == null
                && chains == old(chains)[prec := old(chains)[prec][..|old(chains)[prec]| - 1]]
      ensures p != null ==> q[prec].TailValid()
      ensures forall i | 0 <= i < |q| ::
                q[i].max == old(q[i].max) && ((p != null && i == prec) || q[i].tail == old(q[i].tail))
    {
      hide Holds;
      LenZero(chains, len, hiPrec);
      if len == 0 {
        return null, 0;
      }
      prec := LowestUpTo();
      p := PdeqTail(prec);
    }

    /** The loop that walks up to the lowest non-empty precedence, or to `hi_prec`. */
    method LowestUpTo() returns (prec: nat)
      requires ValidButTails()
      ensures prec <= hiPrec && forall j | 0 <= j < prec :: chains[j] == []
      ensures Empty(chains) || IsLowest(chains, prec)
    {
      prec := 0;
      while prec < hiPrec
        invariant prec <= hiPrec
        invariant forall j | 0 <= j < prec :: chains[j] == []
      {
        assert q[prec].chain == chains[prec];
        if q[prec].head != null {
          break;
        }
        prec := prec + 1;
      }
    }

    /** `pktq_peek`: the packet `Deq` would return.  Only `hi_prec` may change. */
    method Peek() returns (p: Packet?, prec: nat)
      requires ValidButTails()
      modifies this`hiPrec
      ensures ValidButTails()
      ensures p == null <==> Empty(chains)
      ensures p != null ==> IsHighest(chains, prec) && p == chains[prec][0]
    {
      LenZero(chains, len, hiPrec);
      if len == 0 {
        return null, 0;
      }
      SettleHiPrec();
      prec := hiPrec;
      assert q[prec].chain == chains[prec];
      p := q[prec].head;
    }

    /** `pktq_peek_tail`: the packet `DeqTail` would return, exactly if the tail of its list is right. */
    method PeekTail() returns (p: Packet?, prec: nat)
      requires ValidButTails()
      ensures p == null <==> Empty(chains)
      ensures p != null ==> IsLowest(chains, prec) && (p == chains[prec][|chains[prec]| - 1] <==> q[prec].TailValid())
    {
      LenZero(chains, len, hiPrec);
      if len == 0 {
        return null, 0;
      }
      prec := LowestUpTo();
      assert q[prec].chain == chains[prec];
      p := q[prec].tail;
    }

    /** `pktq_mlen`: summing up to `hi_prec` counts every packet of the bitmap. */
    method Mlen(bmp: bv32) returns (n: nat)
      requires ValidButTails()
      ensures n == MaskedTotal(chains, bmp, |chains|) == Total(Masked(chains, bmp))
    {
      n := 0;
      for prec := 0 to hiPrec + 1
        invariant n == MaskedTotal(chains, bmp, prec)
      {
        assert q[prec].chain == chains[prec];
        if InMask(bmp, prec) {
          n := n + q[prec].len;
        }
      }
      MaskedTotalStable(chains, bmp, hiPrec + 1, |chains|);
      MaskedTotalIs(chains, bmp, |chains|);
      assert Masked(chains, bmp)[..|chains|] == Masked(chains, bmp);
    }

    /**
      `pktq_pflush` with an optional filter.  Stale tails do not matter to it; it leaves the
      tail of `prec` right exactly when `KeepsTail` says so.
     */
    method Pflush(prec: nat, fn: Option<Packet -> bool>) returns (freed: seq<Packet>)
      requires ValidButTails() && prec < |q|
      modifies this`len, this`chains, q, Packets()
      ensures ValidButTails() && freed == Freed(fn, old(chains)[prec])
      ensures chains == old(chains)[prec := Kept(fn, old(chains)[prec])]
      ensures q[prec].tail == if Kept(fn, old(chains)[prec]) == [] then null else old(q[prec].tail)
      ensures old(q[prec].TailValid()) ==> (q[prec].TailValid() <==> KeepsTail(fn, old(chains)[prec]))
      ensures forall i | 0 <= i < |q| && i != prec :: q[i].TailValid() == old(q[i].TailValid())
      ensures Packets() <= old(Packets()) && forall x | x in old(Packets()) && x !in Packets() :: x.link == null
      ensures forall i | 0 <= i < |q| :: q[i].max == old(q[i].max) && (i != prec ==> q[i].tail == old(q[i].tail))
    {
      hide Holds, Kept, Freed, KeepsTail;
      ghost var c := chains[prec];
      freed := FlushAt(prec, fn, chains);
      KeptPlusFreed(fn, c);
      Shrink(prec, Kept(fn, c), |freed|);
    }
  
    /** `pktq_flush`: flush every precedence. */
    method Flush(fn: Option<Packet -> bool>)
      requires ValidButTails()
      modifies this`len, this`chains, q, Packets()
      ensures ValidButTails()
      ensures forall i | 0 <= i < |q| :: chains[i] == Kept(fn, old(chains)[i])
      ensures old(TailsValid()) ==> (TailsValid() <==> forall i | 0 <= i < |q| :: KeepsTail(fn, old(chains)[i]))
      ensures fn == None ==> len == 0
      ensures forall i | 0 <= i < |q| :: q[i].max == old(q[i].max)
    {
      hide Kept, KeepsTail, Holds;
      for prec := 0 to |q|
        invariant ValidButTails() && Packets() <= old(Packets())
        invariant forall i | 0 <= i < |q| :: q[i].max == old(q[i].max)
        invariant forall i | 0 <= i < prec :: chains[i] == Kept(fn, old(chains)[i])
        invariant forall i | prec <= i < |q| :: chains[i] == old(chains)[i]
        invariant old(TailsValid()) ==> forall i | prec <= i < |q| :: q[i].TailValid()
        invariant old(TailsValid()) ==> forall i | 0 <= i < prec :: q[i].TailValid() <==> KeepsTail(fn, old(chains)[i])
      {
        var _ := Pflush(prec, fn);
      }
      if fn == None {
        forall i | 0 <= i < |q| ensures chains[i] == [] {
          KeepsNothing(fn, old(chains)[i]);
        }
        LenZero(chains, len, hiPrec);
      }
    }
  }

  /**
    A filtered flush of a list and then an append: the packet is on the list exactly if the
    flush kept the tail.  Otherwise it is counted, but not on the list.
   */
  method FlushThenAppend(list: PrecList, fn: Option<Packet -> bool>, p: Packet)
    requires list.Valid() && p.link == null && p !in list.nodes
    modifies list, list.nodes
    ensures list.Leads(Kept(fn, old(list.chain)) + [p]) <==> KeepsTail(fn, old(list.chain))
    ensures !KeepsTail(fn, old(list.chain)) ==> list.Leads(Kept(fn, old(list.chain)))
    ensures list.len == |Kept(fn, old(list.chain))| + 1
  {
    ghost var c := list.chain;
    ghost var last := list.tail;
    var _ := list.FlushList(fn);
    if !KeepsTail(fn, c) {
      KeptPasses(fn, c);
      KeepsNothing(fn, c);
      InNodeSet(Kept(fn, c), last);
      assert last !in list.nodes;
    }
    hide Kept, Freed, KeepsTail, PrecList.Leads;
    list.AppendBehindTail(p);
  }

  /** A queue of one precedence holding two packets. */
  method TwoPackets() returns (pq: Pktq, a: Packet, b: Packet)
    ensures fresh(pq) && fresh(pq.q) && fresh(pq.Packets()) && |pq.q| == 1
    ensures pq.Valid() && pq.chains == [[a, b]] && a != b
  {
    hide Pktq.Holds;
    pq := new Pktq(1, 10);
    a := new Packet();
    var _ := pq.Penq(0, a);
    assert pq.chains == [[a]] by {
      assert [] + [a] == [a];
    }
    b := new Packet();
    var _ := pq.Penq(0, b);
    assert [a] + [b] == [a, b];
  }

  /** The tail that a filtered `pktq_pflush` leaves stale: the filter frees the last of two packets. */
  method StaleTailExample() returns (pq: Pktq)
    ensures fresh(pq) && pq.ValidButTails() && !pq.Valid()
    ensures |pq.chains[0]| == 1
  {
    hide Pktq.Holds;
    var a, b;
    pq, a, b := TwoPackets();
    ghost var c := [a, b];
    var fn := Some((p: Packet) => p == b);
    assert Kept(fn, c) == [a] by {
      assert c[1..] == [b] && [b][1..] == [];
      assert Kept(fn, [b]) == Kept(fn, []);
    }
    var _ := pq.Pflush(0, fn);
  }
}
