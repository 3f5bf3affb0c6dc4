/**
  Laws of whole runs of packet-queue operations.  `Do` shows that the methods of
  `PacketQueue.Pktq` take the steps that `Step` describes on values.
 */
module QueueRuns {
  import opened Options
  import opened PacketList
  import opened PacketQueue

  datatype Op =
    | Penq(prec: nat, p: Packet)
    | PenqHead(prec: nat, p: Packet)
    | Pdeq(prec: nat)
    | PdeqTail(prec: nat)
    | Pdel(prec: nat, p: Packet)
    | Pflush(prec: nat, fn: Option<Packet -> bool>)
    | Deq
    | DeqTail
    | Mdeq(bmp: bv32)

  /** The queue as a value: its lists, and the tail pointer of each, right or stale. */
  datatype State = State(chains: Chains, tails: seq<Packet?>)

  /** What one step moved: packets that entered and left, all at one precedence. */
  datatype Moved = Moved(prec: nat, entered: seq<Packet>, left: seq<Packet>)

  ghost predicate Right(c: seq<Packet>, tail: Packet?) {
    tail == if c == [] then null else c[|c| - 1]
  }

  ghost predicate AllRight(s: State) {
    |s.tails| == |s.chains| && forall i | 0 <= i < |s.chains| :: Right(s.chains[i], s.tails[i])
  }

  ghost predicate Oldest(c: seq<Packet>, left: seq<Packet>, d: seq<Packet>) {
    if c == [] then left == [] && d == [] else left == [c[0]] && d == c[1..]
  }

  ghost predicate Newest(c: seq<Packet>, left: seq<Packet>, d: seq<Packet>) {
    if c == [] then left == [] && d == [] else left == [c[|c| - 1]] && d == c[..|c| - 1]
  }

  /** Operation `op` turns the list `c` of precedence `m.prec` into `d`. */
  ghost predicate ListStep(op: Op, c: seq<Packet>, m: Moved, d: seq<Packet>) {
    match op
    case Penq(_, p) => m.entered == [p] && m.left == [] && d == c + [p]
    case PenqHead(_, p) => m.entered == [p] && m.left == [] && d == [p] + c
    case Pdeq(_) => m.entered == [] && Oldest(c, m.left, d)
    case PdeqTail(_) => m.entered == [] && Newest(c, m.left, d)
    case Pdel(_, p) =>
      && m.entered == []
      && if p in c
         then m.left == [p] && exists k :: 0 <= k < |c| && c[k] == p && d == c[..k] + c[k + 1..]
         else m.left == [] && d == c
    case Pflush(_, fn) => m.entered == [] && d == Kept(fn, c) && m.left == Freed(fn, c)
    case Deq => m.entered == [] && Oldest(c, m.left, d)
    case DeqTail => m.entered == [] && Newest(c, m.left, d)
    case Mdeq(_) => m.entered == [] && (Oldest(c, m.left, d) || (m.left == [] && d == c))
  }

  /** The operations that follow the tail pointer, which must be right for them. */
  predicate FollowsTail(op: Op) {
    op.Penq? || op.PdeqTail? || op.DeqTail?
  }

  /** What operation `op` makes of the tail pointer `t` of a list that it turns from `c` into `d`. */
  ghost predicate TailStep(op: Op, c: seq<Packet>, t: Packet?, d: seq<Packet>, t': Packet?) {
    match op
    case Penq(_, p) => t' == p
    case PenqHead(_, p) => t' == if c == [] then p else t
    case PdeqTail(_) | DeqTail => Right(d, t')
    case Pdel(_, p) =>
      if p in c
      then exists k: nat :: k < |c| && c[k] == p && d == c[..k] + c[k + 1..] && t' == TailWithout(c, t, k)
      else t' == t
    case _ => t' == if d == [] then null else t
  }

  /** The precedence an operation works at. */
  ghost predicate At(op: Op, ch: Chains, prec: nat) {
    match op
    case Deq => if Empty(ch) then prec == 0 else IsHighest(ch, prec)
    case DeqTail => if Empty(ch) then prec == 0 else IsLowest(ch, prec)
    case Mdeq(_) => true
    case _ => prec == op.prec
  }

  ghost predicate MdeqStep(ch: Chains, bmp: bv32, m: Moved) {
    |ch| <= MAX_PREC &&
    if forall i | 0 <= i < |ch| && InMask(bmp, i) :: ch[i] == [] then m.left == []
    else IsHighestIn(ch, bmp, m.prec) && m.left != []
  }

  /** The effect of an operation on the lists. */
  ghost predicate Changes(ch: Chains, op: Op, m: Moved, ch': Chains) {
    && m.prec < |ch| && At(op, ch, m.prec)
    && (op.Mdeq? ==> MdeqStep(ch, op.bmp, m))
    && |ch'| == |ch|
    && ch' == ch[m.prec := ch'[m.prec]]
    && ListStep(op, ch[m.prec], m, ch'[m.prec])
  }

  /** Its effect on the tail pointers, of which it follows none that is stale. */
  ghost predicate Retails(s: State, op: Op, prec: nat, s': State)
    requires prec < |s.chains| == |s'.chains|
  {
    && |s'.tails| == |s.tails| == |s.chains|
    && s'.tails == s.tails[prec := s'.tails[prec]]
    && (FollowsTail(op) ==> Right(s.chains[prec], s.tails[prec]))
    && TailStep(op, s.chains[prec], s.tails[prec], s'.chains[prec], s'.tails[prec])
  }

  ghost predicate Step(s: State, op: Op, m: Moved, s': State) {
    Changes(s.chains, op, m, s'.chains) && Retails(s, op, m.prec, s')
  }

  /** A run: states before and after every operation. */
  ghost predicate Run(states: seq<State>, ops: seq<Op>, moves: seq<Moved>) {
    && |states| == |ops| + 1 == |moves| + 1
    && forall i | 0 <= i < |ops| :: Step(states[i], ops[i], moves[i], states[i + 1])
  }

  // ---- Tails

  /** The tail of a list stays right under every operation but a filtered flush that frees its last packet only. */
  lemma StaysRightExactly(op: Op, c: seq<Packet>, t: Packet?, m: Moved, d: seq<Packet>, t': Packet?)
    requires ListStep(op, c, m, d) && TailStep(op, c, t, d, t') && Right(c, t)
    requires forall i, j | 0 <= i < j < |c| :: c[i] != c[j]
    ensures Right(d, t') <==> (op.Pflush? ==> KeepsTail(op.fn, c))
  {
    assert op.Pflush? && c == [] ==> Kept(op.fn, c) == [];
    hide Kept, Freed;
    if op.Pflush? {
      StaleTail(op.fn, c);
    }
  }

  /** A stale tail that points off the list stays stale until the list is empty. */
  lemma StaleUntilEmpty(op: Op, c: seq<Packet>, t: Packet?, m: Moved, d: seq<Packet>, t': Packet?)
    requires ListStep(op, c, m, d) && TailStep(op, c, t, d, t') && !FollowsTail(op)
    requires c != [] && t != null && t !in c
    ensures Right(d, t') <==> d == []
  {
    hide Freed, Kept;
    if op.Pflush? {
      KeptAmong(op.fn, c);
    }
  }

  /** No two places of the lists hold the same packet. */
  ghost predicate Distinct(ch: Chains) {
    forall n, i, j | 0 <= n < |ch| && 0 <= i < j < |ch[n]| :: ch[n][i] != ch[n][j]
  }

  /** A flush in a run that frees the last packet of a list, but not all of it. */
  ghost predicate Strands(s: State, op: Op, m: Moved) {
    op.Pflush? && m.prec < |s.chains| && !KeepsTail(op.fn, s.chains[m.prec])
  }

  /** One step keeps all tails right exactly if it is not such a flush. */
  lemma StepKeepsTails(s: State, op: Op, m: Moved, s': State)
    requires Step(s, op, m, s') && AllRight(s) && Distinct(s.chains)
    ensures AllRight(s') <==> !Strands(s, op, m)
  {
    var c, d, t, t' := s.chains[m.prec], s'.chains[m.prec], s.tails[m.prec], s'.tails[m.prec];
    StaysRightExactly(op, c, t, m, d, t');
    hide ListStep, TailStep, At, MdeqStep, Right, KeepsTail;
    assert forall i | 0 <= i < |s.chains| && i != m.prec :: s'.chains[i] == s.chains[i] && s'.tails[i] == s.tails[i];
  }

  /** So tails can be followed everywhere in a run from right tails in which no flush strands one. */
  lemma {:induction false} TailsStayRight(states: seq<State>, ops: seq<Op>, moves: seq<Moved>)
    requires Run(states, ops, moves) && AllRight(states[0])
    requires forall i | 0 <= i < |ops| :: Distinct(states[i].chains) && !Strands(states[i], ops[i], moves[i])
    ensures forall i | 0 <= i <= |ops| :: AllRight(states[i])
  {
    hide Step, AllRight, Distinct, Strands;
    for n := 0 to |ops|
      invariant forall i | 0 <= i <= n :: AllRight(states[i])
    {
      StepKeepsTails(states[n], ops[n], moves[n], states[n + 1]);
    }
  }

  lemma {:induction false} KeptAmong(fn: Option<Packet -> bool>, c: seq<Packet>)
    ensures forall p | p in Kept(fn, c) :: p in c
  {
    if c != [] {
      KeptAmong(fn, c[1..]);
    }
  }

  ghost function Queued(ch: Chains): multiset<Packet> {
    if ch == [] then multiset{} else Queued(ch[..|ch| - 1]) + multiset(ch[|ch| - 1])
  }

  ghost function Entered(moves: seq<Moved>): multiset<Packet> {
    if moves == [] then multiset{} else Entered(moves[..|moves| - 1]) + multiset(moves[|moves| - 1].entered)
  }

  ghost function Left(moves: seq<Moved>): multiset<Packet> {
    if moves == [] then multiset{} else Left(moves[..|moves| - 1]) + multiset(moves[|moves| - 1].left)
  }

  lemma Exchange(a: multiset<Packet>, b: multiset<Packet>, c: multiset<Packet>, d: multiset<Packet>,
                 t: multiset<Packet>)
    requires a + b == c + d
    ensures (a + t) + b == (c + t) + d
  {
    forall x ensures ((a + t) + b)[x] == ((c + t) + d)[x] {
      assert (a + b)[x] == (c + d)[x];
    }
  }

  lemma {:induction false} QueuedUpdate(ch: Chains, i: nat, c: seq<Packet>)
    requires i < |ch|
    ensures Queued(ch[i := c]) + multiset(ch[i]) == Queued(ch) + multiset(c)
  {
    var n := |ch| - 1;
    var d := ch[i := c];
    assert Queued(d) == Queued(d[..n]) + multiset(d[n]);
    if i < n {
      assert d[..n] == ch[..n][i := c];
      QueuedUpdate(ch[..n], i, c);
      Exchange(Queued(d[..n]), multiset(ch[i]), Queued(ch[..n]), multiset(c), multiset(ch[n]));
    } else {
      assert d[..n] == ch[..n];
    }
  }

  lemma WithoutFirst(c: seq<Packet>)
    requires c != []
    ensures multiset(c) == multiset(c[1..]) + multiset{c[0]}
  {
    assert c == [c[0]] + c[1..];
  }

  lemma WithoutLast(c: seq<Packet>)
    requires c != []
    ensures multiset(c) == multiset(c[..|c| - 1]) + multiset{c[|c| - 1]}
  {
    assert c == c[..|c| - 1] + [c[|c| - 1]];
  }

  lemma WithoutOne(c: seq<Packet>, k: nat)
    requires k < |c|
    ensures multiset(c) == multiset(c[..k] + c[k + 1..]) + multiset{c[k]}
  {
    assert c == c[..k] + [c[k]] + c[k + 1..];
  }

  lemma EndConserves(c: seq<Packet>, left: seq<Packet>, d: seq<Packet>)
    requires Oldest(c, left, d) || Newest(c, left, d)
    ensures multiset(d) + multiset(left) == multiset(c)
  {
    if c != [] {
      WithoutFirst(c);
      WithoutLast(c);
    }
  }

  lemma ListConserves(op: Op, c: seq<Packet>, m: Moved, d: seq<Packet>)
    requires ListStep(op, c, m, d)
    ensures multiset(d) + multiset(m.left) == multiset(c) + multiset(m.entered)
  {
    hide Kept, Freed, Oldest, Newest;
    match op
    case Pdeq(_) | Deq | PdeqTail(_) | DeqTail => EndConserves(c, m.left, d);
    case Mdeq(_) =>
      if Oldest(c, m.left, d) {
        EndConserves(c, m.left, d);
      }
    case Pdel(_, p) =>
      if p in c {
        var k :| 0 <= k < |c| && c[k] == p && d == c[..k] + c[k + 1..];
        WithoutOne(c, k);
      }
    case Pflush(_, fn) => KeptPlusFreed(fn, c);
    case _ =>
  }

  lemma Telescope(before: multiset<Packet>, e: multiset<Packet>, now: multiset<Packet>, l: multiset<Packet>,
                  next: multiset<Packet>, entered: multiset<Packet>, left: multiset<Packet>)
    requires before + e == now + l && next + left == now + entered
    ensures before + (e + entered) == next + (l + left)
  {
    forall x ensures (before + (e + entered))[x] == (next + (l + left))[x] {
      assert (before + e)[x] == (now + l)[x];
      assert (next + left)[x] == (now + entered)[x];
    }
  }

  lemma Cancel(q': multiset<Packet>, c: multiset<Packet>, q: multiset<Packet>, d: multiset<Packet>,
               l: multiset<Packet>, e: multiset<Packet>)
    requires d + l == c + e && q' + c == q + d
    ensures q' + l == q + e
  {
    forall x ensures (q' + l)[x] == (q + e)[x] {
      assert (d + l)[x] == (c + e)[x];
      assert (q' + c)[x] == (q + d)[x];
    }
  }

  lemma StepConserves(ch: Chains, op: Op, m: Moved, ch': Chains)
    requires Changes(ch, op, m, ch')
    ensures Queued(ch') + multiset(m.left) == Queued(ch) + multiset(m.entered)
  {
    hide ListStep, At, MdeqStep;
    assert ch' == ch[m.prec := ch'[m.prec]];
    var c, d := ch[m.prec], ch'[m.prec];
    ListConserves(op, c, m, d);
    QueuedUpdate(ch, m.prec, d);
    Cancel(Queued(ch'), multiset(c), Queued(ch), multiset(d), multiset(m.left), multiset(m.entered));
  }

  /** Conservation: in every run, what was queued or entered is still queued or has left, exactly once. */
  lemma {:induction false} Conservation(states: seq<State>, ops: seq<Op>, moves: seq<Moved>)
    requires Run(states, ops, moves)
    ensures Queued(states[0].chains) + Entered(moves) == Queued(states[|ops|].chains) + Left(moves)
  {
    if ops != [] {
      var n := |ops| - 1;
      var before, m := states[..n + 1], moves[n];
      assert before[0] == states[0] && before[n] == states[n];
      hide Changes, Retails;
      Conservation(before, ops[..n], moves[..n]);
      StepConserves(states[n].chains, ops[n], m, states[n + 1].chains);
      Telescope(Queued(states[0].chains), Entered(moves[..n]), Queued(states[n].chains), Left(moves[..n]),
                Queued(states[n + 1].chains), multiset(m.entered), multiset(m.left));
    }
  }

  /** Operations that only append at the tail and take from the head. */
  predicate Fifo(op: Op) {
    op.Penq? || op.Pdeq? || op.Deq? || op.Mdeq?
  }

  /** What entered at precedence `prec`, in order. */
  ghost function EnteredAt(moves: seq<Moved>, prec: nat): seq<Packet> {
    if moves == [] then [] else
      var m := moves[|moves| - 1];
      EnteredAt(moves[..|moves| - 1], prec) + if m.prec == prec then m.entered else []
  }

  /** What left precedence `prec`, in order. */
  ghost function LeftAt(moves: seq<Moved>, prec: nat): seq<Packet> {
    if moves == [] then [] else
      var m := moves[|moves| - 1];
      LeftAt(moves[..|moves| - 1], prec) + if m.prec == prec then m.left else []
  }

  /** Per precedence, packets leave in exactly the order in which they entered. */
  lemma {:induction false} FirstInFirstOut(states: seq<State>, ops: seq<Op>, moves: seq<Moved>, prec: nat)
    requires Run(states, ops, moves) && prec < |states[0].chains|
    requires forall i | 0 <= i < |ops| :: Fifo(ops[i])
    ensures |states[|ops|].chains| == |states[0].chains|
    ensures LeftAt(moves, prec) + states[|ops|].chains[prec] == states[0].chains[prec] + EnteredAt(moves, prec)
  {
    if ops == [] {
      var c := states[0].chains[prec];
      assert c + [] == c && [] + c == c;
    } else {
      var n := |ops| - 1;
      FirstInFirstOut(states[..n + 1], ops[..n], moves[..n], prec);
      assert states[..n + 1][0] == states[0] && states[..n + 1][n] == states[n];
      var m := moves[n];
      assert Step(states[n], ops[n], m, states[n + 1]);
      FifoStep(states[n].chains[prec], states[n + 1].chains[prec], m, prec, LeftAt(moves[..n], prec),
               states[0].chains[prec], EnteredAt(moves[..n], prec), ops[n]);
    }
  }

  lemma FifoStep(c: seq<Packet>, d: seq<Packet>, m: Moved, prec: nat, left: seq<Packet>, start: seq<Packet>,
                 entered: seq<Packet>, op: Op)
    requires left + c == start + entered
    requires if m.prec == prec then ListStep(op, c, m, d) && Fifo(op) else d == c
    ensures (left + if m.prec == prec then m.left else []) + d
            == start + (entered + if m.prec == prec then m.entered else [])
  {
    if m.prec != prec {
      assert left + [] == left && entered + [] == entered;
    } else if op.Penq? {
      calc {
        (left + m.left) + d;
      == { assert left + m.left == left; }
        left + (c + m.entered);
      == (left + c) + m.entered;
      == (start + entered) + m.entered;
      == start + (entered + m.entered);
      }
    } else {
      assert entered + m.entered == entered;
      assert m.left + d == c;
      assert (left + m.left) + d == left + (m.left + d);
    }
  }

  /** All packets, highest precedence first, oldest first within a precedence. */
  ghost function ByPriority(ch: Chains): seq<Packet> {
    if ch == [] then [] else ch[|ch| - 1] + ByPriority(ch[..|ch| - 1])
  }

  ghost function LeftInOrder(moves: seq<Moved>): seq<Packet> {
    if moves == [] then [] else moves[0].left + LeftInOrder(moves[1..])
  }

  lemma {:induction false} ByPriorityOfEmpty(ch: Chains)
    requires Empty(ch)
    ensures ByPriority(ch) == []
  {
    if ch != [] {
      ByPriorityOfEmpty(ch[..|ch| - 1]);
    }
  }

  lemma {:induction false} ByPriorityFirst(ch: Chains, prec: nat)
    requires IsHighest(ch, prec)
    ensures ByPriority(ch) == [ch[prec][0]] + ByPriority(ch[prec := ch[prec][1..]])
  {
    var n := |ch| - 1;
    var c := ch[prec];
    var ch' := ch[prec := c[1..]];
    if prec == n {
      assert ch'[..n] == ch[..n];
      assert c == [c[0]] + c[1..];
      assert ([c[0]] + c[1..]) + ByPriority(ch[..n]) == [c[0]] + (c[1..] + ByPriority(ch[..n]));
    } else {
      assert ch[n] == [] && ch'[n] == [];
      assert ch'[..n] == ch[..n][prec := c[1..]];
      ByPriorityFirst(ch[..n], prec);
      assert [] + ByPriority(ch[..n]) == ByPriority(ch[..n]);
      assert [] + ByPriority(ch'[..n]) == ByPriority(ch'[..n]);
    }
  }

  /** Draining with `Deq` alone delivers strictly by precedence, oldest first. */
  lemma {:induction false} DrainsByPriority(states: seq<State>, ops: seq<Op>, moves: seq<Moved>)
    requires Run(states, ops, moves)
    requires forall i | 0 <= i < |ops| :: ops[i] == Deq
    ensures LeftInOrder(moves) + ByPriority(states[|ops|].chains) == ByPriority(states[0].chains)
  {
    var all := ByPriority(states[0].chains);
    if ops == [] {
      assert [] + all == all;
    } else {
      var m, rest := moves[0], ByPriority(states[1].chains);
      assert Step(states[0], ops[0], m, states[1]);
      DrainsByPriority(states[1..], ops[1..], moves[1..]);
      assert states[1..][|ops| - 1] == states[|ops|] && states[1..][0] == states[1];
      if Empty(states[0].chains) {
        ByPriorityOfEmpty(states[0].chains);
        ByPriorityOfEmpty(states[1].chains);
      } else {
        ByPriorityFirst(states[0].chains, m.prec);
      }
      assert m.left + rest == all;
      var tail, last := LeftInOrder(moves[1..]), ByPriority(states[|ops|].chains);
      assert (m.left + tail) + last == m.left + (tail + last);
    }
  }

  // ---- The methods take these steps.

  ghost function StateOf(pq: Pktq): State
    reads pq, pq.q
  {
    State(pq.chains, pq.Tails())
  }

  /** What the callers of an operation see to: that packets are not queued twice, and do not overflow the queue. */
  ghost predicate Allowed(pq: Pktq, op: Op)
    requires pq.ValidButTails()
    reads pq, pq.q, pq.Packets(), if op.Penq? || op.PenqHead? then {op.p} else {}
  {
    match op
    case Penq(prec, p) => Enqueues(pq, prec, p) && pq.q[prec].TailValid()
    case PenqHead(prec, p) => Enqueues(pq, prec, p)
    case PdeqTail(prec) => prec < |pq.q| && pq.q[prec].TailValid()
    case Pdeq(_) | Pdel(_, _) | Pflush(_, _) => op.prec < |pq.q|
    case DeqTail => forall i: nat | i < |pq.q| && IsLowest(pq.chains, i) :: pq.q[i].TailValid()
    case _ => true
  }

  ghost predicate Enqueues(pq: Pktq, prec: nat, p: Packet)
    reads pq, pq.q, pq.Packets(), p
  {
    && prec < |pq.q| && p.link == null && p !in pq.Packets()
    && pq.len < pq.max <= 0xffff && pq.q[prec].len < pq.q[prec].max
  }

  /** One list of the queue, and what its tail says. */
  lemma ListAt(pq: Pktq, i: nat)
    requires pq.ValidButTails() && i < |pq.q|
    ensures |pq.q| == |pq.chains| <= MAX_PREC && (pq.q[i].tail == null <==> pq.chains[i] == [])
    ensures pq.q[i].TailValid() <==> Right(pq.chains[i], pq.Tails()[i])
    ensures pq.q[i].TailValid() && pq.q[i].tail != null ==> pq.q[i].tail in pq.Packets()
    ensures forall x :: x in pq.q[i].nodes <==> x in pq.chains[i]
  {
    forall x ensures x in pq.q[i].nodes <==> x in pq.chains[i] {
      InNodeSet(pq.chains[i], x);
    }
  }

  method DoPenq(pq: Pktq, prec: nat, p: Packet) returns (ghost m: Moved)
    requires pq.ValidButTails() && Allowed(pq, Penq(prec, p))
    modifies pq, pq.q, pq.Packets(), p
    ensures pq.ValidButTails() && Step(old(StateOf(pq)), Penq(prec, p), m, StateOf(pq))
  {
    hide Pktq.Holds, Counted, Pktq.Packets, PrecList.TailValid;
    ListAt(pq, prec);
    var _ := pq.Penq(prec, p);
    m := Moved(prec, [p], []);
  }

  method DoPenqHead(pq: Pktq, prec: nat, p: Packet) returns (ghost m: Moved)
    requires pq.ValidButTails() && Allowed(pq, PenqHead(prec, p))
    modifies pq, pq.q, pq.Packets(), p
    ensures pq.ValidButTails() && Step(old(StateOf(pq)), PenqHead(prec, p), m, StateOf(pq))
  {
    hide Pktq.Holds, Counted, Pktq.Packets, PrecList.TailValid;
    ListAt(pq, prec);
    var _ := pq.PenqHead(prec, p);
    m := Moved(prec, [p], []);
  }

  method DoPdeq(pq: Pktq, prec: nat) returns (ghost m: Moved)
    requires pq.ValidButTails() && Allowed(pq, Pdeq(prec))
    modifies pq, pq.q, pq.Packets()
    ensures pq.ValidButTails() && Step(old(StateOf(pq)), Pdeq(prec), m, StateOf(pq))
  {
    hide Pktq.Holds, Counted, Pktq.Packets, PrecList.TailValid;
    ListAt(pq, prec);
    var p := pq.Pdeq(prec);
    m := Moved(prec, [], if p == null then [] else [p]);
  }

  method DoPdeqTail(pq: Pktq, prec: nat) returns (ghost m: Moved)
    requires pq.ValidButTails() && Allowed(pq, PdeqTail(prec))
    modifies pq, pq.q, pq.Packets()
    ensures pq.ValidButTails() && Step(old(StateOf(pq)), PdeqTail(prec), m, StateOf(pq))
  {
    hide Pktq.Holds, Counted, Pktq.Packets, PrecList.TailValid;
    ListAt(pq, prec);
    var p := pq.PdeqTail(prec);
    ListAt(pq, prec);
    m := Moved(prec, [], if p == null then [] else [p]);
  }

  method DoPdel(pq: Pktq, prec: nat, p: Packet) returns (ghost m: Moved)
    requires pq.ValidButTails() && Allowed(pq, Pdel(prec, p))
    modifies pq, pq.q, pq.Packets()
    ensures pq.ValidButTails() && Step(old(StateOf(pq)), Pdel(prec, p), m, StateOf(pq))
  {
    hide Pktq.Holds, Counted, Pktq.Packets, PrecList.TailValid;
    ListAt(pq, prec);
    var found, at := pq.Pdel(p, prec);
    m := Moved(prec, [], if found then [p] else []);
  }

  method DoPflush(pq: Pktq, prec: nat, fn: Option<Packet -> bool>) returns (ghost m: Moved)
    requires pq.ValidButTails() && Allowed(pq, Pflush(prec, fn))
    modifies pq, pq.q, pq.Packets()
    ensures pq.ValidButTails() && Step(old(StateOf(pq)), Pflush(prec, fn), m, StateOf(pq))
  {
    hide Pktq.Holds, Counted, Pktq.Packets, PrecList.TailValid;
    ListAt(pq, prec);
    var freed := pq.Pflush(prec, fn);
    m := Moved(prec, [], freed);
  }

  method DoDeq(pq: Pktq) returns (ghost m: Moved)
    requires pq.ValidButTails() && Allowed(pq, Deq)
    modifies pq, pq.q, pq.Packets()
    ensures pq.ValidButTails() && Step(old(StateOf(pq)), Deq, m, StateOf(pq))
  {
    hide Pktq.Holds, Counted, Pktq.Packets, PrecList.TailValid;
    forall i: nat | i < |pq.q| ensures |pq.q| == |pq.chains| && (pq.q[i].tail == null <==> pq.chains[i] == []) {
      ListAt(pq, i);
    }
    var p, prec := pq.Deq();
    m := Moved(if p == null then 0 else prec, [], if p == null then [] else [p]);
  }

  /** What `pktq_deq_tail` does to the lists and tails is a step. */
  lemma DeqTailStep(s: State, p: Packet?, prec: nat, s': State)
    requires 0 < |s.chains| == |s.tails| == |s'.chains| == |s'.tails|
    requires p == null <==> Empty(s.chains)
    requires p == null ==> s' == s && Right(s.chains[0], s.tails[0])
    requires p != null ==>
               && IsLowest(s.chains, prec) && Right(s.chains[prec], s.tails[prec]) && p == s.tails[prec]
               && s'.chains == s.chains[prec := s.chains[prec][..|s.chains[prec]| - 1]]
               && Right(s'.chains[prec], s'.tails[prec]) && s'.tails == s.tails[prec := s'.tails[prec]]
    ensures Step(s, DeqTail, Moved(if p == null then 0 else prec, [], if p == null then [] else [p]), s')
  {
    assert p == null ==> s.chains[0 := s.chains[0]] == s.chains && s.tails[0 := s.tails[0]] == s.tails;
  }

  method DoDeqTail(pq: Pktq) returns (ghost m: Moved)
    requires pq.ValidButTails() && Allowed(pq, DeqTail)
    modifies pq, pq.q, pq.Packets()
    ensures pq.ValidButTails() && Step(old(StateOf(pq)), DeqTail, m, StateOf(pq))
  {
    hide Pktq.Holds, Counted, Pktq.Packets, PrecList.TailValid, Step;
    forall i: nat | i < |pq.q|
      ensures |pq.q| == |pq.chains| && (pq.q[i].tail == null <==> pq.chains[i] == [])
      ensures pq.q[i].TailValid() <==> Right(pq.chains[i], pq.Tails()[i])
    {
      ListAt(pq, i);
    }
    ghost var was := StateOf(pq);
    var p, prec := pq.DeqTail();
    if p != null {
      ListAt(pq, prec);
    }
    m := Moved(if p == null then 0 else prec, [], if p == null then [] else [p]);
    DeqTailStep(was, p, prec, StateOf(pq));
  }

  method DoMdeq(pq: Pktq, bmp: bv32) returns (ghost m: Moved)
    requires pq.ValidButTails() && Allowed(pq, Mdeq(bmp))
    modifies pq, pq.q, pq.Packets()
    ensures pq.ValidButTails() && Step(old(StateOf(pq)), Mdeq(bmp), m, StateOf(pq))
  {
    hide Pktq.Holds, Counted, Pktq.Packets, PrecList.TailValid;
    forall i: nat | i < |pq.q| ensures |pq.q| == |pq.chains| && (pq.q[i].tail == null <==> pq.chains[i] == []) {
      ListAt(pq, i);
    }
    var p, prec := pq.Mdeq(bmp);
    m := Moved(if p == null then 0 else prec, [], if p == null then [] else [p]);
  }

  lemma QueuedOnce(pq: Pktq)
    requires pq.ValidButTails()
    ensures Distinct(pq.chains)
  {
    hide Counted, Pktq.Packets;
    forall n, i, j | 0 <= n < |pq.chains| && 0 <= i < j < |pq.chains[n]| ensures pq.chains[n][i] != pq.chains[n][j] {
      assert pq.q[n].ValidButTail() && pq.q[n].chain == pq.chains[n];
    }
  }

  /** Every operation of the queue takes a step. */
  method Do(pq: Pktq, op: Op) returns (ghost m: Moved)
    requires pq.ValidButTails() && Allowed(pq, op)
    modifies pq, pq.q, pq.Packets(), if op.Penq? || op.PenqHead? then {op.p} else {}
    ensures pq.ValidButTails() && Step(old(StateOf(pq)), op, m, StateOf(pq)) && Distinct(pq.chains)
  {
    hide Pktq.ValidButTails, Allowed, Step, Distinct;
    match op {
      case Penq(prec, p) => m := DoPenq(pq, prec, p);
      case PenqHead(prec, p) => m := DoPenqHead(pq, prec, p);
      case Pdeq(prec) => m := DoPdeq(pq, prec);
      case PdeqTail(prec) => m := DoPdeqTail(pq, prec);
      case Pdel(prec, p) => m := DoPdel(pq, prec, p);
      case Pflush(prec, fn) => m := DoPflush(pq, prec, fn);
      case Deq => m := DoDeq(pq);
      case DeqTail => m := DoDeqTail(pq);
      case Mdeq(bmp) => m := DoMdeq(pq, bmp);
    }
    QueuedOnce(pq);
  }
}
