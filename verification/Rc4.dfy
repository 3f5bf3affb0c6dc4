/**
  The RC4 of wep.c (`wep_crypt`): key scheduling and key-stream generation over a 256-byte
  state that is swapped in place, XORed into a buffer in place.  State bytes and indices are
  numbers below 256; the `& 0xff` of the C code is `% 256`.
 */
module Rc4 {
  import opened Octets

  type Index = i: int | 0 <= i < 256
  type Bytes256 = s: seq<Index> | |s| == 256 witness Identity()

  /** The state array with its two indices. */
  datatype State = State(s: Bytes256, i: Index, j: Index)

  function Identity(): (s: seq<Index>)
    ensures |s| == 256 && forall i | 0 <= i < 256 :: s[i] == i
  {
    seq(256, i requires 0 <= i < 256 => i)
  }

  /** No value twice: with 256 values in 256 places, a permutation of 0..255. */
  ghost predicate Permutation(s: seq<Index>) {
    |s| == 256 && forall i, j | 0 <= i < j < 256 :: s[i] != s[j]
  }

  function Swap(s: Bytes256, i: Index, j: Index): Bytes256 {
    s[i := s[j]][j := s[i]]
  }

  /** The bytes of a key, read cyclically. */
  function KeyByte(key: Octets, i: nat): Index
    requires key != []
  {
    key[i % |key|] as int
  }

  /** One step of key scheduling. */
  function Mix(s: Bytes256, i: Index, j: Index, k: Index): (Bytes256, Index) {
    var j' := (j + s[i] + k) % 256;
    (Swap(s, i, j'), j')
  }

  /** RC4's key scheduling from index `i` on. */
  function Schedule(key: Octets, s: Bytes256, i: nat, j: Index): Bytes256
    requires key != [] && i <= 256
    decreases 256 - i
  {
    if i == 256 then s
    else
      var (s', j') := Mix(s, i, j, KeyByte(key, i));
      Schedule(key, s', i + 1, j')
  }

  /** One step of key-stream generation. */
  function Next(st: State): State {
    var i' := (st.i + 1) % 256;
    var j' := (st.j + st.s[i']) % 256;
    State(Swap(st.s, i', j'), i', j')
  }

  /** The key-stream byte of a state. */
  function Output(st: State): Octet {
    var sum: int := st.s[st.i] as int + st.s[st.j] as int;
    st.s[sum % 256] as int as bv8
  }

  /** The message XORed with the key stream that follows state `st`. */
  function Crypt(st: State, m: Octets): (c: Octets)
    ensures |c| == |m|
    decreases |m|
  {
    if m == [] then []
    else [Flip(m[0], Output(Next(st)))] + Crypt(Next(st), m[1..])
  }

  function Start(key: Octets): State
    requires key != []
  {
    State(Schedule(key, Identity(), 0, 0), 0, 0)
  }

  /** Textbook RC4 with a key of any non-zero length. */
  function Rc4(key: Octets, m: Octets): (c: Octets)
    requires key != []
    ensures |c| == |m|
  {
    Crypt(Start(key), m)
  }

  // ---- RC4 as the states it goes through

  /** Places `i` and `j` are exchanged, and no other place changes. */
  ghost predicate Exchanged(s: Bytes256, t: Bytes256, i: Index, j: Index) {
    t[i] == s[j] && t[j] == s[i] && forall k: Index | k != i && k != j :: t[k] == s[k]
  }

  /** The states of the setup: place `i` is exchanged with a place that its element and key octet `i` move on. */
  ghost predicate SetUp(key: Octets, states: seq<State>)
    requires key != []
  {
    && |states| == 257 && states[0].j == 0 && (forall k: Index :: states[0].s[k] == k)
    && SetsUp(key, states, 0)
  }

  /** The steps of the setup from place `i` on. */
  ghost predicate SetsUp(key: Octets, states: seq<State>, i: nat)
    requires key != []
  {
    i + |states| == 257 && forall k | 0 <= k < 256 - i :: SetUpStep(key, states[k], states[k + 1], i + k)
  }

  predicate Moved(j: Index, n: int, next: Index) { next == (j + n) % 256 }

  ghost predicate SetUpStep(key: Octets, st: State, next: State, i: Index)
    requires key != []
  {
    Moved(st.j, st.s[i] + key[i % |key|] as int, next.j) && Exchanged(st.s, next.s, i, next.j)
  }

  /** The states of the output: octet `k` is XORed with the element at the sum of the two just exchanged. */
  ghost predicate Streams(states: seq<State>, m: Octets, c: Octets) {
    |states| == |m| + 1 && |c| == |m| && forall k | 0 <= k < |m| :: StreamStep(states[k], states[k + 1], m[k], c[k])
  }

  ghost predicate StreamStep(st: State, next: State, m: Octet, c: Octet) {
    && Moved(st.i, 1, next.i) && Moved(st.j, st.s[next.i], next.j)
    && Exchanged(st.s, next.s, next.i, next.j)
    && var sum: int := next.s[next.i] as int + next.s[next.j] as int;
       c == m ^ (next.s[sum % 256] as int as bv8)
  }

  /** `c` is what RC4 under the key makes of `m`. */
  ghost predicate IsRc4(key: Octets, m: Octets, c: Octets)
    requires key != []
  {
    exists up: seq<State>, out: seq<State> ::
      SetUp(key, up) && Streams(out, m, c) && out[0].s == up[256].s && out[0].i == 0 && out[0].j == 0
  }

  lemma SwapExchanges(s: Bytes256, i: Index, j: Index)
    ensures Exchanged(s, Swap(s, i, j), i, j)
  {
  }

  lemma MixSteps(key: Octets, s: Bytes256, i: Index, j: Index)
    requires key != []
    ensures var (s', j') := Mix(s, i, j, KeyByte(key, i)); SetUpStep(key, State(s, 0, j), State(s', 0, j'), i)
  {
    SwapExchanges(s, i, Mix(s, i, j, KeyByte(key, i)).1);
    hide Swap, Exchanged;
  }

  lemma {:induction false} ScheduleStates(key: Octets, s: Bytes256, i: nat, j: Index) returns (states: seq<State>)
    requires key != [] && i <= 256
    ensures SetsUp(key, states, i) && states[0] == State(s, 0, j) && states[256 - i].s == Schedule(key, s, i, j)
    decreases 256 - i
  {
    states := [State(s, 0, j)];
    if i < 256 {
      MixSteps(key, s, i, j);
      hide KeyByte, Mix, SetUpStep;
      var (s', j') := Mix(s, i, j, KeyByte(key, i));
      var rest := ScheduleStates(key, s', i + 1, j');
      SetsUpBefore(key, states[0], rest, i);
      states := states + rest;
    }
  }

  lemma SetsUpBefore(key: Octets, st: State, rest: seq<State>, i: nat)
    requires key != [] && i < 256 && SetsUp(key, rest, i + 1) && SetUpStep(key, st, rest[0], i)
    ensures SetsUp(key, [st] + rest, i)
  {
    hide SetUpStep;
    var states := [st] + rest;
    forall k | 0 <= k < 256 - i ensures SetUpStep(key, states[k], states[k + 1], i + k) {
      if k > 0 {
        assert SetUpStep(key, rest[k - 1], rest[k - 1 + 1], i + 1 + (k - 1));
      }
    }
  }

  lemma NextSteps(st: State, m: Octet)
    ensures StreamStep(st, Next(st), m, Flip(m, Output(Next(st))))
  {
    var i := (st.i + 1) % 256;
    SwapExchanges(st.s, i, (st.j + st.s[i]) % 256);
    hide Swap, Exchanged;
  }

  lemma {:induction false} CryptStates(st: State, m: Octets) returns (states: seq<State>)
    ensures states != [] && states[0] == st && Streams(states, m, Crypt(st, m))
    decreases |m|
  {
    states := [st];
    if m != [] {
      NextSteps(st, m[0]);
      hide Next, Output, Flip, StreamStep;
      var rest := CryptStates(Next(st), m[1..]);
      states := states + rest;
      var c := Crypt(st, m);
      forall k | 0 <= k < |m| ensures StreamStep(states[k], states[k + 1], m[k], c[k]) {
        if k > 0 {
          assert StreamStep(rest[k - 1], rest[k], m[1..][k - 1], Crypt(Next(st), m[1..])[k - 1]);
        }
      }
    }
  }

  /** RC4 goes through those states, for every key and message. */
  lemma Rc4States(key: Octets, m: Octets)
    requires key != []
    ensures IsRc4(key, m, Rc4(key, m))
  {
    hide Schedule, Crypt, SetsUp, StreamStep;
    var up := ScheduleStates(key, Identity(), 0, 0);
    ScheduleLength(key, up);
    var out := CryptStates(Start(key), m);
    assert SetUp(key, up) && Streams(out, m, Rc4(key, m));
  }

  lemma ScheduleLength(key: Octets, states: seq<State>)
    requires key != [] && SetsUp(key, states, 0)
    ensures |states| == 257
  {
  }

  lemma SwapPermutes(s: Bytes256, i: Index, j: Index)
    requires Permutation(s)
    ensures Permutation(Swap(s, i, j))
  {
  }

  /** The schedule depends on the first 256 cyclic key bytes only. */
  lemma {:induction false} ScheduleExtensional(k: Octets, l: Octets, s: Bytes256, i: nat, j: Index)
    requires k != [] && l != [] && i <= 256
    requires forall n | 0 <= n < 256 :: KeyByte(k, n) == KeyByte(l, n)
    ensures Schedule(k, s, i, j) == Schedule(l, s, i, j)
    decreases 256 - i
  {
    if i < 256 {
      hide KeyByte, Mix;
      assert KeyByte(k, i) == KeyByte(l, i);
      var (s', j') := Mix(s, i, j, KeyByte(k, i));
      ScheduleExtensional(k, l, s', i + 1, j');
    }
  }

  lemma {:induction false} CryptTwice(st: State, m: Octets)
    ensures Crypt(st, Crypt(st, m)) == m
    decreases |m|
  {
    if m != [] {
      hide Next, Output, Flip;
      var k := Output(Next(st));
      var c := Crypt(st, m);
      assert c[1..] == Crypt(Next(st), m[1..]);
      CryptTwice(Next(st), m[1..]);
      FlipTwice(m[0], k);
      assert m == [m[0]] + m[1..];
    }
  }

  /** RC4 is its own inverse, for every key and message. */
  lemma Involution(key: Octets, m: Octets)
    requires key != []
    ensures Rc4(key, Rc4(key, m)) == m
  {
    CryptTwice(Start(key), m);
  }

  /** `S_SWAP(i, j)` */
  method SwapInPlace(S: array<Index>, i: Index, j: Index)
    requires S.Length == 256 && Permutation(S[..])
    modifies S
    ensures Permutation(S[..]) && S[..] == Swap(old(S[..]), i, j)
  {
    SwapPermutes(S[..], i, j);
    var t := S[i];
    S[i] := S[j];
    S[j] := t;
    assert S[..] == Swap(old(S[..]), i, j);
  }

  lemma IdentityPermutes()
    ensures Permutation(Identity())
  {
  }

  /** The body of the setup loop. */
  method MixInPlace(S: array<Index>, i: Index, j: Index, k: Index) returns (j': Index)
    requires S.Length == 256 && Permutation(S[..])
    modifies S
    ensures Permutation(S[..]) && (S[..], j') == Mix(old(S[..]), i, j, k)
  {
    j' := (j + S[i] + k) % 256;
    SwapInPlace(S, i, j');
  }

  /** "Setup RC4 state": the state stays a permutation throughout. */
  method Setup(key: Octets, S: array<Index>)
    requires |key| == 16 && S.Length == 256
    modifies S
    ensures Permutation(S[..]) && S[..] == Schedule(key, Identity(), 0, 0)
  {
    forall i | 0 <= i < 256 {
      S[i] := i;
    }
    assert S[..] == Identity();
    hide Permutation, Mix;
    IdentityPermutes();
    var j: Index, i := 0, 0;
    while i < 256
      invariant 0 <= i <= 256 && Permutation(S[..])
      invariant Schedule(key, S[..], i, j) == Schedule(key, Identity(), 0, 0)
    {
      j := MixInPlace(S, i, j, key[i % 16] as int);
      i := i + 1;
    }
  }

  /** The body of the key-stream loop, up to the output byte. */
  method NextInPlace(S: array<Index>, i: Index, j: Index) returns (i': Index, j': Index, k: Octet)
    requires S.Length == 256 && Permutation(S[..])
    modifies S
    ensures Permutation(S[..])
    ensures State(S[..], i', j') == Next(State(old(S[..]), i, j)) && k == Output(State(S[..], i', j'))
  {
    i' := (i + 1) % 256;
    j' := (j + S[i']) % 256;
    SwapInPlace(S, i', j');
    var sum: int := S[i'] as int + S[j'] as int;
    k := S[sum % 256] as int as bv8;
  }

  /** The key-stream loop as a function of the buffer. */
  ghost function CryptFrom(st: State, buf: Octets, k: nat, plen: nat): (c: Octets)
    requires k <= plen <= |buf|
    decreases plen - k
  {
    if k == plen then buf
    else CryptFrom(Next(st), buf[k := Flip(buf[k], Output(Next(st)))], k + 1, plen)
  }

  lemma {:induction false} CryptFromIs(st: State, buf: Octets, k: nat, plen: nat)
    requires k <= plen <= |buf|
    ensures CryptFrom(st, buf, k, plen) == buf[..k] + Crypt(st, buf[k..plen]) + buf[plen..]
    decreases plen - k
  {
    hide Next, Output, Flip;
    if k == plen {
      assert buf == buf[..k] + [] + buf[plen..];
    } else {
      var x := Flip(buf[k], Output(Next(st)));
      var next := buf[k := x];
      CryptFromIs(Next(st), next, k + 1, plen);
      assert next[k + 1..plen] == buf[k..plen][1..] && next[plen..] == buf[plen..];
      var rest := Crypt(Next(st), next[k + 1..plen]);
      assert Crypt(st, buf[k..plen]) == [x] + rest;
      assert next[..k + 1] == buf[..k] + [x];
      assert (buf[..k] + [x]) + rest == buf[..k] + ([x] + rest);
    }
  }

  lemma CryptBuffer(key: Octets, buf: Octets, plen: nat)
    requires key != [] && plen <= |buf|
    ensures CryptFrom(Start(key), buf, 0, plen) == Rc4(key, buf[..plen]) + buf[plen..]
  {
    var st := Start(key);
    hide Next, Output, Start;
    CryptFromIs(st, buf, 0, plen);
    assert buf[0..plen] == buf[..plen] && buf[..0] == [];
    assert [] + Crypt(st, buf[..plen]) + buf[plen..] == Crypt(st, buf[..plen]) + buf[plen..];
  }

  /** The body of the key-stream loop. */
  method CryptStep(S: array<Index>, i: Index, j: Index, buf: array<Octet>, k: nat) returns (i': Index, j': Index)
    requires S.Length == 256 && Permutation(S[..]) && k < buf.Length && (S as object) != buf as object
    modifies S, buf
    ensures Permutation(S[..]) && State(S[..], i', j') == Next(State(old(S[..]), i, j))
    ensures buf[..] == old(buf[..])[k := Flip(old(buf[..])[k], Output(Next(State(old(S[..]), i, j))))]
  {
    hide Permutation, Next, Output, Flip;
    var out;
    i', j', out := NextInPlace(S, i, j);
    buf[k] := Flip(buf[k], out);
  }

  /** `wep_crypt`: RC4 with a 16-byte key, applied to the first `plen` bytes of `buf` in place. */
  method WepCrypt(key: Octets, buf: array<Octet>, plen: nat)
    requires |key| == 16 && plen <= buf.Length
    modifies buf
    ensures buf[..] == Rc4(key, old(buf[..])[..plen]) + old(buf[..])[plen..]
    ensures IsRc4(key, old(buf[..])[..plen], buf[..plen]) && buf[plen..] == old(buf[..])[plen..]
  {
    Rc4States(key, buf[..plen]);
    hide IsRc4;
    var S := new Index[256];
    Setup(key, S);
    assert Start(key) == State(S[..], 0, 0);
    hide Permutation, Next, Output, Start, Rc4, Identity, Flip;
    CryptBuffer(key, buf[..], plen);
    var i: Index, j: Index, k := 0, 0, 0;
    while k < plen
      invariant 0 <= k <= plen && Permutation(S[..])
      invariant CryptFrom(State(S[..], i, j), buf[..], k, plen) == CryptFrom(Start(key), old(buf[..]), 0, plen)
    {
      i, j := CryptStep(S, i, j, buf, k);
      k := k + 1;
    }
  }
}
