/**
  The records of the protocol tracker as values: BSSes with their stations and direct links
  (bss.c, sta.c), how they are looked up and added, and what such steps leave alone.
 */
module Records {
  import opened Options
  import opened Octets
  import Bip

  type Addr = a: Octets | |a| == 6 witness Zeros(6)

  datatype AssocState = State1 | State2 | State3

  /** `struct wpa_ptk` */
  datatype Ptk = Ptk(kck: Octets, kek: Octets, tk1: Octets, tk2: Octets)

  const NO_PTK := Ptk(Zeros(16), Zeros(16), Zeros(16), Zeros(16))

  type Pmk = Octets

  /** What a station's RSN or WPA element says: management frame protection, cipher, key management. */
  datatype Sec = Sec(mfpc: bool, tkip: bool, sha256: bool)

  /** Packet numbers by traffic ID; index 16 is for management frames. */
  type Rsc = s: seq<Octets> | |s| == 17 witness seq(17, _ => Zeros(6))

  function ZeroRsc(): Rsc { seq(17, _ => Zeros(6)) }

  /** `struct wlantest_sta` */
  datatype StaV = StaV(addr: Addr, state: AssocState, sec: Sec, anonce: Octets, snonce: Octets,
                       ptk: Ptk, ptkSet: bool, tptk: Ptk, tptkSet: bool, rscToDs: Rsc, rscFromDs: Rsc)

  /** `struct wlantest_tdls`; the stations stand for themselves by their address. */
  datatype TdlsV = TdlsV(init: Addr, resp: Addr, tpkKck: Octets, tpkTk: Octets, linkUp: bool, dialogToken: Octet)

  /** An integrity group key with the number of the last packet. */
  datatype Igtk = Igtk(key: Octets, known: bool, ipn: Bip.Ipn)

  type Igtks = s: seq<Igtk> | |s| == 6 witness seq(6, _ => Igtk(Zeros(16), false, Zeros(6)))

  /** The counters of BIP frames. */
  datatype BipCount = BipCount(valid: nat, invalid: nat, missing: nat)

  /** `struct wlantest_bss` */
  datatype BssV = BssV(bssid: Addr, mfpc: bool, stas: seq<StaV>, tdls: seq<TdlsV>, pmks: seq<Pmk>,
                       igtks: Igtks, igtkIdx: nat, bip: BipCount)

  /** `struct wlantest` */
  datatype World = World(bss: seq<BssV>, pmks: seq<Pmk>)

  /** A station record as allocated. */
  function NewSta(addr: Addr): (s: StaV)
    ensures s.addr == addr && s.state == State1 && !s.ptkSet && !s.tptkSet
  {
    StaV(addr, State1, Sec(false, false, false), Zeros(32), Zeros(32),
         NO_PTK, false, NO_PTK, false, ZeroRsc(), ZeroRsc())
  }

  function NewBss(bssid: Addr): (b: BssV)
    ensures b.bssid == bssid && b.stas == [] && b.tdls == [] && b.pmks == []
  {
    BssV(bssid, false, [], [], [], seq(6, _ => Igtk(Zeros(16), false, Zeros(6))), 0, BipCount(0, 0, 0))
  }

  /** A new station has no security parameters, nonces and packet numbers of zeros, and no key. */
  lemma NewStaIs(addr: Addr)
    ensures var s := NewSta(addr);
            && s.addr == addr && s.state == State1 && !s.sec.mfpc && !s.sec.tkip && !s.sec.sha256
            && !s.ptkSet && !s.tptkSet
            && |s.anonce| == |s.snonce| == 32 && (forall i | 0 <= i < 32 :: s.anonce[i] == s.snonce[i] == 0)
            && forall k | 0 <= k < 17 :: s.rscToDs[k] == s.rscFromDs[k] == [0, 0, 0, 0, 0, 0]
  {
  }

  /** A new BSS is not protected, and knows no PMK and no IGTK. */
  lemma NewBssIs(bssid: Addr)
    ensures var b := NewBss(bssid);
            && b.bssid == bssid && !b.mfpc && b.stas == [] && b.tdls == [] && b.pmks == [] && b.igtkIdx == 0
            && b.bip.valid == b.bip.invalid == b.bip.missing == 0 && forall i | 0 <= i < 6 :: !b.igtks[i].known
  {
  }

  /** A group address: the lowest bit of the first octet. */
  predicate Group(a: Addr) { a[0] & 0x01 != 0 }

  /** The packet number of a data frame noted for its direction. */
  function NoteTid(s: StaV, toDs: bool, tid: nat, pn: Octets): (t: StaV)
    requires tid <= 16
    ensures t.addr == s.addr
  {
    if toDs then s.(rscToDs := s.rscToDs[tid := pn]) else s.(rscFromDs := s.rscFromDs[tid := pn])
  }

  // ---- Looking up

  /** `sta_find`: the first record for an address, or the length. */
  function FindSta(stas: seq<StaV>, addr: Addr): (i: nat)
    ensures i <= |stas| && (i < |stas| ==> stas[i].addr == addr)
    ensures forall j | 0 <= j < i :: stas[j].addr != addr
  {
    if stas == [] || stas[0].addr == addr then 0 else 1 + FindSta(stas[1..], addr)
  }

  /** `bss_find` */
  function FindBss(bss: seq<BssV>, bssid: Addr): (i: nat)
    ensures i <= |bss| && (i < |bss| ==> bss[i].bssid == bssid)
    ensures forall j | 0 <= j < i :: bss[j].bssid != bssid
  {
    if bss == [] || bss[0].bssid == bssid then 0 else 1 + FindBss(bss[1..], bssid)
  }

  predicate HasBss(w: World, bssid: Addr) { FindBss(w.bss, bssid) < |w.bss| }

  function TheBss(w: World, bssid: Addr): (b: BssV)
    requires HasBss(w, bssid)
    ensures b.bssid == bssid
  {
    w.bss[FindBss(w.bss, bssid)]
  }

  predicate HasSta(b: BssV, addr: Addr) { FindSta(b.stas, addr) < |b.stas| }

  function TheSta(b: BssV, addr: Addr): (s: StaV)
    requires HasSta(b, addr)
    ensures s.addr == addr
  {
    b.stas[FindSta(b.stas, addr)]
  }

  function PutBss(w: World, b: BssV): World
    requires HasBss(w, b.bssid)
  {
    w.(bss := w.bss[FindBss(w.bss, b.bssid) := b])
  }

  function PutSta(b: BssV, s: StaV): BssV
    requires HasSta(b, s.addr)
  {
    b.(stas := b.stas[FindSta(b.stas, s.addr) := s])
  }

  /** `bss_get` */
  function GetBss(w: World, bssid: Addr): World {
    if Group(bssid) || HasBss(w, bssid) then w else w.(bss := [NewBss(bssid)] + w.bss)
  }

  /** `sta_get` */
  function GetSta(b: BssV, addr: Addr): (c: BssV)
    ensures c.bssid == b.bssid
  {
    if Group(addr) || HasSta(b, addr) then b else b.(stas := [NewSta(addr)] + b.stas)
  }

  /** `bss_get`, and `sta_get` in the BSS if there is one. */
  function Get(w: World, bssid: Addr, addr: Addr): World {
    var v := GetBss(w, bssid);
    if HasBss(v, bssid) && !Group(bssid) then PutBss(v, GetSta(TheBss(v, bssid), addr)) else v
  }

  /** The station at an address in a BSS. */
  function StaAt(w: World, bssid: Addr, addr: Addr): (s: Option<StaV>)
    ensures s.Some? ==> s.value.addr == addr
  {
    if HasBss(w, bssid) && HasSta(TheBss(w, bssid), addr) then Some(TheSta(TheBss(w, bssid), addr)) else None
  }

  // ---- Laws of looking up

  lemma FoundSta(stas: seq<StaV>, addr: Addr, i: nat)
    requires i < |stas| && stas[i].addr == addr && forall j | 0 <= j < i :: stas[j].addr != addr
    ensures FindSta(stas, addr) == i
  {
  }

  lemma FoundBss(bss: seq<BssV>, bssid: Addr, i: nat)
    requires i < |bss| && bss[i].bssid == bssid && forall j | 0 <= j < i :: bss[j].bssid != bssid
    ensures FindBss(bss, bssid) == i
  {
  }

  lemma NoSta(stas: seq<StaV>, addr: Addr)
    requires forall j | 0 <= j < |stas| :: stas[j].addr != addr
    ensures FindSta(stas, addr) == |stas|
  {
  }

  lemma NoBss(bss: seq<BssV>, bssid: Addr)
    requires forall j | 0 <= j < |bss| :: bss[j].bssid != bssid
    ensures FindBss(bss, bssid) == |bss|
  {
  }

  lemma SameAddresses(a: seq<StaV>, b: seq<StaV>, addr: Addr)
    requires |a| == |b| && forall i | 0 <= i < |a| :: a[i].addr == b[i].addr
    ensures FindSta(a, addr) == FindSta(b, addr)
  {
    if FindSta(a, addr) < |a| {
      FoundSta(b, addr, FindSta(a, addr));
    } else {
      NoSta(b, addr);
    }
  }

  /** Replacing a record keeps every address where it is. */
  lemma FindPutSta(b: BssV, s: StaV, addr: Addr)
    requires HasSta(b, s.addr)
    ensures FindSta(PutSta(b, s).stas, addr) == FindSta(b.stas, addr)
  {
    var stas := PutSta(b, s).stas;
    var i := FindSta(b.stas, addr);
    if i < |b.stas| {
      FoundSta(stas, addr, i);
    } else {
      NoSta(stas, addr);
    }
  }

  lemma FindPutBss(w: World, b: BssV, bssid: Addr)
    requires HasBss(w, b.bssid)
    ensures FindBss(PutBss(w, b).bss, bssid) == FindBss(w.bss, bssid)
  {
    var bss := PutBss(w, b).bss;
    var i := FindBss(w.bss, bssid);
    if i < |w.bss| {
      FoundBss(bss, bssid, i);
    } else {
      NoBss(bss, bssid);
    }
  }

  lemma PutStaAt(b: BssV, s: StaV, addr: Addr)
    requires HasSta(b, s.addr)
    ensures HasSta(PutSta(b, s), addr) == HasSta(b, addr)
    ensures HasSta(b, addr) ==> TheSta(PutSta(b, s), addr) == if addr == s.addr then s else TheSta(b, addr)
  {
    FindPutSta(b, s, addr);
  }

  lemma PutBssAt(w: World, b: BssV, bssid: Addr)
    requires HasBss(w, b.bssid)
    ensures HasBss(PutBss(w, b), bssid) == HasBss(w, bssid)
    ensures HasBss(w, bssid) ==> TheBss(PutBss(w, b), bssid) == if bssid == b.bssid then b else TheBss(w, bssid)
  {
    FindPutBss(w, b, bssid);
  }

  lemma GetStaAt(b: BssV, addr: Addr, other: Addr)
    ensures HasSta(GetSta(b, addr), other) <==> HasSta(b, other) || (other == addr && !Group(addr))
    ensures HasSta(b, other) ==> TheSta(GetSta(b, addr), other) == TheSta(b, other)
    ensures !HasSta(b, addr) && !Group(addr) ==> TheSta(GetSta(b, addr), addr) == NewSta(addr)
  {
    hide Group, NewSta;
    if !Group(addr) && !HasSta(b, addr) {
      var stas := [NewSta(addr)] + b.stas;
      assert stas[1..] == b.stas;
      AddedSta(b.stas, NewSta(addr), other);
    }
  }

  lemma AddedSta(stas: seq<StaV>, s: StaV, other: Addr)
    ensures FindSta([s] + stas, other) == if s.addr == other then 0 else 1 + FindSta(stas, other)
  {
    assert ([s] + stas)[1..] == stas;
  }

  lemma AddedBss(bss: seq<BssV>, b: BssV, other: Addr)
    ensures FindBss([b] + bss, other) == if b.bssid == other then 0 else 1 + FindBss(bss, other)
  {
    assert ([b] + bss)[1..] == bss;
  }

  lemma GetBssAt(w: World, bssid: Addr, other: Addr)
    ensures HasBss(GetBss(w, bssid), other) <==> HasBss(w, other) || (other == bssid && !Group(bssid))
    ensures HasBss(w, other) ==> TheBss(GetBss(w, bssid), other) == TheBss(w, other)
    ensures !HasBss(w, bssid) && !Group(bssid) ==> TheBss(GetBss(w, bssid), bssid) == NewBss(bssid)
  {
    hide Group, NewBss;
    if !Group(bssid) && !HasBss(w, bssid) {
      AddedBss(w.bss, NewBss(bssid), other);
    }
  }

  /** Looking up with creation adds at most one fresh station, and changes no other. */
  lemma GetAt(w: World, bssid: Addr, addr: Addr, id: Addr, other: Addr)
    ensures var v := Get(w, bssid, addr);
            StaAt(v, id, other) ==
            if id == bssid && other == addr && !Group(bssid) && !Group(addr) && StaAt(w, bssid, addr).None?
            then Some(NewSta(addr)) else StaAt(w, id, other)
  {
    hide Group, NewSta, NewBss, GetBss, GetSta, PutBss, FindSta, FindBss;
    GetBssAt(w, bssid, id);
    GetBssAt(w, bssid, bssid);
    var v := GetBss(w, bssid);
    if HasBss(v, bssid) && !Group(bssid) {
      var b := TheBss(v, bssid);
      GetStaAt(b, addr, other);
      PutBssAt(v, GetSta(b, addr), id);
    }
    NoStas(NewBss(bssid), other);
  }

  lemma NoStas(b: BssV, addr: Addr)
    requires b.stas == []
    ensures !HasSta(b, addr)
  {
  }

  /** A station written back where it was. */
  function Update(w: World, bssid: Addr, s: StaV): World
    requires StaAt(w, bssid, s.addr).Some?
  {
    PutBss(w, PutSta(TheBss(w, bssid), s))
  }

  lemma UpdateAt(w: World, bssid: Addr, s: StaV, id: Addr, other: Addr)
    requires StaAt(w, bssid, s.addr).Some?
    ensures StaAt(Update(w, bssid, s), id, other)
            == if id == bssid && other == s.addr then Some(s) else StaAt(w, id, other)
  {
    hide PutBss, PutSta, FindSta, FindBss;
    var b := TheBss(w, bssid);
    NamedPut(b, s);
    PutStaAt(b, s, other);
    PutBssAt(w, PutSta(b, s), id);
  }

  lemma NamedPut(b: BssV, s: StaV)
    requires HasSta(b, s.addr)
    ensures PutSta(b, s).bssid == b.bssid
  {
  }
}
