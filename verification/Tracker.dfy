/**
  The tracker's list of BSSes, and the frames it receives, on objects (bss.c, sta.c, rx_mgmt.c,
  rx_eapol.c, rx_tdls.c).  Every entry point is proved to take the step that `TrackerRuns` takes
  on values, so that what holds of all runs there holds of the objects.
 */
module Tracker {
  import opened Options
  import opened Octets
  import opened Records
  import opened Handshake
  import opened MgmtFrames
  import opened TdlsTable
  import opened Stations
  import opened BssRecords
  import opened TrackerRuns
  import Ccmp

  /** A BSS record is well-formed, and consists of objects in `r`. */
  ghost predicate Owned(b: Bss, r: set<object>)
    reads b
  {
    && b in r && (forall i | 0 <= i < |b.stas| :: b.stas[i] in r) && (forall i | 0 <= i < |b.tdls| :: b.tdls[i] in r)
    && b.Valid()
  }

  /** It also stands for the value `m`. */
  ghost predicate Holds(b: Bss, m: BssV, r: set<object>)
    reads b, r
  {
    Owned(b, r) && b.View() == m
  }

  ghost function Union(rs: seq<set<object>>): set<object> {
    set i, o | 0 <= i < |rs| && o in rs[i] :: o
  }

  ghost predicate Disjoint(rs: seq<set<object>>) {
    forall i, j | 0 <= i < j < |rs| :: rs[i] !! rs[j]
  }

  ghost predicate ApartFrom(rs: seq<set<object>>, k: nat) {
    forall i | 0 <= i < |rs| && k < |rs| && i != k :: rs[i] !! rs[k]
  }

  lemma Apart(rs: seq<set<object>>, k: nat)
    requires Disjoint(rs)
    ensures ApartFrom(rs, k)
  {
    forall i | 0 <= i < |rs| && k < |rs| && i != k ensures rs[i] !! rs[k] {
      assert i < k || k < i;
    }
  }

  /** The records of a list stand for values, each by its own objects. */
  ghost predicate AllHold(list: seq<Bss>, ms: seq<BssV>, rs: seq<set<object>>)
    reads list, Union(rs)
  {
    |list| == |ms| == |rs| && forall i | 0 <= i < |list| :: list[i] in rs[i] && Holds(list[i], ms[i], rs[i])
  }

  lemma PrependedHold(list: seq<Bss>, ms: seq<BssV>, rs: seq<set<object>>, b: Bss, m: BssV, r: set<object>)
    requires AllHold(list, ms, rs) && b in r && Holds(b, m, r)
    ensures AllHold([b] + list, [m] + ms, [r] + rs)
  {
    hide Holds, Union;
    forall i | 0 < i <= |list|
      ensures Holds(([b] + list)[i], ([m] + ms)[i], ([r] + rs)[i]) && ([b] + list)[i] in ([r] + rs)[i]
    {
      assert ([b] + list)[i] == list[i - 1] && ([m] + ms)[i] == ms[i - 1] && ([r] + rs)[i] == rs[i - 1];
    }
  }

  lemma PrependedDisjoint(rs: seq<set<object>>, r: set<object>)
    requires Disjoint(rs) && r !! Union(rs)
    ensures Disjoint([r] + rs)
  {
    forall i, j | 0 <= i < j <= |rs| ensures ([r] + rs)[i] !! ([r] + rs)[j] {
      assert ([r] + rs)[j] == rs[j - 1];
      if i > 0 {
        assert ([r] + rs)[i] == rs[i - 1];
      } else {
        InUnion(rs, j - 1);
      }
    }
  }

  lemma InUnion(rs: seq<set<object>>, i: nat)
    requires i < |rs|
    ensures rs[i] <= Union(rs)
  {
  }

  lemma PrependedUnion(rs: seq<set<object>>, r: set<object>)
    ensures Union([r] + rs) == r + Union(rs)
  {
    var s := [r] + rs;
    assert s[0] == r;
    forall o | o in Union(rs) ensures o in Union(s) {
      var i :| 0 <= i < |rs| && o in rs[i];
      assert s[i + 1] == rs[i];
    }
  }

  /** `struct wlantest`, as far as frames change it */
  class Wlantest {
    var bss: seq<Bss>
    var pmks: seq<Pmk>
    ghost var models: seq<BssV>
    ghost var reprs: seq<set<object>>

    /** All objects of the BSS records. */
    ghost function Objects(): set<object>
      reads this
    {
      Union(reprs)
    }

    /** The records stand for the models, and no two of them share an object. */
    ghost predicate Valid()
      reads this, bss, Objects()
    {
      AllHold(bss, models, reprs) && Disjoint(reprs) && this !in Objects()
    }

    ghost function View(): World
      reads this
    {
      World(models, pmks)
    }

    constructor ()
      ensures Valid() && View() == World([], []) && Objects() == {}
    {
      bss, pmks, models, reprs := [], [], [], [];
    }

    /** `bss_find`, by position */
    method BssFind(bssid: Addr) returns (i: nat)
      requires Valid()
      ensures Valid() && i == FindBss(View().bss, bssid)
    {
      i := 0;
      assert |bss| == |models|;
      hide *;
      while i < |bss|
        invariant 0 <= i <= |bss| == |models|
        invariant forall j | 0 <= j < i :: models[j].bssid != bssid
      {
        SameBssid(i);
        if bss[i].bssid == bssid {
          FoundBss(models, bssid, i);
          Models();
          return;
        }
        i := i + 1;
      }
      NoBss(models, bssid);
      Models();
    }

    lemma Models()
      ensures View().bss == models && View().pmks == pmks
    {
    }

    lemma SameBssid(i: nat)
      requires Valid() && i < |bss|
      ensures i < |models| && bss[i].bssid == models[i].bssid
    {
      hide Bss.Valid;
    }

    /** A new BSS record in front of the list. */
    method BssAdd(bssid: Addr) returns (b: Bss)
      requires Valid()
      modifies this
      ensures Valid() && fresh(b) && bss == [b] + old(bss) && pmks == old(pmks)
      ensures models == [NewBss(bssid)] + old(models) && Objects() == {b} + old(Objects())
    {
      hide NewBss, Holds, Disjoint, AllHold;
      b := NewRecord(bssid);
      assert b !in Objects();
      Enlist(b, NewBss(bssid));
    }

    static method NewRecord(bssid: Addr) returns (b: Bss)
      ensures fresh(b) && Holds(b, NewBss(bssid), {b})
    {
      hide NewBss, Bss.Valid;
      b := new Bss(bssid);
    }

    method Enlist(b: Bss, ghost m: BssV)
      requires Valid() && b !in Objects() && Holds(b, m, {b})
      modifies this
      ensures Valid() && bss == [b] + old(bss) && models == [m] + old(models) && pmks == old(pmks)
      ensures Objects() == {b} + old(Objects())
    {
      hide Holds;
      PrependedHold(bss, models, reprs, b, m, {b});
      PrependedDisjoint(reprs, {b});
      PrependedUnion(reprs, {b});
      hide AllHold, Disjoint, Union;
      bss, models, reprs := [b] + bss, [m] + models, [{b}] + reprs;
    }

    /** `bss_get` */
    method BssGet(bssid: Addr) returns (b: Bss?, ghost k: nat)
      requires Valid()
      modifies this
      ensures Valid() && View() == GetBss(old(View()), bssid)
      ensures b == null <==> Group(bssid)
      ensures b != null ==> Listed(b, k, bssid)
      ensures forall o | o in Objects() :: o in old(Objects()) || fresh(o)
    {
      hide Group, Valid, NewBss, Objects;
      if Group(bssid) {
        return null, 0;
      }
      var i := BssFind(bssid);
      Lengths();
      if i < |bss| {
        SameBssid(i);
        return bss[i], i;
      }
      b := BssAdd(bssid);
      k := 0;
      AddedBss(old(models), NewBss(bssid), bssid);
      SameBssid(0);
    }

    lemma Lengths()
      requires Valid()
      ensures |bss| == |models| == |reprs|
    {
    }

    /** All records but one stand for their models. */
    ghost predicate OthersHold(k: nat)
      reads this, bss, Objects()
    {
      && |bss| == |models| == |reprs| && k < |bss| && Disjoint(reprs) && this !in Objects()
      && forall j | 0 <= j < |bss| && j != k :: bss[j] in reprs[j] && Holds(bss[j], models[j], reprs[j])
    }

    /** The record at `k`, changed within its own objects and new ones, stands for a new value. */
    ghost method Commit(k: nat, m: BssV, r: set<object>)
      requires OthersHold(k) && bss[k] in r && Holds(bss[k], m, r)
      requires reprs[k] <= r && (r - reprs[k]) !! Objects() && this !in r
      modifies this`models, this`reprs
      ensures Valid() && models == old(models)[k := m] && Objects() == old(Objects()) + r
    {
      hide Holds;
      ReplacedUnion(reprs, k, r);
      ReplacedDisjoint(reprs, k, r);
      hide Union, Disjoint;
      models, reprs := models[k := m], reprs[k := r];
    }

    /** The record at `k`, with whatever new objects it has, is back in order. */
    ghost method Settle(k: nat, r: set<object>)
      requires OthersHold(k) && Owned(bss[k], r) && reprs[k] <= r && (r - reprs[k]) !! Objects() && this !in r
      modifies this`models, this`reprs
      ensures Valid() && models == old(models)[k := old(bss[k].View())] && Objects() == old(Objects()) + r
    {
      hide Disjoint, Union, Bss.Valid, Bss.View, AllHold, Valid;
      Commit(k, bss[k].View(), r);
    }

    /** The same for a record that was changed in place. */
    ghost method SettleInPlace(k: nat)
      requires OthersHold(k) && Owned(bss[k], reprs[k])
      modifies this`models, this`reprs
      ensures Valid() && models == old(models)[k := old(bss[k].View())] && Objects() == old(Objects())
    {
      InUnion(reprs, k);
      hide Holds, Owned, Disjoint, Union;
      Settle(k, reprs[k]);
    }

    /** The same for a record that had stations and links of its own, and got those in `added`. */
    ghost method SettleWith(k: nat, stas: seq<Sta>, tdls: seq<Tdls>, added: set<object>)
      requires OthersHold(k) && Has(reprs[k], bss[k], stas, tdls)
      requires bss[k].Valid() && added !! Objects() && this !in added
      requires forall i | 0 <= i < |bss[k].stas| :: bss[k].stas[i] in stas || bss[k].stas[i] in added
      requires forall i | 0 <= i < |bss[k].tdls| :: bss[k].tdls[i] in tdls || bss[k].tdls[i] in added
      modifies this`models, this`reprs
      ensures Valid() && models == old(models)[k := old(bss[k].View())] && Objects() == old(Objects()) + added
    {
      OwnedWith(bss[k], reprs[k], stas, tdls, added);
      InUnion(reprs, k);
      hide Owned, Holds, Disjoint, Union, Has;
      Settle(k, reprs[k] + added);
    }

    static ghost predicate Has(r: set<object>, b: Bss, stas: seq<Sta>, tdls: seq<Tdls>) {
      b in r && (forall i | 0 <= i < |stas| :: stas[i] in r) && (forall i | 0 <= i < |tdls| :: tdls[i] in r)
    }

    static lemma OwnedWith(b: Bss, r: set<object>, stas: seq<Sta>, tdls: seq<Tdls>, added: set<object>)
      requires Has(r, b, stas, tdls) && b.Valid()
      requires forall i | 0 <= i < |b.stas| :: b.stas[i] in stas || b.stas[i] in added
      requires forall i | 0 <= i < |b.tdls| :: b.tdls[i] in tdls || b.tdls[i] in added
      ensures Owned(b, r + added)
    {
      hide Bss.Valid;
    }

    /** What is known of a listed record. */
    lemma At(k: nat)
      requires Valid() && k < |bss|
      ensures ApartFrom(reprs, k)
      ensures |bss| == |models| == |reprs| && OthersHold(k) && Owned(bss[k], reprs[k]) && reprs[k] <= Objects()
      ensures bss[k].Valid() && bss[k].View() == models[k] && Has(reprs[k], bss[k], bss[k].stas, bss[k].tdls)
    {
      InUnion(reprs, k);
      Apart(reprs, k);
      hide Union, Disjoint, Bss.Valid, Bss.View, ApartFrom;
    }

    /** What is known of a listed station of a listed record. */
    lemma AtFor(k: nat, s: Sta)
      requires Valid() && k < |bss| && s in bss[k].stas
      ensures ApartFrom(reprs, k)
      ensures |bss| == |models| == |reprs| && OthersHold(k) && Owned(bss[k], reprs[k]) && reprs[k] <= Objects()
      ensures bss[k].Valid() && bss[k].View() == models[k] && s in reprs[k]
      ensures HasSta(models[k], s.addr) && TheSta(models[k], s.addr) == s.View()
    {
      At(k);
      InPlace(bss[k], s);
      hide Union, Disjoint, Bss.Valid, Bss.View, Valid, OthersHold, FindSta;
    }

    /** `sta_get` in a listed BSS */
    method StaGet(b: Bss, addr: Addr, ghost k: nat) returns (s: Sta?)
      requires Valid() && k < |bss| && bss[k] == b
      modifies this`models, this`reprs, b`stas
      ensures Valid() && |models| == |old(models)| && models == old(models)[k := GetSta(old(models)[k], addr)]
      ensures s == null <==> Group(addr)
      ensures s != null ==> s in b.stas && s.addr == addr
      ensures forall o | o in Objects() :: o in old(Objects()) || fresh(o)
    {
      At(k);
      assert forall o | o in Objects() :: allocated(o);
      hide Group, GetSta, Union, Disjoint, Bss.Valid, Bss.View, Owned, Holds, AllHold, Valid, Has;
      ghost var stas, all := b.stas, Objects();
      s := StaGetAt(b, addr, k);
      assert b.stas == stas || b.stas[0] !in all;
      SettleWith(k, stas, b.tdls, if b.stas == stas then {} else {b.stas[0]});
    }

    /** The same, before the models follow. */
    method StaGetAt(b: Bss, addr: Addr, ghost k: nat) returns (s: Sta?)
      requires OthersHold(k) && bss[k] == b && Has(reprs[k], b, b.stas, b.tdls) && b.Valid() && ApartFrom(reprs, k)
      modifies b`stas
      ensures OthersHold(k) && b.Valid() && b.View() == GetSta(old(b.View()), addr)
      ensures (s == null <==> Group(addr)) && (s != null ==> s in b.stas && s.addr == addr)
      ensures b.stas == old(b.stas) || (|b.stas| > 0 && fresh(b.stas[0]) && b.stas == [b.stas[0]] + old(b.stas))
    {
      hide Group, GetSta, Union, Disjoint, Bss.Valid, Bss.View, Holds, FindSta;
      ghost var j;
      s, j := b.StaGet(addr);
    }

    /** The records for a frame: the BSS and the station, found or added. */
    method Get(bssid: Addr, addr: Addr) returns (b: Bss?, s: Sta?, ghost k: nat)
      requires Valid()
      modifies this, Objects()
      ensures Valid() && View() == Records.Get(old(View()), bssid, addr)
      ensures b == null <==> Group(bssid)
      ensures b != null ==> Listed(b, k, bssid)
      ensures b != null ==> (s == null <==> Group(addr))
      ensures b != null && s != null ==> s in b.stas && s.addr == addr
      ensures forall o | o in Objects() :: o in old(Objects()) || fresh(o)
    {
      b, k := BssGet(bssid);
      s := null;
      if b != null {
        ghost var v := View();
        s := GetIn(b, addr, k, bssid);
      }
    }

    /** The record is the one at `k`, and the first for its BSSID. */
    ghost predicate Listed(b: Bss, k: nat, bssid: Addr)
      reads this
    {
      k < |bss| && bss[k] == b && b.bssid == bssid && FindBss(models, bssid) == k && k < |models|
    }

    method GetIn(b: Bss, addr: Addr, ghost k: nat, bssid: Addr) returns (s: Sta?)
      requires Valid() && Listed(b, k, bssid)
      modifies this`models, this`reprs, Objects()
      ensures Valid() && Listed(b, k, bssid)
      ensures HasBss(old(View()), bssid) && View() == PutBss(old(View()), GetSta(TheBss(old(View()), bssid), addr))
      ensures s == null <==> Group(addr)
      ensures s != null ==> s in b.stas && s.addr == addr
      ensures forall o | o in Objects() :: o in old(Objects()) || fresh(o)
    {
      At(k);
      FindPutBss(View(), GetSta(TheBss(View(), bssid), addr), bssid);
      hide Valid, Group, GetSta, Objects, FindBss;
      s := StaGet(b, addr, k);
    }

    /** A change of state of a found station. */
    method ApplyOp(b: Bss, ghost k: nat, s: Sta, op: StaOp)
      requires Valid() && k < |bss| && k < |models| && bss[k] == b && s in b.stas
      modifies this`models, this`reprs, Objects()
      ensures Valid() && k < |old(models)| && pmks == old(pmks) && bss == old(bss)
      ensures HasSta(old(models)[k], s.addr)
      ensures models == old(models)[k := PutSta(old(models)[k], Apply(op, TheSta(old(models)[k], s.addr)))]
      ensures Objects() == old(Objects())
    {
      AtFor(k, s);
      hide Union, Disjoint, Bss.Valid, Bss.View, Owned, Holds, AllHold, Valid, FindSta, Apply, PutSta;
      b.ApplyTo(s, op);
      assert OthersHold(k);
      SettleInPlace(k);
    }

    /** The packet number of a management frame noted. */
    method NoteMgmt(b: Bss, ghost k: nat, s: Sta, d: MgmtData)
      requires Valid() && k < |bss| && k < |models| && bss[k] == b && s in b.stas && |d| >= 32
      modifies this`models, this`reprs, Objects()
      ensures Valid() && k < |old(models)| && pmks == old(pmks) && bss == old(bss)
      ensures HasSta(old(models)[k], s.addr)
      ensures models == old(models)[k := PutSta(old(models)[k], NotePn(TheSta(old(models)[k], s.addr), d))]
      ensures Objects() == old(Objects())
    {
      AtFor(k, s);
      hide Union, Disjoint, Bss.Valid, Bss.View, Owned, Holds, AllHold, Valid, FindSta, NotePn, PutSta;
      b.NoteMgmt(s, d);
      assert OthersHold(k);
      SettleInPlace(k);
    }

    /** The packet number of a data frame noted. */
    method NoteData(b: Bss, ghost k: nat, s: Sta, toDs: bool, tid: nat, pn: Octets)
      requires Valid() && k < |bss| && k < |models| && bss[k] == b && s in b.stas && tid <= 16
      modifies this`models, this`reprs, Objects()
      ensures Valid() && k < |old(models)| && pmks == old(pmks) && bss == old(bss)
      ensures HasSta(old(models)[k], s.addr)
      ensures var v := NoteTid(TheSta(old(models)[k], s.addr), toDs, tid, pn);
              models == old(models)[k := PutSta(old(models)[k], v)]
      ensures Objects() == old(Objects())
    {
      AtFor(k, s);
      hide Union, Disjoint, Bss.Valid, Bss.View, Owned, Holds, AllHold, Valid, FindSta, PutSta;
      b.NoteData(s, toDs, tid, pn);
      assert OthersHold(k);
      SettleInPlace(k);
    }

    /** A deauthentication or disassociation, with its records found. */
    method Leaving(b: Bss, ghost k: nat, s: Sta?, d: MgmtData, valid: bool, to: AssocState)
      requires Valid() && k < |bss| && k < |models| && bss[k] == b
      requires (s == null <==> Group(HandlerAddr(d))) && (s != null ==> s in b.stas && s.addr == HandlerAddr(d))
      modifies this`models, this`reprs, Objects()
      ensures Valid() && k < |old(models)| && pmks == old(pmks) && bss == old(bss)
      ensures models == old(models)[k := Left(old(models)[k], d, valid, to)]
      ensures Objects() == old(Objects())
    {
      At(k);
      hide Union, Disjoint, Bss.Valid, Bss.View, Owned, Holds, AllHold, Valid, FindSta, Left, Group;
      b.RxLeave(d, s, valid, to);
      assert OthersHold(k);
      SettleInPlace(k);
    }

    /** The MMIE of a frame checked, its packet number noted and the frame counted. */
    method CheckMmie(b: Bss, ghost k: nat, c: Crypto, d: MgmtData) returns (ok: bool)
      requires Valid() && k < |bss| && k < |models| && bss[k] == b
      modifies this`models, this`reprs, Objects()
      ensures Valid() && k < |old(models)| && pmks == old(pmks) && bss == old(bss)
      ensures var r := MgmtFrames.CheckMmie(c, old(models)[k], d); (models, ok) == (old(models)[k := r.0], r.1)
      ensures Objects() == old(Objects())
    {
      At(k);
      hide Union, Disjoint, Bss.Valid, Bss.View, Owned, Holds, AllHold, Valid, FindSta, MgmtFrames.CheckMmie;
      ok := b.CheckMmie(c, d);
      assert OthersHold(k);
      SettleInPlace(k);
    }

    /** What a beacon says about the BSS, and PMKs from passphrases. */
    method Announce(b: Bss, ghost k: nat, info: Info)
      requires Valid() && k < |bss| && k < |models| && bss[k] == b
      modifies this`models, this`reprs, Objects()
      ensures Valid() && k < |old(models)| && pmks == old(pmks) && bss == old(bss)
      ensures models == old(models)[k := MgmtFrames.Announced(old(models)[k], info)]
      ensures Objects() == old(Objects())
    {
      At(k);
      hide Union, Disjoint, Bss.Valid, Bss.View, Owned, Holds, AllHold, Valid, FindSta;
      b.Announce(info);
      assert OthersHold(k);
      SettleInPlace(k);
    }

    /** A PMK for a listed record. */
    method PmkFor(b: Bss, ghost k: nat, pmk: Pmk)
      requires Valid() && k < |bss| && k < |models| && bss[k] == b
      modifies this`models, this`reprs, Objects()
      ensures Valid() && k < |old(models)| && pmks == old(pmks) && bss == old(bss)
      ensures models == old(models)[k := old(models)[k].(pmks := [pmk] + old(models)[k].pmks)]
      ensures Objects() == old(Objects())
    {
      At(k);
      hide Union, Disjoint, Bss.Valid, Bss.View, Holds, AllHold, Valid, FindSta;
      b.AddPmk(pmk);
      assert OthersHold(k);
      SettleInPlace(k);
    }

    /** A message of the handshake for a found station. */
    method Message(b: Bss, ghost k: nat, c: Crypto, s: Sta, m: Message, d: KeyFrame, learned: Option<Sec>)
      returns (trusted: bool)
      requires Valid() && k < |bss| && k < |models| && bss[k] == b && s in b.stas
      modifies this`models, this`reprs, Objects()
      ensures Valid() && k < |old(models)| && pmks == old(pmks) && bss == old(bss)
      ensures HasSta(old(models)[k], s.addr)
      ensures var v := TheSta(old(models)[k], s.addr);
              var u := StaStep(c, b.bssid, v, m, d, old(models)[k].pmks + pmks, learned);
              models == old(models)[k := PutSta(old(models)[k], u)] && (trusted <==> KdeTrusted(c, v, u, m, d))
      ensures Objects() == old(Objects())
    {
      AtFor(k, s);
      hide Union, Disjoint, Bss.Valid, Bss.View, Owned, Holds, AllHold, Valid, FindSta, StaStep, PutSta, KdeTrusted;
      trusted := b.RxMessage(c, s, m, d, pmks, learned);
      assert OthersHold(k);
      SettleInPlace(k);
    }

    /** An IGTK taken over. */
    method Learn(b: Bss, ghost k: nat, kde: IgtkKde)
      requires Valid() && k < |bss| && k < |models| && bss[k] == b
      modifies this`models, this`reprs, Objects()
      ensures Valid() && k < |old(models)| && pmks == old(pmks) && bss == old(bss)
      ensures models == old(models)[k := LearnIgtk(old(models)[k], kde)]
      ensures Objects() == old(Objects())
    {
      At(k);
      hide Union, Disjoint, Bss.Valid, Bss.View, Owned, Holds, AllHold, Valid, FindSta, LearnIgtk;
      b.LearnIgtk(kde);
      assert OthersHold(k);
      SettleInPlace(k);
    }

    // ---- Frames

    /** `rx_mgmt_auth` and the (re)association handlers */
    method OnSta(bssid: Addr, addr: Addr, op: StaOp)
      requires Valid()
      modifies this, Objects()
      ensures Valid() && View() == MgmtFrames.OnSta(old(View()), bssid, addr, op)
      ensures forall o | o in Objects() :: o in old(Objects()) || fresh(o)
    {
      hide Valid, Objects, Apply, Records.Get;
      var b, s;
      ghost var k;
      b, s, k := Get(bssid, addr);
      if b == null || s == null {
        return;
      }
      ghost var v := View();
      FoundAt(b, k, bssid, s);
      hide Listed, StaAt;
      ApplyOp(b, k, s, op);
      PutAt(v, k, bssid, models[k]);
    }

    /** `rx_mgmt_deauth` and `rx_mgmt_disassoc` */
    method RxLeaving(d: MgmtData, valid: bool, to: AssocState)
      requires Valid()
      modifies this, Objects()
      ensures Valid() && View() == Leave(old(View()), d, valid, to)
      ensures forall o | o in Objects() :: o in old(Objects()) || fresh(o)
    {
      hide Valid, Objects, Records.Get, Group;
      var b, s;
      ghost var k;
      b, s, k := Get(BssidOf(d), HandlerAddr(d));
      if b == null {
        return;
      }
      ghost var v := View();
      FoundBssAt(b, k, BssidOf(d));
      LeftIs(old(View()), v, d, valid, to, k);
      hide Listed, Leave, FindBss, Left, BssidOf;
      Leaving(b, k, s, d, valid, to);
    }

    /** What a leaving frame makes of the record at `k`, seen on the whole. */
    static lemma LeftIs(w: World, v: World, d: MgmtData, valid: bool, to: AssocState, k: nat)
      requires v == Records.Get(w, BssidOf(d), HandlerAddr(d)) && !Group(BssidOf(d))
      requires k < |v.bss| && FindBss(v.bss, BssidOf(d)) == k && v.bss[k].bssid == BssidOf(d)
      ensures v.(bss := v.bss[k := Left(v.bss[k], d, valid, to)]) == Leave(w, d, valid, to)
    {
      hide LowerAll, LinkDown, FindSta, Lowered, FindBss, Group, Records.Get;
      assert v.bss[k := v.bss[k]] == v.bss;
    }

    lemma FoundBssAt(b: Bss, k: nat, bssid: Addr)
      requires Valid() && Listed(b, k, bssid)
      ensures models[k].bssid == bssid && HasBss(View(), bssid) && TheBss(View(), bssid) == models[k]
    {
      At(k);
      hide Valid, Bss.Valid, Bss.View, FindSta, FindBss;
    }

    /** `check_bip`; whether the frame passes */
    method CheckBip(c: Crypto, d: MgmtData) returns (ok: bool)
      requires Valid()
      modifies this, Objects()
      ensures Valid() && (View(), ok) == MgmtFrames.CheckBip(c, old(View()), d)
      ensures forall o | o in Objects() :: o in old(Objects()) || fresh(o)
    {
      hide Valid, Objects, GetBss, Group, MgmtFrames.CheckMmie, Subtype;
      if Subtype(d) == WLAN_FC_STYPE_ACTION {
        if |d| < 24 + 1 {
          return true;
        }
        if d[24] == WLAN_ACTION_PUBLIC {
          return true;
        }
      }
      var b;
      ghost var k;
      b, k := BssGet(BssidOf(d));
      if b == null {
        return true;
      }
      BipIs(c, old(View()), View(), d, k);
      hide MgmtFrames.CheckBip, FindBss, BssidOf, Listed;
      ok := CheckMmie(b, k, c, d);
    }

    /** What `check_bip` makes of the record at `k`, seen on the whole. */
    static lemma BipIs(c: Crypto, w: World, v: World, d: MgmtData, k: nat)
      requires v == GetBss(w, BssidOf(d)) && !Group(BssidOf(d))
      requires k < |v.bss| && FindBss(v.bss, BssidOf(d)) == k
      requires !(Subtype(d) == WLAN_FC_STYPE_ACTION && (|d| < 24 + 1 || d[24] == WLAN_ACTION_PUBLIC))
      ensures var r := MgmtFrames.CheckMmie(c, v.bss[k], d);
              MgmtFrames.CheckBip(c, w, d) == (v.(bss := v.bss[k := r.0]), r.1)
    {
      hide GetBss, Group, FindBss, MgmtFrames.CheckMmie, Subtype;
    }

    /** `check_mgmt_ccmp`; whether the frame passes */
    method CheckMgmtCcmp(d: MgmtData) returns (ok: bool)
      requires Valid()
      modifies this, Objects()
      ensures Valid() && (View(), ok) == MgmtFrames.CheckMgmtCcmp(old(View()), d)
      ensures forall o | o in Objects() :: o in old(Objects()) || fresh(o)
    {
      hide Valid, Objects, Records.Get, Group, Subtype, CheckAddr;
      if Subtype(d) == WLAN_FC_STYPE_ACTION && |d| > 24 && d[24] == WLAN_ACTION_PUBLIC {
        return true;
      }
      var b, s;
      ghost var k;
      b, s, k := Get(BssidOf(d), CheckAddr(d));
      if b == null || s == null {
        return true;
      }
      FoundAt(b, k, BssidOf(d), s);
      hide StaAt, Listed;
      ok := !(s.sec.mfpc && (s.state == State3 || Subtype(d) == WLAN_FC_STYPE_ACTION));
    }

    /** `mgmt_ccmp_decrypt` */
    method MgmtCcmpDecrypt(c: Crypto, d: MgmtData) returns (frame: Option<Octets>)
      requires Valid()
      modifies this, Objects()
      ensures Valid() && (View(), frame) == MgmtFrames.MgmtCcmpDecrypt(c, old(View()), d)
      ensures forall o | o in Objects() :: o in old(Objects()) || fresh(o)
    {
      hide Valid, Objects, Records.Get, Group, CheckAddr, BssidOf, Body, NotePn;
      var b, s;
      ghost var k;
      b, s, k := Get(BssidOf(d), CheckAddr(d));
      if b == null || s == null {
        return None;
      }
      FoundAt(b, k, BssidOf(d), s);
      DecryptIs(c, old(View()), View(), k, d, s.View());
      hide Listed, StaAt, FindBss, MgmtFrames.MgmtCcmpDecrypt;
      var m := TryOpen(c, s, d);
      if m.None? {
        return None;
      }
      frame := Some(d[..24] + m.value);
      NoteMgmt(b, k, s, d);
    }

    /** What a decryption makes of the record at `k`, seen on the whole. */
    static lemma DecryptIs(c: Crypto, w: World, v: World, k: nat, d: MgmtData, x: StaV)
      requires v == Records.Get(w, BssidOf(d), CheckAddr(d)) && !Group(BssidOf(d)) && !Group(CheckAddr(d))
      requires k < |v.bss| && FindBss(v.bss, BssidOf(d)) == k && x.addr == CheckAddr(d)
      requires HasSta(v.bss[k], x.addr) && TheSta(v.bss[k], x.addr) == x
      ensures Body(c, x, d).None? ==> MgmtFrames.MgmtCcmpDecrypt(c, w, d) == (v, None)
      ensures Body(c, x, d).Some? ==>
                && |d| >= 32
                && MgmtFrames.MgmtCcmpDecrypt(c, w, d)
                   == (v.(bss := v.bss[k := PutSta(v.bss[k], NotePn(x, d))]), Some(d[..24] + Body(c, x, d).value))
    {
      hide Records.Get, Group, CheckAddr, BssidOf, Body, NotePn, FindSta, FindBss;
      assert StaAt(v, BssidOf(d), x.addr) == Some(x);
      if Body(c, x, d).Some? {
        BodyLength(c, x, d);
        UpdateAtIs(v, k, BssidOf(d), NotePn(x, d));
      }
      hide StaAt, Update;
    }

    /** The body of a frame opened; the records are untouched. */
    method TryOpen(c: Crypto, s: Sta, d: MgmtData) returns (m: Option<Octets>)
      requires Valid()
      ensures Valid() && m == Body(c, s.View(), d)
    {
      hide AllHold, Disjoint, Body;
      m := OpenBody(c, s, d);
    }

    /** Its tests and the decryption, which change nothing. */
    static method OpenBody(c: Crypto, s: Sta, d: MgmtData) returns (m: Option<Octets>)
      ensures m == Body(c, s.View(), d)
    {
      hide Ccmp.Unprotect, Ccmp.HeaderReach;
      if !s.ptkSet {
        return None;
      }
      if |d| < 24 + 4 {
        return None;
      }
      if d[24 + 3] & 0x20 == 0 {
        return None;
      }
      if |d| < 24 + 16 {
        return None;
      }
      MgmtReach(d);
      var plain, n := Ccmp.CcmpDecrypt(c.aes(s.ptk.tk1), d, d[24..]);
      m := if plain == null then None else Some(plain[..n]);
    }

    static lemma MgmtReach(d: MgmtData)
      requires |d| >= 40
      ensures |d| >= Ccmp.HeaderReach(GetLe16(d, 0))
    {
    }

    /** Replacing a station of the record at `k` is updating it where lookups find it. */
    static lemma UpdateAtIs(v: World, k: nat, bssid: Addr, x: StaV)
      requires k < |v.bss| && FindBss(v.bss, bssid) == k && HasSta(v.bss[k], x.addr)
      ensures StaAt(v, bssid, x.addr).Some?
      ensures Update(v, bssid, x) == v.(bss := v.bss[k := PutSta(v.bss[k], x)])
    {
      hide FindBss, FindSta;
    }

    /** `rx_mgmt_beacon` and `rx_mgmt_probe_resp` */
    method RxBeacon(d: MgmtData, info: Info)
      requires Valid()
      modifies this, Objects()
      ensures Valid() && View() == Beacon(old(View()), d, info)
      ensures forall o | o in Objects() :: o in old(Objects()) || fresh(o)
    {
      hide Valid, Objects, GetBss, Group, BssidOf;
      var b;
      ghost var k;
      b, k := BssGet(BssidOf(d));
      if b == null {
        return;
      }
      ghost var v := View();
      FoundBssAt(b, k, BssidOf(d));
      hide Listed;
      Announce(b, k, info);
      PutAt(v, k, BssidOf(d), models[k]);
    }

    /** The checks of `rx_mgmt`: the frame to act on, and whether its protection is in order. */
    method Precheck(c: Crypto, d: MgmtData) returns (frame: MgmtData, valid: bool)
      requires Valid()
      modifies this, Objects()
      ensures Valid() && Checked(View(), frame, valid) == MgmtFrames.Precheck(c, old(View()), d)
      ensures forall o | o in Objects() :: o in old(Objects()) || fresh(o)
    {
      hide Valid, Objects, Group, Robust, IsProtected, MgmtFrames.CheckBip, MgmtFrames.MgmtCcmpDecrypt;
      hide MgmtFrames.CheckMgmtCcmp;
      frame, valid := d, true;
      if Robust(d) {
        if Group(Da(d)) {
          valid := CheckBip(c, d);
        } else if IsProtected(d) {
          ghost var w := View();
          var plain := MgmtCcmpDecrypt(c, d);
          if plain.Some? {
            DecryptedHeader(c, w, d);
            frame := plain.value;
          } else {
            valid := false;
          }
        } else {
          valid := CheckMgmtCcmp(d);
        }
      }
    }

    /** The `switch` of `rx_mgmt` */
    method Dispatch(d: MgmtData, subtype: bv16, valid: bool, info: Info)
      requires Valid()
      modifies this, Objects()
      ensures Valid() && View() == MgmtFrames.Dispatch(old(View()), d, subtype, valid, info)
      ensures forall o | o in Objects() :: o in old(Objects()) || fresh(o)
    {
      hide Valid, Objects, Group, Beacon, MgmtFrames.OnSta, Leave, AuthOp, AssocReqOp, AssocRespOp, BssidOf;
      hide HandlerAddr;
      if subtype == WLAN_FC_STYPE_BEACON || subtype == WLAN_FC_STYPE_PROBE_RESP {
        RxBeacon(d, info);
      } else if subtype == WLAN_FC_STYPE_AUTH {
        OnSta(BssidOf(d), HandlerAddr(d), AuthOp(d));
      } else if subtype == WLAN_FC_STYPE_DEAUTH {
        RxLeaving(d, valid, State1);
      } else if subtype == WLAN_FC_STYPE_DISASSOC {
        RxLeaving(d, valid, State2);
      } else if subtype == WLAN_FC_STYPE_ASSOC_REQ {
        OnSta(BssidOf(d), Sa(d), AssocReqOp(d, 4, info));
      } else if subtype == WLAN_FC_STYPE_REASSOC_REQ {
        OnSta(BssidOf(d), Sa(d), AssocReqOp(d, 10, info));
      } else if subtype == WLAN_FC_STYPE_ASSOC_RESP || subtype == WLAN_FC_STYPE_REASSOC_RESP {
        OnSta(BssidOf(d), Da(d), AssocRespOp(d));
      } else if subtype == WLAN_FC_STYPE_ACTION && !Group(Da(d)) {
        OnSta(BssidOf(d), HandlerAddr(d), Nothing);
      }
    }

    /** `rx_mgmt` */
    method RxMgmt(c: Crypto, d: Octets, info: Info)
      requires Valid()
      modifies this, Objects()
      ensures Valid() && View() == MgmtFrames.RxMgmt(c, old(View()), d, info)
      ensures forall o | o in Objects() :: o in old(Objects()) || fresh(o)
    {
      hide Valid, Objects, MgmtFrames.Precheck, MgmtFrames.Dispatch, Subtype;
      if |d| < 24 {
        return;
      }
      var frame, valid := Precheck(c, d);
      Dispatch(frame, Subtype(d), valid, info);
    }

    /** A message of `rx_data_eapol_key` */
    method RxEapol(c: Crypto, m: Message, e: Event)
      requires Valid() && e.Eapol? && |e.key| >= 99
      modifies this, Objects()
      ensures Valid() && View() == TrackerRuns.RxMessage(c, old(View()), m, e)
      ensures forall o | o in Objects() :: o in old(Objects()) || fresh(o)
    {
      hide Valid, Objects, Records.Get, Group, ApOf, StaOf, OnMessage, StaAt;
      var id, addr := ApOf(m, e.dst, e.src), StaOf(m, e.dst, e.src);
      var b, s;
      ghost var k;
      b, s, k := Get(id, addr);
      if b == null || s == null {
        return;
      }
      FoundAt(b, k, id, s);
      hide TrackerRuns.Pmks, StaAt, FindBss, Listed;
      EapolFound(c, b, k, id, s, m, e);
    }

    method EapolFound(c: Crypto, b: Bss, ghost k: nat, id: Addr, s: Sta, m: Message, e: Event)
      requires Valid() && Listed(b, k, id) && s in b.stas && e.Eapol? && |e.key| >= 99
      modifies this`models, this`reprs, Objects()
      ensures Valid() && Objects() == old(Objects())
      ensures StaAt(old(View()), id, s.addr) == Some(old(s.View()))
      ensures View() == OnMessage(c, old(View()), id, old(s.View()), m, e)
    {
      hide Valid, Objects, OnMessage, TheSta;
      FoundAt(b, k, id, s);
      ghost var x := s.View();
      OnMessageIs(c, View(), k, id, x, m, e);
      assert b.bssid == id;
      hide Listed, StaAt, FindBss, FindSta, Handled;
      MessageAndKeys(b, k, c, s, m, e);
    }

    /** The handler of a message, and `learn_kde_keys` after it. */
    method MessageAndKeys(b: Bss, ghost k: nat, c: Crypto, s: Sta, m: Message, e: Event)
      requires Valid() && k < |bss| && k < |models| && bss[k] == b && s in b.stas && models[k].bssid == b.bssid
      requires e.Eapol? && |e.key| >= 99
      modifies this`models, this`reprs, Objects()
      ensures Valid() && k < |old(models)| && pmks == old(pmks) && bss == old(bss) && Objects() == old(Objects())
      ensures HasSta(old(models)[k], s.addr)
      ensures models == old(models)[k := Handled(c, old(models)[k], TheSta(old(models)[k], s.addr), pmks, m, e)]
    {
      hide Valid, Objects, StaStep, KdeTrusted, LearnIgtk, PutSta, FindSta;
      var trusted := Message(b, k, c, s, m, e.key, e.learned);
      if trusted && e.kde.Some? {
        Learn(b, k, e.kde.value);
      }
    }

    /** What a message makes of the record at `k`, seen on the whole. */
    static lemma OnMessageIs(c: Crypto, v: World, k: nat, id: Addr, x: StaV, m: Message, e: Event)
      requires e.Eapol? && |e.key| >= 99
      requires k < |v.bss| && FindBss(v.bss, id) == k && v.bss[k].bssid == id
      requires HasSta(v.bss[k], x.addr) && TheSta(v.bss[k], x.addr) == x
      ensures StaAt(v, id, x.addr) == Some(x)
      ensures OnMessage(c, v, id, x, m, e) == v.(bss := v.bss[k := Handled(c, v.bss[k], x, v.pmks, m, e)])
    {
      var u := StaStep(c, id, x, m, e.key, v.bss[k].pmks + v.pmks, e.learned);
      hide StaStep, FindSta;
      FindPutBss(v, PutSta(v.bss[k], u), id);
      hide FindBss, KdeTrusted, LearnIgtk;
    }

    /** The packet number of a data frame that was decrypted (rx_data.c) */
    method DataDecrypted(e: Event)
      requires Valid() && e.DataDecrypted?
      modifies this, Objects()
      ensures Valid() && View() == NoteDataPn(old(View()), e)
      ensures forall o | o in Objects() :: o in old(Objects()) || fresh(o)
    {
      hide Valid, Objects, Records.Get, Group;
      var b, s;
      ghost var k;
      b, s, k := Get(e.apId, e.staAddr);
      if b == null || s == null {
        return;
      }
      FoundAt(b, k, e.apId, s);
      if e.tid > 16 {
        return;
      }
      ghost var x := s.View();
      UpdateAtIs(View(), k, e.apId, NoteTid(x, e.toDs, e.tid, e.pn));
      hide Listed, Update, StaAt, FindBss;
      NoteData(b, k, s, e.toDs, e.tid, e.pn);
    }

    /** `bss_flush` */
    method BssFlush()
      requires Valid()
      modifies this
      ensures Valid() && View() == old(View()).(bss := []) && Objects() == {}
    {
      bss, models, reprs := [], [], [];
    }

    /** `ctrl_add_passphrase` for a BSS that is listed */
    method AddBssPmk(bssid: Addr, pmk: Pmk)
      requires Valid()
      modifies this, Objects()
      ensures Valid() && View() == AddedBssPmk(old(View()), bssid, pmk) && Objects() == old(Objects())
    {
      hide Valid, Objects, FindBss;
      var k := BssFind(bssid);
      Lengths();
      if k < |bss| {
        PutAt(View(), k, bssid, models[k].(pmks := [pmk] + models[k].pmks));
        PmkFor(bss[k], k, pmk);
      }
    }

    /** `add_pmk` on the global list */
    method AddPmk(pmk: Pmk)
      requires Valid()
      modifies this
      ensures Valid() && View() == old(View()).(pmks := [pmk] + old(View()).pmks) && Objects() == old(Objects())
    {
      hide AllHold, Disjoint, Union;
      pmks := [pmk] + pmks;
    }

    // ---- TDLS frames

    /** The lookups of `get_tdls`: the BSS of a link identifier and the stations it names. */
    method Ends(l: LinkId, bssid: Addr) returns (b: Bss?, init: Sta?, resp: Sta?, ghost k: nat)
      requires Valid()
      ensures Valid()
      ensures b != null && init != null && resp != null <==> Known(View(), l, bssid)
      ensures b != null && init != null && resp != null ==>
                && Listed(b, k, b.bssid) && models[k] == BssOf(View(), l, bssid)
                && init in b.stas && resp in b.stas && init.addr == Initiator(l) && resp.addr == Responder(l)
    {
      hide Valid, HasSta, FindBss, Bss.View;
      b, init, resp, k := null, null, null, 0;
      var i := BssFind(LinkBssid(l));
      Lengths();
      if i == |bss| {
        i := BssFind(bssid);
        if i == |bss| {
          return;
        }
      }
      b, k := bss[i], i;
      At(i);
      SameBssid(i);
      init, resp := b.EndsOf(l);
    }

    /** A setup or teardown frame between found stations. */
    method OnLink(b: Bss, ghost k: nat, c: Crypto, init: Sta, resp: Sta, op: LinkOp, seenIn: Addr, e: Elems)
      requires Valid() && k < |bss| && k < |models| && bss[k] == b && init in b.stas && resp in b.stas
      requires init.addr == Initiator(e.linkId) && resp.addr == Responder(e.linkId)
      modifies this`models, this`reprs, Objects()
      ensures Valid() && k < |old(models)| && pmks == old(pmks) && bss == old(bss)
      ensures models == old(models)[k := Linked(c, old(models)[k], op, seenIn, e)]
      ensures forall o | o in Objects() :: o in old(Objects()) || fresh(o)
    {
      At(k);
      assert forall o | o in Objects() :: allocated(o);
      hide Union, Disjoint, Bss.Valid, Bss.View, Owned, Holds, AllHold, Valid, Linked, Has;
      ghost var tdls, all := b.tdls, Objects();
      ghost var added := OnLinkAt(b, k, c, init, resp, op, seenIn, e);
      assert added !! all;
      SettleWith(k, b.stas, tdls, added);
    }

    /** The same, before the models follow. */
    method OnLinkAt(b: Bss, ghost k: nat, c: Crypto, init: Sta, resp: Sta, op: LinkOp, seenIn: Addr, e: Elems)
      returns (ghost added: set<object>)
      requires OthersHold(k) && bss[k] == b && Has(reprs[k], b, b.stas, b.tdls) && ApartFrom(reprs, k)
      requires b.Valid() && init in b.stas && resp in b.stas
      requires init.addr == Initiator(e.linkId) && resp.addr == Responder(e.linkId)
      modifies b`tdls, b.tdls
      ensures OthersHold(k) && b.Valid() && b.stas == old(b.stas) && b.View() == Linked(c, old(b.View()), op, seenIn, e)
      ensures fresh(added) && forall i | 0 <= i < |b.tdls| :: b.tdls[i] in old(b.tdls) || b.tdls[i] in added
    {
      hide Union, Disjoint, Bss.Valid, Bss.View, Holds, Linked, FindSta, FindBss;
      added := b.OnLink(c, init, resp, op, seenIn, e);
    }

    /** `rx_data_tdls` and its handlers */
    method RxTdls(c: Crypto, bssid: Addr, data: Octets, elems: Option<Elems>)
      requires Valid()
      modifies this, Objects()
      ensures Valid() && View() == TdlsTable.RxTdls(c, old(View()), bssid, data, elems)
      ensures forall o | o in Objects() :: o in old(Objects()) || fresh(o)
    {
      hide Valid, Objects, Known, LinkBss, Linked;
      var op := LinkOpOf(data);
      if elems.None? {
        return;
      }
      var e := elems.value;
      hide LinkOpOf;
      if op.None? {
        return;
      }
      var b, init, resp;
      ghost var k;
      b, init, resp, k := Ends(e.linkId, bssid);
      if b == null || init == null || resp == null {
        return;
      }
      ghost var m := Linked(c, models[k], op.value, bssid, e);
      PutAt(View(), k, b.bssid, m);
      hide Listed, BssOf;
      OnLink(b, k, c, init, resp, op.value, bssid, e);
    }

    static lemma LongEnough(d: Octets)
      requires Classify(d).Some?
      ensures |d| >= 99
    {
    }

    /** What arrives at the tracker is handled as `TrackerRuns.Step` says. */
    method Receive(c: Crypto, e: Event)
      requires Valid()
      modifies this, Objects()
      ensures Valid() && View() == Step(c, old(View()), e)
      ensures forall o | o in Objects() :: o in old(Objects()) || fresh(o)
    {
      hide Valid, Objects, Classify, MgmtFrames.RxMgmt, TrackerRuns.RxMessage, TdlsTable.RxTdls, NoteDataPn;
      hide AddedBssPmk;
      match e
      case Mgmt(frame, info) => RxMgmt(c, frame, info);
      case Eapol(_, _, key, _, _) =>
        var m := Classify(key);
        if m.Some? {
          LongEnough(key);
          RxEapol(c, m.value, e);
        }
      case Tdls(bssid, payload, elems) => RxTdls(c, bssid, payload, elems);
      case DataDecrypted(_, _, _, _, _) => DataDecrypted(e);
      case AddPmk(pmk) => AddPmk(pmk);
      case AddBssPmk(bssid, pmk) => AddBssPmk(bssid, pmk);
      case Flush => BssFlush();
    }

    /** The records found are the ones that lookups on the value find. */
    lemma FoundAt(b: Bss, k: nat, bssid: Addr, s: Sta)
      requires Valid() && Listed(b, k, bssid) && s in b.stas
      ensures models[k].bssid == bssid && HasBss(View(), bssid) && TheBss(View(), bssid) == models[k]
      ensures HasSta(models[k], s.addr) && StaAt(View(), bssid, s.addr) == Some(s.View())
      ensures TheSta(models[k], s.addr) == s.View()
    {
      AtFor(k, s);
      hide Valid, Bss.Valid, Bss.View, FindSta, FindBss, Owned;
    }

    /** Replacing the value at `k` is putting a BSS back where it was found. */
    static lemma PutAt(v: World, k: nat, bssid: Addr, m: BssV)
      requires k < |v.bss| && FindBss(v.bss, bssid) == k && m.bssid == bssid
      ensures HasBss(v, bssid) && PutBss(v, m) == v.(bss := v.bss[k := m])
    {
      hide FindBss;
    }

    /** A listed station of a record is found in its value. */
    static lemma InPlace(b: Bss, s: Sta)
      requires b.Valid() && s in b.stas
      ensures HasSta(b.View(), s.addr) && TheSta(b.View(), s.addr) == s.View()
    {
      var k := b.Position(s);
    }
  }

  lemma ReplacedUnion(rs: seq<set<object>>, k: nat, r: set<object>)
    requires k < |rs| && rs[k] <= r
    ensures Union(rs[k := r]) == Union(rs) + r
  {
    var s := rs[k := r];
    forall o | o in Union(rs) ensures o in Union(s) {
      var i :| 0 <= i < |rs| && o in rs[i];
      assert o in s[i];
    }
    assert s[k] == r;
  }

  lemma ReplacedDisjoint(rs: seq<set<object>>, k: nat, r: set<object>)
    requires k < |rs| && Disjoint(rs) && rs[k] <= r && (r - rs[k]) !! Union(rs)
    ensures Disjoint(rs[k := r])
  {
    forall j | 0 <= j < |rs| && j != k ensures rs[j] !! r {
      InUnion(rs, j);
      assert rs[j] !! rs[k];
    }
  }
}
