/**
  A BSS record with the lists of its stations and direct links (bss.c, sta.c), and the handlers
  that update them in place (rx_mgmt.c, rx_tdls.c).  Each is proved against its step on values.
 */
module BssRecords {
  import opened Options
  import opened Octets
  import opened Records
  import opened Handshake
  import opened MgmtFrames
  import opened TdlsTable
  import opened Stations
  import opened Counters
  import Injection
  import TrackerRuns
  import Bip

  /** `struct wlantest_tdls` */
  class Tdls {
    const init: Sta
    const resp: Sta
    var tpkKck: Octets
    var tpkTk: Octets
    var linkUp: bool
    var dialogToken: Octet

    ghost function View(): (v: TdlsV)
      reads this
      ensures v.init == init.addr && v.resp == resp.addr
    {
      TdlsV(init.addr, resp.addr, tpkKck, tpkTk, linkUp, dialogToken)
    }

    constructor (init: Sta, resp: Sta)
      ensures View() == NewLink(init.addr, resp.addr) && this.init == init && this.resp == resp
    {
      this.init, this.resp := init, resp;
      tpkKck, tpkTk, linkUp, dialogToken := Zeros(16), Zeros(16), false, 0;
    }

    /** `tdls_derive_tpk`, `tdls_verify_mic` and the dialog token they let through */
    method Answer(c: Crypto, seenIn: Addr, e: Elems, seq_: Octet, token: Octet)
      requires FullFtie(e)
      modifies this
      ensures View() == Answered(c, old(View()), seenIn, e, seq_, token)
    {
      hide SetupMicOk, Tpk;
      var f: Ftie := e.ftie.value;
      var keys := Tpk(c, init.addr, resp.addr, seenIn, AnonceOf(f), SnonceOf(f));
      tpkKck, tpkTk := keys.0, keys.1;
      if SetupMicOk(c, tpkKck, seq_, e) {
        dialogToken := token;
      }
    }
  }

  ghost function StaViews(stas: seq<Sta>): (v: seq<StaV>)
    reads stas
    ensures |v| == |stas| && forall i | 0 <= i < |stas| :: v[i] == stas[i].View()
  {
    seq(|stas|, i requires 0 <= i < |stas| reads stas => stas[i].View())
  }

  ghost function LinkViews(tdls: seq<Tdls>): (v: seq<TdlsV>)
    reads tdls
    ensures |v| == |tdls| && forall i | 0 <= i < |tdls| :: v[i] == tdls[i].View()
  {
    seq(|tdls|, i requires 0 <= i < |tdls| reads tdls => tdls[i].View())
  }

  /** No station address twice, no link record twice, and links only between listed stations. */
  ghost predicate WellFormed(stas: seq<Sta>, tdls: seq<Tdls>) {
    && (forall i, j | 0 <= i < j < |stas| :: stas[i].addr != stas[j].addr)
    && (forall i, j | 0 <= i < j < |tdls| :: tdls[i] != tdls[j])
    && forall i | 0 <= i < |tdls| :: tdls[i].init in stas && tdls[i].resp in stas
  }

  lemma MoreStas(stas: seq<Sta>, tdls: seq<Tdls>, s: Sta)
    requires WellFormed(stas, tdls) && forall j | 0 <= j < |stas| :: stas[j].addr != s.addr
    ensures WellFormed([s] + stas, tdls)
  {
  }

  /** `struct wlantest_bss` */
  class Bss {
    const bssid: Addr
    var mfpc: bool
    var stas: seq<Sta>
    var tdls: seq<Tdls>
    var pmks: seq<Pmk>
    var igtks: Igtks
    var igtkIdx: nat
    var bip: BipCount

    ghost predicate Valid()
      reads this
    {
      WellFormed(stas, tdls)
    }

    ghost function View(): (v: BssV)
      reads this, stas, tdls
      ensures v.bssid == bssid
    {
      BssV(bssid, mfpc, StaViews(stas), LinkViews(tdls), pmks, igtks, igtkIdx, bip)
    }

    constructor (bssid: Addr)
      ensures Valid() && View() == NewBss(bssid) && stas == [] && tdls == []
    {
      this.bssid, mfpc, stas, tdls, pmks := bssid, false, [], [], [];
      igtks, igtkIdx, bip := seq(6, _ => Igtk(Zeros(16), false, Zeros(6))), 0, BipCount(0, 0, 0);
    }

    // ---- Stations

    /** `sta_find`, by position */
    method StaFind(addr: Addr) returns (i: nat)
      ensures i == FindSta(View().stas, addr)
    {
      i := 0;
      while i < |stas|
        invariant 0 <= i <= |stas|
        invariant forall j | 0 <= j < i :: stas[j].addr != addr
      {
        if stas[i].addr == addr {
          FoundSta(View().stas, addr, i);
          return;
        }
        i := i + 1;
      }
      NoSta(View().stas, addr);
    }

    /** The stations that a link identifier names, if both are known. */
    method EndsOf(l: LinkId) returns (init: Sta?, resp: Sta?)
      ensures init != null && resp != null <==> HasSta(View(), Initiator(l)) && HasSta(View(), Responder(l))
      ensures init != null && resp != null ==>
                init in stas && resp in stas && init.addr == Initiator(l) && resp.addr == Responder(l)
    {
      hide FindSta;
      init, resp := null, null;
      var i := StaFind(Initiator(l));
      if i == |stas| {
        return;
      }
      var r := StaFind(Responder(l));
      if r == |stas| {
        return;
      }
      init, resp := stas[i], stas[r];
      assert init.addr == View().stas[i].addr && resp.addr == View().stas[r].addr;
    }

    /** `sta_get` */
    method StaGet(addr: Addr) returns (s: Sta?, ghost k: nat)
      requires Valid()
      modifies this`stas
      ensures Valid() && View() == GetSta(old(View()), addr)
      ensures s == null <==> Group(addr)
      ensures s != null ==> k < |stas| && stas[k] == s && s.addr == addr && FindSta(View().stas, addr) == k
      ensures stas == old(stas) || (|stas| > 0 && fresh(stas[0]) && stas == [stas[0]] + old(stas))
    {
      hide Group;
      if Group(addr) {
        return null, 0;
      }
      var i := StaFind(addr);
      if i < |stas| {
        return stas[i], i;
      }
      NobodyAt(addr);
      ghost var was := StaViews(stas);
      hide NewSta, WellFormed;
      s := StaAdd(addr);
      k := 0;
      AddedSta(was, NewSta(addr), addr);
    }

    /** A new station record in front of the list. */
    method StaAdd(addr: Addr) returns (s: Sta)
      requires Valid() && forall j | 0 <= j < |stas| :: stas[j].addr != addr
      modifies this`stas
      ensures Valid() && fresh(s) && s.addr == addr && stas == [s] + old(stas)
      ensures StaViews(stas) == [NewSta(addr)] + old(StaViews(stas))
    {
      hide NewSta;
      ghost var was := StaViews(stas);
      s := new Sta(addr);
      MoreStas(stas, tdls, s);
      hide WellFormed;
      stas := [s] + stas;
      assert StaViews(stas) == [s.View()] + was;
    }

    lemma NobodyAt(addr: Addr)
      requires FindSta(View().stas, addr) == |stas|
      ensures forall j | 0 <= j < |stas| :: stas[j].addr != addr
    {
      forall j | 0 <= j < |stas| ensures stas[j].addr != addr {
        assert View().stas[j].addr != addr;
      }
    }

    /** Where a listed station is. */
    lemma Position(s: Sta) returns (k: nat)
      requires Valid() && s in stas
      ensures k < |stas| && stas[k] == s && FindSta(View().stas, s.addr) == k
    {
      k :| 0 <= k < |stas| && stas[k] == s;
      FoundSta(View().stas, s.addr, k);
    }

    /** A station found at `k` is the only one listed there. */
    lemma OnlyAt(s: Sta, k: nat)
      requires Valid() && k < |stas| && stas[k] == s
      ensures forall j | 0 <= j < |stas| && j != k :: stas[j] != s
    {
    }

    /** One handler step on a found station. */
    method ApplyTo(s: Sta, op: StaOp)
      requires Valid() && s in stas
      modifies s
      ensures View() == PutSta(old(View()), Apply(op, old(s.View())))
    {
      hide Apply, FindSta;
      ghost var k := Position(s);
      OnlyAt(s, k);
      ghost var was := StaViews(stas);
      s.ApplyOp(op);
      assert StaViews(stas) == was[k := s.View()];
    }

    /** A message of the handshake for a found station; whether the group keys in it are looked at. */
    method RxMessage(c: Crypto, s: Sta, m: Message, d: KeyFrame, wtPmks: seq<Pmk>, learned: Option<Sec>)
      returns (trusted: bool)
      requires Valid() && s in stas
      modifies s
      ensures View() == PutSta(old(View()), StaStep(c, bssid, old(s.View()), m, d, pmks + wtPmks, learned))
      ensures trusted <==> TrackerRuns.KdeTrusted(c, old(s.View()), s.View(), m, d)
    {
      hide StaStep, FindSta, Verifies, MicOk;
      ghost var k := Position(s);
      OnlyAt(s, k);
      ghost var was := StaViews(stas);
      GroupLeavesAlone(c, bssid, s.View(), d, pmks + wtPmks, learned);
      trusted := s.RxMessage(c, bssid, m, d, pmks, wtPmks, learned);
      assert StaViews(stas) == was[k := s.View()];
    }

    static lemma GroupLeavesAlone(c: Crypto, bssid: Addr, s: StaV, d: KeyFrame, pmks: seq<Pmk>, learned: Option<Sec>)
      ensures StaStep(c, bssid, s, Group1, d, pmks, learned) == s
    {
    }

    /** A packet number noted for a found station. */
    method NoteMgmt(s: Sta, d: MgmtData)
      requires Valid() && s in stas && |d| >= 32
      modifies s
      ensures View() == PutSta(old(View()), NotePn(old(s.View()), d))
    {
      hide NotePn, FindSta;
      ghost var k := Position(s);
      OnlyAt(s, k);
      ghost var was := StaViews(stas);
      s.NoteMgmt(d);
      assert StaViews(stas) == was[k := s.View()];
    }

    method NoteData(s: Sta, toDs: bool, tid: nat, pn: Octets)
      requires Valid() && s in stas && tid <= 16
      modifies s
      ensures View() == PutSta(old(View()), NoteTid(old(s.View()), toDs, tid, pn))
    {
      hide FindSta;
      ghost var k := Position(s);
      OnlyAt(s, k);
      ghost var was := StaViews(stas);
      s.NoteData(toDs, tid, pn);
      assert StaViews(stas) == was[k := s.View()];
    }

    /** `deauth_all_stas` and `disassoc_all_stas` */
    method LowerStas(to: AssocState)
      requires Valid()
      modifies stas
      ensures View() == old(View()).(stas := LowerAll(old(View()).stas, to))
    {
      hide Lowered;
      for i := 0 to |stas|
        invariant forall j | 0 <= j < i :: stas[j].View() == Lowered(old(stas[j].View()), to)
        invariant forall j | i <= j < |stas| :: stas[j].View() == old(stas[j].View())
      {
        stas[i].Lower(to);
      }
    }

    /** `tdls_link_down` */
    method TdlsLinkDown(s: Sta)
      requires Valid() && s in stas
      modifies tdls
      ensures View() == old(View()).(tdls := LinkDown(old(View()).tdls, s.addr))
    {
      ghost var was := LinkViews(tdls);
      hide LinkDown, DownFor, WellFormed;
      for i := 0 to |tdls|
        invariant forall j | 0 <= j < i :: tdls[j].View() == DownFor(was[j], s.addr)
        invariant forall j | i <= j < |tdls| :: tdls[j].View() == was[j]
      {
        OnlyLinkAt(tdls[i], i);
        LinkDownAt(tdls[i], s);
      }
    }

    /** The body of its loop. */
    method LinkDownAt(t: Tdls, s: Sta)
      requires Valid() && s in stas && t.init in stas && t.resp in stas
      modifies t
      ensures t.View() == DownFor(old(t.View()), s.addr)
    {
      SameByAddress(t.init, s);
      SameByAddress(t.resp, s);
      hide Valid;
      if (t.init == s || t.resp == s) && t.linkUp {
        t.linkUp := false;
      }
    }

    /** Listed stations are told apart by their address. */
    lemma SameByAddress(s: Sta, t: Sta)
      requires Valid() && s in stas && t in stas
      ensures s == t <==> s.addr == t.addr
    {
      var i :| 0 <= i < |stas| && stas[i] == s;
      var j :| 0 <= j < |stas| && stas[j] == t;
    }

    /** `rx_mgmt_deauth` and `rx_mgmt_disassoc`, with the station found or added */
    method RxLeave(d: MgmtData, s: Sta?, valid: bool, to: AssocState)
      requires Valid() && (s == null <==> Group(HandlerAddr(d)))
      requires s != null ==> s in stas && s.addr == HandlerAddr(d)
      modifies stas, tdls
      ensures View() == Left(old(View()), d, valid, to)
    {
      hide LowerAll, LinkDown, Group, FindSta;
      if |d| < 24 + 2 {
        return;
      }
      if s == null {
        if valid && Da(d)[0] == 0xff {
          LowerStas(to);
        }
        return;
      }
      if !valid {
        return;
      }
      ghost var k := Position(s);
      LeaveOne(s, to);
    }

    method LeaveOne(s: Sta, to: AssocState)
      requires Valid() && s in stas
      modifies s, tdls
      ensures View() == PutSta(old(View()), Lowered(old(s.View()), to)).(tdls := LinkDown(old(View()).tdls, s.addr))
    {
      hide Lowered, FindSta, LinkDown;
      ghost var k := Position(s);
      OnlyAt(s, k);
      ghost var was := StaViews(stas);
      s.Lower(to);
      assert StaViews(stas) == was[k := s.View()];
      TdlsLinkDown(s);
    }

    /** The part of `check_bip` that looks at the MMIE. */
    method CheckMmie(c: Crypto, d: MgmtData) returns (ok: bool)
      modifies this`bip, this`igtks
      ensures (View(), ok) == MgmtFrames.CheckMmie(c, old(View()), d)
    {
      hide StaViews, LinkViews, Bip.MicOk, Bip.KeyId, Bip.IpnOf;
      if !Bip.HasMmie(d) {
        if mfpc {
          bip := bip.(missing := bip.missing + 1);
          return false;
        }
        return true;
      }
      var keyid := Bip.KeyId(d);
      if keyid != 4 && keyid != 5 {
        bip := bip.(invalid := bip.invalid + 1);
        return true;
      }
      var i := if keyid == 4 then 4 else 5;
      if !igtks[i].known {
        return true;
      }
      ok := Bip.CheckMmieMic(c.omac, igtks[i].key, d);
      if !ok {
        bip := bip.(invalid := bip.invalid + 1);
        return;
      }
      igtks := igtks[i := igtks[i].(ipn := Bip.IpnOf(d))];
      bip := bip.(valid := bip.valid + 1);
    }

    /** What a beacon says, and PMKs from passphrases. */
    method Announce(info: Info)
      modifies this`mfpc, this`pmks
      ensures View() == Announced(old(View()), info)
    {
      if info.apMfpc.Some? {
        mfpc := info.apMfpc.value;
      }
      pmks := info.pmks + pmks;
    }

    /** `bss_add_pmk_from_passphrase`, once the PMK is derived */
    method AddPmk(pmk: Pmk)
      modifies this`pmks
      ensures View() == old(View()).(pmks := [pmk] + old(View()).pmks)
    {
      pmks := [pmk] + pmks;
    }

    /** The IGTK part of `learn_kde_keys` */
    method LearnIgtk(k: TrackerRuns.IgtkKde)
      modifies this`igtks, this`igtkIdx
      ensures View() == TrackerRuns.LearnIgtk(old(View()), k)
    {
      if k.id > 5 {
        return;
      }
      igtks := igtks[k.id := Igtk(k.key, true, TrackerRuns.Reverse6(k.pn))];
      igtkIdx := k.id;
    }

    /** `wlantest_inject_bip`, up to the transmission */
    method InjectBip(c: Crypto, frame: Octets, incorrectKey: bool) returns (prot: Option<Octets>)
      requires |frame| >= 24 && igtkIdx < 6
      modifies this`igtks
      ensures (View(), prot) == Injection.Injected(c, old(View()), frame, incorrectKey)
    {
      hide StaViews, LinkViews, Bip.Protect;
      if !igtks[igtkIdx].known {
        return None;
      }
      var k := igtks[igtkIdx];
      var dummy := seq(64, _ => 0x11);
      var ipn, f := Build(c, if incorrectKey then dummy[..16] else k.key, frame, Injection.AsKeyId(igtkIdx), k.ipn);
      igtks := igtks[igtkIdx := k.(ipn := ipn)];
      prot := Some(f);
    }

    /** The packet number counted up, and the frame. */
    static method Build(c: Crypto, key: Octets, frame: Octets, keyid: bv16, last: Bip.Ipn)
      returns (ipn: Bip.Ipn, f: Octets)
      requires |frame| >= 24
      ensures ipn == Inc(last) && f == Bip.Protect(c.omac, key, frame, keyid, ipn)
    {
      hide Bip.Protect, Inc;
      var a := new Octet[6];
      Copy(a, 0, last);
      assert a[..] == last;
      var prot := Bip.BuildProtected(c.omac, key, frame, keyid, a);
      ipn, f := a[..], prot[..];
    }

    // ---- Direct links

    /** The list lookup of `get_tdls`, by position. */
    method LinkFind(init: Sta, resp: Sta) returns (i: nat)
      requires Valid() && init in stas && resp in stas
      ensures i == FindLink(View().tdls, init.addr, resp.addr)
    {
      i := 0;
      while i < |tdls|
        invariant 0 <= i <= |tdls|
        invariant forall j | 0 <= j < i :: tdls[j].init.addr != init.addr || tdls[j].resp.addr != resp.addr
      {
        SameByAddress(tdls[i].init, init);
        SameByAddress(tdls[i].resp, resp);
        if tdls[i].init == init && tdls[i].resp == resp {
          FoundLink(View().tdls, init.addr, resp.addr, i);
          return;
        }
        i := i + 1;
      }
      NoLink(View().tdls, init.addr, resp.addr);
    }

    /** `get_tdls` with `create_new`, once the stations are found */
    method LinkGet(init: Sta, resp: Sta) returns (t: Tdls, ghost k: nat)
      requires Valid() && init in stas && resp in stas
      modifies this`tdls
      ensures Valid() && View() == WithLink(old(View()), init.addr, resp.addr)
      ensures k < |tdls| && tdls[k] == t && FindLink(View().tdls, init.addr, resp.addr) == k
      ensures t.init == init && t.resp == resp
      ensures tdls == old(tdls) || (|tdls| > 0 && fresh(tdls[0]) && tdls == [tdls[0]] + old(tdls))
    {
      var i := LinkFind(init, resp);
      if i < |tdls| {
        SameByAddress(tdls[i].init, init);
        SameByAddress(tdls[i].resp, resp);
        return tdls[i], i;
      }
      t := LinkAdd(init, resp);
      k := 0;
    }

    /** A new link record in front of the list. */
    method LinkAdd(init: Sta, resp: Sta) returns (t: Tdls)
      requires Valid() && init in stas && resp in stas
      modifies this`tdls
      ensures Valid() && fresh(t) && t.init == init && t.resp == resp && tdls == [t] + old(tdls)
      ensures View() == old(View()).(tdls := [NewLink(init.addr, resp.addr)] + old(View()).tdls)
    {
      hide NewLink;
      ghost var was := LinkViews(tdls);
      t := new Tdls(init, resp);
      MoreLinks(stas, tdls, t);
      hide WellFormed;
      tdls := [t] + tdls;
      assert LinkViews(tdls) == [t.View()] + was;
    }

    /** `tdls_deinit` of the entry at a position */
    method LinkRemove(i: nat)
      requires Valid() && i < |tdls|
      modifies this`tdls
      ensures Valid() && tdls == old(tdls)[..i] + old(tdls)[i + 1..]
      ensures View() == old(View()).(tdls := old(View()).tdls[..i] + old(View()).tdls[i + 1..])
    {
      ghost var was := LinkViews(tdls);
      FewerLinks(stas, tdls, i);
      hide WellFormed;
      tdls := tdls[..i] + tdls[i + 1..];
      assert LinkViews(tdls) == was[..i] + was[i + 1..];
    }

    /** The entry for an ordered pair removed, if there is one. */
    method LinkDrop(init: Sta, resp: Sta) returns (ghost i: nat)
      requires Valid() && init in stas && resp in stas
      modifies this`tdls
      ensures Valid() && View() == WithoutLink(old(View()), init.addr, resp.addr)
      ensures i <= |old(tdls)| && tdls == if i < |old(tdls)| then old(tdls)[..i] + old(tdls)[i + 1..] else old(tdls)
    {
      hide FindLink, WellFormed;
      var j := LinkFind(init, resp);
      i := j;
      if j < |tdls| {
        LinkRemove(j);
      }
    }

    /** A link record found at `k` is listed nowhere else. */
    lemma OnlyLinkAt(t: Tdls, k: nat)
      requires Valid() && k < |tdls| && tdls[k] == t
      ensures t.init in stas && t.resp in stas && forall j | 0 <= j < |tdls| && j != k :: tdls[j] != t
    {
    }

    /** The dialog token of a Setup Request. */
    method SetToken(t: Tdls, ghost k: nat, token: Octet)
      requires Valid() && k < |tdls| && tdls[k] == t && FindLink(View().tdls, t.init.addr, t.resp.addr) == k
      modifies t
      ensures HasLink(old(View()), t.init.addr, t.resp.addr)
      ensures View() == PutLink(old(View()), TheLink(old(View()), t.init.addr, t.resp.addr).(dialogToken := token))
    {
      hide FindLink, WellFormed;
      OnlyLinkAt(t, k);
      ghost var was := LinkViews(tdls);
      t.dialogToken := token;
      assert LinkViews(tdls) == was[k := t.View()];
    }

    /** A link torn down. */
    method SetDown(t: Tdls, ghost k: nat)
      requires Valid() && k < |tdls| && tdls[k] == t && FindLink(View().tdls, t.init.addr, t.resp.addr) == k
      modifies t
      ensures HasLink(old(View()), t.init.addr, t.resp.addr)
      ensures View() == PutLink(old(View()), TheLink(old(View()), t.init.addr, t.resp.addr).(linkUp := false))
    {
      hide FindLink, WellFormed;
      OnlyLinkAt(t, k);
      ghost var was := LinkViews(tdls);
      t.linkUp := false;
      assert LinkViews(tdls) == was[k := t.View()];
    }

    /** The key and the dialog token of a Setup Response. */
    method Answer(c: Crypto, t: Tdls, ghost k: nat, seenIn: Addr, e: Elems, token: Octet)
      requires Valid() && k < |tdls| && tdls[k] == t
      requires FindLink(View().tdls, t.init.addr, t.resp.addr) == k && FullFtie(e)
      modifies t
      ensures HasLink(old(View()), t.init.addr, t.resp.addr)
      ensures var v := TheLink(old(View()), t.init.addr, t.resp.addr);
              View() == PutLink(old(View()), Answered(c, v, seenIn, e, 2, token))
    {
      hide FindLink, WellFormed, Answered;
      OnlyLinkAt(t, k);
      ghost var was := LinkViews(tdls);
      t.Answer(c, seenIn, e, 2, token);
      assert LinkViews(tdls) == was[k := t.View()];
    }

    /** `rx_data_tdls_setup_request` between found stations */
    method SetupRequest(init: Sta, resp: Sta, token: Octet)
      requires Valid() && init in stas && resp in stas
      modifies this`tdls, tdls
      ensures Valid() && stas == old(stas)
      ensures forall i | 0 <= i < |tdls| :: tdls[i] in old(tdls) || fresh(tdls[i])
      ensures var b := WithLink(old(View()), init.addr, resp.addr);
              View() == PutLink(b, TheLink(b, init.addr, resp.addr).(dialogToken := token))
    {
      hide FindLink, WithLink, WellFormed, PutLink;
      var t;
      ghost var k;
      t, k := LinkGet(init, resp);
      SetToken(t, k, token);
    }

    /** `rx_data_tdls_teardown` between found stations */
    method Teardown(init: Sta, resp: Sta)
      requires Valid() && init in stas && resp in stas
      modifies this`tdls, tdls
      ensures Valid() && stas == old(stas)
      ensures forall i | 0 <= i < |tdls| :: tdls[i] in old(tdls) || fresh(tdls[i])
      ensures var b := WithLink(old(View()), init.addr, resp.addr);
              View() == PutLink(b, TheLink(b, init.addr, resp.addr).(linkUp := false))
    {
      hide FindLink, WithLink, WellFormed, PutLink;
      var t;
      ghost var k;
      t, k := LinkGet(init, resp);
      SetDown(t, k);
    }

    /** `rx_data_tdls_setup_response` between found stations */
    method SetupResponse(init: Sta, resp: Sta, c: Crypto, seenIn: Addr, e: Elems, success: bool, token: Octet)
      requires Valid() && init in stas && resp in stas
      modifies this`tdls, tdls
      ensures Valid() && stas == old(stas)
      ensures forall i | 0 <= i < |tdls| :: tdls[i] in old(tdls) || fresh(tdls[i])
      ensures var b := WithLink(old(View()), init.addr, resp.addr);
              View() == if !success || !FullFtie(e) then b
                        else PutLink(b, Answered(c, TheLink(b, init.addr, resp.addr), seenIn, e, 2, token))
    {
      hide FindLink, WithLink, WellFormed, Answered, PutLink;
      var t;
      ghost var k;
      t, k := LinkGet(init, resp);
      if !success {
        return;
      }
      if !FullFtie(e) {
        return;
      }
      Answer(c, t, k, seenIn, e, token);
    }

    /** `rx_data_tdls_setup_confirm` between found stations */
    method SetupConfirm(init: Sta, resp: Sta, c: Crypto, seenIn: Addr, e: Elems, success: bool, token: Octet)
      requires Valid() && init in stas && resp in stas
      requires init.addr == Initiator(e.linkId) && resp.addr == Responder(e.linkId)
      modifies this`tdls, tdls
      ensures Valid() && stas == old(stas)
      ensures forall i | 0 <= i < |tdls| :: tdls[i] in old(tdls) || fresh(tdls[i])
      ensures var b := WithLink(old(View()), init.addr, resp.addr);
              View() == if success then Confirmed(c, b, seenIn, e, token) else b
    {
      hide FindLink, WithLink, WellFormed, Confirmed, PutLink;
      var t;
      ghost var k;
      t, k := LinkGet(init, resp);
      if success {
        Confirm(c, t, k, seenIn, e, token);
      }
    }

    /** A setup or teardown frame between found stations */
    method OnLink(c: Crypto, init: Sta, resp: Sta, op: LinkOp, seenIn: Addr, e: Elems)
      returns (ghost added: set<object>)
      requires Valid() && init in stas && resp in stas
      requires init.addr == Initiator(e.linkId) && resp.addr == Responder(e.linkId)
      modifies this`tdls, tdls
      ensures Valid() && stas == old(stas) && View() == Linked(c, old(View()), op, seenIn, e)
      ensures fresh(added) && forall i | 0 <= i < |tdls| :: tdls[i] in old(tdls) || tdls[i] in added
    {
      hide WithLink, WellFormed, Confirmed, PutLink, Answered, FullFtie, StaViews, LinkViews;
      match op {
        case Request(token) => SetupRequest(init, resp, token);
        case Response(success, token) => SetupResponse(init, resp, c, seenIn, e, success, token);
        case Confirmation(success, token) => SetupConfirm(init, resp, c, seenIn, e, success, token);
        case TornDown => Teardown(init, resp);
      }
      added := set i | 0 <= i < |tdls| && tdls[i] !in old(tdls) :: tdls[i] as object;
    }

    /** Its effect where the frame reports success. */
    method Confirm(c: Crypto, t: Tdls, ghost k: nat, seenIn: Addr, e: Elems, token: Octet)
      requires Valid() && k < |tdls| && tdls[k] == t && FindLink(View().tdls, t.init.addr, t.resp.addr) == k
      requires t.init in stas && t.resp in stas && t.init.addr == Initiator(e.linkId)
      requires t.resp.addr == Responder(e.linkId)
      modifies this`tdls, t
      ensures Valid() && stas == old(stas) && View() == Confirmed(c, old(View()), seenIn, e, token)
      ensures forall i | 0 <= i < |tdls| :: tdls[i] in old(tdls)
    {
      hide FindLink, WellFormed, Risen, WithoutLink, PutLink;
      MarkUp(c, t, k, seenIn, e, token);
      if e.ftie.Some? && !FullFtie(e) {
        return;
      }
      var _ := LinkDrop(t.resp, t.init);
    }

    /** The link up, with its key and dialog token where the frame carries the nonces. */
    method MarkUp(c: Crypto, t: Tdls, ghost k: nat, seenIn: Addr, e: Elems, token: Octet)
      requires Valid() && k < |tdls| && tdls[k] == t && FindLink(View().tdls, t.init.addr, t.resp.addr) == k
      modifies t
      ensures HasLink(old(View()), t.init.addr, t.resp.addr)
      ensures View() == PutLink(old(View()), Risen(c, TheLink(old(View()), t.init.addr, t.resp.addr), seenIn, e, token))
    {
      hide FindLink, WellFormed, Answered;
      OnlyLinkAt(t, k);
      ghost var was := LinkViews(tdls);
      t.linkUp := true;
      if FullFtie(e) {
        t.Answer(c, seenIn, e, 3, token);
      }
      assert LinkViews(tdls) == was[k := t.View()];
    }
  }

  lemma MoreLinks(stas: seq<Sta>, tdls: seq<Tdls>, t: Tdls)
    requires WellFormed(stas, tdls) && t !in tdls && t.init in stas && t.resp in stas
    ensures WellFormed(stas, [t] + tdls)
  {
  }

  lemma FewerLinks(stas: seq<Sta>, tdls: seq<Tdls>, i: nat)
    requires WellFormed(stas, tdls) && i < |tdls|
    ensures WellFormed(stas, tdls[..i] + tdls[i + 1..])
  {
  }
}
