/**
  The tables of the tracker in every run: no BSS, no station of a BSS and no ordered pair of a
  direct link is listed twice, and no group address is ever stored.
 */
module TrackerTables {
  import opened Options
  import opened Octets
  import opened Records
  import opened Handshake
  import opened MgmtFrames
  import opened TdlsTable
  import opened TrackerRuns

  predicate DistinctStas(stas: seq<StaV>) {
    && (forall i, j | 0 <= i < j < |stas| :: stas[i].addr != stas[j].addr)
    && forall i | 0 <= i < |stas| :: !Group(stas[i].addr)
  }

  predicate LinkInside(b: BssV, t: TdlsV) { HasSta(b, t.init) && HasSta(b, t.resp) }

  predicate ValidBss(b: BssV) {
    DistinctStas(b.stas) && DistinctLinks(b.tdls) && forall i | 0 <= i < |b.tdls| :: LinkInside(b, b.tdls[i])
  }

  predicate Valid(w: World) {
    && (forall i, j | 0 <= i < j < |w.bss| :: w.bss[i].bssid != w.bss[j].bssid)
    && forall i | 0 <= i < |w.bss| :: !Group(w.bss[i].bssid) && ValidBss(w.bss[i])
  }

  // ---- One BSS

  lemma TheBssValid(w: World, id: Addr)
    requires Valid(w) && HasBss(w, id)
    ensures ValidBss(TheBss(w, id)) && !Group(id)
  {
    hide ValidBss, Group;
  }

  lemma PutBssValid(w: World, b: BssV)
    requires Valid(w) && HasBss(w, b.bssid) && ValidBss(b)
    ensures Valid(PutBss(w, b))
  {
    hide ValidBss, Group;
  }

  lemma GetBssValid(w: World, id: Addr)
    requires Valid(w)
    ensures Valid(GetBss(w, id))
  {
    hide Group, FindSta;
    if !Group(id) && !HasBss(w, id) {
      assert ValidBss(NewBss(id));
      hide ValidBss, NewBss;
    }
  }

  lemma GetStaValid(b: BssV, addr: Addr)
    requires ValidBss(b)
    ensures ValidBss(GetSta(b, addr))
  {
    var c := GetSta(b, addr);
    forall i | 0 <= i < |b.tdls| ensures LinkInside(c, c.tdls[i]) {
      GetStaAt(b, addr, b.tdls[i].init);
      GetStaAt(b, addr, b.tdls[i].resp);
      assert LinkInside(b, b.tdls[i]);
    }
    hide Group, NewSta, LinkInside;
  }

  lemma GetValid(w: World, id: Addr, addr: Addr)
    requires Valid(w)
    ensures Valid(Get(w, id, addr))
  {
    GetBssValid(w, id);
    var v := GetBss(w, id);
    hide Valid, GetBss, GetSta, HasBss, TheBss, PutBss, Group;
    if HasBss(v, id) {
      TheBssValid(v, id);
      GetStaValid(TheBss(v, id), addr);
      PutBssValid(v, GetSta(TheBss(v, id), addr));
    }
  }

  /** The same stations by address, and the same links by their ends. */
  predicate SameShape(b: BssV, d: BssV) {
    && |b.stas| == |d.stas| && (forall i | 0 <= i < |b.stas| :: b.stas[i].addr == d.stas[i].addr)
    && |b.tdls| == |d.tdls|
    && forall i | 0 <= i < |b.tdls| :: b.tdls[i].init == d.tdls[i].init && b.tdls[i].resp == d.tdls[i].resp
  }

  lemma ShapeValid(b: BssV, d: BssV)
    requires ValidBss(b) && SameShape(b, d)
    ensures ValidBss(d)
  {
    forall i | 0 <= i < |d.tdls| ensures LinkInside(d, d.tdls[i]) {
      assert LinkInside(b, b.tdls[i]);
      SameAddresses(b.stas, d.stas, d.tdls[i].init);
      SameAddresses(b.stas, d.stas, d.tdls[i].resp);
    }
    hide Group, LinkInside, FindSta;
  }

  lemma PutShapeValid(w: World, b: BssV)
    requires Valid(w) && HasBss(w, b.bssid) && SameShape(TheBss(w, b.bssid), b)
    ensures Valid(PutBss(w, b))
  {
    TheBssValid(w, b.bssid);
    ShapeValid(TheBss(w, b.bssid), b);
    PutBssValid(w, b);
  }

  lemma UpdateValid(w: World, id: Addr, s: StaV)
    requires Valid(w) && StaAt(w, id, s.addr).Some?
    ensures Valid(Update(w, id, s))
  {
    hide Valid, FindSta, FindBss, PutBss;
    PutShapeValid(w, PutSta(TheBss(w, id), s));
  }

  // ---- Links

  lemma WithLinkValid(b: BssV, i: Addr, r: Addr)
    requires ValidBss(b) && HasSta(b, i) && HasSta(b, r)
    ensures ValidBss(WithLink(b, i, r))
  {
    WithLinkAt(b, i, r, i, r);
    var c := WithLink(b, i, r);
    forall k | 0 <= k < |c.tdls| ensures LinkInside(c, c.tdls[k]) {
      SameStas(b, c, c.tdls[k].init);
      SameStas(b, c, c.tdls[k].resp);
      if !HasLink(b, i, r) && k > 0 {
        assert LinkInside(b, b.tdls[k - 1]);
      } else if HasLink(b, i, r) {
        assert LinkInside(b, b.tdls[k]);
      }
    }
    hide Group, LinkInside, FindLink, NewLink, DistinctLinks, FindSta;
  }

  lemma SameInside(b: BssV, c: BssV, t: TdlsV)
    requires b.stas == c.stas && LinkInside(b, t)
    ensures LinkInside(c, t)
  {
    SameStas(b, c, t.init);
    SameStas(b, c, t.resp);
    hide HasSta;
  }

  lemma WithoutLinkValid(b: BssV, i: Addr, r: Addr)
    requires ValidBss(b)
    ensures ValidBss(WithoutLink(b, i, r))
  {
    WithoutLinkDistinct(b, i, r);
    var c := WithoutLink(b, i, r);
    hide Group, DistinctLinks, LinkInside, FindLink;
    forall k | 0 <= k < |c.tdls| ensures LinkInside(c, c.tdls[k]) {
      LeftOver(b, i, r, k);
      SameInside(b, c, c.tdls[k]);
    }
  }

  lemma LeftOver(b: BssV, i: Addr, r: Addr, k: nat)
    requires k < |WithoutLink(b, i, r).tdls| && forall j | 0 <= j < |b.tdls| :: LinkInside(b, b.tdls[j])
    ensures LinkInside(b, WithoutLink(b, i, r).tdls[k])
  {
    hide LinkInside, FindLink;
    var j := FindLink(b.tdls, i, r);
    assert WithoutLink(b, i, r).tdls[k] == b.tdls[if k < j then k else k + 1];
  }

  lemma PutLinkValid(b: BssV, t: TdlsV)
    requires ValidBss(b) && HasLink(b, t.init, t.resp)
    ensures ValidBss(PutLink(b, t))
  {
    hide ValidBss;
    ShapeValid(b, PutLink(b, t));
  }

  lemma ConfirmedValid(c: Crypto, b: BssV, bssid: Addr, e: Elems, token: Octet)
    requires ValidBss(b) && HasLink(b, Initiator(e.linkId), Responder(e.linkId))
    ensures ValidBss(Confirmed(c, b, bssid, e, token))
  {
    var (i, r) := (Initiator(e.linkId), Responder(e.linkId));
    var u := Risen(c, TheLink(b, i, r), bssid, e, token);
    hide ValidBss, Risen, FindLink, PutLink, WithoutLink;
    PutLinkValid(b, u);
    WithoutLinkValid(PutLink(b, u), r, i);
  }

  lemma LinkedValid(c: Crypto, b: BssV, op: LinkOp, seenIn: Addr, e: Elems)
    requires ValidBss(b) && HasSta(b, Initiator(e.linkId)) && HasSta(b, Responder(e.linkId))
    ensures ValidBss(Linked(c, b, op, seenIn, e))
  {
    hide ValidBss, FindSta, FindLink, WithLink, Answered, Confirmed, FullFtie, PutLink;
    var (i, r) := (Initiator(e.linkId), Responder(e.linkId));
    var n := WithLink(b, i, r);
    WithLinkValid(b, i, r);
    match op
    case Request(token) => PutLinkValid(n, TheLink(n, i, r).(dialogToken := token));
    case Response(success, token) =>
      if FullFtie(e) {
        PutLinkValid(n, Answered(c, TheLink(n, i, r), seenIn, e, 2, token));
      }
    case Confirmation(success, token) => ConfirmedValid(c, n, seenIn, e, token);
    case TornDown => PutLinkValid(n, TheLink(n, i, r).(linkUp := false));
  }

  lemma TdlsValid(c: Crypto, w: World, bssid: Addr, payload: Octets, elems: Option<Elems>)
    requires Valid(w)
    ensures Valid(RxTdls(c, w, bssid, payload, elems))
  {
    hide Valid, ValidBss, FindBss, FindSta, LinkOpOf, Linked, PutBss;
    if elems.Some? && LinkOpOf(payload).Some? && Known(w, elems.value.linkId, bssid) {
      var b := BssOf(w, elems.value.linkId, bssid);
      TheBssValid(w, b.bssid);
      LinkedValid(c, b, LinkOpOf(payload).value, bssid, elems.value);
      PutBssValid(w, Linked(c, b, LinkOpOf(payload).value, bssid, elems.value));
    }
  }

  // ---- Management frames

  lemma OnStaValid(w: World, id: Addr, addr: Addr, op: StaOp)
    requires Valid(w)
    ensures Valid(OnSta(w, id, addr, op))
  {
    GetValid(w, id, addr);
    var v := Get(w, id, addr);
    hide Valid, Get, StaAt, Group, Update;
    if !Group(id) && !Group(addr) && StaAt(v, id, addr).Some? {
      UpdateValid(v, id, Apply(op, StaAt(v, id, addr).value));
    }
  }

  lemma LeaveValid(w: World, d: MgmtData, valid: bool, to: AssocState)
    requires Valid(w)
    ensures Valid(Leave(w, d, valid, to))
  {
    var id, a := BssidOf(d), HandlerAddr(d);
    GetValid(w, id, a);
    var v := Get(w, id, a);
    hide Valid, Get, Group, HasBss, TheBss, PutBss, Left;
    if HasBss(v, id) {
      LeftShape(TheBss(v, id), d, valid, to);
      PutShapeValid(v, Left(TheBss(v, id), d, valid, to));
    }
  }

  lemma LeftShape(b: BssV, d: MgmtData, valid: bool, to: AssocState)
    ensures SameShape(b, Left(b, d, valid, to))
  {
    hide FindSta, Lowered, Group;
  }

  lemma BeaconValid(w: World, d: MgmtData, info: Info)
    requires Valid(w)
    ensures Valid(Beacon(w, d, info))
  {
    var id := BssidOf(d);
    GetBssValid(w, id);
    var v := GetBss(w, id);
    hide Valid, GetBss, Group, FindBss, PutBss;
    if HasBss(v, id) {
      PutShapeValid(v, Announced(TheBss(v, id), info));
    }
  }

  lemma BipValid(c: Crypto, w: World, d: MgmtData)
    requires Valid(w)
    ensures Valid(CheckBip(c, w, d).0)
  {
    var id := BssidOf(d);
    GetBssValid(w, id);
    var v := GetBss(w, id);
    if HasBss(v, id) {
      PutShapeValid(v, CheckMmie(c, TheBss(v, id), d).0);
    }
    hide Valid, GetBss, Group, HasBss, TheBss, PutBss, CheckMmie, Subtype;
  }

  lemma DecryptValid(c: Crypto, w: World, d: MgmtData)
    requires Valid(w)
    ensures Valid(MgmtCcmpDecrypt(c, w, d).0)
  {
    var id, a := BssidOf(d), CheckAddr(d);
    GetValid(w, id, a);
    var v := Get(w, id, a);
    hide Valid, Get, StaAt, Group, Body, Update, CheckAddr, BssidOf;
    if !Group(id) && !Group(a) && StaAt(v, id, a).Some? && Body(c, StaAt(v, id, a).value, d).Some? {
      BodyLength(c, StaAt(v, id, a).value, d);
      UpdateValid(v, id, NotePn(StaAt(v, id, a).value, d));
    }
  }

  lemma CcmpCheckValid(w: World, d: MgmtData)
    requires Valid(w)
    ensures Valid(CheckMgmtCcmp(w, d).0)
  {
    GetValid(w, BssidOf(d), CheckAddr(d));
    hide Valid, Get, StaAt, Group, Subtype;
  }

  lemma PrecheckValid(c: Crypto, w: World, d: MgmtData)
    requires Valid(w)
    ensures Valid(Precheck(c, w, d).world)
  {
    BipValid(c, w, d);
    DecryptValid(c, w, d);
    CcmpCheckValid(w, d);
    hide Valid, CheckBip, MgmtCcmpDecrypt, CheckMgmtCcmp, Robust, Group, IsProtected;
  }

  lemma MgmtValid(c: Crypto, w: World, d: MgmtData, info: Info)
    requires Valid(w)
    ensures Valid(RxMgmt(c, w, d, info))
  {
    var k := Precheck(c, w, d);
    PrecheckValid(c, w, d);
    PrecheckKeeps(c, w, d, BssidOf(d), BssidOf(d));
    hide Precheck, Valid, Dispatch;
    DispatchValid(k.world, k.data, Subtype(d), k.valid, info);
  }

  lemma DispatchValid(w: World, d: MgmtData, subtype: bv16, valid: bool, info: Info)
    requires Valid(w)
    ensures Valid(Dispatch(w, d, subtype, valid, info))
  {
    hide Valid, Leave, OnSta, Beacon, AuthOp, AssocReqOp, AssocRespOp, HandlerAddr, Group;
    if subtype == WLAN_FC_STYPE_BEACON || subtype == WLAN_FC_STYPE_PROBE_RESP {
      BeaconValid(w, d, info);
    } else if subtype == WLAN_FC_STYPE_AUTH {
      OnStaValid(w, BssidOf(d), HandlerAddr(d), AuthOp(d));
    } else if subtype == WLAN_FC_STYPE_DEAUTH {
      LeaveValid(w, d, valid, State1);
    } else if subtype == WLAN_FC_STYPE_DISASSOC {
      LeaveValid(w, d, valid, State2);
    } else if subtype == WLAN_FC_STYPE_ASSOC_REQ {
      OnStaValid(w, BssidOf(d), Sa(d), AssocReqOp(d, 4, info));
    } else if subtype == WLAN_FC_STYPE_REASSOC_REQ {
      OnStaValid(w, BssidOf(d), Sa(d), AssocReqOp(d, 10, info));
    } else if subtype == WLAN_FC_STYPE_ASSOC_RESP || subtype == WLAN_FC_STYPE_REASSOC_RESP {
      OnStaValid(w, BssidOf(d), Da(d), AssocRespOp(d));
    } else {
      OnStaValid(w, BssidOf(d), HandlerAddr(d), Nothing);
    }
  }

  // ---- Messages and data

  lemma MessageValid(c: Crypto, w: World, m: Message, e: Event)
    requires Valid(w) && e.Eapol? && |e.key| >= 99
    ensures Valid(RxMessage(c, w, m, e))
  {
    var id, addr := ApOf(m, e.dst, e.src), StaOf(m, e.dst, e.src);
    GetValid(w, id, addr);
    var v := Get(w, id, addr);
    hide Valid, Get, StaAt, Group, OnMessage;
    if !Group(id) && !Group(addr) && StaAt(v, id, addr).Some? {
      OnMessageValid(c, v, id, StaAt(v, id, addr).value, m, e);
    }
  }

  lemma HandledShape(c: Crypto, b: BssV, s: StaV, wtPmks: seq<Pmk>, m: Message, e: Event)
    requires e.Eapol? && |e.key| >= 99 && HasSta(b, s.addr)
    ensures SameShape(b, Handled(c, b, s, wtPmks, m, e))
  {
    hide StaStep, KdeTrusted, FindSta, LearnIgtk;
  }

  lemma OnMessageValid(c: Crypto, v: World, id: Addr, s: StaV, m: Message, e: Event)
    requires Valid(v) && e.Eapol? && |e.key| >= 99 && StaAt(v, id, s.addr).Some?
    ensures Valid(OnMessage(c, v, id, s, m, e))
  {
    HandledShape(c, TheBss(v, id), s, v.pmks, m, e);
    hide Valid, Handled, FindBss, FindSta, PutBss;
    PutShapeValid(v, Handled(c, TheBss(v, id), s, v.pmks, m, e));
  }

  lemma DataValid(w: World, e: Event)
    requires Valid(w) && e.DataDecrypted?
    ensures Valid(NoteDataPn(w, e))
  {
    GetValid(w, e.apId, e.staAddr);
    var v := Get(w, e.apId, e.staAddr);
    hide Valid, Get, StaAt, Group, Update;
    if !Group(e.apId) && !Group(e.staAddr) && StaAt(v, e.apId, e.staAddr).Some? && e.tid <= 16 {
      var s := StaAt(v, e.apId, e.staAddr).value;
      UpdateValid(v, e.apId, NoteTid(s, e.toDs, e.tid, e.pn));
    }
  }

  lemma StepValid(c: Crypto, w: World, e: Event)
    requires Valid(w)
    ensures Valid(Step(c, w, e))
  {
    match e
    case Mgmt(frame, info) =>
      if |frame| >= 24 {
        hide Valid, Precheck, Dispatch;
        MgmtValid(c, w, frame, info);
      }
    case Eapol(_, _, key, _, _) =>
      if Classify(key).Some? {
        hide Valid, RxMessage;
        MessageValid(c, w, Classify(key).value, e);
      }
    case Tdls(bssid, payload, elems) =>
      hide Valid, RxTdls;
      TdlsValid(c, w, bssid, payload, elems);
    case DataDecrypted(_, _, _, _, _) =>
      hide Valid, NoteDataPn;
      DataValid(w, e);
    case AddPmk(pmk) =>
    case AddBssPmk(bssid, pmk) =>
      hide Valid, PutBss, FindBss;
      if HasBss(w, bssid) {
        PutShapeValid(w, TheBss(w, bssid).(pmks := [pmk] + TheBss(w, bssid).pmks));
      }
    case Flush =>
  }

  /** The tables are well-formed after every run. */
  lemma {:induction false} RunValid(c: Crypto, h: seq<Event>)
    ensures Valid(Run(c, h))
  {
    if h != [] {
      hide Valid, Step;
      RunValid(c, h[..|h| - 1]);
      StepValid(c, Run(c, h[..|h| - 1]), h[|h| - 1]);
    }
  }

  lemma StoredAddresses(w: World, id: Addr, addr: Addr)
    requires Valid(w) && StaAt(w, id, addr).Some?
    ensures !Group(id) && !Group(addr)
  {
    TheBssValid(w, id);
    hide Group;
  }

  /**
    After every run: if a leaving frame for one receiver, whose checked station is the one acted
    on, takes a station with management frame protection out of state 3, the frame was protected
    and its body decrypted under that station's PTK.
   */
  lemma RunProtected(c: Crypto, h: seq<Event>, d: MgmtData, info: Info, id: Addr, addr: Addr)
    requires Leaving(d) && !Group(Da(d)) && CheckAddr(d) == HandlerAddr(d)
    requires var s := StaAt(Run(c, h), id, addr); s.Some? && s.value.state == State3 && s.value.sec.mfpc
    requires var t := StaAt(Run(c, h + [Mgmt(d, info)]), id, addr); t.None? || t.value.state != State3
    ensures IsProtected(d) && id == BssidOf(d) && addr == CheckAddr(d)
    ensures Body(c, StaAt(Run(c, h), id, addr).value, d).Some?
  {
    RunValid(c, h);
    var g := h + [Mgmt(d, info)];
    assert g[..|g| - 1] == h && Run(c, g) == RxMgmt(c, Run(c, h), d, info);
    hide Run, RxMgmt, Valid;
    StoredAddresses(Run(c, h), id, addr);
    ProtectedLeaving(c, Run(c, h), d, info, id, addr);
  }

  /**
    After every run: a successful Setup Confirm between two stations leaves their link up, and
    takes the reverse entry away exactly if there was none or the fast-transition element is
    absent or complete.
   */
  lemma RunReverseGone(c: Crypto, h: seq<Event>, bssid: Addr, e: Elems, token: Octet)
    requires Known(Run(c, h), e.linkId, bssid) && Initiator(e.linkId) != Responder(e.linkId)
    ensures var w := Run(c, h);
            var id := LinkBss(w, e.linkId, bssid).value;
            var v := OnLink(c, w, bssid, Confirmation(true, token), e);
            var (i, r) := (Initiator(e.linkId), Responder(e.linkId));
            HasBss(v, id) && HasLink(TheBss(v, id), i, r) && TheLink(TheBss(v, id), i, r).linkUp
            && (!HasLink(TheBss(v, id), r, i) <==> !HasLink(TheBss(w, id), r, i) || e.ftie.None? || FullFtie(e))
  {
    RunValid(c, h);
    var w := Run(c, h);
    var id := LinkBss(w, e.linkId, bssid).value;
    var b := TheBss(w, id);
    hide Run, Valid, FindBss, FindSta, FindLink, PutBss, WithLink, Confirmed;
    TheBssValid(w, id);
    ReverseGone(c, b, bssid, e, token);
    PutBssAt(w, Confirmed(c, WithLink(b, Initiator(e.linkId), Responder(e.linkId)), bssid, e, token), id);
  }

  /**
    After every run: a successful Setup Confirm of a station with itself leaves its entry listed
    exactly if the fast-transition element is cut short.
   */
  lemma RunSelfConfirm(c: Crypto, h: seq<Event>, bssid: Addr, e: Elems, token: Octet)
    requires Known(Run(c, h), e.linkId, bssid) && Initiator(e.linkId) == Responder(e.linkId)
    ensures var w, i := Run(c, h), Initiator(e.linkId);
            var id := LinkBss(w, e.linkId, bssid).value;
            var v := OnLink(c, w, bssid, Confirmation(true, token), e);
            HasBss(v, id) && (HasLink(TheBss(v, id), i, i) <==> e.ftie.Some? && !FullFtie(e))
  {
    RunValid(c, h);
    var w, i := Run(c, h), Initiator(e.linkId);
    var id := LinkBss(w, e.linkId, bssid).value;
    var b := TheBss(w, id);
    hide Run, Valid, FindBss, FindSta, FindLink, PutBss, WithLink, Confirmed;
    TheBssValid(w, id);
    SelfConfirm(c, b, bssid, e, token);
    PutBssAt(w, Confirmed(c, WithLink(b, i, i), bssid, e, token), id);
  }
}
