/**
  Deauthentications and disassociations in runs of the tracker: exactly which unprotected ones
  leave protected, associated stations alone, and what protected ones do where the station that
  is checked is not the one acted on (rx_mgmt.c).
 */
module LeavingRuns {
  import opened Options
  import opened Octets
  import opened Records
  import opened Handshake
  import opened MgmtFrames
  import opened TrackerRuns
  import opened TrackerTables

  // ---- A run that ends with one associated station under management frame protection

  /** An association request of `addr`, and the response that accepts it. */
  function Request(bssid: Addr, addr: Addr): MgmtData {
    [0x00, 0x00] + Zeros(2) + bssid + addr + bssid + Zeros(2) + Zeros(6)
  }

  function Response(bssid: Addr, addr: Addr): MgmtData {
    [0x10, 0x00] + Zeros(2) + addr + bssid + bssid + Zeros(2) + Zeros(6)
  }

  const PROTECTED := Sec(true, false, false)

  function Associating(bssid: Addr, addr: Addr): seq<Event> {
    [Mgmt(Request(bssid, addr), Info(Some(PROTECTED), None, [])), Mgmt(Response(bssid, addr), Info(None, None, []))]
  }

  /** A BSS with one station. */
  function Alone(bssid: Addr, s: StaV): World { World([NewBss(bssid).(stas := [s])], []) }

  lemma RequestFields(bssid: Addr, addr: Addr)
    ensures var d := Request(bssid, addr); BssidOf(d) == bssid && Sa(d) == addr && Subtype(d) == WLAN_FC_STYPE_ASSOC_REQ
  {
    var d := Request(bssid, addr);
    assert d[0] == 0x00 && d[1] == 0x00 && d[10..16] == addr && d[16..22] == bssid;
  }

  lemma ResponseFields(bssid: Addr, addr: Addr)
    ensures var d := Response(bssid, addr);
            && BssidOf(d) == bssid && Da(d) == addr
            && Subtype(d) == WLAN_FC_STYPE_ASSOC_RESP && AssocRespOp(d) == Associated
  {
    var d := Response(bssid, addr);
    assert d[0] == 0x10 && d[1] == 0x00 && d[4..10] == addr && d[16..22] == bssid;
    assert d[26] == 0 && d[27] == 0;
  }

  lemma AloneLaws(bssid: Addr, s: StaV, t: StaV)
    requires s.addr == t.addr
    ensures FindBss(Alone(bssid, s).bss, bssid) == 0 && HasSta(Alone(bssid, s).bss[0], s.addr)
    ensures StaAt(Alone(bssid, s), bssid, s.addr) == Some(s) && Update(Alone(bssid, s), bssid, t) == Alone(bssid, t)
    ensures Get(Alone(bssid, s), bssid, s.addr) == Alone(bssid, s)
  {
    var w := Alone(bssid, s);
    assert w.bss[0].stas == [s];
    FoundBss(w.bss, bssid, 0);
    FoundSta([s], s.addr, 0);
    hide FindBss, FindSta, Group, NewBss;
    assert [s][0 := t] == [t];
    assert w.bss[0 := w.bss[0]] == w.bss;
    assert w.bss[0 := w.bss[0].(stas := [t])] == Alone(bssid, t).bss;
  }

  lemma FirstGet(bssid: Addr, addr: Addr)
    requires !Group(bssid) && !Group(addr)
    ensures Get(World([], []), bssid, addr) == Alone(bssid, NewSta(addr))
  {
    var b := NewBss(bssid);
    assert GetBss(World([], []), bssid) == World([b], []) by {
      assert [b] + [] == [b];
    }
    assert GetSta(b, addr) == b.(stas := [NewSta(addr)]) by {
      assert [NewSta(addr)] + [] == [NewSta(addr)];
    }
    FoundBss([b], bssid, 0);
    hide GetBss, GetSta, FindBss, Group, NewBss, NewSta;
    assert [b][0 := b.(stas := [NewSta(addr)])] == [b.(stas := [NewSta(addr)])];
  }

  lemma FirstSta(bssid: Addr, addr: Addr, op: StaOp)
    requires !Group(bssid) && !Group(addr)
    ensures OnSta(World([], []), bssid, addr, op) == Alone(bssid, Apply(op, NewSta(addr)))
  {
    FirstGet(bssid, addr);
    AloneLaws(bssid, NewSta(addr), Apply(op, NewSta(addr)));
    hide Group, Get, Alone, StaAt, Update, Apply, NewSta;
  }

  lemma SameSta(bssid: Addr, s: StaV, op: StaOp)
    requires !Group(bssid) && !Group(s.addr)
    ensures OnSta(Alone(bssid, s), bssid, s.addr, op) == Alone(bssid, Apply(op, s))
  {
    AloneLaws(bssid, s, Apply(op, s));
    hide Group, Get, Alone, StaAt, Update, Apply;
  }

  lemma RunTwo(c: Crypto, e: Event, f: Event)
    ensures Run(c, [e, f]) == Step(c, Step(c, World([], []), e), f)
  {
    var h := [e, f];
    assert h[..1] == [e] && [e][..0] == [];
    assert Run(c, [e]) == Step(c, Run(c, []), e);
    hide Step;
  }

  lemma RequestStep(c: Crypto, bssid: Addr, addr: Addr, w: World, info: Info)
    ensures RxMgmt(c, w, Request(bssid, addr), info) == OnSta(w, bssid, addr, AssocReqOp(Request(bssid, addr), 4, info))
  {
    RequestFields(bssid, addr);
    hide OnSta, Subtype, BssidOf, Sa, Request, AssocReqOp;
  }

  lemma ResponseStep(c: Crypto, bssid: Addr, addr: Addr, w: World, info: Info)
    ensures RxMgmt(c, w, Response(bssid, addr), info) == OnSta(w, bssid, addr, Associated)
  {
    ResponseFields(bssid, addr);
    hide OnSta, Subtype, BssidOf, Da, Response, AssocRespOp;
  }

  /** The state in which a station is exposed comes about. */
  lemma Comes(c: Crypto, bssid: Addr, addr: Addr)
    requires !Group(bssid) && !Group(addr)
    ensures Run(c, Associating(bssid, addr)) == OneStation(bssid, addr)
  {
    var h := Associating(bssid, addr);
    RunTwo(c, h[0], h[1]);
    RequestStep(c, bssid, addr, World([], []), h[0].info);
    FirstSta(bssid, addr, SecLearned(PROTECTED));
    SameSta(bssid, NewSta(addr).(sec := PROTECTED), Associated);
    ResponseStep(c, bssid, addr, Alone(bssid, NewSta(addr).(sec := PROTECTED)), h[1].info);
    hide OnSta, RxMgmt, Request, Response, Group, Run;
  }

  // ---- Unprotected frames

  /** No run leads to a state in which the frame disturbs a protected, associated station. */
  ghost predicate NeverDisturbs(c: Crypto, d: MgmtData) {
    forall h, addr, info :: Undisturbed(c, d, Run(c, h), addr, info)
  }

  /**
    Unprotected deauthentications and disassociations for one receiver leave associated,
    protected stations alone after every run exactly if the station checked is the station acted
    on: that is, unless neither receiver nor sender is the access point and they differ.
   */
  lemma NeverDisturbsExactly(c: Crypto, d: MgmtData)
    requires Leaving(d) && !IsProtected(d) && |d| >= 26 && !Group(Da(d)) && !Group(BssidOf(d)) && !Group(HandlerAddr(d))
    ensures NeverDisturbs(c, d) <==> Da(d) == BssidOf(d) || Sa(d) == BssidOf(d) || Sa(d) == Da(d)
  {
    if CheckAddr(d) == HandlerAddr(d) {
      forall h, addr, info ensures Undisturbed(c, d, Run(c, h), addr, info) {
        LeftAlone(c, d, Run(c, h), addr, info);
      }
    } else {
      Comes(c, BssidOf(d), HandlerAddr(d));
      Disturbed(c, d);
    }
    hide Undisturbed, IsProtected, Leaving, Group, Run, OneStation;
  }

  // ---- Stations that join in any run

  lemma OnStaAt(w: World, bssid: Addr, a: Addr, op: StaOp, id: Addr, addr: Addr)
    requires !Group(bssid) && !Group(a)
    ensures StaAt(OnSta(w, bssid, a, op), id, addr)
            == if id == bssid && addr == a then Some(Apply(op, RecordOf(w, bssid, a))) else StaAt(w, id, addr)
  {
    GetAt(w, bssid, a, id, addr);
    GetAt(w, bssid, a, bssid, a);
    var v := Get(w, bssid, a);
    hide Get, StaAt, Group, Update, Apply, NewSta;
    UpdateAt(v, bssid, Apply(op, StaAt(v, bssid, a).value), id, addr);
  }

  lemma RunMore(c: Crypto, h: seq<Event>, e: Event)
    ensures Run(c, h + [e]) == Step(c, Run(c, h), e)
  {
    assert (h + [e])[..|h|] == h;
    hide Step;
  }

  /** The record of a station that has joined. */
  function Joined(addr: Addr): StaV { NewSta(addr).(state := State3, sec := PROTECTED) }

  lemma Joins(c: Crypto, h: seq<Event>, bssid: Addr, a: Addr, id: Addr, addr: Addr)
    requires !Group(bssid) && !Group(a) && StaAt(Run(c, h), bssid, a).None?
    ensures var w, v := Run(c, h), Run(c, h + Associating(bssid, a));
            && StaAt(v, id, addr) == (if id == bssid && addr == a then Some(Joined(a)) else StaAt(w, id, addr))
            && BssPmks(v, id) == BssPmks(w, id) && v.pmks == w.pmks
  {
    var two := Associating(bssid, a);
    var w, u := Run(c, h), Run(c, h + [two[0]]);
    RunMore(c, h, two[0]);
    RunMore(c, h + [two[0]], two[1]);
    assert h + [two[0]] + [two[1]] == h + two;
    RequestStep(c, bssid, a, w, two[0].info);
    ResponseStep(c, bssid, a, u, two[1].info);
    hide OnSta, RxMgmt, Request, Response, Group, Run, StaAt, BssPmks, RecordOf, SameKeys;
    JoinSteps(w, bssid, a, id, addr);
  }

  lemma JoinSteps(w: World, bssid: Addr, a: Addr, id: Addr, addr: Addr)
    requires !Group(bssid) && !Group(a) && StaAt(w, bssid, a).None?
    ensures var u := OnSta(w, bssid, a, SecLearned(PROTECTED));
            var v := OnSta(u, bssid, a, Associated);
            && StaAt(v, id, addr) == (if id == bssid && addr == a then Some(Joined(a)) else StaAt(w, id, addr))
            && BssPmks(v, id) == BssPmks(w, id) && v.pmks == w.pmks
  {
    var u := OnSta(w, bssid, a, SecLearned(PROTECTED));
    OnStaAt(w, bssid, a, SecLearned(PROTECTED), id, addr);
    OnStaAt(w, bssid, a, SecLearned(PROTECTED), bssid, a);
    OnStaAt(u, bssid, a, Associated, id, addr);
    OnStaQuiet(w, bssid, a, SecLearned(PROTECTED), id, addr);
    OnStaQuiet(u, bssid, a, Associated, id, addr);
    hide OnSta, Group, StaAt, BssPmks, SameKeys, NewSta;
  }

  lemma Start(c: Crypto, id: Addr, addr: Addr)
    ensures StaAt(Run(c, []), id, addr) == None && BssPmks(Run(c, []), id) == [] && Run(c, []).pmks == []
  {
  }

  /** A PMK from the configuration is the only one tried where there was none. */
  lemma OnePmk(c: Crypto, h: seq<Event>, pmk: Pmk, id: Addr, addr: Addr)
    requires BssPmks(Run(c, h), id) == [] && Run(c, h).pmks == []
    ensures var w := Run(c, h + [AddPmk(pmk)]); StaAt(w, id, addr) == StaAt(Run(c, h), id, addr) && Pmks(w, id) == [pmk]
  {
    RunMore(c, h, AddPmk(pmk));
    hide Run;
  }

  // ---- Protected frames

  /** A protected frame opens under the PTK of the station checked. */
  predicate Opens(c: Crypto, w: World, d: MgmtData) {
    var s := StaAt(w, BssidOf(d), CheckAddr(d));
    s.Some? && Body(c, s.value, d).Some? && |Body(c, s.value, d).value| >= 2
  }

  lemma Opened(c: Crypto, w: World, d: MgmtData)
    requires Leaving(d) && IsProtected(d) && !Group(Da(d)) && !Group(BssidOf(d)) && !Group(CheckAddr(d))
    requires Opens(c, w, d)
    ensures Precheck(c, w, d).valid && |Precheck(c, w, d).data| >= 26
  {
    GetKeeps(w, BssidOf(d), CheckAddr(d), BssidOf(d), CheckAddr(d));
    hide Get, StaAt, Body, IsProtected, Update, NotePn, BssidOf, Da, CheckAddr, Subtype, Group;
  }

  /** What such a frame makes of each station's state. */
  lemma OpenedAt(c: Crypto, w: World, d: MgmtData, info: Info, id: Addr, addr: Addr)
    requires Leaving(d) && IsProtected(d) && !Group(Da(d)) && !Group(BssidOf(d)) && !Group(CheckAddr(d))
    requires Opens(c, w, d) && StaAt(w, id, addr).Some?
    ensures var s, t := StaAt(w, id, addr).value, StaAt(RxMgmt(c, w, d, info), id, addr);
            t.Some? && t.value.state == if id == BssidOf(d) && addr == HandlerAddr(d) && !Group(addr)
                                        then Lowered(s, LeavingTo(d)).state else s.state
  {
    var k := Precheck(c, w, d);
    PrecheckKeeps(c, w, d, id, addr);
    Opened(c, w, d);
    HeaderAddresses(d, k.data);
    RxLeaving(c, w, d, info);
    hide RxMgmt, Leave, StaAt, Precheck, Opens, Leaving, LeavingTo, IsProtected, BssidOf, HandlerAddr, CheckAddr, Da,
      ActsOn, Group;
    ActsOnOne(k.data, addr);
    LeaveAt(k.world, k.data, k.valid, LeavingTo(d), id, addr);
  }

  /**
    A protected frame that opens under the PTK of the station checked lowers the state of the
    station acted on, whichever that is.
   */
  lemma OpenedLowers(c: Crypto, w: World, d: MgmtData, info: Info)
    requires Leaving(d) && IsProtected(d) && !Group(Da(d)) && !Group(BssidOf(d))
    requires !Group(CheckAddr(d)) && !Group(HandlerAddr(d))
    requires Opens(c, w, d)
    requires StaAt(w, BssidOf(d), HandlerAddr(d)).Some?
    ensures var t := StaAt(RxMgmt(c, w, d, info), BssidOf(d), HandlerAddr(d));
            t.Some? && t.value.state == Lowered(StaAt(w, BssidOf(d), HandlerAddr(d)).value, LeavingTo(d)).state
  {
    OpenedAt(c, w, d, info, BssidOf(d), HandlerAddr(d));
    hide *;
  }

  /** The frame changes the state of no station but the one checked. */
  ghost predicate OnlyChecked(c: Crypto, w: World, d: MgmtData, info: Info) {
    forall id, addr | StaAt(w, id, addr).Some? && !(id == BssidOf(d) && addr == CheckAddr(d)) ::
      var t := StaAt(RxMgmt(c, w, d, info), id, addr);
      t.Some? && t.value.state == StaAt(w, id, addr).value.state
  }

  /** A state that leaving for `to` does not lower. */
  predicate Settled(s: StaV, to: AssocState) { s.state == State1 || (to == State2 && s.state == State2) }

  /**
    After every run, a leaving frame for one receiver that opens under the PTK of the station
    checked changes the state of no other station exactly if the station acted on is the same, or
    is not listed, or is in no state that the frame lowers.
   */
  lemma OpenedOnlyExactly(c: Crypto, h: seq<Event>, d: MgmtData, info: Info)
    requires Leaving(d) && IsProtected(d) && !Group(Da(d)) && Opens(c, Run(c, h), d)
    ensures var s := StaAt(Run(c, h), BssidOf(d), HandlerAddr(d));
            OnlyChecked(c, Run(c, h), d, info)
            <==> CheckAddr(d) == HandlerAddr(d) || s.None? || Settled(s.value, LeavingTo(d))
  {
    var w, id, a := Run(c, h), BssidOf(d), HandlerAddr(d);
    RunValid(c, h);
    StoredAddresses(w, id, CheckAddr(d));
    hide Run, Valid, Leaving, IsProtected, Opens, StaAt, Group, RxMgmt, CheckAddr, HandlerAddr, BssidOf, Da;
    forall other, addr | StaAt(w, other, addr).Some?
      ensures var s, t := StaAt(w, other, addr).value, StaAt(RxMgmt(c, w, d, info), other, addr);
              t.Some? && t.value.state == if other == id && addr == a then Lowered(s, LeavingTo(d)).state else s.state
    {
      StoredAddresses(w, other, addr);
      OpenedAt(c, w, d, info, other, addr);
    }
  }
}
