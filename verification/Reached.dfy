/**
  Runs of the tracker that lead to the inputs on which its checks fall short: a protected frame
  that opens under another station's PTK, a group-addressed frame whose MMIE is not judged, and
  direct links whose reverse entry stays or whose own entry goes.
 */
module Reached {
  import opened Options
  import opened Octets
  import opened Records
  import opened Handshake
  import opened MgmtFrames
  import opened TdlsTable
  import opened TrackerRuns
  import opened TrackerTables
  import opened StaEvents
  import opened StateRuns
  import opened LeavingRuns
  import Bip
  import Ccmp

  // ---- A message 2 that verifies

  /** A message 2 with nonces of zeros and one octet of key data. */
  function Second(mic: Bip.Tag16): KeyFrame {
    [0, 0, 0, 0, EAPOL_KEY_TYPE_RSN, 0x01, 0x0a] + Zeros(10) + Zeros(32) + Zeros(32) + mic + [0, 1] + [0]
  }

  /** The PTK of a station that has joined and seen no nonce yet. */
  function FirstPtk(c: Crypto, bssid: Addr, a: Addr, pmk: Pmk): Ptk {
    c.prf(PtkInput(pmk, bssid, a, Zeros(32), Zeros(32), false, false))
  }

  function SignedSecond(c: Crypto, kck: Octets): KeyFrame { Second(c.mic(kck, 2, Second(Zeros(16)))) }

  lemma SecondFields(mic: Bip.Tag16)
    ensures var d := Second(mic);
            && Classify(d) == Some(Msg2) && Version(d) == 2 && KeyNonce(d) == Zeros(32) && KeyMic(d) == mic
            && WithoutMic(d) == Second(Zeros(16))
  {
    var d := Second(mic);
    assert d[4] == 2 && d[5] == 0x01 && d[6] == 0x0a && d[97] == 0 && d[98] == 1;
    assert d[17..49] == Zeros(32) && d[81..97] == mic;
    assert WithoutMic(d) == Second(Zeros(16)) by {
      assert d[..81] == Second(Zeros(16))[..81] && d[97..] == Second(Zeros(16))[97..];
    }
  }

  lemma SecondVerifies(c: Crypto, kck: Octets)
    ensures MicOk(c, kck, SignedSecond(c, kck))
  {
    SecondFields(c.mic(kck, 2, Second(Zeros(16))));
    hide Second, Version, WithoutMic, KeyMic;
  }

  // ---- A run with two associated stations, one of which has a PTK

  function Keying(c: Crypto, bssid: Addr, a: Addr, pmk: Pmk): Event {
    Eapol(bssid, a, SignedSecond(c, FirstPtk(c, bssid, a, pmk).kck), None, None)
  }

  function TwoJoin(bssid: Addr, a: Addr, b: Addr): seq<Event> { Associating(bssid, a) + Associating(bssid, b) }

  function TwoJoinOneKeyed(c: Crypto, bssid: Addr, a: Addr, b: Addr, pmk: Pmk): seq<Event> {
    TwoJoin(bssid, a, b) + [AddPmk(pmk)] + [Keying(c, bssid, a, pmk)]
  }

  lemma TwoJoined(c: Crypto, bssid: Addr, a: Addr, b: Addr)
    requires !Group(bssid) && !Group(a) && !Group(b) && a != b
    ensures var w := Run(c, TwoJoin(bssid, a, b));
            && StaAt(w, bssid, a) == Some(Joined(a)) && StaAt(w, bssid, b) == Some(Joined(b))
            && BssPmks(w, bssid) == [] && w.pmks == []
  {
    var h := Associating(bssid, a);
    Start(c, bssid, a);
    Start(c, bssid, b);
    assert [] + h == h;
    hide Run, StaAt, Group, BssPmks, Joined, Associating;
    Joins(c, [], bssid, a, bssid, a);
    Joins(c, [], bssid, a, bssid, b);
    Joins(c, h, bssid, b, bssid, a);
    Joins(c, h, bssid, b, bssid, b);
  }

  lemma MessageAt(c: Crypto, w: World, m: Message, e: Event, addr: Addr)
    requires e.Eapol? && |e.key| >= 99
    requires var id, a := ApOf(m, e.dst, e.src), StaOf(m, e.dst, e.src);
             !Group(id) && !Group(a) && StaAt(w, id, a).Some? && StaAt(w, id, addr).Some?
    ensures var id, a := ApOf(m, e.dst, e.src), StaOf(m, e.dst, e.src);
            var s := StaAt(w, id, a).value;
            StaAt(RxMessage(c, w, m, e), id, addr)
            == if addr == a then Some(StaStep(c, id, s, m, e.key, Pmks(w, id), e.learned)) else StaAt(w, id, addr)
  {
    var id, a := ApOf(m, e.dst, e.src), StaOf(m, e.dst, e.src);
    GetKeeps(w, id, a, id, a);
    GetKeeps(w, id, a, id, addr);
    GetPmks(w, id, a, id);
    hide Get, Group, StaStep, BssPmks, OnMessage, StaAt;
    OnMessageSta(c, Get(w, id, a), id, StaAt(w, id, a).value, m, e, id, addr);
  }

  /** The message gives the station that PTK. */
  lemma SecondInstalls(c: Crypto, bssid: Addr, a: Addr, pmk: Pmk)
    ensures var ptk := FirstPtk(c, bssid, a, pmk);
            StaStep(c, bssid, Joined(a), Msg2, SignedSecond(c, ptk.kck), [pmk], None)
            == Joined(a).(ptk := ptk, ptkSet := true)
  {
    var ptk := FirstPtk(c, bssid, a, pmk);
    var d := SignedSecond(c, ptk.kck);
    SecondFields(c.mic(ptk.kck, 2, Second(Zeros(16))));
    SecondVerifies(c, ptk.kck);
    hide Second, MicOk, KeyNonce, Classify, SignedSecond;
    var s := Joined(a);
    assert s.(snonce := Zeros(32)) == s;
    assert Derived(c, bssid, s, pmk) == ptk;
  }

  lemma KeyingStep(c: Crypto, w: World, bssid: Addr, a: Addr, pmk: Pmk)
    ensures var e := Keying(c, bssid, a, pmk);
            && Classify(e.key) == Some(Msg2) && |e.key| >= 99 && Step(c, w, e) == RxMessage(c, w, Msg2, e)
            && e.learned == None && ApOf(Msg2, e.dst, e.src) == bssid && StaOf(Msg2, e.dst, e.src) == a
  {
    SecondFields(c.mic(FirstPtk(c, bssid, a, pmk).kck, 2, Second(Zeros(16))));
    hide Second, Classify, RxMessage, FirstPtk;
  }

  lemma OneKeyed(c: Crypto, bssid: Addr, a: Addr, b: Addr, pmk: Pmk)
    requires !Group(bssid) && !Group(a) && !Group(b) && a != b
    ensures var w := Run(c, TwoJoinOneKeyed(c, bssid, a, b, pmk));
            && StaAt(w, bssid, a) == Some(Joined(a).(ptk := FirstPtk(c, bssid, a, pmk), ptkSet := true))
            && StaAt(w, bssid, b) == Some(Joined(b))
  {
    var h := TwoJoin(bssid, a, b);
    var e := Keying(c, bssid, a, pmk);
    var w := Run(c, h + [AddPmk(pmk)]);
    TwoJoined(c, bssid, a, b);
    OnePmk(c, h, pmk, bssid, a);
    OnePmk(c, h, pmk, bssid, b);
    RunMore(c, h + [AddPmk(pmk)], e);
    KeyingStep(c, w, bssid, a, pmk);
    SecondInstalls(c, bssid, a, pmk);
    assert e.key == SignedSecond(c, FirstPtk(c, bssid, a, pmk).kck);
    hide Run, StaAt, Group, Pmks, BssPmks, Joined, RxMessage, FirstPtk, SignedSecond, Classify, StaStep, Step, ApOf,
      StaOf, Keying, TwoJoin;
    MessageAt(c, w, Msg2, e, a);
    MessageAt(c, w, Msg2, e, b);
  }

  // ---- A frame from one of them to the other, under the receiver's PTK

  /** A deauthentication from `b` to `a` before it is protected. */
  function Plain(bssid: Addr, a: Addr, b: Addr): Octets {
    [0xc0, 0x00] + Zeros(2) + a + b + bssid + Zeros(2) + Zeros(2)
  }

  function Peer(c: Crypto, bssid: Addr, a: Addr, b: Addr, pmk: Pmk): Octets {
    Ccmp.Protect(c.aes(FirstPtk(c, bssid, a, pmk).tk1), Plain(bssid, a, b), 24, Zeros(6), 0)
  }

  lemma PeerHeader(bssid: Addr, a: Addr, b: Addr)
    ensures var h := Ccmp.ProtectedHeader(Plain(bssid, a, b), 24, Zeros(6), 0);
            |h| == 32 && h[24 + 3] & 0x20 != 0 && Fc(h) == 0x40c0 && Da(h) == a && Sa(h) == b && BssidOf(h) == bssid
  {
    var p := Plain(bssid, a, b);
    var h := Ccmp.ProtectedHeader(p, 24, Zeros(6), 0);
    assert p[4..10] == a && p[10..16] == b && p[16..22] == bssid;
    assert h[24..][3] == 0x20;
    assert h[..24][4..10] == p[4..10] && h[..24][10..16] == p[10..16] && h[..24][16..22] == p[16..22];
    assert GetLe16(p, 0) == 0x00c0;
    assert h[0] == 0xc0 && h[1] == 0x40;
  }

  lemma SameHeader(h: Octets, d: Octets)
    requires |h| == 32 && h <= d
    ensures Fc(d) == Fc(h) && Da(d) == Da(h) && Sa(d) == Sa(h) && BssidOf(d) == BssidOf(h) && d[24 + 3] == h[24 + 3]
  {
    hide Pack16;
    assert d[..32] == h;
    assert d[0] == h[0] && d[1] == h[1] && d[27] == h[27];
    assert d[4..10] == h[4..10] && d[10..16] == h[10..16] && d[16..22] == h[16..22];
  }

  lemma PeerFields(c: Crypto, bssid: Addr, a: Addr, b: Addr, pmk: Pmk)
    ensures var d := Peer(c, bssid, a, b, pmk);
            && |d| == 42 && d[24 + 3] & 0x20 != 0 && Fc(d) == 0x40c0 && Da(d) == a && Sa(d) == b && BssidOf(d) == bssid
            && Ccmp.Unprotect(c.aes(FirstPtk(c, bssid, a, pmk).tk1), d, d[24..]) == Some(Zeros(2))
  {
    var p := Plain(bssid, a, b);
    var aes := c.aes(FirstPtk(c, bssid, a, pmk).tk1);
    Ccmp.RoundTrip(aes, p, 24, Zeros(6), 0);
    PeerHeader(bssid, a, b);
    assert p[24..] == Zeros(2);
    var h, d := Ccmp.ProtectedHeader(p, 24, Zeros(6), 0), Ccmp.Protect(aes, p, 24, Zeros(6), 0);
    assert h <= d;
    assert d == Peer(c, bssid, a, b, pmk);
    hide *;
    SameHeader(h, d);
  }

  lemma PeerOpens(c: Crypto, w: World, bssid: Addr, a: Addr, b: Addr, pmk: Pmk)
    requires a != bssid && b != bssid
    requires StaAt(w, bssid, a) == Some(Joined(a).(ptk := FirstPtk(c, bssid, a, pmk), ptkSet := true))
    ensures var d := Peer(c, bssid, a, b, pmk);
            && |d| >= 24 && Leaving(d) && LeavingTo(d) == State1 && IsProtected(d)
            && Da(d) == a && CheckAddr(d) == a && HandlerAddr(d) == b && BssidOf(d) == bssid && Opens(c, w, d)
  {
    var d := Peer(c, bssid, a, b, pmk);
    PeerFields(c, bssid, a, b, pmk);
    hide StaAt, Peer, Da, Sa, BssidOf, FirstPtk, Ccmp.Unprotect, Fc;
    assert Subtype(d) == WLAN_FC_STYPE_DEAUTH && IsProtected(d);
  }

  /**
    Such a frame comes in reach: in this run it opens under the receiver's PTK and takes the
    sender, an associated station under management frame protection, out of state 3, for every
    choice of primitives.
   */
  lemma OpenedLowersOther(c: Crypto, bssid: Addr, a: Addr, b: Addr, pmk: Pmk, info: Info)
    requires !Group(bssid) && !Group(a) && !Group(b) && a != b && a != bssid && b != bssid
    ensures var w, d := Run(c, TwoJoinOneKeyed(c, bssid, a, b, pmk)), Peer(c, bssid, a, b, pmk);
            && |d| >= 24 && Leaving(d) && IsProtected(d) && CheckAddr(d) == a && HandlerAddr(d) == b && Opens(c, w, d)
            && StaAt(w, bssid, b) == Some(Joined(b)) && Joined(b).state == State3 && Joined(b).sec.mfpc
            && StateOf(Step(c, w, Mgmt(d, info)), bssid, b) == State1
  {
    var w, d := Run(c, TwoJoinOneKeyed(c, bssid, a, b, pmk)), Peer(c, bssid, a, b, pmk);
    OneKeyed(c, bssid, a, b, pmk);
    PeerOpens(c, w, bssid, a, b, pmk);
    hide Run, StaAt, Group, Peer, RxMgmt, Opens, Leaving, LeavingTo, IsProtected, CheckAddr, HandlerAddr, Da, BssidOf,
      TwoJoinOneKeyed, FirstPtk;
    OpenedLowers(c, w, d, info);
  }

  // ---- A frame to a group address whose MMIE is not judged

  function Broadcast(): Addr { seq(6, _ => 0xff) }

  /** A beacon that announces management frame protection. */
  function Announcing(bssid: Addr): Event {
    Mgmt([0x80, 0x00] + Zeros(2) + Broadcast() + bssid + bssid + Zeros(2), Info(None, Some(true), []))
  }

  /** A broadcast deauthentication with an MMIE of key ID 0 and a MIC of zeros. */
  function WithMmie(bssid: Addr): Octets {
    [0xc0, 0x00] + Zeros(2) + Broadcast() + bssid + bssid + Zeros(2) + Zeros(2) + [Bip.WLAN_EID_MMIE, 16] + Zeros(16)
  }

  lemma AnnouncingFields(bssid: Addr)
    ensures var d := Announcing(bssid).frame; |d| >= 24 && BssidOf(d) == bssid && IsBeacon(d)
  {
    var d := Announcing(bssid).frame;
    assert d[0] == 0x80 && d[1] == 0x00 && d[16..22] == bssid;
  }

  lemma WithMmieOctets(bssid: Addr)
    ensures var d := WithMmie(bssid);
            && |d| == 44 && d[0] == 0xc0 && d[4..10] == Broadcast() && d[10..16] == bssid && d[16..22] == bssid
            && HasElement(d) && !KeyIdIs(d, 4) && !KeyIdIs(d, 5)
  {
  }

  function Protected(bssid: Addr, addr: Addr): seq<Event> { Associating(bssid, addr) + [Announcing(bssid)] }

  lemma ProtectedBss(c: Crypto, bssid: Addr, addr: Addr)
    requires !Group(bssid) && !Group(addr)
    ensures var w := Run(c, Protected(bssid, addr));
            && HasBss(w, bssid) && TheBss(w, bssid).mfpc && StaAt(w, bssid, addr) == Some(Joined(addr))
  {
    var h := Associating(bssid, addr);
    var e := Announcing(bssid);
    Comes(c, bssid, addr);
    OneStationAt(bssid, addr, addr);
    RunMore(c, h, e);
    AnnouncingFields(bssid);
    var w := OneStation(bssid, addr);
    assert HasBss(w, bssid) && GetBss(w, bssid) == w;
    hide Run, StaAt, Group, FindBss, PutBss, Announcing, Associating, OneStation, Joined, RxMgmt, IsBeacon, BssidOf;
    BeaconOnly(c, w, e.frame, e.info);
    var n := Announced(TheBss(w, bssid), e.info);
    PutKeeps(w, n, bssid, addr);
    PutBssAt(w, n, bssid);
  }

  /**
    With management frame protection on both sides, a broadcast deauthentication with that MMIE
    takes the station out of state 3, for every choice of primitives and with no IGTK known.
   */
  lemma UnjudgedReleases(c: Crypto, bssid: Addr, addr: Addr, info: Info)
    requires !Group(bssid) && !Group(addr)
    ensures var h, d := Protected(bssid, addr), WithMmie(bssid);
            var w := Run(c, h);
            && HasBss(w, bssid) && TheBss(w, bssid).mfpc && StaAt(w, bssid, addr) == Some(Joined(addr))
            && |d| >= 24 && LeavesFor(d, addr) && HasElement(d) && Unjudged(TheBss(w, bssid), d)
            && StateOf(Run(c, h + [Mgmt(d, info)]), bssid, addr) == State1
  {
    var d := WithMmie(bssid);
    ProtectedBss(c, bssid, addr);
    WithMmieOctets(bssid);
    assert Broadcast()[0] == 0xff && d[4] == d[4..10][0] == 0xff;
    UnjudgedPasses(c, TheBss(Run(c, Protected(bssid, addr)), bssid), d);
    hide Run, StaAt, Group, WithMmie, Broadcast, HasElement, KeyIdIs, GroupOk, FindBss;
    RunGroupLeaving(c, Protected(bssid, addr), d, info, addr);
  }

  // ---- Direct links

  function SetupRequest(token: Octet): Octets { [WLAN_ACTION_TDLS, WLAN_TDLS_SETUP_REQUEST, token, 0, 0] }

  function SetupConfirm(token: Octet): Octets { [WLAN_ACTION_TDLS, WLAN_TDLS_SETUP_CONFIRM, 0, 0, token] }

  function Between(bssid: Addr, init: Addr, resp: Addr, ftie: Option<Octets>): Elems {
    Elems(bssid + init + resp, None, None, ftie)
  }

  function Requesting(bssid: Addr, init: Addr, resp: Addr, token: Octet): Event {
    Tdls(bssid, SetupRequest(token), Some(Between(bssid, init, resp, None)))
  }

  function Confirming(bssid: Addr, init: Addr, resp: Addr, token: Octet, ftie: Option<Octets>): Event {
    Tdls(bssid, SetupConfirm(token), Some(Between(bssid, init, resp, ftie)))
  }

  lemma AskStep(c: Crypto, w: World, bssid: Addr, init: Addr, resp: Addr, token: Octet)
    ensures Step(c, w, Requesting(bssid, init, resp, token))
            == OnLink(c, w, bssid, Request(token), Between(bssid, init, resp, None))
  {
    assert SetupRequest(token)[2..] == [token, 0, 0];
    hide OnLink, Between;
  }

  lemma ConfirmStep(c: Crypto, w: World, bssid: Addr, init: Addr, resp: Addr, token: Octet, ftie: Option<Octets>)
    ensures Step(c, w, Confirming(bssid, init, resp, token, ftie))
            == OnLink(c, w, bssid, Confirmation(true, token), Between(bssid, init, resp, ftie))
  {
    assert SetupConfirm(token)[2..] == [0, 0, token];
    hide OnLink, Between;
  }

  lemma BetweenFields(bssid: Addr, init: Addr, resp: Addr, ftie: Option<Octets>)
    ensures var l := Between(bssid, init, resp, ftie).linkId;
            LinkBssid(l) == bssid && Initiator(l) == init && Responder(l) == resp
  {
  }

  lemma LinkedLists(c: Crypto, b: BssV, seenIn: Addr, e: Elems, token: Octet)
    requires DistinctLinks(b.tdls)
    ensures HasLink(Linked(c, b, Request(token), seenIn, e), Initiator(e.linkId), Responder(e.linkId))
  {
    var init, resp := Initiator(e.linkId), Responder(e.linkId);
    hide FindLink, PutLink, WithLink, Initiator, Responder;
    var n := WithLink(b, init, resp);
    WithLinkAt(b, init, resp, init, resp);
    PutLinkAt(n, TheLink(n, init, resp).(dialogToken := token), init, resp);
  }

  /** A request in a BSS that knows both stations lists their link. */
  lemma RequestLists(c: Crypto, w: World, bssid: Addr, init: Addr, resp: Addr, token: Octet)
    requires Valid(w) && StaAt(w, bssid, init).Some? && StaAt(w, bssid, resp).Some?
    ensures var v := OnLink(c, w, bssid, Request(token), Between(bssid, init, resp, None));
            HasBss(v, bssid) && HasSta(TheBss(v, bssid), init) && HasSta(TheBss(v, bssid), resp)
            && HasLink(TheBss(v, bssid), init, resp)
  {
    var e := Between(bssid, init, resp, None);
    BetweenFields(bssid, init, resp, None);
    TheBssValid(w, bssid);
    var b := TheBss(w, bssid);
    LinkedLists(c, b, bssid, e, token);
    var d := Linked(c, b, Request(token), bssid, e);
    hide Valid, FindBss, FindSta, FindLink, PutBss, Linked, Between, Group, LinkBssid, Initiator, Responder;
    PutBssAt(w, d, bssid);
    SameStas(b, d, init);
    SameStas(b, d, resp);
  }

  /** Two stations join, and the second asks the first for a link. */
  function TwoJoinOneAsks(bssid: Addr, i: Addr, r: Addr, token: Octet): seq<Event> {
    TwoJoin(bssid, i, r) + [Requesting(bssid, r, i, token)]
  }

  /**
    The failing case of the removal comes about: after a request from `r` to `i`, a successful
    confirm of the link from `i` to `r` whose element is cut short leaves both listed.
   */
  lemma ReverseStays(c: Crypto, bssid: Addr, i: Addr, r: Addr, token: Octet, ftie: Octets)
    requires !Group(bssid) && !Group(i) && !Group(r) && i != r && |ftie| < 82
    ensures var v := Run(c, TwoJoinOneAsks(bssid, i, r, token) + [Confirming(bssid, i, r, token, Some(ftie))]);
            HasBss(v, bssid) && HasLink(TheBss(v, bssid), r, i)
            && HasLink(TheBss(v, bssid), i, r) && TheLink(TheBss(v, bssid), i, r).linkUp
  {
    var h, two := TwoJoinOneAsks(bssid, i, r, token), TwoJoin(bssid, i, r);
    TwoJoined(c, bssid, i, r);
    RunValid(c, two);
    RunMore(c, two, Requesting(bssid, r, i, token));
    AskStep(c, Run(c, two), bssid, r, i, token);
    RequestLists(c, Run(c, two), bssid, r, i, token);
    RunMore(c, h, Confirming(bssid, i, r, token, Some(ftie)));
    ConfirmStep(c, Run(c, h), bssid, i, r, token, Some(ftie));
    BetweenFields(bssid, i, r, Some(ftie));
    hide Run, Step, StaAt, Group, Valid, TwoJoin, FindBss, FindSta, FindLink, OnLink, LinkBssid, Initiator, Responder,
      Requesting, Confirming;
    RunReverseGone(c, h, bssid, Between(bssid, i, r, Some(ftie)), token);
  }

  /** A station's confirm with itself, for a link that it asked itself for, takes the link away. */
  lemma SelfGoes(c: Crypto, bssid: Addr, i: Addr, token: Octet)
    requires !Group(bssid) && !Group(i)
    ensures var u := Run(c, Associating(bssid, i) + [Requesting(bssid, i, i, token)]);
            var v := Run(c, Associating(bssid, i) + [Requesting(bssid, i, i, token)]
                            + [Confirming(bssid, i, i, token, None)]);
            && HasBss(u, bssid) && HasLink(TheBss(u, bssid), i, i)
            && HasBss(v, bssid) && !HasLink(TheBss(v, bssid), i, i)
  {
    var one := Associating(bssid, i);
    var h := one + [Requesting(bssid, i, i, token)];
    Start(c, bssid, i);
    assert [] + one == one;
    Joins(c, [], bssid, i, bssid, i);
    RunValid(c, one);
    RunMore(c, one, Requesting(bssid, i, i, token));
    AskStep(c, Run(c, one), bssid, i, i, token);
    RequestLists(c, Run(c, one), bssid, i, i, token);
    RunMore(c, h, Confirming(bssid, i, i, token, None));
    ConfirmStep(c, Run(c, h), bssid, i, i, token, None);
    BetweenFields(bssid, i, i, None);
    hide Run, Step, StaAt, Group, Valid, Associating, FindBss, FindSta, FindLink, OnLink, LinkBssid, Initiator,
      Responder, Requesting, Confirming;
    RunSelfConfirm(c, h, bssid, Between(bssid, i, i, None), token);
  }
}
