/**
  What every event does to each direct link of each BSS, read off the octets of the frame
  (rx_tdls.c, and the leaving frames of rx_mgmt.c).
 */
module LinkEvents {
  import opened Options
  import opened Octets
  import opened Records
  import opened Handshake
  import opened MgmtFrames
  import opened TdlsTable
  import opened TrackerRuns
  import opened TrackerTables
  import opened StaEvents

  // ---- The reference

  function LinksOf(w: World, id: Addr): seq<TdlsV> { if HasBss(w, id) then TheBss(w, id).tdls else [] }

  /** The first entry for an ordered pair of stations. */
  function EntryOf(links: seq<TdlsV>, i: Addr, r: Addr): (t: Option<TdlsV>)
    ensures t.Some? ==> t.value.init == i && t.value.resp == r
  {
    if FindLink(links, i, r) < |links| then Some(links[FindLink(links, i, r)]) else None
  }

  function LinkAt(w: World, id: Addr, i: Addr, r: Addr): (t: Option<TdlsV>)
    ensures t.Some? ==> t.value.init == i && t.value.resp == r
  {
    EntryOf(LinksOf(w, id), i, r)
  }

  /** A setup request, response or confirm, or a teardown, of full length. */
  predicate IsLinkFrame(p: Octets) {
    |p| >= 4 && p[0] == 12
    && ((p[1] == 0 && |p| >= 5) || (p[1] == 1 && |p| >= 7) || (p[1] == 2 && |p| >= 5) || p[1] == 3)
  }

  /** Its elements name two stations of the BSS, which is the one they name or else the one it was seen in. */
  predicate LinksIn(w: World, seenIn: Addr, l: LinkId, id: Addr) {
    && HasBss(w, id) && (if HasBss(w, l[..6]) then id == l[..6] else id == seenIn)
    && StaAt(w, id, l[6..12]).Some? && StaAt(w, id, l[12..18]).Some?
  }

  /** What the code in the fast-transition element is computed of. */
  function CodeInput(number: Octet, l: LinkId, rsn: Octets, timeout: Octets, f: Ftie): Octets {
    l[6..12] + l[12..18] + [number]
    + ([101, 18] + l)
    + ([48, Byte(|rsn| % 256)] + rsn)
    + ([56, Byte(|timeout| % 256)] + timeout)
    + ([55, Byte(|f| % 256)] + (f[..2] + Zeros(16) + f[18..]))
  }

  /** The code of a frame, which is number `number` of the setup, is right under a key. */
  predicate CodeRight(c: Crypto, kck: Octets, number: Octet, e: Elems, f: Ftie) {
    e.rsnIe.Some? && e.timeoutInt.Some?
    && c.omac(kck, CodeInput(number, e.linkId, e.rsnIe.value, e.timeoutInt.value, f)) == f[2..18]
  }

  /** The entry after its keys are derived, with the dialog token if the frame's code is right. */
  function Rekeyed(c: Crypto, t: TdlsV, seenIn: Addr, number: Octet, token: Octet, e: Elems, f: Ftie): (u: TdlsV)
    ensures u.init == t.init && u.resp == t.resp
  {
    var keys := c.kdf(c.hash(Lesser(f[18..50], f[50..82]) + Greater(f[18..50], f[50..82])),
                      Lesser(t.init, t.resp) + Greater(t.init, t.resp) + seenIn);
    var k := t.(tpkKck := keys.0, tpkTk := keys.1);
    if CodeRight(c, keys.0, number, e, f) then k.(dialogToken := token) else k
  }

  /** What a frame makes of the entry for its initiator and responder. */
  function EntryAfter(c: Crypto, t: TdlsV, seenIn: Addr, p: Octets, e: Elems): (u: TdlsV)
    requires IsLinkFrame(p)
    ensures u.init == t.init && u.resp == t.resp
  {
    if p[1] == 0 then t.(dialogToken := p[2])
    else if p[1] == 3 then t.(linkUp := false)
    else if p[2] != 0 || p[3] != 0 then t
    else
      var u := if p[1] == 2 then t.(linkUp := true) else t;
      if e.ftie.None? || |e.ftie.value| < 82 then u
      else Rekeyed(c, u, seenIn, if p[1] == 1 then 2 else 3, p[4], e, e.ftie.value)
  }

  /** A successful confirm takes the reverse entry away, unless its element is cut short. */
  predicate TakesReverse(p: Octets, e: Elems)
    requires IsLinkFrame(p)
  {
    p[1] == 2 && p[2] == 0 && p[3] == 0 && (e.ftie.None? || |e.ftie.value| >= 82)
  }

  /** The entry for `i` and `r` after a setup or teardown frame of the BSS. */
  function SetupAfter(c: Crypto, old_: Option<TdlsV>, i: Addr, r: Addr, seenIn: Addr, p: Octets, e: Elems)
    : Option<TdlsV>
    requires IsLinkFrame(p)
  {
    var init, resp := e.linkId[6..12], e.linkId[12..18];
    if TakesReverse(p, e) && i == resp && r == init then None
    else if i == init && r == resp then
      var t := if old_.Some? then old_.value else TdlsV(i, r, Zeros(16), Zeros(16), false, 0);
      Some(EntryAfter(c, t, seenIn, p, e))
    else old_
  }

  /** A valid deauthentication or disassociation takes down the links of the station that it names. */
  predicate TakesDown(c: Crypto, w: World, f: MgmtData, id: Addr, i: Addr, r: Addr) {
    && (f[0] & 0xf0 == 0xa0 || f[0] & 0xf0 == 0xc0) && f[16..22] == id && Judged(c, w, id, f)
    && ActedSta(f)[0] & 0x01 == 0 && (i == ActedSta(f) || r == ActedSta(f))
  }

  /** The entry for `i` and `r` in BSS `id` after an event. */
  function LinkAfter(c: Crypto, w: World, e: Event, id: Addr, i: Addr, r: Addr): Option<TdlsV> {
    var t := LinkAt(w, id, i, r);
    match e
    case Mgmt(f, _) =>
      if t.Some? && |f| >= 24 && TakesDown(c, w, f, id, i, r) then Some(t.value.(linkUp := false)) else t
    case Tdls(bssid, p, elems) =>
      if IsLinkFrame(p) && elems.Some? && LinksIn(w, bssid, elems.value.linkId, id)
      then SetupAfter(c, t, i, r, bssid, p, elems.value) else t
    case _ => t
  }

  // ---- Setup and teardown frames

  lemma SetupMicIs(c: Crypto, kck: Octets, number: Octet, e: Elems)
    requires FullFtie(e)
    ensures SetupMicOk(c, kck, number, e) == CodeRight(c, kck, number, e, e.ftie.value)
  {
    var l := e.linkId;
    assert l[6..] == l[6..12] + l[12..18];
  }

  lemma RekeyedIs(c: Crypto, t: TdlsV, seenIn: Addr, number: Octet, token: Octet, e: Elems)
    requires FullFtie(e)
    ensures Answered(c, t, seenIn, e, number, token) == Rekeyed(c, t, seenIn, number, token, e, e.ftie.value)
  {
    var f := e.ftie.value;
    TpkByNumber(c, t.init, t.resp, seenIn, f[18..50], f[50..82]);
    SetupMicIs(c, TdlsTable.Keyed(c, t, seenIn, f).tpkKck, number, e);
    hide SetupMicOk, CodeRight, Tpk, Lesser, Greater;
  }

  lemma ZeroField(lo: Octet, hi: Octet)
    ensures Pack16(lo, hi) == 0 <==> lo == 0 && hi == 0
  {
  }

  /** Which frame a payload is, in octets. */
  lemma LinkOpIs(p: Octets)
    ensures LinkOpOf(p).Some? <==> IsLinkFrame(p)
    ensures IsLinkFrame(p) ==>
              var ok := p[2] == 0 && p[3] == 0;
              && (p[1] == 0 ==> LinkOpOf(p) == Some(Request(p[2])))
              && (p[1] == 1 ==> LinkOpOf(p) == Some(Response(ok, p[4])))
              && (p[1] == 2 ==> LinkOpOf(p) == Some(Confirmation(ok, p[4])))
              && (p[1] == 3 ==> LinkOpOf(p) == Some(TornDown))
  {
    if |p| >= 4 {
      ZeroField(p[2], p[3]);
      assert p[2..][0] == p[2] && p[2..][1] == p[3];
    }
    hide Pack16;
  }

  lemma PutEntry(b: BssV, t: TdlsV, i: Addr, r: Addr)
    requires HasLink(b, t.init, t.resp) && DistinctLinks(b.tdls)
    ensures DistinctLinks(PutLink(b, t).tdls)
    ensures EntryOf(PutLink(b, t).tdls, i, r) == if i == t.init && r == t.resp then Some(t) else EntryOf(b.tdls, i, r)
  {
    PutLinkAt(b, t, i, r);
    hide PutLink, FindLink, DistinctLinks;
  }

  lemma WithoutEntry(b: BssV, init: Addr, resp: Addr, i: Addr, r: Addr)
    requires DistinctLinks(b.tdls)
    ensures EntryOf(WithoutLink(b, init, resp).tdls, i, r)
            == if i == init && r == resp then None else EntryOf(b.tdls, i, r)
  {
    WithoutLinkAt(b, init, resp, i, r);
    hide WithoutLink, FindLink, DistinctLinks;
  }

  lemma WithEntry(b: BssV, init: Addr, resp: Addr, i: Addr, r: Addr)
    requires DistinctLinks(b.tdls)
    ensures var c := WithLink(b, init, resp);
            && DistinctLinks(c.tdls)
            && EntryOf(c.tdls, i, r)
               == if i == init && r == resp && EntryOf(b.tdls, i, r).None?
                  then Some(TdlsV(i, r, Zeros(16), Zeros(16), false, 0)) else EntryOf(b.tdls, i, r)
  {
    WithLinkAt(b, init, resp, i, r);
    if !HasLink(b, init, resp) {
      assert ([NewLink(init, resp)] + b.tdls)[1..] == b.tdls;
    }
    hide DistinctLinks;
  }

  /** The entry named by the frame. */
  lemma NamedEntry(c: Crypto, t: TdlsV, seenIn: Addr, p: Octets, e: Elems)
    requires IsLinkFrame(p)
    ensures p[1] == 0 ==> EntryAfter(c, t, seenIn, p, e) == t.(dialogToken := p[2])
    ensures p[1] == 3 ==> EntryAfter(c, t, seenIn, p, e) == t.(linkUp := false)
    ensures p[1] == 1 && p[2] == 0 && p[3] == 0 && FullFtie(e) ==>
              EntryAfter(c, t, seenIn, p, e) == Answered(c, t, seenIn, e, 2, p[4])
    ensures p[1] == 2 && p[2] == 0 && p[3] == 0 ==> EntryAfter(c, t, seenIn, p, e) == Risen(c, t, seenIn, e, p[4])
    ensures p[1] == 1 && !FullFtie(e) ==> EntryAfter(c, t, seenIn, p, e) == t
    ensures p[1] != 0 && p[1] != 3 && (p[2] != 0 || p[3] != 0) ==> EntryAfter(c, t, seenIn, p, e) == t
  {
    if FullFtie(e) && (p[1] == 1 || p[1] == 2) {
      RekeyedIs(c, t, seenIn, 2, p[4], e);
      RekeyedIs(c, t.(linkUp := true), seenIn, 3, p[4], e);
    }
    hide Answered, Rekeyed;
  }

  lemma PutItself(b: BssV, i: Addr, r: Addr)
    requires HasLink(b, i, r)
    ensures PutLink(b, TheLink(b, i, r)) == b
  {
    var k := FindLink(b.tdls, i, r);
    assert b.tdls[k := b.tdls[k]] == b.tdls;
  }

  /** The table of the BSS after a frame. */
  lemma LinkedIs(c: Crypto, b: BssV, seenIn: Addr, p: Octets, e: Elems)
    requires IsLinkFrame(p)
    ensures LinkOpOf(p).Some?
    ensures var init, resp := Initiator(e.linkId), Responder(e.linkId);
            var n := WithLink(b, init, resp);
            var up := PutLink(n, EntryAfter(c, TheLink(n, init, resp), seenIn, p, e));
            Linked(c, b, LinkOpOf(p).value, seenIn, e)
            == if TakesReverse(p, e) then WithoutLink(up, resp, init) else up
  {
    LinkOpIs(p);
    var init, resp := Initiator(e.linkId), Responder(e.linkId);
    var n := WithLink(b, init, resp);
    PutItself(n, init, resp);
    NamedEntry(c, TheLink(n, init, resp), seenIn, p, e);
    hide EntryAfter, Answered, Risen, WithLink, PutLink, WithoutLink, FindLink, LinkOpOf, Initiator, Responder;
  }

  /** An entry put in, and perhaps the reverse one taken out. */
  lemma TableEntry(b: BssV, t: TdlsV, takes: bool, i: Addr, r: Addr)
    requires HasLink(b, t.init, t.resp) && DistinctLinks(b.tdls)
    ensures var up := PutLink(b, t);
            EntryOf((if takes then WithoutLink(up, t.resp, t.init) else up).tdls, i, r)
            == if takes && i == t.resp && r == t.init then None
               else if i == t.init && r == t.resp then Some(t) else EntryOf(b.tdls, i, r)
  {
    PutEntry(b, t, i, r);
    WithoutEntry(PutLink(b, t), t.resp, t.init, i, r);
    hide EntryOf, PutLink, WithoutLink, DistinctLinks, FindLink;
  }

  /** The entry that a frame starts from. */
  lemma NamedStart(b: BssV, init: Addr, resp: Addr)
    requires DistinctLinks(b.tdls)
    ensures var t := EntryOf(b.tdls, init, resp);
            TheLink(WithLink(b, init, resp), init, resp)
            == if t.Some? then t.value else TdlsV(init, resp, Zeros(16), Zeros(16), false, 0)
  {
    WithEntry(b, init, resp, init, resp);
    hide WithLink, DistinctLinks;
  }

  /** What a frame makes of the table of its BSS. */
  lemma LinkedEntry(c: Crypto, b: BssV, seenIn: Addr, p: Octets, e: Elems, i: Addr, r: Addr)
    requires DistinctLinks(b.tdls) && IsLinkFrame(p)
    ensures LinkOpOf(p).Some?
    ensures EntryOf(Linked(c, b, LinkOpOf(p).value, seenIn, e).tdls, i, r)
            == SetupAfter(c, EntryOf(b.tdls, i, r), i, r, seenIn, p, e)
  {
    hide EntryOf, EntryAfter, WithLink, PutLink, WithoutLink, FindLink, DistinctLinks, LinkOpOf, IsLinkFrame,
      TakesReverse, Linked, HasLink, TheLink;
    var init, resp := Initiator(e.linkId), Responder(e.linkId);
    LinkedIs(c, b, seenIn, p, e);
    var n := WithLink(b, init, resp);
    var t := TheLink(n, init, resp);
    WithEntry(b, init, resp, i, r);
    NamedStart(b, init, resp);
    TableEntry(n, EntryAfter(c, t, seenIn, p, e), TakesReverse(p, e), i, r);
  }

  // ---- Steps that leave the links alone

  lemma PutLinks(w: World, b: BssV, id: Addr)
    requires HasBss(w, b.bssid)
    ensures LinksOf(PutBss(w, b), id) == if id == b.bssid then b.tdls else LinksOf(w, id)
  {
    PutBssAt(w, b, id);
    hide PutBss, FindBss;
  }

  lemma GetBssLinks(w: World, bssid: Addr, id: Addr)
    ensures LinksOf(GetBss(w, bssid), id) == LinksOf(w, id)
  {
    GetBssAt(w, bssid, id);
    hide GetBss, FindBss, NewBss, Group;
  }

  lemma GetLinks(w: World, bssid: Addr, a: Addr, id: Addr)
    ensures LinksOf(Get(w, bssid, a), id) == LinksOf(w, id)
  {
    GetBssLinks(w, bssid, id);
    var v := GetBss(w, bssid);
    hide GetBss, FindBss, FindSta, PutBss, NewSta, Group;
    if HasBss(v, bssid) && !Group(bssid) {
      PutLinks(v, GetSta(TheBss(v, bssid), a), id);
    }
  }

  lemma UpdateLinks(w: World, bssid: Addr, s: StaV, id: Addr)
    requires StaAt(w, bssid, s.addr).Some?
    ensures LinksOf(Update(w, bssid, s), id) == LinksOf(w, id)
  {
    PutLinks(w, PutSta(TheBss(w, bssid), s), id);
    hide PutBss, FindBss, FindSta;
  }

  lemma OnStaLinks(w: World, bssid: Addr, a: Addr, op: StaOp, id: Addr)
    ensures LinksOf(OnSta(w, bssid, a, op), id) == LinksOf(w, id)
  {
    GetLinks(w, bssid, a, id);
    var v := Get(w, bssid, a);
    hide Get, StaAt, Group, Update, Apply, LinksOf;
    if !Group(bssid) && !Group(a) && StaAt(v, bssid, a).Some? {
      UpdateLinks(v, bssid, Apply(op, StaAt(v, bssid, a).value), id);
    }
  }

  lemma BeaconLinks(w: World, d: MgmtData, info: Info, id: Addr)
    ensures LinksOf(Beacon(w, d, info), id) == LinksOf(w, id)
  {
    var bssid := BssidOf(d);
    GetBssLinks(w, bssid, id);
    var v := GetBss(w, bssid);
    hide GetBss, Group, FindBss, PutBss, Announced;
    if HasBss(v, bssid) && !Group(bssid) {
      PutLinks(v, Announced(TheBss(v, bssid), info), id);
    }
  }

  lemma BipLinks(c: Crypto, w: World, d: MgmtData, id: Addr)
    ensures LinksOf(CheckBip(c, w, d).0, id) == LinksOf(w, id)
  {
    var bssid := BssidOf(d);
    GetBssLinks(w, bssid, id);
    var v := GetBss(w, bssid);
    hide GetBss, Group, FindBss, PutBss, CheckMmie, Subtype;
    if HasBss(v, bssid) && !Group(bssid) {
      PutLinks(v, CheckMmie(c, TheBss(v, bssid), d).0, id);
    }
  }

  lemma PrecheckLinks(c: Crypto, w: World, d: MgmtData, id: Addr)
    ensures LinksOf(Precheck(c, w, d).world, id) == LinksOf(w, id)
  {
    var bssid, a := BssidOf(d), CheckAddr(d);
    var v := Get(w, bssid, a);
    GetLinks(w, bssid, a, id);
    BipLinks(c, w, d, id);
    Decrypted(c, w, d);
    hide CheckBip, Get, StaAt, Group, NotePn, Update, LinksOf, RecordOf, Subtype, Da, BssidOf, CheckAddr, IsProtected,
      MgmtCcmpDecrypt, Opened;
    if Opened(c, w, d) {
      UpdateLinks(v, bssid, NotePn(RecordOf(w, bssid, a), d), id);
    }
  }

  lemma MessageLinks(c: Crypto, w: World, m: Message, e: Event, id: Addr)
    requires e.Eapol? && |e.key| >= 99
    ensures LinksOf(RxMessage(c, w, m, e), id) == LinksOf(w, id)
  {
    var ap, a := ApOf(m, e.dst, e.src), StaOf(m, e.dst, e.src);
    var v := Get(w, ap, a);
    GetLinks(w, ap, a, id);
    hide Get, Group, StaAt, OnMessage, LinksOf;
    if !Group(ap) && !Group(a) && StaAt(v, ap, a).Some? {
      OnMessageLinks(c, v, ap, StaAt(v, ap, a).value, m, e, id);
    }
  }

  lemma OnMessageLinks(c: Crypto, v: World, ap: Addr, s: StaV, m: Message, e: Event, id: Addr)
    requires e.Eapol? && |e.key| >= 99 && StaAt(v, ap, s.addr).Some?
    ensures LinksOf(OnMessage(c, v, ap, s, m, e), id) == LinksOf(v, id)
  {
    var b := Handled(c, TheBss(v, ap), s, v.pmks, m, e);
    assert b.tdls == TheBss(v, ap).tdls && b.bssid == ap by {
      hide StaStep, KdeTrusted, FindBss, FindSta;
    }
    PutLinks(v, b, id);
    hide Handled, FindBss, FindSta, PutBss;
  }

  lemma DataLinks(w: World, e: Event, id: Addr)
    requires e.DataDecrypted?
    ensures LinksOf(NoteDataPn(w, e), id) == LinksOf(w, id)
  {
    GetLinks(w, e.apId, e.staAddr, id);
    var v := Get(w, e.apId, e.staAddr);
    hide Get, StaAt, Group, Update, LinksOf;
    if !Group(e.apId) && !Group(e.staAddr) && StaAt(v, e.apId, e.staAddr).Some? && e.tid <= 16 {
      UpdateLinks(v, e.apId, NoteTid(StaAt(v, e.apId, e.staAddr).value, e.toDs, e.tid, e.pn), id);
    }
  }

  lemma PmkLinks(w: World, bssid: Addr, pmk: Pmk, id: Addr)
    ensures LinksOf(AddedBssPmk(w, bssid, pmk), id) == LinksOf(w, id)
  {
    hide PutBss, FindBss;
    if HasBss(w, bssid) {
      PutLinks(w, TheBss(w, bssid).(pmks := [pmk] + TheBss(w, bssid).pmks), id);
    }
  }

  // ---- Setup and teardown frames in the tracker

  /** The BSS of a link. */
  lemma KnownIn(w: World, seenIn: Addr, l: LinkId, id: Addr)
    ensures LinksIn(w, seenIn, l, id) <==> Known(w, l, seenIn) && BssOf(w, l, seenIn).bssid == id
    ensures Known(w, l, seenIn) && BssOf(w, l, seenIn).bssid == id ==> BssOf(w, l, seenIn).tdls == LinksOf(w, id)
    ensures Known(w, l, seenIn) ==> HasBss(w, BssOf(w, l, seenIn).bssid)
  {
    hide FindBss, FindSta;
  }

  lemma KnownValid(w: World, seenIn: Addr, l: LinkId)
    requires Valid(w) && Known(w, l, seenIn)
    ensures DistinctLinks(BssOf(w, l, seenIn).tdls)
  {
    hide Valid, DistinctLinks, FindBss, FindSta;
    TheBssValid(w, LinkBss(w, l, seenIn).value);
  }

  lemma TdlsLink(c: Crypto, w: World, bssid: Addr, p: Octets, e: Elems, id: Addr, i: Addr, r: Addr)
    requires Valid(w) && IsLinkFrame(p) && LinkOpOf(p).Some?
    ensures LinkAt(OnLink(c, w, bssid, LinkOpOf(p).value, e), id, i, r)
            == if LinksIn(w, bssid, e.linkId, id) then SetupAfter(c, LinkAt(w, id, i, r), i, r, bssid, p, e)
               else LinkAt(w, id, i, r)
  {
    KnownIn(w, bssid, e.linkId, id);
    hide Valid, Known, BssOf, LinksIn, IsLinkFrame, LinkOpOf, Linked, SetupAfter, EntryOf, DistinctLinks, PutBss,
      FindBss, LinksOf;
    if Known(w, e.linkId, bssid) {
      var b := BssOf(w, e.linkId, bssid);
      KnownValid(w, bssid, e.linkId);
      LinkedEntry(c, b, bssid, p, e, i, r);
      PutLinks(w, Linked(c, b, LinkOpOf(p).value, bssid, e), id);
    }
  }

  lemma TdlsStep(c: Crypto, w: World, bssid: Addr, p: Octets, elems: Option<Elems>, id: Addr, i: Addr, r: Addr)
    requires Valid(w)
    ensures LinkAt(RxTdls(c, w, bssid, p, elems), id, i, r)
            == if IsLinkFrame(p) && elems.Some? && LinksIn(w, bssid, elems.value.linkId, id)
               then SetupAfter(c, LinkAt(w, id, i, r), i, r, bssid, p, elems.value) else LinkAt(w, id, i, r)
  {
    hide Valid, LinksIn, IsLinkFrame, LinkOpOf, SetupAfter, OnLink, LinkAt;
    LinkOpIs(p);
    if elems.Some? && IsLinkFrame(p) {
      TdlsLink(c, w, bssid, p, elems.value, id, i, r);
    }
  }

  // ---- Leaving frames

  lemma DownEntry(links: seq<TdlsV>, a: Addr, i: Addr, r: Addr)
    ensures var t := EntryOf(links, i, r);
            EntryOf(LinkDown(links, a), i, r)
            == if t.Some? && (i == a || r == a) then Some(t.value.(linkUp := false)) else t
  {
    var k := FindLink(links, i, r);
    if k < |links| {
      FoundLink(LinkDown(links, a), i, r, k);
    } else {
      NoLink(LinkDown(links, a), i, r);
    }
    hide FindLink;
  }

  lemma LeftLinks(b: BssV, d: MgmtData, valid: bool, to: AssocState)
    ensures var a := HandlerAddr(d);
            Left(b, d, valid, to).tdls
            == if |d| >= 26 && valid && !Group(a) && HasSta(b, a) then LinkDown(b.tdls, a) else b.tdls
  {
    hide FindSta, HandlerAddr, LinkDown, LowerAll, Lowered, Da, Group;
  }

  lemma LeaveLinks(w: World, d: MgmtData, valid: bool, to: AssocState, id: Addr)
    requires !Group(id)
    ensures var a := HandlerAddr(d);
            LinksOf(Leave(w, d, valid, to), id)
            == if id == BssidOf(d) && |d| >= 26 && valid && !Group(a) then LinkDown(LinksOf(w, id), a)
               else LinksOf(w, id)
  {
    var bssid, a := BssidOf(d), HandlerAddr(d);
    var v := Get(w, bssid, a);
    GetLinks(w, bssid, a, id);
    hide Get, Group, HandlerAddr, BssidOf, LinkDown, PutBss, Left, NewSta, FindBss, FindSta;
    if !Group(bssid) && !Group(a) {
      GetOutcome(w, bssid, a, bssid, a);
    }
    if HasBss(v, bssid) && !Group(bssid) {
      LeftLinks(TheBss(v, bssid), d, valid, to);
      PutLinks(v, Left(TheBss(v, bssid), d, valid, to), id);
    }
  }

  lemma LeavingTable(c: Crypto, w: World, d: MgmtData, info: Info, id: Addr)
    requires Leaving(d) && !Group(id)
    ensures var a := HandlerAddr(d);
            LinksOf(RxMgmt(c, w, d, info), id)
            == if id == BssidOf(d) && Judged(c, w, id, d) && !Group(a) then LinkDown(LinksOf(w, id), a)
               else LinksOf(w, id)
  {
    var k := Precheck(c, w, d);
    PrecheckKeeps(c, w, d, id, id);
    PrecheckLinks(c, w, d, id);
    SameActsOn(d, k.data, id);
    RxLeaving(c, w, d, info);
    hide Precheck, RxMgmt, Leave, LinksOf, Keeps, KeepsLinks, Leaving, LeavingTo, Judged, ActsOn, LinkDown, HandlerAddr,
      BssidOf, Group;
    LeaveLinks(k.world, k.data, k.valid, LeavingTo(d), id);
    if id == BssidOf(d) {
      LeavingJudged(c, w, d);
    }
  }

  lemma LeavingLink(c: Crypto, w: World, d: MgmtData, info: Info, id: Addr, i: Addr, r: Addr)
    requires Leaving(d) && !Group(id)
    ensures LinkAt(RxMgmt(c, w, d, info), id, i, r) == LinkAfter(c, w, Mgmt(d, info), id, i, r)
  {
    LeavingTable(c, w, d, info, id);
    LeavingKinds(d);
    AddressOctets(d);
    hide RxMgmt, LinksOf, EntryOf, Leaving, LeavingTo, Judged, LinkDown, HandlerAddr, BssidOf, ActedSta;
    DownEntry(LinksOf(w, id), HandlerAddr(d), i, r);
  }

  lemma DispatchLinks(w: World, d: MgmtData, subtype: bv16, valid: bool, info: Info, id: Addr)
    requires subtype != WLAN_FC_STYPE_DEAUTH && subtype != WLAN_FC_STYPE_DISASSOC
    ensures LinksOf(Dispatch(w, d, subtype, valid, info), id) == LinksOf(w, id)
  {
    hide LinksOf, Leave, OnSta, Beacon, AuthOp, AssocReqOp, AssocRespOp, HandlerAddr, Group, BssidOf, Sa, Da;
    if subtype == WLAN_FC_STYPE_BEACON || subtype == WLAN_FC_STYPE_PROBE_RESP {
      BeaconLinks(w, d, info, id);
    } else if subtype == WLAN_FC_STYPE_AUTH {
      OnStaLinks(w, BssidOf(d), HandlerAddr(d), AuthOp(d), id);
    } else if subtype == WLAN_FC_STYPE_ASSOC_REQ {
      OnStaLinks(w, BssidOf(d), Sa(d), AssocReqOp(d, 4, info), id);
    } else if subtype == WLAN_FC_STYPE_REASSOC_REQ {
      OnStaLinks(w, BssidOf(d), Sa(d), AssocReqOp(d, 10, info), id);
    } else if subtype == WLAN_FC_STYPE_ASSOC_RESP || subtype == WLAN_FC_STYPE_REASSOC_RESP {
      OnStaLinks(w, BssidOf(d), Da(d), AssocRespOp(d), id);
    } else {
      OnStaLinks(w, BssidOf(d), HandlerAddr(d), Nothing, id);
    }
  }

  lemma OtherLink(c: Crypto, w: World, d: MgmtData, info: Info, id: Addr, i: Addr, r: Addr)
    requires !Leaving(d)
    ensures LinkAt(RxMgmt(c, w, d, info), id, i, r) == LinkAfter(c, w, Mgmt(d, info), id, i, r)
  {
    var k := Precheck(c, w, d);
    PrecheckLinks(c, w, d, id);
    PrecheckKeeps(c, w, d, id, id);
    LeavingKinds(d);
    hide Precheck, LinksOf, EntryOf, Judged, Dispatch, ActedSta, Subtype, Keeps, KeepsLinks;
    DispatchLinks(k.world, k.data, Subtype(d), k.valid, info, id);
  }

  /**
    Every step of a well-formed tracker does to each direct link exactly what the octets of the
    event say.
   */
  lemma StepLink(c: Crypto, w: World, e: Event, id: Addr, i: Addr, r: Addr)
    requires !e.Flush? && !Group(id) && Valid(w)
    ensures LinkAt(Step(c, w, e), id, i, r) == LinkAfter(c, w, e, id, i, r)
  {
    hide Valid, RxMgmt, NoteDataPn, RxMessage, AddedBssPmk, Group, LinksOf, EntryOf, TakesDown, LinksIn, IsLinkFrame,
      SetupAfter, Leaving, RxTdls;
    match e
    case Mgmt(frame, info) =>
      if |frame| >= 24 {
        if Leaving(frame) {
          LeavingLink(c, w, frame, info, id, i, r);
        } else {
          OtherLink(c, w, frame, info, id, i, r);
        }
      } else {
        ShortFrame(c, w, frame, info);
      }
    case Eapol(_, _, key, _, _) =>
      if Classify(key).Some? {
        MessageLinks(c, w, Classify(key).value, e, id);
      }
    case Tdls(bssid, payload, elems) => TdlsStep(c, w, bssid, payload, elems, id, i, r);
    case DataDecrypted(_, _, _, _, _) => DataLinks(w, e, id);
    case AddPmk(pmk) => SameLinks(w, w.(pmks := [pmk] + w.pmks), id);
    case AddBssPmk(bssid, pmk) => PmkLinks(w, bssid, pmk, id);
  }

  lemma SameLinks(w: World, v: World, id: Addr)
    requires w.bss == v.bss
    ensures LinksOf(v, id) == LinksOf(w, id)
  {
  }
}
