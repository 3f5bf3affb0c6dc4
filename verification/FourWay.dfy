/**
  The 4-Way Handshake in runs of the tracker (rx_eapol.c): four messages with the right codes
  bring the PTK of their nonces into use, for a first handshake and for a rekeying, and the third
  brings the IGTK.
 */
module FourWay {
  import opened Options
  import opened Octets
  import opened Records
  import opened Handshake
  import opened TrackerRuns
  import opened StaEvents
  import opened BssEvents
  import opened LeavingRuns
  import Bip

  type Nonce = n: Octets | |n| == 32 witness Zeros(32)

  /** An EAPOL-Key frame by its key information, nonce, code and key data of at most one octet. */
  function KeyFrameOf(hi: Octet, lo: Octet, nonce: Nonce, mic: Bip.Tag16, withData: bool): KeyFrame {
    [0, 0, 0, 0, 2, hi, lo] + Zeros(10) + nonce + Zeros(32) + mic + (if withData then [0, 1, 0] else [0, 0])
  }

  /** The frame with its code. */
  function Signed(c: Crypto, kck: Octets, hi: Octet, lo: Octet, nonce: Nonce, withData: bool): KeyFrame {
    KeyFrameOf(hi, lo, nonce, c.mic(kck, (lo & 0x07) as bv16, KeyFrameOf(hi, lo, nonce, Zeros(16), withData)), withData)
  }

  lemma FrameOctets(hi: Octet, lo: Octet, nonce: Nonce, mic: Bip.Tag16, withData: bool)
    ensures var d := KeyFrameOf(hi, lo, nonce, mic, withData);
            && |d| == (if withData then 100 else 99) && d[4] == 2 && d[5] == hi && d[6] == lo
            && d[17..49] == nonce && d[81..97] == mic && d[97] == 0 && d[98] == (if withData then 1 else 0)
            && d[..81] + Zeros(16) + d[97..] == KeyFrameOf(hi, lo, nonce, Zeros(16), withData)
  {
    var d, e := KeyFrameOf(hi, lo, nonce, mic, withData), KeyFrameOf(hi, lo, nonce, Zeros(16), withData);
    assert d[..81] == e[..81] && d[97..] == e[97..] && e[81..97] == Zeros(16);
    assert e == e[..81] + e[81..97] + e[97..];
  }

  lemma SignedOctets(c: Crypto, kck: Octets, hi: Octet, lo: Octet, nonce: Nonce, withData: bool)
    ensures var d := Signed(c, kck, hi, lo, nonce, withData);
            CodeIs(c, kck, d) && d[17..49] == nonce
  {
    var mic := c.mic(kck, (lo & 0x07) as bv16, KeyFrameOf(hi, lo, nonce, Zeros(16), withData));
    FrameOctets(hi, lo, nonce, mic, withData);
    hide KeyFrameOf;
  }

  lemma Numbers()
    ensures Num(0) == 0 && Num(1) == 1
  {
    NumByte(0);
    NumByte(1);
    ByteNum(0);
    ByteNum(1);
  }

  /** The four key information fields are those of the four messages. */
  lemma Kinds(mic: Bip.Tag16, nonce: Nonce)
    ensures MessageIs(KeyFrameOf(0x00, 0x8a, nonce, mic, false), Msg1)
    ensures MessageIs(KeyFrameOf(0x01, 0x0a, nonce, mic, true), Msg2)
    ensures MessageIs(KeyFrameOf(0x13, 0xca, nonce, mic, true), Msg3)
    ensures MessageIs(KeyFrameOf(0x03, 0x0a, nonce, mic, false), Msg4)
  {
    FrameOctets(0x00, 0x8a, nonce, mic, false);
    FrameOctets(0x01, 0x0a, nonce, mic, true);
    FrameOctets(0x13, 0xca, nonce, mic, true);
    FrameOctets(0x03, 0x0a, nonce, mic, false);
    Numbers();
    hide KeyFrameOf, Num;
  }

  // ---- The messages between station `a` and access point `id`

  function PtkOf(c: Crypto, id: Addr, s: StaV, pmk: Pmk, an: Nonce, sn: Nonce): Ptk {
    c.prf(PtkInput(pmk, id, s.addr, an, sn, s.sec.tkip, s.sec.sha256))
  }

  function Message1(id: Addr, a: Addr, an: Nonce): Event {
    Eapol(a, id, KeyFrameOf(0x00, 0x8a, an, Zeros(16), false), None, None)
  }

  function Message2(c: Crypto, kck: Octets, id: Addr, a: Addr, sn: Nonce): Event {
    Eapol(id, a, Signed(c, kck, 0x01, 0x0a, sn, true), None, None)
  }

  function Message3(c: Crypto, kck: Octets, id: Addr, a: Addr, an: Nonce, kde: IgtkKde): Event {
    Eapol(a, id, Signed(c, kck, 0x13, 0xca, an, true), None, Some(kde))
  }

  function Message4(c: Crypto, kck: Octets, id: Addr, a: Addr): Event {
    Eapol(id, a, Signed(c, kck, 0x03, 0x0a, Zeros(32), false), None, None)
  }

  lemma MessageKinds(c: Crypto, kck: Octets, id: Addr, a: Addr, an: Nonce, sn: Nonce, kde: IgtkKde)
    ensures MessageIs(Message1(id, a, an).key, Msg1) && Message1(id, a, an).key[17..49] == an
    ensures var d := Message2(c, kck, id, a, sn).key; MessageIs(d, Msg2) && d[17..49] == sn && CodeIs(c, kck, d)
    ensures var d := Message3(c, kck, id, a, an, kde).key; MessageIs(d, Msg3) && d[17..49] == an && CodeIs(c, kck, d)
    ensures var d := Message4(c, kck, id, a).key; MessageIs(d, Msg4) && CodeIs(c, kck, d)
  {
    FrameOctets(0x00, 0x8a, an, Zeros(16), false);
    SignedOctets(c, kck, 0x01, 0x0a, sn, true);
    SignedOctets(c, kck, 0x13, 0xca, an, true);
    SignedOctets(c, kck, 0x03, 0x0a, Zeros(32), false);
    Kinds(Zeros(16), an);
    var low: Octet, high: Octet := 0x0a, 0xca;
    Kinds(c.mic(kck, (low & 0x07) as bv16, KeyFrameOf(0x01, low, sn, Zeros(16), true)), sn);
    Kinds(c.mic(kck, (high & 0x07) as bv16, KeyFrameOf(0x13, high, an, Zeros(16), true)), an);
    Kinds(c.mic(kck, (low & 0x07) as bv16, KeyFrameOf(0x03, low, Zeros(32), Zeros(16), false)), Zeros(32));
    hide KeyFrameOf, MessageIs, CodeIs;
  }

  // ---- One message

  lemma MessageStep(c: Crypto, w: World, e: Event, id: Addr, a: Addr)
    requires !Group(id) && !Group(a) && BetweenThem(e, id, a) && StaAt(w, id, a).Some?
    ensures StaAt(Step(c, w, e), id, a)
            == Some(KeyFrameAfter(c, id, StaAt(w, id, a).value, e.key, Pmks(w, id), e.learned))
    ensures Pmks(Step(c, w, e), id) == Pmks(w, id)
  {
    StepSta(c, w, e, id, a);
    BetweenIs(e, id, a);
    MessageSta(c, w, Classify(e.key).value, e, id, a);
    hide StaAt, KeyFrameAfter, BetweenThem, Classify, Group, RxMessage, BssPmks, StaStep, MgmtLists;
  }

  /** A PTK taken over: pending beside one in use, otherwise in use. */
  function Held(s: StaV, ptk: Ptk): (t: StaV)
    ensures t.addr == s.addr && t.anonce == s.anonce
  {
    if s.ptkSet then s.(tptk := ptk, tptkSet := true)
    else s.(ptk := ptk, ptkSet := true, rscToDs := ZeroRsc(), rscFromDs := ZeroRsc())
  }

  /** The PTK in use, with packet numbers of zero and no key pending. */
  function InUse(s: StaV, ptk: Ptk): StaV {
    var t := if s.ptkSet then s.(tptk := ptk) else s;
    t.(ptk := ptk, ptkSet := true, tptkSet := false, rscToDs := ZeroRsc(), rscFromDs := ZeroRsc())
  }

  /** What each of the four does to a record that holds no pending key. */
  lemma FirstRecords(c: Crypto, id: Addr, s: StaV, pmk: Pmk, an: Nonce, sn: Nonce)
    ensures var ptk := PtkOf(c, id, s, pmk, an, sn);
            var t := s.(anonce := an);
            && KeyFrameAfter(c, id, s, Message1(id, s.addr, an).key, [pmk], None) == t
            && KeyFrameAfter(c, id, t, Message2(c, ptk.kck, id, s.addr, sn).key, [pmk], None)
               == Held(t.(snonce := sn), ptk)
  {
    var ptk := PtkOf(c, id, s, pmk, an, sn);
    var kde := IgtkKde(4, Zeros(6), []);
    MessageKinds(c, ptk.kck, id, s.addr, an, sn, kde);
    var d := Message2(c, ptk.kck, id, s.addr, sn).key;
    OneMessage(d, Msg2, Msg1);
    assert PtkFor(c, id, s.(anonce := an, snonce := sn), pmk) == ptk;
    hide Message1, Message2, MessageIs, CodeIs;
  }

  lemma LastRecords(c: Crypto, id: Addr, s: StaV, ptk: Ptk, kde: IgtkKde, pmks: seq<Pmk>)
    requires !s.tptkSet && |s.anonce| == 32
    ensures var t := Held(s, ptk);
            && KeyFrameAfter(c, id, t, Message3(c, ptk.kck, id, s.addr, s.anonce, kde).key, pmks, None) == t
            && HeldConfirms(c, t, Message3(c, ptk.kck, id, s.addr, s.anonce, kde).key)
            && KeyFrameAfter(c, id, t, Message4(c, ptk.kck, id, s.addr).key, pmks, None) == InUse(s, ptk)
  {
    MessageKinds(c, ptk.kck, id, s.addr, s.anonce, s.anonce, kde);
    var d, e := Message3(c, ptk.kck, id, s.addr, s.anonce, kde).key, Message4(c, ptk.kck, id, s.addr).key;
    OneMessage(d, Msg3, Msg1);
    OneMessage(d, Msg3, Msg2);
    OneMessage(d, Msg3, Msg4);
    OneMessage(e, Msg4, Msg1);
    OneMessage(e, Msg4, Msg2);
    OneMessage(e, Msg4, Msg3);
    hide Message3, Message4, MessageIs, CodeIs;
  }

  // ---- What each message does to the BSS

  /** A BSS holds an IGTK under a key ID, the packet number with its last octet first. */
  predicate HoldsIgtk(w: World, id: Addr, k: IgtkKde)
    requires k.id <= 5
  {
    HasBss(w, id) && TheBss(w, id).igtkIdx == k.id
    && TheBss(w, id).igtks[k.id] == Igtk(k.key, true, [k.pn[5], k.pn[4], k.pn[3], k.pn[2], k.pn[1], k.pn[0]])
  }

  /** The record that takes the key over. */
  function WithIgtk(b: BssV, k: IgtkKde): BssV
    requires k.id <= 5
  {
    b.(igtks := b.igtks[k.id := Igtk(k.key, true, [k.pn[5], k.pn[4], k.pn[3], k.pn[2], k.pn[1], k.pn[0]])],
       igtkIdx := k.id)
  }

  lemma ThirdTaken(c: Crypto, w: World, e: Event, id: Addr, a: Addr, b: BssV)
    requires !Group(a) && e.Eapol? && |e.key| >= 99 && MessageIs(e.key, Msg3) && id == e.src && a == e.dst
    requires e.kde.Some? && e.kde.value.id <= 5
    requires HeldConfirms(c, KeyFrameAfter(c, id, RecordOf(w, id, a), e.key, Pmks(w, id), e.learned), e.key)
    ensures BssAfter(c, w, e, id, b) == WithIgtk(b, e.kde.value) && ListsBss(e, id)
  {
    assert StaOfMessage(e) == a && BetweenThem(e, id, a);
    hide FindBss, HeldConfirms, KeyFrameAfter, MessageIs, RecordOf, NewBss;
  }

  lemma ThirdBrings(c: Crypto, w: World, e: Event, id: Addr, a: Addr)
    requires !Group(id) && !Group(a) && e.Eapol? && |e.key| >= 99 && MessageIs(e.key, Msg3) && id == e.src && a == e.dst
    requires e.kde.Some? && e.kde.value.id <= 5
    requires HeldConfirms(c, KeyFrameAfter(c, id, RecordOf(w, id, a), e.key, Pmks(w, id), e.learned), e.key)
    ensures HoldsIgtk(Step(c, w, e), id, e.kde.value)
  {
    StepBss(c, w, e, id);
    ThirdTaken(c, w, e, id, a, BssRecordOf(w, id));
    hide Step, FindBss, HeldConfirms, KeyFrameAfter, MessageIs, RecordOf, BssAfter, BssRecordOf, ListsBss, Pmks;
  }

  lemma FourthKeeps(c: Crypto, w: World, e: Event, id: Addr, k: IgtkKde)
    requires !Group(id) && e.Eapol? && e.kde.None? && k.id <= 5 && HoldsIgtk(w, id, k)
    ensures HoldsIgtk(Step(c, w, e), id, k)
  {
    StepBss(c, w, e, id);
    hide Step, FindBss, ListsBss;
  }

  // ---- The handshake after any run

  /** The first two messages of the handshake that derives a PTK from `pmk` and the two nonces. */
  function FirstTwo(c: Crypto, id: Addr, s: StaV, pmk: Pmk, an: Nonce, sn: Nonce): seq<Event> {
    [Message1(id, s.addr, an)] + [Message2(c, PtkOf(c, id, s, pmk, an, sn).kck, id, s.addr, sn)]
  }

  function FirstThree(c: Crypto, id: Addr, s: StaV, pmk: Pmk, an: Nonce, sn: Nonce, kde: IgtkKde): seq<Event> {
    FirstTwo(c, id, s, pmk, an, sn) + [Message3(c, PtkOf(c, id, s, pmk, an, sn).kck, id, s.addr, an, kde)]
  }

  function AllFour(c: Crypto, id: Addr, s: StaV, pmk: Pmk, an: Nonce, sn: Nonce, kde: IgtkKde): seq<Event> {
    FirstThree(c, id, s, pmk, an, sn, kde) + [Message4(c, PtkOf(c, id, s, pmk, an, sn).kck, id, s.addr)]
  }

  lemma RunOn(c: Crypto, h: seq<Event>, g: seq<Event>, e: Event)
    ensures Run(c, h + (g + [e])) == Step(c, Run(c, h + g), e)
  {
    RunMore(c, h + g, e);
    assert h + (g + [e]) == h + g + [e];
    hide Step, Run;
  }

  lemma ForThem(c: Crypto, kck: Octets, id: Addr, a: Addr, an: Nonce, sn: Nonce, kde: IgtkKde)
    ensures BetweenThem(Message1(id, a, an), id, a) && BetweenThem(Message2(c, kck, id, a, sn), id, a)
    ensures BetweenThem(Message3(c, kck, id, a, an, kde), id, a) && BetweenThem(Message4(c, kck, id, a), id, a)
  {
    MessageKinds(c, kck, id, a, an, sn, kde);
    hide MessageIs, KeyFrameOf, Signed, CodeIs;
  }

  /** The first two messages: the station has the nonces, and the PTK that they make. */
  lemma TwoMessages(c: Crypto, h: seq<Event>, id: Addr, s: StaV, pmk: Pmk, an: Nonce, sn: Nonce)
    requires !Group(id) && !Group(s.addr) && StaAt(Run(c, h), id, s.addr) == Some(s)
    requires Pmks(Run(c, h), id) == [pmk]
    ensures var v := Run(c, h + FirstTwo(c, id, s, pmk, an, sn));
            && StaAt(v, id, s.addr) == Some(Held(s.(anonce := an, snonce := sn), PtkOf(c, id, s, pmk, an, sn)))
            && Pmks(v, id) == [pmk]
  {
    var ptk := PtkOf(c, id, s, pmk, an, sn);
    var e1, e2 := Message1(id, s.addr, an), Message2(c, ptk.kck, id, s.addr, sn);
    var w := Run(c, h);
    RunMore(c, h, e1);
    RunOn(c, h, [e1], e2);
    ForThem(c, ptk.kck, id, s.addr, an, sn, IgtkKde(4, Zeros(6), []));
    FirstRecords(c, id, s, pmk, an, sn);
    assert e1.learned == None && e2.learned == None;
    hide Run, Step, StaAt, Group, Pmks, Message1, Message2, BetweenThem, KeyFrameAfter, Held, PtkOf;
    MessageStep(c, w, e1, id, s.addr);
    MessageStep(c, Step(c, w, e1), e2, id, s.addr);
  }

  /** The third: nothing changes about the station, in a rekeying the old PTK is still in use. */
  lemma ThreeMessages(c: Crypto, h: seq<Event>, id: Addr, s: StaV, pmk: Pmk, an: Nonce, sn: Nonce, kde: IgtkKde)
    requires !Group(id) && !Group(s.addr) && StaAt(Run(c, h), id, s.addr) == Some(s) && !s.tptkSet
    requires Pmks(Run(c, h), id) == [pmk]
    ensures var v := Run(c, h + FirstThree(c, id, s, pmk, an, sn, kde));
            && StaAt(v, id, s.addr) == Some(Held(s.(anonce := an, snonce := sn), PtkOf(c, id, s, pmk, an, sn)))
            && Pmks(v, id) == [pmk]
  {
    var ptk := PtkOf(c, id, s, pmk, an, sn);
    var two := FirstTwo(c, id, s, pmk, an, sn);
    var e3 := Message3(c, ptk.kck, id, s.addr, an, kde);
    TwoMessages(c, h, id, s, pmk, an, sn);
    RunOn(c, h, two, e3);
    ForThem(c, ptk.kck, id, s.addr, an, sn, kde);
    LastRecords(c, id, s.(anonce := an, snonce := sn), ptk, kde, [pmk]);
    assert e3.learned == None;
    hide Run, Step, StaAt, Group, Pmks, FirstTwo, Message3, Message4, BetweenThem, KeyFrameAfter, Held, InUse, PtkOf,
      HeldConfirms;
    MessageStep(c, Run(c, h + two), e3, id, s.addr);
  }

  /**
    After any run and all four messages, for a first handshake as for a rekeying: the PTK of the
    nonces is in use with packet numbers of zero, and no key is pending.
   */
  lemma FourMessages(c: Crypto, h: seq<Event>, id: Addr, s: StaV, pmk: Pmk, an: Nonce, sn: Nonce, kde: IgtkKde)
    requires !Group(id) && !Group(s.addr) && StaAt(Run(c, h), id, s.addr) == Some(s) && !s.tptkSet
    requires Pmks(Run(c, h), id) == [pmk]
    ensures StaAt(Run(c, h + AllFour(c, id, s, pmk, an, sn, kde)), id, s.addr)
            == Some(InUse(s.(anonce := an, snonce := sn), PtkOf(c, id, s, pmk, an, sn)))
  {
    var ptk := PtkOf(c, id, s, pmk, an, sn);
    var three := FirstThree(c, id, s, pmk, an, sn, kde);
    var e4 := Message4(c, ptk.kck, id, s.addr);
    ThreeMessages(c, h, id, s, pmk, an, sn, kde);
    RunOn(c, h, three, e4);
    ForThem(c, ptk.kck, id, s.addr, an, sn, kde);
    LastRecords(c, id, s.(anonce := an, snonce := sn), ptk, kde, [pmk]);
    assert e4.learned == None;
    hide Run, Step, StaAt, Group, Pmks, FirstThree, Message3, Message4, BetweenThem, KeyFrameAfter, Held, InUse, PtkOf,
      HeldConfirms;
    MessageStep(c, Run(c, h + three), e4, id, s.addr);
  }

  lemma ThreeBringIgtk(c: Crypto, h: seq<Event>, id: Addr, s: StaV, pmk: Pmk, an: Nonce, sn: Nonce, kde: IgtkKde)
    requires !Group(id) && !Group(s.addr) && StaAt(Run(c, h), id, s.addr) == Some(s) && !s.tptkSet
    requires Pmks(Run(c, h), id) == [pmk] && kde.id <= 5
    ensures HoldsIgtk(Run(c, h + FirstThree(c, id, s, pmk, an, sn, kde)), id, kde)
  {
    var ptk := PtkOf(c, id, s, pmk, an, sn);
    var two := FirstTwo(c, id, s, pmk, an, sn);
    var e3 := Message3(c, ptk.kck, id, s.addr, an, kde);
    TwoMessages(c, h, id, s, pmk, an, sn);
    RunOn(c, h, two, e3);
    MessageKinds(c, ptk.kck, id, s.addr, an, sn, kde);
    LastRecords(c, id, s.(anonce := an, snonce := sn), ptk, kde, [pmk]);
    assert e3.src == id && e3.dst == s.addr && e3.kde == Some(kde) && e3.learned == None;
    hide Run, Step, StaAt, Group, Pmks, FirstTwo, Message1, Message2, Message3, Message4, MessageIs, KeyFrameAfter,
      Held, InUse, PtkOf, HeldConfirms, HoldsIgtk, CodeIs;
    ThirdBrings(c, Run(c, h + two), e3, id, s.addr);
  }

  /** And the IGTK of message 3 is held, its packet number in the order in which numbers are compared. */
  lemma FourBringIgtk(c: Crypto, h: seq<Event>, id: Addr, s: StaV, pmk: Pmk, an: Nonce, sn: Nonce, kde: IgtkKde)
    requires !Group(id) && !Group(s.addr) && StaAt(Run(c, h), id, s.addr) == Some(s) && !s.tptkSet
    requires Pmks(Run(c, h), id) == [pmk] && kde.id <= 5
    ensures HoldsIgtk(Run(c, h + AllFour(c, id, s, pmk, an, sn, kde)), id, kde)
  {
    var three := FirstThree(c, id, s, pmk, an, sn, kde);
    var e4 := Message4(c, PtkOf(c, id, s, pmk, an, sn).kck, id, s.addr);
    ThreeBringIgtk(c, h, id, s, pmk, an, sn, kde);
    RunOn(c, h, three, e4);
    assert e4.Eapol? && e4.kde == None;
    hide Run, Step, StaAt, Group, Pmks, FirstThree, Message4, PtkOf, HoldsIgtk;
    FourthKeeps(c, Run(c, h + three), e4, id, kde);
  }

  /** From nothing: a station joins, one PMK is configured, and the four messages pass. */
  lemma HandshakeCompletes(c: Crypto, id: Addr, a: Addr, pmk: Pmk, an: Nonce, sn: Nonce, kde: IgtkKde)
    requires !Group(id) && !Group(a) && kde.id <= 5
    ensures var ptk := c.prf(PtkInput(pmk, id, a, an, sn, false, false));
            var w := Run(c, Associating(id, a) + [AddPmk(pmk)] + AllFour(c, id, Joined(a), pmk, an, sn, kde));
            && StaAt(w, id, a) == Some(Joined(a).(anonce := an, snonce := sn, ptk := ptk, ptkSet := true))
            && HoldsIgtk(w, id, kde)
  {
    var h := Associating(id, a);
    Start(c, id, a);
    assert [] + h == h;
    assert PtkOf(c, id, Joined(a), pmk, an, sn) == c.prf(PtkInput(pmk, id, a, an, sn, false, false));
    hide Run, StaAt, Group, BssPmks, Pmks, Associating, AllFour, HoldsIgtk, PtkOf, NewSta;
    Joins(c, [], id, a, id, a);
    OnePmk(c, h, pmk, id, a);
    FourMessages(c, h + [AddPmk(pmk)], id, Joined(a), pmk, an, sn, kde);
    FourBringIgtk(c, h + [AddPmk(pmk)], id, Joined(a), pmk, an, sn, kde);
  }
}
