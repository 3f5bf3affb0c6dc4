/**
  What every event does to the record of a BSS, apart from its stations and direct links, read off
  the octets of the frame: protection, PMKs, integrity group keys and the counters of BIP frames.
 */
module BssEvents {
  import opened Options
  import opened Octets
  import opened Records
  import opened Handshake
  import opened MgmtFrames
  import opened TdlsTable
  import opened TrackerRuns
  import opened StaEvents
  import Bip

  // ---- The reference

  /** A robust frame for a group whose protection is looked at. */
  predicate BipChecked(f: MgmtData) {
    RobustKind(f) && ForGroup(f) && !(f[0] & 0xf0 == 0xd0 && (|f| < 25 || f[24] == 4))
  }

  /** The packet number and the counters after a frame whose MMIE names IGTK `i`. */
  function Counted(c: Crypto, b: BssV, f: MgmtData, i: nat): BssV
    requires HasElement(f) && i < 6
  {
    var k := b.igtks[i];
    if !k.known then b
    else if !Bip.MicOk(c.omac, k.key, f) then b.(bip := b.bip.(invalid := b.bip.invalid + 1))
    else b.(igtks := b.igtks[i := k.(ipn := f[|f| - 14..|f| - 8])], bip := b.bip.(valid := b.bip.valid + 1))
  }

  /** `check_bip` on the record. */
  function BipAfter(c: Crypto, b: BssV, f: MgmtData): BssV {
    if !BipChecked(f) then b
    else if !HasElement(f) then if b.mfpc then b.(bip := b.bip.(missing := b.bip.missing + 1)) else b
    else if KeyIdIs(f, 4) then Counted(c, b, f, 4)
    else if KeyIdIs(f, 5) then Counted(c, b, f, 5)
    else b.(bip := b.bip.(invalid := b.bip.invalid + 1))
  }

  /** A beacon or probe response. */
  predicate Announces(f: MgmtData) { f[0] & 0xf0 == 0x80 || f[0] & 0xf0 == 0x50 }

  function AnnouncedAfter(b: BssV, f: MgmtData, info: Info): BssV {
    if !Announces(f) then b
    else b.(mfpc := if info.apMfpc.Some? then info.apMfpc.value else b.mfpc, pmks := info.pmks + b.pmks)
  }

  /** The station of a message, as its octets say. */
  function StaOfMessage(e: Event): Addr
    requires e.Eapol?
  {
    if MessageIs(e.key, Msg1) || MessageIs(e.key, Msg3) || MessageIs(e.key, Group1) then e.dst else e.src
  }

  /** Group keys are taken over from message 3 that a held key confirms, and from group message 1 under the PTK. */
  predicate Confirmed(c: Crypto, w: World, e: Event, id: Addr)
    requires e.Eapol? && |e.key| >= 99
  {
    var s := RecordOf(w, id, StaOfMessage(e));
    var d: KeyFrame := e.key;
    var pmks := (if HasBss(w, id) then TheBss(w, id).pmks else []) + w.pmks;
    || (MessageIs(d, Msg3) && HeldConfirms(c, KeyFrameAfter(c, id, s, d, pmks, e.learned), d))
    || (MessageIs(d, Group1) && s.ptkSet && CodeIs(c, s.ptk.kck, d))
  }

  /** The record after a message of one of the BSS's stations. */
  function KdeAfter(c: Crypto, w: World, e: Event, id: Addr, b: BssV): BssV
    requires e.Eapol?
  {
    if |e.key| < 99 || !BetweenThem(e, id, StaOfMessage(e)) || StaOfMessage(e)[0] & 0x01 != 0 || e.kde.None?
       || e.kde.value.id > 5 || !Confirmed(c, w, e, id) then b
    else
      var k := e.kde.value;
      b.(igtks := b.igtks[k.id := Igtk(k.key, true, [k.pn[5], k.pn[4], k.pn[3], k.pn[2], k.pn[1], k.pn[0]])],
         igtkIdx := k.id)
  }

  /** The record of BSS `id` after an event, apart from stations and links. */
  function BssAfter(c: Crypto, w: World, e: Event, id: Addr, b: BssV): BssV {
    match e
    case Mgmt(f, info) =>
      if |f| < 24 || f[16..22] != id then b else AnnouncedAfter(BipAfter(c, b, f), f, info)
    case Eapol(_, _, _, _, _) => KdeAfter(c, w, e, id, b)
    case AddBssPmk(bssid, pmk) => if bssid != id || !HasBss(w, id) then b else b.(pmks := [pmk] + b.pmks)
    case _ => b
  }

  /** The event has the record looked up, and added where there is none. */
  predicate ListsBss(e: Event, id: Addr) {
    match e
    case Mgmt(f, _) =>
      |f| >= 24 && f[16..22] == id
      && (f[0] & 0xf0 in {0x00, 0x10, 0x20, 0x30, 0x50, 0x80, 0xa0, 0xb0, 0xc0}
          || (f[0] & 0xf0 == 0xd0 && (!ForGroup(f) || BipChecked(f))))
    case Eapol(dst, src, d, _, _) =>
      || ((MessageIs(d, Msg1) || MessageIs(d, Msg3) || MessageIs(d, Group1)) && id == src)
      || ((MessageIs(d, Msg2) || MessageIs(d, Msg4) || MessageIs(d, Group2)) && id == dst)
    case DataDecrypted(apId, _, _, _, _) => apId == id
    case _ => false
  }

  // ---- Views

  /** A record without its stations and links. */
  function Bare(b: BssV): BssV { b.(stas := [], tdls := []) }

  function BssView(w: World, id: Addr): Option<BssV> { if HasBss(w, id) then Some(Bare(TheBss(w, id))) else None }

  /** The record `b` of a BSS that was listed, or is now. */
  function BssOutcome(w: World, id: Addr, listed: bool, b: BssV): Option<BssV> {
    if HasBss(w, id) || listed then Some(Bare(b)) else None
  }

  lemma BssRecordIs(w: World, id: Addr)
    ensures BssView(w, id) == BssOutcome(w, id, false, BssRecordOf(w, id))
  {
  }

  lemma GetBssView(w: World, bssid: Addr, id: Addr)
    requires !Group(id)
    ensures BssView(GetBss(w, bssid), id) == BssOutcome(w, id, bssid == id, BssRecordOf(w, id))
    ensures HasBss(GetBss(w, bssid), id) ==> TheBss(GetBss(w, bssid), id) == BssRecordOf(w, id)
  {
    GetBssAt(w, bssid, id);
    hide GetBss, Group, FindBss, NewBss, Bare;
  }

  lemma PutView(w: World, b: BssV, id: Addr)
    requires HasBss(w, b.bssid)
    ensures BssView(PutBss(w, b), id) == if id == b.bssid then Some(Bare(b)) else BssView(w, id)
  {
    PutBssAt(w, b, id);
    hide PutBss, FindBss, Bare;
  }

  lemma PutSame(w: World, b: BssV, id: Addr)
    requires HasBss(w, b.bssid) && Bare(b) == Bare(TheBss(w, b.bssid))
    ensures BssView(PutBss(w, b), id) == BssView(w, id)
  {
    PutView(w, b, id);
    hide PutBss, FindBss, Bare;
  }

  lemma GetView(w: World, bssid: Addr, a: Addr, id: Addr)
    requires !Group(id)
    ensures BssView(Get(w, bssid, a), id) == BssOutcome(w, id, bssid == id, BssRecordOf(w, id))
  {
    GetBssView(w, bssid, id);
    var v := GetBss(w, bssid);
    hide GetBss, Group, FindBss, FindSta, PutBss, NewSta, NewBss;
    if HasBss(v, bssid) && !Group(bssid) {
      PutSame(v, GetSta(TheBss(v, bssid), a), id);
    }
  }

  lemma UpdateView(w: World, bssid: Addr, s: StaV, id: Addr)
    requires StaAt(w, bssid, s.addr).Some?
    ensures BssView(Update(w, bssid, s), id) == BssView(w, id)
  {
    PutSame(w, PutSta(TheBss(w, bssid), s), id);
    hide PutBss, FindBss, FindSta;
  }

  lemma OnStaView(w: World, bssid: Addr, a: Addr, op: StaOp, id: Addr)
    requires !Group(id)
    ensures BssView(OnSta(w, bssid, a, op), id) == BssOutcome(w, id, bssid == id, BssRecordOf(w, id))
  {
    GetView(w, bssid, a, id);
    var v := Get(w, bssid, a);
    hide Get, StaAt, Group, Update, Apply, BssView, BssOutcome, BssRecordOf;
    if !Group(bssid) && !Group(a) && StaAt(v, bssid, a).Some? {
      UpdateView(v, bssid, Apply(op, StaAt(v, bssid, a).value), id);
    }
  }

  lemma LeaveView(w: World, d: MgmtData, valid: bool, to: AssocState, id: Addr)
    requires !Group(id)
    ensures BssView(Leave(w, d, valid, to), id) == BssOutcome(w, id, BssidOf(d) == id, BssRecordOf(w, id))
  {
    var bssid := BssidOf(d);
    GetView(w, bssid, HandlerAddr(d), id);
    var v := Get(w, bssid, HandlerAddr(d));
    hide Get, Group, BssView, BssOutcome, BssRecordOf, Left, FindBss, PutBss, Bare;
    if HasBss(v, bssid) {
      LeftBare(TheBss(v, bssid), d, valid, to);
      PutSame(v, Left(TheBss(v, bssid), d, valid, to), id);
    }
  }

  lemma LeftBare(b: BssV, d: MgmtData, valid: bool, to: AssocState)
    ensures Bare(Left(b, d, valid, to)) == Bare(b)
  {
    hide FindSta, Group, Lowered, LowerAll, LinkDown;
  }

  lemma BeaconView(w: World, d: MgmtData, info: Info, id: Addr)
    requires !Group(id)
    ensures var b := BssRecordOf(w, id);
            BssView(Beacon(w, d, info), id)
            == BssOutcome(w, id, BssidOf(d) == id, if BssidOf(d) == id then Announced(b, info) else b)
  {
    var bssid := BssidOf(d);
    GetBssView(w, bssid, id);
    var v := GetBss(w, bssid);
    hide GetBss, Group, FindBss, PutBss, Announced, NewBss, Bare;
    if HasBss(v, bssid) && !Group(bssid) {
      PutView(v, Announced(TheBss(v, bssid), info), id);
    }
  }

  // ---- Management frames

  lemma MmieCounted(c: Crypto, b: BssV, d: MgmtData)
    requires BipChecked(d)
    ensures CheckMmie(c, b, d).0 == BipAfter(c, b, d)
  {
    if |d| >= 42 {
      KeyIdBits(d[|d| - 16], d[|d| - 15]);
    }
    hide Bip.MicOk, Pack16, BipChecked;
  }

  lemma BipView(c: Crypto, w: World, d: MgmtData, id: Addr)
    requires RobustKind(d) && ForGroup(d) && !Group(id)
    ensures var b := BssRecordOf(w, id);
            var here := BssidOf(d) == id;
            BssView(CheckBip(c, w, d).0, id)
            == BssOutcome(w, id, here && BipChecked(d), if here then BipAfter(c, b, d) else b)
  {
    var bssid := BssidOf(d);
    SameKind(d);
    GetBssView(w, bssid, id);
    BssRecordIs(w, id);
    NotChecked(c, BssRecordOf(w, id), d);
    var v := GetBss(w, bssid);
    hide GetBss, Group, FindBss, PutBss, CheckMmie, NewBss, Bare, BipAfter, RobustKind, BssRecordOf, Subtype, BssidOf;
    if BipChecked(d) && HasBss(v, bssid) && !Group(bssid) {
      MmieCounted(c, TheBss(v, bssid), d);
      PutView(v, CheckMmie(c, TheBss(v, bssid), d).0, id);
    }
  }

  lemma NotChecked(c: Crypto, b: BssV, d: MgmtData)
    ensures !BipChecked(d) ==> BipAfter(c, b, d) == b
  {
  }

  lemma DecryptView(c: Crypto, w: World, d: MgmtData, id: Addr)
    requires !Group(id)
    ensures BssView(MgmtCcmpDecrypt(c, w, d).0, id) == BssOutcome(w, id, BssidOf(d) == id, BssRecordOf(w, id))
  {
    var bssid, a := BssidOf(d), CheckAddr(d);
    GetView(w, bssid, a, id);
    Decrypted(c, w, d);
    hide MgmtCcmpDecrypt, Get, StaAt, Group, Update, NotePn, CheckAddr, BssidOf, RecordOf, BssView, BssOutcome, Opened;
    if Opened(c, w, d) {
      UpdateView(Get(w, bssid, a), bssid, NotePn(RecordOf(w, bssid, a), d), id);
    }
  }

  lemma CcmpCheckView(w: World, d: MgmtData, id: Addr)
    requires RobustKind(d) && !ForGroup(d) && !Encrypted(d) && !Group(id)
    ensures BssView(CheckMgmtCcmp(w, d).0, id)
            == BssOutcome(w, id, LooksUp(d) && BssidOf(d) == id, BssRecordOf(w, id))
  {
    SameKind(d);
    GetView(w, BssidOf(d), CheckAddr(d), id);
    BssRecordIs(w, id);
    hide Get, StaAt, Group, Subtype, BssidOf, CheckAddr, BssView, RobustKind, PublicAction, BssRecordOf, Bare;
  }

  lemma PrecheckView(c: Crypto, w: World, d: MgmtData, id: Addr)
    requires !Group(id)
    ensures var b := BssRecordOf(w, id);
            var here := BssidOf(d) == id;
            BssView(Precheck(c, w, d).world, id)
            == BssOutcome(w, id, here && (BipChecked(d) || LooksUp(d)), if here then BipAfter(c, b, d) else b)
  {
    SameKind(d);
    AddressOctets(d);
    BssRecordIs(w, id);
    NotChecked(c, BssRecordOf(w, id), d);
    hide Subtype, BssidOf, CheckAddr, CheckedSta, Robust, IsProtected, Group, RobustKind, Encrypted, ForGroup,
      PublicAction, MgmtCcmpDecrypt, CheckMgmtCcmp, CheckBip, Da, BipAfter, BssView, BssOutcome, BssRecordOf;
    if Robust(d) {
      if Group(Da(d)) {
        BipView(c, w, d, id);
      } else if IsProtected(d) {
        DecryptView(c, w, d, id);
      } else {
        CcmpCheckView(w, d, id);
      }
    }
  }

  /** Two steps one after the other, the second of which only looks up. */
  lemma ViewThen(w: World, v: World, u: World, id: Addr, first: bool, b: BssV, second: bool)
    requires BssView(v, id) == BssOutcome(w, id, first, b)
    requires BssView(u, id) == BssOutcome(v, id, second, BssRecordOf(v, id))
    requires !HasBss(w, id) && !first ==> b == NewBss(id)
    ensures BssView(u, id) == BssOutcome(w, id, first || second, b)
  {
    hide FindBss, NewBss;
  }

  lemma NewUnchecked(c: Crypto, w: World, d: MgmtData, id: Addr)
    ensures !BipChecked(d) && !HasBss(w, id) ==> BipAfter(c, BssRecordOf(w, id), d) == NewBss(id)
  {
    NotChecked(c, BssRecordOf(w, id), d);
    hide BipAfter, BipChecked, NewBss, FindBss;
  }

  lemma RobustView(c: Crypto, w: World, d: MgmtData, info: Info, id: Addr)
    requires RobustKind(d) && !Group(id)
    ensures var b := BssRecordOf(w, id);
            var here := BssidOf(d) == id;
            var listed := d[0] & 0xf0 != 0xd0 || !ForGroup(d) || BipChecked(d);
            BssView(RxMgmt(c, w, d, info), id)
            == BssOutcome(w, id, here && listed, if here then BipAfter(c, b, d) else b)
  {
    var k := Precheck(c, w, d);
    var b := BssRecordOf(w, id);
    PrecheckKeeps(c, w, d, BssidOf(d), BssidOf(d));
    PrecheckView(c, w, d, id);
    NewUnchecked(c, w, d, id);
    NotNew(w, id);
    HeaderAddresses(d, k.data);
    SameKind(d);
    LeavingKinds(d);
    BssRecordIs(k.world, id);
    var after := if BssidOf(d) == id then BipAfter(c, b, d) else b;
    var first := BssidOf(d) == id && (BipChecked(d) || LooksUp(d));
    if Leaving(d) {
      RxLeaving(c, w, d, info);
      LeaveView(k.world, k.data, k.valid, LeavingTo(d), id);
      hide *;
      ViewThen(w, k.world, RxMgmt(c, w, d, info), id, first, after, BssidOf(d) == id);
    } else {
      ActionIs(c, w, d, info);
      OnStaView(k.world, BssidOf(d), HandlerAddr(d), Nothing, id);
      hide *;
      if !ForGroup(d) {
        ViewThen(w, k.world, RxMgmt(c, w, d, info), id, first, after, BssidOf(d) == id);
      }
    }
  }

  lemma NotNew(w: World, id: Addr)
    ensures !HasBss(w, id) ==> BssRecordOf(w, id) == NewBss(id)
  {
  }

  lemma OtherView(c: Crypto, w: World, d: MgmtData, info: Info, id: Addr)
    requires !Robust(d) && !Group(id)
    ensures var b := BssRecordOf(w, id);
            var here := BssidOf(d) == id;
            BssView(RxMgmt(c, w, d, info), id)
            == BssOutcome(w, id, here && (OpOf(d, info).Some? || IsBeacon(d)),
                          if here && IsBeacon(d) then Announced(b, info) else b)
  {
    Unchecked(c, w, d, info);
    BssRecordIs(w, id);
    BeaconView(w, d, info, id);
    var op := OpOf(d, info);
    assert op.Some? ==> !IsBeacon(d);
    if op.Some? {
      OnStaView(w, BssidOf(d), op.value.0, op.value.1, id);
    }
    hide RxMgmt, OnSta, Beacon, Group, BssRecordOf, BssidOf, OpOf, Robust, IsBeacon, BssView, BssOutcome, Announced;
  }

  lemma ListedKinds(c: Crypto, d: MgmtData, info: Info, b: BssV, id: Addr)
    ensures Robust(d) == RobustKind(d) && Announces(d) == IsBeacon(d)
    ensures AnnouncedAfter(b, d, info) == if IsBeacon(d) then Announced(b, info) else b
    ensures RobustKind(d) ==>
              !Announces(d)
              && (ListsBss(Mgmt(d, info), id)
                  <==> d[16..22] == id && (d[0] & 0xf0 != 0xd0 || !ForGroup(d) || BipChecked(d)))
    ensures !RobustKind(d) ==>
              BipAfter(c, b, d) == b
              && (ListsBss(Mgmt(d, info), id) <==> d[16..22] == id && (OpOf(d, info).Some? || IsBeacon(d)))
  {
    SameKind(d);
    NotChecked(c, b, d);
    hide Subtype, BipAfter, ForGroup, HandlerAddr, AuthOp, AssocReqOp, AssocRespOp, Sa, Da;
  }

  lemma MgmtBss(c: Crypto, w: World, d: MgmtData, info: Info, id: Addr)
    requires !Group(id)
    ensures BssView(RxMgmt(c, w, d, info), id)
            == BssOutcome(w, id, ListsBss(Mgmt(d, info), id), BssAfter(c, w, Mgmt(d, info), id, BssRecordOf(w, id)))
  {
    var b := BssRecordOf(w, id);
    AddressOctets(d);
    ListedKinds(c, d, info, b, id);
    ListedKinds(c, d, info, BipAfter(c, b, d), id);
    hide RxMgmt, BipAfter, AnnouncedAfter, Announced, ListsBss, BssView, BssOutcome, Robust, RobustKind, IsBeacon,
      Announces, BssRecordOf, Group, CheckedSta, ActedSta, CheckAddr, HandlerAddr;
    if RobustKind(d) {
      RobustView(c, w, d, info, id);
    } else {
      OtherView(c, w, d, info, id);
    }
  }

  // ---- Messages

  lemma HandledBare(c: Crypto, b: BssV, s: StaV, wtPmks: seq<Pmk>, m: Message, e: Event)
    requires e.Eapol? && |e.key| >= 99 && HasSta(b, s.addr)
    ensures var t := StaStep(c, b.bssid, s, m, e.key, b.pmks + wtPmks, e.learned);
            Bare(Handled(c, b, s, wtPmks, m, e))
            == if KdeTrusted(c, s, t, m, e.key) && e.kde.Some? then Bare(LearnIgtk(b, e.kde.value)) else Bare(b)
  {
    hide StaStep, KdeTrusted, FindSta;
  }

  lemma LearnedBare(b: BssV, d: BssV, k: IgtkKde)
    requires Bare(b) == Bare(d)
    ensures Bare(LearnIgtk(b, k)) == Bare(LearnIgtk(d, k))
  {
  }

  lemma OnMessageView(c: Crypto, v: World, ap: Addr, s: StaV, m: Message, e: Event, id: Addr)
    requires e.Eapol? && |e.key| >= 99 && StaAt(v, ap, s.addr).Some?
    ensures var t := StaStep(c, ap, s, m, e.key, Pmks(v, ap), e.learned);
            var b := TheBss(v, ap);
            BssView(OnMessage(c, v, ap, s, m, e), id)
            == if id != ap then BssView(v, id)
               else if KdeTrusted(c, s, t, m, e.key) && e.kde.Some? then Some(Bare(LearnIgtk(b, e.kde.value)))
               else Some(Bare(b))
  {
    HandledBare(c, TheBss(v, ap), s, v.pmks, m, e);
    PutView(v, Handled(c, TheBss(v, ap), s, v.pmks, m, e), id);
    hide StaStep, KdeTrusted, LearnIgtk, Handled, Bare, FindBss, FindSta, PutBss;
  }

  lemma MessageWorld(c: Crypto, w: World, m: Message, e: Event)
    requires e.Eapol? && |e.key| >= 99
    ensures var ap, a := ApOf(m, e.dst, e.src), StaOf(m, e.dst, e.src);
            var v := Get(w, ap, a);
            if Group(ap) || Group(a) then RxMessage(c, w, m, e) == v
            else StaAt(v, ap, a) == Some(RecordOf(w, ap, a))
                 && RxMessage(c, w, m, e) == OnMessage(c, v, ap, RecordOf(w, ap, a), m, e)
  {
    var ap, a := ApOf(m, e.dst, e.src), StaOf(m, e.dst, e.src);
    hide Get, Group, OnMessage, RecordOf, StaAt, ApOf, StaOf;
    if !Group(ap) && !Group(a) {
      GetOutcome(w, ap, a, ap, a);
    }
  }

  lemma MessageView(c: Crypto, w: World, m: Message, e: Event, id: Addr)
    requires e.Eapol? && |e.key| >= 99 && !Group(id)
    ensures var b := BssRecordOf(w, id);
            var addr := StaOf(m, e.dst, e.src);
            var s := RecordOf(w, id, addr);
            var here := id == ApOf(m, e.dst, e.src);
            var t := StaStep(c, id, s, m, e.key, Pmks(w, id), e.learned);
            BssView(RxMessage(c, w, m, e), id)
            == BssOutcome(w, id, here,
                          if here && !Group(addr) && KdeTrusted(c, s, t, m, e.key) && e.kde.Some?
                          then LearnIgtk(b, e.kde.value) else b)
  {
    var ap, a := ApOf(m, e.dst, e.src), StaOf(m, e.dst, e.src);
    var v := Get(w, ap, a);
    GetView(w, ap, a, id);
    MessageWorld(c, w, m, e);
    if !Group(ap) && !Group(a) {
      var s := RecordOf(w, ap, a);
      OnMessageView(c, v, ap, s, m, e, id);
      GetPmks(w, ap, a, ap);
      hide Get, Group, StaStep, KdeTrusted, LearnIgtk, OnMessage, RxMessage, Bare, RecordOf, FindBss, BssPmks, StaAt,
        NewBss, ApOf, StaOf;
      if e.kde.Some? && ap == id {
        LearnedBare(TheBss(v, ap), BssRecordOf(w, id), e.kde.value);
      }
    }
  }

  lemma KdeIs(c: Crypto, w: World, m: Message, e: Event, id: Addr, b: BssV)
    requires e.Eapol? && MessageIs(e.key, m) && id == ApOf(m, e.dst, e.src)
    ensures var addr := StaOf(m, e.dst, e.src);
            var s := RecordOf(w, id, addr);
            var t := StaStep(c, id, s, m, e.key, Pmks(w, id), e.learned);
            KdeAfter(c, w, e, id, b)
            == if !Group(addr) && KdeTrusted(c, s, t, m, e.key) && e.kde.Some? then LearnIgtk(b, e.kde.value) else b
  {
    OneMessage(e.key, m, Msg1);
    OneMessage(e.key, m, Msg2);
    OneMessage(e.key, m, Msg3);
    OneMessage(e.key, m, Msg4);
    OneMessage(e.key, m, Group1);
    OneMessage(e.key, m, Group2);
    var s := RecordOf(w, id, StaOf(m, e.dst, e.src));
    KeyFrameIs(c, id, s, m, e.key, Pmks(w, id), e.learned);
    HeldIs(c, StaStep(c, id, s, m, e.key, Pmks(w, id), e.learned), e.key);
    CodeIsMic(c, s.ptk.kck, e.key);
    hide MessageIs, KeyFrameAfter, StaStep, HeldConfirms, Verifies, CodeIs, MicOk, RecordOf, FindBss;
  }

  // ---- Every event

  lemma EapolBss(c: Crypto, w: World, e: Event, id: Addr)
    requires e.Eapol? && !Group(id)
    ensures BssView(Step(c, w, e), id) == BssOutcome(w, id, ListsBss(e, id), KdeAfter(c, w, e, id, BssRecordOf(w, id)))
  {
    var b := BssRecordOf(w, id);
    BssRecordIs(w, id);
    ListedByMessage(e, id);
    if Classify(e.key).Some? && id == ApOf(Classify(e.key).value, e.dst, e.src) {
      var m := Classify(e.key).value;
      ClassifyOctets(e.key, m);
      MessageView(c, w, m, e, id);
      KdeIs(c, w, m, e, id, b);
    } else {
      NotForBss(c, w, e, id, b);
      if Classify(e.key).Some? {
        MessageView(c, w, Classify(e.key).value, e, id);
      }
    }
    hide RxMessage, KdeAfter, ListsBss, Classify, BssView, BssOutcome, BssRecordOf, RecordOf, StaStep, Group, LearnIgtk,
      KdeTrusted, MessageIs;
  }

  lemma ListedByMessage(e: Event, id: Addr)
    requires e.Eapol?
    ensures ListsBss(e, id) <==> Classify(e.key).Some? && id == ApOf(Classify(e.key).value, e.dst, e.src)
  {
    ClassifyOctets(e.key, Msg1);
    ClassifyOctets(e.key, Msg2);
    ClassifyOctets(e.key, Msg3);
    ClassifyOctets(e.key, Msg4);
    ClassifyOctets(e.key, Group1);
    ClassifyOctets(e.key, Group2);
    hide MessageIs, Classify;
  }

  lemma NotForBss(c: Crypto, w: World, e: Event, id: Addr, b: BssV)
    requires e.Eapol? && !(Classify(e.key).Some? && id == ApOf(Classify(e.key).value, e.dst, e.src))
    ensures KdeAfter(c, w, e, id, b) == b
  {
    BetweenIs(e, id, StaOfMessage(e));
    hide BetweenThem, Classify, StaOfMessage, Confirmed;
  }

  lemma TdlsView(c: Crypto, w: World, bssid: Addr, payload: Octets, elems: Option<Elems>, id: Addr)
    ensures BssView(RxTdls(c, w, bssid, payload, elems), id) == BssView(w, id)
  {
    hide Linked, LinkOpOf, PutBss, FindBss, FindSta;
    if elems.Some? && LinkOpOf(payload).Some? && Known(w, elems.value.linkId, bssid) {
      var e := elems.value;
      PutSame(w, Linked(c, BssOf(w, e.linkId, bssid), LinkOpOf(payload).value, bssid, e), id);
    }
  }

  lemma DataView(w: World, e: Event, id: Addr)
    requires e.DataDecrypted? && !Group(id)
    ensures BssView(NoteDataPn(w, e), id) == BssOutcome(w, id, e.apId == id, BssRecordOf(w, id))
  {
    GetView(w, e.apId, e.staAddr, id);
    var v := Get(w, e.apId, e.staAddr);
    hide Get, StaAt, Group, BssView, BssOutcome, BssRecordOf, Update;
    if !Group(e.apId) && !Group(e.staAddr) && StaAt(v, e.apId, e.staAddr).Some? && e.tid <= 16 {
      UpdateView(v, e.apId, NoteTid(StaAt(v, e.apId, e.staAddr).value, e.toDs, e.tid, e.pn), id);
    }
  }

  lemma AddedView(w: World, bssid: Addr, pmk: Pmk, id: Addr)
    ensures var b := BssRecordOf(w, id);
            BssView(AddedBssPmk(w, bssid, pmk), id)
            == BssOutcome(w, id, false, if bssid == id && HasBss(w, id) then b.(pmks := [pmk] + b.pmks) else b)
  {
    BssRecordIs(w, id);
    hide PutBss, FindBss;
    if HasBss(w, bssid) {
      PutView(w, TheBss(w, bssid).(pmks := [pmk] + TheBss(w, bssid).pmks), id);
    }
  }

  /**
    Every step does to each BSS exactly what the octets of the event say: apart from stations and
    links the record is the one before, changed as `BssAfter` says, and is there if it was or the
    event has it looked up.
   */
  lemma StepBss(c: Crypto, w: World, e: Event, id: Addr)
    requires !e.Flush? && !Group(id)
    ensures BssView(Step(c, w, e), id) == BssOutcome(w, id, ListsBss(e, id), BssAfter(c, w, e, id, BssRecordOf(w, id)))
  {
    BssRecordIs(w, id);
    hide BssView, BssOutcome, BssRecordOf, RxMgmt, RxTdls, NoteDataPn, RxMessage, AddedBssPmk, Group, BipAfter,
      AnnouncedAfter, KdeAfter;
    match e
    case Mgmt(frame, info) =>
      if |frame| >= 24 {
        MgmtBss(c, w, frame, info, id);
      } else {
        ShortFrame(c, w, frame, info);
      }
    case Eapol(_, _, _, _, _) => EapolBss(c, w, e, id);
    case Tdls(bssid, payload, elems) => TdlsView(c, w, bssid, payload, elems, id);
    case DataDecrypted(_, _, _, _, _) => DataView(w, e, id);
    case AddPmk(pmk) => SameView(w, w.(pmks := [pmk] + w.pmks), id);
    case AddBssPmk(bssid, pmk) => AddedView(w, bssid, pmk, id);
  }

  lemma SameView(w: World, v: World, id: Addr)
    requires w.bss == v.bss
    ensures BssView(v, id) == BssView(w, id)
  {
  }

  /** The PMKs for every BSS grow by configuration only, in front. */
  lemma StepPmks(c: Crypto, w: World, e: Event)
    ensures Step(c, w, e).pmks == if e.AddPmk? then [e.pmk] + w.pmks else w.pmks
  {
    var a: Addr := Zeros(6);
    match e
    case Mgmt(frame, info) =>
      if |frame| >= 24 {
        if IsBeacon(frame) {
          hide SameKeys, StaAt, BssPmks, Beacon;
          BeaconAdds(w, frame, info, a, a);
          BeaconOnly(c, w, frame, info);
        } else {
          hide RxMgmt, SameKeys, StaAt, BssPmks;
          OtherMgmtQuiet(c, w, frame, info, a, a);
        }
      }
    case Eapol(_, _, key, _, _) =>
      if Classify(key).Some? {
        hide RxMessage, StaStep, StaAt, BssPmks;
        MessageSta(c, w, Classify(key).value, e, a, a);
      }
    case Tdls(bssid, payload, elems) =>
      hide RxTdls, SameKeys, StaAt, BssPmks;
      TdlsQuiet(c, w, bssid, payload, elems, a, a);
    case DataDecrypted(_, _, _, _, _) =>
      hide NoteDataPn, SameKeys, StaAt, BssPmks;
      DataQuiet(w, e, a, a);
    case AddPmk(pmk) =>
    case AddBssPmk(bssid, pmk) =>
      hide AddedBssPmk, SameKeys, StaAt, BssPmks;
      BssPmkQuiet(w, bssid, pmk, a, a);
    case Flush =>
  }
}
