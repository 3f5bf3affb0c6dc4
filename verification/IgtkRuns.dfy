/**
  Integrity group keys in runs of the tracker: every IGTK held was learned from an EAPOL-Key
  message of some station, whose MIC verified under a justified PTK of that station (rx_eapol.c).
 */
module IgtkRuns {
  import opened Options
  import opened Octets
  import opened Records
  import opened Handshake
  import opened MgmtFrames
  import opened TdlsTable
  import opened TrackerRuns

  /** The IGTK of a key ID, if it is known. */
  function IgtkIn(b: BssV, i: nat): Option<Octets>
    requires i < 6
  {
    if b.igtks[i].known then Some(b.igtks[i].key) else None
  }

  function IgtkOf(w: World, id: Addr, i: nat): Option<Octets>
    requires i < 6
  {
    if HasBss(w, id) then IgtkIn(TheBss(w, id), i) else None
  }

  // ---- Steps that leave the IGTKs alone

  lemma PutIgtk(w: World, b: BssV, id: Addr, i: nat)
    requires HasBss(w, b.bssid) && i < 6
    ensures IgtkOf(PutBss(w, b), id, i) == if id == b.bssid then IgtkIn(b, i) else IgtkOf(w, id, i)
  {
    hide PutBss, FindBss, IgtkIn;
    PutBssAt(w, b, id);
  }

  lemma GetBssIgtk(w: World, bssid: Addr, id: Addr, i: nat)
    requires i < 6
    ensures IgtkOf(GetBss(w, bssid), id, i) == IgtkOf(w, id, i)
  {
    GetBssAt(w, bssid, id);
    assert IgtkIn(NewBss(bssid), i) == None;
    hide GetBss, Group, FindBss, NewBss, IgtkIn;
  }

  lemma GetIgtk(w: World, bssid: Addr, a: Addr, id: Addr, i: nat)
    requires i < 6
    ensures IgtkOf(Get(w, bssid, a), id, i) == IgtkOf(w, id, i)
  {
    GetBssIgtk(w, bssid, id, i);
    var v := GetBss(w, bssid);
    hide GetBss, Group, FindBss, FindSta, PutBss, NewSta;
    if HasBss(v, bssid) {
      PutIgtk(v, GetSta(TheBss(v, bssid), a), id, i);
    }
  }

  lemma UpdateIgtk(w: World, bssid: Addr, s: StaV, id: Addr, i: nat)
    requires StaAt(w, bssid, s.addr).Some? && i < 6
    ensures IgtkOf(Update(w, bssid, s), id, i) == IgtkOf(w, id, i)
  {
    hide FindBss, FindSta, PutBss;
    PutIgtk(w, PutSta(TheBss(w, bssid), s), id, i);
  }

  lemma OnStaIgtk(w: World, bssid: Addr, a: Addr, op: StaOp, id: Addr, i: nat)
    requires i < 6
    ensures IgtkOf(OnSta(w, bssid, a, op), id, i) == IgtkOf(w, id, i)
  {
    GetIgtk(w, bssid, a, id, i);
    var v := Get(w, bssid, a);
    hide Get, StaAt, Group, Update, IgtkOf;
    if !Group(bssid) && !Group(a) && StaAt(v, bssid, a).Some? {
      UpdateIgtk(v, bssid, Apply(op, StaAt(v, bssid, a).value), id, i);
    }
  }

  lemma LeaveIgtk(w: World, d: MgmtData, valid: bool, to: AssocState, id: Addr, i: nat)
    requires i < 6
    ensures IgtkOf(Leave(w, d, valid, to), id, i) == IgtkOf(w, id, i)
  {
    var bssid := BssidOf(d);
    GetIgtk(w, bssid, HandlerAddr(d), id, i);
    var v := Get(w, bssid, HandlerAddr(d));
    hide Get, Group, Left, FindBss, PutBss;
    if HasBss(v, bssid) {
      LeftIgtk(TheBss(v, bssid), d, valid, to, i);
      PutIgtk(v, Left(TheBss(v, bssid), d, valid, to), id, i);
    }
  }

  lemma LeftIgtk(b: BssV, d: MgmtData, valid: bool, to: AssocState, i: nat)
    requires i < 6
    ensures IgtkIn(Left(b, d, valid, to), i) == IgtkIn(b, i)
  {
    hide FindSta, Group, Lowered, LowerAll, LinkDown;
  }

  lemma BipIgtk(c: Crypto, w: World, d: MgmtData, id: Addr, i: nat)
    requires i < 6
    ensures IgtkOf(CheckBip(c, w, d).0, id, i) == IgtkOf(w, id, i)
  {
    var bssid := BssidOf(d);
    GetBssIgtk(w, bssid, id, i);
    var v := GetBss(w, bssid);
    hide CheckMmie, GetBss, Group, PutBss, FindBss, Subtype, IgtkIn;
    if HasBss(v, bssid) {
      MmieIgtk(c, TheBss(v, bssid), d, i);
      PutIgtk(v, CheckMmie(c, TheBss(v, bssid), d).0, id, i);
    }
  }

  lemma MmieIgtk(c: Crypto, b: BssV, d: MgmtData, i: nat)
    requires i < 6
    ensures IgtkIn(CheckMmie(c, b, d).0, i) == IgtkIn(b, i)
  {
  }

  lemma DecryptIgtk(c: Crypto, w: World, d: MgmtData, id: Addr, i: nat)
    requires i < 6
    ensures IgtkOf(MgmtCcmpDecrypt(c, w, d).0, id, i) == IgtkOf(w, id, i)
  {
    var bssid, a := BssidOf(d), CheckAddr(d);
    GetIgtk(w, bssid, a, id, i);
    var v := Get(w, bssid, a);
    hide Get, StaAt, Group, Body, Update, IgtkOf, CheckAddr, BssidOf;
    if !Group(bssid) && !Group(a) && StaAt(v, bssid, a).Some? && Body(c, StaAt(v, bssid, a).value, d).Some? {
      BodyLength(c, StaAt(v, bssid, a).value, d);
      UpdateIgtk(v, bssid, NotePn(StaAt(v, bssid, a).value, d), id, i);
    }
  }

  lemma CcmpCheckIgtk(w: World, d: MgmtData, id: Addr, i: nat)
    requires i < 6
    ensures IgtkOf(CheckMgmtCcmp(w, d).0, id, i) == IgtkOf(w, id, i)
  {
    GetIgtk(w, BssidOf(d), CheckAddr(d), id, i);
    hide IgtkOf, Get, StaAt, Group, Subtype;
  }

  lemma PrecheckIgtk(c: Crypto, w: World, d: MgmtData, id: Addr, i: nat)
    requires i < 6
    ensures IgtkOf(Precheck(c, w, d).world, id, i) == IgtkOf(w, id, i)
  {
    BipIgtk(c, w, d, id, i);
    DecryptIgtk(c, w, d, id, i);
    CcmpCheckIgtk(w, d, id, i);
    hide IgtkOf, CheckBip, MgmtCcmpDecrypt, CheckMgmtCcmp, Robust, Group, IsProtected;
  }

  lemma BeaconIgtk(w: World, d: MgmtData, info: Info, id: Addr, i: nat)
    requires i < 6
    ensures IgtkOf(Beacon(w, d, info), id, i) == IgtkOf(w, id, i)
  {
    var bssid := BssidOf(d);
    GetBssIgtk(w, bssid, id, i);
    var v := GetBss(w, bssid);
    hide GetBss, Group, FindBss, PutBss;
    if HasBss(v, bssid) {
      PutIgtk(v, Announced(TheBss(v, bssid), info), id, i);
    }
  }

  lemma MgmtIgtk(c: Crypto, w: World, d: MgmtData, info: Info, id: Addr, i: nat)
    requires i < 6
    ensures IgtkOf(RxMgmt(c, w, d, info), id, i) == IgtkOf(w, id, i)
  {
    var k := Precheck(c, w, d);
    PrecheckIgtk(c, w, d, id, i);
    PrecheckKeeps(c, w, d, id, id);
    hide Precheck, Dispatch, IgtkOf;
    DispatchIgtk(k.world, k.data, Subtype(d), k.valid, info, id, i);
  }

  lemma DispatchIgtk(w: World, d: MgmtData, subtype: bv16, valid: bool, info: Info, id: Addr, i: nat)
    requires i < 6
    ensures IgtkOf(Dispatch(w, d, subtype, valid, info), id, i) == IgtkOf(w, id, i)
  {
    hide IgtkOf, Leave, OnSta, Beacon, AuthOp, AssocReqOp, AssocRespOp, HandlerAddr, Group;
    if subtype == WLAN_FC_STYPE_BEACON || subtype == WLAN_FC_STYPE_PROBE_RESP {
      BeaconIgtk(w, d, info, id, i);
    } else if subtype == WLAN_FC_STYPE_AUTH {
      OnStaIgtk(w, BssidOf(d), HandlerAddr(d), AuthOp(d), id, i);
    } else if subtype == WLAN_FC_STYPE_DEAUTH {
      LeaveIgtk(w, d, valid, State1, id, i);
    } else if subtype == WLAN_FC_STYPE_DISASSOC {
      LeaveIgtk(w, d, valid, State2, id, i);
    } else if subtype == WLAN_FC_STYPE_ASSOC_REQ {
      OnStaIgtk(w, BssidOf(d), Sa(d), AssocReqOp(d, 4, info), id, i);
    } else if subtype == WLAN_FC_STYPE_REASSOC_REQ {
      OnStaIgtk(w, BssidOf(d), Sa(d), AssocReqOp(d, 10, info), id, i);
    } else if subtype == WLAN_FC_STYPE_ASSOC_RESP || subtype == WLAN_FC_STYPE_REASSOC_RESP {
      OnStaIgtk(w, BssidOf(d), Da(d), AssocRespOp(d), id, i);
    } else {
      OnStaIgtk(w, BssidOf(d), HandlerAddr(d), Nothing, id, i);
    }
  }

  lemma TdlsIgtk(c: Crypto, w: World, bssid: Addr, payload: Octets, elems: Option<Elems>, id: Addr, i: nat)
    requires i < 6
    ensures IgtkOf(RxTdls(c, w, bssid, payload, elems), id, i) == IgtkOf(w, id, i)
  {
    hide Linked, LinkOpOf, PutBss, FindBss, FindSta;
    if elems.Some? && LinkOpOf(payload).Some? && Known(w, elems.value.linkId, bssid) {
      var e := elems.value;
      PutIgtk(w, Linked(c, BssOf(w, e.linkId, bssid), LinkOpOf(payload).value, bssid, e), id, i);
    }
  }

  lemma DataIgtk(w: World, e: Event, id: Addr, i: nat)
    requires e.DataDecrypted? && i < 6
    ensures IgtkOf(NoteDataPn(w, e), id, i) == IgtkOf(w, id, i)
  {
    GetIgtk(w, e.apId, e.staAddr, id, i);
    var v := Get(w, e.apId, e.staAddr);
    hide Get, StaAt, Group, IgtkOf, Update;
    if !Group(e.apId) && !Group(e.staAddr) && StaAt(v, e.apId, e.staAddr).Some? && e.tid <= 16 {
      UpdateIgtk(v, e.apId, NoteTid(StaAt(v, e.apId, e.staAddr).value, e.toDs, e.tid, e.pn), id, i);
    }
  }

  // ---- Messages

  /** The message carries this IGTK, and is trusted with the station records before and after it. */
  predicate Trusted(c: Crypto, e: Event, id: Addr, s: StaV, t: StaV, i: nat, key: Octets) {
    MessageFor(e, id, s.addr) && KdeTrusted(c, s, t, Classify(e.key).value, e.key)
    && e.kde.Some? && e.kde.value.id == i && e.kde.value.key == key
  }

  lemma HandledIgtk(c: Crypto, b: BssV, s: StaV, wtPmks: seq<Pmk>, m: Message, e: Event, i: nat)
    requires e.Eapol? && |e.key| >= 99 && HasSta(b, s.addr) && i < 6
    ensures var t := StaStep(c, b.bssid, s, m, e.key, b.pmks + wtPmks, e.learned);
            IgtkIn(Handled(c, b, s, wtPmks, m, e), i)
            == if KdeTrusted(c, s, t, m, e.key) && e.kde.Some? && e.kde.value.id == i then Some(e.kde.value.key)
               else IgtkIn(b, i)
  {
    hide StaStep, KdeTrusted, FindSta;
  }

  lemma MessageIgtk(c: Crypto, w: World, e: Event, id: Addr, i: nat)
    requires e.Eapol? && Classify(e.key).Some? && |e.key| >= 99 && i < 6
    ensures var m := Classify(e.key).value;
            var v := RxMessage(c, w, m, e);
            var addr := StaOf(m, e.dst, e.src);
            var key := IgtkOf(v, id, i);
            key == IgtkOf(w, id, i)
            || (key.Some? && Trusted(c, e, id, RecordOf(w, id, addr), RecordOf(v, id, addr), i, key.value))
  {
    var m := Classify(e.key).value;
    var ap, addr := ApOf(m, e.dst, e.src), StaOf(m, e.dst, e.src);
    var v := Get(w, ap, addr);
    GetIgtk(w, ap, addr, id, i);
    GetQuiet(w, ap, addr, ap, addr);
    GetPmks(w, ap, addr, ap);
    MessageSta(c, w, m, e, ap, addr);
    hide Get, Group, StaStep, KdeTrusted, Handled, IgtkIn, FindBss, FindSta, PutBss, Classify, SameKeys;
    if !Group(ap) && !Group(addr) && StaAt(v, ap, addr).Some? {
      var s := StaAt(v, ap, addr).value;
      HandledIgtk(c, TheBss(v, ap), s, v.pmks, m, e, i);
      PutIgtk(v, Handled(c, TheBss(v, ap), s, v.pmks, m, e), id, i);
    }
  }

  // ---- Runs

  /** One step: an IGTK is as before, or brought by a message that is trusted. */
  lemma StepIgtk(c: Crypto, w: World, e: Event, id: Addr, i: nat)
    requires !e.Flush? && i < 6
    ensures var v := Step(c, w, e);
            var key := IgtkOf(v, id, i);
            key == IgtkOf(w, id, i)
            || (key.Some?
                && exists addr :: Trusted(c, e, id, RecordOf(w, id, addr), RecordOf(v, id, addr), i, key.value))
  {
    match e
    case Mgmt(frame, info) =>
      if |frame| >= 24 {
        hide RxMgmt, IgtkOf;
        MgmtIgtk(c, w, frame, info, id, i);
      }
    case Eapol(_, _, key, _, _) =>
      if Classify(key).Some? {
        hide RxMessage, IgtkOf, RecordOf, Trusted;
        MessageIgtk(c, w, e, id, i);
      }
    case Tdls(bssid, payload, elems) =>
      hide RxTdls, IgtkOf;
      TdlsIgtk(c, w, bssid, payload, elems, id, i);
    case DataDecrypted(_, _, _, _, _) =>
      hide NoteDataPn, IgtkOf;
      DataIgtk(w, e, id, i);
    case AddPmk(pmk) =>
    case AddBssPmk(bssid, pmk) =>
      hide PutBss, FindBss;
      if HasBss(w, bssid) {
        PutIgtk(w, TheBss(w, bssid).(pmks := [pmk] + TheBss(w, bssid).pmks), id, i);
      }
  }

  /**
    Event `k` of the run is a message 3 or a group message 1 of a station's handshake that carries
    the IGTK.  Its MIC verifies under the PTK that the station has then, and that PTK is justified.
   */
  ghost predicate LearnedAt(c: Crypto, h: seq<Event>, id: Addr, i: nat, key: Octets, k: nat, addr: Addr) {
    && k < |h| && MessageFor(h[k], id, addr)
    && h[k].kde.Some? && h[k].kde.value.id == i && h[k].kde.value.key == key
    && var m := Classify(h[k].key).value;
       var s := RecordOf(Run(c, h[..k + 1]), id, addr);
       var ptk := if m == Msg3 then Current(s) else s.ptk;
       (m == Msg3 || m == Group1) && HasKey(s) && MicOk(c, ptk.kck, h[k].key) && Justified(c, h[..k + 1], id, addr, ptk)
  }

  ghost predicate Learned(c: Crypto, h: seq<Event>, id: Addr, i: nat, key: Octets) {
    exists k: nat, addr :: LearnedAt(c, h, id, i, key, k, addr)
  }

  lemma LearnedLater(c: Crypto, h: seq<Event>, g: seq<Event>, id: Addr, i: nat, key: Octets)
    requires Learned(c, h, id, i, key) && h <= g
    ensures Learned(c, g, id, i, key)
  {
    hide Run, RecordOf, Justified, MicOk, MessageFor, Classify;
    var k: nat, addr :| LearnedAt(c, h, id, i, key, k, addr);
    assert g[..k + 1] == h[..k + 1] && g[k] == h[k];
    assert LearnedAt(c, g, id, i, key, k, addr);
  }

  /** Group message 1 leaves the record of its station as it was. */
  lemma GroupKeeps(c: Crypto, w: World, e: Event, id: Addr, addr: Addr)
    requires MessageFor(e, id, addr) && Classify(e.key) == Some(Group1)
    ensures RecordOf(Step(c, w, e), id, addr) == RecordOf(w, id, addr)
  {
    StepKeys(c, w, e, id, addr);
    hide Step, RecordOf, Classify, Pmks, BssPmks, StaAt, Group, SameKeys;
  }

  lemma LearnedNow(c: Crypto, h: seq<Event>, id: Addr, i: nat, key: Octets, addr: Addr)
    requires h != []
    requires var s, t := RecordOf(Run(c, h[..|h| - 1]), id, addr), RecordOf(Run(c, h), id, addr);
             Trusted(c, h[|h| - 1], id, s, t, i, key)
    ensures Learned(c, h, id, i, key)
  {
    var n := |h| - 1;
    var s, t := RecordOf(Run(c, h[..n]), id, addr), RecordOf(Run(c, h), id, addr);
    RunKeys(c, h, id, addr);
    RunStep(c, h);
    if Classify(h[n].key).value == Group1 {
      GroupKeeps(c, Run(c, h[..n]), h[n], id, addr);
    }
    hide *;
    LearnedWith(c, h, id, i, key, s, t);
  }

  lemma LearnedWith(c: Crypto, h: seq<Event>, id: Addr, i: nat, key: Octets, s: StaV, t: StaV)
    requires h != [] && t == RecordOf(Run(c, h), id, t.addr) && s.addr == t.addr
    requires Trusted(c, h[|h| - 1], id, s, t, i, key) && KeysSound(c, h, id, t)
    requires Classify(h[|h| - 1].key) == Some(Group1) ==> t == s
    ensures Learned(c, h, id, i, key)
  {
    var n := |h| - 1;
    assert h[..n + 1] == h;
    hide Run, RecordOf, Justified, MicOk, Classify, Group;
    assert LearnedAt(c, h, id, i, key, n, t.addr);
  }

  lemma FlushIgtk(c: Crypto, w: World, id: Addr, i: nat)
    requires i < 6
    ensures IgtkOf(Step(c, w, Flush), id, i) == None
  {
  }

  lemma RunStep(c: Crypto, h: seq<Event>)
    requires h != []
    ensures Run(c, h) == Step(c, Run(c, h[..|h| - 1]), h[|h| - 1])
  {
    hide Step;
  }

  /** In every run: every IGTK held was learned in that way. */
  lemma {:induction false} RunIgtks(c: Crypto, h: seq<Event>, id: Addr, i: nat)
    requires i < 6
    ensures var key := IgtkOf(Run(c, h), id, i); key.Some? ==> Learned(c, h, id, i, key.value)
  {
    if h == [] {
      assert IgtkOf(World([], []), id, i) == None;
    } else {
      var g, e := h[..|h| - 1], h[|h| - 1];
      var w := Run(c, g);
      RunIgtks(c, g, id, i);
      RunStep(c, h);
      var key := IgtkOf(Run(c, h), id, i);
      if e.Flush? {
        FlushIgtk(c, w, id, i);
      } else if key.Some? {
        StepIgtk(c, w, e, id, i);
        hide *;
        if key == IgtkOf(w, id, i) {
          LearnedLater(c, g, h, id, i, key.value);
        } else {
          var addr :| Trusted(c, e, id, RecordOf(w, id, addr), RecordOf(Run(c, h), id, addr), i, key.value);
          LearnedNow(c, h, id, i, key.value, addr);
        }
      }
    }
  }
}
