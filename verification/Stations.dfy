/**
  Station records as objects: the handlers of rx_eapol.c update them in place.  Each is proved
  against its step in `Handshake`.
 */
module Stations {
  import opened Options
  import opened Octets
  import opened Records
  import opened Handshake
  import opened MgmtFrames
  import Ccmp

  /** `struct wlantest_sta` */
  class Sta {
    const addr: Addr
    var state: AssocState
    var sec: Sec
    var anonce: Octets
    var snonce: Octets
    var ptk: Ptk
    var ptkSet: bool
    var tptk: Ptk
    var tptkSet: bool
    var rscToDs: Rsc
    var rscFromDs: Rsc

    ghost function View(): (v: StaV)
      reads this
      ensures v.addr == addr
    {
      StaV(addr, state, sec, anonce, snonce, ptk, ptkSet, tptk, tptkSet, rscToDs, rscFromDs)
    }

    constructor (addr: Addr)
      ensures View() == NewSta(addr)
    {
      this.addr, state, sec := addr, State1, Sec(false, false, false);
      anonce, snonce := Zeros(32), Zeros(32);
      ptk, ptkSet, tptk, tptkSet := NO_PTK, false, NO_PTK, false;
      rscToDs, rscFromDs := ZeroRsc(), ZeroRsc();
    }

    /** The change of state that a management frame makes. */
    method ApplyOp(op: StaOp)
      modifies this
      ensures View() == Apply(op, old(View()))
    {
      match op
      case Authenticated =>
        if state == State1 {
          state := State2;
        }
      case Associated =>
        if state != State3 {
          state := State3;
        }
      case SecLearned(learned) => sec := learned;
      case Nothing =>
    }

    /** The change of state on deauthentication (to state 1) and disassociation (to state 2). */
    method Lower(to: AssocState)
      modifies this
      ensures View() == Lowered(old(View()), to)
    {
      if to == State1 {
        if state != State1 {
          state := State1;
        }
      } else if state == State3 {
        state := to;
      }
    }

    /** The packet number of a management frame noted for its direction. */
    method NoteMgmt(d: MgmtData)
      requires |d| >= 32
      modifies this
      ensures View() == NotePn(old(View()), d)
    {
      if Da(d) == BssidOf(d) {
        rscToDs := rscToDs[16 := Ccmp.Pn(d[24..])];
      } else {
        rscFromDs := rscFromDs[16 := Ccmp.Pn(d[24..])];
      }
    }

    /** The packet number of a data frame noted for its direction. */
    method NoteData(toDs: bool, tid: nat, pn: Octets)
      requires tid <= 16
      modifies this
      ensures View() == NoteTid(old(View()), toDs, tid, pn)
    {
      if toDs {
        rscToDs := rscToDs[tid := pn];
      } else {
        rscFromDs := rscFromDs[tid := pn];
      }
    }

    /** `rx_data_eapol_key_1_of_4` */
    method RxKey1Of4(d: KeyFrame)
      modifies this
      ensures View() == Rx1Of4(old(View()), d)
    {
      anonce := KeyNonce(d);
    }

    /** `try_pmk` */
    method TryPmk(c: Crypto, bssid: Addr, d: KeyFrame, pmk: Pmk) returns (ok: bool)
      modifies this
      ensures ok <==> Explains(c, bssid, old(View()), d, pmk)
      ensures View() == if ok then Install(old(View()), Derived(c, bssid, old(View()), pmk)) else old(View())
    {
      hide MicOk, ZeroRsc;
      var p := c.prf(PtkInput(pmk, bssid, addr, anonce, snonce, sec.tkip, sec.sha256));
      ok := MicOk(c, p.kck, d);
      if !ok {
        return;
      }
      if ptkSet {
        tptk := p;
        tptkSet := true;
        return;
      }
      ptk := p;
      ptkSet := true;
      rscToDs := ZeroRsc();
      rscFromDs := ZeroRsc();
    }

    /** One of the loops of `derive_ptk`; `rest` is what would be tried after it. */
    method TryAll(c: Crypto, bssid: Addr, d: KeyFrame, pmks: seq<Pmk>, ghost rest: seq<Pmk>) returns (found: bool)
      modifies this
      ensures found ==> View() == DerivePtk(c, bssid, old(View()), d, pmks + rest)
      ensures !found ==> View() == old(View())
                         && DerivePtk(c, bssid, old(View()), d, pmks + rest)
                            == DerivePtk(c, bssid, old(View()), d, rest)
    {
      hide Explains, Install, Derived;
      ghost var all := pmks + rest;
      ghost var goal := DerivePtk(c, bssid, View(), d, all);
      assert all[0..] == all;
      var i := 0;
      while i < |pmks|
        invariant 0 <= i <= |pmks| && View() == old(View())
        invariant DerivePtk(c, bssid, View(), d, all[i..]) == goal
      {
        assert all[i..][0] == pmks[i] && all[i..][1..] == all[i + 1..];
        found := TryPmk(c, bssid, d, pmks[i]);
        if found {
          return;
        }
        i := i + 1;
      }
      assert all[i..] == rest;
      found := false;
    }

    /** `derive_ptk`: the PMKs of the BSS, then the global ones */
    method Derive(c: Crypto, bssid: Addr, d: KeyFrame, bssPmks: seq<Pmk>, wtPmks: seq<Pmk>)
      modifies this
      ensures View() == DerivePtk(c, bssid, old(View()), d, bssPmks + wtPmks)
    {
      var found := TryAll(c, bssid, d, bssPmks, wtPmks);
      if found {
        return;
      }
      assert wtPmks + [] == wtPmks;
      found := TryAll(c, bssid, d, wtPmks, []);
      assert DerivePtk(c, bssid, View(), d, []) == View();
    }

    /** The choice of the KCK and the check of the MIC, common to the handlers. */
    method VerifyMic(c: Crypto, d: KeyFrame) returns (ok: bool)
      ensures ok <==> Verifies(c, View(), d)
    {
      hide MicOk;
      if !ptkSet && !tptkSet {
        return false;
      }
      var kck := ptk.kck;
      if tptkSet {
        kck := tptk.kck;
      }
      ok := MicOk(c, kck, d);
    }

    /** `rx_data_eapol_key_2_of_4` */
    method RxKey2Of4(c: Crypto, bssid: Addr, d: KeyFrame, bssPmks: seq<Pmk>, wtPmks: seq<Pmk>, learned: Option<Sec>)
      modifies this
      ensures View() == Rx2Of4(c, bssid, old(View()), d, bssPmks + wtPmks, learned)
    {
      hide DerivePtk, Verifies, KeyNonce;
      snonce := KeyNonce(d);
      Derive(c, bssid, d, bssPmks, wtPmks);
      var ok := VerifyMic(c, d);
      if !ok {
        return;
      }
      if learned.Some? {
        sec := learned.value;
      }
    }

    /** `rx_data_eapol_key_3_of_4`; whether the group keys in it are to be looked at */
    method RxKey3Of4(c: Crypto, bssid: Addr, d: KeyFrame, bssPmks: seq<Pmk>, wtPmks: seq<Pmk>) returns (ok: bool)
      modifies this
      ensures View() == Rx3Of4(c, bssid, old(View()), d, bssPmks + wtPmks)
      ensures ok <==> Verifies(c, View(), d)
    {
      hide DerivePtk, Verifies, KeyNonce;
      var recalc := false;
      if anonce != KeyNonce(d) {
        recalc := true;
      }
      anonce := KeyNonce(d);
      if recalc {
        Derive(c, bssid, d, bssPmks, wtPmks);
      }
      ok := VerifyMic(c, d);
    }

    /** `rx_data_eapol_key_4_of_4` */
    method RxKey4Of4(c: Crypto, d: KeyFrame)
      modifies this
      ensures View() == Rx4Of4(c, old(View()), d)
    {
      hide Verifies, ZeroRsc;
      var ok := VerifyMic(c, d);
      if !ok {
        return;
      }
      if tptkSet {
        ptk := tptk;
        ptkSet := true;
        tptkSet := false;
        rscToDs := ZeroRsc();
        rscFromDs := ZeroRsc();
      }
    }

    /** `rx_data_eapol_key_1_of_2`, up to the group keys */
    method RxKey1Of2(c: Crypto, d: KeyFrame) returns (ok: bool)
      ensures ok <==> ptkSet && MicOk(c, ptk.kck, d)
    {
      hide MicOk;
      if !ptkSet {
        return false;
      }
      ok := MicOk(c, ptk.kck, d);
    }

    /** The handler of a message; whether the group keys in it are to be looked at */
    method RxMessage(c: Crypto, bssid: Addr, m: Message, d: KeyFrame, bssPmks: seq<Pmk>, wtPmks: seq<Pmk>,
                     learned: Option<Sec>)
      returns (trusted: bool)
      modifies this
      ensures View() == StaStep(c, bssid, old(View()), m, d, bssPmks + wtPmks, learned)
      ensures trusted <==> || (m == Msg3 && Verifies(c, View(), d))
                           || (m == Group1 && View().ptkSet && MicOk(c, View().ptk.kck, d))
    {
      hide Verifies, MicOk, Rx1Of4, Rx2Of4, Rx3Of4, Rx4Of4;
      trusted := false;
      match m
      case Msg1 => RxKey1Of4(d);
      case Msg2 => RxKey2Of4(c, bssid, d, bssPmks, wtPmks, learned);
      case Msg3 => trusted := RxKey3Of4(c, bssid, d, bssPmks, wtPmks);
      case Msg4 => RxKey4Of4(c, d);
      case Group1 => trusted := RxKey1Of2(c, d);
      case Group2 =>
    }
  }
}
