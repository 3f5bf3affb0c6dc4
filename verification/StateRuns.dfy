/**
  Association states in runs of the tracker: the only events that change the state of a station,
  and what leaving frames to a group address do (rx_mgmt.c).
 */
module StateRuns {
  import opened Options
  import opened Records
  import opened Handshake
  import opened MgmtFrames
  import opened TrackerRuns
  import opened TrackerTables
  import opened StaEvents

  // ---- What may change a state

  /** A management frame of the BSS. */
  predicate FrameIn(e: Event, id: Addr) { e.Mgmt? && |e.frame| >= 24 && e.frame[16..22] == id }

  predicate AuthenticatesIn(e: Event, id: Addr, addr: Addr) { FrameIn(e, id) && Authenticates(e.frame, addr) }

  predicate AcceptsIn(e: Event, id: Addr, addr: Addr) { FrameIn(e, id) && Accepts(e.frame, addr) }

  /** A leaving frame for the station, judged valid. */
  predicate ReleasesIn(c: Crypto, w: World, e: Event, id: Addr, addr: Addr) {
    FrameIn(e, id) && LeavesFor(e.frame, addr) && Judged(c, w, id, e.frame)
  }

  /** The state of a station after an event, from its record before it. */
  function StateAfter(c: Crypto, w: World, e: Event, id: Addr, s: StaV): AssocState {
    if AuthenticatesIn(e, id, s.addr) && s.state == State1 then State2
    else if AcceptsIn(e, id, s.addr) then State3
    else if ReleasesIn(c, w, e, id, s.addr) then Released(s, e.frame).state
    else s.state
  }

  /** The state of a station, or the one it would start with. */
  function StateOf(w: World, id: Addr, addr: Addr): AssocState { RecordOf(w, id, addr).state }

  lemma AfterState(c: Crypto, w: World, e: Event, id: Addr, s: StaV)
    ensures RecordAfter(c, w, e, id, s).state == StateAfter(c, w, e, id, s)
  {
    hide Noted, KeyFrameAfter, BetweenThem, Judged, Authenticates, Accepts, ActedSta;
  }

  predicate Below(a: AssocState, b: AssocState) { (a == State1 && b != State1) || (a == State2 && b == State3) }

  lemma BelowAfter(c: Crypto, w: World, e: Event, id: Addr, s: StaV)
    ensures Below(StateAfter(c, w, e, id, s), s.state) ==> ReleasesIn(c, w, e, id, s.addr)
  {
    hide AuthenticatesIn, AcceptsIn, ReleasesIn;
  }

  /**
    A flush aside, the state of a station changes by three kinds of event only: a successful
    authentication, an accepting response, and a leaving frame for it that is judged valid.  Only
    the last lowers it.
   */
  lemma StateSteps(c: Crypto, w: World, e: Event, id: Addr, addr: Addr)
    requires !e.Flush? && !Group(id) && !Group(addr)
    ensures StateOf(Step(c, w, e), id, addr) == StateAfter(c, w, e, id, RecordOf(w, id, addr))
    ensures Below(StateOf(Step(c, w, e), id, addr), StateOf(w, id, addr)) ==> ReleasesIn(c, w, e, id, addr)
  {
    var s := RecordOf(w, id, addr);
    StepSta(c, w, e, id, addr);
    AfterState(c, w, e, id, s);
    BelowAfter(c, w, e, id, s);
    NeverListed(c, w, e, id, addr);
    hide Step, StaAt, Lists, RecordAfter, StateAfter, ReleasesIn, Below, Group, NewSta;
  }

  /** An event that does not have a record looked up leaves one that is not there in state 1. */
  lemma NeverListed(c: Crypto, w: World, e: Event, id: Addr, addr: Addr)
    ensures !Lists(e, id, addr) ==> RecordAfter(c, w, e, id, NewSta(addr)) == NewSta(addr)
  {
  }

  // ---- Every run

  /** Nothing takes the station out of state 3 from event `k` of the run on. */
  ghost predicate StaysFrom(c: Crypto, h: seq<Event>, id: Addr, addr: Addr, k: nat) {
    forall j | k <= j < |h| :: !h[j].Flush? && !ReleasesIn(c, Run(c, h[..j]), h[j], id, addr)
  }

  /** Event `k` accepted the station, and since then no valid leaving frame and no flush released it. */
  ghost predicate AcceptedAt(c: Crypto, h: seq<Event>, id: Addr, addr: Addr, k: nat) {
    k < |h| && AcceptsIn(h[k], id, addr) && StaysFrom(c, h, id, addr, k + 1)
  }

  ghost predicate AcceptedLast(c: Crypto, h: seq<Event>, id: Addr, addr: Addr) {
    exists k: nat :: AcceptedAt(c, h, id, addr, k)
  }

  lemma AcceptedAtStep(c: Crypto, h: seq<Event>, id: Addr, addr: Addr, k: nat)
    requires k < |h|
    ensures var g, e := h[..|h| - 1], h[|h| - 1];
            AcceptedAt(c, h, id, addr, k)
            <==> if k == |g| then AcceptsIn(e, id, addr)
                 else AcceptedAt(c, g, id, addr, k) && !e.Flush? && !ReleasesIn(c, Run(c, g), e, id, addr)
  {
    var g := h[..|h| - 1];
    hide AcceptsIn, ReleasesIn, Run;
    if k < |g| {
      assert h[k] == g[k];
      forall j | 0 <= j < |g| ensures g[..j] == h[..j] && h[j] == g[j] {
      }
    }
  }

  lemma AcceptedStep(c: Crypto, h: seq<Event>, id: Addr, addr: Addr)
    requires h != []
    ensures var g, e := h[..|h| - 1], h[|h| - 1];
            AcceptedLast(c, h, id, addr)
            <==> AcceptsIn(e, id, addr)
                 || (AcceptedLast(c, g, id, addr) && !e.Flush? && !ReleasesIn(c, Run(c, g), e, id, addr))
  {
    var g := h[..|h| - 1];
    assert forall k: nat | AcceptedAt(c, h, id, addr, k) || AcceptedAt(c, g, id, addr, k) :: k < |h|;
    hide AcceptsIn, ReleasesIn, Run, AcceptedAt;
    AcceptedAtStep(c, h, id, addr, |g|);
    if AcceptedLast(c, g, id, addr) {
      var k: nat :| AcceptedAt(c, g, id, addr, k);
      AcceptedAtStep(c, h, id, addr, k);
    }
    if AcceptedLast(c, h, id, addr) {
      var k: nat :| AcceptedAt(c, h, id, addr, k);
      AcceptedAtStep(c, h, id, addr, k);
    }
  }

  /** After every run, a station is associated exactly if that is so. */
  lemma {:induction false} RunAssociated(c: Crypto, h: seq<Event>, id: Addr, addr: Addr)
    requires !Group(id) && !Group(addr)
    ensures StateOf(Run(c, h), id, addr) == State3 <==> AcceptedLast(c, h, id, addr)
  {
    if h == [] {
      assert StaAt(World([], []), id, addr) == None;
    } else {
      var g, e := h[..|h| - 1], h[|h| - 1];
      var w := Run(c, g);
      RunAssociated(c, g, id, addr);
      AcceptedStep(c, h, id, addr);
      if e.Flush? {
        FlushPmks(c, w, id);
        hide Step, StaAt, AcceptedLast;
      } else {
        StateSteps(c, w, e, id, addr);
        hide Step, RecordOf, AcceptedLast, Group, Judged, LeavesFor, Authenticates, Accepts;
      }
    }
  }

  // ---- Leaving frames to a group address

  /** There is an MMIE that is not judged: its key ID is not one for IGTKs, or its IGTK is not known. */
  predicate Unjudged(b: BssV, d: MgmtData) {
    HasElement(d) && (KeyIdIs(d, 4) ==> !b.igtks[4].known) && (KeyIdIs(d, 5) ==> !b.igtks[5].known)
  }

  lemma UnjudgedPasses(c: Crypto, b: BssV, d: MgmtData)
    requires Unjudged(b, d)
    ensures GroupOk(c, b, d)
  {
  }

  /**
    After every run, a leaving frame to a group address takes each station of its BSS that it is
    for to the state it says, exactly if it has an MMIE whose MIC verifies or which is not judged,
    or has none and the BSS no management frame protection.
   */
  lemma RunGroupLeaving(c: Crypto, h: seq<Event>, d: MgmtData, info: Info, addr: Addr)
    requires d[4] & 0x01 != 0 && |d| >= 26 && StaAt(Run(c, h), d[16..22], addr).Some?
    requires d[0] & 0xf0 == 0xa0 || d[0] & 0xf0 == 0xc0
    ensures var w, id := Run(c, h), d[16..22];
            var s := StaAt(w, id, addr).value;
            && HasBss(w, id)
            && StateOf(Run(c, h + [Mgmt(d, info)]), id, addr)
               == if LeavesFor(d, addr) && GroupOk(c, TheBss(w, id), d) then Released(s, d).state else s.state
  {
    var w, id: Addr := Run(c, h), d[16..22];
    RunValid(c, h);
    StoredAddresses(w, id, addr);
    var e := Mgmt(d, info);
    var g := h + [e];
    assert g[..|g| - 1] == h && Run(c, g) == Step(c, w, e);
    assert HasBss(w, id);
    GroupAfter(c, w, d, info, id, StaAt(w, id, addr).value);
    hide Run, Step, Valid, Group, StaAt, FindBss, LeavesFor, GroupOk, Released, StateAfter;
    StateSteps(c, w, e, id, addr);
  }

  lemma GroupAfter(c: Crypto, w: World, d: MgmtData, info: Info, id: Addr, s: StaV)
    requires d[4] & 0x01 != 0 && |d| >= 26 && id == d[16..22] && HasBss(w, id)
    requires d[0] & 0xf0 == 0xa0 || d[0] & 0xf0 == 0xc0
    ensures StateAfter(c, w, Mgmt(d, info), id, s)
            == if LeavesFor(d, s.addr) && GroupOk(c, TheBss(w, id), d) then Released(s, d).state else s.state
  {
    hide GroupOk, FindBss, RecordOf;
  }
}
