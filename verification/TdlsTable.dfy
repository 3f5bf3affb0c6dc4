/**
  TDLS frames (rx_tdls.c): the table of direct links of a BSS, its entries found or added by
  setup and teardown frames, and the keys derived for them.
 */
module TdlsTable {
  import opened Options
  import opened Octets
  import opened Records
  import opened Handshake
  import opened Counters

  const WLAN_ACTION_TDLS: Octet := 12
  const WLAN_TDLS_SETUP_REQUEST: Octet := 0
  const WLAN_TDLS_SETUP_RESPONSE: Octet := 1
  const WLAN_TDLS_SETUP_CONFIRM: Octet := 2
  const WLAN_TDLS_TEARDOWN: Octet := 3

  /** The link identifier: BSSID, initiator and responder. */
  type LinkId = s: Octets | |s| == 18 witness Zeros(18)

  function LinkBssid(l: LinkId): Addr { l[..6] }

  function Initiator(l: LinkId): Addr { l[6..12] }

  function Responder(l: LinkId): Addr { l[12..] }

  /** Parsed elements: the link identifier, and RSN, timeout and fast-transition elements. */
  datatype Elems = Elems(linkId: LinkId, rsnIe: Option<Octets>, timeoutInt: Option<Octets>, ftie: Option<Octets>)

  // ---- The table

  /** The first entry for an ordered pair, or the length. */
  function FindLink(tdls: seq<TdlsV>, init: Addr, resp: Addr): (i: nat)
    ensures i <= |tdls| && (i < |tdls| ==> tdls[i].init == init && tdls[i].resp == resp)
    ensures forall j | 0 <= j < i :: tdls[j].init != init || tdls[j].resp != resp
  {
    if tdls == [] || (tdls[0].init == init && tdls[0].resp == resp) then 0 else 1 + FindLink(tdls[1..], init, resp)
  }

  predicate HasLink(b: BssV, init: Addr, resp: Addr) { FindLink(b.tdls, init, resp) < |b.tdls| }

  function TheLink(b: BssV, init: Addr, resp: Addr): (t: TdlsV)
    requires HasLink(b, init, resp)
    ensures t.init == init && t.resp == resp
  {
    b.tdls[FindLink(b.tdls, init, resp)]
  }

  function PutLink(b: BssV, t: TdlsV): (c: BssV)
    requires HasLink(b, t.init, t.resp)
    ensures c == b.(tdls := c.tdls)
  {
    b.(tdls := b.tdls[FindLink(b.tdls, t.init, t.resp) := t])
  }

  function NewLink(init: Addr, resp: Addr): (t: TdlsV)
    ensures t.init == init && t.resp == resp && !t.linkUp
  {
    TdlsV(init, resp, Zeros(16), Zeros(16), false, 0)
  }

  /** The BSS of a link: the one in the identifier, or else the one the frame was seen in. */
  function LinkBss(w: World, l: LinkId, bssid: Addr): Option<Addr> {
    if HasBss(w, LinkBssid(l)) then Some(LinkBssid(l))
    else if HasBss(w, bssid) then Some(bssid)
    else None
  }

  /** Whether the identifier names two stations of a known BSS. */
  predicate Known(w: World, l: LinkId, bssid: Addr) {
    LinkBss(w, l, bssid).Some?
    && var b := TheBss(w, LinkBss(w, l, bssid).value); HasSta(b, Initiator(l)) && HasSta(b, Responder(l))
  }

  function BssOf(w: World, l: LinkId, bssid: Addr): BssV
    requires Known(w, l, bssid)
  {
    TheBss(w, LinkBss(w, l, bssid).value)
  }

  /** The entry, added in front if it is new. */
  function WithLink(b: BssV, init: Addr, resp: Addr): (c: BssV)
    ensures c == b.(tdls := c.tdls) && HasLink(c, init, resp)
  {
    if HasLink(b, init, resp) then b
    else
      var c := b.(tdls := [NewLink(init, resp)] + b.tdls);
      c
  }

  /** `tdls_deinit` of the entry for a pair, if there is one. */
  function WithoutLink(b: BssV, init: Addr, resp: Addr): (c: BssV)
    ensures c == b.(tdls := c.tdls)
  {
    var i := FindLink(b.tdls, init, resp);
    if i < |b.tdls| then b.(tdls := b.tdls[..i] + b.tdls[i + 1..]) else b
  }

  // ---- Keys and codes

  function Min(a: Octets, b: Octets): Octets
    requires |a| == |b|
  {
    if Before(a, b) then a else b
  }

  function Max(a: Octets, b: Octets): Octets
    requires |a| == |b|
  {
    if Before(a, b) then b else a
  }

  /** A fast-transition element that holds `struct rsn_ftie`. */
  type Ftie = f: Octets | |f| >= 82 witness Zeros(82)

  function AnonceOf(f: Ftie): Octets { f[18..50] }

  function SnonceOf(f: Ftie): Octets { f[50..82] }

  /** `tdls_derive_tpk`: key confirmation key and temporal key. */
  function Tpk(c: Crypto, init: Addr, resp: Addr, bssid: Addr, anonce: Octets, snonce: Octets): (Octets, Octets)
    requires |anonce| == |snonce|
  {
    c.kdf(c.hash(Min(anonce, snonce) + Max(anonce, snonce)), Min(init, resp) + Max(init, resp) + bssid)
  }

  lemma BeforeAsymmetric(a: Octets, b: Octets)
    requires |a| == |b|
    ensures !(Before(a, b) && Before(b, a)) && (a != b ==> Before(a, b) || Before(b, a))
  {
    BeforeIsLess(a, b);
    BeforeIsLess(b, a);
    EncodeValue(a);
    EncodeValue(b);
    hide Before, Value, Encode;
  }

  lemma MinMaxCommute(a: Octets, b: Octets)
    requires |a| == |b|
    ensures Min(a, b) == Min(b, a) && Max(a, b) == Max(b, a)
  {
    BeforeAsymmetric(a, b);
    hide Before;
  }

  /** Both ends derive the same keys: roles and nonces may be exchanged. */
  lemma TpkSymmetric(c: Crypto, init: Addr, resp: Addr, bssid: Addr, anonce: Octets, snonce: Octets)
    requires |anonce| == |snonce|
    ensures Tpk(c, init, resp, bssid, anonce, snonce) == Tpk(c, resp, init, bssid, anonce, snonce)
    ensures Tpk(c, init, resp, bssid, anonce, snonce) == Tpk(c, init, resp, bssid, snonce, anonce)
  {
    MinMaxCommute(anonce, snonce);
    MinMaxCommute(init, resp);
    hide Min, Max;
  }

  /** The smaller of two of one length as numbers, the first octet the highest, and the larger. */
  function Lesser(a: Octets, b: Octets): Octets { if Value(a) <= Value(b) then a else b }

  function Greater(a: Octets, b: Octets): Octets { if Value(a) <= Value(b) then b else a }

  lemma MinMaxByNumber(a: Octets, b: Octets)
    requires |a| == |b|
    ensures Min(a, b) == Lesser(a, b) && Max(a, b) == Greater(a, b)
  {
    BeforeIsLess(a, b);
    EncodeValue(a);
    EncodeValue(b);
    hide Before, Value, Encode;
  }

  /**
    The keys are those of the two nonces, the smaller number first, and of the two addresses, the
    smaller number first, with the BSSID behind them.
   */
  lemma TpkByNumber(c: Crypto, init: Addr, resp: Addr, bssid: Addr, anonce: Octets, snonce: Octets)
    requires |anonce| == |snonce|
    ensures Tpk(c, init, resp, bssid, anonce, snonce)
            == c.kdf(c.hash(Lesser(anonce, snonce) + Greater(anonce, snonce)),
                     Lesser(init, resp) + Greater(init, resp) + bssid)
  {
    MinMaxByNumber(anonce, snonce);
    MinMaxByNumber(init, resp);
    hide Min, Max, Lesser, Greater;
  }

  /** An element with its header. */
  function WithHeader(id: Octet, body: Octets): Octets { [id, Byte(|body| % 256)] + body }

  const WLAN_EID_RSN: Octet := 48
  const WLAN_EID_FAST_BSS_TRANSITION: Octet := 55
  const WLAN_EID_TIMEOUT_INTERVAL: Octet := 56
  const WLAN_EID_LINK_ID: Octet := 101

  /** The element with its MIC field zeroed. */
  function FtieWithoutMic(f: Ftie): Octets { f[..2] + Zeros(16) + f[18..] }

  /** `tdls_verify_mic` */
  predicate SetupMicOk(c: Crypto, kck: Octets, seq_: Octet, e: Elems) {
    e.rsnIe.Some? && e.timeoutInt.Some? && e.ftie.Some? && |e.ftie.value| >= 82
    && c.omac(kck, e.linkId[6..] + [seq_] + WithHeader(WLAN_EID_LINK_ID, e.linkId)
                   + WithHeader(WLAN_EID_RSN, e.rsnIe.value)
                   + WithHeader(WLAN_EID_TIMEOUT_INTERVAL, e.timeoutInt.value)
                   + WithHeader(WLAN_EID_FAST_BSS_TRANSITION, FtieWithoutMic(e.ftie.value))) == e.ftie.value[2..18]
  }

  /** `tdls_derive_tpk` as it changes an entry, where the element is there in full length. */
  function Keyed(c: Crypto, t: TdlsV, bssid: Addr, f: Ftie): (u: TdlsV)
    ensures u.init == t.init && u.resp == t.resp && u.linkUp == t.linkUp
  {
    var keys := Tpk(c, t.init, t.resp, bssid, AnonceOf(f), SnonceOf(f));
    t.(tpkKck := keys.0, tpkTk := keys.1)
  }

  function TokenIf(t: TdlsV, ok: bool, token: Octet): (u: TdlsV)
    ensures u.init == t.init && u.resp == t.resp && u.linkUp == t.linkUp
  {
    if ok then t.(dialogToken := token) else t
  }

  predicate FullFtie(e: Elems) { e.ftie.Some? && |e.ftie.value| >= 82 }

  /** A link with the key derived from a frame, and its dialog token if the frame's code is right. */
  function Answered(c: Crypto, t: TdlsV, seenIn: Addr, e: Elems, seq_: Octet, token: Octet): (u: TdlsV)
    requires FullFtie(e)
    ensures u.init == t.init && u.resp == t.resp && u.linkUp == t.linkUp
  {
    var k := Keyed(c, t, seenIn, e.ftie.value);
    TokenIf(k, SetupMicOk(c, k.tpkKck, seq_, e), token)
  }

  /** A link after a successful Setup Confirm. */
  function Risen(c: Crypto, t: TdlsV, seenIn: Addr, e: Elems, token: Octet): (u: TdlsV)
    ensures u.init == t.init && u.resp == t.resp && u.linkUp
  {
    if FullFtie(e) then Answered(c, t.(linkUp := true), seenIn, e, 3, token) else t.(linkUp := true)
  }

  // ---- Frames

  /** What a successful Setup Confirm makes of the BSS. */
  function Confirmed(c: Crypto, b: BssV, bssid: Addr, e: Elems, token: Octet): (d: BssV)
    requires HasLink(b, Initiator(e.linkId), Responder(e.linkId))
    ensures d == b.(tdls := d.tdls)
  {
    var (i, r) := (Initiator(e.linkId), Responder(e.linkId));
    var up := PutLink(b, Risen(c, TheLink(b, i, r), bssid, e, token));
    if e.ftie.Some? && !FullFtie(e) then up else WithoutLink(up, r, i)
  }

  /** A TDLS frame with what its fixed fields say. */
  datatype LinkOp =
    | Request(token: Octet)
    | Response(success: bool, token: Octet)
    | Confirmation(success: bool, token: Octet)
    | TornDown

  /** Which frame an action frame payload is: `rx_data_tdls` and the length tests of the handlers. */
  function LinkOpOf(data: Octets): Option<LinkOp> {
    if |data| < 2 || data[0] != WLAN_ACTION_TDLS then None
    else
      var p := data[2..];
      if data[1] == WLAN_TDLS_SETUP_REQUEST && |p| >= 3 then Some(Request(p[0]))
      else if data[1] == WLAN_TDLS_SETUP_RESPONSE && |p| >= 5 then Some(Response(GetLe16(p, 0) == 0, p[2]))
      else if data[1] == WLAN_TDLS_SETUP_CONFIRM && |p| >= 3 then Some(Confirmation(GetLe16(p, 0) == 0, p[2]))
      else if data[1] == WLAN_TDLS_TEARDOWN && |p| >= 2 then Some(TornDown)
      else None
  }

  /** What a setup or teardown frame makes of a BSS that knows both stations; it was seen in BSS `seenIn`. */
  function Linked(c: Crypto, b: BssV, op: LinkOp, seenIn: Addr, e: Elems): (d: BssV)
    ensures d == b.(tdls := d.tdls)
  {
    var (i, r) := (Initiator(e.linkId), Responder(e.linkId));
    var n := WithLink(b, i, r);
    match op
    case Request(token) => PutLink(n, TheLink(n, i, r).(dialogToken := token))
    case Response(success, token) =>
      if !success || !FullFtie(e) then n else PutLink(n, Answered(c, TheLink(n, i, r), seenIn, e, 2, token))
    case Confirmation(success, token) => if success then Confirmed(c, n, seenIn, e, token) else n
    case TornDown => PutLink(n, TheLink(n, i, r).(linkUp := false))
  }

  /** `rx_data_tdls_setup_request`, `_response`, `_confirm` and `rx_data_tdls_teardown` */
  function OnLink(c: Crypto, w: World, seenIn: Addr, op: LinkOp, e: Elems): World {
    if !Known(w, e.linkId, seenIn) then w else PutBss(w, Linked(c, BssOf(w, e.linkId, seenIn), op, seenIn, e))
  }

  /** `rx_data_tdls`: `data` is the payload of the TDLS action frame, `elems` what its elements are. */
  function RxTdls(c: Crypto, w: World, bssid: Addr, data: Octets, elems: Option<Elems>): World {
    if elems.None? || LinkOpOf(data).None? then w else OnLink(c, w, bssid, LinkOpOf(data).value, elems.value)
  }

  // ---- What a Setup Confirm leaves of the reverse direction

  predicate DistinctLinks(tdls: seq<TdlsV>) {
    forall i, j | 0 <= i < j < |tdls| :: tdls[i].init != tdls[j].init || tdls[i].resp != tdls[j].resp
  }

  lemma FoundLink(tdls: seq<TdlsV>, init: Addr, resp: Addr, i: nat)
    requires i < |tdls| && tdls[i].init == init && tdls[i].resp == resp
    requires forall j | 0 <= j < i :: tdls[j].init != init || tdls[j].resp != resp
    ensures FindLink(tdls, init, resp) == i
  {
  }

  lemma NoLink(tdls: seq<TdlsV>, init: Addr, resp: Addr)
    requires forall j | 0 <= j < |tdls| :: tdls[j].init != init || tdls[j].resp != resp
    ensures FindLink(tdls, init, resp) == |tdls|
  {
  }

  lemma FindPutLink(b: BssV, t: TdlsV, init: Addr, resp: Addr)
    requires HasLink(b, t.init, t.resp)
    ensures FindLink(PutLink(b, t).tdls, init, resp) == FindLink(b.tdls, init, resp)
  {
    var tdls := PutLink(b, t).tdls;
    var i := FindLink(b.tdls, init, resp);
    if i < |b.tdls| {
      FoundLink(tdls, init, resp, i);
    } else {
      NoLink(tdls, init, resp);
    }
  }

  lemma WithoutLinkDistinct(b: BssV, init: Addr, resp: Addr)
    requires DistinctLinks(b.tdls)
    ensures DistinctLinks(WithoutLink(b, init, resp).tdls)
  {
    hide FindLink;
  }

  lemma WithoutLinkAt(b: BssV, init: Addr, resp: Addr, i: Addr, r: Addr)
    requires DistinctLinks(b.tdls)
    ensures HasLink(WithoutLink(b, init, resp), i, r) <==> HasLink(b, i, r) && (i != init || r != resp)
    ensures HasLink(b, i, r) && (i != init || r != resp) ==>
              TheLink(WithoutLink(b, init, resp), i, r) == TheLink(b, i, r)
  {
    var k, m := FindLink(b.tdls, init, resp), FindLink(b.tdls, i, r);
    if k < |b.tdls| {
      if m < |b.tdls| && m != k {
        LinkLeft(b.tdls, k, i, r, m);
      } else {
        LinkTaken(b.tdls, k, i, r);
      }
    }
  }

  lemma LinkLeft(tdls: seq<TdlsV>, k: nat, i: Addr, r: Addr, m: nat)
    requires k < |tdls| && m < |tdls| && m != k && m == FindLink(tdls, i, r)
    ensures var rest := tdls[..k] + tdls[k + 1..];
            var n := if m < k then m else m - 1;
            FindLink(rest, i, r) == n && rest[n] == tdls[m]
  {
    hide FindLink;
    FoundLink(tdls[..k] + tdls[k + 1..], i, r, if m < k then m else m - 1);
  }

  lemma LinkTaken(tdls: seq<TdlsV>, k: nat, i: Addr, r: Addr)
    requires DistinctLinks(tdls) && k < |tdls| && (FindLink(tdls, i, r) == k || FindLink(tdls, i, r) == |tdls|)
    ensures FindLink(tdls[..k] + tdls[k + 1..], i, r) == |tdls| - 1
  {
    hide FindLink;
    NoLink(tdls[..k] + tdls[k + 1..], i, r);
  }

  lemma WithLinkAt(b: BssV, init: Addr, resp: Addr, i: Addr, r: Addr)
    requires DistinctLinks(b.tdls)
    ensures DistinctLinks(WithLink(b, init, resp).tdls)
    ensures HasLink(WithLink(b, init, resp), i, r) <==> HasLink(b, i, r) || (i == init && r == resp)
  {
    hide NewLink;
    if !HasLink(b, init, resp) {
      var tdls := [NewLink(init, resp)] + b.tdls;
      assert tdls[1..] == b.tdls;
    }
  }

  lemma PutLinkAt(b: BssV, t: TdlsV, i: Addr, r: Addr)
    requires HasLink(b, t.init, t.resp) && DistinctLinks(b.tdls)
    ensures DistinctLinks(PutLink(b, t).tdls)
    ensures HasLink(PutLink(b, t), i, r) == HasLink(b, i, r)
    ensures HasLink(b, i, r) ==>
            TheLink(PutLink(b, t), i, r) == if i == t.init && r == t.resp then t else TheLink(b, i, r)
  {
    FindPutLink(b, t, i, r);
  }

  /**
    After a successful Setup Confirm between two stations the link is up, and the entry of the
    reverse direction is gone exactly if there was none, or the fast-transition element is absent
    or complete.
   */
  lemma ReverseGone(c: Crypto, b: BssV, bssid: Addr, e: Elems, token: Octet)
    requires DistinctLinks(b.tdls) && Initiator(e.linkId) != Responder(e.linkId)
    ensures var (i, r) := (Initiator(e.linkId), Responder(e.linkId));
            var d := Confirmed(c, WithLink(b, i, r), bssid, e, token);
            && HasLink(d, i, r) && TheLink(d, i, r).linkUp
            && (!HasLink(d, r, i) <==> !HasLink(b, r, i) || e.ftie.None? || FullFtie(e))
  {
    var i, r := Initiator(e.linkId), Responder(e.linkId);
    var v := WithLink(b, i, r);
    WithLinkAt(b, i, r, i, r);
    WithLinkAt(b, i, r, r, i);
    var u := Risen(c, TheLink(v, i, r), bssid, e, token);
    hide Risen, FindLink, PutLink, WithLink, WithoutLink;
    PutLinkAt(v, u, i, r);
    PutLinkAt(v, u, r, i);
    WithoutLinkAt(PutLink(v, u), r, i, i, r);
    WithoutLinkAt(PutLink(v, u), r, i, r, i);
  }

  /** A Setup Confirm of a station with itself removes its own entry, unless the element is cut short. */
  lemma SelfConfirm(c: Crypto, b: BssV, bssid: Addr, e: Elems, token: Octet)
    requires DistinctLinks(b.tdls) && Initiator(e.linkId) == Responder(e.linkId)
    ensures var i := Initiator(e.linkId);
            HasLink(Confirmed(c, WithLink(b, i, i), bssid, e, token), i, i) <==> e.ftie.Some? && !FullFtie(e)
  {
    var i := Initiator(e.linkId);
    var v := WithLink(b, i, i);
    WithLinkAt(b, i, i, i, i);
    var u := Risen(c, TheLink(v, i, i), bssid, e, token);
    hide Risen, FindLink, PutLink, WithLink, WithoutLink;
    PutLinkAt(v, u, i, i);
    WithoutLinkAt(PutLink(v, u), i, i, i, i);
  }
}
