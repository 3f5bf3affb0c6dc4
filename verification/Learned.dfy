/**
  The database of the learning background scan (bgscan_learn.c) as a value: a list of BSSes of
  one ESS with their frequency and their neighbours, what a scan result does to it, and its file.
 */
module Learned {
  import opened Options
  import opened Octets
  import opened Sequences

  type Bssid = a: Octets | |a| == 6 witness Zeros(6)

  datatype Entry = Entry(bssid: Bssid, freq: int, neigh: seq<Bssid>)

  type Db = seq<Entry>

  /** One BSS of a scan result that belongs to the ESS. */
  datatype Result = Result(bssid: Bssid, freq: int)

  const MAX_BSS := 50

  predicate NoRepeats<T(==)>(s: seq<T>) {
    forall i, j | 0 <= i < j < |s| :: s[i] != s[j]
  }

  // ---- Operations

  /** `bgscan_learn_add_neighbor` */
  function AddNeighbor(e: Entry, b: Bssid): Entry {
    if b == e.bssid || b in e.neigh then e else e.(neigh := e.neigh + [b])
  }

  function AddNeighbors(e: Entry, bs: seq<Bssid>): (f: Entry)
    ensures f.bssid == e.bssid && f.freq == e.freq
    decreases |bs|
  {
    if bs == [] then e else AddNeighbors(AddNeighbor(e, bs[0]), bs[1..])
  }

  /** `bgscan_learn_get_bss`: the first entry for a BSSID, or the length. */
  function Find(db: Db, b: Bssid): (i: nat)
    ensures i <= |db| && (i < |db| ==> db[i].bssid == b) && forall j | 0 <= j < i :: db[j].bssid != b
  {
    if db == [] || db[0].bssid == b then 0 else 1 + Find(db[1..], b)
  }

  /** The entry of a scanned BSS, found or added in front, with its frequency. */
  function Located(db: Db, res: Result): (d: Db)
    ensures Find(d, res.bssid) < |d|
  {
    var i := Find(db, res.bssid);
    if i < |db| then
      var d := db[i := db[i].(freq := res.freq)];
      FindIs(d, res.bssid, i);
      d
    else [Entry(res.bssid, res.freq, [])] + db
  }

  /** One turn of the second loop of `bgscan_learn_notify_scan`. */
  function Touch(db: Db, res: Result, cut: seq<Bssid>): Db {
    var d := Located(db, res);
    var i := Find(d, res.bssid);
    d[i := AddNeighbors(d[i], cut)]
  }

  function Scanned(db: Db, results: seq<Result>, cut: seq<Bssid>): Db
    decreases |results|
  {
    if results == [] then db else Scanned(Touch(db, results[0], cut), results[1..], cut)
  }

  function Bssids(results: seq<Result>): (bs: seq<Bssid>)
    ensures |bs| == |results| && forall i | 0 <= i < |bs| :: bs[i] == results[i].bssid
  {
    seq(|results|, i requires 0 <= i < |results| => results[i].bssid)
  }

  /** The BSSIDs that fit the array on the stack. */
  function Cut(results: seq<Result>): seq<Bssid> {
    Bssids(if |results| <= MAX_BSS then results else results[..MAX_BSS])
  }

  /** `bgscan_learn_notify_scan`, given the results that match the SSID. */
  function NotifyScan(db: Db, results: seq<Result>): Db {
    Scanned(db, results, Cut(results))
  }

  // ---- What every scan keeps

  predicate Sound(e: Entry) { NoRepeats(e.neigh) && e.bssid !in e.neigh }

  /** No BSSID twice; no neighbour twice in a list, and none in its own list. */
  predicate Valid(db: Db) {
    (forall i, j | 0 <= i < j < |db| :: db[i].bssid != db[j].bssid) && forall i | 0 <= i < |db| :: Sound(db[i])
  }

  lemma FindIs(db: Db, b: Bssid, i: nat)
    requires i < |db| && db[i].bssid == b && forall j | 0 <= j < i :: db[j].bssid != b
    ensures Find(db, b) == i
  {
  }

  lemma {:induction false} AddNeighborsSound(e: Entry, bs: seq<Bssid>)
    requires Sound(e)
    ensures Sound(AddNeighbors(e, bs))
    decreases |bs|
  {
    if bs != [] {
      AddNeighborsSound(AddNeighbor(e, bs[0]), bs[1..]);
    }
  }

  lemma {:induction false} AddNeighborsIn(e: Entry, bs: seq<Bssid>, b: Bssid)
    ensures b in AddNeighbors(e, bs).neigh <==> b in e.neigh || (b in bs && b != e.bssid)
    decreases |bs|
  {
    if bs != [] {
      AddNeighborsIn(AddNeighbor(e, bs[0]), bs[1..], b);
    }
  }

  lemma TouchValid(db: Db, res: Result, cut: seq<Bssid>)
    requires Valid(db)
    ensures Valid(Touch(db, res, cut))
  {
    var d := Located(db, res);
    var i := Find(d, res.bssid);
    assert Sound(d[i]);
    AddNeighborsSound(d[i], cut);
    hide AddNeighbors, Sound, Find;
  }

  lemma {:induction false} ScannedValid(db: Db, results: seq<Result>, cut: seq<Bssid>)
    requires Valid(db)
    ensures Valid(Scanned(db, results, cut))
    decreases |results|
  {
    if results != [] {
      hide Touch, Valid;
      TouchValid(db, results[0], cut);
      ScannedValid(Touch(db, results[0], cut), results[1..], cut);
    }
  }

  // ---- The neighbour relation

  /** `b` is a neighbour of `a`. */
  predicate Rel(db: Db, a: Bssid, b: Bssid) {
    Find(db, a) < |db| && b in db[Find(db, a)].neigh
  }

  ghost predicate Symmetric(db: Db) {
    forall a, b :: Rel(db, a, b) ==> Rel(db, b, a)
  }

  lemma LocatedRel(db: Db, res: Result, a: Bssid, b: Bssid)
    ensures Rel(Located(db, res), a, b) == Rel(db, a, b)
    ensures Find(Located(db, res), res.bssid) < |Located(db, res)|
  {
    var d := Located(db, res);
    var i := Find(db, res.bssid);
    if i < |db| {
      SameFind(db, d, a);
    }
  }

  lemma {:induction false} SameFind(db: Db, d: Db, a: Bssid)
    requires |db| == |d| && forall i | 0 <= i < |db| :: db[i].bssid == d[i].bssid
    ensures Find(db, a) == Find(d, a)
  {
    if db != [] && db[0].bssid != a {
      SameFind(db[1..], d[1..], a);
    }
  }

  lemma TouchRel(db: Db, res: Result, cut: seq<Bssid>, a: Bssid, b: Bssid)
    ensures Rel(Touch(db, res, cut), a, b) <==> Rel(db, a, b) || (a == res.bssid && b in cut && b != a)
  {
    LocatedRel(db, res, a, b);
    var d := Located(db, res);
    var i := Find(d, res.bssid);
    hide Located, AddNeighbors, Find;
    AddNeighborsIn(d[i], cut, b);
    SameFind(d, Touch(db, res, cut), a);
  }

  /** A scan adds exactly the pairs of a scanned BSS and another one in the cut. */
  lemma {:induction false} ScannedRel(db: Db, results: seq<Result>, cut: seq<Bssid>, a: Bssid, b: Bssid)
    ensures Rel(Scanned(db, results, cut), a, b) <==>
            Rel(db, a, b) || (a in Bssids(results) && b in cut && b != a)
    decreases |results|
  {
    if results != [] {
      hide Touch, Rel, Bssids;
      TouchRel(db, results[0], cut, a, b);
      ScannedRel(Touch(db, results[0], cut), results[1..], cut, a, b);
      BssidsOf(results, a);
    }
  }

  lemma BssidsOf(results: seq<Result>, a: Bssid)
    requires results != []
    ensures a in Bssids(results) <==> a == results[0].bssid || a in Bssids(results[1..])
  {
    assert Bssids(results) == [results[0].bssid] + Bssids(results[1..]);
  }

  /** The frequency of a listed BSS. */
  function FreqOf(db: Db, a: Bssid): Option<int> {
    if Find(db, a) < |db| then Some(db[Find(db, a)].freq) else None
  }

  /** The frequency a scan gives last for a BSS. */
  function LastFreq(results: seq<Result>, a: Bssid): Option<int>
    decreases |results|
  {
    if results == [] then None
    else if results[|results| - 1].bssid == a then Some(results[|results| - 1].freq)
    else LastFreq(results[..|results| - 1], a)
  }

  lemma LocatedFreq(db: Db, res: Result, a: Bssid)
    ensures FreqOf(Located(db, res), a) == if a == res.bssid then Some(res.freq) else FreqOf(db, a)
  {
    var d := Located(db, res);
    if Find(db, res.bssid) < |db| {
      SameFind(db, d, a);
    }
  }

  lemma TouchFreq(db: Db, res: Result, cut: seq<Bssid>, a: Bssid)
    ensures FreqOf(Touch(db, res, cut), a) == if a == res.bssid then Some(res.freq) else FreqOf(db, a)
  {
    LocatedFreq(db, res, a);
    var d := Located(db, res);
    hide Located, AddNeighbors, Find;
    SameFind(d, Touch(db, res, cut), a);
  }

  lemma {:induction false} ScannedAppend(db: Db, results: seq<Result>, last: Result, cut: seq<Bssid>)
    ensures Scanned(db, results + [last], cut) == Touch(Scanned(db, results, cut), last, cut)
    decreases |results|
  {
    hide Touch;
    if results == [] {
      assert [] + [last] == [last] && [last][1..] == [];
    } else {
      assert (results + [last])[1..] == results[1..] + [last];
      ScannedAppend(Touch(db, results[0], cut), results[1..], last, cut);
    }
  }

  /** After a scan the scanned BSSes are listed with the frequency seen last, and the others as before. */
  lemma {:induction false} ScannedFreq(db: Db, results: seq<Result>, cut: seq<Bssid>, a: Bssid)
    ensures FreqOf(Scanned(db, results, cut), a)
            == if LastFreq(results, a).Some? then LastFreq(results, a) else FreqOf(db, a)
    decreases |results|
  {
    if results != [] {
      var before, last := results[..|results| - 1], results[|results| - 1];
      assert results == before + [last];
      ScannedFreq(db, before, cut, a);
      ScannedAppend(db, before, last, cut);
      TouchFreq(Scanned(db, before, cut), last, cut, a);
      hide Scanned, Touch, FreqOf;
    }
  }

  /** The entries of `db` are the last of `d`, in order, with their neighbours in front of any new ones. */
  predicate Behind(db: Db, d: Db) {
    |db| <= |d| && forall i | 0 <= i < |db| :: Follows(db[i], d[|d| - |db| + i])
  }

  predicate Follows(e: Entry, f: Entry) { e.bssid == f.bssid && e.neigh <= f.neigh }

  lemma {:induction false} AddNeighborsFollows(e: Entry, bs: seq<Bssid>)
    ensures Follows(e, AddNeighbors(e, bs))
    decreases |bs|
  {
    if bs != [] {
      AddNeighborsFollows(AddNeighbor(e, bs[0]), bs[1..]);
    }
  }

  lemma BehindBoth(a: Db, b: Db, c: Db)
    requires Behind(a, b) && Behind(b, c)
    ensures Behind(a, c)
  {
    forall i | 0 <= i < |a| ensures Follows(a[i], c[|c| - |a| + i]) {
      assert Follows(a[i], b[|b| - |a| + i]) && Follows(b[|b| - |a| + i], c[|c| - |b| + (|b| - |a| + i)]);
    }
  }

  lemma PutBehind(db: Db, i: nat, f: Entry)
    requires i < |db| && Follows(db[i], f)
    ensures Behind(db, db[i := f])
  {
  }

  lemma AddedBehind(db: Db, e: Entry)
    ensures Behind(db, [e] + db)
  {
  }

  lemma LocatedBehind(db: Db, res: Result)
    ensures Behind(db, Located(db, res))
  {
    var i := Find(db, res.bssid);
    hide Behind, Find;
    if i < |db| {
      PutBehind(db, i, db[i].(freq := res.freq));
    } else {
      AddedBehind(db, Entry(res.bssid, res.freq, []));
    }
  }

  lemma TouchBehind(db: Db, res: Result, cut: seq<Bssid>)
    ensures Behind(db, Touch(db, res, cut))
  {
    var d := Located(db, res);
    var i := Find(d, res.bssid);
    LocatedBehind(db, res);
    AddNeighborsFollows(d[i], cut);
    hide AddNeighbors, Find, Behind, Follows, Located;
    PutBehind(d, i, AddNeighbors(d[i], cut));
    BehindBoth(db, d, d[i := AddNeighbors(d[i], cut)]);
  }

  /** New BSSes come in front of those known, and new neighbours behind those known. */
  lemma {:induction false} ScannedBehind(db: Db, results: seq<Result>, cut: seq<Bssid>)
    ensures Behind(db, Scanned(db, results, cut))
    decreases |results|
  {
    hide Touch;
    if results != [] {
      hide Behind;
      TouchBehind(db, results[0], cut);
      ScannedBehind(Touch(db, results[0], cut), results[1..], cut);
      BehindBoth(db, Touch(db, results[0], cut), Scanned(db, results, cut));
    }
  }

  /**
    One scan keeps the neighbour relation symmetric exactly when every BSS that did not fit the
    cut was a neighbour of every BSS in it before.
   */
  lemma ScanSymmetric(db: Db, results: seq<Result>)
    requires Symmetric(db)
    ensures Symmetric(NotifyScan(db, results)) <==>
            forall a, c | a in Bssids(results) && a !in Cut(results) && c in Cut(results) :: Rel(db, c, a)
  {
    var cut, all := Cut(results), Bssids(results);
    var after := NotifyScan(db, results);
    forall a, b ensures Rel(after, a, b) <==> Rel(db, a, b) || (a in all && b in cut && b != a) {
      ScannedRel(db, results, cut, a, b);
    }
    forall c | c in cut ensures c in all {
      CutIsPart(results, c);
    }
    hide Rel, NotifyScan, Cut, Bssids;
    if forall a, c | a in all && a !in cut && c in cut :: Rel(db, c, a) {
      assert Symmetric(after);
    } else {
      var a, c :| a in all && a !in cut && c in cut && !Rel(db, c, a);
      assert Rel(after, a, c) && !Rel(after, c, a);
    }
  }

  /** Any scan of more different BSSes than fit the cut makes an empty database asymmetric. */
  lemma LargeScanAsymmetric(results: seq<Result>)
    requires |results| > 50 && forall i, j | 0 <= i < j < |results| :: results[i].bssid != results[j].bssid
    ensures !Symmetric(NotifyScan([], results))
  {
    var first, last := results[0].bssid, results[MAX_BSS].bssid;
    assert Cut(results)[0] == first && Bssids(results)[MAX_BSS] == last;
    assert last !in Cut(results);
    assert first in Cut(results) && last in Bssids(results) && !Rel([], first, last);
    hide Rel, NotifyScan, Cut, Bssids;
    NothingRelated();
    ScanSymmetric([], results);
  }

  lemma NothingRelated()
    ensures Symmetric([])
  {
  }

  /** A scan of 51 BSSes at 2412 MHz, which differ in the last octet of the BSSID. */
  function FiftyOne(): (r: seq<Result>)
    ensures |r| == 51 && forall i | 0 <= i < 51 :: r[i] == Result([0, 0, 0, 0, 0, Byte(i)], 2412)
  {
    seq(51, i requires 0 <= i < 51 => Result([0, 0, 0, 0, 0, Byte(i)], 2412))
  }

  lemma FiftyOneExample()
    ensures !Symmetric(NotifyScan([], FiftyOne()))
  {
    hide NotifyScan, Symmetric, Byte, Num, FiftyOne;
    var results := FiftyOne();
    forall i, j | 0 <= i < j < |results| ensures results[i].bssid != results[j].bssid {
      NumByte(i);
      NumByte(j);
      assert results[i].bssid[5] == Byte(i) && results[j].bssid[5] == Byte(j);
    }
    LargeScanAsymmetric(results);
  }

  lemma CutIsPart(results: seq<Result>, c: Bssid)
    requires c in Cut(results)
    ensures c in Bssids(results)
  {
  }

  /** With at most 50 matching BSSes in the scan, nothing is cut off. */
  lemma SmallScanSymmetric(db: Db, results: seq<Result>)
    requires Symmetric(db) && |results| <= 50
    ensures Symmetric(NotifyScan(db, results))
  {
    ScanSymmetric(db, results);
  }

  /** A run of scans from the empty database. */
  function AfterScans(scans: seq<seq<Result>>): Db {
    if scans == [] then [] else NotifyScan(AfterScans(scans[..|scans| - 1]), scans[|scans| - 1])
  }

  /** In every run of such scans the database stays valid and the relation symmetric. */
  lemma {:induction false} ScansKeep(scans: seq<seq<Result>>)
    ensures Valid(AfterScans(scans))
    ensures (forall i | 0 <= i < |scans| :: |scans[i]| <= 50) ==> Symmetric(AfterScans(scans))
  {
    if scans == [] {
      assert AfterScans([]) == [];
    } else {
      var before := scans[..|scans| - 1];
      ScansKeep(before);
      ScannedValid(AfterScans(before), scans[|scans| - 1], Cut(scans[|scans| - 1]));
      hide Valid, Symmetric;
      if forall i | 0 <= i < |scans| :: |scans[i]| <= 50 {
        SmallScanSymmetric(AfterScans(before), scans[|scans| - 1]);
      }
    }
  }

  // ---- The file

  datatype Line = BssLine(bssid: Bssid, freq: int) | NeighborLine(bssid: Bssid, neighbor: Bssid) | OtherLine

  function BssLines(db: Db): (ls: seq<Line>)
    ensures |ls| == |db|
  {
    if db == [] then [] else [BssLine(db[0].bssid, db[0].freq)] + BssLines(db[1..])
  }

  function EntryLines(b: Bssid, neigh: seq<Bssid>): seq<Line> {
    if neigh == [] then [] else [NeighborLine(b, neigh[0])] + EntryLines(b, neigh[1..])
  }

  function NeighborLines(db: Db): seq<Line> {
    if db == [] then [] else EntryLines(db[0].bssid, db[0].neigh) + NeighborLines(db[1..])
  }

  /** The lines behind the header that `bgscan_learn_save` writes. */
  function Saved(db: Db): seq<Line> { BssLines(db) + NeighborLines(db) }

  /** What one line does in `bgscan_learn_load`. */
  function LoadLine(db: Db, line: Line): Db {
    match line
    case BssLine(b, freq) => [Entry(b, freq, [])] + db
    case NeighborLine(b, n) =>
      var i := Find(db, b);
      if i < |db| then db[i := AddNeighbor(db[i], n)] else db
    case OtherLine => db
  }

  function Loaded(db: Db, lines: seq<Line>): Db
    decreases |lines|
  {
    if lines == [] then db else Loaded(LoadLine(db, lines[0]), lines[1..])
  }

  lemma {:induction false} LoadedAppend(db: Db, a: seq<Line>, b: seq<Line>)
    ensures Loaded(db, a + b) == Loaded(Loaded(db, a), b)
    decreases |a|
  {
    hide LoadLine;
    if a == [] {
      assert a + b == b;
    } else {
      assert (a + b)[1..] == a[1..] + b;
      LoadedAppend(LoadLine(db, a[0]), a[1..], b);
    }
  }

  function Reversed(db: Db): (r: Db)
    ensures |r| == |db| && forall i | 0 <= i < |db| :: r[i] == db[|db| - 1 - i]
  {
    seq(|db|, i requires 0 <= i < |db| => db[|db| - 1 - i])
  }

  /** The database without its neighbour lists. */
  function Bare(db: Db): (r: Db)
    ensures |r| == |db| && forall i | 0 <= i < |db| :: r[i] == db[i].(neigh := [])
  {
    seq(|db|, i requires 0 <= i < |db| => db[i].(neigh := []))
  }

  lemma {:induction false} LoadBssLines(d: Db, db: Db)
    ensures Loaded(d, BssLines(db)) == Reversed(Bare(db)) + d
    decreases |db|
  {
    if db == [] {
      assert Reversed(Bare(db)) + d == d;
    } else {
      var e := Entry(db[0].bssid, db[0].freq, []);
      LoadBssLine(d, db);
      ReversedBare(db);
      hide *;
      LoadBssLines([e] + d, db[1..]);
      Associates(Reversed(Bare(db[1..])), [e], d);
    }
  }

  lemma LoadBssLine(d: Db, db: Db)
    requires db != []
    ensures Loaded(d, BssLines(db)) == Loaded([Entry(db[0].bssid, db[0].freq, [])] + d, BssLines(db[1..]))
  {
    var line := BssLine(db[0].bssid, db[0].freq);
    var rest := BssLines(db[1..]);
    assert ([line] + rest)[1..] == rest;
    hide Find, AddNeighbor, BssLines;
  }

  lemma ReversedBare(db: Db)
    requires db != []
    ensures Reversed(Bare(db)) == Reversed(Bare(db[1..])) + [Entry(db[0].bssid, db[0].freq, [])]
  {
  }

  /** The lines of one entry fill in its list. */
  lemma {:induction false} LoadEntryLines(d: Db, i: nat, e: Entry, neigh: seq<Bssid>)
    requires i < |d| && Find(d, e.bssid) == i
    requires e.bssid == d[i].bssid && NoRepeats(d[i].neigh + neigh) && e.bssid !in neigh
    ensures Loaded(d, EntryLines(e.bssid, neigh)) == d[i := d[i].(neigh := d[i].neigh + neigh)]
    decreases |neigh|
  {
    if neigh == [] {
      assert d[i].neigh + [] == d[i].neigh;
    } else {
      var lines := EntryLines(e.bssid, neigh);
      assert lines[1..] == EntryLines(e.bssid, neigh[1..]);
      assert forall k | 0 <= k < |d[i].neigh| :: (d[i].neigh + neigh)[k] == d[i].neigh[k];
      assert (d[i].neigh + neigh)[|d[i].neigh|] == neigh[0];
      var f := AddNeighbor(d[i], neigh[0]);
      assert f == d[i].(neigh := d[i].neigh + [neigh[0]]);
      var c := d[i := f];
      FindIs(c, e.bssid, i);
      assert c[i].neigh + neigh[1..] == d[i].neigh + neigh;
      LoadEntryLines(c, i, e, neigh[1..]);
    }
  }

  /** Part-way: the entries `done` are filled in, those of `rest` are still bare. */
  lemma {:induction false} LoadNeighborLines(done: Db, rest: Db)
    requires Valid(done + rest)
    ensures Loaded(Reversed(done + Bare(rest)), NeighborLines(rest)) == Reversed(done + rest)
    decreases |rest|
  {
    if rest == [] {
      NothingLeft(done, rest);
    } else {
      FillEntry(done, rest);
      FirstEntry(done, rest);
      hide *;
      LoadedAppend(Reversed(done + Bare(rest)), EntryLines(rest[0].bssid, rest[0].neigh), NeighborLines(rest[1..]));
      LoadNeighborLines(done + [rest[0]], rest[1..]);
    }
  }

  lemma NothingLeft(done: Db, rest: Db)
    requires rest == []
    ensures Loaded(Reversed(done + Bare(rest)), NeighborLines(rest)) == Reversed(done + rest)
  {
    assert done + Bare(rest) == done + rest;
  }

  lemma FirstEntry(done: Db, rest: Db)
    requires rest != []
    ensures NeighborLines(rest) == EntryLines(rest[0].bssid, rest[0].neigh) + NeighborLines(rest[1..])
    ensures done + rest == done + [rest[0]] + rest[1..]
  {
    HeadAndTail(done, rest);
    hide EntryLines;
  }

  lemma FillEntry(done: Db, rest: Db)
    requires Valid(done + rest) && rest != []
    ensures Loaded(Reversed(done + Bare(rest)), EntryLines(rest[0].bssid, rest[0].neigh)) ==
            Reversed(done + [rest[0]] + Bare(rest[1..]))
  {
    var e := rest[0];
    PartFilled(done, rest);
    hide Reversed, Bare, Find, Valid, Loaded, EntryLines;
    var d := Reversed(done + Bare(rest));
    assert [] + e.neigh == e.neigh;
    LoadEntryLines(d, |rest| - 1, e, e.neigh);
  }

  lemma PartFilled(done: Db, rest: Db)
    requires Valid(done + rest) && rest != []
    ensures var e, d, i := rest[0], Reversed(done + Bare(rest)), |rest| - 1;
            i < |d| && Find(d, e.bssid) == i && d[i] == e.(neigh := []) && NoRepeats(e.neigh) && e.bssid !in e.neigh
            && d[i := e] == Reversed(done + [e] + Bare(rest[1..]))
  {
    PartUpdated(done, rest);
    PartFound(done, rest);
    hide Valid, Reversed, Bare, Find;
  }

  lemma PartUpdated(done: Db, rest: Db)
    requires rest != []
    ensures var d, i := Reversed(done + Bare(rest)), |rest| - 1;
            i < |d| && d[i] == rest[0].(neigh := []) && d[i := rest[0]] == Reversed(done + [rest[0]] + Bare(rest[1..]))
  {
  }

  lemma PartFound(done: Db, rest: Db)
    requires Valid(done + rest) && rest != []
    ensures var e, d := rest[0], Reversed(done + Bare(rest));
            Find(d, e.bssid) == |rest| - 1 && NoRepeats(e.neigh) && e.bssid !in e.neigh
  {
    var e, d, i := rest[0], Reversed(done + Bare(rest)), |rest| - 1;
    assert Sound((done + rest)[|done|]);
    forall j | 0 <= j < i ensures d[j].bssid != e.bssid {
      assert d[j] == (done + Bare(rest))[|d| - 1 - j];
      assert (done + rest)[|d| - 1 - j].bssid != (done + rest)[|done|].bssid;
    }
    FindIs(d, e.bssid, i);
  }

  /**
    The round trip: loading what was saved from a valid database gives the same entries, the
    list turned round because every loaded BSS is put in front.
   */
  lemma LoadSaved(db: Db)
    requires Valid(db)
    ensures Loaded([], Saved(db)) == Reversed(db)
  {
    hide Valid, Reversed, Bare;
    LoadedAppend([], BssLines(db), NeighborLines(db));
    LoadBssLines([], db);
    assert Reversed(Bare(db)) + [] == Reversed(Bare(db)) && [] + Bare(db) == Bare(db) && [] + db == db;
    LoadNeighborLines([], db);
  }

  /** The entry for a BSSID. */
  function Lookup(db: Db, b: Bssid): Option<Entry> {
    if Find(db, b) < |db| then Some(db[Find(db, b)]) else None
  }

  lemma {:induction false} FindAll(db: Db, b: Bssid, i: nat)
    requires Valid(db) && i < |db| && db[i].bssid == b
    ensures Find(db, b) == i
  {
    FindIs(db, b, i);
  }

  /** As a map from BSSID to frequency and ordered neighbour list, nothing changes. */
  lemma LoadSavedLookup(db: Db, b: Bssid)
    requires Valid(db)
    ensures Lookup(Loaded([], Saved(db)), b) == Lookup(db, b)
    ensures Valid(Loaded([], Saved(db)))
  {
    LoadSaved(db);
    var r := Reversed(db);
    ReversedValid(db);
    hide Saved, Loaded, Valid;
    var i, j := Find(db, b), Find(r, b);
    if j < |r| {
      FindAll(db, b, |db| - 1 - j);
    } else if i < |db| {
      FindAll(r, b, |db| - 1 - i);
    }
  }

  lemma ReversedValid(db: Db)
    requires Valid(db)
    ensures Valid(Reversed(db))
  {
    hide Sound;
  }
}
