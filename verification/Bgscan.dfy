/**
  The learning background scan of bgscan_learn.c: the objects behind the database of `Learned`,
  and the choice of frequencies for the next scan.
 */
module Bgscan {
  import opened Learned

  /** `struct bgscan_learn_bss` */
  class LearnBss {
    const bssid: Bssid
    var freq: int
    var neigh: seq<Bssid>

    ghost function View(): Entry
      reads this
    {
      Entry(bssid, freq, neigh)
    }

    constructor (bssid: Bssid, freq: int)
      ensures View() == Entry(bssid, freq, [])
    {
      this.bssid, this.freq, this.neigh := bssid, freq, [];
    }

    /** `bssid_in_array` */
    method InArray(b: Bssid) returns (found: bool)
      ensures found <==> b in neigh
    {
      for i := 0 to |neigh|
        invariant b !in neigh[..i]
      {
        if neigh[i] == b {
          return true;
        }
      }
      return false;
    }

    method Add(b: Bssid)
      modifies this`neigh
      ensures View() == AddNeighbor(old(View()), b)
    {
      if bssid == b {
        return;
      }
      var found := InArray(b);
      if found {
        return;
      }
      neigh := neigh + [b];
    }

    method AddAll(bs: seq<Bssid>)
      modifies this`neigh
      ensures View() == AddNeighbors(old(View()), bs)
    {
      var j := 0;
      assert bs[0..] == bs;
      while j < |bs|
        invariant 0 <= j <= |bs|
        invariant AddNeighbors(View(), bs[j..]) == AddNeighbors(old(View()), bs)
      {
        hide AddNeighbor;
        assert bs[j..][0] == bs[j] && bs[j..][1..] == bs[j + 1..];
        Add(bs[j]);
        j := j + 1;
      }
    }
  }

  /** The entries of a list of records. */
  ghost function Views(list: seq<LearnBss>): (db: Db)
    reads list
    ensures |db| == |list| && forall i | 0 <= i < |list| :: db[i] == list[i].View()
  {
    seq(|list|, i requires 0 <= i < |list| reads list => list[i].View())
  }

  /** `struct bgscan_learn_data`, as far as it is the database. */
  class LearnData {
    var bss: seq<LearnBss>

    /** No record is listed twice. */
    ghost predicate Valid()
      reads this
    {
      forall i, j | 0 <= i < j < |bss| :: bss[i] != bss[j]
    }

    constructor ()
      ensures Valid() && bss == []
    {
      bss := [];
    }

    /** `bgscan_learn_get_bss` */
    method GetBss(b: Bssid) returns (i: nat)
      ensures i == Find(Views(bss), b)
    {
      i := 0;
      while i < |bss|
        invariant 0 <= i <= |bss|
        invariant forall j | 0 <= j < i :: bss[j].bssid != b
      {
        if bss[i].bssid == b {
          FindIs(Views(bss), b, i);
          return;
        }
        i := i + 1;
      }
      FindNone(Views(bss), b);
    }

    /** The entry of a scanned BSS found, or added in front, and its frequency noted. */
    method Locate(res: Result) returns (b: LearnBss, ghost i: nat)
      requires Valid()
      modifies this`bss, bss`freq
      ensures Valid() && Views(bss) == Located(old(Views(bss)), res)
      ensures i == Find(Views(bss), res.bssid) && i < |bss| && bss[i] == b
      ensures forall k | 0 <= k < |bss| :: bss[k] in old(bss) || fresh(bss[k])
    {
      var k := GetBss(res.bssid);
      if k < |bss| {
        b, i := bss[k], k;
        ghost var was := Views(bss);
        b.freq := res.freq;
        assert Views(bss) == was[k := was[k].(freq := res.freq)];
        FindIs(Views(bss), res.bssid, i);
      } else {
        i := 0;
        b := Insert(res.bssid, res.freq);
      }
    }

    /** A new record in front of the list. */
    method Insert(bssid: Bssid, freq: int) returns (b: LearnBss)
      requires Valid()
      modifies this`bss
      ensures Valid() && fresh(b) && bss == [b] + old(bss) && b.bssid == bssid
      ensures Views(bss) == [Entry(bssid, freq, [])] + old(Views(bss))
    {
      b := new LearnBss(bssid, freq);
      ghost var was := Views(bss);
      bss := [b] + bss;
      assert Views(bss) == [b.View()] + was;
    }

    /** One turn of the second loop of `bgscan_learn_notify_scan`. */
    method NotifyOne(res: Result, cut: seq<Bssid>)
      requires Valid()
      modifies this`bss, bss
      ensures Valid() && Views(bss) == Touch(old(Views(bss)), res, cut)
      ensures forall k | 0 <= k < |bss| :: bss[k] in old(bss) || fresh(bss[k])
    {
      hide AddNeighbors, Located, Find;
      var b;
      ghost var i;
      b, i := Locate(res);
      ghost var d := Views(bss);
      assert b in bss;
      b.AddAll(cut);
      assert Views(bss) == d[i := AddNeighbors(d[i], cut)];
    }

    /** Its first loop: the BSSIDs that fit the array on the stack. */
    static method CutOff(results: seq<Result>) returns (cut: seq<Bssid>)
      ensures cut == Cut(results)
    {
      cut := [];
      var i := 0;
      while i < |results|
        invariant 0 <= i <= |results| && cut == Cut(results[..i])
      {
        CutStep(results, i);
        if |cut| < MAX_BSS {
          cut := cut + [results[i].bssid];
        }
        i := i + 1;
      }
      assert results[..i] == results;
    }

    /** `bgscan_learn_notify_scan`, given the results that match the SSID */
    method NotifyScan(results: seq<Result>)
      requires Valid()
      modifies this`bss, bss
      ensures Valid() && Views(bss) == Learned.NotifyScan(old(Views(bss)), results)
    {
      var cut := CutOff(results);
      hide Touch, Cut;
      var i := 0;
      assert results[0..] == results;
      while i < |results|
        invariant 0 <= i <= |results| && Valid()
        invariant Scanned(Views(bss), results[i..], cut) == Learned.NotifyScan(old(Views(bss)), results)
        invariant forall k | 0 <= k < |bss| :: bss[k] in old(bss) || fresh(bss[k])
      {
        assert results[i..][1..] == results[i + 1..];
        NotifyOne(results[i], cut);
        i := i + 1;
      }
    }

    /** `bgscan_learn_save`, behind the header line */
    method Save() returns (lines: seq<Line>)
      ensures lines == Saved(Views(bss))
    {
      lines := [];
      var i := 0;
      assert Views(bss)[0..] == Views(bss);
      while i < |bss|
        invariant 0 <= i <= |bss|
        invariant lines + BssLines(Views(bss)[i..]) == BssLines(Views(bss))
      {
        ghost var rest := Views(bss)[i..];
        assert rest[1..] == Views(bss)[i + 1..];
        assert lines + ([BssLine(rest[0].bssid, rest[0].freq)] + BssLines(rest[1..])) ==
               lines + [BssLine(rest[0].bssid, rest[0].freq)] + BssLines(rest[1..]);
        lines := lines + [BssLine(bss[i].bssid, bss[i].freq)];
        i := i + 1;
      }
      var more := SaveNeighbors();
      lines := lines + more;
    }

    method SaveNeighbors() returns (lines: seq<Line>)
      ensures lines == NeighborLines(Views(bss))
    {
      hide EntryLines;
      lines := [];
      var i := 0;
      assert Views(bss)[0..] == Views(bss);
      while i < |bss|
        invariant 0 <= i <= |bss|
        invariant lines + NeighborLines(Views(bss)[i..]) == NeighborLines(Views(bss))
      {
        ghost var rest := Views(bss)[i..];
        assert rest[1..] == Views(bss)[i + 1..];
        var own := SaveEntry(bss[i]);
        assert lines + (own + NeighborLines(rest[1..])) == lines + own + NeighborLines(rest[1..]);
        lines := lines + own;
        i := i + 1;
      }
    }

    static method SaveEntry(b: LearnBss) returns (lines: seq<Line>)
      ensures lines == EntryLines(b.bssid, b.neigh)
    {
      lines := [];
      var i := 0;
      assert b.neigh[0..] == b.neigh;
      while i < |b.neigh|
        invariant 0 <= i <= |b.neigh|
        invariant lines + EntryLines(b.bssid, b.neigh[i..]) == EntryLines(b.bssid, b.neigh)
      {
        ghost var rest := b.neigh[i..];
        assert rest[1..] == b.neigh[i + 1..];
        assert lines + ([NeighborLine(b.bssid, rest[0])] + EntryLines(b.bssid, rest[1..])) ==
               lines + [NeighborLine(b.bssid, rest[0])] + EntryLines(b.bssid, rest[1..]);
        lines := lines + [NeighborLine(b.bssid, b.neigh[i])];
        i := i + 1;
      }
    }

    /** `bgscan_learn_load`, behind the header line */
    method Load(lines: seq<Line>)
      requires Valid()
      modifies this`bss, bss
      ensures Valid() && Views(bss) == Loaded(old(Views(bss)), lines)
    {
      var i := 0;
      hide LoadLine;
      assert lines[0..] == lines;
      while i < |lines|
        invariant 0 <= i <= |lines| && Valid()
        invariant Loaded(Views(bss), lines[i..]) == Loaded(old(Views(bss)), lines)
        invariant forall k | 0 <= k < |bss| :: bss[k] in old(bss) || fresh(bss[k])
      {
        assert lines[i..][1..] == lines[i + 1..];
        LoadOne(lines[i]);
        i := i + 1;
      }
    }

    method LoadOne(line: Line)
      requires Valid()
      modifies this`bss, bss
      ensures Valid() && Views(bss) == LoadLine(old(Views(bss)), line)
      ensures forall k | 0 <= k < |bss| :: bss[k] in old(bss) || fresh(bss[k])
    {
      hide Find, AddNeighbor;
      match line
      case BssLine(b, freq) =>
        var _ := Insert(b, freq);
      case NeighborLine(b, other) =>
        var i := GetBss(b);
        if i < |bss| {
          ghost var d := Views(bss);
          bss[i].Add(other);
          assert Views(bss) == d[i := AddNeighbor(d[i], other)];
        }
      case OtherLine =>
    }
  }

  lemma {:induction false} FindNone(db: Db, b: Bssid)
    requires forall j | 0 <= j < |db| :: db[j].bssid != b
    ensures Find(db, b) == |db|
  {
    if db != [] {
      FindNone(db[1..], b);
    }
  }

  lemma CutStep(results: seq<Result>, i: nat)
    requires i < |results|
    ensures Cut(results[..i + 1]) ==
            if |Cut(results[..i])| < MAX_BSS then Cut(results[..i]) + [results[i].bssid] else Cut(results[..i])
  {
    assert results[..i + 1] == results[..i] + [results[i]];
    if i >= MAX_BSS {
      assert results[..i + 1][..MAX_BSS] == results[..i][..MAX_BSS];
    }
  }

  // ---- Frequencies.  Arrays of frequencies end in 0, and are read up to there.

  /** `in_array` */
  predicate Listed(freqs: seq<int>, v: int) {
    freqs != [] && freqs[0] != 0 && (freqs[0] == v || Listed(freqs[1..], v))
  }

  method InFreqs(freqs: seq<int>, v: int) returns (found: bool)
    ensures found <==> Listed(freqs, v)
  {
    assert freqs[0..] == freqs;
    var i := 0;
    while i < |freqs| && freqs[i] != 0
      invariant 0 <= i <= |freqs| && Listed(freqs[i..], v) == Listed(freqs, v)
    {
      assert freqs[i..][1..] == freqs[i + 1..];
      if freqs[i] == v {
        return true;
      }
      i := i + 1;
    }
    return false;
  }

  /** What an array lists is what comes before its first 0. */
  lemma {:induction false} ListedIn(freqs: seq<int>, m: nat, v: int)
    requires m <= |freqs| && 0 !in freqs[..m] && (m < |freqs| ==> freqs[m] == 0)
    ensures Listed(freqs, v) <==> v in freqs[..m]
  {
    if m > 0 {
      assert freqs[..m] == [freqs[0]] + freqs[1..][..m - 1];
      ListedIn(freqs[1..], m - 1, v);
    }
  }

  /** The members of `fs` that are not in `d`, in order and as often as they occur. */
  function Unlisted(d: seq<int>, fs: seq<int>): seq<int> {
    if fs == [] then []
    else Unlisted(d, fs[..|fs| - 1]) + if fs[|fs| - 1] in d then [] else [fs[|fs| - 1]]
  }

  ghost function FreqsOf(bss: seq<LearnBss>): (fs: seq<int>)
    reads bss
    ensures |fs| == |bss| && forall i | 0 <= i < |bss| :: fs[i] == bss[i].freq
  {
    seq(|bss|, i requires 0 <= i < |bss| reads bss => bss[i].freq)
  }

  /** The `m` frequencies before the first 0 are those of the first `z` records, each one once. */
  ghost predicate EachOnce(fs: seq<int>, freqs: seq<int>, m: nat, z: nat)
    requires m <= |freqs| && z <= |fs|
  {
    NoRepeats(freqs[..m]) && 0 !in freqs[..m] && forall f :: f in freqs[..m] <==> f in fs[..z]
  }

  /**
    `bgscan_learn_get_freqs`: each frequency once and no other, as long as none is 0, which a
    loaded file may hold.  The first 0 cuts the array short for its readers: what follows is
    appended as often as it occurs unless it was listed before, every further 0 among it.
   */
  method GetFreqs(data: LearnData) returns (freqs: seq<int>)
    ensures var fs := FreqsOf(data.bss);
            var (m, z) := (FirstZero(freqs), FirstZero(fs));
            EachOnce(fs, freqs, m, z) && freqs[m..] == Unlisted(freqs[..m], fs[z..])
    ensures forall v :: Listed(freqs, v) <==> v in freqs[..FirstZero(freqs)]
  {
    freqs := [];
    ghost var m, z := 0, 0;
    ghost var fs := FreqsOf(data.bss);
    assert Gathered(fs, [], 0, 0, 0) by {
      assert fs[0..0] == [] && freqs[0..] == [];
    }
    hide Gathered, EachOnce, Unlisted, Listed, NoRepeats, FreqsOf;
    for k := 0 to |data.bss|
      invariant Gathered(fs, freqs, m, z, k)
    {
      var f := data.bss[k].freq;
      var found := InFreqs(freqs, f);
      NextFreq(fs, freqs, m, z, k);
      if !found {
        freqs := freqs + [f];
      }
      ghost var proper := z == k && f != 0;
      m, z := if proper && !found then m + 1 else m, if proper then k + 1 else z;
    }
    AllGathered(fs, freqs, m, z);
  }

  /** Where the first 0 is, or the length. */
  function FirstZero(s: seq<int>): (i: nat)
    ensures i <= |s| && 0 !in s[..i] && (i < |s| ==> s[i] == 0)
  {
    if s == [] || s[0] == 0 then 0
    else
      var i := 1 + FirstZero(s[1..]);
      assert s[..i] == [s[0]] + s[1..][..i - 1];
      i
  }

  lemma {:induction false} FirstZeroIs(s: seq<int>, i: nat)
    requires i <= |s| && 0 !in s[..i] && (i < |s| ==> s[i] == 0)
    ensures FirstZero(s) == i
  {
    if i > 0 {
      assert s[..i] == [s[0]] + s[1..][..i - 1];
      FirstZeroIs(s[1..], i - 1);
    }
  }

  /** What the array is after the first `k` records. */
  ghost predicate Gathered(fs: seq<int>, freqs: seq<int>, m: nat, z: nat, k: nat)
    requires k <= |fs|
  {
    && z <= k && m <= |freqs|
    && (if z == k then m == |freqs| else fs[z] == 0 && m < |freqs| && freqs[m] == 0)
    && EachOnce(fs, freqs, m, z) && freqs[m..] == Unlisted(freqs[..m], fs[z..k])
  }

  lemma AllGathered(fs: seq<int>, freqs: seq<int>, m: nat, z: nat)
    requires Gathered(fs, freqs, m, z, |fs|)
    ensures m == FirstZero(freqs) && z == FirstZero(fs)
    ensures EachOnce(fs, freqs, m, z) && freqs[m..] == Unlisted(freqs[..m], fs[z..])
    ensures forall v :: Listed(freqs, v) <==> v in freqs[..m]
  {
    hide Unlisted, NoRepeats, FirstZero;
    assert fs[z..|fs|] == fs[z..];
    assert 0 !in freqs[..m] && 0 !in fs[..z];
    FirstZeroIs(freqs, m);
    FirstZeroIs(fs, z);
    forall v ensures Listed(freqs, v) <==> v in freqs[..m] {
      ListedFront(fs, freqs, m, z, v);
    }
  }

  lemma NextFreq(fs: seq<int>, freqs: seq<int>, m: nat, z: nat, k: nat)
    requires k < |fs| && Gathered(fs, freqs, m, z, k)
    ensures var found := Listed(freqs, fs[k]);
            var proper := z == k && fs[k] != 0;
            Gathered(fs, if found then freqs else freqs + [fs[k]], if proper && !found then m + 1 else m,
                     if proper then k + 1 else z, k + 1)
  {
    ListedFront(fs, freqs, m, z, fs[k]);
    NextFront(fs, freqs, m, z, k);
    NextBehind(fs, freqs, m, z, k);
    hide EachOnce, Unlisted, Listed;
  }

  lemma ListedFront(fs: seq<int>, freqs: seq<int>, m: nat, z: nat, v: int)
    requires m <= |freqs| && z <= |fs| && EachOnce(fs, freqs, m, z) && (m < |freqs| ==> freqs[m] == 0)
    ensures Listed(freqs, v) <==> v in freqs[..m]
  {
    hide NoRepeats;
    ListedIn(freqs, m, v);
  }

  /** One turn of the loop, on values: what comes before the first 0, */
  lemma NextFront(fs: seq<int>, freqs: seq<int>, m: nat, z: nat, k: nat)
    requires k < |fs| && z <= k && m <= |freqs| && EachOnce(fs, freqs, m, z) && (z == k ==> m == |freqs|)
    ensures var found := fs[k] in freqs[..m];
            var longer := if found then freqs else freqs + [fs[k]];
            if z == k && fs[k] != 0 then EachOnce(fs, longer, if found then m else m + 1, k + 1)
            else EachOnce(fs, longer, m, z) && (z == k ==> !found)
  {
    var d, longer := freqs[..m], freqs + [fs[k]];
    assert longer[..m] == d;
    if z == k {
      assert fs[..k + 1] == fs[..k] + [fs[k]] && d == freqs;
      assert longer[..m + 1] == freqs + [fs[k]];
    }
  }

  /** and what comes behind. */
  lemma NextBehind(fs: seq<int>, freqs: seq<int>, m: nat, z: nat, k: nat)
    requires k < |fs| && z <= k && m <= |freqs| && (z == k ==> m == |freqs|)
    requires freqs[m..] == Unlisted(freqs[..m], fs[z..k])
    ensures var found := fs[k] in freqs[..m];
            var longer := if found then freqs else freqs + [fs[k]];
            if z == k && fs[k] != 0 then
              var n := if found then m else m + 1;
              longer[n..] == Unlisted(longer[..n], fs[k + 1..k + 1])
            else longer[m..] == Unlisted(longer[..m], fs[z..k + 1])
  {
    assert (freqs + [fs[k]])[..m] == freqs[..m] && (freqs + [fs[k]])[m..] == freqs[m..] + [fs[k]];
    assert fs[z..k + 1] == fs[z..k] + [fs[k]] && fs[k + 1..k + 1] == [];
    assert fs[z..k + 1][..k - z] == fs[z..k];
  }

  /** The supported frequencies: none of them is 0. */
  type Supported = s: seq<int> | s != [] && 0 !in s witness [1]

  /** How far the search of `bgscan_learn_get_probe_freq` is from index `p` when it looks at `k`. */
  function Distance(n: nat, p: nat, k: nat): (d: nat)
    requires p < n && k < n
    ensures 1 <= d <= n
  {
    if k > p then k - p else k + n - p
  }

  /** The frequency the search finds: the first unlisted one behind `p`, going round. */
  ghost predicate IsProbe(supp: Supported, freqs: seq<int>, p: nat, r: nat)
    requires p < |supp|
  {
    r < |supp| && !Listed(freqs, supp[r])
    && forall k | 0 <= k < |supp| && Distance(|supp|, p, k) < Distance(|supp|, p, r) :: Listed(freqs, supp[k])
  }

  /** The index looked at when the loop variable is `idx`: the 0 behind the last frequency leads back. */
  function Looked(n: nat, idx: nat): nat
    requires 1 <= idx <= n
    ensures Looked(n, idx) < n
  {
    if idx == n then 0 else idx
  }

  /** The loop variable after `k` turns. */
  function Turned(n: nat, p: nat, k: nat): (idx: nat)
    requires p < n
    ensures 1 <= idx <= n
  {
    if k == 0 then p + 1 else Looked(n, Turned(n, p, k - 1)) + 1
  }

  /** The loop stops after `k` turns: it is back at `p`, or looks at an unlisted frequency. */
  predicate Stops(supp: Supported, freqs: seq<int>, p: nat, k: nat)
    requires p < |supp|
  {
    var idx := Turned(|supp|, p, k);
    idx == p || !Listed(freqs, supp[Looked(|supp|, idx)])
  }

  /** The turns run through the indices in order of their distance. */
  lemma {:induction false} TurnDistance(n: nat, p: nat, k: nat)
    requires p < n && k < n
    ensures Distance(n, p, Looked(n, Turned(n, p, k))) == k + 1
  {
    if k > 0 {
      TurnDistance(n, p, k - 1);
    }
  }

  lemma LookedAt(n: nat, p: nat, u: nat)
    requires p < n && u < n
    ensures Looked(n, Turned(n, p, Distance(n, p, u) - 1)) == u
  {
    TurnDistance(n, p, Distance(n, p, u) - 1);
  }

  /**
    The search comes to an end exactly if it does not start from index 0 or some supported
    frequency is not listed yet.
   */
  lemma SearchEnds(supp: Supported, freqs: seq<int>, p: nat)
    requires p < |supp|
    ensures (exists k: nat :: Stops(supp, freqs, p, k)) <==>
            p != 0 || exists u | 0 <= u < |supp| :: !Listed(freqs, supp[u])
  {
    var n := |supp|;
    if u: nat :| u < n && !Listed(freqs, supp[u]) {
      LookedAt(n, p, u);
      assert Stops(supp, freqs, p, Distance(n, p, u) - 1);
    } else if p != 0 {
      TurnDistance(n, p, n - 1);
      assert Stops(supp, freqs, p, n - 1);
    }
  }

  /**
    `bgscan_learn_get_probe_freq`, where it ends: the next unlisted frequency is appended and
    remembered.  If there is none, index `p` itself has not been looked at.
   */
  method GetProbeFreq(supp: Supported, freqs: seq<int>, p: nat) returns (longer: seq<int>, p': nat)
    requires p < |supp| && (p != 0 || exists u | 0 <= u < |supp| :: !Listed(freqs, supp[u]))
    ensures p' < |supp|
    ensures longer != freqs ==> longer == freqs + [supp[p']] && IsProbe(supp, freqs, p, p')
    ensures longer == freqs ==> p' == p != 0 && forall k | 0 <= k < |supp| && k != p :: Listed(freqs, supp[k])
  {
    longer, p' := freqs, p;
    var n := |supp|;
    var idx := p + 1;
    while idx != p
      invariant 1 <= idx <= n && longer == freqs && p' == p
      invariant forall k | 0 <= k < n && Distance(n, p, k) < Distance(n, p, Looked(n, idx)) :: Listed(freqs, supp[k])
      decreases n - Distance(n, p, Looked(n, idx))
    {
      if idx == n {
        idx := 0;
      }
      var found := InFreqs(freqs, supp[idx]);
      if !found {
        p' := idx;
        longer := freqs + [supp[idx]];
        break;
      }
      idx := idx + 1;
    }
  }
}
