/**
  The NVRAM text compactor of bcmutils.c (`process_nvram_vars`), which rewrites its buffer in
  place.  The reference reads the text line by line.
 */
module Nvram {
  import opened Octets

  const CR: Octet := 13
  const LF: Octet := 10
  const HASH: Octet := 35

  /** A line without its carriage returns. */
  function WithoutCr(line: Octets): (r: Octets)
    ensures |r| <= |line|
  {
    if line == [] then []
    else (if line[0] == CR then [] else [line[0]]) + WithoutCr(line[1..])
  }

  /** A line up to its comment. */
  function BeforeHash(line: Octets): (r: Octets)
    ensures |r| <= |line|
  {
    if line == [] || line[0] == HASH then [] else [line[0]] + BeforeHash(line[1..])
  }

  function Content(line: Octets): (r: Octets)
    ensures |r| <= |line|
  {
    BeforeHash(WithoutCr(line))
  }

  /** The position of the first newline, or the length. */
  function LineEnd(s: Octets): (i: nat)
    ensures i <= |s| && LF !in s[..i] && (i < |s| ==> s[i] == LF)
  {
    if s == [] || s[0] == LF then 0
    else
      var i := 1 + LineEnd(s[1..]);
      assert s[..i] == [s[0]] + s[1..][..i - 1];
      i
  }

  /** The compacted text: the contents of the non-empty lines, a NUL for each newline behind one. */
  function Text(s: Octets): (t: Octets)
    ensures |t| <= |s|
    decreases |s|
  {
    var i := LineEnd(s);
    var line := Content(s[..i]);
    if i == |s| then line
    else (if line == [] then [] else line + [0]) + Text(s[i + 1..])
  }

  /** A length rounded up to a multiple of four where that fits. */
  function Padded(n: nat, len: nat): (r: nat)
    requires n <= len
    ensures n <= r <= len && r < n + 4
    ensures (r % 4 == 0) || (r == n && (n + 3) / 4 * 4 > len)
  {
    if n % 4 != 0 && n + (4 - n % 4) <= len then n + (4 - n % 4) else n
  }

  /** The buffer and the length that come out. */
  function Processed(s: Octets): (r: (Octets, nat))
    ensures |r.0| == |s| && r.1 <= |s|
  {
    (Text(s) + Zeros(|s| - |Text(s)|), Padded(|Text(s)|, |s|))
  }

  // ---- The loop, character by character

  /** What the loop still writes: `find` is `findNewline`, `started` says that `column > 0`. */
  function Emit(s: Octets, find: bool, started: bool): (t: Octets)
    ensures |t| <= |s|
    decreases |s|
  {
    if s == [] then []
    else if s[0] == CR || (find && s[0] != LF) then Emit(s[1..], find, started)
    else if s[0] == HASH then Emit(s[1..], true, started)
    else if s[0] == LF then (if started then [0] else []) + Emit(s[1..], false, false)
    else [s[0]] + Emit(s[1..], false, true)
  }

  /** What the rest of the current line contributes. */
  function RestOfLine(line: Octets, find: bool): Octets {
    if find then [] else Content(line)
  }

  /** The rest of the current line, its newline, and then the loop afresh. */
  function LineThen(s: Octets, find: bool, started: bool): Octets {
    var i := LineEnd(s);
    var line := RestOfLine(s[..i], find);
    if i == |s| then line
    else line + (if started || line != [] then [0] else []) + Emit(s[i + 1..], false, false)
  }

  lemma {:induction false} EmitLine(s: Octets, find: bool, started: bool)
    ensures Emit(s, find, started) == LineThen(s, find, started)
    decreases |s|
  {
    if s == [] || s[0] == LF {
      EmitNewline(s, find, started);
    } else {
      EmitHead(s, find, started);
      hide Emit, LineThen;
      LineThenHead(s, find, started);
      if s[0] == CR || find {
        EmitLine(s[1..], find, started);
      } else if s[0] == HASH {
        EmitLine(s[1..], true, started);
      } else {
        EmitLine(s[1..], false, true);
      }
    }
  }

  lemma EmitNewline(s: Octets, find: bool, started: bool)
    requires s == [] || s[0] == LF
    ensures Emit(s, find, started) == LineThen(s, find, started)
  {
    assert LineEnd(s) == 0 && s[..0] == [] && Content([]) == [];
    hide LineEnd, Content;
  }

  lemma LineThenHead(s: Octets, find: bool, started: bool)
    requires s != [] && s[0] != LF
    ensures LineThen(s, find, started) ==
            if s[0] == CR || find then LineThen(s[1..], find, started)
            else if s[0] == HASH then LineThen(s[1..], true, started)
            else [s[0]] + LineThen(s[1..], false, true)
  {
    LineEndStep(s);
    LineStep(s[0], s[1..][..LineEnd(s) - 1]);
    hide Content, LineEnd, Emit;
    if !find && s[0] != CR && s[0] != HASH && LineEnd(s) < |s| {
      Regroup(s[0], Content(s[1..][..LineEnd(s[1..])]), Emit(s[LineEnd(s) + 1..], false, false));
    }
  }

  lemma LineEndStep(s: Octets)
    requires s != [] && s[0] != LF
    ensures var i := LineEnd(s);
            i == 1 + LineEnd(s[1..]) && s[..i] == [s[0]] + s[1..][..i - 1] && (i < |s| ==> s[i + 1..] == s[1..][i..])
  {
  }

  /** One character that is no newline. */
  lemma EmitHead(s: Octets, find: bool, started: bool)
    requires s != [] && s[0] != LF
    ensures Emit(s, find, started) ==
            if s[0] == CR || find then Emit(s[1..], find, started)
            else if s[0] == HASH then Emit(s[1..], true, started)
            else [s[0]] + Emit(s[1..], false, true)
  {
  }

  lemma Regroup(c: Octet, line: Octets, more: Octets)
    ensures [c] + (line + [0] + more) == [c] + line + [0] + more
  {
  }

  lemma LineStep(c: Octet, rest: Octets)
    ensures Content([c] + rest) == if c == CR then Content(rest) else if c == HASH then [] else [c] + Content(rest)
  {
    assert ([c] + rest)[1..] == rest;
    if c == CR {
      assert WithoutCr([c] + rest) == [] + WithoutCr(rest) == WithoutCr(rest);
    } else {
      assert WithoutCr([c] + rest) == [c] + WithoutCr(rest);
      assert ([c] + WithoutCr(rest))[1..] == WithoutCr(rest);
    }
  }

  /** The loop writes the compacted text. */
  lemma {:induction false} EmitIsText(s: Octets)
    ensures Emit(s, false, false) == Text(s)
    decreases |s|
  {
    var i := LineEnd(s);
    EmitLine(s, false, false);
    if i < |s| {
      EmitIsText(s[i + 1..]);
    }
  }

  lemma EmitStep(s: Octets, n: nat, find: bool, started: bool)
    requires n < |s|
    ensures Emit(s[n..], find, started) ==
            if s[n] == CR || (find && s[n] != LF) then Emit(s[n + 1..], find, started)
            else if s[n] == HASH then Emit(s[n + 1..], true, started)
            else if s[n] == LF then (if started then [0] else []) + Emit(s[n + 1..], false, false)
            else [s[n]] + Emit(s[n + 1..], false, true)
  {
    assert s[n..][1..] == s[n + 1..];
  }

  /** The loop of `process_nvram_vars`: `dp` never passes `n`. */
  method Compact(varbuf: array<Octet>) returns (dp: nat)
    modifies varbuf
    ensures dp <= varbuf.Length
    ensures varbuf[..dp] == Text(old(varbuf[..]))
  {
    ghost var was := varbuf[..];
    var len := varbuf.Length;
    EmitIsText(was);
    hide Emit, Text;
    EmitNothing();
    var findNewline, column := false, 0;
    var n := 0;
    dp := 0;
    assert was[0..] == was && varbuf[..0] == [];
    while n < len
      invariant 0 <= dp <= n <= len && column >= 0
      invariant varbuf[n..] == was[n..]
      invariant varbuf[..dp] + Emit(was[n..], findNewline, column > 0) == Text(was)
    {
      dp, findNewline, column := Scan(varbuf, n, dp, findNewline, column, was);
      n := n + 1;
    }
    assert was[n..] == [];
  }

  /** The body of the loop. */
  method Scan(varbuf: array<Octet>, n: nat, dp: nat, findNewline: bool, column: nat, ghost was: Octets)
    returns (dp': nat, findNewline': bool, column': nat)
    requires dp <= n < varbuf.Length == |was| && varbuf[n..] == was[n..]
    modifies varbuf
    ensures dp' <= n + 1 && varbuf[n + 1..] == was[n + 1..]
    ensures varbuf[..dp'] + Emit(was[n + 1..], findNewline', column' > 0) ==
            old(varbuf[..dp]) + Emit(was[n..], findNewline, column > 0)
  {
    EmitStep(was, n, findNewline, column > 0);
    hide Emit;
    dp', findNewline', column' := dp, findNewline, column;
    var c := varbuf[n];
    assert c == varbuf[n..][0] == was[n];
    assert was[n..][1..] == was[n + 1..] && varbuf[n..][1..] == varbuf[n + 1..];
    if c == CR {
      return;
    }
    if findNewline && c != LF {
      return;
    }
    findNewline' := false;
    if c == HASH {
      findNewline' := true;
      return;
    }
    if c == LF {
      if column == 0 {
        assert [] + Emit(was[n + 1..], false, false) == Emit(was[n + 1..], false, false);
        return;
      }
      dp' := Append(varbuf, dp, n, 0, was, Emit(was[n + 1..], false, false));
      column' := 0;
      return;
    }
    dp' := Append(varbuf, dp, n, c, was, Emit(was[n + 1..], false, true));
    column' := column + 1;
  }

  lemma EmitNothing()
    ensures forall find, started :: Emit([], find, started) == []
  {
  }

  /** `*dp++ = c` */
  method Append(varbuf: array<Octet>, dp: nat, n: nat, c: Octet, ghost was: Octets, ghost rest: Octets)
    returns (dp': nat)
    requires dp <= n < varbuf.Length == |was| && varbuf[n..] == was[n..]
    modifies varbuf
    ensures dp' == dp + 1 && varbuf[n + 1..] == was[n + 1..]
    ensures varbuf[..dp'] == old(varbuf[..dp]) + [c]
    ensures varbuf[..dp'] + rest == old(varbuf[..dp]) + ([c] + rest)
  {
    assert was[n..][1..] == was[n + 1..] && varbuf[n..][1..] == varbuf[n + 1..];
    varbuf[dp] := c;
    dp' := dp + 1;
    assert old(varbuf[..dp]) + [c] + rest == old(varbuf[..dp]) + ([c] + rest);
  }

  /** `process_nvram_vars`, on the whole of `varbuf` */
  method ProcessNvramVars(varbuf: array<Octet>) returns (bufLen: nat)
    modifies varbuf
    ensures (varbuf[..], bufLen) == Processed(old(varbuf[..]))
  {
    ghost var was := varbuf[..];
    var dp := Compact(varbuf);
    hide Text;
    var len := varbuf.Length;
    bufLen := dp;
    if bufLen % 4 != 0 {
      var pad := 4 - bufLen % 4;
      if bufLen + pad <= len {
        bufLen := bufLen + pad;
      }
    }
    ZeroFill(varbuf, dp);
  }

  /** The closing loop. */
  method ZeroFill(varbuf: array<Octet>, from: nat)
    requires from <= varbuf.Length
    modifies varbuf
    ensures varbuf[..] == old(varbuf[..from]) + Zeros(varbuf.Length - from)
  {
    var dp, len := from, varbuf.Length;
    while dp < len
      invariant from <= dp <= len
      invariant varbuf[..dp] == old(varbuf[..from]) + Zeros(dp - from)
    {
      varbuf[dp] := 0;
      dp := dp + 1;
    }
    assert varbuf[..] == varbuf[..len];
  }

  // ---- What the text is, character by character

  /** Carriage returns (13) are dropped; `#` (35) ends the content of a line. */
  lemma ContentOf(c: Octet, rest: Octets)
    ensures Content([]) == []
    ensures Content([c] + rest) == if c == 13 then Content(rest) else if c == 35 then [] else [c] + Content(rest)
  {
    LineStep(c, rest);
  }

  lemma {:induction false} LineEndOf(a: Octets, b: Octets)
    requires 10 !in a
    ensures LineEnd(a + [10] + b) == |a| && LineEnd(a) == |a|
    decreases |a|
  {
    var s := a + [10] + b;
    if a != [] {
      LineEndOf(a[1..], b);
      assert s[1..] == a[1..] + [10] + b;
    }
  }

  /** A newline (10) ends a line; its content is kept with a NUL unless it is empty, and the last line as it is. */
  lemma TextOf(a: Octets, b: Octets)
    requires 10 !in a
    ensures Text(a + [10] + b) == (if Content(a) == [] then [] else Content(a) + [0]) + Text(b)
    ensures Text(a) == Content(a)
  {
    var s := a + [10] + b;
    LineEndOf(a, b);
    assert s[..|a|] == a && s[|a| + 1..] == b && a[..|a|] == a;
    hide LineEnd, Content;
  }

  // ---- A second run changes nothing.

  /** Text in which nothing is left to remove. */
  predicate Clean(t: Octets) {
    13 !in t && 10 !in t && 35 !in t
  }

  lemma {:induction false} ContentClean(line: Octets)
    requires LF !in line
    ensures Clean(Content(line))
    decreases |line|
  {
    if line != [] {
      ContentClean(line[1..]);
      LineStep(line[0], line[1..]);
      assert line == [line[0]] + line[1..];
    }
  }

  lemma {:induction false} TextClean(s: Octets)
    ensures Clean(Text(s))
    decreases |s|
  {
    var i := LineEnd(s);
    ContentClean(s[..i]);
    hide Content;
    if i < |s| {
      TextClean(s[i + 1..]);
    }
  }

  lemma {:induction false} CleanStays(t: Octets)
    requires Clean(t)
    ensures Content(t) == t
    decreases |t|
  {
    if t != [] {
      CleanStays(t[1..]);
      LineStep(t[0], t[1..]);
      assert t == [t[0]] + t[1..];
    }
  }

  lemma {:induction false} OneLine(t: Octets)
    requires LF !in t
    ensures LineEnd(t) == |t|
  {
    if t != [] {
      OneLine(t[1..]);
    }
  }

  /** What comes out holds no carriage return, newline or comment. */
  lemma ProcessedClean(s: Octets)
    ensures Clean(Processed(s).0)
  {
    TextClean(s);
    hide Text;
  }

  /** Run again on the prefix it returned, it changes neither the text nor the length. */
  lemma Idempotent(s: Octets)
    ensures var (buf, n) := Processed(s); Processed(buf[..n]) == (buf[..n], n)
  {
    var (buf, n) := Processed(s);
    ProcessedClean(s);
    var t := buf[..n];
    assert Clean(t);
    CleanStays(t);
    OneLine(t);
    assert t[..|t|] == t;
    assert Text(t) == t && Text(t) + Zeros(0) == t;
    hide Text;
  }
}
