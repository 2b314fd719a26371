/** Reading the text of `route print -4`: which default route the system uses, and which subnets hang on the same
    interface. White space and the parsing of an address or a number are library calls. */
module RouteTable {
  import opened Basics
  import opened Prefixes

  datatype Reader = Reader(white: char -> bool, ip: string -> Option<U32>, number: string -> Option<U32>)

  datatype Row = Row(dest: U32, mask: U32, gateway: string, iface: U32, metric: U32)

  const ACTIVE: string := "Active Routes:"
  const PERSISTENT: string := "Persistent Routes:"
  const ALL_ONES: U32 := 0xffff_ffff

  // ----- one line

  function TrimStart(white: char -> bool, s: string): string {
    if s != [] && white(s[0]) then TrimStart(white, s[1..]) else s
  }

  function TrimEnd(white: char -> bool, s: string): string {
    if s != [] && white(s[|s| - 1]) then TrimEnd(white, s[..|s| - 1]) else s
  }

  /** Length of the leading word. */
  function WordLength(white: char -> bool, s: string): (k: nat)
    ensures k <= |s|
  {
    if s == [] || white(s[0]) then 0 else 1 + WordLength(white, s[1..])
  }

  function Words(white: char -> bool, s: string): seq<string>
    decreases |s|
  {
    if s == [] then []
    else if white(s[0]) then Words(white, s[1..])
    else
      var k := WordLength(white, s);
      [s[..k]] + Words(white, s[k..])
  }

  /** The line without surrounding white space begins with `heading`. */
  predicate Heads(r: Reader, line: string, heading: string) {
    heading <= TrimEnd(r.white, TrimStart(r.white, line))
  }

  function ParseRow(r: Reader, line: string): Option<Row> {
    var f := Words(r.white, TrimEnd(r.white, TrimStart(r.white, line)));
    if |f| != 5 then None
    else
      match (r.ip(f[0]), r.ip(f[1]), r.ip(f[3]), r.number(f[4]))
      case (Some(dest), Some(mask), Some(iface), Some(metric)) => Some(Row(dest, mask, f[2], iface, metric))
      case _ => None
  }

  // ----- what a printed line says

  predicate Blank(white: char -> bool, s: string) {
    forall i :: 0 <= i < |s| ==> white(s[i])
  }

  predicate Word(white: char -> bool, s: string) {
    s != [] && forall i :: 0 <= i < |s| ==> !white(s[i])
  }

  /** A line of these words, with a gap before each and one at the end. */
  function Line(words: seq<string>, gaps: seq<string>): string
    requires |gaps| == |words| + 1
  {
    if words == [] then gaps[0] else gaps[0] + words[0] + Line(words[1..], gaps[1..])
  }

  /** The gaps are white space, which may be missing only at the two ends. */
  predicate Spaced(white: char -> bool, words: seq<string>, gaps: seq<string>) {
    && |gaps| == |words| + 1
    && (forall i :: 0 <= i < |words| ==> Word(white, words[i]))
    && (forall i :: 0 <= i < |gaps| ==> Blank(white, gaps[i]))
    && (forall i :: 0 < i < |words| ==> gaps[i] != [])
  }

  lemma {:induction false} WordsAfterBlank(white: char -> bool, gap: string, s: string)
    requires Blank(white, gap)
    ensures Words(white, gap + s) == Words(white, s)
    decreases |gap|
  {
    if gap == [] {
      assert gap + s == s;
    } else {
      WordsAfterBlank(white, gap[1..], s);
      assert (gap + s)[1..] == gap[1..] + s;
    }
  }

  lemma {:induction false} WordMeasured(white: char -> bool, w: string, s: string)
    requires Word(white, w) && (s == [] || white(s[0]))
    ensures WordLength(white, w + s) == |w|
    decreases |w|
  {
    assert (w + s)[1..] == w[1..] + s;
    if |w| > 1 {
      WordMeasured(white, w[1..], s);
    } else {
      assert (w + s)[1..] == s;
    }
  }

  lemma {:induction false} WordsOfLine(white: char -> bool, words: seq<string>, gaps: seq<string>)
    requires Spaced(white, words, gaps)
    ensures Words(white, Line(words, gaps)) == words
    decreases |words|
  {
    if words == [] {
      WordsAfterBlank(white, gaps[0], []);
      assert gaps[0] + [] == gaps[0];
    } else {
      var rest := Line(words[1..], gaps[1..]);
      WordsOfLine(white, words[1..], gaps[1..]);
      WordsAfterBlank(white, gaps[0], words[0] + rest);
      assert gaps[0] + words[0] + rest == gaps[0] + (words[0] + rest);
      WordMeasured(white, words[0], rest);
      assert (words[0] + rest)[..|words[0]|] == words[0] && (words[0] + rest)[|words[0]|..] == rest;
    }
  }

  lemma {:induction false} TrailingBlank(white: char -> bool, s: string, c: char)
    requires white(c)
    ensures Words(white, s + [c]) == Words(white, s)
    decreases |s|
  {
    if s == [] {
      assert s + [c] == [c] && [c][1..] == [];
    } else if white(s[0]) {
      TrailingBlank(white, s[1..], c);
      assert (s + [c])[1..] == s[1..] + [c];
    } else {
      var k := WordLength(white, s);
      LengthBeforeBlank(white, s, c);
      TrailingBlank(white, s[k..], c);
      assert (s + [c])[..k] == s[..k] && (s + [c])[k..] == s[k..] + [c];
    }
  }

  lemma {:induction false} LengthBeforeBlank(white: char -> bool, s: string, c: char)
    requires white(c)
    ensures WordLength(white, s + [c]) == WordLength(white, s)
    decreases |s|
  {
    if s != [] && !white(s[0]) {
      LengthBeforeBlank(white, s[1..], c);
      assert (s + [c])[1..] == s[1..] + [c];
    }
  }

  lemma {:induction false} WordsTrimmedStart(white: char -> bool, s: string)
    ensures Words(white, TrimStart(white, s)) == Words(white, s)
    decreases |s|
  {
    if s != [] && white(s[0]) {
      WordsTrimmedStart(white, s[1..]);
    }
  }

  lemma {:induction false} WordsTrimmedEnd(white: char -> bool, s: string)
    ensures Words(white, TrimEnd(white, s)) == Words(white, s)
    decreases |s|
  {
    if s != [] && white(s[|s| - 1]) {
      var n := |s| - 1;
      WordsTrimmedEnd(white, s[..n]);
      TrailingBlank(white, s[..n], s[n]);
      assert s == s[..n] + [s[n]];
    }
  }

  /** A line of five words, however spaced, is the row of those words in their order if the first, second and fourth
      are addresses and the fifth a number. Any other line is no row. */
  lemma RowExactly(r: Reader, words: seq<string>, gaps: seq<string>)
    requires Spaced(r.white, words, gaps)
    ensures ParseRow(r, Line(words, gaps)) ==
              if |words| == 5 && r.ip(words[0]).Some? && r.ip(words[1]).Some? && r.ip(words[3]).Some? && r.number(words[4]).Some?
              then Some(Row(r.ip(words[0]).value, r.ip(words[1]).value, words[2], r.ip(words[3]).value, r.number(words[4]).value))
              else None
  {
    var line := Line(words, gaps);
    WordsOfLine(r.white, words, gaps);
    WordsTrimmedStart(r.white, line);
    WordsTrimmedEnd(r.white, TrimStart(r.white, line));
  }

  /** One character more in front: in the first gap, in the first word, or a word of its own. */
  lemma GapGrows(c: char, words: seq<string>, gaps: seq<string>)
    requires |gaps| == |words| + 1
    ensures Line(words, [[c] + gaps[0]] + gaps[1..]) == [c] + Line(words, gaps)
  {
  }

  lemma FirstWord(gap: string, w: string, words: seq<string>, gaps: seq<string>)
    requires |gaps| == |words| + 1
    ensures Line([w] + words, [gap] + gaps) == gap + w + Line(words, gaps)
  {
    assert ([w] + words)[1..] == words && ([gap] + gaps)[1..] == gaps;
  }

  lemma WordGrows(c: char, w: string, words: seq<string>, gaps: seq<string>)
    requires |gaps| == |words| + 1
    ensures Line([[c] + w] + words, [[]] + gaps) == [c] + Line([w] + words, [[]] + gaps)
  {
    FirstWord([], [c] + w, words, gaps);
    FirstWord([], w, words, gaps);
  }

  lemma SpacedMore(white: char -> bool, c: char, words: seq<string>, gaps: seq<string>)
    requires Spaced(white, words, gaps)
    ensures white(c) ==> Spaced(white, words, [[c] + gaps[0]] + gaps[1..])
    ensures !white(c) && words != [] ==> Spaced(white, [[c] + words[0]] + words[1..], gaps)
    ensures !white(c) && (words == [] || gaps[0] != []) ==> Spaced(white, [[c]] + words, [[]] + gaps)
  {
  }

  /** Every line is words and gaps. */
  lemma {:induction false} LineSplits(white: char -> bool, line: string) returns (words: seq<string>, gaps: seq<string>)
    ensures Spaced(white, words, gaps) && line == Line(words, gaps)
    decreases |line|
  {
    if line == [] {
      words, gaps := [], [[]];
    } else {
      var c := line[0];
      words, gaps := LineSplits(white, line[1..]);
      assert line == [c] + line[1..];
      SpacedMore(white, c, words, gaps);
      if white(c) {
        GapGrows(c, words, gaps);
        gaps := [[c] + gaps[0]] + gaps[1..];
      } else if words != [] && gaps[0] == [] {
        assert words == [words[0]] + words[1..] && gaps == [[]] + gaps[1..];
        WordGrows(c, words[0], words[1..], gaps[1..]);
        words := [[c] + words[0]] + words[1..];
      } else {
        FirstWord([], [c], words, gaps);
        words, gaps := [[c]] + words, [[]] + gaps;
      }
    }
  }

  lemma {:induction false} TrimStartCuts(white: char -> bool, s: string) returns (k: nat)
    ensures k <= |s| && Blank(white, s[..k]) && TrimStart(white, s) == s[k..]
    ensures k < |s| ==> !white(s[k])
    decreases |s|
  {
    k := 0;
    if s != [] && white(s[0]) {
      var rest := TrimStartCuts(white, s[1..]);
      k := rest + 1;
      assert s[k..] == s[1..][rest..];
      forall i | 0 <= i < k ensures white(s[i]) {
        assert i > 0 ==> s[i] == s[1..][..rest][i - 1];
      }
    }
  }

  lemma {:induction false} TrimEndCuts(white: char -> bool, s: string) returns (k: nat)
    ensures k <= |s| && Blank(white, s[k..]) && TrimEnd(white, s) == s[..k]
    decreases |s|
  {
    k := |s|;
    if s != [] && white(s[|s| - 1]) {
      var n := |s| - 1;
      k := TrimEndCuts(white, s[..n]);
      assert s[..k] == s[..n][..k];
      forall i | k <= i < |s| ensures white(s[i]) {
        assert i < n ==> s[i] == s[..n][k..][i - k];
      }
    }
  }

  /** A heading that has no white space at its ends is found exactly behind nothing but white space. */
  lemma HeadsExactly(r: Reader, line: string, heading: string)
    requires heading != [] && !r.white(heading[0]) && !r.white(heading[|heading| - 1])
    ensures Heads(r, line, heading) <==> exists k :: 0 <= k <= |line| && Blank(r.white, line[..k]) && heading <= line[k..]
  {
    var k := TrimStartCuts(r.white, line);
    var t := line[k..];
    var m := TrimEndCuts(r.white, t);
    if Heads(r, line, heading) {
      assert heading <= t;
    }
    if j :| 0 <= j <= |line| && Blank(r.white, line[..j]) && heading <= line[j..] {
      assert line[j] == heading[0];
      assert forall i :: 0 <= i < k ==> line[..k][i] == line[i];
      assert forall i :: 0 <= i < j ==> line[..j][i] == line[i];
      assert j == k;
      TrimKeeps(r.white, t, m, |heading| - 1);
    }
  }

  lemma TrimKeeps(white: char -> bool, t: string, m: nat, i: nat)
    requires m <= |t| && Blank(white, t[m..]) && i < |t| && !white(t[i])
    ensures i < m
  {
    assert forall j :: m <= j < |t| ==> t[m..][j - m] == t[j];
  }

  // ----- the active table

  /** The first of the first `n` lines under that heading, or `n`. */
  function FirstAt(r: Reader, lines: seq<string>, heading: string, n: nat): (k: nat)
    requires n <= |lines|
    ensures k <= n && (k < n ==> Heads(r, lines[k], heading))
    ensures forall i :: 0 <= i < k ==> !Heads(r, lines[i], heading)
  {
    if n == 0 then 0
    else
      var k := FirstAt(r, lines, heading, n - 1);
      if k == n - 1 && !Heads(r, lines[n - 1], heading) then n else k
  }

  /** None of the first `n` lines is under that heading. */
  ghost predicate NoneHeads(r: Reader, lines: seq<string>, heading: string, n: nat)
    requires n <= |lines|
  {
    forall i :: 0 <= i < n ==> !Heads(r, lines[i], heading)
  }

  /** The rows that parse among the lines from `lo` to `hi`. */
  function RowsIn(r: Reader, lines: seq<string>, lo: nat, hi: nat): seq<Row>
    requires lo <= hi <= |lines|
  {
    if lo == hi then []
    else
      var rows, row := RowsIn(r, lines, lo, hi - 1), ParseRow(r, lines[hi - 1]);
      if Heads(r, lines[hi - 1], ACTIVE) || row.None? then rows else rows + [row.value]
  }

  /** The rows after the first "Active Routes:" and before the first "Persistent Routes:". */
  function ActiveRows(r: Reader, lines: seq<string>): seq<Row> {
    var a, p := FirstAt(r, lines, ACTIVE, |lines|), FirstAt(r, lines, PERSISTENT, |lines|);
    if a < p then RowsIn(r, lines, a + 1, p) else []
  }

  lemma FirstAtIs(r: Reader, lines: seq<string>, heading: string, k: nat, n: nat)
    requires k <= n <= |lines| && (k < n ==> Heads(r, lines[k], heading)) && NoneHeads(r, lines, heading, k)
    ensures FirstAt(r, lines, heading, n) == k
  {
  }

  lemma {:induction false} RowsOfSlice(r: Reader, lines: seq<string>, lo: nat, hi: nat, k: nat)
    requires lo + k <= hi <= |lines|
    ensures RowsIn(r, lines, lo, lo + k) == RowsIn(r, lines[lo..hi], 0, k)
  {
    if k > 0 {
      RowsOfSlice(r, lines, lo, hi, k - 1);
      assert lines[lo..hi][k - 1] == lines[lo + k - 1];
    }
  }

  lemma RowsWhole(r: Reader, lines: seq<string>, lo: nat, hi: nat)
    requires lo <= hi <= |lines|
    ensures RowsIn(r, lines, lo, hi) == RowsIn(r, lines[lo..hi], 0, hi - lo)
  {
    RowsOfSlice(r, lines, lo, hi, hi - lo);
    assert lo + (hi - lo) == hi;
  }

  lemma HeadingsDiffer(r: Reader, line: string)
    ensures !(Heads(r, line, ACTIVE) && Heads(r, line, PERSISTENT))
  {
    assert ACTIVE[0] != PERSISTENT[0];
  }

  /** `a` is the first "Active Routes:" line, or the end, and `p` the first "Persistent Routes:" line, or the end. */
  ghost predicate Headings(r: Reader, lines: seq<string>, a: nat, p: nat) {
    && a <= |lines| && p <= |lines|
    && (a < |lines| ==> Heads(r, lines[a], ACTIVE)) && (p < |lines| ==> Heads(r, lines[p], PERSISTENT))
    && NoneHeads(r, lines, ACTIVE, a) && NoneHeads(r, lines, PERSISTENT, p)
  }

  lemma HeadingsFirst(r: Reader, lines: seq<string>, a: nat, p: nat)
    requires Headings(r, lines, a, p)
    ensures ActiveRows(r, lines) == if a < p then RowsIn(r, lines, a + 1, p) else []
  {
    FirstAtIs(r, lines, ACTIVE, a, |lines|);
    FirstAtIs(r, lines, PERSISTENT, p, |lines|);
  }

  /** The rows are those of the lines between the two headings; the lines outside make no difference. */
  lemma OnlyTheTableCounts(r: Reader, lines: seq<string>, a: nat, p: nat)
    requires Headings(r, lines, a, p)
    ensures ActiveRows(r, lines) == if a < p then RowsIn(r, lines[a + 1..p], 0, p - a - 1) else []
  {
    HeadingsFirst(r, lines, a, p);
    if a < p {
      RowsWhole(r, lines, a + 1, p);
    }
  }

  predicate Increasing(ks: seq<nat>) {
    forall i, j :: 0 <= i < j < |ks| ==> ks[i] < ks[j]
  }

  lemma IncreasingMore(ks: seq<nat>, k: nat)
    requires Increasing(ks) && forall i :: 0 <= i < |ks| ==> ks[i] < k
    ensures Increasing(ks + [k]) && forall i :: i in ks + [k] <==> i in ks || i == k
  {
  }

  /** The line is that row, and no heading. */
  predicate IsRow(r: Reader, line: string, row: Row) {
    !Heads(r, line, ACTIVE) && ParseRow(r, line) == Some(row)
  }

  /** The rows of a stretch of lines are, in order, those of its lines that are rows and no headings. */
  lemma {:induction false} RowsAreLines(r: Reader, lines: seq<string>, lo: nat, hi: nat) returns (ks: seq<nat>)
    requires lo <= hi <= |lines|
    ensures var rows := RowsIn(r, lines, lo, hi);
            && |ks| == |rows| && Increasing(ks)
            && (forall j :: 0 <= j < |ks| ==> lo <= ks[j] < hi && IsRow(r, lines[ks[j]], rows[j]))
    ensures forall k, row :: lo <= k < hi && IsRow(r, lines[k], row) ==> k in ks
    decreases hi - lo
  {
    ks := [];
    if lo < hi {
      ks := RowsAreLines(r, lines, lo, hi - 1);
      if !Heads(r, lines[hi - 1], ACTIVE) && ParseRow(r, lines[hi - 1]).Some? {
        IncreasingMore(ks, hi - 1);
        ks := ks + [hi - 1];
      }
    }
  }

  // ----- the default route and its LAN

  /** A 0.0.0.0/0 row whose gateway is an address. */
  predicate IsDefault(r: Reader, row: Row) {
    row.dest == 0 && row.mask == 0 && r.ip(row.gateway).Some?
  }

  /** The default row the system uses, among the first `n`: of least metric, and the earliest of those. */
  function Best(r: Reader, rows: seq<Row>, n: nat): (best: Option<nat>)
    requires n <= |rows|
    ensures best.None? ==> forall j :: 0 <= j < n ==> !IsDefault(r, rows[j])
    ensures best.Some? ==>
              var k := best.value;
              k < n && IsDefault(r, rows[k]) &&
              forall j :: 0 <= j < n && IsDefault(r, rows[j]) ==>
                            rows[k].metric <= rows[j].metric && (j < k ==> rows[k].metric < rows[j].metric)
  {
    if n == 0 then None
    else
      var best := Best(r, rows, n - 1);
      if IsDefault(r, rows[n - 1]) && (best.None? || rows[n - 1].metric < rows[best.value].metric) then Some(n - 1) else best
  }

  function Lower(c: char): char {
    if 'A' <= c <= 'Z' then c - 'A' + 'a' else c
  }

  predicate OnLink(gateway: string) {
    |gateway| == 7 && forall i :: 0 <= i < 7 ==> Lower(gateway[i]) == "on-link"[i]
  }

  /** Not in 127/8 nor in 224/4, and not the broadcast address. */
  predicate OrdinaryDest(dest: U32) {
    dest / 0x100_0000 != 127 && dest / 0x1000_0000 != 14 && dest != ALL_ONES
  }

  predicate IsLan(row: Row, iface: U32) {
    row.iface == iface && OnLink(row.gateway) && row.mask != ALL_ONES && OrdinaryDest(row.dest)
  }

  function Lan(rows: seq<Row>, iface: U32, n: nat): seq<(U32, U32)>
    requires n <= |rows|
  {
    if n == 0 then []
    else
      var rest := Lan(rows, iface, n - 1);
      if IsLan(rows[n - 1], iface) then rest + [(rows[n - 1].dest, rows[n - 1].mask)] else rest
  }

  /** What is read off a route listing: gateway and interface of the default route, and the subnets beside it. */
  function Reading(r: Reader, rows: seq<Row>): (Option<(U32, U32)>, seq<(U32, U32)>) {
    match Best(r, rows, |rows|)
    case None => (None, [])
    case Some(k) => (Some((r.ip(rows[k].gateway).value, rows[k].iface)), Lan(rows, rows[k].iface, |rows|))
  }

  /** What the listing says: the gateway and interface of its first row of least metric among the 0.0.0.0/0 rows whose
      gateway is an address, with the LAN of that interface; nothing exactly if there is no such row. */
  lemma ReadingExactly(r: Reader, rows: seq<Row>)
    ensures var (default, lan) := Reading(r, rows);
            match default
            case None =>
              lan == [] && forall j :: 0 <= j < |rows| && rows[j].dest == rows[j].mask == 0 ==> r.ip(rows[j].gateway).None?
            case Some((gateway, iface)) =>
              exists k :: 0 <= k < |rows| && rows[k].dest == rows[k].mask == 0
                && r.ip(rows[k].gateway) == Some(gateway) && rows[k].iface == iface
                && lan == Lan(rows, iface, |rows|)
                && forall j :: 0 <= j < |rows| && rows[j].dest == rows[j].mask == 0 && r.ip(rows[j].gateway).Some? ==>
                                 rows[k].metric <= rows[j].metric && (j < k ==> rows[k].metric < rows[j].metric)
  {
  }

  /** A row of that interface is on its LAN if it is on-link, in letters of either case, no host route, and not in
      127.0.0.0/8, 224.0.0.0/4 or the broadcast address. */
  lemma IsLanExactly(row: Row, iface: U32)
    ensures IsLan(row, iface) <==>
              && row.iface == iface && row.mask != 0xffff_ffff
              && |row.gateway| == 7 && (forall i :: 0 <= i < 7 ==> row.gateway[i] == "on-link"[i] || row.gateway[i] == "ON-LINK"[i])
              && !(0x7f00_0000 <= row.dest <= 0x7fff_ffff) && !(0xe000_0000 <= row.dest <= 0xefff_ffff)
              && row.dest != 0xffff_ffff
  {
    forall i | 0 <= i < 7 && |row.gateway| == 7
      ensures Lower(row.gateway[i]) == "on-link"[i] <==> row.gateway[i] == "on-link"[i] || row.gateway[i] == "ON-LINK"[i]
    {
      LowerCase(row.gateway[i], i);
    }
  }

  lemma LowerCase(c: char, i: nat)
    requires i < 7
    ensures Lower(c) == "on-link"[i] <==> c == "on-link"[i] || c == "ON-LINK"[i]
  {
  }

  /** The LAN lists the rows on it in their order. */
  lemma {:induction false} LanInOrder(rows: seq<Row>, iface: U32, n: nat) returns (ks: seq<nat>)
    requires n <= |rows|
    ensures var lan := Lan(rows, iface, n);
            && |ks| == |lan| && Increasing(ks)
            && (forall j :: 0 <= j < |ks| ==> ks[j] < n && IsLan(rows[ks[j]], iface) && lan[j] == (rows[ks[j]].dest, rows[ks[j]].mask))
    ensures forall k :: 0 <= k < n && IsLan(rows[k], iface) ==> k in ks
  {
    ks := [];
    if n > 0 {
      ks := LanInOrder(rows, iface, n - 1);
      if IsLan(rows[n - 1], iface) {
        IncreasingMore(ks, n - 1);
        ks := ks + [n - 1];
      }
    }
  }

  lemma {:induction false} LanMembers(rows: seq<Row>, iface: U32, n: nat, dest: U32, mask: U32)
    requires n <= |rows|
    ensures (dest, mask) in Lan(rows, iface, n) <==>
              exists k :: 0 <= k < n && IsLan(rows[k], iface) && rows[k].dest == dest && rows[k].mask == mask
  {
    if n > 0 {
      LanMembers(rows, iface, n - 1, dest, mask);
    }
  }

  /** What the reading loop knows after `i` lines: `a` is the heading it saw, or `i` if it saw none. */
  ghost predicate Scanned(r: Reader, lines: seq<string>, i: nat, active: bool, a: nat, rows: seq<Row>) {
    && a <= i <= |lines| && (if active then a < i && Heads(r, lines[a], ACTIVE) else a == i)
    && NoneHeads(r, lines, ACTIVE, a) && NoneHeads(r, lines, PERSISTENT, i)
    && rows == if active then RowsIn(r, lines, a + 1, i) else []
  }

  /** One line that is not the end of the table. */
  function ScanLine(r: Reader, line: string, active: bool, rows: seq<Row>): (bool, seq<Row>) {
    if Heads(r, line, ACTIVE) then (true, rows)
    else
      match ParseRow(r, line)
      case Some(row) => if active then (true, rows + [row]) else (false, rows)
      case None => (active, rows)
  }

  lemma ScanStep(r: Reader, lines: seq<string>, i: nat, active: bool, a: nat, rows: seq<Row>)
    requires Scanned(r, lines, i, active, a, rows) && i < |lines| && !Heads(r, lines[i], PERSISTENT)
    ensures var (now, more) := ScanLine(r, lines[i], active, rows);
            Scanned(r, lines, i + 1, now, if active || now then a else a + 1, more)
  {
  }

  lemma ScanEnds(r: Reader, lines: seq<string>, i: nat, active: bool, a: nat, rows: seq<Row>)
    requires Scanned(r, lines, i, active, a, rows) && (i < |lines| ==> Heads(r, lines[i], PERSISTENT))
    ensures rows == ActiveRows(r, lines)
  {
    FirstAtIs(r, lines, PERSISTENT, i, |lines|);
    if active { FirstAtIs(r, lines, ACTIVE, a, |lines|); }
  }

  method ReadLine(r: Reader, line: string, active: bool, before: seq<Row>) returns (now: bool, rows: seq<Row>)
    ensures (now, rows) == ScanLine(r, line, active, before)
  {
    now, rows := active, before;
    if Heads(r, line, ACTIVE) {
      now := true;
    } else if active {
      var row := ParseRow(r, line);
      if row.Some? { rows := rows + [row.value]; }
    }
  }

  method ReadRows(r: Reader, lines: seq<string>) returns (rows: seq<Row>)
    ensures rows == ActiveRows(r, lines)
  {
    rows := [];
    var active, i := false, 0;
    ghost var a := 0;
    while i < |lines|
      invariant Scanned(r, lines, i, active, a, rows)
    {
      HeadingsDiffer(r, lines[i]);
      if !Heads(r, lines[i], ACTIVE) && Heads(r, lines[i], PERSISTENT) { break; }
      ScanStep(r, lines, i, active, a, rows);
      ghost var was := active;
      active, rows := ReadLine(r, lines[i], active, rows);
      a := if was || active then a else a + 1;
      i := i + 1;
    }
    ScanEnds(r, lines, i, active, a, rows);
  }

  method ParseRoutes(r: Reader, lines: seq<string>) returns (default: Option<(U32, U32)>, lan: seq<(U32, U32)>)
    ensures (default, lan) == Reading(r, ActiveRows(r, lines))
  {
    var rows := ReadRows(r, lines);
    var best: Option<nat> := None;
    var i := 0;
    while i < |rows|
      invariant i <= |rows|
      invariant best == Best(r, rows, i)
    {
      if IsDefault(r, rows[i]) && (best.None? || rows[i].metric < rows[best.value].metric) {
        best := Some(i);
      }
      i := i + 1;
    }
    if best.None? { return None, []; }
    var k := best.value;
    default := Some((r.ip(rows[k].gateway).value, rows[k].iface));
    lan := FilterLan(rows, rows[k].iface);
  }

  method FilterLan(rows: seq<Row>, iface: U32) returns (lan: seq<(U32, U32)>)
    ensures lan == Lan(rows, iface, |rows|)
  {
    lan := [];
    for i := 0 to |rows|
      invariant lan == Lan(rows, iface, i)
    {
      if IsLan(rows[i], iface) { lan := lan + [(rows[i].dest, rows[i].mask)]; }
    }
  }
}
