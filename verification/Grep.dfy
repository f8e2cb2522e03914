/** The streaming line search of mp3/syscalls/ece391grep.c: one fixed buffer is
    refilled from the file while partial lines are moved to its front. */
module Grep {
  type byte = b: int | 0 <= b < 256

  const BUFSIZE := 1024
  const NUL: byte := 0
  const NEWLINE: byte := 10

  // ----- what a line search should report -----

  /** The length of the line at the front of s. */
  function LineLength(s: seq<byte>): (n: nat)
    ensures n <= |s|
    ensures n < |s| ==> s[n] == NEWLINE
    ensures forall i | 0 <= i < n :: s[i] != NEWLINE
  {
    if s == [] || s[0] == NEWLINE then 0 else 1 + LineLength(s[1..])
  }

  /** The lines of a file; what follows the last newline counts as one. */
  function Lines(s: seq<byte>): seq<seq<byte>> {
    var n := LineLength(s);
    if n == |s| then [s] else [s[..n]] + Lines(s[n + 1..])
  }

  predicate MatchesAt(line: seq<byte>, pat: seq<byte>, i: int) {
    0 <= i && i + |pat| <= |line| && line[i..i + |pat|] == pat
  }

  predicate ContainsPattern(line: seq<byte>, pat: seq<byte>) {
    exists i | 0 <= i <= |line| :: MatchesAt(line, pat, i)
  }

  /** The lines that contain the pattern, once each, in order. */
  function Matching(pat: seq<byte>, lines: seq<seq<byte>>): seq<seq<byte>> {
    if lines == [] then []
    else (if ContainsPattern(lines[0], pat) then [lines[0]] else []) + Matching(pat, lines[1..])
  }

  // ----- what the buffer makes of a file -----

  /** Lines too long for the buffer are cut after every BUFSIZE bytes. */
  function Pieces(s: seq<byte>): seq<seq<byte>> {
    var n := LineLength(s);
    if n >= BUFSIZE then [s[..BUFSIZE]] + Pieces(s[BUFSIZE..])
    else if n == |s| then [s]
    else [s[..n]] + Pieces(s[n + 1..])
  }

  /** What the program reports. */
  function Report(pat: seq<byte>, content: seq<byte>): seq<seq<byte>> {
    if pat == [] then [] else Matching(pat, Pieces(content))
  }

  lemma LineLengthIs(s: seq<byte>, n: nat)
    requires n <= |s| && (n < |s| ==> s[n] == NEWLINE)
    requires forall i | 0 <= i < n :: s[i] != NEWLINE
    ensures LineLength(s) == n
  {
  }

  ghost predicate LinesFit(s: seq<byte>) {
    forall l | l in Lines(s) :: |l| <= BUFSIZE
  }

  lemma {:induction false} PiecesFit(s: seq<byte>)
    ensures forall l | l in Pieces(s) :: |l| <= BUFSIZE
    decreases |s|
  {
    var n := LineLength(s);
    if n >= BUFSIZE {
      PiecesFit(s[BUFSIZE..]);
    } else if n < |s| {
      PiecesFit(s[n + 1..]);
    }
  }

  lemma EmptyReportsNothing(pat: seq<byte>)
    ensures Reported(pat, []) == []
  {
  }

  // ----- how reports follow the stream of unread bytes -----

  /** A line that ends within the buffer. */
  lemma LineReported(pat: seq<byte>, u: seq<byte>, n: nat)
    requires n < |u| && n < BUFSIZE && u[n] == NEWLINE && forall i | 0 <= i < n :: u[i] != NEWLINE
    ensures Report(pat, u) == Reported(pat, u[..n]) + Report(pat, u[n + 1..])
  {
    LineLengthIs(u, n);
    assert Pieces(u)[1..] == Pieces(u[n + 1..]);
  }

  /** A buffer full of one line. */
  lemma FullBufferReported(pat: seq<byte>, u: seq<byte>)
    requires |u| >= BUFSIZE && forall i | 0 <= i < BUFSIZE :: u[i] != NEWLINE
    ensures Report(pat, u) == Reported(pat, u[..BUFSIZE]) + Report(pat, u[BUFSIZE..])
  {
    var n := LineLength(u);
    assert n >= BUFSIZE;
    assert Pieces(u)[1..] == Pieces(u[BUFSIZE..]);
  }

  /** The end of a file without a final newline. */
  lemma LastLineReported(pat: seq<byte>, u: seq<byte>)
    requires |u| < BUFSIZE && forall i | 0 <= i < |u| :: u[i] != NEWLINE
    ensures Report(pat, u) == Reported(pat, u)
  {
    LineLengthIs(u, |u|);
    var ps := Pieces(u);
    assert ps == [u] && ps[1..] == [];
    assert Matching(pat, ps) == (if ContainsPattern(u, pat) then [u] else []) + Matching(pat, []);
  }

  /** With an empty pattern the comparison of first characters always fails. */
  function Reported(pat: seq<byte>, line: seq<byte>): seq<seq<byte>> {
    if pat != [] && ContainsPattern(line, pat) then [line] else []
  }

  lemma LinesOnce(s: seq<byte>)
    ensures var n := LineLength(s);
            Lines(s) == [s[..n]] + (if n == |s| then [] else Lines(s[n + 1..]))
  {
    hide LineLength;
    assert s[..|s|] == s;
  }

  lemma MatchingOnce(pat: seq<byte>, line: seq<byte>, lines: seq<seq<byte>>)
    requires pat != []
    ensures Matching(pat, [line] + lines) == Reported(pat, line) + Matching(pat, lines)
  {
    hide ContainsPattern;
    assert ([line] + lines)[1..] == lines;
  }

  lemma FirstLineMatched(pat: seq<byte>, s: seq<byte>)
    requires pat != []
    ensures var n := LineLength(s);
      Matching(pat, Lines(s)) == Reported(pat, s[..n]) + (if n == |s| then [] else Matching(pat, Lines(s[n + 1..])))
  {
    hide Lines, Reported, LineLength;
    var n := LineLength(s);
    LinesOnce(s);
    MatchingOnce(pat, s[..n], if n == |s| then [] else Lines(s[n + 1..]));
  }

  lemma ShorterFilesFit(s: seq<byte>)
    requires LinesFit(s)
    ensures LineLength(s) <= BUFSIZE
    ensures LineLength(s) < |s| ==> LinesFit(s[LineLength(s) + 1..])
  {
    var n := LineLength(s);
    assert s[..n] == s || n < |s|;
    assert s[..n] in Lines(s);
    assert n < |s| ==> forall l | l in Lines(s[n + 1..]) :: l in Lines(s);
  }

  /** A line of exactly BUFSIZE bytes is followed by an empty piece, which reports nothing. */
  lemma FullLineReported(pat: seq<byte>, s: seq<byte>)
    requires LineLength(s) == BUFSIZE
    ensures Report(pat, s) == Reported(pat, s[..BUFSIZE]) + (if BUFSIZE == |s| then [] else Report(pat, s[BUFSIZE + 1..]))
  {
    hide Report, Reported, LineLength;
    var t := s[BUFSIZE..];
    EmptyReportsNothing(pat);
    FullBufferReported(pat, s);
    if BUFSIZE < |s| {
      LineReported(pat, t, 0);
      assert t[..0] == [] && t[0 + 1..] == s[BUFSIZE + 1..];
    } else {
      LastLineReported(pat, t);
    }
  }

  /** A line that fits is reported as a whole. */
  lemma FirstLineReported(pat: seq<byte>, s: seq<byte>)
    requires LineLength(s) <= BUFSIZE
    ensures var n := LineLength(s);
      Report(pat, s) == Reported(pat, s[..n]) + (if n == |s| then [] else Report(pat, s[n + 1..]))
  {
    hide Report, Reported, LineLength;
    var n := LineLength(s);
    if n == BUFSIZE {
      FullLineReported(pat, s);
    } else if n < |s| {
      LineReported(pat, s, n);
    } else {
      LastLineReported(pat, s);
      assert s[..n] == s;
    }
  }

  /** Cutting does no harm when no line is longer than the buffer. */
  lemma {:induction false} FittingLinesReported(pat: seq<byte>, s: seq<byte>)
    requires pat != [] && LinesFit(s)
    ensures Report(pat, s) == Matching(pat, Lines(s))
    decreases |s|
  {
    hide Report, Matching, LinesFit, ContainsPattern;
    var n := LineLength(s);
    ShorterFilesFit(s);
    FirstLineMatched(pat, s);
    FirstLineReported(pat, s);
    if n < |s| {
      FittingLinesReported(pat, s[n + 1..]);
    }
  }

  lemma {:induction false} ReportedIsListed(pat: seq<byte>, lines: seq<seq<byte>>, l: seq<byte>)
    ensures l in Matching(pat, lines) <==> l in lines && ContainsPattern(l, pat)
  {
    if lines != [] {
      ReportedIsListed(pat, lines[1..], l);
    }
  }

  /** The search reports exactly the lines that contain the pattern, for every non-empty
      pattern, if and only if no line of the file is longer than the buffer. */
  lemma ExactForLinesThatFit(s: seq<byte>)
    ensures (forall pat | pat != [] :: Report(pat, s) == Matching(pat, Lines(s))) <==> LinesFit(s)
  {
    if LinesFit(s) {
      forall pat | pat != []
        ensures Report(pat, s) == Matching(pat, Lines(s))
      {
        FittingLinesReported(pat, s);
      }
    } else {
      var l :| l in Lines(s) && |l| > BUFSIZE;
      var pat := [l[0]];
      assert MatchesAt(l, pat, 0);
      ReportedIsListed(pat, Lines(s), l);
      ReportedIsListed(pat, Pieces(s), l);
      PiecesFit(s);
      assert Report(pat, s) != Matching(pat, Lines(s));
    }
  }

  /** With an empty pattern nothing is reported, although every line contains it. */
  lemma EmptyPatternFindsNothing(s: seq<byte>)
    ensures Report([], s) == [] && Matching([], Lines(s)) == Lines(s) != []
  {
    EveryLineHasEmptyPattern(Lines(s));
  }

  lemma {:induction false} EveryLineHasEmptyPattern(lines: seq<seq<byte>>)
    ensures Matching([], lines) == lines
  {
    if lines != [] {
      EveryLineHasEmptyPattern(lines[1..]);
      assert MatchesAt(lines[0], [], 0);
    }
  }

  // ----- a newline behind the buffer -----

  /** What the program reports if the byte behind its buffer happens to be a newline: the first
      full buffer that does not end in a newline is searched to its end. */
  function CutReport(pat: seq<byte>, s: seq<byte>): seq<seq<byte>> {
    if |s| < BUFSIZE then Report(pat, s)
    else if s[BUFSIZE - 1] == NEWLINE then Report(pat, s[..BUFSIZE]) + CutReport(pat, s[BUFSIZE..])
    else Report(pat, s[..BUFSIZE]) + Report(pat, s[BUFSIZE..])
  }

  /** The first full buffer that does not end in a newline ends inside a line. */
  predicate CutsALine(s: seq<byte>) {
    |s| > BUFSIZE && if s[BUFSIZE - 1] == NEWLINE then CutsALine(s[BUFSIZE..]) else s[BUFSIZE] != NEWLINE
  }

  /** Reports can be joined where a line ends. */
  lemma {:induction false} ReportsJoin(pat: seq<byte>, a: seq<byte>, b: seq<byte>)
    requires a == [] || a[|a| - 1] == NEWLINE || b == [] || b[0] == NEWLINE
    ensures Report(pat, a + b) == Report(pat, a) + Report(pat, b)
    decreases |a|
  {
    hide Report, Reported;
    var n := LineLength(a);
    NothingLeft(pat);
    if a == [] {
      assert a + b == b;
    } else if n >= BUFSIZE {
      var u := a[BUFSIZE..];
      FullBufferReported(pat, a);
      FullBufferReported(pat, a + b);
      assert (a + b)[BUFSIZE..] == u + b && (a + b)[..BUFSIZE] == a[..BUFSIZE];
      ReportsJoin(pat, u, b);
    } else if n < |a| {
      LineReported(pat, a, n);
      LineReported(pat, a + b, n);
      assert (a + b)[n + 1..] == a[n + 1..] + b && (a + b)[..n] == a[..n];
      ReportsJoin(pat, a[n + 1..], b);
    } else if b == [] {
      assert a + b == a;
    } else {
      LastLineReported(pat, a);
      LineReported(pat, a + b, n);
      LineReported(pat, b, 0);
      EmptyReportsNothing(pat);
      assert (a + b)[..n] == a && (a + b)[n + 1..] == b[1..] && b[..0] == [];
    }
  }

  /** If no line is cut, the newline behind the buffer does no harm. */
  lemma {:induction false} NoLineCut(pat: seq<byte>, s: seq<byte>)
    requires !CutsALine(s)
    ensures CutReport(pat, s) == Report(pat, s)
    decreases |s|
  {
    hide Report;
    if |s| >= BUFSIZE {
      var a, b := s[..BUFSIZE], s[BUFSIZE..];
      assert s == a + b;
      ReportsJoin(pat, a, b);
      if s[BUFSIZE - 1] == NEWLINE {
        NoLineCut(pat, b);
      }
    }
  }

  lemma {:induction false} LinesAfterNewline(s: seq<byte>, k: nat)
    requires 0 < k <= |s| && s[k - 1] == NEWLINE && LinesFit(s)
    ensures LinesFit(s[k..])
    decreases |s|
  {
    var n := LineLength(s);
    hide LinesFit;
    ShorterFilesFit(s);
    if n + 1 < k {
      LinesAfterNewline(s[n + 1..], k - n - 1);
      assert s[n + 1..][k - n - 1..] == s[k..];
    }
  }

  /** Where the last line of a begins. */
  function LastLineStart(a: seq<byte>): (p: nat)
    ensures p <= |a| && (p > 0 ==> a[p - 1] == NEWLINE)
    ensures forall i | p <= i < |a| :: a[i] != NEWLINE
  {
    if a == [] || a[|a| - 1] == NEWLINE then |a| else LastLineStart(a[..|a| - 1])
  }

  /** A line cut in two is not reported for the pattern that it is itself. */
  lemma CutLineMissed(tail: seq<byte>, b: seq<byte>) returns (pat: seq<byte>)
    requires tail != [] && b != [] && b[0] != NEWLINE && forall i | 0 <= i < |tail| :: tail[i] != NEWLINE
    requires LineLength(tail + b) <= BUFSIZE
    ensures pat != [] && |Report(pat, tail)| + |Report(pat, b)| < |Report(pat, tail + b)|
  {
    hide Report, MatchesAt;
    var u, m := tail + b, LineLength(b);
    var n := |tail| + m;
    LineLengthIs(u, n);
    pat := u[..n];
    FirstLineReported(pat, u);
    FirstLineReported(pat, b);
    LastLineReported(pat, tail);
    ContainsItself(pat);
    ShorterContainNot(tail, pat);
    ShorterContainNot(b[..m], pat);
    assert n < |u| ==> u[n + 1..] == b[m + 1..];
  }

  lemma BufferEndMissed(s: seq<byte>) returns (pat: seq<byte>)
    requires LinesFit(s) && |s| > BUFSIZE && s[BUFSIZE - 1] != NEWLINE && s[BUFSIZE] != NEWLINE
    ensures pat != [] && |Report(pat, s[..BUFSIZE])| + |Report(pat, s[BUFSIZE..])| < |Report(pat, s)|
  {
    hide Report, LinesFit;
    var a, b := s[..BUFSIZE], s[BUFSIZE..];
    var p := LastLineStart(a);
    var front, tail := a[..p], a[p..];
    if p > 0 {
      LinesAfterNewline(s, p);
    } else {
      assert s[0..] == s;
    }
    assert a == front + tail && s == a + b && (front + tail) + b == front + (tail + b);
    assert s[p..] == tail + b;
    ShorterFilesFit(tail + b);
    pat := CutLineMissed(tail, b);
    ReportsJoin(pat, front, tail + b);
    ReportsJoin(pat, front, tail);
  }

  lemma ContainsItself(pat: seq<byte>)
    ensures ContainsPattern(pat, pat)
  {
    assert MatchesAt(pat, pat, 0);
  }

  lemma ShorterContainNot(line: seq<byte>, pat: seq<byte>)
    requires |line| < |pat|
    ensures !ContainsPattern(line, pat)
  {
  }

  lemma {:induction false} CutShows(s: seq<byte>) returns (pat: seq<byte>)
    requires LinesFit(s) && CutsALine(s)
    ensures pat != [] && |CutReport(pat, s)| < |Report(pat, s)|
    decreases |s|
  {
    hide Report, LinesFit;
    if s[BUFSIZE - 1] == NEWLINE {
      LinesAfterNewline(s, BUFSIZE);
      pat := CutShows(s[BUFSIZE..]);
      assert s == s[..BUFSIZE] + s[BUFSIZE..];
      ReportsJoin(pat, s[..BUFSIZE], s[BUFSIZE..]);
    } else {
      pat := BufferEndMissed(s);
    }
  }

  lemma {:induction false} CutPiecesFit(pat: seq<byte>, s: seq<byte>)
    ensures forall l | l in CutReport(pat, s) :: |l| <= BUFSIZE
    decreases |s|
  {
    PiecesReportedFit(pat, s);
    if |s| >= BUFSIZE {
      PiecesReportedFit(pat, s[..BUFSIZE]);
      PiecesReportedFit(pat, s[BUFSIZE..]);
      CutPiecesFit(pat, s[BUFSIZE..]);
    }
  }

  lemma PiecesReportedFit(pat: seq<byte>, s: seq<byte>)
    ensures forall l | l in Report(pat, s) :: |l| <= BUFSIZE
  {
    PiecesFit(s);
    forall l | l in Report(pat, s)
      ensures |l| <= BUFSIZE
    {
      ReportedIsListed(pat, Pieces(s), l);
    }
  }

  /** With a newline behind the buffer the search is right for every non-empty pattern if and only if,
      besides, the first full buffer that does not end in a newline does not end inside a line. */
  lemma ExactDespiteNewline(s: seq<byte>)
    ensures (forall pat | pat != [] :: CutReport(pat, s) == Matching(pat, Lines(s))) <==> LinesFit(s) && !CutsALine(s)
  {
    hide CutReport;
    if LinesFit(s) && !CutsALine(s) {
      forall pat | pat != []
        ensures CutReport(pat, s) == Matching(pat, Lines(s))
      {
        NoLineCut(pat, s);
        FittingLinesReported(pat, s);
      }
    } else if LinesFit(s) {
      var pat := CutShows(s);
      FittingLinesReported(pat, s);
      assert CutReport(pat, s) != Matching(pat, Lines(s));
    } else {
      var l :| l in Lines(s) && |l| > BUFSIZE;
      var pat := [l[0]];
      assert MatchesAt(l, pat, 0);
      ReportedIsListed(pat, Lines(s), l);
      CutPiecesFit(pat, s);
      assert CutReport(pat, s) != Matching(pat, Lines(s));
    }
  }

  // ----- the program -----

  predicate NulFree(s: seq<byte>) {
    forall k | 0 <= k < |s| :: s[k] != NUL
  }

  /** ece391_read on an ideal file: only the end of the file makes a read short. */
  method Read(content: seq<byte>, pos: nat, data: array<byte>, at: nat, n: nat) returns (cnt: nat)
    requires pos <= |content| && at + n <= data.Length
    modifies data
    ensures cnt == (if n <= |content| - pos then n else |content| - pos)
    ensures forall k | 0 <= k < data.Length ::
              data[k] == if at <= k < at + cnt then content[pos + (k - at)] else old(data[k])
  {
    cnt := if n <= |content| - pos then n else |content| - pos;
    var i := 0;
    while i < cnt
      invariant 0 <= i <= cnt
      invariant forall k | 0 <= k < data.Length ::
                  data[k] == if at <= k < at + i then content[pos + (k - at)] else old(data[k])
    {
      data[at + i] := content[pos + i];
      i := i + 1;
    }
  }

  /** ece391_strcpy (data, data + src): the string at src, n bytes and a NUL, moves to the
      front; the copy may overlap itself. */
  method MoveToFront(data: array<byte>, src: nat, ghost n: nat)
    requires 0 < src && src + n < data.Length && data[src + n] == NUL
    requires forall k | src <= k < src + n :: data[k] != NUL
    modifies data
    ensures forall k | 0 <= k <= n :: data[k] == old(data[src + k])
    ensures forall k | n < k < data.Length :: data[k] == old(data[k])
  {
    ghost var before := data[..];
    var i := 0;
    while true
      invariant 0 <= i <= n
      invariant forall k | 0 <= k < i :: data[k] == before[src + k]
      invariant forall k | i <= k < data.Length :: data[k] == before[k]
      decreases n - i
    {
      var c := data[src + i];
      data[i] := c;
      if c == NUL {
        return;
      }
      i := i + 1;
    }
  }

  /** ece391_strncmp (data + at, s, s_len) == 0, where end is the position of a NUL. */
  method PrefixEqual(data: array<byte>, at: nat, s: seq<byte>, ghost end: nat) returns (equal: bool)
    requires at <= end < data.Length && data[end] == NUL && NulFree(s) && s != []
    ensures equal <==> at + |s| <= end && forall k | 0 <= k < |s| :: data[at + k] == s[k]
  {
    var k := 0;
    while data[at + k] == s[k]
      invariant 0 <= k < |s| && at + k <= end
      invariant forall j | 0 <= j < k :: data[at + j] == s[j]
      decreases |s| - k
    {
      if k + 1 == |s| {
        return true;
      }
      k := k + 1;
    }
    return false;
  }

  lemma SliceMatches(line: seq<byte>, s: seq<byte>, i: nat)
    requires i + |s| <= |line|
    ensures MatchesAt(line, s, i) <==> forall k | 0 <= k < |s| :: line[i + k] == s[k]
  {
    var slice := line[i..i + |s|];
    assert forall k | 0 <= k < |s| :: slice[k] == line[i + k];
    if forall k | 0 <= k < |s| :: line[i + k] == s[k] {
      assert slice == s;
    }
  }

  /** The comparison at one position of the line data[from..end]: its first character, then the rest. */
  method CompareAt(data: array<byte>, ghost from: nat, check: nat, ghost end: nat, s: seq<byte>) returns (equal: bool)
    requires from <= check < end < data.Length && data[end] == NUL && NulFree(s)
    ensures equal <==> s != [] && MatchesAt(data[from..end], s, check - from)
  {
    hide NulFree;
    ghost var line := data[from..end];
    assert forall k | check <= k < end :: data[k] == line[k - from];
    if check + |s| <= end {
      SliceMatches(line, s, check - from);
    }
    if s == [] || s[0] != data[check] {
      return false;
    }
    equal := PrefixEqual(data, check, s, end);
  }

  /** The search of one line, which occupies data[from..end] and is followed by a NUL. */
  method SearchLine(data: array<byte>, from: nat, end: nat, s: seq<byte>) returns (found: bool)
    requires from <= end < data.Length && data[end] == NUL && NulFree(s)
    requires forall k | from <= k < end :: data[k] != NUL
    ensures found <==> s != [] && ContainsPattern(data[from..end], s)
  {
    hide NulFree;
    ghost var line := data[from..end];
    var check := from;
    while check < end
      invariant from <= check <= end
      invariant s != [] ==> forall i | 0 <= i < check - from :: !MatchesAt(line, s, i)
    {
      found := CompareAt(data, from, check, end, s);
      if found {
        return true;
      }
      check := check + 1;
    }
    assert s != [] ==> !MatchesAt(line, s, |line|);
    return false;
  }

  /** What fdputs prints: the string that starts at from and runs to the NUL at end. */
  method StringAt(data: array<byte>, from: nat, ghost end: nat) returns (t: seq<byte>)
    requires from <= end < data.Length && data[end] == NUL
    requires forall k | from <= k < end :: data[k] != NUL
    ensures t == data[from..end]
  {
    var i := from;
    while data[i] != NUL
      invariant from <= i <= end
      decreases end - i
    {
      i := i + 1;
    }
    t := data[from..i];
  }

  /** The piece that one pass of the inner loop searches, bytes from..end of the buffer contents. */
  lemma PieceReported(pat: seq<byte>, buffered: seq<byte>, rest: seq<byte>, from: nat, end: nat)
    requires from <= end <= |buffered| <= BUFSIZE
    requires forall i | from <= i < end :: buffered[i] != NEWLINE
    requires end < |buffered| ==> buffered[end] == NEWLINE
    requires end == |buffered| ==> rest == [] || (from == 0 && end == BUFSIZE)
    ensures Report(pat, buffered[from..] + rest)
         == Reported(pat, buffered[from..end]) + Report(pat, After(buffered, end) + rest)
  {
    hide Report, Reported;
    var u := buffered[from..] + rest;
    assert u[..end - from] == buffered[from..end];
    if end < |buffered| {
      LineReported(pat, u, end - from);
      assert u[end - from + 1..] == buffered[end + 1..] + rest;
    } else {
      assert [] + rest == rest;
      if from == 0 && end == BUFSIZE {
        FullBufferReported(pat, u);
        assert u[BUFSIZE..] == rest;
      } else {
        assert u == buffered[from..end];
        LastLineReported(pat, u);
        LastLineReported(pat, []);
        EmptyReportsNothing(pat);
      }
    }
  }

  /** What the buffer still holds behind the piece that ends at end. */
  function After(buffered: seq<byte>, end: nat): seq<byte> {
    if end < |buffered| then buffered[end + 1..] else []
  }

  /** Searching one piece leaves the report of what lies behind it. */
  lemma PieceSearched(pat: seq<byte>, buffered: seq<byte>, rest: seq<byte>, from: nat, end: nat,
                      sofar: seq<seq<byte>>, hit: seq<seq<byte>>)
    requires from <= end <= |buffered| <= BUFSIZE
    requires forall i | from <= i < end :: buffered[i] != NEWLINE
    requires end < |buffered| ==> buffered[end] == NEWLINE
    requires end == |buffered| ==> rest == [] || (from == 0 && end == BUFSIZE)
    requires hit == Reported(pat, buffered[from..end])
    ensures sofar + Report(pat, buffered[from..] + rest)
         == (sofar + hit) + Report(pat, After(buffered, end) + rest)
  {
    hide Report, Reported;
    PieceReported(pat, buffered, rest, from, end);
    var later := Report(pat, After(buffered, end) + rest);
    assert sofar + (hit + later) == (sofar + hit) + later;
  }

  // ----- the two loops -----

  method FindNewline(data: array<byte>, from: nat, filled: nat) returns (end: nat)
    requires from <= filled <= data.Length
    ensures from <= end <= filled && (end < filled ==> data[end] == NEWLINE)
    ensures forall k | from <= k < end :: data[k] != NEWLINE
  {
    end := from;
    while end < filled && NEWLINE != data[end]
      invariant from <= end <= filled
      invariant forall k | from <= k < end :: data[k] != NEWLINE
    {
      end := end + 1;
    }
  }

  /** Searches a line, and prints it if it contains the pattern. */
  method ReportLine(data: array<byte>, from: nat, end: nat, s: seq<byte>) returns (out: seq<seq<byte>>)
    requires from <= end < data.Length && data[end] == NUL && NulFree(s)
    requires forall k | from <= k < end :: data[k] != NUL
    ensures out == Reported(s, data[from..end])
  {
    var found := SearchLine(data, from, end, s);
    out := [];
    if found {
      var line := StringAt(data, from, end);
      out := [line];
    }
  }

  /** One buffer load: buffered is what the buffer holds, rest what the file still has.  Whole lines
      are searched; an unfinished one is moved to the front, and its length kept.  But if a newline
      follows the full buffer, an unfinished line is searched as if the file ended there. */
  method SearchBuffer(s: seq<byte>, data: array<byte>, filled: nat, cnt: nat, ghost rest: seq<byte>)
    returns (last: nat, out: seq<seq<byte>>)
    requires data.Length == BUFSIZE + 1 && filled <= BUFSIZE
    requires NulFree(s) && NulFree(data[..filled])
    requires filled == BUFSIZE || rest == []
    requires cnt == 0 ==> rest == [] && filled < BUFSIZE
    modifies data
    ensures last < BUFSIZE && NulFree(data[..last]) && (cnt == 0 ==> last == 0)
    ensures old(data[BUFSIZE]) == NEWLINE && filled == BUFSIZE ==> last == 0
    ensures data[BUFSIZE] == NEWLINE <==> old(data[BUFSIZE]) == NEWLINE && !CutHere(old(data[..]), filled)
    ensures var seen := if CutHere(old(data[..]), filled) then [] else rest;
            Report(s, old(data[..filled]) + seen) == out + Report(s, data[..last] + seen)
  {
    hide Report, Reported, ContainsPattern;
    ghost var buffered, before := data[..filled], data[..];
    ghost var seen := if CutHere(before, filled) then [] else rest;
    out := [];
    var lineStart := 0;
    while true
      invariant lineStart == 0 || lineStart < filled
      invariant data[BUFSIZE] == before[BUFSIZE] && forall k | lineStart <= k < filled :: data[k] == buffered[k]
      invariant Report(s, buffered + seen) == out + Report(s, buffered[lineStart..] + seen)
      decreases filled - lineStart
    {
      var lineEnd := FindNewline(data, lineStart, filled);
      if NEWLINE != data[lineEnd] && 0 != cnt && lineStart != 0 {
        data[lineEnd] := NUL;
        MoveToFront(data, lineStart, lineEnd - lineStart);
        last := filled - lineStart;
        assert data[..last] == buffered[lineStart..];
        return;
      }
      data[lineEnd] := NUL;
      assert data[lineStart..lineEnd] == buffered[lineStart..lineEnd];
      var hit := ReportLine(data, lineStart, lineEnd, s);
      PieceSearched(s, buffered, seen, lineStart, lineEnd, out, hit);
      out := out + hit;
      lineStart := lineEnd + 1;
      if lineStart >= filled {
        assert data[..0] + seen == After(buffered, lineEnd) + seen;
        last := 0;
        return;
      }
    }
  }

  /** The buffer is full, is followed by a newline, and does not end in one. */
  ghost predicate CutHere(data: seq<byte>, filled: nat)
    requires |data| == BUFSIZE + 1
  {
    filled == BUFSIZE && data[BUFSIZE] == NEWLINE && data[BUFSIZE - 1] != NEWLINE
  }

  /** What the program reports, with or without a newline behind its buffer. */
  ghost function ReportWith(newline: bool, pat: seq<byte>, s: seq<byte>): seq<seq<byte>> {
    if newline then CutReport(pat, s) else Report(pat, s)
  }

  /** One pass of the outer loop: the buffer is filled up from the file and searched. */
  method ReadAndSearch(s: seq<byte>, content: seq<byte>, pos: nat, data: array<byte>, last: nat)
    returns (cnt: nat, last': nat, out: seq<seq<byte>>)
    requires data.Length == BUFSIZE + 1 && pos <= |content| && last < BUFSIZE
    requires NulFree(s) && NulFree(content) && NulFree(data[..last])
    requires data[BUFSIZE] == NEWLINE ==> last == 0 || pos == |content|
    modifies data
    ensures cnt <= |content| - pos && (cnt == 0 ==> pos == |content| && last' == 0)
    ensures last' < BUFSIZE && NulFree(data[..last'])
    ensures data[BUFSIZE] == NEWLINE ==> last' == 0 || pos + cnt == |content|
    ensures ReportWith(old(data[BUFSIZE]) == NEWLINE, s, old(data[..last]) + content[pos..])
         == out + ReportWith(data[BUFSIZE] == NEWLINE, s, data[..last'] + content[pos + cnt..])
  {
    hide Report, ReportWith, NulFree;
    ghost var stored, unread := data[..last], content[pos..];
    cnt := Read(content, pos, data, last, BUFSIZE - last);
    ghost var held, rest := stored + unread[..cnt], unread[cnt..];
    assert data[..last + cnt] == held && held + rest == stored + unread && content[pos + cnt..] == rest;
    NulFreeParts(stored, content, pos, cnt);
    ghost var newline := data[BUFSIZE] == NEWLINE;
    last', out := SearchBuffer(s, data, last + cnt, cnt, rest);
    LoadPending(s, held, rest, newline, data[BUFSIZE] == NEWLINE, data[..last'], out);
  }

  /** do_one_file, once the file is open. */
  method DoOneFile(s: seq<byte>, content: seq<byte>, data: array<byte>) returns (out: seq<seq<byte>>)
    requires NulFree(s) && NulFree(content)
    requires data.Length == BUFSIZE + 1
    modifies data
    ensures out == ReportWith(old(data[BUFSIZE]) == NEWLINE, s, content)
  {
    hide ReportWith;
    out := [];
    var last: nat, pos: nat := 0, 0;
    ghost var all := ReportWith(data[BUFSIZE] == NEWLINE, s, content);
    assert data[..0] + content[0..] == content;
    while true
      invariant pos <= |content| && last < BUFSIZE && NulFree(data[..last])
      invariant data[BUFSIZE] == NEWLINE ==> last == 0 || pos == |content|
      invariant all == out + ReportWith(data[BUFSIZE] == NEWLINE, s, data[..last] + content[pos..])
      decreases |content| - pos
    {
      ghost var sofar := out;
      var cnt, more;
      cnt, last, more := ReadAndSearch(s, content, pos, data, last);
      pos := pos + cnt;
      out := out + more;
      ghost var left := ReportWith(data[BUFSIZE] == NEWLINE, s, data[..last] + content[pos..]);
      assert (sofar + more) + left == sofar + (more + left);
      if 0 == cnt {
        assert data[..last] + content[pos..] == [];
        NothingLeft(s);
        return;
      }
    }
  }

  lemma NulFreeParts(stored: seq<byte>, content: seq<byte>, pos: nat, cnt: nat)
    requires NulFree(stored) && NulFree(content) && pos + cnt <= |content|
    ensures NulFree(stored + content[pos..][..cnt]) && NulFree([])
  {
  }

  /** What one buffer load leaves to report. */
  lemma LoadPending(pat: seq<byte>, held: seq<byte>, rest: seq<byte>, newline: bool, still: bool,
                    kept: seq<byte>, more: seq<seq<byte>>)
    requires |held| == BUFSIZE || (|held| < BUFSIZE && rest == [])
    requires var cut := newline && |held| == BUFSIZE && held[BUFSIZE - 1] != NEWLINE;
             && (still <==> newline && !cut) && (newline && |held| == BUFSIZE ==> kept == [])
             && var seen := if cut then [] else rest;
                Report(pat, held + seen) == more + Report(pat, kept + seen)
    requires |kept| < BUFSIZE
    ensures ReportWith(newline, pat, held + rest) == more + ReportWith(still, pat, kept + rest)
  {
    hide Report;
    NothingLeft(pat);
    if newline {
      if |held| == BUFSIZE {
        assert (held + rest)[..BUFSIZE] == held && (held + rest)[BUFSIZE..] == rest && kept + rest == rest;
        if held[BUFSIZE - 1] == NEWLINE {
          ReportsJoin(pat, held, rest);
          JoinedReports(Report(pat, held), more, Report(pat, rest));
        } else {
          assert held + [] == held && kept + [] == [];
        }
      } else {
        assert held + rest == held && kept + rest == kept;
      }
    }
  }

  lemma JoinedReports<T>(a: seq<T>, b: seq<T>, c: seq<T>)
    requires a + c == b + c
    ensures a == b
  {
    assert |a| == |b|;
    assert a == (a + c)[..|a|] == (b + c)[..|b|] == b;
  }

  lemma NothingLeft(s: seq<byte>)
    ensures Report(s, []) == []
    ensures forall newline :: ReportWith(newline, s, []) == []
  {
    LastLineReported(s, []);
    EmptyReportsNothing(s);
  }
}
