/** The Tux controller's line discipline (mp2/module/tuxctl-ld.c): a ring buffer
    filled from the serial interrupt, and a packet framer that looks at a few bytes
    at a time and carries leftovers from one callback to the next. */
module TuxLdisc {
  type byte = b: int | 0 <= b < 256

  const BUFSIZE := 64
  const WINDOW := 12

  // ----- the meaning of a byte stream -----

  /** A packet's first byte has its high bit clear, the other two have it set (mtcp.h). */
  predicate Framed(s: seq<byte>, i: nat)
    requires i + 3 <= |s|
  {
    s[i] < 128 && s[i + 1] >= 128 && s[i + 2] >= 128
  }

  type Packet = seq<byte>

  /** What one left-to-right scan of s finds: its packets, and the bytes it cannot decide yet. */
  datatype Scan = Scan(packets: seq<Packet>, rest: seq<byte>)

  function ScanAll(s: seq<byte>): (r: Scan)
    ensures |r.rest| <= 2
  {
    if |s| < 3 then Scan([], s)
    else if Framed(s, 0) then
      var r := ScanAll(s[3..]);
      Scan([s[..3]] + r.packets, r.rest)
    else ScanAll(s[1..])
  }

  /** All the packets in a stream of bytes. */
  function Packets(s: seq<byte>): seq<Packet> {
    ScanAll(s).packets
  }

  /** Scanning in two pieces, with the undecided bytes of the first put before the
      second, finds the same packets as scanning everything at once. */
  lemma {:induction false} ScanInPieces(a: seq<byte>, b: seq<byte>)
    ensures var r := ScanAll(a);
            var q := ScanAll(r.rest + b);
            ScanAll(a + b) == Scan(r.packets + q.packets, q.rest)
  {
    hide ScanAll;
    ScanOnce(a);
    if |a| >= 3 {
      ScanOnce(a + b);
      if Framed(a, 0) {
        ScanInPieces(a[3..], b);
        assert (a + b)[3..] == a[3..] + b && (a + b)[..3] == a[..3];
        var r := ScanAll(a[3..]);
        var q := ScanAll(r.rest + b);
        assert [a[..3]] + (r.packets + q.packets) == ([a[..3]] + r.packets) + q.packets;
      } else {
        ScanInPieces(a[1..], b);
        assert (a + b)[1..] == a[1..] + b;
      }
    } else {
      assert [] + ScanAll(a + b).packets == ScanAll(a + b).packets;
    }
  }

  /** The first step of a scan. */
  lemma ScanOnce(s: seq<byte>)
    ensures ScanAll(s) ==
      if |s| < 3 then Scan([], s)
      else if Framed(s, 0) then Scan([s[..3]] + ScanAll(s[3..]).packets, ScanAll(s[3..]).rest)
      else ScanAll(s[1..])
  {
  }

  /** Positions of the framing pattern, in increasing order. */
  function Occurrences(s: seq<byte>, i: nat): seq<nat>
    requires i <= |s|
    decreases |s| - i
  {
    if i + 3 > |s| then []
    else if Framed(s, i) then [i] + Occurrences(s, i + 1)
    else Occurrences(s, i + 1)
  }

  function PacketsAt(s: seq<byte>, ps: seq<nat>): seq<Packet>
    requires forall k | 0 <= k < |ps| :: ps[k] + 3 <= |s|
  {
    if ps == [] then [] else [s[ps[0]..ps[0] + 3]] + PacketsAt(s, ps[1..])
  }

  lemma {:induction false} OccurrencesInRange(s: seq<byte>, i: nat)
    requires i <= |s|
    ensures forall k | 0 <= k < |Occurrences(s, i)| :: i <= Occurrences(s, i)[k] && Occurrences(s, i)[k] + 3 <= |s|
    ensures forall p: nat :: p in Occurrences(s, i) <==> i <= p && p + 3 <= |s| && Framed(s, p)
    decreases |s| - i
  {
    if i + 3 <= |s| {
      OccurrencesInRange(s, i + 1);
    }
  }

  /** The framer is self-synchronizing: although it skips three bytes after a packet, it
      finds a packet at every place where the pattern occurs, because occurrences cannot
      overlap.  So no garbage in front of a packet makes the framer miss it. */
  lemma {:induction false} FindsEveryOccurrence(s: seq<byte>, i: nat)
    requires i <= |s|
    ensures forall k | 0 <= k < |Occurrences(s, i)| :: Occurrences(s, i)[k] + 3 <= |s|
    ensures Packets(s[i..]) == PacketsAt(s, Occurrences(s, i))
    decreases |s| - i
  {
    OccurrencesInRange(s, i);
    if i + 3 <= |s| {
      var t := s[i..];
      OccurrencesInRange(s, i + 1);
      if Framed(s, i) {
        assert Framed(t, 0) && t[3..] == s[i + 3..] && t[..3] == s[i..i + 3];
        FindsEveryOccurrence(s, i + 3);
        NoOverlap(s, i);
        assert Occurrences(s, i) == [i] + Occurrences(s, i + 3);
        assert Occurrences(s, i)[1..] == Occurrences(s, i + 3);
      } else {
        assert !Framed(t, 0) && t[1..] == s[i + 1..];
        FindsEveryOccurrence(s, i + 1);
      }
    }
  }

  lemma NoOverlap(s: seq<byte>, i: nat)
    requires i + 3 <= |s| && Framed(s, i)
    ensures Occurrences(s, i + 1) == Occurrences(s, i + 3)
  {
    if i + 4 <= |s| {
      assert !Framed(s, i + 1);
      if i + 5 <= |s| {
        assert !Framed(s, i + 2);
        assert Occurrences(s, i + 2) == Occurrences(s, i + 3);
      }
    }
  }

  /** A well-framed packet is delivered whatever came before it, and what comes after
      it is framed afresh. */
  lemma GarbageLosesNothing(garbage: seq<byte>, p: Packet, later: seq<byte>)
    requires |p| == 3 && Framed(p, 0)
    ensures Packets(garbage + p + later) == Packets(garbage) + [p] + Packets(later)
  {
    var r := ScanAll(garbage).rest;
    LeftoversThenPacket(r, p);
    ScanInPieces(garbage, p);
    assert ScanAll(garbage + p) == Scan(Packets(garbage) + [p], []);
    ScanInPieces(garbage + p, later);
    assert [] + later == later;
  }

  lemma {:induction false} LeftoversThenPacket(r: seq<byte>, p: Packet)
    requires |r| <= 2 && |p| == 3 && Framed(p, 0)
    ensures ScanAll(r + p) == Scan([p], [])
  {
    if r == [] {
      assert r + p == p && p[..3] == p && p[3..] == [];
    } else {
      LeftoversThenPacket(r[1..], p);
      assert (r + p)[1..] == r[1..] + p && (r + p)[|r|] == p[0];
    }
  }

  // ----- the driver's state -----

  /** An index that has run past the end of the ring at most once. */
  function Wrap(i: nat): nat {
    if i < BUFSIZE then i else i - BUFSIZE
  }

  /** What is pending between two chunks: the framer's leftovers and the bytes in the ring. */
  datatype Pending = Pending(held: seq<byte>, waiting: seq<byte>) {
    predicate Valid() {
      |held| <= 2 && |waiting| <= BUFSIZE - 1
    }

    function Room(): int {
      BUFSIZE - 1 - |waiting|
    }
  }

  /** A chunk arrives: as much of it as there is room for is queued, and one window is framed. */
  function Received(p: Pending, cp: seq<byte>): (q: Pending)
    requires p.Valid()
    ensures q.Valid()
  {
    var all := p.waiting + cp[..Least(|cp|, p.Room())];
    var taken := Least(WINDOW - |p.held|, |all|);
    Pending(ScanAll(p.held + all[..taken]).rest, all[taken..])
  }

  function PendingAfter(chunks: seq<seq<byte>>): (p: Pending)
    ensures p.Valid()
  {
    if chunks == [] then Pending([], [])
    else Received(PendingAfter(chunks[..|chunks| - 1]), chunks[|chunks| - 1])
  }

  /** Every chunk fits in what the backlog of the chunks before it leaves of the ring. */
  predicate AllFit(chunks: seq<seq<byte>>) {
    chunks == [] ||
    var before := chunks[..|chunks| - 1];
    AllFit(before) && |chunks[|chunks| - 1]| <= PendingAfter(before).Room()
  }

  /** Chunks that leave the window room for two leftovers never cause a backlog. */
  lemma {:induction false} SmallChunksFit(chunks: seq<seq<byte>>)
    requires forall k | 0 <= k < |chunks| :: |chunks[k]| <= WINDOW - 2
    ensures AllFit(chunks) && PendingAfter(chunks).waiting == []
  {
    if chunks != [] {
      SmallChunksFit(chunks[..|chunks| - 1]);
    }
  }

  class Ldisc {
    const rxBuf: array<byte>
    var rxStart: nat
    var rxEnd: nat
    /** The static variables of tuxctl_ldisc_data_callback. */
    const saved: array<byte>
    var nSaved: nat

    /** The bytes waiting in the ring, oldest first; every byte that ever found room in
        the ring; and every packet handed to the driver. */
    ghost var waiting: seq<byte>
    ghost var accepted: seq<byte>
    ghost var delivered: seq<Packet>
    ghost const Repr: set<object>

    ghost predicate Shaped()
      reads this, rxBuf
    {
      && Repr == {this, rxBuf, saved} && rxBuf != saved
      && rxBuf.Length == BUFSIZE && saved.Length == 2
      && rxStart < BUFSIZE && rxEnd < BUFSIZE && nSaved <= 2
      && |waiting| == Used() && forall k | 0 <= k < |waiting| :: waiting[k] == rxBuf[Wrap(rxStart + k)]
    }

    /** buf_used */
    function Used(): nat
      requires rxStart < BUFSIZE && rxEnd < BUFSIZE
      reads this
    {
      if rxStart <= rxEnd then rxEnd - rxStart else BUFSIZE + rxEnd - rxStart
    }

    /** buf_full */
    predicate Full()
      requires rxStart < BUFSIZE && rxEnd < BUFSIZE
      ensures Full() <==> Used() == BUFSIZE - 1
      reads this
    {
      (rxEnd + 1) % BUFSIZE == rxStart
    }

    ghost function PendingBytes(): Pending
      requires nSaved <= saved.Length
      reads this, saved
    {
      Pending(saved[..nSaved], waiting)
    }

    /** Delivering the bytes seen so far has not lost track of any byte that was accepted. */
    ghost predicate Valid()
      reads this, rxBuf, saved
    {
      && Shaped()
      && Scanned(delivered, saved[..nSaved] + waiting) == ScanAll(accepted)
    }

    constructor ()
      ensures Valid() && fresh(Repr) && accepted == [] && delivered == [] && waiting == []
    {
      rxBuf, saved := new byte[BUFSIZE](_ => 0), new byte[2](_ => 0);
      rxStart, rxEnd, nSaved := 0, 0, 0;
      waiting, accepted, delivered := [], [], [];
      Repr := {this, rxBuf, saved};
    }

    /** tuxctl_ldisc_rcv_buf without the callback: bytes are taken until the ring is
        full, and those that find no room are dropped. */
    method Store(cp: seq<byte>) returns (c: nat)
      requires Valid()
      modifies this`rxEnd, this`waiting, this`accepted, rxBuf
      ensures Valid() && c == Least(|cp|, BUFSIZE - 1 - |old(waiting)|)
      ensures accepted == old(accepted) + cp[..c] && waiting == old(waiting) + cp[..c]
    {
      hide ScanAll;
      ghost var held, before := saved[..nSaved], waiting;
      c := Fill(cp);
      assert held + (before + cp[..c]) == (held + before) + cp[..c];
      ScannedMore(delivered, held + before, accepted, cp[..c]);
      accepted := accepted + cp[..c];
    }

    method Fill(cp: seq<byte>) returns (c: nat)
      requires Shaped()
      modifies this`rxEnd, this`waiting, rxBuf
      ensures Shaped() && c == Least(|cp|, BUFSIZE - 1 - |old(waiting)|)
      ensures waiting == old(waiting) + cp[..c]
    {
      c := 0;
      while c < |cp| && !Full()
        invariant c <= |cp| && Shaped()
        invariant waiting == old(waiting) + cp[..c]
      {
        assert cp[..c + 1] == cp[..c] + [cp[c]];
        Put(cp[c]);
        c := c + 1;
      }
    }

    /** rx_buf[rx_end] = b; buf_incidx (rx_end) */
    method Put(b: byte)
      requires Shaped() && !Full()
      modifies this`rxEnd, this`waiting, rxBuf
      ensures Shaped() && waiting == old(waiting) + [b]
    {
      rxBuf[rxEnd] := b;
      rxEnd := (rxEnd + 1) % BUFSIZE;
      waiting := waiting + [b];
    }

    /** *buf++ = rx_buf[rx_start]; buf_incidx (rx_start) */
    method Take() returns (b: byte)
      requires Shaped() && rxStart != rxEnd
      modifies this`rxStart, this`waiting
      ensures Shaped() && old(waiting) != [] && b == old(waiting)[0] && waiting == old(waiting)[1..]
    {
      b := rxBuf[rxStart];
      rxStart := (rxStart + 1) % BUFSIZE;
      waiting := waiting[1..];
    }

    /** tuxctl_ldisc_get: the oldest bytes, at most n of them, into buf from position at. */
    method Get(buf: array<byte>, at: nat, n: nat) returns (r: nat)
      requires Shaped() && buf != rxBuf && at + n <= buf.Length
      modifies this`rxStart, this`waiting, buf
      ensures Shaped() && r == Least(n, |old(waiting)|)
      ensures forall k | 0 <= k < at :: buf[k] == old(buf[k])
      ensures forall k | at <= k < at + r :: buf[k] == old(waiting)[k - at]
      ensures waiting == old(waiting)[r..]
    {
      ghost var all := waiting;
      r := 0;
      while r < n && rxStart != rxEnd
        invariant r <= n && Shaped() && r <= |all| && waiting == all[r..]
        invariant forall k | 0 <= k < at :: buf[k] == old(buf[k])
        invariant forall k | at <= k < at + r :: buf[k] == all[k - at]
      {
        var b := Take();
        buf[at + r] := b;
        r := r + 1;
      }
    }

    /** tuxctl_ldisc_data_callback keeps account of every accepted byte. */
    method DataCallback()
      requires Valid()
      modifies this`rxStart, this`nSaved, this`waiting, this`delivered, saved
      ensures Valid()
      ensures Framing(old(saved[..nSaved]), old(waiting), old(delivered))
    {
      hide ScanAll;
      ghost var held, all, d := saved[..nSaved], waiting, delivered;
      ghost var taken := Least(WINDOW - nSaved, |all|);
      FrameWindow();
      assert waiting == all[taken..];
      DeliveringIsAccounted(d, held, all, taken, accepted);
    }

    /** The state after a callback that found held, waiting and delivered: up to twelve
        bytes, leftovers first, have been scanned, their packets delivered, and what could
        not be decided yet kept. */
    ghost predicate Framing(held: seq<byte>, all: seq<byte>, d: seq<Packet>)
      requires Shaped() && |held| <= 2
      reads this, rxBuf, saved
    {
      var taken := Least(WINDOW - |held|, |all|);
      var r := ScanAll(held + all[..taken]);
      waiting == all[taken..] && saved[..nSaved] == r.rest && delivered == d + r.packets
    }

    /** The body of the callback. */
    method FrameWindow()
      requires Shaped()
      modifies this`rxStart, this`nSaved, this`waiting, this`delivered, saved
      ensures Shaped() && Framing(old(saved[..nSaved]), old(waiting), old(delivered))
    {
      hide ScanAll;
      var packet, n := LoadWindow();
      var i := ScanWindow(packet, n);
      KeepLeftovers(packet, i, n);
    }

    /** The leftovers followed by bytes from the ring. */
    method LoadWindow() returns (packet: array<byte>, n: nat)
      requires Shaped()
      modifies this`rxStart, this`waiting
      ensures Shaped() && fresh(packet) && packet.Length == WINDOW && n <= WINDOW
      ensures var taken := Least(WINDOW - nSaved, |old(waiting)|);
              packet[..n] == saved[..nSaved] + old(waiting)[..taken] && waiting == old(waiting)[taken..]
    {
      hide ScanAll, Wrap;
      packet := new byte[WINDOW];
      var k := 0;
      while k < nSaved
        invariant 0 <= k <= nSaved && forall j | 0 <= j < k :: packet[j] == saved[j]
        modifies packet
      {
        packet[k] := saved[k];
        k := k + 1;
      }
      ghost var held, all := saved[..nSaved], waiting;
      var got := Get(packet, nSaved, WINDOW - nSaved);
      n := nSaved + got;
      Joined(packet[..n], held, all[..got]);
    }

    /** The loop that looks at every byte but the last two as a possible packet beginning. */
    method ScanWindow(packet: array<byte>, n: nat) returns (i: nat)
      requires n <= packet.Length
      modifies this`delivered
      ensures i <= n
      ensures delivered == old(delivered) + Packets(packet[..n]) && packet[i..n] == ScanAll(packet[..n]).rest
    {
      ghost var window := packet[..n];
      i := 0;
      while i < n - 2
        invariant i <= n
        invariant delivered + Packets(window[i..]) == old(delivered) + Packets(window)
        invariant ScanAll(window[i..]).rest == ScanAll(window).rest
      {
        ScanStep(window, i);
        if packet[i] < 128 && packet[i + 1] >= 128 && packet[i + 2] >= 128 {
          assert packet[i..i + 3] == window[i..i + 3];
          assert delivered + ([window[i..i + 3]] + Packets(window[i + 3..]))
              == (delivered + [window[i..i + 3]]) + Packets(window[i + 3..]);
          HandlePacket(packet, i);
          i := i + 3;
        } else {
          i := i + 1;
        }
      }
    }

    method KeepLeftovers(packet: array<byte>, i: nat, n: nat)
      requires saved.Length == 2 && packet != saved && i <= n <= packet.Length && n - i <= 2
      modifies this`nSaved, saved
      ensures nSaved == n - i && saved[..nSaved] == packet[i..n]
    {
      nSaved := n - i;
      var j := 0;
      while j < nSaved
        invariant 0 <= j <= nSaved && saved[..j] == packet[i..i + j]
        modifies saved
      {
        saved[j] := packet[i + j];
        j := j + 1;
      }
    }

    /** tuxctl_ldisc_rcv_buf: a chunk from the serial driver, then the callback.  What does not fit is dropped. */
    method ReceiveBuf(cp: seq<byte>)
      requires Valid()
      modifies this`rxStart, this`rxEnd, this`nSaved, this`waiting, this`accepted, this`delivered, rxBuf, saved
      ensures Valid() && accepted == old(accepted) + cp[..Least(|cp|, BUFSIZE - 1 - |old(waiting)|)]
      ensures PendingBytes() == Received(old(PendingBytes()), cp)
      ensures |cp| <= WINDOW - 2 && old(waiting) == [] ==> waiting == [] && accepted == old(accepted) + cp
    {
      hide ScanAll;
      var c := Store(cp);
      assert c == |cp| ==> cp[..c] == cp;
      DataCallback();
    }

    /** Whatever chunks arrive, the packets delivered so far and those still to be found in
        the leftovers and the ring are together the packets of the bytes accepted; and those are
        all the bytes that arrived exactly if every chunk fitted. */
    method Session(chunks: seq<seq<byte>>)
      requires Valid() && accepted == [] && delivered == [] && waiting == []
      modifies this`rxStart, this`rxEnd, this`nSaved, this`waiting, this`accepted, this`delivered, rxBuf, saved
      ensures Valid() && PendingBytes() == PendingAfter(chunks)
      ensures delivered + Packets(saved[..nSaved] + waiting) == Packets(accepted)
      ensures accepted == Concat(chunks) <==> AllFit(chunks)
      ensures (forall k | 0 <= k < |chunks| :: |chunks[k]| <= WINDOW - 2) ==> delivered == Packets(Concat(chunks))
    {
      hide ScanAll, Received;
      NothingSaved();
      var i := 0;
      while i < |chunks|
        invariant 0 <= i <= |chunks| && Valid() && PendingBytes() == PendingAfter(chunks[..i])
        invariant if AllFit(chunks[..i]) then accepted == Concat(chunks[..i]) else |accepted| < |Concat(chunks[..i])|
      {
        ghost var before := chunks[..i + 1];
        assert before[..|before| - 1] == chunks[..i];
        ghost var room := PendingBytes().Room();
        assert |chunks[i]| <= room ==> chunks[i][..Least(|chunks[i]|, room)] == chunks[i];
        ReceiveBuf(chunks[i]);
        i := i + 1;
      }
      assert chunks[..i] == chunks;
      if forall k | 0 <= k < |chunks| :: |chunks[k]| <= WINDOW - 2 {
        SmallChunksFit(chunks);
        NothingInTwoBytes(saved[..nSaved]);
        assert saved[..nSaved] + waiting == saved[..nSaved] && delivered + [] == delivered;
      }
    }

    /** With nothing accepted there are no leftovers. */
    lemma NothingSaved()
      requires Valid() && accepted == [] && waiting == [] && delivered == []
      ensures saved[..nSaved] == []
    {
      assert saved[..nSaved] + waiting == saved[..nSaved];
    }

    /** The driver's tuxctl_handle_packet. */
    method HandlePacket(packet: array<byte>, i: nat)
      requires i + 3 <= packet.Length
      modifies this`delivered
      ensures delivered == old(delivered) + [packet[i..i + 3]]
    {
      delivered := delivered + [packet[i..i + 3]];
    }
  }

  /** All the bytes of some chunks. */
  function Concat(chunks: seq<seq<byte>>): seq<byte> {
    if chunks == [] then [] else Concat(chunks[..|chunks| - 1]) + chunks[|chunks| - 1]
  }

  lemma NothingInTwoBytes(s: seq<byte>)
    requires |s| <= 2
    ensures Packets(s) == []
  {
  }

  lemma ScanStep(s: seq<byte>, i: nat)
    requires i + 3 <= |s|
    ensures ScanAll(s[i..]) ==
      if Framed(s, i) then Scan([s[i..i + 3]] + Packets(s[i + 3..]), ScanAll(s[i + 3..]).rest) else ScanAll(s[i + 1..])
  {
    var t := s[i..];
    assert Framed(t, 0) <==> Framed(s, i);
    assert t[..3] == s[i..i + 3] && t[3..] == s[i + 3..] && t[1..] == s[i + 1..];
  }

  /** Delivering what the window holds and keeping its rest accounts for all the bytes. */
  lemma DeliveringIsAccounted(d: seq<Packet>, held: seq<byte>, waiting: seq<byte>, taken: nat, accepted: seq<byte>)
    requires Scanned(d, held + waiting) == ScanAll(accepted) && taken <= |waiting|
    ensures var r := ScanAll(held + waiting[..taken]);
            Scanned(d + r.packets, r.rest + waiting[taken..]) == ScanAll(accepted)
  {
    hide ScanAll;
    var window, later := held + waiting[..taken], waiting[taken..];
    assert window + later == held + waiting;
    ScanInPieces(window, later);
    var r := ScanAll(window);
    var q := ScanAll(r.rest + later);
    assert (d + r.packets) + q.packets == d + (r.packets + q.packets);
  }

  lemma Joined<T>(whole: seq<T>, a: seq<T>, b: seq<T>)
    requires |whole| == |a| + |b|
    requires forall k | 0 <= k < |a| :: whole[k] == a[k]
    requires forall k | |a| <= k < |whole| :: whole[k] == b[k - |a|]
    ensures whole == a + b
  {
  }

  function Least(a: int, b: int): int { if a <= b then a else b }

  /** The packets delivered, followed by what scanning the pending bytes will give. */
  ghost function Scanned(delivered: seq<Packet>, pending: seq<byte>): Scan {
    Scan(delivered + Packets(pending), ScanAll(pending).rest)
  }

  lemma ScannedMore(delivered: seq<Packet>, pending: seq<byte>, accepted: seq<byte>, more: seq<byte>)
    requires Scanned(delivered, pending) == ScanAll(accepted)
    ensures Scanned(delivered, pending + more) == ScanAll(accepted + more)
  {
    hide ScanAll;
    ScanInPieces(pending, more);
    ScanInPieces(accepted, more);
    var p, a := ScanAll(pending), ScanAll(accepted);
    var q := ScanAll(p.rest + more);
    assert a.packets == delivered + p.packets && a.rest == p.rest;
    assert ScanAll(pending + more) == Scan(p.packets + q.packets, q.rest);
    assert ScanAll(accepted + more) == Scan(a.packets + q.packets, q.rest);
    assert delivered + (p.packets + q.packets) == (delivered + p.packets) + q.packets;
  }
}
