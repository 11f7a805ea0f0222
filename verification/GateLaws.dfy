/** Laws of the byte gate over whole streams: conservation, bounds, and exactly how far
    its verdict depends on where the transport cuts the stream. */
module GateLaws {
  import opened Bytes
  import opened GateSpec

  // ---------- parsing does not depend on what follows ----------

  lemma FrameSizePrefix(buf: bytes, more: bytes)
    requires |buf| >= 2 && !FrameSize(buf).SizeUnknown?
    ensures FrameSize(buf + more) == FrameSize(buf)
  {
    if |buf| >= 4 {
      FrontSlice(buf, more, 2, 4);
    }
    if |buf| >= 10 {
      FrontSlice(buf, more, 2, 10);
    }
  }

  lemma ParsePrefix(server: bool, buf: bytes, more: bytes)
    requires !ParseFrame(server, buf).NeedMore?
    ensures ParseFrame(server, buf + more) == ParseFrame(server, buf)
  {
    if buf[0] as int / 16 % 8 == 0 && (buf[1] >= 128) != server {
      FrameSizePrefix(buf, more);
      if FrameSize(buf).Size? {
        var header := FrameSize(buf).header;
        var start := header + if buf[1] >= 128 then 4 else 0;
        var total := start + FrameSize(buf).length;
        FrontSlice(buf, more, start, total);
        FrontSlice(buf, more, header, start);
        FrontSlice(buf, more, 0, total);
      }
    }
  }

  lemma TakeSlice(s: bytes, n: nat, i: nat, j: nat)
    requires i <= j <= n <= |s|
    ensures s[..n][i..j] == s[i..j]
  {
  }

  lemma SizeOfFront(buf: bytes, n: nat)
    requires 2 <= n <= |buf| && FrameSize(buf).Size? && FrameSize(buf).header <= n
    ensures FrameSize(buf[..n]) == FrameSize(buf)
  {
    if n >= 4 { TakeSlice(buf, n, 2, 4); }
    if n >= 10 { TakeSlice(buf, n, 2, 10); }
  }

  /** A complete frame is recognised from its own bytes alone. */
  lemma ParseRaw(server: bool, buf: bytes)
    requires ParseFrame(server, buf).Complete?
    ensures ParseFrame(server, ParseFrame(server, buf).frame.raw) == ParseFrame(server, buf)
  {
    hide FrameSize, Masked;
    var n := |ParseFrame(server, buf).frame.raw|;
    SizeOfFront(buf, n);
    var header := FrameSize(buf).header;
    var start := header + if buf[1] >= 128 then 4 else 0;
    assert n == start + FrameSize(buf).length;
    TakeSlice(buf, n, start, n);
    TakeSlice(buf, n, header, start);
    TakeSlice(buf, n, 0, n);
  }

  function Extend(st: GateState, more: bytes): GateState {
    st.(buffer := st.buffer + more)
  }

  lemma AcceptExtends(g: Gate, st: GateState, pending: set<int>, f: Frame, more: bytes)
    ensures var one := AcceptFrame(g, st, pending, f);
            AcceptFrame(g, Extend(st, more), pending, f) == one.(st := Extend(one.st, more))
  {
  }

  lemma PrependAssociative(a: Outcome, b: Outcome, c: Outcome)
    ensures Prepend(a, Prepend(b, c)) == Prepend(Prepend(a, b), c)
  {
    assert a.output + (b.output + c.output) == (a.output + b.output) + c.output;
    assert a.messages + (b.messages + c.messages) == (a.messages + b.messages) + c.messages;
  }

  /** A drained gate waits for bytes. */
  lemma {:induction false} DrainStops(g: Gate, st: GateState, pending: set<int>)
    requires Drain(g, st, pending).failure.None?
    ensures ParseFrame(g.server, Drain(g, st, pending).st.buffer).NeedMore?
    ensures Drain(g, st, pending).st.handshakeDone == st.handshakeDone
    decreases |st.buffer|
  {
    match ParseFrame(g.server, st.buffer)
    case NeedMore =>
    case Bad(_) =>
    case Complete(f) =>
      var one := AcceptFrame(g, Behind(st, f), pending, f);
      DrainStops(g, one.st, one.pending);
  }

  /** Draining more bytes is draining what there was and then going on. */
  lemma {:induction false} DrainExtends(g: Gate, st: GateState, pending: set<int>, more: bytes)
    ensures var early := Drain(g, st, pending);
            var late := Drain(g, Extend(st, more), pending);
            if early.failure.None? then
              late == Prepend(early, Drain(g, Extend(early.st, more), early.pending))
            else
              late.failure == early.failure && late.messages == early.messages && late.pending == early.pending
    decreases |st.buffer|
  {
    hide ParseFrame, AcceptFrame, CompleteMessage;
    var all := Extend(st, more);
    match ParseFrame(g.server, st.buffer)
    case NeedMore =>
    case Bad(_) => ParsePrefix(g.server, st.buffer, more);
    case Complete(f) =>
      ParsePrefix(g.server, st.buffer, more);
      assert Behind(all, f) == Extend(Behind(st, f), more) by {
        assert all.buffer[|f.raw|..] == st.buffer[|f.raw|..] + more;
      }
      AcceptExtends(g, Behind(st, f), pending, f, more);
      var one := AcceptFrame(g, Behind(st, f), pending, f);
      if one.failure.None? {
        DrainExtends(g, one.st, one.pending, more);
        var early := Drain(g, one.st, one.pending);
        if early.failure.None? {
          var tail := Drain(g, Extend(early.st, more), early.pending);
          PrependAssociative(one, early, tail);
        }
      }
  }

  // ---------- conservation and bounds ----------

  lemma HoldsAppend(server: bool, frames: seq<bytes>, payload: bytes, f: Frame)
    requires ParseFrame(server, f.raw) == Complete(f) && Holds(server, frames, payload)
    ensures Holds(server, frames + [f.raw], payload + f.payload)
  {
    hide ParseFrame;
    var all := frames + [f.raw];
    assert all[..|all| - 1] == frames && all[|all| - 1] == f.raw;
    assert (payload + f.payload)[..|payload|] == payload;
    assert (payload + f.payload)[|payload|..] == f.payload;
  }

  lemma CompleteReleases(g: Gate, st: GateState, pending: set<int>)
    ensures var o := CompleteMessage(g, st, pending);
            o.failure.None? ==> && o.output == Join(st.fragmentFrames)
                                && o.st == st.(fragmentPayload := [], fragmentFrames := [])
                                && o.messages == [st.fragmentPayload]
  {
  }

  lemma AcceptKeeps(g: Gate, st: GateState, pending: set<int>, f: Frame)
    requires ParseFrame(g.server, f.raw) == Complete(f)
    requires Holds(g.server, st.fragmentFrames, st.fragmentPayload) && |st.fragmentPayload| <= MAX_PAYLOAD
    requires AcceptFrame(g, st, pending, f).failure.None?
    ensures var one := AcceptFrame(g, st, pending, f);
            && one.output + Retained(one.st) == Join(st.fragmentFrames) + f.raw + st.buffer
            && Holds(g.server, one.st.fragmentFrames, one.st.fragmentPayload)
            && |one.st.fragmentPayload| <= MAX_PAYLOAD
  {
    hide ParseFrame, CompleteMessage;
    assert Holds(g.server, [], []) && Join([]) == [];
    assert st.fragmentFrames == [] ==> st.fragmentPayload == [];
    assert |f.payload| <= MAX_PAYLOAD;
    hide Holds;
    HoldsAppend(g.server, st.fragmentFrames, st.fragmentPayload, f);
    JoinAppend(st.fragmentFrames, [f.raw]);
    JoinOne(f.raw);
    hide Join;
    var held := st.(fragmentPayload := st.fragmentPayload + f.payload, fragmentFrames := st.fragmentFrames + [f.raw]);
    var one := AcceptFrame(g, st, pending, f);
    if f.fin {
      CompleteReleases(g, held, pending);
      assert one == CompleteMessage(g, held, pending);
      assert Retained(one.st) == st.buffer;
    } else {
      assert one == Quiet(held, pending, None);
      assert [] + Retained(held) == Retained(held);
    }
  }

  lemma {:induction false} DrainKeeps(g: Gate, st: GateState, pending: set<int>)
    requires Holds(g.server, st.fragmentFrames, st.fragmentPayload) && |st.fragmentPayload| <= MAX_PAYLOAD
    requires st.handshakeDone
    requires Drain(g, st, pending).failure.None?
    ensures var o := Drain(g, st, pending);
            Sound(g, o.st) && o.output + Retained(o.st) == Retained(st)
    decreases |st.buffer|
  {
    hide ParseFrame, AcceptFrame, CompleteMessage, Holds;
    match ParseFrame(g.server, st.buffer)
    case NeedMore =>
    case Bad(_) =>
    case Complete(f) =>
      ParseRaw(g.server, st.buffer);
      var behind := Behind(st, f);
      AcceptKeeps(g, behind, pending, f);
      var one := AcceptFrame(g, behind, pending, f);
      DrainKeeps(g, one.st, one.pending);
      var o := Drain(g, one.st, one.pending);
      assert st.buffer == f.raw + behind.buffer;
      Regroup(one.output, o.output, Retained(o.st));
      Regroup(Join(st.fragmentFrames), f.raw, behind.buffer);
  }

  /** What one accepted call releases and keeps is exactly what it had plus what it was given. */
  lemma FeedKeeps(g: Gate, st: GateState, pending: set<int>, data: bytes)
    requires Sound(g, st)
    requires Feed(g, st, pending, data).failure.None?
    ensures var o := Feed(g, st, pending, data);
            Sound(g, o.st) && o.output + Retained(o.st) == Retained(st) + data
  {
    hide Drain, HeaderEndFrom;
    var fed := Extend(st, data);
    assert Retained(fed) == Retained(st) + data;
    if st.handshakeDone {
      DrainKeeps(g, fed, pending);
    } else {
      assert Join([]) == [];
      if HeaderEnd(fed.buffer).Some? {
        var end := HeaderEnd(fed.buffer).value;
        var inside := AfterHeader(fed, end);
        DrainKeeps(g, inside, pending);
        var o := Drain(g, inside, pending);
        assert fed.buffer == fed.buffer[..end] + inside.buffer;
        Regroup(fed.buffer[..end], o.output, Retained(o.st));
      }
    }
  }

  /** Conservation over every run of accepted calls: no byte is invented, lost or reordered,
      and what is still held back stays within the gate's bounds. */
  lemma {:induction false} Conservation(g: Gate, st: GateState, pending: set<int>, chunks: seq<bytes>)
    requires Sound(g, st)
    requires FeedAll(g, st, pending, chunks).failure.None?
    ensures var o := FeedAll(g, st, pending, chunks);
            Sound(g, o.st) && o.output + Retained(o.st) == Retained(st) + Join(chunks)
    decreases |chunks|
  {
    hide Feed, Sound;
    if chunks != [] {
      FeedKeeps(g, st, pending, chunks[0]);
      var one := Feed(g, st, pending, chunks[0]);
      Conservation(g, one.st, one.pending, chunks[1..]);
      var o := FeedAll(g, one.st, one.pending, chunks[1..]);
      Regroup(one.output, o.output, Retained(o.st));
      Regroup(one.output, Retained(one.st), Join(chunks[1..]));
      Regroup(Retained(st), chunks[0], Join(chunks[1..]));
    }
  }

  // ---------- where the stream is cut ----------

  predicate Deliverable(chunks: seq<bytes>) {
    forall i :: 0 <= i < |chunks| ==> |chunks[i]| <= MAX_CHUNK
  }

  /** The gate's verdict on a stream seen at once, with no limit on the header. */
  function Ideal(g: Gate, pending: set<int>, stream: bytes): (r: Outcome) {
    var st := INITIAL.(buffer := stream);
    match HeaderEnd(stream)
    case None => Quiet(st, pending, None)
    case Some(end) =>
      var rest := Drain(g, AfterHeader(st, end), pending);
      rest.(output := stream[..end] + rest.output)
  }

  /** Some call leaves more than 65536 bytes in front of the end of the header. */
  predicate LateCall(seen: nat, chunks: seq<bytes>, end: Option<nat>)
    decreases |chunks|
  {
    chunks != [] &&
    var now := seen + |chunks[0]|;
    (now > MAX_HEADER && (end.Some? ==> now < end.value)) || LateCall(now, chunks[1..], end)
  }

  lemma HeaderEndIs(b: bytes, end: nat)
    requires end >= 4 && MarkerAt(b, end - 4)
    requires forall j :: 0 <= j < end - 4 ==> !MarkerAt(b, j)
    ensures HeaderEnd(b) == Some(end)
  {
    assert HeaderEndFrom(b, 0).Some?;
  }

  lemma HeaderEndExtends(b: bytes, more: bytes)
    ensures HeaderEnd(b).Some? ==> HeaderEnd(b + more) == HeaderEnd(b)
    ensures HeaderEnd(b).None? && HeaderEnd(b + more).Some? ==> HeaderEnd(b + more).value > |b|
  {
    var all := b + more;
    assert forall j :: 0 <= j && j + 4 <= |b| ==> (MarkerAt(all, j) <==> MarkerAt(b, j));
    if HeaderEnd(b).Some? {
      HeaderEndIs(all, HeaderEnd(b).value);
    } else if HeaderEnd(all).Some? {
      var end := HeaderEnd(all).value;
      assert MarkerAt(all, end - 4);
    }
  }

  lemma {:induction false} CutAfterHandshake(g: Gate, st: GateState, pending: set<int>, chunks: seq<bytes>)
    requires st.handshakeDone && ParseFrame(g.server, st.buffer).NeedMore? && Deliverable(chunks)
    ensures var cut := FeedAll(g, st, pending, chunks);
            var whole := Drain(g, Extend(st, Join(chunks)), pending);
            && cut.failure == whole.failure && cut.messages == whole.messages && cut.pending == whole.pending
            && (whole.failure.None? ==> cut == whole)
    decreases |chunks|
  {
    if chunks == [] {
      assert Extend(st, Join(chunks)) == st;
    } else {
      var fed := Extend(st, chunks[0]);
      var rest := Join(chunks[1..]);
      assert Extend(fed, rest) == Extend(st, Join(chunks));
      DrainExtends(g, fed, pending, rest);
      var one := Drain(g, fed, pending);
      assert one == Feed(g, st, pending, chunks[0]);
      if one.failure.None? {
        DrainStops(g, fed, pending);
        CutAfterHandshake(g, one.st, one.pending, chunks[1..]);
      }
    }
  }

  lemma {:induction false} CutBeforeHandshake(g: Gate, seen: bytes, pending: set<int>, chunks: seq<bytes>)
    requires HeaderEnd(seen).None? && Deliverable(chunks)
    ensures var cut := FeedAll(g, INITIAL.(buffer := seen), pending, chunks);
            var stream := seen + Join(chunks);
            var whole := Ideal(g, pending, stream);
            && (cut.failure.None? <==> !LateCall(|seen|, chunks, HeaderEnd(stream)) && whole.failure.None?)
            && (cut.failure.None? ==> cut == whole)
            && (!LateCall(|seen|, chunks, HeaderEnd(stream)) ==>
                  cut.failure == whole.failure && cut.messages == whole.messages && cut.pending == whole.pending)
    decreases |chunks|
  {
    hide Drain, HeaderEndFrom;
    var st := INITIAL.(buffer := seen);
    var stream := seen + Join(chunks);
    if chunks == [] {
      assert stream == seen;
    } else {
      var now, rest := seen + chunks[0], Join(chunks[1..]);
      Regroup(seen, chunks[0], rest);
      HeaderEndExtends(now, rest);
      if HeaderEnd(now).None? {
        CutBeforeHandshake(g, now, pending, chunks[1..]);
        if |now| <= MAX_HEADER {
          var tail := FeedAll(g, INITIAL.(buffer := now), pending, chunks[1..]);
          assert Prepend(Feed(g, st, pending, chunks[0]), tail) == tail;
        }
      } else {
        CutAtHandshake(g, seen, pending, chunks);
      }
    }
  }

  /** The call that completes the header. */
  lemma CutAtHandshake(g: Gate, seen: bytes, pending: set<int>, chunks: seq<bytes>)
    requires HeaderEnd(seen).None? && Deliverable(chunks)
    requires chunks != [] && HeaderEnd(seen + chunks[0]).Some?
    ensures var cut := FeedAll(g, INITIAL.(buffer := seen), pending, chunks);
            var stream := seen + Join(chunks);
            var whole := Ideal(g, pending, stream);
            && (cut.failure.None? <==> !LateCall(|seen|, chunks, HeaderEnd(stream)) && whole.failure.None?)
            && (cut.failure.None? ==> cut == whole)
            && (!LateCall(|seen|, chunks, HeaderEnd(stream)) ==>
                  cut.failure == whole.failure && cut.messages == whole.messages && cut.pending == whole.pending)
  {
    hide Drain, HeaderEndFrom;
    var st := INITIAL.(buffer := seen);
    var now, rest := seen + chunks[0], Join(chunks[1..]);
    var stream := seen + Join(chunks);
    Regroup(seen, chunks[0], rest);
    HeaderEndExtends(now, rest);
    var end := HeaderEnd(now).value;
    NeverLate(|now|, chunks[1..], end);
    var inside := AfterHeader(Extend(st, chunks[0]), end);
    assert stream[end..] == now[end..] + rest;
    assert stream[..end] == now[..end];
    DrainExtends(g, inside, pending, rest);
    var one := Drain(g, inside, pending);
    if one.failure.None? {
      DrainStops(g, inside, pending);
      CutAfterHandshake(g, one.st, one.pending, chunks[1..]);
      Regroup(now[..end], one.output, FeedAll(g, one.st, one.pending, chunks[1..]).output);
    }
  }

  lemma {:induction false} NeverLate(seen: nat, chunks: seq<bytes>, end: nat)
    requires seen >= end
    ensures !LateCall(seen, chunks, Some(end))
    decreases |chunks|
  {
    if chunks != [] {
      NeverLate(seen + |chunks[0]|, chunks[1..], end);
    }
  }

  /** For every cutting of every stream: the gate accepts exactly when no call is late and the
      stream seen at once is accepted, and then it has done exactly the same; and if it refuses
      without a late call, it refuses for the same reason and behind the same messages. */
  lemma CutExactly(g: Gate, pending: set<int>, chunks: seq<bytes>)
    requires Deliverable(chunks)
    ensures var cut := FeedAll(g, INITIAL, pending, chunks);
            var whole := Ideal(g, pending, Join(chunks));
            && (cut.failure.None? <==> !LateCall(0, chunks, HeaderEnd(Join(chunks))) && whole.failure.None?)
            && (cut.failure.None? ==> cut == whole)
            && (!LateCall(0, chunks, HeaderEnd(Join(chunks))) ==>
                  cut.failure == whole.failure && cut.messages == whole.messages && cut.pending == whole.pending)
  {
    assert HeaderEnd([]).None?;
    assert [] + Join(chunks) == Join(chunks);
    CutBeforeHandshake(g, [], pending, chunks);
  }

  lemma {:induction false} LateNeedsRoom(seen: nat, chunks: seq<bytes>, end: Option<nat>)
    ensures LateCall(seen, chunks, end) ==> seen + |Join(chunks)| > MAX_HEADER
    ensures LateCall(seen, chunks, end) && end.Some? ==> end.value > MAX_HEADER + 1
    ensures end.None? && seen <= MAX_HEADER < seen + |Join(chunks)| ==> LateCall(seen, chunks, end)
    decreases |chunks|
  {
    if chunks != [] {
      LateNeedsRoom(seen + |chunks[0]|, chunks[1..], end);
    }
  }

  /** A stream on which the gate is insensitive to cutting. */
  ghost predicate CutInvariant(g: Gate, pending: set<int>, stream: bytes) {
    forall a, b :: Deliverable(a) && Deliverable(b) && Join(a) == stream && Join(b) == stream ==>
                     SameVerdict(FeedAll(g, INITIAL, pending, a), FeedAll(g, INITIAL, pending, b))
  }

  predicate SameVerdict(a: Outcome, b: Outcome) {
    (a.failure.None? <==> b.failure.None?) && (a.failure.None? ==> a == b)
  }

  /** The upgrade header, when complete, ends within 65537 bytes. */
  predicate ShortHeader(stream: bytes) {
    HeaderEnd(stream).Some? ==> HeaderEnd(stream).value <= MAX_HEADER + 1
  }

  lemma ShortHeaderIsEnough(g: Gate, pending: set<int>, a: seq<bytes>, b: seq<bytes>)
    requires Deliverable(a) && Deliverable(b) && Join(a) == Join(b) && ShortHeader(Join(a))
    ensures SameVerdict(FeedAll(g, INITIAL, pending, a), FeedAll(g, INITIAL, pending, b))
  {
    CutExactly(g, pending, a);
    CutExactly(g, pending, b);
    LateNeedsRoom(0, a, HeaderEnd(Join(a)));
    LateNeedsRoom(0, b, HeaderEnd(Join(b)));
  }

  // ---------- the bound is exact ----------

  function Slices(s: bytes): (r: seq<bytes>)
    ensures Deliverable(r)
  {
    if |s| <= MAX_CHUNK then [s] else [s[..MAX_CHUNK]] + Slices(s[MAX_CHUNK..])
  }

  lemma {:induction false} SlicesJoin(s: bytes)
    ensures Join(Slices(s)) == s
  {
    if |s| <= MAX_CHUNK {
      JoinOne(s);
    } else {
      SlicesJoin(s[MAX_CHUNK..]);
      assert Slices(s)[1..] == Slices(s[MAX_CHUNK..]);
      assert s == s[..MAX_CHUNK] + s[MAX_CHUNK..];
    }
  }

  /** Any deliverable prefix, then the rest in slices. */
  lemma PrefixThenSlices(prefix: bytes, rest: bytes) returns (chunks: seq<bytes>)
    requires |prefix| <= MAX_CHUNK
    ensures chunks == [prefix] + Slices(rest) && Deliverable(chunks) && Join(chunks) == prefix + rest
    ensures chunks[0] == prefix && chunks[1..] == Slices(rest)
  {
    chunks := [prefix] + Slices(rest);
    SlicesJoin(rest);
    assert chunks[1..] == Slices(rest);
  }

  lemma {:induction false} FarHeaderIsLate(seen: nat, chunks: seq<bytes>, end: nat)
    requires Deliverable(chunks) && seen <= MAX_HEADER
    requires end > MAX_CHUNK + MAX_HEADER && seen + |Join(chunks)| >= end
    ensures LateCall(seen, chunks, Some(end))
    decreases |chunks|
  {
    assert chunks != [];
    var now := seen + |chunks[0]|;
    if now <= MAX_HEADER {
      FarHeaderIsLate(now, chunks[1..], end);
    }
  }

  /** For every stream the gate could accept at all, insensitivity to cutting holds exactly when
      the header ends within 65537 bytes or is too long for any cutting to survive. */
  lemma CutInvariantExactly(g: Gate, pending: set<int>, stream: bytes)
    requires HeaderEnd(stream).Some? && Ideal(g, pending, stream).failure.None?
    ensures var end := HeaderEnd(stream).value;
            CutInvariant(g, pending, stream) <==> end <= MAX_HEADER + 1 || end > MAX_CHUNK + MAX_HEADER
  {
    var end := HeaderEnd(stream).value;
    if end <= MAX_HEADER + 1 {
      forall a, b | Deliverable(a) && Deliverable(b) && Join(a) == stream && Join(b) == stream
        ensures SameVerdict(FeedAll(g, INITIAL, pending, a), FeedAll(g, INITIAL, pending, b))
      {
        ShortHeaderIsEnough(g, pending, a, b);
      }
    } else if end > MAX_CHUNK + MAX_HEADER {
      forall a, b | Deliverable(a) && Deliverable(b) && Join(a) == stream && Join(b) == stream
        ensures SameVerdict(FeedAll(g, INITIAL, pending, a), FeedAll(g, INITIAL, pending, b))
      {
        FarHeaderIsLate(0, a, end);
        FarHeaderIsLate(0, b, end);
        CutExactly(g, pending, a);
        CutExactly(g, pending, b);
      }
    } else {
      var good := AcceptingCut(stream, end);
      var bad := LateCut(stream, end);
      CutExactly(g, pending, good);
      CutExactly(g, pending, bad);
      assert !SameVerdict(FeedAll(g, INITIAL, pending, good), FeedAll(g, INITIAL, pending, bad));
    }
  }

  lemma AcceptingCut(stream: bytes, end: nat) returns (chunks: seq<bytes>)
    requires HeaderEnd(stream) == Some(end) && MAX_HEADER + 1 < end <= MAX_CHUNK + MAX_HEADER
    ensures Deliverable(chunks) && Join(chunks) == stream && !LateCall(0, chunks, Some(end))
  {
    if end <= MAX_CHUNK {
      chunks := PrefixThenSlices(stream[..end], stream[end..]);
      NeverLate(end, chunks[1..], end);
      assert stream[..end] + stream[end..] == stream;
    } else {
      var small := end - MAX_CHUNK;
      var tail := PrefixThenSlices(stream[small..end], stream[end..]);
      chunks := [stream[..small]] + tail;
      assert chunks[1..] == tail;
      NeverLate(end, tail[1..], end);
      assert stream[small..end] + stream[end..] == stream[small..];
      assert stream[..small] + stream[small..] == stream;
    }
  }

  lemma LateCut(stream: bytes, end: nat) returns (chunks: seq<bytes>)
    requires HeaderEnd(stream) == Some(end) && end > MAX_HEADER + 1
    ensures Deliverable(chunks) && Join(chunks) == stream && LateCall(0, chunks, Some(end))
  {
    var cut := MAX_HEADER + 1;
    chunks := PrefixThenSlices(stream[..cut], stream[cut..]);
    assert stream[..cut] + stream[cut..] == stream;
  }

  /** A header that ends one byte too late for every cutting. */
  function Overlong(): (b: bytes) {
    Zeros(65534) + [13, 10, 13, 10]
  }

  function Zeros(n: nat): (b: bytes) {
    seq(n, i requires 0 <= i < n => 0 as byte)
  }

  lemma OverlongEnd()
    ensures HeaderEnd(Overlong()) == Some(65538)
  {
    var b := Overlong();
    assert MarkerAt(b, 65534);
    HeaderEndIs(b, 65538);
  }

  /** The bound is met: 65534 zero bytes and the blank line, nothing behind them, are accepted in
      one piece and refused in another cutting, by every gate. */
  lemma OverlongDepends(g: Gate, pending: set<int>)
    ensures Ideal(g, pending, Overlong()).failure.None? && !CutInvariant(g, pending, Overlong())
  {
    OverlongEnd();
    hide CutInvariant, Overlong;
    var st := AfterHeader(INITIAL.(buffer := Overlong()), 65538);
    assert |Overlong()| == 65538 by { OverlongSize(); }
    assert st.buffer == [];
    assert Drain(g, st, pending).failure.None?;
    CutInvariantExactly(g, pending, Overlong());
  }

  lemma OverlongSize()
    ensures |Overlong()| == 65538
  {
  }
}
