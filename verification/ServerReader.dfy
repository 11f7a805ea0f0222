/** The helper's own reader of server messages, written independently of the gate, and its
    agreement with the gate on every stream the gate accepts. */
module ServerReader {
  import opened Bytes
  import opened GateSpec

  datatype Refusal = Compression | ServerMasked | WrongLength | TooLarge | ServerClose | WrongOpcode | WrongFragment | MessageSize

  /** One frame from the front of the stream; `Starved` is a read that meets the end of it. */
  datatype FrameRead = FrameStarved | FrameRefused(why: Refusal) | Got(fin: bool, opcode: nat, payload: bytes, rest: bytes)

  function ReadBody(fin: bool, opcode: nat, length: nat, s: bytes): (r: FrameRead) {
    if length > 65535 then FrameRefused(TooLarge)
    else if |s| < length then FrameStarved
    else Got(fin, opcode, s[..length], s[length..])
  }

  function ReadServerFrame(s: bytes): (r: FrameRead)
    ensures r.Got? ==> |r.rest| + 2 <= |s|
  {
    if |s| < 2 then FrameStarved
    else
      var first, second := s[0] as int, s[1] as int;
      if first / 16 % 8 != 0 then FrameRefused(Compression)
      else if second >= 128 then FrameRefused(ServerMasked)
      else
        var fin, opcode := first >= 128, first % 16;
        var body := s[2..];
        if second == 126 then
          if |body| < 2 then FrameStarved else ReadBody(fin, opcode, BigEndian(body[..2]), body[2..])
        else if second == 127 then
          if |body| < 8 then FrameStarved
          else if body[0] >= 128 then FrameRefused(WrongLength)
          else ReadBody(fin, opcode, BigEndian(body[..8]), body[8..])
        else ReadBody(fin, opcode, second, body)
  }

  datatype TextRead = Starved | Refused(why: Refusal) | Text(payload: bytes, rest: bytes)

  /** Further fragments behind `sofar`. */
  function ReadFragments(s: bytes, sofar: bytes): (r: TextRead)
    ensures r.Text? ==> |r.rest| < |s|
    decreases |s|
  {
    match ReadServerFrame(s)
    case FrameStarved => Starved
    case FrameRefused(why) => Refused(why)
    case Got(fin, opcode, payload, rest) =>
      if opcode != 0 then Refused(WrongFragment)
      else if |sofar + payload| > 65535 then Refused(MessageSize)
      else if fin then Text(sofar + payload, rest)
      else ReadFragments(rest, sofar + payload)
  }

  function ReadText(s: bytes): (r: TextRead)
    ensures r.Text? ==> |r.rest| < |s|
  {
    match ReadServerFrame(s)
    case FrameStarved => Starved
    case FrameRefused(why) => Refused(why)
    case Got(fin, opcode, payload, rest) =>
      if opcode == 8 then Refused(ServerClose)
      else if opcode != 1 then Refused(WrongOpcode)
      else if fin then Text(payload, rest)
      else ReadFragments(rest, payload)
  }

  /** `_read_server_text`: the chunk list and its loop. */
  method ReadServerText(s: bytes) returns (r: TextRead)
    ensures r == ReadText(s)
  {
    hide ReadServerFrame;
    var frame := ReadServerFrame(s);
    if frame.FrameStarved? { return Starved; }
    if frame.FrameRefused? { return Refused(frame.why); }
    if frame.opcode == 8 { return Refused(ServerClose); }
    if frame.opcode != 1 { return Refused(WrongOpcode); }
    var chunks, fin, rest := [frame.payload], frame.fin, frame.rest;
    JoinOne(frame.payload);
    while !fin
      invariant ReadText(s) == if fin then Text(Join(chunks), rest) else ReadFragments(rest, Join(chunks))
      decreases |rest|, !fin
    {
      frame := ReadServerFrame(rest);
      if frame.FrameStarved? { return Starved; }
      if frame.FrameRefused? { return Refused(frame.why); }
      if frame.opcode != 0 { return Refused(WrongFragment); }
      JoinAppend(chunks, [frame.payload]);
      JoinOne(frame.payload);
      chunks, fin, rest := chunks + [frame.payload], frame.fin, frame.rest;
      if |Join(chunks)| > 65535 { return Refused(MessageSize); }
    }
    r := Text(Join(chunks), rest);
  }

  /** Reading again and again: the messages obtained and how it ended. */
  function ReadAll(s: bytes): (r: (seq<bytes>, TextRead))
    decreases |s|, 1
  {
    Follow(s, ReadText(s))
  }

  function Follow(s: bytes, t: TextRead): (r: (seq<bytes>, TextRead))
    requires t.Text? ==> |t.rest| < |s|
    decreases |s|, 0
  {
    if t.Text? then
      var (messages, end) := ReadAll(t.rest);
      ([t.payload] + messages, end)
    else ([], t)
  }

  // ---------- agreement with the gate ----------

  /** What the reader obtains behind a header of h bytes. */
  lemma BodyAt(s: bytes, h: nat, fin: bool, opcode: nat, n: nat)
    requires h <= |s|
    ensures ReadBody(fin, opcode, n, s[h..]) ==
            if n > 65535 then FrameRefused(TooLarge)
            else if |s| < h + n then FrameStarved
            else Got(fin, opcode, s[h..h + n], s[h + n..])
  {
    if n <= 65535 && h + n <= |s| {
      assert s[h..][..n] == s[h..h + n];
      assert s[h..][n..] == s[h + n..];
    }
  }

  lemma Nested(s: bytes, j: nat)
    requires 2 + j <= |s|
    ensures s[2..][..j] == s[2..2 + j] && s[2..][j..] == s[2 + j..]
  {
  }

  /** Frame by frame, the reader sees what the server gate sees. */
  lemma SameFrame(s: bytes)
    ensures match ParseFrame(true, s)
            case NeedMore => ReadServerFrame(s) == FrameStarved
            case Complete(f) => ReadServerFrame(s) == Got(f.fin, f.opcode, f.payload, s[|f.raw|..])
            case Bad(_) => ReadServerFrame(s).FrameRefused?
  {
    if |s| >= 2 && s[0] as int / 16 % 8 == 0 && s[1] < 128 {
      var fin, opcode := s[0] >= 128, s[0] as int % 16;
      hide ReadBody, BigEndian;
      if s[1] == 126 && |s| >= 4 {
        Nested(s, 2);
        BodyAt(s, 4, fin, opcode, BigEndian(s[2..4]));
      } else if s[1] == 127 && |s| >= 10 {
        Nested(s, 8);
        BodyAt(s, 10, fin, opcode, BigEndian(s[2..10]));
      } else if s[1] < 126 {
        BodyAt(s, 2, fin, opcode, s[1] as int);
      }
    }
  }

  lemma FollowOnlyText(a: bytes, b: bytes, t: TextRead)
    requires t.Text? ==> |t.rest| < |a| && |t.rest| < |b|
    ensures Follow(a, t) == Follow(b, t)
  {
    if t.Text? {
      var tail := ReadAll(t.rest);
      assert Follow(a, t) == ([t.payload] + tail.0, tail.1);
      assert Follow(b, t) == ([t.payload] + tail.0, tail.1);
    }
  }

  /** Where a gate in the middle of a message stands in the reader's terms. */
  function ReadOn(st: GateState): (r: (seq<bytes>, TextRead)) {
    if st.fragmentFrames == [] then ReadAll(st.buffer)
    else Follow(st.buffer, ReadFragments(st.buffer, st.fragmentPayload))
  }

  lemma AcceptAgrees(g: Gate, st: GateState, pending: set<int>, f: Frame)
    requires g.server && AcceptFrame(g, st, pending, f).failure.None?
    requires st.fragmentFrames == [] ==> st.fragmentPayload == []
    requires |f.payload| <= MAX_PAYLOAD
    ensures var one := AcceptFrame(g, st, pending, f);
            var payload := st.fragmentPayload + f.payload;
            && (one.st.fragmentFrames == [] ==> one.st.fragmentPayload == [])
            && (if st.fragmentFrames == [] then f.opcode == 1 else f.opcode == 0 && |payload| <= 65535)
            && (if f.fin then one.messages == [payload] && one.st.fragmentFrames == []
                else one.messages == [] && one.st.fragmentFrames != [] && one.st.fragmentPayload == payload)
  {
    hide Join;
  }

  /** On every stream that the server gate accepts, the reader obtains exactly the same messages
      and then waits for more; it never refuses what the gate let through. */
  lemma {:induction false} ReaderAgrees(g: Gate, st: GateState, pending: set<int>)
    requires g.server && (st.fragmentFrames == [] ==> st.fragmentPayload == [])
    requires Drain(g, st, pending).failure.None?
    ensures ReadOn(st) == (Drain(g, st, pending).messages, Starved)
    decreases |st.buffer|
  {
    hide ParseFrame, ReadServerFrame, AcceptFrame;
    SameFrame(st.buffer);
    match ParseFrame(g.server, st.buffer)
    case NeedMore => assert Follow(st.buffer, Starved) == ([], Starved);
    case Bad(_) =>
    case Complete(f) =>
      var behind := Behind(st, f);
      AcceptAgrees(g, behind, pending, f);
      var one := AcceptFrame(g, behind, pending, f);
      assert one.st.buffer == behind.buffer;
      ReaderAgrees(g, one.st, one.pending);
      assert [] + f.payload == f.payload;
      var tail := Drain(g, one.st, one.pending).messages;
      var payload := st.fragmentPayload + f.payload;
      if f.fin {
        var text := Text(payload, behind.buffer);
        assert (if st.fragmentFrames == [] then ReadText(st.buffer) else ReadFragments(st.buffer, st.fragmentPayload)) == text;
        assert Follow(st.buffer, text) == ([payload] + tail, Starved);
      } else {
        assert [] + tail == tail;
        var more := ReadFragments(behind.buffer, payload);
        assert (if st.fragmentFrames == [] then ReadText(st.buffer) else ReadFragments(st.buffer, st.fragmentPayload)) == more;
        FollowOnlyText(st.buffer, behind.buffer, more);
        assert ReadOn(st) == Follow(st.buffer, more);
      }
  }
}
