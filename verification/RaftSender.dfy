/** The sending side of the frame transport: connections are reused, broken
    ones replaced, and every frame has a sequence number of its own. */
module RaftSender {
  import opened Prelude
  import opened RaftFrames

  /** One try: whether a connection could be opened if none was, and how many
      bytes of the frame went out before the connection broke, if it did. */
  datatype Attempt = Attempt(connects: bool, brokenAfter: Option<nat>)

  datatype SendFault = Rejected(fault: Fault) | UnknownPeer | Unavailable

  ghost predicate Numbered(fs: seq<Frame>, top: int) {
    && (forall i, j :: 0 <= i < j < |fs| ==> fs[i].sequence < fs[j].sequence)
    && forall i :: 0 <= i < |fs| ==> 0 < fs[i].sequence <= top
  }

  /** The beginning of a frame that was cut off. */
  ghost predicate CutFrame(tail: seq<Byte>, manifest: string, maxBytes: int) {
    tail == [] || exists f :: Encode(f, manifest, maxBytes).Ok? && tail < Encode(f, manifest, maxBytes).value
  }

  /** The bytes of a connection: whole frames, then perhaps a piece of one. */
  ghost predicate Carries(bytes: seq<Byte>, fs: seq<Frame>, manifest: string, maxBytes: int) {
    && Sendable(fs, manifest, maxBytes)
    && exists tail {:trigger CutFrame(tail, manifest, maxBytes)} ::
         CutFrame(tail, manifest, maxBytes) && bytes == Wire(fs, manifest, maxBytes) + tail
  }

  lemma CutIsNotRead(tail: seq<Byte>, manifest: string, maxBytes: int)
    requires CutFrame(tail, manifest, maxBytes)
    ensures FramesIn(tail, manifest, maxBytes) == []
  {
    if |tail| >= HeaderSize {
      var f :| Encode(f, manifest, maxBytes).Ok? && tail < Encode(f, manifest, maxBytes).value;
      var body := AsciiBytes(manifest) + f.payload;
      var e := Encode(f, manifest, maxBytes).value;
      assert e[..HeaderSize] == Header(|body|, f.sequence);
      HeaderReads(e, |body|, f.sequence);
      assert tail[4..8] == e[4..8];
    }
  }

  /** The receiver reads off a connection exactly the frames written whole on it. */
  lemma {:induction false} ReceivesWhatWasSent(bytes: seq<Byte>, fs: seq<Frame>, manifest: string, maxBytes: int)
    requires Carries(bytes, fs, manifest, maxBytes)
    ensures FramesIn(bytes, manifest, maxBytes) == fs
    decreases |fs|
  {
    var tail :| CutFrame(tail, manifest, maxBytes) && bytes == Wire(fs, manifest, maxBytes) + tail;
    if fs == [] {
      assert bytes == tail;
      CutIsNotRead(tail, manifest, maxBytes);
    } else {
      var e := Encode(fs[0], manifest, maxBytes).value;
      var rest := Wire(fs[1..], manifest, maxBytes) + tail;
      assert bytes == e + rest;
      ReceivesWhatWasSent(rest, fs[1..], manifest, maxBytes);
      EncodedIsFirst(fs[0], rest, manifest, maxBytes);
    }
  }

  lemma {:induction false} WireOneMore(fs: seq<Frame>, f: Frame, manifest: string, maxBytes: int)
    requires Sendable(fs, manifest, maxBytes) && Encode(f, manifest, maxBytes).Ok?
    ensures Sendable(fs + [f], manifest, maxBytes)
    ensures Wire(fs + [f], manifest, maxBytes) == Wire(fs, manifest, maxBytes) + Encode(f, manifest, maxBytes).value
    decreases |fs|
  {
    if fs == [] {
      assert (fs + [f])[1..] == [];
      assert Wire([], manifest, maxBytes) == [];
      assert fs + [f] == [f];
    } else {
      assert (fs + [f])[1..] == fs[1..] + [f];
      WireOneMore(fs[1..], f, manifest, maxBytes);
    }
  }

  /** Nothing written is ever taken back. */
  ghost predicate Kept(before: seq<seq<Byte>>, after: seq<seq<Byte>>) {
    |before| <= |after| && forall c :: 0 <= c < |before| ==> before[c] <= after[c]
  }

  /** On each connection, old or new, the frame was written whole at most once. */
  ghost predicate Logged(before: seq<seq<Frame>>, after: seq<seq<Frame>>, f: Frame) {
    && |before| <= |after|
    && (forall c :: 0 <= c < |before| ==> after[c] == before[c] || after[c] == before[c] + [f])
    && forall c :: |before| <= c < |after| ==> after[c] == [] || after[c] == [f]
  }

  lemma LoggedStep(before: seq<seq<Frame>>, mid: seq<seq<Frame>>, f: Frame, c: nat)
    requires Logged(before, mid, f) && c < |mid| && Numbered(mid[c], f.sequence - 1)
    ensures Logged(before, mid[c := mid[c] + [f]], f)
  {
    assert forall i :: 0 <= i < |mid[c]| ==> mid[c][i] != f;
    if c < |before| {
      assert (before[c] + [f])[|before[c]|] == f;
    } else {
      assert [f][0] == f;
      assert mid[c] == [];
      assert mid[c] + [f] == [f];
    }
  }

  /** Writing a frame, or a piece of one, after whole frames. */
  lemma CarriesOneMore(fs: seq<Frame>, f: Frame, n: nat, manifest: string, maxBytes: int)
    requires Sendable(fs, manifest, maxBytes) && Encode(f, manifest, maxBytes).Ok?
    requires n <= |Encode(f, manifest, maxBytes).value|
    ensures var e := Encode(f, manifest, maxBytes).value;
            var all := if n == |e| then fs + [f] else fs;
            Carries(Wire(fs, manifest, maxBytes) + e[..n], all, manifest, maxBytes)
  {
    var e := Encode(f, manifest, maxBytes).value;
    if n == |e| {
      WireOneMore(fs, f, manifest, maxBytes);
      var bytes := Wire(fs + [f], manifest, maxBytes);
      assert e[..n] == e && bytes + [] == bytes;
      assert CutFrame([], manifest, maxBytes);
    } else {
      assert e[..n] < e;
      assert CutFrame(e[..n], manifest, maxBytes);
    }
  }

  datatype Line = Line(manifest: string, maxBytes: int)

  /** Every connection carries its logged frames, numbered upwards. */
  ghost predicate PipesGood(pipes: seq<seq<Byte>>, sent: seq<seq<Frame>>, top: nat, line: Line) {
    && |sent| == |pipes|
    && forall c {:trigger pipes[c]} {:trigger sent[c]} :: 0 <= c < |pipes| ==>
         Carries(pipes[c], sent[c], line.manifest, line.maxBytes) && Numbered(sent[c], top)
  }

  ghost predicate Whole(bytes: seq<Byte>, fs: seq<Frame>, line: Line) {
    Sendable(fs, line.manifest, line.maxBytes) && bytes == Wire(fs, line.manifest, line.maxBytes)
  }

  /** The connections in use, each for one peer, carry whole frames only. */
  ghost predicate SocketsGood(sockets: map<int, nat>, peers: set<int>, pipes: seq<seq<Byte>>, sent: seq<seq<Frame>>, line: Line) {
    && |sent| == |pipes|
    && (forall p :: p in sockets ==> p in peers && sockets[p] < |pipes| && Whole(pipes[sockets[p]], sent[sockets[p]], line))
    && forall p, q :: p in sockets && q in sockets && p != q ==> sockets[p] != sockets[q]
  }

  /** The frame written up to byte `n` of its encoding on connection `c`. */
  lemma PipesAfterWrite(pipes: seq<seq<Byte>>, sent: seq<seq<Frame>>, c: nat, f: Frame, n: nat, line: Line)
    requires f.sequence > 0 && PipesGood(pipes, sent, f.sequence, line) && c < |pipes| && Whole(pipes[c], sent[c], line)
    requires Encode(f, line.manifest, line.maxBytes).Ok? && n <= |Encode(f, line.manifest, line.maxBytes).value|
    requires Numbered(sent[c], f.sequence - 1)
    ensures var e := Encode(f, line.manifest, line.maxBytes).value;
            PipesGood(pipes[c := pipes[c] + e[..n]], if n == |e| then sent[c := sent[c] + [f]] else sent, f.sequence, line)
  {
    CarriesOneMore(sent[c], f, n, line.manifest, line.maxBytes);
  }

  lemma WholeOneMore(bytes: seq<Byte>, fs: seq<Frame>, f: Frame, line: Line)
    requires Whole(bytes, fs, line) && Encode(f, line.manifest, line.maxBytes).Ok?
    ensures Whole(bytes + Encode(f, line.manifest, line.maxBytes).value, fs + [f], line)
  {
    WireOneMore(fs, f, line.manifest, line.maxBytes);
  }

  lemma EmptyPipe(pipes: seq<seq<Byte>>, sent: seq<seq<Frame>>, top: nat, line: Line)
    requires PipesGood(pipes, sent, top, line)
    ensures PipesGood(pipes + [[]], sent + [[]], top, line) && Whole([], [], line)
  {
    assert CutFrame([], line.manifest, line.maxBytes);
    var none: seq<Byte> := Wire([], line.manifest, line.maxBytes) + [];
    assert none == [] && Carries([], [], line.manifest, line.maxBytes);
  }

  /** The lines of all peers but one are as they were. */
  ghost predicate OthersSame(peer: int, was: map<int, nat>, now: map<int, nat>, wasSent: seq<seq<Frame>>, nowSent: seq<seq<Frame>>) {
    forall p :: p != peer ==>
      && (p in now <==> p in was)
      && (p in now ==> now[p] == was[p] && now[p] < |wasSent| && now[p] < |nowSent| && nowSent[now[p]] == wasSent[now[p]])
  }

  lemma LoggedNew(before: seq<seq<Frame>>, mid: seq<seq<Frame>>, f: Frame)
    requires Logged(before, mid, f)
    ensures Logged(before, mid + [[]], f)
  {
  }

  lemma OthersStep(peer: int, was: map<int, nat>, now: map<int, nat>, wasSent: seq<seq<Frame>>, nowSent: seq<seq<Frame>>, c: nat, fs: seq<Frame>)
    requires OthersSame(peer, was, now, wasSent, nowSent) && c < |nowSent| && forall p :: p in now && p != peer ==> now[p] != c
    ensures OthersSame(peer, was, now, wasSent, nowSent[c := fs])
  {
  }

  /** What any number of tries may have changed since the given state. */
  ghost predicate Progress(peer: int, f: Frame, was: Wires, now: Wires) {
    Kept(was.pipes, now.pipes) && Logged(was.sent, now.sent, f) && OthersSame(peer, was.sockets, now.sockets, was.sent, now.sent)
  }

  datatype Wires = Wires(sockets: map<int, nat>, pipes: seq<seq<Byte>>, sent: seq<seq<Frame>>)

  /** The state after some of a frame went out on the connection of a peer. */
  function Written(w: Wires, peer: int, f: Frame, bytes: seq<Byte>, whole: bool, breaks: bool): Wires
    requires peer in w.sockets && w.sockets[peer] < |w.pipes| && |w.sent| == |w.pipes|
  {
    var c := w.sockets[peer];
    Wires(if breaks then w.sockets - {peer} else w.sockets, w.pipes[c := w.pipes[c] + bytes],
          if whole then w.sent[c := w.sent[c] + [f]] else w.sent)
  }

  lemma ProgressWritten(peer: int, f: Frame, was: Wires, now: Wires, bytes: seq<Byte>, whole: bool, breaks: bool)
    requires Progress(peer, f, was, now)
    requires peer in now.sockets && now.sockets[peer] < |now.pipes| && |now.sent| == |now.pipes|
    requires forall p :: p in now.sockets && p != peer ==> now.sockets[p] != now.sockets[peer]
    requires Numbered(now.sent[now.sockets[peer]], f.sequence - 1)
    ensures Progress(peer, f, was, Written(now, peer, f, bytes, whole, breaks))
  {
    var c := now.sockets[peer];
    LoggedStep(was.sent, now.sent, f, c);
    OthersStep(peer, was.sockets, now.sockets, was.sent, now.sent, c, now.sent[c] + [f]);
  }

  class PersistentRaftClient {
    const peers: set<int>
    const line: Line
    const maxRetries: nat
    var sequence: nat
    /** The connection in use for each peer, by its number. */
    var sockets: map<int, nat>
    /** All bytes written so far on every connection ever opened. */
    var pipes: seq<seq<Byte>>
    /** The frames written whole on every connection. */
    ghost var sent: seq<seq<Frame>>

    ghost predicate Valid()
      reads this
    {
      PipesGood(pipes, sent, sequence, line) && SocketsGood(sockets, peers, pipes, sent, line)
    }

    constructor (peers: set<int>, line: Line, maxRetries: nat)
      ensures Valid() && sequence == 0 && sockets == map[] && pipes == [] && sent == []
      ensures this.peers == peers && this.line == line && this.maxRetries == maxRetries
    {
      this.peers, this.line, this.maxRetries := peers, line, maxRetries;
      sequence, sockets, pipes, sent := 0, map[], [], [];
    }

    ghost function View(): Wires
      reads this
    {
      Wires(sockets, pipes, sent)
    }

    function Encoded(f: Frame): Result<seq<Byte>, Fault> {
      Encode(f, line.manifest, line.maxBytes)
    }

    /** The frame about to be sent has not been written whole on the connection in use. */
    ghost predicate Unsent(peer: int)
      reads this
    {
      peer in sockets ==> sockets[peer] < |sent| && Numbered(sent[sockets[peer]], sequence - 1)
    }

    method Connect(peer: int)
      requires Valid() && peer in peers && peer !in sockets
      modifies this
      ensures Valid() && Unsent(peer) && sequence == old(sequence)
      ensures sockets == old(sockets)[peer := |old(pipes)|] && pipes == old(pipes) + [[]] && sent == old(sent) + [[]]
    {
      EmptyPipe(pipes, sent, sequence, line);
      sockets := sockets[peer := |pipes|];
      pipes := pipes + [[]];
      sent := sent + [[]];
    }

    /** Writes up to `limit` bytes of the frame; a connection cut short is given up. */
    method Write(peer: int, f: Frame, limit: nat, breaks: bool)
      requires Valid() && peer in sockets && Encoded(f).Ok? && f.sequence == sequence > 0 && Unsent(peer)
      requires !breaks ==> limit == |Encoded(f).value|
      modifies this
      ensures Valid() && sequence == old(sequence)
      ensures var e := Encoded(f).value;
              View() == Written(old(View()), peer, f, e[..if limit >= |e| then |e| else limit], limit >= |e|, breaks)
    {
      var c := sockets[peer];
      var e := Encoded(f).value;
      var n := if limit >= |e| then |e| else limit;
      assert Whole(pipes[c], sent[c], line);
      PipesAfterWrite(pipes, sent, c, f, n, line);
      WholeOneMore(pipes[c], sent[c], f, line);
      assert e[..|e|] == e;
      if n == |e| { sent := sent[c := sent[c] + [f]]; }
      pipes := pipes[c := pipes[c] + e[..n]];
      if breaks { sockets := sockets - {peer}; }
    }

    /** Uses up a sequence number even when it raises; on success the frame is
        the last one of the connection now in use. */
    method Send(peer: int, payload: seq<Byte>, attempts: seq<Attempt>) returns (r: Result<nat, SendFault>)
      requires Valid() && |attempts| == maxRetries + 1
      modifies this
      ensures Valid() && sequence == old(sequence) + 1
      ensures var f := Frame(sequence, payload);
              && (r.Ok? ==> r.value == sequence && peer in sockets && EndsWith(sent, sockets[peer], f))
              && (r == Err(Unavailable) ==> peer !in sockets)
              && (Encoded(f).Err? <==> r.Err? && r.error.Rejected?)
              && (r.Err? && r.error != Unavailable ==> pipes == old(pipes) && sent == old(sent) && sockets == old(sockets))
      ensures Progress(peer, Frame(sequence, payload), old(View()), View())
    {
      sequence := sequence + 1;
      var f := Frame(sequence, payload);
      var frame := Encoded(f);
      if frame.Err? { return Err(Rejected(frame.error)); }
      if peer !in peers { return Err(UnknownPeer); }
      var done := Transmit(peer, f, attempts);
      return if done then Ok(sequence) else Err(Unavailable);
    }

    /** One try; true if the frame went out and the connection stayed up. */
    method TryOnce(peer: int, f: Frame, brokenAfter: Option<nat>, ghost was: Wires) returns (done: bool)
      requires Valid() && peer in sockets && Encoded(f).Ok? && f.sequence == sequence > 0 && Unsent(peer)
      requires Progress(peer, f, was, View())
      modifies this
      ensures Valid() && sequence == old(sequence) && Progress(peer, f, was, View())
      ensures if done then peer in sockets && EndsWith(sent, sockets[peer], f) else peer !in sockets
    {
      done := brokenAfter.None?;
      var size := |Encoded(f).value|;
      var limit := if done then size else brokenAfter.value;
      var bytes := Encoded(f).value[..if limit >= size then size else limit];
      ProgressWritten(peer, f, was, View(), bytes, limit >= size, !done);
      Write(peer, f, limit, !done);
    }

    method Transmit(peer: int, f: Frame, attempts: seq<Attempt>) returns (done: bool)
      requires Valid() && peer in peers && Encoded(f).Ok? && f.sequence == sequence > 0 && Unsent(peer)
      requires |attempts| > 0
      modifies this
      ensures Valid() && sequence == old(sequence)
      ensures if done then peer in sockets && EndsWith(sent, sockets[peer], f) else peer !in sockets
      ensures Progress(peer, f, old(View()), View())
    {
      ghost var was := View();
      for i := 0 to |attempts|
        invariant Valid() && sequence == old(sequence)
        invariant (i > 0 ==> peer !in sockets) && Unsent(peer)
        invariant Progress(peer, f, was, View())
      {
        if peer !in sockets && attempts[i].connects {
          LoggedNew(was.sent, sent, f);
          Connect(peer);
        }
        if peer in sockets {
          done := TryOnce(peer, f, attempts[i].brokenAfter, was);
          if done { return; }
        }
      }
      done := false;
    }
  }

  ghost predicate EndsWith(sent: seq<seq<Frame>>, c: nat, f: Frame) {
    c < |sent| && sent[c] != [] && sent[c][|sent[c]| - 1] == f
  }
}
