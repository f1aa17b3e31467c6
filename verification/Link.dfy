/** A client end and a server end joined by two byte streams that neither lose, add nor change bytes. What one end
    has sent and the other has not received is in transit. */
module Link {
  import opened Bytes
  import opened Messages
  import opened Framing
  import W = Writer
  import E = Endpoint

  datatype Link = Link(client: E.End, server: E.End)

  datatype Step = AtClient(step: E.Step) | AtServer(step: E.Step)

  /** The connection right after accept: `jobs` were posted at the server by `OnClientConnection`. */
  function Start(word: u64, jobs: seq<E.Job>): Link {
    Link(E.NewClient(), E.NewServer(word, jobs))
  }

  /** Bytes arrive at `e` only as the next bytes that `peer` sent. */
  predicate Carried(e: E.End, peer: E.End, step: E.Step) {
    step.Arrive? ==> e.received + step.bytes <= peer.out.sent
  }

  predicate Enabled(l: Link, s: Step) {
    match s
    case AtClient(step) => E.Enabled(l.client, step) && Carried(l.client, l.server, step)
    case AtServer(step) => E.Enabled(l.server, step) && Carried(l.server, l.client, step)
  }

  function Apply(l: Link, s: Step): Link
    requires Enabled(l, s)
  {
    match s
    case AtClient(step) => l.(client := E.Apply(l.client, step))
    case AtServer(step) => l.(server := E.Apply(l.server, step))
  }

  predicate Inv(l: Link) {
    && E.Inv(l.client) && E.Inv(l.server)
    && l.client.owner.ClientEnd? && l.server.owner.ServerEnd?
    && l.client.received <= l.server.out.sent
    && l.server.received <= l.client.out.sent
  }

  ghost predicate Run(l: Link, steps: seq<Step>, m: Link)
    decreases |steps|
  {
    if steps == [] then m == l
    else Enabled(l, steps[0]) && Run(Apply(l, steps[0]), steps[1..], m)
  }

  // ---- The invariant over all runs ----

  lemma StartInv(word: u64, jobs: seq<E.Job>)
    ensures Inv(Start(word, jobs))
  {
    hide E.Inv;
    E.NewClientInv();
    E.NewServerInv(word, jobs);
  }

  /** One end only ever sends more, and receives only by `Arrive`. */
  lemma StreamsGrow(e: E.End, step: E.Step)
    requires E.Enabled(e, step)
    ensures var f := E.Apply(e, step);
            e.out.sent <= f.out.sent &&
            f.received == if step.Arrive? then e.received + step.bytes else e.received
  {
    hide OnRead, W.CanEmit, W.SendJob, W.OnWritten, W.Started;
    match step
    case Written => W.OnWrittenFrame(e.out);
    case RunJob =>
      if e.jobs[0].SendJob? {
        W.SendJobFrame(e.out, e.jobs[0].msg);
      }
    case _ =>
  }

  lemma StepKeepsInv(l: Link, s: Step)
    requires Inv(l) && Enabled(l, s)
    ensures Inv(Apply(l, s))
  {
    hide E.Inv, E.Apply, E.Enabled;
    var e := if s.AtClient? then l.client else l.server;
    E.StepKeepsInv(e, s.step);
    E.StepKeepsOwner(e, s.step);
    StreamsGrow(e, s.step);
  }

  /** What a run can never undo. */
  predicate Later(l: Link, m: Link) {
    && m.server.check == l.server.check
    && m.server.out.word == l.server.out.word
    && (l.client.early ==> m.client.early)
  }

  lemma EarlyIsKept(e: E.End, step: E.Step)
    requires E.Enabled(e, step)
    ensures e.early ==> E.Apply(e, step).early
  {
    hide OnRead, W.CanEmit, W.SendJob, W.OnWritten, W.Started;
  }

  lemma StepIsLater(l: Link, s: Step)
    requires Inv(l) && Enabled(l, s)
    ensures Later(l, Apply(l, s))
  {
    hide E.Inv, E.Apply, E.Enabled;
    if s.AtClient? {
      EarlyIsKept(l.client, s.step);
    } else {
      E.StepKeepsOwner(l.server, s.step);
      E.ServerWordIsKept(l.server, s.step);
    }
  }

  lemma {:induction false} RunKeepsInv(l: Link, steps: seq<Step>, m: Link)
    requires Inv(l) && Run(l, steps, m)
    ensures Inv(m) && Later(l, m)
    decreases |steps|
  {
    hide Inv, Enabled, Apply;
    if steps != [] {
      StepKeepsInv(l, steps[0]);
      StepIsLater(l, steps[0]);
      RunKeepsInv(Apply(l, steps[0]), steps[1..], m);
    }
  }

  // ---- The first eight bytes ----

  lemma SamePrefix(a: seq<byte>, b: seq<byte>, c: seq<byte>)
    requires a <= c && b <= c && |a| >= |b|
    ensures b <= a
  {
  }

  lemma EarlyBytes(w: W.Out, p: seq<byte>)
    requires W.Conserved(w) && |p| == 8 && p <= W.Started(w)
    requires w.wordAt.Never? || w.wordAt.bytes >= 8
    ensures |w.sent| >= 8 ==> p <= w.sent
  {
    var s := W.Started(w);
    var all := W.Weave(w.wordAt, w.word, s);
    if w.wordAt.At? {
      assert p <= s[..w.wordAt.bytes];
    }
    assert p <= all;
    W.Regroup(w.sent, w.unsent, W.Pending(w.ops), []);
    assert w.sent <= all;
  }

  /** The first eight bytes a client sends: the header of its first message if it sent early, else its word. */
  lemma ClientFirstBytes(e: E.End)
    requires E.Inv(e) && e.owner.ClientEnd? && |e.out.sent| >= 8
    ensures e.early ==> e.out.pushed != [] && e.out.sent[..8] == HeaderBytes(e.out.pushed[0].header)
    ensures !e.early ==> e.out.wordAt == W.At(0) && e.out.sent[..8] == Image(e.out.word, 8)
  {
    hide E.ReadInv, W.Conserved, W.Started, W.Flight, W.Queued;
    var w := e.out;
    if e.early {
      W.StartedIsPrefix(w);
      W.StartedIfPushed(w);
      EncodeAllHead(w.pushed);
      var h := HeaderBytes(w.pushed[0].header);
      SamePrefix(W.Started(w), h, EncodeAll(w.pushed));
      EarlyBytes(w, h);
    } else {
      if w.wordAt.Never? {
        W.NothingPushed(w);
      }
      W.SentIsPrefix(w);
    }
  }

  lemma ServerFirstBytes(e: E.End)
    requires E.Inv(e) && e.owner.ServerEnd? && |e.out.sent| >= 8
    ensures e.out.sent[..8] == Image(e.out.word, 8)
  {
    hide E.ReadInv, W.Conserved, W.Started, W.Flight, W.Queued;
    W.SentIsPrefix(e.out);
  }

  /** The word that a client writes is the scrambled word of its server. */
  lemma ClientWord(l: Link)
    requires Inv(l) && l.client.out.wordAt.At?
    ensures l.client.out.word == E.Scramble(l.server.out.word)
  {
    hide W.Inv, E.InSync, Waiting, E.Scramble;
    var got := l.client.received;
    assert |got| >= 8;
    assert |got| == 8 ==> got[..8] == got;
    ServerFirstBytes(l.server);
    assert got[..8] == l.server.out.sent[..8];
    WordOfImage(l.server.out.word);
  }

  /** The exact outcome of the handshake on an untampered link, in every run: the server's first 8 bytes pass its
      check if and only if the client did not send early, or the header of its first message happens to be the
      scrambled word. */
  lemma HandshakeExact(word: u64, jobs: seq<E.Job>, steps: seq<Step>, l: Link)
    requires Run(Start(word, jobs), steps, l)
    requires |l.server.received| >= 8
    ensures Word(l.server.received[..8]) == E.Scramble(word) <==>
              !l.client.early ||
              (l.client.out.pushed != [] && Word(HeaderBytes(l.client.out.pushed[0].header)) == E.Scramble(word))
  {
    hide Run, E.Inv, E.Scramble;
    StartInv(word, jobs);
    RunKeepsInv(Start(word, jobs), steps, l);
    FirstBytesReceived(l);
  }

  /** The other outcome happens: a client that sends `m` at once, before the server's word has reached it, has the
      header of `m` taken for its reply; with such an id the server closes the connection. */
  lemma EarlySendHappens(word: u64, m: Msg) returns (steps: seq<Step>, l: Link)
    ensures Run(Start(word, []), steps, l) && l.client.early && l.client.open
    ensures l.server.received == HeaderBytes(m.header)
    ensures Word(HeaderBytes(m.header)) != E.Scramble(word) ==> !l.server.open && l.server.reading.Stopped?
    ensures Word(HeaderBytes(m.header)) == E.Scramble(word) ==> l.server.reading.Framing? && l.server.validations == 1
  {
    hide E.Scramble, Word, HeaderBytes, W.WriteWord;
    var h := HeaderBytes(m.header);
    steps := [AtClient(E.Post(E.SendJob(m))), AtClient(E.RunJob), AtClient(E.Emit(0, 8)), AtServer(E.Arrive(h)),
              AtServer(E.ReadDone)];
    var l0 := Start(word, []);
    var l1 := Apply(l0, steps[0]);
    var l2 := Apply(l1, steps[1]);
    assert l2.client.out.ops == [W.WriteOp(W.HeaderWrite, h)];
    var l3 := Apply(l2, steps[2]);
    assert l3.client.out.sent == h;
    var l4 := Apply(l3, steps[3]);
    assert l4.server.reader.got == h && l4.server.received == h;
    l := Apply(l4, steps[4]);
    assert Run(l4, steps[4..], l);
    assert Run(l3, steps[3..], l) by { assert steps[3..][1..] == steps[4..]; }
    assert Run(l2, steps[2..], l) by { assert steps[2..][1..] == steps[3..]; }
    assert Run(l1, steps[1..], l) by { assert steps[1..][1..] == steps[2..]; }
  }

  lemma FirstBytesReceived(l: Link)
    requires Inv(l) && |l.server.received| >= 8
    ensures l.client.early ==>
              l.client.out.pushed != [] &&
              l.server.received[..8] == HeaderBytes(l.client.out.pushed[0].header)
    ensures !l.client.early ==>
              l.client.out.wordAt == W.At(0) &&
              Word(l.server.received[..8]) == E.Scramble(l.server.out.word)
  {
    hide E.Inv, E.Scramble;
    ClientFirstBytes(l.client);
    assert l.server.received[..8] == l.client.out.sent[..8];
    if !l.client.early {
      ClientWord(l);
      WordOfImage(l.client.out.word);
    }
  }

  /** A header whose id is not a multiple of 16 is never taken for a handshake reply. */
  lemma HeaderIsNoReply(h: Header, x: u64)
    requires h.id % 16 != 0
    ensures Word(HeaderBytes(h)) != E.Scramble(x)
  {
    hide E.Scramble;
    E.ScrambleIsMultipleOf16(x);
    var b := HeaderBytes(h);
    assert b[0] == h.id % 256;
    LowDigit(h.id, Value(b[1..]));
  }

  lemma LowDigit(x: nat, y: nat)
    ensures (x % 256 + 256 * y) % 16 == x % 16
  {
  }

  /** A server end whose first bytes fail its check delivers nothing. */
  lemma WrongReplyDeliversNothing(e: E.End)
    requires E.Inv(e) && e.owner.ServerEnd?
    requires |e.received| >= 8 ==> Word(e.received[..8]) != e.check
    ensures e.reader.delivered == [] && e.validations == 0
  {
    hide W.Inv, E.HandshakeInv, E.InSync, Waiting, Word, E.Scramble;
  }

  lemma ServerCheck(e: E.End)
    requires E.Inv(e) && e.owner.ServerEnd?
    ensures e.check == E.Scramble(e.out.word) && e.out.wordAt == W.At(0)
  {
    hide W.Inv, E.Scramble;
  }

  lemma EarlySendDeliversNothing(l: Link)
    requires Inv(l) && l.client.early
    requires |l.server.received| >= 8 ==>
               l.client.out.pushed != [] && l.client.out.pushed[0].header.id % 16 != 0
    ensures l.server.reader.delivered == [] && l.server.validations == 0
  {
    hide E.Inv, E.Scramble, Word;
    ServerCheck(l.server);
    if |l.server.received| >= 8 {
      FirstBytesReceived(l);
      HeaderIsNoReply(l.client.out.pushed[0].header, l.server.out.word);
    }
    WrongReplyDeliversNothing(l.server);
  }

  /** A client that sends early, with a first id that is not a multiple of 16, is never validated and has nothing
      delivered, in any run. */
  lemma EarlySendIsRejected(word: u64, jobs: seq<E.Job>, steps: seq<Step>, l: Link)
    requires Run(Start(word, jobs), steps, l) && l.client.early
    requires l.client.out.pushed != [] && l.client.out.pushed[0].header.id % 16 != 0
    ensures l.server.reader.delivered == [] && l.server.validations == 0
  {
    hide Run, Inv;
    StartInv(word, jobs);
    RunKeepsInv(Start(word, jobs), steps, l);
    EarlySendDeliversNothing(l);
  }

  // ---- The channel ----

  /** What an end delivered is part of what a reader of everything it received after the handshake delivers. */
  lemma DeliveredPart(e: E.End)
    requires E.Inv(e)
    ensures |e.received| < 8 ==> e.reader.delivered == [] && e.reader.frames == []
    ensures |e.received| >= 8 ==>
              var r := Feed(INITIAL_READER, e.received[8..]);
              e.reader.delivered <= r.delivered && e.reader.frames <= r.frames
  {
    hide W.Inv, E.HandshakeInv, Feed, Word, Image, E.Scramble;
    if |e.received| >= 8 {
      FeedAppends(INITIAL_READER, e.received[8..]);
    }
  }

  lemma AfterWord(got: seq<byte>, sent: seq<byte>, word: u64, rest: seq<byte>)
    requires got <= sent && sent <= Image(word, 8) + rest && |got| >= 8
    ensures got[8..] <= rest
  {
    assert got <= Image(word, 8) + rest;
    assert (Image(word, 8) + rest)[8..] == rest;
  }

  /** One direction: `e` receives from `peer`, whose word was the first thing it wrote. */
  lemma ChannelRefines(e: E.End, peer: E.End)
    requires E.Inv(e) && E.Inv(peer) && e.received <= peer.out.sent
    requires |e.received| >= 8 ==> peer.out.wordAt == W.At(0)
    requires forall m | m in peer.out.pushed :: WellFormed(m)
    ensures |e.received| >= 8 ==> e.received[8..] <= EncodeAll(peer.out.pushed)
    ensures e.reader.frames <= peer.out.pushed
    ensures e.reader.delivered <= Sticky([], peer.out.pushed)
  {
    hide E.Inv, W.Inv, Feed;
    DeliveredPart(e);
    if |e.received| >= 8 {
      OutInv(peer);
      W.SentIsPrefix(peer.out);
      AfterWord(e.received, peer.out.sent, peer.out.word, EncodeAll(peer.out.pushed));
      FeedPrefix(peer.out.pushed, e.received[8..]);
    }
  }

  lemma OutInv(e: E.End)
    requires E.Inv(e)
    ensures W.Inv(e.out)
    ensures e.owner.ServerEnd? ==> e.out.wordAt == W.At(0)
  {
    hide W.Inv;
  }

  /** Channel refinement, server to client: in every run, whatever fails or closes, the bytes after the handshake
      word are message encodings from the first on, and the client has delivered a prefix of the sticky image of
      what was pushed at the server, in push order. */
  lemma ClientDeliversServerMessages(word: u64, jobs: seq<E.Job>, steps: seq<Step>, l: Link)
    requires Run(Start(word, jobs), steps, l)
    requires forall m | m in l.server.out.pushed :: WellFormed(m)
    ensures |l.client.received| >= 8 ==> l.client.received[8..] <= EncodeAll(l.server.out.pushed)
    ensures l.client.reader.frames <= l.server.out.pushed
    ensures l.client.reader.delivered <= Sticky([], l.server.out.pushed)
  {
    hide Run, E.Inv;
    StartInv(word, jobs);
    RunKeepsInv(Start(word, jobs), steps, l);
    OutInv(l.server);
    ChannelRefines(l.client, l.server);
  }

  /** Channel refinement, client to server, unless the client sent early. */
  lemma ServerDeliversClientMessages(word: u64, jobs: seq<E.Job>, steps: seq<Step>, l: Link)
    requires Run(Start(word, jobs), steps, l)
    requires forall m | m in l.client.out.pushed :: WellFormed(m)
    requires !l.client.early
    ensures |l.server.received| >= 8 ==> l.server.received[8..] <= EncodeAll(l.client.out.pushed)
    ensures l.server.reader.frames <= l.client.out.pushed
    ensures l.server.reader.delivered <= Sticky([], l.client.out.pushed)
  {
    hide Run, E.Inv;
    StartInv(word, jobs);
    RunKeepsInv(Start(word, jobs), steps, l);
    if |l.server.received| >= 8 {
      FirstBytesReceived(l);
    }
    ChannelRefines(l.server, l.client);
  }
}
