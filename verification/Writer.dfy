/** The outgoing side of a connection: its message queue, the write operations it has started on the socket, and
    what has left the socket so far. */
module Writer {
  import opened Bytes
  import opened Messages
  import opened Framing

  datatype WriteKind = WordWrite | HeaderWrite | BodyWrite

  /** An `async_write` that has been started and whose handler has not run; `rest` has not left the socket yet. */
  datatype WriteOp = WriteOp(kind: WriteKind, rest: seq<byte>)

  /** `queue` is `m_qMessagesOut`, `ops` the writes started and not yet handled, in start order, and `word` the
      handshake word `m_nHandshakeOut`. The other fields are history: every message ever pushed, whether the
      body write of the front message was started, how many message bytes had been started when the handshake
      write was (`None` before), whether its handler ran, all bytes that left the socket, all bytes of failed
      writes that did not, and whether `front` or `pop_front` was ever called on the empty queue. */
  datatype Out = Out(
    queue: seq<Msg>, ops: seq<WriteOp>, word: u64,
    pushed: seq<Msg>, bodyStarted: bool, wordAt: Pos, wordDone: bool,
    sent: seq<byte>, unsent: seq<byte>, fault: bool)

  datatype Pos = Never | At(bytes: nat)

  const INITIAL_OUT := Out([], [], 0, [], false, Never, false, [], [], false)

  // ---- The operations ----

  function Start(w: Out, kind: WriteKind, bytes: seq<byte>): Out {
    w.(ops := w.ops + [WriteOp(kind, bytes)])
  }

  function WriteHeader(w: Out): Out {
    if w.queue == [] then w.(fault := true)
    else Start(w, HeaderWrite, HeaderBytes(w.queue[0].header))
  }

  function WriteBody(w: Out): Out {
    if w.queue == [] then w.(fault := true)
    else Start(w, BodyWrite, w.queue[0].body).(bodyStarted := true)
  }

  /** The job that `Send` posts. */
  function SendJob(w: Out, m: Msg): Out {
    var w' := w.(queue := w.queue + [m], pushed := w.pushed + [m]);
    if w.queue != [] then w' else WriteHeader(w')
  }

  function PopAndContinue(w: Out): Out {
    if w.queue == [] then w.(fault := true) else
    var w' := w.(queue := w.queue[1..], bodyStarted := false);
    if w'.queue != [] then WriteHeader(w') else w'
  }

  function OnHeaderWritten(w: Out): Out {
    if w.queue == [] then w.(fault := true)
    else if |w.queue[0].body| > 0 then WriteBody(w) else PopAndContinue(w)
  }

  function WriteWord(w: Out, word: u64): Out {
    Start(w, WordWrite, Image(word, 8)).(word := word, wordAt := At(|Started(w)|))
  }

  /** The handler of the oldest write, all of whose bytes have left. */
  function OnWritten(w: Out): Out
    requires w.ops != []
  {
    var w' := w.(ops := w.ops[1..]);
    match w.ops[0].kind
    case WordWrite => w'.(wordDone := true)
    case HeaderWrite => OnHeaderWritten(w')
    case BodyWrite => PopAndContinue(w')
  }

  /** The handler of the oldest write when it failed: what it had left will never leave. */
  function OnWriteFailed(w: Out): Out
    requires w.ops != []
  {
    w.(ops := w.ops[1..], unsent := w.unsent + w.ops[0].rest)
  }

  /** Bytes leave in the order the writes were started. */
  predicate CanEmit(w: Out, i: nat, k: nat) {
    i < |w.ops| && 0 < k <= |w.ops[i].rest| && forall j :: 0 <= j < i ==> w.ops[j].rest == []
  }

  function Emit(w: Out, i: nat, k: nat): Out
    requires CanEmit(w, i, k)
  {
    var rest := w.ops[i].rest;
    w.(ops := w.ops[i := w.ops[i].(rest := rest[k..])], sent := w.sent + rest[..k])
  }

  // ---- The stream this side has started to write ----

  function Popped(w: Out): seq<Msg> {
    if |w.queue| <= |w.pushed| then w.pushed[..|w.pushed| - |w.queue|] else []
  }

  /** The part of the front message whose writing was started. */
  function FrontStarted(w: Out): seq<byte> {
    if w.queue == [] then []
    else if w.bodyStarted then Encode(w.queue[0])
    else HeaderBytes(w.queue[0].header)
  }

  /** All message bytes whose writing was started. */
  function Started(w: Out): seq<byte> {
    EncodeAll(Popped(w)) + FrontStarted(w)
  }

  /** `stream` with the handshake word spliced in where its write was started. */
  function Weave(at: Pos, word: u64, stream: seq<byte>): seq<byte> {
    if at.At? && at.bytes <= |stream| then stream[..at.bytes] + Image(word, 8) + stream[at.bytes..] else stream
  }

  function Pending(ops: seq<WriteOp>): seq<byte> {
    if ops == [] then [] else ops[0].rest + Pending(ops[1..])
  }

  predicate IsMessageOp(op: WriteOp) {
    !op.kind.WordWrite?
  }

  predicate HasMessageOp(ops: seq<WriteOp>) {
    ops != [] && (IsMessageOp(ops[0]) || HasMessageOp(ops[1..]))
  }

  predicate HasWordOp(ops: seq<WriteOp>) {
    ops != [] && (!IsMessageOp(ops[0]) || HasWordOp(ops[1..]))
  }

  /** An operation in flight matches what the queue and the handshake say was started. */
  predicate OpFits(w: Out, op: WriteOp) {
    match op.kind
    case WordWrite => w.wordAt.At? && !w.wordDone && |op.rest| <= 8
    case HeaderWrite => w.queue != [] && !w.bodyStarted && |op.rest| <= HEADER_BYTES
    case BodyWrite => w.queue != [] && w.bodyStarted && |op.rest| <= |w.queue[0].body|
  }

  /** What is in flight: at most one message write and at most one handshake write. Unless a write has failed,
      there is a message write exactly when the queue is not empty, and a handshake write exactly between its
      start and its handler. */
  predicate Flight(w: Out) {
    && |w.ops| <= 2
    && (|w.ops| == 2 ==> IsMessageOp(w.ops[0]) != IsMessageOp(w.ops[1]))
    && (forall i :: 0 <= i < |w.ops| ==> OpFits(w, w.ops[i]))
    && (w.unsent == [] && w.queue != [] ==> HasMessageOp(w.ops))
    && (w.unsent == [] && w.wordAt.At? && !w.wordDone ==> HasWordOp(w.ops))
    && (|w.ops| == 2 && w.ops[1].rest == [] ==> w.ops[0].rest == [])
    && (w.unsent != [] ==> forall i :: 0 <= i < |w.ops| ==> w.ops[i].rest != [])
  }

  /** The queue holds the last messages pushed. */
  predicate Queued(w: Out) {
    && |w.queue| <= |w.pushed|
    && w.queue == w.pushed[|w.pushed| - |w.queue|..]
    && (w.bodyStarted ==> w.queue != [] && w.queue[0].body != [])
  }

  /** Every byte whose write was started has left, was lost to a failed write, or is still in flight, in that
      order; and at most the started part of the front message and the handshake word are not out yet. */
  predicate Conserved(w: Out) {
    && (w.wordAt.At? ==> w.wordAt.bytes <= |Started(w)|)
    && (w.wordDone ==> w.wordAt.At?)
    && Weave(w.wordAt, w.word, Started(w)) == w.sent + w.unsent + Pending(w.ops)
    && |w.unsent| + |Pending(w.ops)| <= |FrontStarted(w)| + if w.wordAt.At? && !w.wordDone then 8 else 0
  }

  /** When the handshake word was started first, no message is past its header before the word is out. */
  predicate WordFirst(w: Out) {
    w.wordAt == At(0) && !w.wordDone ==>
      Popped(w) == [] && !w.bodyStarted && (w.unsent != [] || (w.ops != [] && w.ops[0].kind.WordWrite?))
  }

  predicate Inv(w: Out) {
    Queued(w) && Flight(w) && Conserved(w) && WordFirst(w) && !w.fault
  }

  // ---- Every operation keeps the invariant ----

  lemma WeaveAppend(at: Pos, word: u64, s: seq<byte>, t: seq<byte>)
    requires at.At? ==> at.bytes <= |s|
    ensures Weave(at, word, s + t) == Weave(at, word, s) + t
  {
    if at.At? {
      assert (s + t)[..at.bytes] == s[..at.bytes] && (s + t)[at.bytes..] == s[at.bytes..] + t;
    }
  }

  lemma {:induction false} PendingSnoc(ops: seq<WriteOp>, op: WriteOp)
    ensures Pending(ops + [op]) == Pending(ops) + op.rest
  {
    if ops == [] {
      assert ops + [op] == [op] && [op][1..] == [];
    } else {
      assert (ops + [op])[1..] == ops[1..] + [op];
      PendingSnoc(ops[1..], op);
    }
  }

  lemma WeaveAtStart(word: u64, s: seq<byte>)
    ensures Weave(At(0), word, s) == Image(word, 8) + s
  {
    assert s[..0] + Image(word, 8) + s[0..] == Image(word, 8) + s;
  }

  lemma Regroup(a: seq<byte>, b: seq<byte>, c: seq<byte>, d: seq<byte>)
    ensures a + b + c == a + (b + c)
    ensures a + b + c + d == a + b + (c + d)
    ensures a + b + (c + d) == a + (b + c) + d
    ensures a + [] + (c + d) == a + c + [] + d
  {
  }

  /** The equation of `Conserved` when one more write is started. */
  lemma StartKeepsBytes(w: Out, w': Out, kind: WriteKind, bytes: seq<byte>)
    requires w.wordAt.At? ==> w.wordAt.bytes <= |Started(w)|
    requires Weave(w.wordAt, w.word, Started(w)) == w.sent + w.unsent + Pending(w.ops)
    requires Started(w') == Started(w) + bytes
    requires w'.ops == w.ops + [WriteOp(kind, bytes)] && w'.wordAt == w.wordAt && w'.word == w.word
    requires w'.sent == w.sent && w'.unsent == w.unsent
    ensures Weave(w'.wordAt, w'.word, Started(w')) == w'.sent + w'.unsent + Pending(w'.ops)
    ensures |Pending(w'.ops)| == |Pending(w.ops)| + |bytes|
  {
    WeaveAppend(w.wordAt, w.word, Started(w), bytes);
    PendingSnoc(w.ops, WriteOp(kind, bytes));
    Regroup(w.sent, w.unsent, Pending(w.ops), bytes);
  }

  lemma SendJobQueues(w: Out, m: Msg)
    requires Queued(w) && Flight(w)
    ensures Queued(SendJob(w, m)) && Flight(SendJob(w, m))
    ensures Popped(SendJob(w, m)) == Popped(w)
  {
    assert w.queue == [] ==> |w.ops| <= 1;
  }

  lemma SendJobConserves(w: Out, m: Msg)
    requires Queued(w) && Conserved(w)
    ensures Conserved(SendJob(w, m))
  {
    hide Weave, Pending;
    var w' := SendJob(w, m);
    assert Popped(w') == Popped(w);
    if w.queue == [] {
      var h := HeaderBytes(m.header);
      assert FrontStarted(w') == h && FrontStarted(w) == [];
      assert EncodeAll(Popped(w)) + [] == EncodeAll(Popped(w));
      StartKeepsBytes(w, w', HeaderWrite, h);
    } else {
      assert FrontStarted(w') == FrontStarted(w);
    }
  }

  lemma SendJobKeepsInv(w: Out, m: Msg)
    requires Inv(w)
    ensures Inv(SendJob(w, m))
  {
    SendJobQueues(w, m);
    SendJobConserves(w, m);
  }

  /** No message write is in flight, and no write has failed. */
  predicate Between(w: Out) {
    && Queued(w) && Conserved(w) && !w.fault
    && w.unsent == [] && |w.ops| <= 1
    && (forall i :: 0 <= i < |w.ops| ==> w.ops[i].kind.WordWrite? && OpFits(w, w.ops[i]))
    && (w.wordAt.At? && !w.wordDone ==> w.ops != [] && w.wordAt != At(0))
  }

  lemma MessageWritten(w: Out)
    requires Inv(w) && w.ops != [] && w.ops[0].rest == [] && IsMessageOp(w.ops[0])
    ensures Between(w.(ops := w.ops[1..]))
  {
    var w' := w.(ops := w.ops[1..]);
    assert HasWordOp(w.ops) == HasWordOp(w'.ops);
    assert Pending(w.ops) == Pending(w'.ops);
    assert |Pending(w'.ops)| <= 8;
  }

  lemma WriteBodyConserves(w: Out)
    requires Between(w) && w.queue != [] && !w.bodyStarted
    ensures Conserved(WriteBody(w))
  {
    var w' := WriteBody(w);
    assert Popped(w') == Popped(w);
    var e, h, b := EncodeAll(Popped(w)), HeaderBytes(w.queue[0].header), w.queue[0].body;
    Regroup(e, h, b, []);
    StartKeepsBytes(w, w', BodyWrite, b);
  }

  lemma WriteBodyKeepsInv(w: Out)
    requires Between(w) && w.queue != [] && !w.bodyStarted && w.queue[0].body != []
    ensures Inv(WriteBody(w))
  {
    WriteBodyConserves(w);
    assert Popped(WriteBody(w)) == Popped(w);
  }

  lemma PopMovesFront(w: Out)
    requires Queued(w) && w.queue != []
    ensures var w' := w.(queue := w.queue[1..], bodyStarted := false);
            Queued(w') && Popped(w') == Popped(w) + [w.queue[0]] &&
            EncodeAll(Popped(w')) == EncodeAll(Popped(w)) + Encode(w.queue[0])
  {
    var n := |w.pushed| - |w.queue|;
    assert w.pushed[n] == w.queue[0];
    assert w.pushed[..n + 1] == w.pushed[..n] + [w.queue[0]];
    EncodeAllSnoc(w.pushed[..n], w.queue[0]);
  }

  lemma PopConserves(w: Out)
    requires Between(w) && w.queue != [] && FrontStarted(w) == Encode(w.queue[0])
    ensures Conserved(PopAndContinue(w))
  {
    PopMovesFront(w);
    var w1 := w.(queue := w.queue[1..], bodyStarted := false);
    var w' := PopAndContinue(w);
    assert Popped(w') == Popped(w1);
    var e := EncodeAll(Popped(w1));
    if w1.queue == [] {
      assert e + [] == e;
    } else {
      var h := HeaderBytes(w1.queue[0].header);
      StartKeepsBytes(w, w', HeaderWrite, h);
    }
  }

  lemma PopFlight(w: Out)
    requires Between(w) && w.queue != []
    ensures Flight(PopAndContinue(w)) && WordFirst(PopAndContinue(w))
  {
  }

  lemma PopKeepsInv(w: Out)
    requires Between(w) && w.queue != [] && FrontStarted(w) == Encode(w.queue[0])
    ensures Inv(PopAndContinue(w))
  {
    PopConserves(w);
    PopMovesFront(w);
    PopFlight(w);
    assert Popped(PopAndContinue(w)) == Popped(w.(queue := w.queue[1..], bodyStarted := false));
  }

  lemma OnWordWrittenConserves(w: Out)
    requires Inv(w) && w.ops != [] && w.ops[0].rest == [] && w.ops[0].kind.WordWrite?
    ensures Conserved(w.(ops := w.ops[1..], wordDone := true))
  {
    hide Weave, FrontStarted, Encode, HasMessageOp, HasWordOp, EncodeAll;
    var w' := w.(ops := w.ops[1..], wordDone := true);
    assert Popped(w') == Popped(w) && FrontStarted(w') == FrontStarted(w) by { SameStarted(w, w'); }
    hide Popped;
    assert Pending(w.ops) == Pending(w'.ops);
    if w'.ops != [] {
      assert OpFits(w, w.ops[1]) && IsMessageOp(w.ops[1]) && w.ops[1..] == [w.ops[1]];
      assert |Pending(w'.ops)| <= |FrontStarted(w)| by { OneOpPending(w, w.ops[1]); }
    }
  }

  lemma SameStarted(w: Out, w': Out)
    requires w'.queue == w.queue && w'.pushed == w.pushed && w'.bodyStarted == w.bodyStarted
    ensures Popped(w') == Popped(w) && FrontStarted(w') == FrontStarted(w)
  {
  }

  lemma OneOpPending(w: Out, op: WriteOp)
    requires OpFits(w, op) && IsMessageOp(op)
    ensures |Pending([op])| <= |FrontStarted(w)|
  {
    assert [op][1..] == [];
  }

  lemma OnWordWrittenFlight(w: Out)
    requires Inv(w) && w.ops != [] && w.ops[0].rest == [] && w.ops[0].kind.WordWrite?
    ensures Flight(w.(ops := w.ops[1..], wordDone := true))
  {
    hide Conserved, WordFirst, Queued;
  }

  lemma OnWordWrittenKeepsInv(w: Out)
    requires Inv(w) && w.ops != [] && w.ops[0].rest == [] && w.ops[0].kind.WordWrite?
    ensures Inv(OnWritten(w))
  {
    OnWordWrittenConserves(w);
    OnWordWrittenFlight(w);
    hide Flight, Conserved, Popped;
  }

  lemma OnWrittenKeepsInv(w: Out)
    requires Inv(w) && w.ops != [] && w.ops[0].rest == []
    ensures Inv(OnWritten(w))
  {
    if w.ops[0].kind.WordWrite? {
      OnWordWrittenKeepsInv(w);
    } else {
      var w' := w.(ops := w.ops[1..]);
      MessageWritten(w);
      if w.ops[0].kind.HeaderWrite? && w.queue[0].body != [] {
        WriteBodyKeepsInv(w');
      } else {
        assert HeaderBytes(w.queue[0].header) + [] == HeaderBytes(w.queue[0].header);
        PopKeepsInv(w');
      }
    }
  }

  lemma {:induction false} EncodeAllLength(ms: seq<Msg>)
    ensures |EncodeAll(ms)| >= HEADER_BYTES * |ms|
    decreases |ms|
  {
    if ms != [] {
      EncodeAllLength(ms[..|ms| - 1]);
    }
  }

  lemma WriteWordConserves(w: Out, word: u64)
    requires Conserved(w) && w.wordAt.Never?
    ensures Conserved(WriteWord(w, word))
  {
    var w' := WriteWord(w, word);
    var i := Image(word, 8);
    assert Popped(w') == Popped(w) && Started(w') == Started(w);
    PendingSnoc(w.ops, WriteOp(WordWrite, i));
    var s := Started(w);
    assert s[..|s|] == s && s[|s|..] == [];
    assert s + i + [] == s + i;
    Regroup(w.sent, w.unsent, Pending(w.ops), i);
  }

  lemma WriteWordFlight(w: Out, word: u64)
    requires Queued(w) && Flight(w) && w.wordAt.Never? && !w.wordDone
    ensures Queued(WriteWord(w, word)) && Flight(WriteWord(w, word))
  {
    hide Started;
    var w' := WriteWord(w, word);
    var op := WriteOp(WordWrite, Image(word, 8));
    assert |op.rest| == 8 && HasWordOp([op]) && OpFits(w', op);
    if w.ops == [] {
      assert w'.ops == [op];
    } else {
      var x := w.ops[0];
      assert OpFits(w, x) && IsMessageOp(x);
      assert w.ops == [x] && w'.ops == [x, op] && w'.ops[1..] == [op];
      assert OpFits(w', x) && HasMessageOp(w'.ops) && HasWordOp(w'.ops);
    }
  }

  lemma WriteWordComesFirst(w: Out, word: u64)
    requires Queued(w) && Flight(w) && w.wordAt.Never?
    ensures WordFirst(WriteWord(w, word))
  {
    hide Started, Image;
    assert Popped(WriteWord(w, word)) == Popped(w);
    if Started(w) == [] {
      NothingStarted(w);
    }
  }

  lemma NothingStarted(w: Out)
    requires Started(w) == []
    ensures Popped(w) == [] && w.queue == []
  {
    EncodeAllLength(Popped(w));
  }

  lemma WriteWordKeepsInv(w: Out, word: u64)
    requires Inv(w) && w.wordAt.Never?
    ensures Inv(WriteWord(w, word))
  {
    hide Started, Flight, Queued, WordFirst, Pending, Weave;
    WriteWordConserves(w, word);
    WriteWordFlight(w, word);
    WriteWordComesFirst(w, word);
  }

  lemma OnWriteFailedConserves(w: Out)
    requires Conserved(w) && w.ops != []
    ensures Conserved(OnWriteFailed(w))
  {
    var w' := OnWriteFailed(w);
    assert Popped(w') == Popped(w) && Started(w') == Started(w);
    var rest, tail := w.ops[0].rest, Pending(w.ops[1..]);
    Regroup(w.sent, w.unsent, rest, tail);
  }

  lemma OnWriteFailedKeepsInv(w: Out)
    requires Inv(w) && w.ops != [] && w.ops[0].rest != []
    ensures Inv(OnWriteFailed(w))
  {
    OnWriteFailedConserves(w);
    assert Popped(OnWriteFailed(w)) == Popped(w);
  }

  lemma EmitConserves(w: Out, i: nat, k: nat)
    requires Conserved(w) && CanEmit(w, i, k) && w.unsent == []
    ensures Conserved(Emit(w, i, k))
  {
    var w' := Emit(w, i, k);
    var now := w.ops[i].rest[..k];
    assert Popped(w') == Popped(w) && Started(w') == Started(w);
    EmitPending(w, i, k);
    var later := Pending(w'.ops);
    Regroup(w.sent, [], now, later);
  }

  lemma EmitKeepsInv(w: Out, i: nat, k: nat)
    requires Inv(w) && CanEmit(w, i, k) && w.unsent == []
    ensures Inv(Emit(w, i, k))
  {
    EmitConserves(w, i, k);
    assert Popped(Emit(w, i, k)) == Popped(w);
  }

  lemma {:induction false} EmitPending(w: Out, i: nat, k: nat)
    requires CanEmit(w, i, k)
    ensures Pending(w.ops) == w.ops[i].rest[..k] + Pending(Emit(w, i, k).ops)
    decreases i
  {
    var ops' := Emit(w, i, k).ops;
    if i == 0 {
      assert ops'[1..] == w.ops[1..];
      var rest := w.ops[0].rest;
      assert rest == rest[..k] + rest[k..];
    } else {
      var v := w.(ops := w.ops[1..]);
      EmitPending(v, i - 1, k);
      assert Emit(v, i - 1, k).ops == ops'[1..];
    }
  }

  // ---- What the operations leave alone ----

  lemma SendJobFrame(w: Out, m: Msg)
    ensures var w' := SendJob(w, m);
            && w'.word == w.word && w'.wordAt == w.wordAt && w'.wordDone == w.wordDone
            && w'.sent == w.sent && w'.unsent == w.unsent && w'.pushed == w.pushed + [m] && w'.queue == w.queue + [m]
  {
  }

  lemma OnWrittenFrame(w: Out)
    requires w.ops != []
    ensures var w' := OnWritten(w);
            && w'.word == w.word && w'.wordAt == w.wordAt
            && w'.wordDone == (w.wordDone || w.ops[0].kind.WordWrite?)
            && w'.sent == w.sent && w'.unsent == w.unsent && w'.pushed == w.pushed
  {
  }

  lemma HeadFits(w: Out)
    requires Inv(w) && w.ops != []
    ensures OpFits(w, w.ops[0])
  {
  }

  lemma {:induction false} MessageOpAt(ops: seq<WriteOp>) returns (i: nat)
    requires HasMessageOp(ops)
    ensures i < |ops| && IsMessageOp(ops[i])
  {
    if IsMessageOp(ops[0]) {
      i := 0;
    } else {
      i := MessageOpAt(ops[1..]);
      i := i + 1;
    }
  }

  lemma OneMessageWrite(w: Out)
    requires Inv(w)
    ensures forall i, j :: 0 <= i < j < |w.ops| ==> !(IsMessageOp(w.ops[i]) && IsMessageOp(w.ops[j]))
    ensures w.unsent == [] ==> (w.queue != [] <==> HasMessageOp(w.ops))
    ensures !w.fault
  {
    hide Conserved, WordFirst, Queued;
    if HasMessageOp(w.ops) {
      var i := MessageOpAt(w.ops);
      assert OpFits(w, w.ops[i]);
    }
  }

  // ---- What this says about the wire ----

  lemma StartedIsPrefix(w: Out)
    requires Queued(w)
    ensures Started(w) <= EncodeAll(w.pushed)
  {
    EncodeAllConcat(Popped(w), w.queue);
    assert Popped(w) + w.queue == w.pushed;
    if w.queue != [] {
      EncodeAllHead(w.queue);
      FrontIsPrefix(w);
    }
  }

  lemma FrontIsPrefix(w: Out)
    requires w.queue != []
    ensures FrontStarted(w) <= Encode(w.queue[0])
  {
  }

  lemma WovenAtStart(w: Out)
    requires Conserved(w) && w.wordAt == At(0)
    ensures w.sent + (w.unsent + Pending(w.ops)) == Image(w.word, 8) + Started(w)
  {
    WeaveAtStart(w.word, Started(w));
    Regroup(w.sent, w.unsent, Pending(w.ops), []);
  }

  lemma PrefixOf(a: seq<byte>, b: seq<byte>, x: seq<byte>, y: seq<byte>, z: seq<byte>)
    requires a + b == x + y && y <= z
    ensures a <= x + z
  {
    assert x + y <= x + z;
    assert a <= a + b;
  }

  /** All bytes that have left are a prefix of the handshake word followed by the messages pushed. */
  lemma SentIsPrefix(w: Out)
    requires Inv(w) && w.wordAt == At(0)
    ensures w.sent <= Image(w.word, 8) + EncodeAll(w.pushed)
  {
    StartedIsPrefix(w);
    WovenAtStart(w);
    PrefixOf(w.sent, w.unsent + Pending(w.ops), Image(w.word, 8), Started(w), EncodeAll(w.pushed));
  }

  lemma WeavePrefix(at: Pos, word: u64, s: seq<byte>, t: seq<byte>)
    requires s <= t && (at.At? ==> at.bytes <= |s|)
    ensures Weave(at, word, s) <= Weave(at, word, t)
  {
    var rest := t[|s|..];
    assert t == s + rest;
    WeaveAppend(at, word, s, rest);
  }

  /** In general, the handshake word sits in the stream where its write was started. */
  lemma SentIsWovenPrefix(w: Out)
    requires Inv(w)
    ensures w.sent <= Weave(w.wordAt, w.word, EncodeAll(w.pushed))
  {
    hide Started, Weave;
    StartedIsPrefix(w);
    WeavePrefix(w.wordAt, w.word, Started(w), EncodeAll(w.pushed));
    Regroup(w.sent, w.unsent, Pending(w.ops), []);
    assert w.sent <= w.sent + (w.unsent + Pending(w.ops));
  }

  /** Once anything was pushed, at least a header was started. */
  lemma StartedIfPushed(w: Out)
    requires Inv(w)
    ensures w.pushed == [] ==> Started(w) == []
    ensures w.pushed != [] ==> |Started(w)| >= HEADER_BYTES
  {
    EncodeAllLength(Popped(w));
  }

  lemma NothingPushed(w: Out)
    requires Inv(w) && w.pushed == [] && w.wordAt.Never?
    ensures w.sent == []
  {
    StartedIfPushed(w);
  }

  lemma ShorterPrefix(a: seq<byte>, b: seq<byte>, x: seq<byte>, y: seq<byte>)
    requires a + b == x + y && |b| <= |y|
    ensures x <= a
  {
    assert x == (x + y)[..|x|] == (a + b)[..|x|] == a[..|x|];
  }

  lemma WordSent(w: Out)
    requires Conserved(w) && w.wordAt == At(0) && w.wordDone
    ensures Image(w.word, 8) + EncodeAll(Popped(w)) <= w.sent
  {
    hide Weave, Pending, FrontStarted, Popped;
    WovenAtStart(w);
    Regroup(Image(w.word, 8), EncodeAll(Popped(w)), FrontStarted(w), []);
    ShorterPrefix(w.sent, w.unsent + Pending(w.ops), Image(w.word, 8) + EncodeAll(Popped(w)), FrontStarted(w));
  }

  /** The wire history of a side that started its handshake word first: the word, then the encodings of exactly
      the messages popped, in push order, then a part of the front message. */
  lemma WireHistory(w: Out)
    requires Inv(w) && w.wordAt == At(0)
    ensures w.wordDone ==> Image(w.word, 8) + EncodeAll(Popped(w)) <= w.sent
    ensures w.sent <= Image(w.word, 8) + EncodeAll(Popped(w)) + (if w.queue == [] then [] else Encode(w.queue[0]))
    ensures !w.wordDone ==> Popped(w) == []
    ensures w.pushed == Popped(w) + w.queue
  {
    hide Weave, Pending, Encode, Image;
    if w.wordDone {
      WordSent(w);
    }
    if w.queue != [] {
      FrontIsPrefix(w);
    }
    WovenAtStart(w);
    var word, popped, front := Image(w.word, 8), EncodeAll(Popped(w)), FrontStarted(w);
    Regroup(word, popped, front, []);
    PrefixOf(w.sent, w.unsent + Pending(w.ops), word + popped, front, if w.queue == [] then [] else Encode(w.queue[0]));
  }
}
