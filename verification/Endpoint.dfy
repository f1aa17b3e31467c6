/** One end of a connection: an asynchronous state machine driven by posted jobs, by the bytes that leave and
    arrive at its socket, and by the handlers of the operations it has in flight. */
module Endpoint {
  import opened Bytes
  import opened Messages
  import opened Framing
  import Writer

  datatype Owner = ClientEnd | ServerEnd

  // ---- Scramble ----

  function ScrambleBits(x: bv64): bv64 {
    var out := x ^ 0xDDFAC06302AD3;
    ((out & 0xADFCB27610439B) >> 16) | ((out & 0x3726327AD) << 16)
  }

  function Scramble(x: u64): u64 {
    ScrambleBits(x as bv64) as u64
  }

  /** Bit `i` of `x`, for `i` below 64. */
  predicate Bit(x: bv64, i: bv64)
    requires i < 64
  {
    (x >> i) & 1 == 1
  }

  /** What scrambling computes, bit by bit: bit `i` comes from bit `i + 16` or `i - 16` of the keyed word, where the
      respective mask lets it through. */
  lemma ScrambleBitwise(x: bv64, i: bv64)
    requires i < 64
    ensures Bit(ScrambleBits(x), i) <==>
            || (i < 48 && Bit(x, i + 16) != Bit(0xDDFAC06302AD3, i + 16) && Bit(0xADFCB27610439B, i + 16))
            || (i >= 16 && Bit(x, i - 16) != Bit(0xDDFAC06302AD3, i - 16) && Bit(0x3726327AD, i - 16))
  {
  }

  lemma ScrambleBitsLow(x: bv64)
    ensures ScrambleBits(x) & 0xF == 0
  {
  }

  lemma LowBitsToNumber(w: bv64)
    requires w & 0xF == 0
    ensures w as int % 16 == 0
  {
    assert w == (w >> 4) * 16;
  }

  /** Every accepted reply is a multiple of 16. */
  lemma ScrambleIsMultipleOf16(x: u64)
    ensures Scramble(x) % 16 == 0
  {
    ScrambleBitsLow(x as bv64);
    LowBitsToNumber(ScrambleBits(x as bv64));
  }

  /** Scrambling loses information: there is no inverse. */
  lemma ScrambleIsLossy()
    ensures exists x: u64, y: u64 :: x != y && Scramble(x) == Scramble(y)
  {
    assert ScrambleBits(0 as bv64) == ScrambleBits(0x8000_0000_0000_0000 as bv64);
    assert Scramble(0) == Scramble(0x8000_0000_0000_0000);
  }

  // ---- The state ----

  datatype Job = SendJob(msg: Msg) | CloseJob

  /** What the end is reading: the handshake word; nothing, while a client writes its reply; messages; or nothing
      any more, after a failed read or a wrong reply. */
  datatype Reading = AwaitingWord | Replying | Framing | Stopped

  /** `jobs` are posted and not yet run. `reader` holds the read in flight and, once `reading` is `Framing`, the
      message reader. `hin` and `check` are `m_nHandshakeIn` and `m_nHandshakeCheck`. `received` (all bytes ever
      taken from the socket), `validations` (calls of `OnClientValidated`) and `early` (a send job ran before the
      handshake write was started) are history. */
  datatype End = End(
    owner: Owner, open: bool, jobs: seq<Job>, out: Writer.Out,
    reading: Reading, reader: Reader, hin: u64, check: u64,
    received: seq<byte>, validations: nat, early: bool)

  /** A client end whose socket has just connected: it reads the server's word. */
  function NewClient(): End {
    End(ClientEnd, true, [], Writer.INITIAL_OUT, AwaitingWord, INITIAL_READER, 0, 0, [], 0, false)
  }

  /** A server end right after `ConnectToClient`: its word is being written, the reply is being read, and the
      jobs posted by `OnClientConnection` are waiting. */
  function NewServer(word: u64, jobs: seq<Job>): End {
    End(ServerEnd, true, jobs, Writer.WriteWord(Writer.INITIAL_OUT, word), AwaitingWord, INITIAL_READER,
        0, Scramble(word), [], 0, false)
  }

  /** Either end, as it starts. */
  function NewEnd(owner: Owner, word: u64, jobs: seq<Job>): End {
    if owner.ClientEnd? then NewClient() else NewServer(word, jobs)
  }

  // ---- The steps ----

  datatype Step =
    | Post(job: Job)
    | RunJob
    | Emit(op: nat, count: nat)
    | Written
    | WriteFailed
    | Arrive(bytes: seq<byte>)
    | ReadDone
    | ReadFailed

  /** How many bytes the read in flight asks for; 0 when there is none. */
  function Asked(e: End): nat {
    match e.reading
    case AwaitingWord => 8
    case Framing => Need(e.reader)
    case Replying => 0
    case Stopped => 0
  }

  predicate Enabled(e: End, step: Step) {
    match step
    case Post(_) => true
    case RunJob => e.jobs != []
    case Emit(op, count) => e.open && Writer.CanEmit(e.out, op, count)
    case Written => e.out.ops != [] && e.out.ops[0].rest == []
    case WriteFailed => e.out.ops != [] && e.out.ops[0].rest != []
    case Arrive(bytes) => e.open && bytes != [] && |e.reader.got| + |bytes| <= Asked(e)
    case ReadDone => Asked(e) > 0 && |e.reader.got| == Asked(e)
    case ReadFailed => |e.reader.got| < Asked(e)
  }

  function OnJob(e: End): End
    requires e.jobs != []
  {
    var e' := e.(jobs := e.jobs[1..]);
    match e.jobs[0]
    case SendJob(m) => e'.(out := Writer.SendJob(e.out, m), early := e.early || e.out.wordAt.Never?)
    case CloseJob => e'.(open := false)
  }

  function OnWritten(e: End): End
    requires e.out.ops != []
  {
    var e' := e.(out := Writer.OnWritten(e.out));
    if e.out.ops[0].kind.WordWrite? && e.owner.ClientEnd? then e'.(reading := Framing) else e'
  }

  /** The handler of `ReadValidation`. */
  function OnWordRead(e: End): End
    requires |e.reader.got| == 8
  {
    var e' := e.(hin := Word(e.reader.got), reader := INITIAL_READER);
    if e.owner.ClientEnd? then
      e'.(out := Writer.WriteWord(e.out, Scramble(e'.hin)), reading := Replying)
    else if e'.hin == e.check then
      e'.(validations := e.validations + 1, reading := Framing)
    else
      e'.(open := false, reading := Stopped)
  }

  function OnReadDone(e: End): End
    requires Asked(e) > 0 && |e.reader.got| == Asked(e)
  {
    if e.reading.AwaitingWord? then OnWordRead(e) else e.(reader := OnRead(e.reader))
  }

  function Apply(e: End, step: Step): End
    requires Enabled(e, step)
  {
    match step
    case Post(job) => e.(jobs := e.jobs + [job])
    case RunJob => OnJob(e)
    case Emit(op, count) => e.(out := Writer.Emit(e.out, op, count))
    case Written => OnWritten(e)
    case WriteFailed => e.(out := Writer.OnWriteFailed(e.out), open := false)
    case Arrive(bytes) => e.(reader := Receive(e.reader, bytes), received := e.received + bytes)
    case ReadDone => OnReadDone(e)
    case ReadFailed => e.(open := false, reading := Stopped)
  }

  // ---- The invariant ----

  /** The reader has parsed `bytes`, except that the handler of a finished read may still have to run. */
  predicate InSync(r: Reader, bytes: seq<byte>) {
    Sound(r) && Settle(r) == Feed(INITIAL_READER, bytes)
  }

  /** The first 8 bytes received passed this end's check. */
  predicate Accepted(e: End) {
    && |e.received| >= 8
    && e.hin == Word(e.received[..8])
    && (e.owner.ServerEnd? ==> e.hin == e.check && e.validations == 1)
    && (e.owner.ClientEnd? ==> e.out.word == Scramble(e.hin) && e.out.wordDone)
  }

  predicate ReadInv(e: End) {
    && (e.owner.ClientEnd? ==> e.validations == 0)
    && (match e.reading
        case AwaitingWord => |e.received| <= 8 && e.reader == INITIAL_READER.(got := e.received) && e.validations == 0
        case Replying =>
          && e.owner.ClientEnd? && |e.received| == 8 && e.reader == INITIAL_READER
          && e.hin == Word(e.received) && e.out.word == Scramble(e.hin)
          && e.out.wordAt.At? && !e.out.wordDone
        case Framing => Accepted(e) && InSync(e.reader, e.received[8..])
        case Stopped =>
          && !e.open
          && (|e.received| < 8 ==> e.reader == INITIAL_READER.(got := e.received) && e.validations == 0)
          && (|e.received| >= 8 ==>
                || (Accepted(e) && InSync(e.reader, e.received[8..]) && Waiting(e.reader))
                || Rejected(e)))
  }

  /** The reply was wrong. */
  predicate Rejected(e: End) {
    && e.owner.ServerEnd? && e.reading.Stopped? && !e.open
    && |e.received| == 8 && e.reader == INITIAL_READER && e.validations == 0
    && e.hin == Word(e.received) && e.hin != e.check
  }

  predicate HandshakeInv(e: End) {
    && (e.owner.ServerEnd? ==> e.out.wordAt == Writer.At(0) && !e.early && e.check == Scramble(e.out.word))
    && (e.owner.ClientEnd? && e.reading.AwaitingWord? ==> e.out.wordAt.Never?)
    && (e.owner.ClientEnd? && |e.received| < 8 ==> e.out.wordAt.Never?)
    && (e.out.wordAt.Never? ==> !e.out.wordDone && (e.early <==> e.out.pushed != []))
    && (e.out.wordAt.At? ==> (e.early <==> e.out.wordAt.bytes > 0))
    && (e.early ==> e.out.pushed != [])
    && (e.early && e.out.wordAt.At? ==> e.out.wordAt.bytes >= HEADER_BYTES)
  }

  predicate Inv(e: End) {
    && Writer.Inv(e.out)
    && (e.out.unsent != [] ==> !e.open)
    && ReadInv(e)
    && HandshakeInv(e)
  }

  lemma NewClientInv()
    ensures Inv(NewClient())
  {
    assert EncodeAll([]) == [];
  }

  lemma NewServerInv(word: u64, jobs: seq<Job>)
    ensures Inv(NewServer(word, jobs))
  {
    var w := Writer.INITIAL_OUT;
    assert Writer.Inv(w);
    Writer.WriteWordKeepsInv(w, word);
  }

  // ---- Every step keeps it ----

  lemma OutStepKeepsInv(e: End, step: Step)
    requires Inv(e) && Enabled(e, step)
    ensures Writer.Inv(Apply(e, step).out)
  {
    hide Writer.Inv, Writer.SendJob, Writer.OnWritten, Writer.Emit, Writer.OnWriteFailed, Writer.WriteWord;
    hide Feed, Settle, OnRead;
    match step
    case RunJob =>
      if e.jobs[0].SendJob? {
        Writer.SendJobKeepsInv(e.out, e.jobs[0].msg);
      }
    case Emit(op, count) => Writer.EmitKeepsInv(e.out, op, count);
    case Written => Writer.OnWrittenKeepsInv(e.out);
    case WriteFailed => Writer.OnWriteFailedKeepsInv(e.out);
    case ReadDone =>
      if e.reading.AwaitingWord? && e.owner.ClientEnd? {
        Writer.WriteWordKeepsInv(e.out, Scramble(Word(e.reader.got)));
      }
    case _ =>
  }

  lemma ArriveKeepsReadInv(e: End, bytes: seq<byte>)
    requires ReadInv(e) && Enabled(e, Arrive(bytes))
    ensures ReadInv(Apply(e, Arrive(bytes)))
  {
    hide Feed, Settle;
    var e' := Apply(e, Arrive(bytes));
    if e.reading.Framing? {
      var seen := e.received[8..];
      assert e'.received[..8] == e.received[..8] && e'.received[8..] == seen + bytes;
      ArriveInSync(e.reader, seen, bytes);
    }
  }

  lemma ArriveInSync(r: Reader, seen: seq<byte>, bytes: seq<byte>)
    requires InSync(r, seen) && bytes != [] && |r.got| + |bytes| <= Need(r)
    ensures InSync(Receive(r, bytes), seen + bytes)
  {
    hide Feed;
    FeedCompose(INITIAL_READER, seen, bytes);
    FeedWithinRead(r, bytes);
  }

  lemma StartInSync()
    ensures InSync(INITIAL_READER, [])
  {
  }

  lemma ReadInSync(r: Reader, seen: seq<byte>)
    requires InSync(r, seen) && |r.got| == Need(r)
    ensures InSync(OnRead(r), seen)
  {
    hide Feed;
  }

  lemma ClientWordReadKeepsReadInv(e: End)
    requires ReadInv(e) && HandshakeInv(e) && e.owner.ClientEnd? && e.reading.AwaitingWord? && |e.reader.got| == 8
    ensures ReadInv(OnWordRead(e))
  {
    hide Accepted, Rejected, InSync, Waiting, Writer.Started, Image, Scramble, Word;
  }

  lemma ServerWordReadKeepsReadInv(e: End)
    requires ReadInv(e) && e.owner.ServerEnd? && e.reading.AwaitingWord? && |e.reader.got| == 8
    ensures ReadInv(OnWordRead(e))
  {
    hide InSync, Waiting, Word;
    assert e.received[..8] == e.received && e.received[8..] == [];
    StartInSync();
  }

  lemma ReadDoneKeepsReadInv(e: End)
    requires ReadInv(e) && HandshakeInv(e) && Enabled(e, ReadDone)
    ensures ReadInv(Apply(e, ReadDone))
  {
    hide Feed, Settle, InSync, OnRead, OnWordRead;
    if e.reading.AwaitingWord? {
      if e.owner.ClientEnd? {
        ClientWordReadKeepsReadInv(e);
      } else {
        ServerWordReadKeepsReadInv(e);
      }
    } else {
      ReadInSync(e.reader, e.received[8..]);
    }
  }

  lemma WrittenKeepsReadInv(e: End)
    requires ReadInv(e) && HandshakeInv(e) && e.out.ops != [] && Writer.OpFits(e.out, e.out.ops[0])
    ensures ReadInv(OnWritten(e))
  {
    hide Feed, Settle, InSync, Waiting, Writer.OnWritten;
    Writer.OnWrittenFrame(e.out);
    if e.out.ops[0].kind.WordWrite? && e.owner.ClientEnd? {
      assert e.reading.Replying?;
      assert e.received[..8] == e.received && e.received[8..] == [];
      StartInSync();
    }
  }

  predicate SameReading(e: End, f: End) {
    && f.owner == e.owner && f.reading == e.reading && f.reader == e.reader && f.received == e.received
    && f.hin == e.hin && f.check == e.check && f.validations == e.validations && (f.open ==> e.open)
    && f.out.word == e.out.word && f.out.wordAt == e.out.wordAt && f.out.wordDone == e.out.wordDone
  }

  lemma SameReadingKeepsReadInv(e: End, f: End)
    requires ReadInv(e) && SameReading(e, f)
    ensures ReadInv(f)
  {
    hide InSync, Waiting;
  }

  lemma ReadFailedKeepsReadInv(e: End)
    requires ReadInv(e) && HandshakeInv(e) && Enabled(e, ReadFailed)
    ensures ReadInv(Apply(e, ReadFailed))
  {
    hide InSync, Feed, Settle, Image, Word, Scramble, Writer.Started;
  }

  lemma StepKeepsReadInv(e: End, step: Step)
    requires Inv(e) && Enabled(e, step)
    ensures ReadInv(Apply(e, step))
  {
    hide ReadInv, HandshakeInv, Writer.Inv, Writer.SendJob, Writer.OnWritten, Writer.CanEmit, OnReadDone;
    match step
    case Arrive(bytes) => ArriveKeepsReadInv(e, bytes);
    case ReadDone => ReadDoneKeepsReadInv(e);
    case ReadFailed => ReadFailedKeepsReadInv(e);
    case Written =>
      Writer.HeadFits(e.out);
      WrittenKeepsReadInv(e);
    case RunJob =>
      if e.jobs[0].SendJob? {
        Writer.SendJobFrame(e.out, e.jobs[0].msg);
      }
      SameReadingKeepsReadInv(e, Apply(e, step));
    case _ =>
      SameReadingKeepsReadInv(e, Apply(e, step));
  }

  lemma AwaitingHasReceived(e: End)
    requires ReadInv(e) && e.reading.AwaitingWord?
    ensures e.reader.got == e.received
  {
  }

  lemma WordReadKeepsHandshakeInv(e: End)
    requires HandshakeInv(e) && Writer.Inv(e.out)
    requires e.reading.AwaitingWord? && |e.reader.got| == 8 && |e.received| == 8
    ensures HandshakeInv(OnWordRead(e))
  {
    hide Writer.Inv, Writer.Started, Image, Word, Scramble;
    Writer.StartedIfPushed(e.out);
  }

  lemma StepKeepsHandshakeInv(e: End, step: Step)
    requires Inv(e) && Enabled(e, step)
    ensures HandshakeInv(Apply(e, step))
  {
    hide ReadInv, OnWordRead, OnRead, Writer.Inv, Writer.SendJob, Writer.OnWritten, Writer.Started, Writer.CanEmit;
    match step
    case ReadDone =>
      if e.reading.AwaitingWord? {
        AwaitingHasReceived(e);
        WordReadKeepsHandshakeInv(e);
      }
    case Written =>
      Writer.OnWrittenFrame(e.out);
      Writer.HeadFits(e.out);
    case RunJob =>
      if e.jobs[0].SendJob? {
        Writer.SendJobFrame(e.out, e.jobs[0].msg);
      }
    case _ =>
  }

  lemma FailureCloses(e: End, step: Step)
    requires Inv(e) && Enabled(e, step)
    ensures Apply(e, step).out.unsent != [] ==> !Apply(e, step).open
  {
    hide ReadInv, HandshakeInv, OnRead, Writer.Inv, Writer.SendJob, Writer.OnWritten, Writer.CanEmit, Writer.Started;
    match step
    case Written => Writer.OnWrittenFrame(e.out);
    case RunJob =>
      if e.jobs[0].SendJob? {
        Writer.SendJobFrame(e.out, e.jobs[0].msg);
      }
    case _ =>
  }

  lemma StepKeepsInv(e: End, step: Step)
    requires Inv(e) && Enabled(e, step)
    ensures Inv(Apply(e, step))
  {
    hide Writer.Inv, ReadInv, HandshakeInv, Apply;
    OutStepKeepsInv(e, step);
    StepKeepsReadInv(e, step);
    StepKeepsHandshakeInv(e, step);
    FailureCloses(e, step);
  }

  /** The three steps that run handlers, by their handlers. */
  lemma JobKeepsInv(e: End)
    requires Inv(e) && Enabled(e, RunJob)
    ensures Inv(OnJob(e))
  {
    hide Inv, OnJob;
    StepKeepsInv(e, RunJob);
  }

  lemma WrittenKeepsInv(e: End)
    requires Inv(e) && Enabled(e, Written)
    ensures Inv(OnWritten(e))
  {
    hide Inv, OnWritten;
    StepKeepsInv(e, Written);
  }

  lemma ReadDoneKeepsInv(e: End)
    requires Inv(e) && Enabled(e, ReadDone)
    ensures Inv(OnReadDone(e))
  {
    hide Inv, OnReadDone;
    StepKeepsInv(e, ReadDone);
  }

  // ---- Whole runs, whatever the peer sends ----

  ghost predicate Run(e: End, steps: seq<Step>, f: End)
    decreases |steps|
  {
    if steps == [] then f == e
    else Enabled(e, steps[0]) && Run(Apply(e, steps[0]), steps[1..], f)
  }

  lemma StepKeepsOwner(e: End, step: Step)
    requires Enabled(e, step)
    ensures Apply(e, step).owner == e.owner && Apply(e, step).check == e.check
  {
    hide Enabled, OnRead, Writer.SendJob, Writer.OnWritten, Writer.Started;
  }

  lemma {:induction false} RunKeepsInv(e: End, steps: seq<Step>, f: End)
    requires Inv(e) && Run(e, steps, f)
    ensures Inv(f) && f.owner == e.owner && f.check == e.check
    decreases |steps|
  {
    hide Inv, Enabled, Apply;
    if steps != [] {
      StepKeepsInv(e, steps[0]);
      StepKeepsOwner(e, steps[0]);
      RunKeepsInv(Apply(e, steps[0]), steps[1..], f);
    }
  }

  lemma ServerWordIsKept(e: End, step: Step)
    requires Inv(e) && e.owner.ServerEnd? && Enabled(e, step)
    ensures Apply(e, step).out.word == e.out.word
  {
    hide ReadInv, OnRead, Writer.Inv, Writer.SendJob, Writer.OnWritten, Writer.CanEmit, Writer.Started;
    match step
    case Written => Writer.OnWrittenFrame(e.out);
    case RunJob =>
      if e.jobs[0].SendJob? {
        Writer.SendJobFrame(e.out, e.jobs[0].msg);
      }
    case _ =>
  }

  lemma {:induction false} ServerRunKeepsWord(e: End, steps: seq<Step>, f: End)
    requires Inv(e) && e.owner.ServerEnd? && Run(e, steps, f)
    ensures f.out.word == e.out.word
    decreases |steps|
  {
    hide Inv, Enabled;
    if steps != [] {
      ServerWordIsKept(e, steps[0]);
      StepKeepsInv(e, steps[0]);
      ServerRunKeepsWord(Apply(e, steps[0]), steps[1..], f);
    }
  }

  /** Handshake soundness over all runs, whatever bytes arrive: a server end delivers a message or reports its
      client validated only after its first 8 bytes decoded to the scrambled word; it validates at most once; and
      a wrong reply leaves it closed, with nothing delivered. */
  lemma HandshakeSoundness(word: u64, jobs: seq<Job>, steps: seq<Step>, e: End)
    requires Run(NewServer(word, jobs), steps, e)
    ensures e.reader.delivered != [] || e.validations > 0 ==>
              |e.received| >= 8 && Word(e.received[..8]) == Scramble(word)
    ensures e.validations <= 1
    ensures e.reader.delivered != [] ==> e.validations == 1
    ensures |e.received| >= 8 && !e.reading.AwaitingWord? && Word(e.received[..8]) != Scramble(word) ==>
              !e.open && e.reader.delivered == [] && e.validations == 0 && |e.received| == 8
  {
    hide Writer.Inv, InSync, Waiting, Scramble, Word;
    NewServerInv(word, jobs);
    RunKeepsInv(NewServer(word, jobs), steps, e);
    if |e.received| == 8 {
      assert e.received[..8] == e.received;
    }
  }

  lemma Reached(owner: Owner, word: u64, jobs: seq<Job>, steps: seq<Step>, e: End)
    requires Run(NewEnd(owner, word, jobs), steps, e)
    ensures Inv(e)
  {
    hide Inv, Run;
    if owner.ClientEnd? {
      NewClientInv();
    } else {
      NewServerInv(word, jobs);
    }
    RunKeepsInv(NewEnd(owner, word, jobs), steps, e);
  }

  /** In every run an end never has two message writes in flight and never touches the front of an empty queue;
      and while no write has failed, one is in flight exactly when the outgoing queue is not empty. */
  lemma SingleWriter(owner: Owner, word: u64, jobs: seq<Job>, steps: seq<Step>, e: End)
    requires Run(NewEnd(owner, word, jobs), steps, e)
    ensures forall i, j :: 0 <= i < j < |e.out.ops| ==>
              !(Writer.IsMessageOp(e.out.ops[i]) && Writer.IsMessageOp(e.out.ops[j]))
    ensures e.out.unsent == [] ==> (e.out.queue != [] <==> Writer.HasMessageOp(e.out.ops))
    ensures e.open ==> e.out.unsent == []
    ensures !e.out.fault
  {
    hide ReadInv, HandshakeInv, Run, Writer.Inv, Writer.IsMessageOp, Writer.HasMessageOp;
    Reached(owner, word, jobs, steps, e);
    Writer.OneMessageWrite(e.out);
  }

  lemma {:induction false} ClosedRunIsFrozen(e: End, steps: seq<Step>, f: End)
    requires !e.open && Inv(e) && Run(e, steps, f)
    ensures !f.open && f.out.sent == e.out.sent && f.received == e.received
    decreases |steps|
  {
    hide Inv, Writer.CanEmit, OnRead, Writer.SendJob, Writer.OnWritten;
    if steps != [] {
      StepKeepsInv(e, steps[0]);
      if steps[0].Written? {
        Writer.OnWrittenFrame(e.out);
      } else if steps[0].RunJob? && e.jobs[0].SendJob? {
        Writer.SendJobFrame(e.out, e.jobs[0].msg);
      }
      ClosedRunIsFrozen(Apply(e, steps[0]), steps[1..], f);
    }
  }

  /** A closed end is closed for good, and its wire history is frozen: nothing leaves and nothing arrives again,
      however many messages are still sent. */
  lemma ClosedIsFrozen(owner: Owner, word: u64, jobs: seq<Job>, before: seq<Step>, e: End, after: seq<Step>, f: End)
    requires Run(NewEnd(owner, word, jobs), before, e) && !e.open && Run(e, after, f)
    ensures !f.open && f.out.sent == e.out.sent && f.received == e.received
  {
    hide Run, Inv;
    Reached(owner, word, jobs, before, e);
    ClosedRunIsFrozen(e, after, f);
  }

  // ---- What an end was told to send ----

  function JobMsg(j: Job): seq<Msg> {
    if j.SendJob? then [j.msg] else []
  }

  function JobMsgs(jobs: seq<Job>): seq<Msg> {
    if jobs == [] then [] else JobMsg(jobs[0]) + JobMsgs(jobs[1..])
  }

  lemma {:induction false} JobMsgsSnoc(jobs: seq<Job>, j: Job)
    ensures JobMsgs(jobs + [j]) == JobMsgs(jobs) + JobMsg(j)
    decreases |jobs|
  {
    hide JobMsg;
    var all := jobs + [j];
    if jobs == [] {
      assert all == [j] && all[1..] == [];
      assert [] + JobMsg(j) == JobMsg(j) == JobMsg(j) + [];
    } else {
      assert all[1..] == jobs[1..] + [j] && all[0] == jobs[0];
      JobMsgsSnoc(jobs[1..], j);
      Appended(JobMsg(jobs[0]), JobMsgs(jobs[1..]), JobMsg(j), JobMsgs(jobs) + JobMsg(j));
    }
  }

  /** The messages pushed to the outgoing queue, and those posted and not pushed yet. */
  function Sent(e: End): seq<Msg> {
    e.out.pushed + JobMsgs(e.jobs)
  }

  function Posted(step: Step): seq<Msg> {
    if step.Post? then JobMsg(step.job) else []
  }

  /** What a step does to the jobs and to what was pushed. */
  lemma StepMoves(e: End, step: Step)
    requires Enabled(e, step)
    ensures var f := Apply(e, step);
            && f.jobs == (match step case Post(j) => e.jobs + [j] case RunJob => e.jobs[1..] case _ => e.jobs)
            && f.out.pushed == if step.RunJob? then e.out.pushed + JobMsg(e.jobs[0]) else e.out.pushed
  {
    hide OnRead, Writer.CanEmit, Writer.SendJob, Writer.OnWritten, Writer.Started;
    match step
    case Written => Writer.OnWrittenFrame(e.out);
    case RunJob =>
      if e.jobs[0].SendJob? {
        Writer.SendJobFrame(e.out, e.jobs[0].msg);
      }
    case _ =>
  }

  lemma StepSends(e: End, step: Step)
    requires Enabled(e, step)
    ensures Sent(Apply(e, step)) == Sent(e) + Posted(step)
    ensures e.out.pushed <= Apply(e, step).out.pushed
  {
    hide Apply, JobMsg;
    StepMoves(e, step);
    assert Sent(e) + [] == Sent(e);
    var f := Apply(e, step);
    match step
    case Post(j) =>
      JobMsgsSnoc(e.jobs, j);
      Appended(e.out.pushed, JobMsgs(e.jobs), JobMsg(j), Sent(e) + JobMsg(j));
    case RunJob => Appended(e.out.pushed, JobMsg(e.jobs[0]), JobMsgs(f.jobs), Sent(f));
    case _ =>
  }

  /** The messages that a run posts, in order. */
  function AllPosted(steps: seq<Step>): seq<Msg> {
    if steps == [] then [] else Posted(steps[0]) + AllPosted(steps[1..])
  }

  lemma {:induction false} RunSends(e: End, steps: seq<Step>, f: End)
    requires Run(e, steps, f)
    ensures Sent(f) == Sent(e) + AllPosted(steps)
    decreases |steps|
  {
    hide Enabled, Apply, Posted, Sent;
    if steps == [] {
      assert Sent(e) + [] == Sent(e);
    } else {
      StepSends(e, steps[0]);
      RunSends(Apply(e, steps[0]), steps[1..], f);
      Appended(Sent(e), Posted(steps[0]), AllPosted(steps[1..]), Sent(f));
    }
  }

  /** `Send` loses and reorders nothing, in any run: what was posted is what was pushed to the outgoing queue,
      followed by what still waits to be. */
  lemma SendsInOrder(owner: Owner, word: u64, jobs: seq<Job>, steps: seq<Step>, e: End)
    requires Run(NewEnd(owner, word, jobs), steps, e)
    ensures e.out.pushed + JobMsgs(e.jobs) == (if owner.ServerEnd? then JobMsgs(jobs) else []) + AllPosted(steps)
  {
    hide Run, JobMsgs, AllPosted, Scramble, Image;
    RunSends(NewEnd(owner, word, jobs), steps, e);
    NoJobs(jobs);
  }

  lemma NoJobs(jobs: seq<Job>)
    ensures JobMsgs([]) == [] && [] + JobMsgs(jobs) == JobMsgs(jobs)
  {
  }

  /** The job of `Disconnect`, when its turn comes, closes the end for good: from then on nothing leaves or arrives. */
  lemma DisconnectCloses(owner: Owner, word: u64, jobs: seq<Job>, before: seq<Step>, e: End, after: seq<Step>, f: End)
    requires Run(NewEnd(owner, word, jobs), before, e) && e.jobs != [] && e.jobs[0] == CloseJob
    requires Run(OnJob(e), after, f)
    ensures !OnJob(e).open && OnJob(e).jobs == e.jobs[1..]
    ensures !f.open && f.out.sent == e.out.sent && f.received == e.received
  {
    hide Run, Inv;
    Reached(owner, word, jobs, before, e);
    JobKeepsInv(e);
    ClosedRunIsFrozen(OnJob(e), after, f);
  }

  // ---- The wire ----

  /** The wire history of a server end, in every run: all bytes it ever wrote are its word, then the encodings of
      exactly the messages popped from the outgoing queue, in push order, then a part of the front message. */
  lemma ServerWireHistory(word: u64, jobs: seq<Job>, steps: seq<Step>, e: End)
    requires Run(NewServer(word, jobs), steps, e)
    ensures var w := e.out;
            && w.pushed == Writer.Popped(w) + w.queue
            && (w.wordDone ==> Image(word, 8) + EncodeAll(Writer.Popped(w)) <= w.sent)
            && (!w.wordDone ==> Writer.Popped(w) == [])
            && w.sent <= Image(word, 8) + EncodeAll(Writer.Popped(w)) +
                         if w.queue == [] then [] else Encode(w.queue[0])
  {
    hide ReadInv, Run, Writer.Inv, Writer.Popped, Writer.Started, Scramble;
    NewServerInv(word, jobs);
    RunKeepsInv(NewServer(word, jobs), steps, e);
    ServerRunKeepsWord(NewServer(word, jobs), steps, e);
    Writer.WireHistory(e.out);
  }

  /** The same for a client end, whose word is the scrambled word it received -- unless it sent early. */
  lemma ClientWireHistory(steps: seq<Step>, e: End)
    requires Run(NewClient(), steps, e) && !e.early
    ensures var w := e.out;
            && (w.wordAt.Never? ==> w.sent == [] && w.pushed == [])
            && (w.wordAt.At? ==> w.pushed == Writer.Popped(w) + w.queue)
            && (w.wordAt.At? ==> |e.received| >= 8 && w.word == Scramble(Word(e.received[..8])))
            && (w.wordAt.At? && w.wordDone ==> Image(w.word, 8) + EncodeAll(Writer.Popped(w)) <= w.sent)
            && (w.wordAt.At? && !w.wordDone ==> Writer.Popped(w) == [])
            && (w.wordAt.At? ==> w.sent <= Image(w.word, 8) + EncodeAll(Writer.Popped(w)) +
                                           (if w.queue == [] then [] else Encode(w.queue[0])))
  {
    hide Run, InSync, Waiting, Scramble, Word, Image, Writer.Inv, Writer.Popped, Writer.Started;
    NewClientInv();
    RunKeepsInv(NewClient(), steps, e);
    if e.out.wordAt.At? {
      Writer.WireHistory(e.out);
      assert |e.received| == 8 ==> e.received[..8] == e.received;
    } else {
      Writer.NothingPushed(e.out);
    }
  }

  /** Every end, early sender or not, in every run: what it wrote is a part of its messages in push order, with the
      whole handshake word in one place. */
  lemma EveryWireHistory(owner: Owner, word: u64, jobs: seq<Job>, steps: seq<Step>, e: End)
    requires Run(NewEnd(owner, word, jobs), steps, e)
    ensures e.out.sent <= Writer.Weave(e.out.wordAt, e.out.word, EncodeAll(e.out.pushed))
  {
    hide ReadInv, HandshakeInv, Run, Writer.Inv, Writer.Weave;
    Reached(owner, word, jobs, steps, e);
    Writer.SentIsWovenPrefix(e.out);
  }

  lemma FrontStaysOneStep(e: End, step: Step)
    requires Inv(e) && Enabled(e, step) && e.out.queue != []
    ensures var q, q' := e.out.queue, Apply(e, step).out.queue;
            || (q' != [] && q'[0] == q[0])
            || (step.Written? && Writer.IsMessageOp(e.out.ops[0]) && q' == q[1..] &&
                Writer.FrontStarted(e.out) == Encode(q[0]))
  {
    hide ReadInv, HandshakeInv, OnRead, Writer.CanEmit, Writer.Inv, Writer.OpFits, Writer.Started;
    hide Writer.SendJob, Writer.OnWritten, Writer.FrontStarted, Writer.IsMessageOp;
    if step.Written? {
      Writer.HeadFits(e.out);
      FrontWritten(e.out);
    } else if step.RunJob? && e.jobs[0].SendJob? {
      Writer.SendJobFrame(e.out, e.jobs[0].msg);
    }
  }

  lemma FrontWritten(w: Writer.Out)
    requires w.ops != [] && Writer.OpFits(w, w.ops[0]) && w.queue != []
    ensures var q, q' := w.queue, Writer.OnWritten(w).queue;
            || (q' != [] && q'[0] == q[0])
            || (Writer.IsMessageOp(w.ops[0]) && q' == q[1..] && Writer.FrontStarted(w) == Encode(q[0]))
  {
    assert HeaderBytes(w.queue[0].header) + [] == HeaderBytes(w.queue[0].header);
  }

  /** In every run the front message stays in front from its header write to its pop: a step either keeps it, or is
      the handler of its last write and pops exactly it. */
  lemma FrontStays(owner: Owner, word: u64, jobs: seq<Job>, steps: seq<Step>, e: End, step: Step)
    requires Run(NewEnd(owner, word, jobs), steps, e) && Enabled(e, step) && e.out.queue != []
    ensures var q, q' := e.out.queue, Apply(e, step).out.queue;
            || (q' != [] && q'[0] == q[0])
            || (step.Written? && Writer.IsMessageOp(e.out.ops[0]) && q' == q[1..] &&
                Writer.FrontStarted(e.out) == Encode(q[0]))
  {
    hide Run, Inv, Apply, Enabled, Writer.FrontStarted, Encode;
    Reached(owner, word, jobs, steps, e);
    FrontStaysOneStep(e, step);
  }

  /** On any run and any bytes, what an accepted end has delivered is the sticky image of well-formed frames whose
      encodings, followed by the frame in progress, are exactly the bytes received after the handshake. */
  lemma DeliveriesOfRun(owner: Owner, word: u64, jobs: seq<Job>, steps: seq<Step>, e: End)
    requires Run(NewEnd(owner, word, jobs), steps, e) && e.reading.Framing?
    ensures Sound(e.reader) && |e.received| >= 8
    ensures var r := Settle(e.reader);
            && e.received == e.received[..8] + EncodeAll(r.frames) + Partial(r)
            && r.delivered == Sticky([], r.frames)
            && (forall m | m in r.frames :: WellFormed(m))
  {
    hide Run, Writer.Inv, Writer.Started, Scramble, Feed, Settle;
    Reached(owner, word, jobs, steps, e);
    PrintAfterParse(e.received[8..]);
    var r := Settle(e.reader);
    var a, b, c := e.received[..8], EncodeAll(r.frames), Partial(r);
    assert e.received == a + e.received[8..] && a + (b + c) == a + b + c;
  }
}
