/** The connection object: the handlers as the program runs them, each proved against the step of `Endpoint` that
    it implements. */
module Connections {
  import opened Bytes
  import opened Messages
  import opened Framing
  import opened TsQueues
  import W = Writer
  import E = Endpoint

  /** An incoming message, tagged at a server with the connection it came from. */
  datatype Owned = Owned(remote: Connection?, msg: Msg)

  /** The history of the outgoing side, as in `Writer.Out`. */
  datatype Past = Past(
    pushed: seq<Msg>, bodyStarted: bool, wordAt: W.Pos, wordDone: bool, sent: seq<byte>, unsent: seq<byte>)

  class Connection {
    const owner: E.Owner
    const inbox: TsQueue<Owned>
    const queue: TsQueue<Msg>
    var id: u32

    // The socket: whether it is open, the writes started and not handled, the read in flight and its bytes so far,
    // and the jobs posted to the context thread.
    var open: bool
    var ops: seq<W.WriteOp>
    var reading: E.Reading
    var phase: Phase
    var got: seq<byte>
    var jobs: seq<E.Job>

    var temp: Msg
    var handshakeOut: u64
    var handshakeIn: u64
    var handshakeCheck: u64

    // History.
    ghost var past: Past
    ghost var frames: seq<Msg>
    ghost var delivered: seq<Msg>
    ghost var received: seq<byte>
    ghost var validations: nat
    ghost var early: bool

    ghost function Out(): W.Out
      reads this, queue
    {
      W.Out(queue.items, ops, handshakeOut,
            past.pushed, past.bodyStarted, past.wordAt, past.wordDone, past.sent, past.unsent, false)
    }

    ghost function In(): Reader
      reads this
    {
      Reader(phase, got, temp, frames, delivered)
    }

    ghost function State(): E.End
      reads this, queue
    {
      E.End(owner, open, jobs, Out(), reading, In(), handshakeIn, handshakeCheck, received, validations, early)
    }

    ghost predicate Valid()
      reads this, queue
    {
      E.Inv(State()) && (queue as object) != (inbox as object)
    }

    /** Constructed, and not connected yet. */
    ghost predicate Created()
      reads this, queue
    {
      && Out() == W.INITIAL_OUT.(word := handshakeOut) && In() == INITIAL_READER && reading.Stopped?
      && received == [] && validations == 0 && !early && handshakeIn == 0
      && handshakeCheck == (if owner.ServerEnd? then E.Scramble(handshakeOut) else 0)
      && (owner.ClientEnd? ==> handshakeOut == 0)
    }

    constructor (owner: E.Owner, clock: u64, inbox: TsQueue<Owned>)
      ensures this.owner == owner && this.inbox == inbox && fresh(queue)
      ensures Created() && open && jobs == [] && id == 0
      ensures owner.ServerEnd? ==> handshakeOut == clock
    {
      this.owner, this.inbox, id := owner, inbox, 0;
      open, ops, reading, phase, got, jobs := true, [], E.Stopped, ReadingHeader, [], [];
      temp, handshakeIn := Fresh(0), 0;
      if owner.ServerEnd? {
        handshakeOut, handshakeCheck := clock, E.Scramble(clock);
      } else {
        handshakeOut, handshakeCheck := 0, 0;
      }
      past := Past([], false, W.Never, false, [], []);
      frames, delivered, received, validations, early := [], [], [], 0, false;
      queue := new TsQueue();
    }

    /** The completion of `async_connect` at a client that has not sent yet. */
    method OnConnected()
      requires owner.ClientEnd? && Created() && open && jobs == [] && (queue as object) != (inbox as object)
      modifies this`reading, this`got
      ensures State() == E.NewClient() && Valid()
    {
      hide E.Inv, E.Scramble, Created;
      CreatedState();
      ReadValidation();
      E.NewClientInv();
    }

    /** Called by the server once it has approved a new connection, possibly after sending to it. At a client, and
        when the socket has been closed, nothing happens. */
    method ConnectToClient(uid: u32)
      requires Created() && (queue as object) != (inbox as object)
      modifies this`id, this`ops, this`past, this`reading, this`got
      ensures owner.ServerEnd? && open ==> id == uid && State() == E.NewServer(handshakeOut, jobs) && Valid()
      ensures !(owner.ServerEnd? && open) ==> id == old(id) && State() == old(State())
    {
      hide E.Inv, E.Scramble, E.NewServer, W.Started, W.WriteWord, Image, Created;
      CreatedState();
      if owner.ServerEnd? {
        if open {
          id := uid;
          WriteValidation();
          ReadValidation();
          IsNewServer(State(), handshakeOut, jobs);
        }
      }
    }

    lemma CreatedState()
      requires Created()
      ensures var check := if owner.ServerEnd? then E.Scramble(handshakeOut) else 0;
              State() == E.End(owner, open, jobs, W.INITIAL_OUT.(word := handshakeOut), E.Stopped, INITIAL_READER,
                               0, check, [], 0, false)
      ensures owner.ClientEnd? ==> handshakeOut == 0
    {
      hide E.Scramble;
    }

    static lemma IsNewServer(e: E.End, word: u64, jobs: seq<E.Job>)
      requires e == E.End(E.ServerEnd, true, jobs, W.WriteWord(W.INITIAL_OUT.(word := word), word), E.AwaitingWord,
                          INITIAL_READER, 0, E.Scramble(word), [], 0, false)
      ensures e == E.NewServer(word, jobs) && E.Inv(e)
    {
      hide E.Inv, E.Scramble, W.WriteWord;
      WordIsSet(W.INITIAL_OUT, word);
      E.NewServerInv(word, jobs);
    }

    method IsConnected() returns (b: bool)
      ensures b == open
    {
      b := open;
    }

    /** Called from any thread: the message is copied into a job. */
    method Send(m: Msg)
      modifies this`jobs
      ensures State() == E.Apply(old(State()), E.Post(E.SendJob(m)))
      ensures jobs == old(jobs) + [E.SendJob(m)] && (old(Created()) ==> Created())
    {
      jobs := jobs + [E.SendJob(m)];
    }

    method Disconnect()
      modifies this`jobs
      ensures State() == if old(open) then E.Apply(old(State()), E.Post(E.CloseJob)) else old(State())
    {
      var connected := IsConnected();
      if connected {
        jobs := jobs + [E.CloseJob];
      }
    }

    /** The context thread runs the oldest posted job. */
    method RunJob()
      requires Valid() && E.Enabled(State(), E.RunJob)
      modifies this`jobs, this`open, this`early, this`ops, this`past, queue`items
      ensures State() == E.OnJob(old(State())) && Valid()
    {
      hide E.Inv, W.SendJob;
      E.JobKeepsInv(State());
      match jobs[0]
      case CloseJob => RunClose();
      case SendJob(m) => RunSend(m);
    }

    method RunClose()
      requires jobs != [] && jobs[0].CloseJob?
      modifies this`jobs, this`open
      ensures State() == E.OnJob(old(State()))
    {
      jobs, open := jobs[1..], false;
    }

    method RunSend(m: Msg)
      requires jobs != [] && jobs[0] == E.SendJob(m)
      modifies this`jobs, this`early, this`ops, this`past, queue`items
      ensures State() == E.OnJob(old(State()))
    {
      hide W.SendJob;
      jobs, early := jobs[1..], early || past.wordAt.Never?;
      SendNow(m);
    }

    method SendNow(m: Msg)
      modifies this`ops, this`past, queue`items
      ensures Out() == W.SendJob(old(Out()), m)
    {
      var idle := queue.Empty();
      queue.PushBack(m);
      past := past.(pushed := past.pushed + [m]);
      if idle {
        WriteHeader();
      }
    }

    method WriteHeader()
      requires queue.items != []
      modifies this`ops
      ensures Out() == W.WriteHeader(old(Out()))
    {
      var front := queue.Front();
      ops := ops + [W.WriteOp(W.HeaderWrite, HeaderBytes(front.header))];
    }

    method WriteBody()
      requires queue.items != []
      modifies this`ops, this`past
      ensures Out() == W.WriteBody(old(Out()))
    {
      var front := queue.Front();
      ops := ops + [W.WriteOp(W.BodyWrite, front.body)];
      past := past.(bodyStarted := true);
    }

    method PopAndContinue()
      requires queue.items != []
      modifies this`ops, this`past, queue`items
      ensures Out() == W.PopAndContinue(old(Out()))
    {
      var sentMessage := queue.PopFront();
      past := past.(bodyStarted := false);
      assert queue.items == old(queue.items)[1..];
      var empty := queue.Empty();
      if !empty {
        WriteHeader();
      }
    }

    /** The handler of the oldest write, after all its bytes have left. */
    method OnWritten()
      requires Valid() && E.Enabled(State(), E.Written)
      modifies this`ops, this`past, this`reading, this`phase, this`got, queue`items
      ensures State() == E.OnWritten(old(State())) && Valid()
    {
      hide E.Inv, E.OnWritten;
      OutFacts();
      E.WrittenKeepsInv(State());
      match ops[0].kind
      case WordWrite => OnWordWritten();
      case HeaderWrite => OnHeaderWritten();
      case BodyWrite => OnBodyWritten();
    }

    method OnWordWritten()
      requires ops != [] && ops[0].kind.WordWrite?
      requires owner.ClientEnd? ==> phase.ReadingHeader? && got == []
      modifies this`ops, this`past, this`reading, this`phase, this`got
      ensures State() == E.OnWritten(old(State()))
    {
      hide W.OnWritten;
      WordWritten(Out());
      ops, past := ops[1..], past.(wordDone := true);
      if owner.ClientEnd? {
        ReadHeader();
      }
    }

    static lemma WordWritten(w: W.Out)
      requires w.ops != [] && w.ops[0].kind.WordWrite?
      ensures W.OnWritten(w) == w.(ops := w.ops[1..], wordDone := true)
    {
    }

    method OnHeaderWritten()
      requires ops != [] && ops[0].kind.HeaderWrite? && queue.items != []
      modifies this`ops, this`past, queue`items
      ensures State() == E.OnWritten(old(State()))
    {
      hide W.WriteBody, W.PopAndContinue;
      ops := ops[1..];
      var front := queue.Front();
      if |front.body| > 0 {
        WriteBody();
      } else {
        PopAndContinue();
      }
    }

    method OnBodyWritten()
      requires ops != [] && ops[0].kind.BodyWrite? && queue.items != []
      modifies this`ops, this`past, queue`items
      ensures State() == E.OnWritten(old(State()))
    {
      hide W.PopAndContinue;
      ops := ops[1..];
      PopAndContinue();
    }

    lemma OutFacts()
      requires Valid() && ops != []
      ensures !ops[0].kind.WordWrite? ==> queue.items != []
      ensures ops[0].kind.WordWrite? && owner.ClientEnd? ==> phase.ReadingHeader? && got == []
    {
      hide W.Inv, E.InSync, Waiting, E.Scramble, Word;
      W.HeadFits(Out());
    }

    method OnWriteFailed()
      requires Valid() && E.Enabled(State(), E.WriteFailed)
      modifies this`ops, this`past, this`open
      ensures State() == E.Apply(old(State()), E.WriteFailed) && Valid()
    {
      hide E.Inv;
      E.StepKeepsInv(State(), E.WriteFailed);
      past := past.(unsent := past.unsent + ops[0].rest);
      ops := ops[1..];
      open := false;
    }

    /** Bytes of the write that is next leave the socket. */
    method OnLeave(op: nat, count: nat)
      requires Valid() && E.Enabled(State(), E.Emit(op, count))
      modifies this`ops, this`past
      ensures State() == E.Apply(old(State()), E.Emit(op, count)) && Valid()
    {
      hide E.Inv;
      E.StepKeepsInv(State(), E.Emit(op, count));
      var rest := ops[op].rest;
      past := past.(sent := past.sent + rest[..count]);
      ops := ops[op := ops[op].(rest := rest[count..])];
    }

    method WriteValidation()
      modifies this`ops, this`past
      ensures Out() == W.WriteWord(old(Out()), handshakeOut)
    {
      ghost var at := |W.Started(Out())|;
      ops := ops + [W.WriteOp(W.WordWrite, Image(handshakeOut, 8))];
      past := past.(wordAt := W.At(at));
    }

    method ReadValidation()
      modifies this`reading, this`got
      ensures reading == E.AwaitingWord && got == []
    {
      reading, got := E.AwaitingWord, [];
    }

    method ReadHeader()
      modifies this`reading, this`phase, this`got
      ensures reading == E.Framing && phase == ReadingHeader && got == []
    {
      reading, phase, got := E.Framing, ReadingHeader, [];
    }

    method ReadBody()
      modifies this`phase, this`got
      ensures phase == ReadingBody && got == []
    {
      phase, got := ReadingBody, [];
    }

    /** The read in flight takes some more bytes from the socket. */
    method OnArrive(bytes: seq<byte>)
      requires Valid() && E.Enabled(State(), E.Arrive(bytes))
      modifies this`got, this`received
      ensures State() == E.Apply(old(State()), E.Arrive(bytes)) && Valid()
    {
      hide E.Inv;
      E.StepKeepsInv(State(), E.Arrive(bytes));
      got := got + bytes;
      received := received + bytes;
    }

    /** The handler of the read in flight, when it has all its bytes: when that completes a message, it is the one
        element added to the back of the incoming queue. */
    method OnReadDone()
      requires Valid() && E.Enabled(State(), E.ReadDone)
      modifies this`handshakeIn, this`handshakeOut, this`ops, this`past, this`open, this`reading, this`validations
      modifies this`temp, this`phase, this`got, this`frames, this`delivered, inbox`items
      ensures State() == E.OnReadDone(old(State())) && Valid()
      ensures delivered == old(delivered) ==> inbox.items == old(inbox.items)
      ensures delivered != old(delivered) ==>
                && |delivered| == |old(delivered)| + 1
                && inbox.items == old(inbox.items) +
                   [Owned(if owner.ServerEnd? then this else null, delivered[|delivered| - 1])]
    {
      hide E.Inv, E.OnWordRead, OnRead;
      E.ReadDoneKeepsInv(State());
      if reading.AwaitingWord? {
        WordFacts();
        OnHandshakeRead();
      } else if phase.ReadingHeader? {
        OnHeaderRead();
      } else {
        OnBodyRead();
      }
    }

    lemma WordFacts()
      requires Valid() && reading.AwaitingWord?
      ensures phase == ReadingHeader && temp == Fresh(0) && frames == [] && delivered == []
    {
      hide W.Inv, E.HandshakeInv;
    }

    static lemma WordOutcome(e: E.End, f: E.End)
      requires |e.reader.got| == 8
      requires var w := Word(e.reader.got);
               f == e.(hin := w, reader := INITIAL_READER,
                       out := if e.owner.ClientEnd? then W.WriteWord(e.out, E.Scramble(w)) else e.out,
                       reading := if e.owner.ClientEnd? then E.Replying
                                  else if w == e.check then E.Framing else E.Stopped,
                       validations := if e.owner.ServerEnd? && w == e.check then e.validations + 1 else e.validations,
                       open := e.open && (e.owner.ClientEnd? || w == e.check))
      ensures f == E.OnWordRead(e)
    {
    }

    method OnHandshakeRead()
      requires |got| == 8
      requires phase == ReadingHeader && temp == Fresh(0) && frames == [] && delivered == []
      modifies this`handshakeIn, this`handshakeOut, this`ops, this`past
      modifies this`open, this`reading, this`phase, this`got, this`validations
      ensures State() == E.OnWordRead(old(State())) && delivered == old(delivered)
    {
      hide E.OnWordRead, E.Scramble, W.WriteWord, Word;
      OnWordRead();
      WordOutcome(old(State()), State());
    }

    method OnWordRead()
      requires |got| == 8
      requires phase == ReadingHeader && temp == Fresh(0) && frames == [] && delivered == []
      modifies this`handshakeIn, this`handshakeOut, this`ops, this`past
      modifies this`open, this`reading, this`phase, this`got, this`validations
      ensures handshakeIn == Word(old(got)) && In() == INITIAL_READER
      ensures Out() == if owner.ClientEnd? then W.WriteWord(old(Out()), E.Scramble(handshakeIn)) else old(Out())
      ensures var passes := handshakeIn == handshakeCheck;
              && reading == (if owner.ClientEnd? then E.Replying else if passes then E.Framing else E.Stopped)
              && validations == old(validations) + (if owner.ServerEnd? && passes then 1 else 0)
              && open == (old(open) && (owner.ClientEnd? || passes))
    {
      hide W.WriteWord, E.Scramble, Word;
      handshakeIn := Word(got);
      got := [];
      if owner.ClientEnd? {
        Reply();
      } else if handshakeIn == handshakeCheck {
        validations := validations + 1;
        ReadHeader();
      } else {
        open, reading := false, E.Stopped;
      }
    }

    method Reply()
      modifies this`handshakeOut, this`ops, this`past, this`reading
      ensures Out() == W.WriteWord(old(Out()), E.Scramble(handshakeIn)) && reading == E.Replying
    {
      hide W.Started, W.WriteWord, E.Scramble;
      handshakeOut := E.Scramble(handshakeIn);
      WordIsSet(old(Out()), handshakeOut);
      WriteValidation();
      reading := E.Replying;
    }

    static lemma WordIsSet(w: W.Out, word: u64)
      ensures W.WriteWord(w.(word := word), word) == W.WriteWord(w, word)
    {
      assert W.Popped(w.(word := word)) == W.Popped(w);
    }

    method OnHeaderRead()
      requires |got| == Need(In()) && phase.ReadingHeader? && reading.Framing?
      modifies this`temp, this`reading, this`phase, this`got, this`frames, this`delivered, inbox`items
      ensures In() == OnRead(old(In())) && reading.Framing?
      ensures delivered == old(delivered) ==> inbox.items == old(inbox.items)
      ensures delivered != old(delivered) ==>
                && |delivered| == |old(delivered)| + 1
                && inbox.items == old(inbox.items) +
                   [Owned(if owner.ServerEnd? then this else null, delivered[|delivered| - 1])]
    {
      hide ParseHeader;
      temp := temp.(header := ParseHeader(got));
      if temp.header.size > HEADER_BYTES {
        temp := temp.(body := Resize(temp.body, temp.header.size - HEADER_BYTES));
        ReadBody();
      } else {
        AddToIncomingMessageQueue([]);
      }
    }

    method OnBodyRead()
      requires |got| == Need(In()) && phase.ReadingBody? && reading.Framing?
      modifies this`temp, this`reading, this`phase, this`got, this`frames, this`delivered, inbox`items
      ensures In() == OnRead(old(In())) && reading.Framing?
      ensures delivered == old(delivered) ==> inbox.items == old(inbox.items)
      ensures delivered != old(delivered) ==>
                && |delivered| == |old(delivered)| + 1
                && inbox.items == old(inbox.items) +
                   [Owned(if owner.ServerEnd? then this else null, delivered[|delivered| - 1])]
    {
      temp := temp.(body := got);
      AddToIncomingMessageQueue(got);
    }

    method AddToIncomingMessageQueue(ghost own: seq<byte>)
      modifies this`reading, this`phase, this`got, this`frames, this`delivered, inbox`items
      ensures In() == Deliver(old(In()), own) && reading.Framing?
      ensures delivered == old(delivered) + [temp]
      ensures inbox.items == old(inbox.items) + [Owned(if owner.ServerEnd? then this else null, temp)]
    {
      inbox.PushBack(Owned(if owner.ServerEnd? then this else null, temp));
      frames := frames + [Msg(temp.header, own)];
      delivered := delivered + [temp];
      ReadHeader();
    }

    method OnReadFailed()
      requires Valid() && E.Enabled(State(), E.ReadFailed)
      modifies this`open, this`reading
      ensures State() == E.Apply(old(State()), E.ReadFailed) && Valid()
    {
      hide E.Inv;
      E.StepKeepsInv(State(), E.ReadFailed);
      open, reading := false, E.Stopped;
    }
  }
}
