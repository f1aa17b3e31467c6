/** Termination and delivery: without failures, a link runs out of work, and then everything has arrived. */
module Progress {
  import opened Bytes
  import opened Messages
  import opened Framing
  import W = Writer
  import E = Endpoint
  import opened Link

  // ---- The work that is left ----

  const OP_COST: nat := 1
  const BYTE_COST: nat := 3

  function BodyCost(m: Msg): nat {
    if m.body == [] then 0 else OP_COST + BYTE_COST * |m.body|
  }

  function MsgCost(m: Msg): nat {
    OP_COST + BYTE_COST * HEADER_BYTES + BodyCost(m)
  }

  function QueueCost(queue: seq<Msg>): nat {
    if queue == [] then 0 else MsgCost(queue[0]) + QueueCost(queue[1..])
  }

  function JobsCost(jobs: seq<E.Job>): nat {
    if jobs == [] then 0
    else (if jobs[0].SendJob? then 1 + MsgCost(jobs[0].msg) else 1) + JobsCost(jobs[1..])
  }

  function OpsCost(ops: seq<W.WriteOp>): nat {
    if ops == [] then 0 else OP_COST + BYTE_COST * |ops[0].rest| + OpsCost(ops[1..])
  }

  function OutCost(w: W.Out): nat {
    OpsCost(w.ops) +
    if w.queue == [] then 0
    else (if w.bodyStarted then 0 else BodyCost(w.queue[0])) + QueueCost(w.queue[1..])
  }

  /** Work left at one end: jobs, messages, writes, a reply not yet started, and bytes read but not handled. */
  function EndCost(e: E.End): nat {
    JobsCost(e.jobs) + OutCost(e.out) + |e.reader.got| +
    if e.owner.ClientEnd? && e.reading.AwaitingWord? then OP_COST + BYTE_COST * 8 else 0
  }

  /** Work left on the link, with what is in transit. */
  function Cost(l: Link): nat
    requires Inv(l)
  {
    EndCost(l.client) + EndCost(l.server) +
    2 * (|l.client.out.sent| - |l.server.received|) + 2 * (|l.server.out.sent| - |l.client.received|)
  }

  /** A step of the machinery itself: nothing new is posted, and nothing fails. */
  predicate Internal(step: E.Step) {
    step.RunJob? || step.Emit? || step.Written? || step.Arrive? || step.ReadDone?
  }

  lemma {:induction false} OpsCostSnoc(ops: seq<W.WriteOp>, op: W.WriteOp)
    ensures OpsCost(ops + [op]) == OpsCost(ops) + OP_COST + BYTE_COST * |op.rest|
  {
    if ops == [] {
      assert ops + [op] == [op] && [op][1..] == [];
    } else {
      assert (ops + [op])[1..] == ops[1..] + [op];
      OpsCostSnoc(ops[1..], op);
    }
  }

  lemma {:induction false} QueueCostSnoc(queue: seq<Msg>, m: Msg)
    ensures QueueCost(queue + [m]) == QueueCost(queue) + MsgCost(m)
  {
    if queue == [] {
      assert queue + [m] == [m] && [m][1..] == [];
    } else {
      assert (queue + [m])[1..] == queue[1..] + [m];
      QueueCostSnoc(queue[1..], m);
    }
  }

  lemma {:induction false} EmitCost(ops: seq<W.WriteOp>, i: nat, rest: seq<byte>)
    requires i < |ops| && |rest| <= |ops[i].rest|
    ensures OpsCost(ops[i := ops[i].(rest := rest)]) == OpsCost(ops) - BYTE_COST * (|ops[i].rest| - |rest|)
    decreases i
  {
    var ops' := ops[i := ops[i].(rest := rest)];
    if i == 0 {
      assert ops'[1..] == ops[1..];
    } else {
      assert ops'[1..] == ops[1..][i - 1 := ops[i].(rest := rest)];
      EmitCost(ops[1..], i - 1, rest);
    }
  }

  lemma SendJobCost(w: W.Out, m: Msg)
    requires w.queue == [] ==> !w.bodyStarted
    ensures OutCost(W.SendJob(w, m)) == OutCost(w) + MsgCost(m)
  {
    if w.queue == [] {
      OpsCostSnoc(w.ops, W.WriteOp(W.HeaderWrite, HeaderBytes(m.header)));
      assert [m][1..] == [] && w.queue + [m] == [m];
    } else {
      assert (w.queue + [m])[1..] == w.queue[1..] + [m];
      QueueCostSnoc(w.queue[1..], m);
    }
  }

  lemma PopCost(w: W.Out)
    requires w.queue != [] && (w.bodyStarted || w.queue[0].body == [])
    ensures OutCost(W.PopAndContinue(w)) == OutCost(w)
  {
    if |w.queue| > 1 {
      OpsCostSnoc(w.ops, W.WriteOp(W.HeaderWrite, HeaderBytes(w.queue[1].header)));
    }
  }

  lemma OnWrittenCost(w: W.Out)
    requires W.Inv(w) && w.ops != [] && w.ops[0].rest == []
    ensures OutCost(W.OnWritten(w)) == OutCost(w) - OP_COST
  {
    hide W.Conserved, W.WordFirst, W.Queued;
    assert W.OpFits(w, w.ops[0]);
    var w' := w.(ops := w.ops[1..]);
    match w.ops[0].kind
    case WordWrite =>
    case HeaderWrite =>
      if w.queue[0].body == [] {
        PopCost(w');
      } else {
        OpsCostSnoc(w'.ops, W.WriteOp(W.BodyWrite, w.queue[0].body));
      }
    case BodyWrite => PopCost(w');
  }

  lemma WriteWordCost(w: W.Out, word: u64)
    ensures OutCost(W.WriteWord(w, word)) == OutCost(w) + OP_COST + BYTE_COST * 8
  {
    hide W.Started;
    OpsCostSnoc(w.ops, W.WriteOp(W.WordWrite, Image(word, 8)));
  }

  /** By how much one internal step changes the work of its own end. */
  lemma EndStepCost(e: E.End, step: E.Step)
    requires E.Inv(e) && E.Enabled(e, step) && Internal(step)
    ensures var f := E.Apply(e, step);
            match step
            case Emit(_, count) => EndCost(f) == EndCost(e) - BYTE_COST * count && |f.out.sent| == |e.out.sent| + count
            case Arrive(bytes) => EndCost(f) == EndCost(e) + |bytes| && f.out.sent == e.out.sent
            case _ => EndCost(f) < EndCost(e) && f.out.sent == e.out.sent
  {
    hide OutCost, MsgCost, E.ReadInv, E.HandshakeInv, W.Inv, W.SendJob, W.OnWritten, W.WriteWord, W.Started, OnRead;
    match step
    case RunJob => RunJobCost(e);
    case Emit(op, count) => EmitStepCost(e.out, op, count);
    case Written =>
      W.OnWrittenFrame(e.out);
      WrittenCost(e);
    case Arrive(bytes) =>
    case ReadDone => ReadDoneCost(e);
  }

  lemma EmitStepCost(w: W.Out, op: nat, count: nat)
    requires W.CanEmit(w, op, count)
    ensures OutCost(W.Emit(w, op, count)) == OutCost(w) - BYTE_COST * count
    ensures |W.Emit(w, op, count).sent| == |w.sent| + count
  {
    EmitCost(w.ops, op, w.ops[op].rest[count..]);
  }

  lemma RunJobCost(e: E.End)
    requires E.Inv(e) && e.jobs != []
    ensures EndCost(E.OnJob(e)) < EndCost(e) && E.OnJob(e).out.sent == e.out.sent
  {
    hide OutCost, MsgCost, E.ReadInv, E.HandshakeInv, W.Conserved, W.Flight, W.SendJob;
    if e.jobs[0].SendJob? {
      W.SendJobFrame(e.out, e.jobs[0].msg);
      SendJobCost(e.out, e.jobs[0].msg);
    }
  }

  lemma WrittenCost(e: E.End)
    requires E.Inv(e) && e.out.ops != [] && e.out.ops[0].rest == []
    ensures EndCost(E.OnWritten(e)) < EndCost(e)
  {
    hide OutCost, E.InSync, Waiting, W.Inv, W.OnWritten, W.Started;
    W.HeadFits(e.out);
    OnWrittenCost(e.out);
  }

  lemma ReadDoneCost(e: E.End)
    requires E.Inv(e) && E.Enabled(e, E.ReadDone)
    ensures EndCost(E.OnReadDone(e)) < EndCost(e) && E.OnReadDone(e).out.sent == e.out.sent
  {
    hide OutCost, E.InSync, E.HandshakeInv, W.Inv, W.Started, E.Scramble, Word, ParseHeader;
    if e.reading.AwaitingWord? && e.owner.ClientEnd? {
      WriteWordCost(e.out, E.Scramble(Word(e.reader.got)));
    }
  }

  /** Every internal step leaves strictly less work. */
  lemma InternalStepCosts(l: Link, s: Step)
    requires Inv(l) && Enabled(l, s) && Internal(s.step)
    ensures Inv(Apply(l, s)) && Cost(Apply(l, s)) < Cost(l)
  {
    hide E.Inv, E.Apply, E.Asked, EndCost;
    StepKeepsInv(l, s);
    var e := if s.AtClient? then l.client else l.server;
    StreamsGrow(e, s.step);
    EndStepCost(e, s.step);
  }

  /** Termination: a run of internal steps is no longer than the work there was. */
  lemma {:induction false} InternalRunsEnd(l: Link, steps: seq<Step>, m: Link)
    requires Inv(l) && Run(l, steps, m)
    requires forall s | s in steps :: Internal(s.step)
    ensures Inv(m) && |steps| + Cost(m) <= Cost(l)
    decreases |steps|
  {
    hide Inv, Enabled, Apply, Cost;
    if steps != [] {
      assert steps[0] in steps;
      InternalStepCosts(l, steps[0]);
      InternalRunsEnd(Apply(l, steps[0]), steps[1..], m);
    }
  }

  /** In every reachable state of a link, whatever happened before: a run of internal steps takes at most as many
      steps as there is work, so there is no endless one. */
  lemma WorkRunsOut(word: u64, jobs: seq<E.Job>, before: seq<Step>, l: Link, steps: seq<Step>, m: Link)
    requires Run(Start(word, jobs), before, l) && Run(l, steps, m)
    requires forall s | s in steps :: Internal(s.step)
    ensures Inv(l) && |steps| <= Cost(l)
  {
    hide Run, Inv, Cost;
    StartInv(word, jobs);
    RunKeepsInv(Start(word, jobs), before, l);
    InternalRunsEnd(l, steps, m);
  }

  // ---- Failure-free runs ----

  /** A step of a failure-free run: internal, or somebody sends. */
  predicate Mild(step: E.Step) {
    Internal(step) || (step.Post? && step.job.SendJob?)
  }

  predicate OnlySends(jobs: seq<E.Job>) {
    forall j | j in jobs :: j.SendJob?
  }

  predicate HealthyEnd(e: E.End) {
    e.open && OnlySends(e.jobs) && !e.reading.Stopped?
  }

  predicate Healthy(l: Link) {
    HealthyEnd(l.client) && HealthyEnd(l.server)
  }

  lemma EndStaysHealthy(e: E.End, step: E.Step)
    requires HealthyEnd(e) && E.Enabled(e, step) && Mild(step)
    requires step.ReadDone? && e.reading.AwaitingWord? && e.owner.ServerEnd? ==> Word(e.reader.got) == e.check
    ensures HealthyEnd(E.Apply(e, step))
  {
    hide W.SendJob, W.OnWritten, W.CanEmit, W.Started, OnRead, Word, Image;
  }

  /** As long as the client has not sent early, a failure-free run keeps both ends open: the reply passes. */
  lemma StaysHealthy(l: Link, s: Step)
    requires Inv(l) && Healthy(l) && Enabled(l, s) && Mild(s.step) && !l.client.early
    ensures Healthy(Apply(l, s))
  {
    hide E.Inv, E.Apply, HealthyEnd, Word, E.Scramble;
    if s.AtServer? {
      if s.step.ReadDone? && l.server.reading.AwaitingWord? {
        ReplyPasses(l);
      }
      EndStaysHealthy(l.server, s.step);
    } else {
      EndStaysHealthy(l.client, s.step);
    }
  }

  lemma ReplyPasses(l: Link)
    requires Inv(l) && !l.client.early
    requires l.server.reading.AwaitingWord? && |l.server.reader.got| == 8
    ensures Word(l.server.reader.got) == l.server.check
  {
    hide W.Inv, E.InSync, Waiting, E.Scramble, Word;
    var got := l.server.received;
    assert got[..8] == got && l.server.reader.got == got;
    FirstBytesReceived(l);
  }

  lemma {:induction false} MildRunStaysHealthy(l: Link, steps: seq<Step>, m: Link)
    requires Inv(l) && Healthy(l) && Run(l, steps, m)
    requires forall s | s in steps :: Mild(s.step)
    requires !m.client.early
    ensures Inv(m) && Healthy(m)
    decreases |steps|
  {
    hide Inv, Healthy, Enabled, Apply;
    RunKeepsInv(l, steps, m);
    if steps != [] {
      assert steps[0] in steps;
      StepKeepsInv(l, steps[0]);
      StaysHealthy(l, steps[0]);
      MildRunStaysHealthy(Apply(l, steps[0]), steps[1..], m);
    }
  }

  // ---- Where a failure-free run can stop ----

  /** No internal step is possible. */
  ghost predicate Stuck(l: Link) {
    forall s: Step :: Internal(s.step) ==> !Enabled(l, s)
  }

  /** From every state, internal steps lead to a stuck one. */
  lemma {:induction false} RunsToStuck(l: Link) returns (steps: seq<Step>, m: Link)
    requires Inv(l)
    ensures Run(l, steps, m) && Stuck(m) && forall s | s in steps :: Internal(s.step)
    decreases Cost(l)
  {
    hide Inv, Enabled, Apply, Cost;
    if Stuck(l) {
      steps, m := [], l;
    } else {
      var s: Step :| Internal(s.step) && Enabled(l, s);
      InternalStepCosts(l, s);
      var rest;
      rest, m := RunsToStuck(Apply(l, s));
      steps := [s] + rest;
      assert steps[1..] == rest;
    }
  }

  /** A healthy end with nothing to do has nothing left to write: all that was pushed has left. */
  lemma StuckEndHasWritten(e: E.End)
    requires E.Inv(e) && HealthyEnd(e)
    requires !E.Enabled(e, E.RunJob) && !E.Enabled(e, E.Written)
    requires forall op, count :: !W.CanEmit(e.out, op, count)
    ensures e.jobs == [] && e.out.ops == [] && e.out.queue == []
    ensures e.out.unsent == [] && (e.out.wordAt.At? ==> e.out.wordDone)
    ensures e.out.wordAt == W.At(0) ==> e.out.sent == Image(e.out.word, 8) + EncodeAll(e.out.pushed)
  {
    hide E.ReadInv, E.HandshakeInv;
    if e.out.ops != [] {
      HeadCanLeave(e.out);
      assert false;
    }
    AllWritten(e.out);
  }

  lemma HeadCanLeave(w: W.Out)
    requires w.ops != [] && w.ops[0].rest != []
    ensures W.CanEmit(w, 0, |w.ops[0].rest|)
  {
  }

  lemma AllWritten(w: W.Out)
    requires W.Inv(w) && w.ops == [] && w.unsent == []
    ensures w.queue == [] && (w.wordAt.At? ==> w.wordDone)
    ensures w.wordAt == W.At(0) ==> w.sent == Image(w.word, 8) + EncodeAll(w.pushed)
  {
    hide W.Weave, W.WordFirst;
    assert w.queue == [];
    assert W.Popped(w) == w.pushed;
    if w.wordAt == W.At(0) {
      W.WovenAtStart(w);
      assert EncodeAll(w.pushed) + [] == EncodeAll(w.pushed);
      assert w.sent + [] == w.sent;
    }
  }

  /** If no byte can arrive and no read can be handled, a healthy end has read all its peer sent. */
  lemma StuckEndHasRead(e: E.End, peer: E.End)
    requires E.Inv(e) && HealthyEnd(e) && e.received <= peer.out.sent
    requires !E.Enabled(e, E.ReadDone)
    requires forall bytes :: !(E.Enabled(e, E.Arrive(bytes)) && Carried(e, peer, E.Arrive(bytes)))
    ensures e.reading.Replying? || e.received == peer.out.sent
    ensures e.reading.AwaitingWord? ==> |peer.out.sent| < 8
  {
    hide W.Inv, E.HandshakeInv, Settle, Feed, Word, E.Scramble;
    if !e.reading.Replying? && e.received != peer.out.sent {
      NextCanArrive(e, peer);
      assert false;
    }
  }

  lemma NextCanArrive(e: E.End, peer: E.End)
    requires e.open && |e.reader.got| < E.Asked(e)
    requires e.received <= peer.out.sent && e.received != peer.out.sent
    ensures var next := [peer.out.sent[|e.received|]];
            E.Enabled(e, E.Arrive(next)) && Carried(e, peer, E.Arrive(next))
  {
  }

  lemma StuckParts(l: Link)
    requires Inv(l) && Stuck(l)
    ensures !E.Enabled(l.client, E.RunJob) && !E.Enabled(l.server, E.RunJob)
    ensures !E.Enabled(l.client, E.Written) && !E.Enabled(l.server, E.Written)
    ensures !E.Enabled(l.client, E.ReadDone) && !E.Enabled(l.server, E.ReadDone)
    ensures l.client.open ==> forall op, count :: !W.CanEmit(l.client.out, op, count)
    ensures l.server.open ==> forall op, count :: !W.CanEmit(l.server.out, op, count)
    ensures forall bytes ::
              !(E.Enabled(l.client, E.Arrive(bytes)) && Carried(l.client, l.server, E.Arrive(bytes)))
    ensures forall bytes ::
              !(E.Enabled(l.server, E.Arrive(bytes)) && Carried(l.server, l.client, E.Arrive(bytes)))
  {
    hide E.Inv;
    assert !Enabled(l, AtClient(E.RunJob)) && !Enabled(l, AtServer(E.RunJob));
    assert !Enabled(l, AtClient(E.Written)) && !Enabled(l, AtServer(E.Written));
    assert !Enabled(l, AtClient(E.ReadDone)) && !Enabled(l, AtServer(E.ReadDone));
    forall op, count ensures l.client.open ==> !W.CanEmit(l.client.out, op, count) {
      assert !Enabled(l, AtClient(E.Emit(op, count)));
    }
    forall op, count ensures l.server.open ==> !W.CanEmit(l.server.out, op, count) {
      assert !Enabled(l, AtServer(E.Emit(op, count)));
    }
    forall bytes ensures !(E.Enabled(l.client, E.Arrive(bytes)) && Carried(l.client, l.server, E.Arrive(bytes))) {
      assert !Enabled(l, AtClient(E.Arrive(bytes)));
    }
    forall bytes ensures !(E.Enabled(l.server, E.Arrive(bytes)) && Carried(l.server, l.client, E.Arrive(bytes))) {
      assert !Enabled(l, AtServer(E.Arrive(bytes)));
    }
  }

  lemma DropWord(word: u64, rest: seq<byte>)
    ensures (Image(word, 8) + rest)[8..] == rest
  {
  }

  lemma ReadEverything(e: E.End)
    requires E.Inv(e) && e.reading.Framing? && !E.Enabled(e, E.ReadDone)
    ensures |e.received| >= 8 && e.reader == Feed(INITIAL_READER, e.received[8..])
  {
    hide W.Inv, E.HandshakeInv, Feed, Word, E.Scramble;
  }

  lemma FreshReader(ms: seq<Msg>)
    requires forall m | m in ms :: WellFormed(m)
    ensures var r := Feed(INITIAL_READER, EncodeAll(ms)); r.frames == ms && r.delivered == Sticky([], ms)
  {
    hide Feed, EncodeAll, Sticky;
    FeedEncodeAll(INITIAL_READER, ms);
    assert [] + ms == ms && [] + Sticky([], ms) == Sticky([], ms);
  }

  /** An end that is past the handshake and has received its peer's whole stream has delivered everything. */
  lemma AllDelivered(e: E.End, peer: E.End)
    requires E.Inv(e) && e.reading.Framing? && !E.Enabled(e, E.ReadDone)
    requires e.received == peer.out.sent
    requires peer.out.sent == Image(peer.out.word, 8) + EncodeAll(peer.out.pushed)
    requires forall m | m in peer.out.pushed :: WellFormed(m)
    ensures e.reader.frames == peer.out.pushed
    ensures e.reader.delivered == Sticky([], peer.out.pushed)
  {
    hide E.Inv, E.Enabled, Feed, Image, EncodeAll, Sticky, WellFormed;
    ReadEverything(e);
    DropWord(peer.out.word, EncodeAll(peer.out.pushed));
    FreshReader(peer.out.pushed);
  }

  lemma StuckClient(l: Link)
    requires Inv(l) && Healthy(l) && Stuck(l)
    requires forall m | m in l.server.out.pushed :: WellFormed(m)
    ensures l.client.reading.Framing?
    ensures l.client.reader.frames == l.server.out.pushed
    ensures l.client.reader.delivered == Sticky([], l.server.out.pushed)
    ensures l.client.out.wordAt.At?
  {
    hide Stuck, W.Inv, E.InSync, HealthyEnd, E.Scramble, Word, EncodeAll, Feed;
    StuckParts(l);
    OpenWhenHealthy(l);
    OutInv(l.server);
    StuckEndHasWritten(l.server);
    StuckEndHasWritten(l.client);
    StuckEndHasRead(l.client, l.server);
    AllDelivered(l.client, l.server);
  }

  lemma OpenWhenHealthy(l: Link)
    requires Healthy(l)
    ensures l.client.open && l.server.open && !l.client.reading.Stopped? && !l.server.reading.Stopped?
  {
  }

  lemma StuckServer(l: Link)
    requires Inv(l) && Healthy(l) && Stuck(l) && !l.client.early && l.client.out.wordAt.At?
    requires forall m | m in l.client.out.pushed :: WellFormed(m)
    ensures l.server.reading.Framing? && l.server.validations == 1
    ensures l.server.reader.frames == l.client.out.pushed
    ensures l.server.reader.delivered == Sticky([], l.client.out.pushed)
  {
    hide Stuck, W.Inv, E.InSync, HealthyEnd, E.Scramble, Word, EncodeAll, Feed;
    StuckParts(l);
    OpenWhenHealthy(l);
    StuckEndHasWritten(l.client);
    StuckEndHasRead(l.server, l.client);
    AllDelivered(l.server, l.client);
  }

  /** Liveness: take any run of a fresh link in which nothing fails or is closed, only sends are posted, and the
      client does not send early. Once no internal step is possible -- by `RunsToStuck` and `WorkRunsOut` that point
      exists and comes after boundedly many -- the server has validated its client, both outgoing queues are empty,
      and each end has delivered the sticky image of everything its peer ever pushed. */
  lemma EverythingArrives(word: u64, jobs: seq<E.Job>, steps: seq<Step>, l: Link)
    requires OnlySends(jobs) && Run(Start(word, jobs), steps, l)
    requires forall s | s in steps :: Mild(s.step)
    requires Stuck(l) && !l.client.early
    requires forall m | m in l.client.out.pushed :: WellFormed(m)
    requires forall m | m in l.server.out.pushed :: WellFormed(m)
    ensures l.server.validations == 1
    ensures l.client.out.queue == [] && l.server.out.queue == [] && l.client.jobs == [] && l.server.jobs == []
    ensures l.server.reader.frames == l.client.out.pushed
    ensures l.server.reader.delivered == Sticky([], l.client.out.pushed)
    ensures l.client.reader.frames == l.server.out.pushed
    ensures l.client.reader.delivered == Sticky([], l.server.out.pushed)
  {
    hide Run, Stuck, E.Inv, W.WriteWord;
    StartInv(word, jobs);
    MildRunStaysHealthy(Start(word, jobs), steps, l);
    StuckParts(l);
    StuckClient(l);
    StuckServer(l);
    StuckEndHasWritten(l.client);
    StuckEndHasWritten(l.server);
  }

  lemma StuckHasNoJobs(l: Link)
    requires Inv(l) && Healthy(l) && Stuck(l)
    ensures l.client.jobs == [] && l.server.jobs == []
  {
    hide Stuck, E.Inv;
    StuckParts(l);
    StuckEndHasWritten(l.client);
    StuckEndHasWritten(l.server);
  }

  /** The messages that a run posts at the client end, or at the server end, in order. */
  function PostedAt(client: bool, steps: seq<Step>): seq<Msg> {
    if steps == [] then []
    else (if steps[0].AtClient? == client then E.Posted(steps[0].step) else []) + PostedAt(client, steps[1..])
  }

  lemma {:induction false} RunSends(l: Link, steps: seq<Step>, m: Link)
    requires Run(l, steps, m)
    ensures E.Sent(m.client) == E.Sent(l.client) + PostedAt(true, steps)
    ensures E.Sent(m.server) == E.Sent(l.server) + PostedAt(false, steps)
    decreases |steps|
  {
    hide E.Enabled, E.Apply, E.Posted, E.Sent;
    if steps == [] {
      assert E.Sent(l.client) + [] == E.Sent(l.client) && E.Sent(l.server) + [] == E.Sent(l.server);
    } else {
      var k, s, tail := Apply(l, steps[0]), steps[0], steps[1..];
      E.StepSends(if s.AtClient? then l.client else l.server, s.step);
      RunSends(k, tail, m);
      var c, d := if s.AtClient? then E.Posted(s.step) else [], if s.AtClient? then [] else E.Posted(s.step);
      assert E.Sent(l.client) + [] == E.Sent(l.client) && E.Sent(l.server) + [] == E.Sent(l.server);
      Appended(E.Sent(l.client), c, PostedAt(true, tail), E.Sent(m.client));
      Appended(E.Sent(l.server), d, PostedAt(false, tail), E.Sent(m.server));
    }
  }

  /** The same for what was sent, rather than what reached an outgoing queue: at the end of such a run, each end has
      received all messages that `Send` was ever called with at the other, in the order of the calls. */
  lemma EverythingSentArrives(word: u64, jobs: seq<E.Job>, steps: seq<Step>, l: Link)
    requires OnlySends(jobs) && Run(Start(word, jobs), steps, l)
    requires forall s | s in steps :: Mild(s.step)
    requires Stuck(l) && !l.client.early
    requires forall m | m in PostedAt(true, steps) :: WellFormed(m)
    requires forall m | m in E.JobMsgs(jobs) + PostedAt(false, steps) :: WellFormed(m)
    ensures l.server.reader.frames == PostedAt(true, steps)
    ensures l.client.reader.frames == E.JobMsgs(jobs) + PostedAt(false, steps)
  {
    hide Run, Stuck, E.Inv, PostedAt, E.Scramble, Image, OnlySends, Mild;
    RunSends(Start(word, jobs), steps, l);
    E.NoJobs(jobs);
    StartInv(word, jobs);
    assert Healthy(Start(word, jobs)) by { StartIsHealthy(word, jobs); }
    MildRunStaysHealthy(Start(word, jobs), steps, l);
    StuckHasNoJobs(l);
    hide Healthy, E.JobMsgs;
    E.NoJobs([]);
    assert [] + PostedAt(true, steps) == PostedAt(true, steps);
    assert l.client.out.pushed + [] == l.client.out.pushed && l.server.out.pushed + [] == l.server.out.pushed;
    EverythingArrives(word, jobs, steps, l);
  }

  lemma StartIsHealthy(word: u64, jobs: seq<E.Job>)
    requires OnlySends(jobs)
    ensures Healthy(Start(word, jobs))
  {
    hide W.WriteWord;
  }
}
