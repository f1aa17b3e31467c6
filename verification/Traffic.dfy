/** What the server of the chat application tells each of its clients: exactly, over whole runs of `Network`. */
module Traffic {
  import opened Bytes
  import opened Messages
  import opened Framing
  import opened ChatMessages
  import opened Network
  import Clients
  import P = Progress
  import W = Writer
  import E = Endpoint
  import L = Link
  import R = Rosters

  /** The messages of the application as they are on the wire. */
  lemma WireImages(time: u64, id: u32)
    ensures Encode(AcceptMsg()) == [0, 0, 0, 0, 0, 0, 0, 0]
    ensures Encode(PingMsg(time)) == [2, 0, 0, 0, 16, 0, 0, 0] + Image(time, 8)
    ensures Encode(MessageAllMsg()) == [3, 0, 0, 0, 0, 0, 0, 0]
    ensures Encode(ServerMessageMsg(id)) == [4, 0, 0, 0, 12, 0, 0, 0] + Image(id, 4)
  {
    assert PingMsg(time) == Msg(Header(2, 16), Image(time, 8)) by { assert [] + Image(time, 8) == Image(time, 8); }
    assert ServerMessageMsg(id) == Msg(Header(4, 12), Image(id, 4)) by { assert [] + Image(id, 4) == Image(id, 4); }
    HeaderImage(Header(0, 0));
    HeaderImage(Header(2, 16));
    HeaderImage(Header(3, 0));
    HeaderImage(Header(4, 12));
    hide Image, HeaderBytes, PingMsg, ServerMessageMsg;
  }

  lemma HeaderImage(h: Header)
    requires h.id < 256 && h.size < 256
    ensures HeaderBytes(h) == [h.id, 0, 0, 0, h.size, 0, 0, 0]
  {
    hide Image;
    SmallImage(h.id);
    SmallImage(h.size);
  }

  lemma SmallImage(x: nat)
    requires x < 256
    ensures Image(x, 4) == [x, 0, 0, 0]
  {
    assert Image(0, 1) == [0] && Image(0, 2) == [0, 0] && Image(0, 3) == [0, 0, 0];
  }

  // ---- One broadcast ----

  /** What handling a message to all does to connection `k`: an open client other than the sender is told the
      sender's id, once; a closed one is removed and reported; nothing else at any link changes. */
  lemma MessageAllOutcome(n: Net, k: nat)
    requires Inv(n) && Enabled(n, HandleNext) && n.inbox[0].msg.header.id == MESSAGE_ALL && k < |n.links|
    ensures var q, j := Apply(n, HandleNext), n.inbox[0].from;
            var server, held := n.links[k].server, k in n.roster.clients;
            && |q.links| == |n.links| && q.links[k].client == n.links[k].client
            && q.links[k].server ==
               (if held && server.open && k != j
                then server.(jobs := server.jobs + [E.SendJob(ServerMessageMsg(R.CounterAfter(j)))]) else server)
            && (k in q.roster.clients <==> held && server.open)
            && (k in q.roster.reported <==> k in n.roster.reported || (held && !server.open))
  {
    hide LinkInv, QueueInv, Network.ShownInv, R.Inv, ServerMessageMsg, R.Without, R.Only;
    var j, closed := n.inbox[0].from, ClosedLinks(n.links);
    R.FilterMembers(n.roster.clients, closed + {j});
    R.FilterMembers(n.roster.clients, closed);
  }

  /** What handling a ping does: its sender, and nobody else, is sent it back as it came. */
  lemma PingOutcome(n: Net, k: nat)
    requires Enabled(n, HandleNext) && n.inbox[0].msg.header.id == SERVER_PING && k < |n.links|
    ensures var q, server := Apply(n, HandleNext), n.links[k].server;
            && |q.links| == |n.links| && q.links[k].client == n.links[k].client && q.roster == n.roster
            && q.links[k].server ==
               if k == n.inbox[0].from then server.(jobs := server.jobs + [E.SendJob(n.inbox[0].msg)]) else server
  {
  }

  // ---- Open clients are held ----

  ghost predicate HeldInv(n: Net) {
    forall k: nat :: k < |n.links| && n.links[k].server.open ==> k in n.roster.clients
  }

  lemma StaysClosed(e: E.End, step: E.Step)
    requires E.Enabled(e, step)
    ensures E.Apply(e, step).open ==> e.open
  {
    hide OnRead, W.CanEmit, W.SendJob, W.OnWritten, W.Started;
  }

  lemma StepKeepsHeld(n: Net, s: Step)
    requires Inv(n) && HeldInv(n) && Enabled(n, s)
    ensures HeldInv(Apply(n, s))
  {
    hide Inv, L.Start, PingMsg, MessageAllMsg, E.Enabled, E.Apply, Handle;
    match s
    case Accept(word) =>
    case OnLink(k, step) =>
      if step.AtServer? {
        StaysClosed(n.links[k].server, step.step);
      }
    case HandleNext => HandleKeepsHeld(n);
    case PingServer(k, time) => assert ClientSends(n.links[k], PingMsg(time)).server == n.links[k].server;
    case MessageAll(k) => assert ClientSends(n.links[k], MessageAllMsg()).server == n.links[k].server;
    case ShowNext(k) =>
  }

  lemma HandleKeepsHeld(n: Net)
    requires Inv(n) && HeldInv(n) && Enabled(n, HandleNext)
    ensures HeldInv(Apply(n, HandleNext))
  {
    hide Inv, Apply;
    var q := Apply(n, HandleNext);
    assert |q.links| == |n.links| by { HandleKeepsLength(n); }
    forall k: nat | k < |q.links| && q.links[k].server.open ensures k in q.roster.clients {
      if n.inbox[0].msg.header.id == MESSAGE_ALL {
        MessageAllOutcome(n, k);
      } else if n.inbox[0].msg.header.id == SERVER_PING {
        PingOutcome(n, k);
      } else {
        OtherOutcome(n);
      }
    }
  }

  lemma HandleKeepsLength(n: Net)
    requires Enabled(n, HandleNext)
    ensures |Apply(n, HandleNext).links| == |n.links|
  {
  }

  lemma OtherOutcome(n: Net)
    requires Enabled(n, HandleNext)
    requires n.inbox[0].msg.header.id != MESSAGE_ALL && n.inbox[0].msg.header.id != SERVER_PING
    ensures Apply(n, HandleNext).links == n.links && Apply(n, HandleNext).roster == n.roster
  {
  }

  // ---- The law of the server's traffic ----

  /** All that the server was told to send to client `k`, whether or not it has left yet. */
  function SentTo(n: Net, k: nat): seq<Msg> {
    if k < |n.links| then E.Sent(n.links[k].server) else []
  }

  /** What a step is to add to that: a greeting when `k` is accepted; its ping back; and for a message to all from
      another client, if `k` is open, that client's id. */
  function Due(n: Net, s: Step, k: nat): seq<Msg>
    requires Enabled(n, s)
  {
    match s
    case Accept(_) => if k == |n.links| then [AcceptMsg()] else []
    case HandleNext =>
      var t := n.inbox[0];
      if t.msg.header.id == SERVER_PING && t.from == k then [t.msg]
      else if t.msg.header.id == MESSAGE_ALL && t.from != k && k < |n.links| && n.links[k].server.open then
        [ServerMessageMsg((10000 + t.from) % 0x1_0000_0000)]
      else []
    case _ => []
  }

  /** What a run is to add. */
  ghost function AllDue(n: Net, steps: seq<Step>, k: nat): seq<Msg>
    decreases |steps|
  {
    if steps == [] || !Enabled(n, steps[0]) then []
    else Due(n, steps[0], k) + AllDue(Apply(n, steps[0]), steps[1..], k)
  }

  lemma OnePosted(e: E.End, m: Msg)
    ensures E.Sent(e.(jobs := e.jobs + [E.SendJob(m)])) == E.Sent(e) + [m]
  {
    E.StepSends(e, E.Post(E.SendJob(m)));
  }

  lemma HandleTells(n: Net, k: nat)
    requires Inv(n) && HeldInv(n) && Enabled(n, HandleNext)
    ensures SentTo(Apply(n, HandleNext), k) == SentTo(n, k) + Due(n, HandleNext, k)
  {
    hide Inv, Apply, E.Sent, ServerMessageMsg;
    HandleKeepsLength(n);
    assert SentTo(n, k) + [] == SentTo(n, k);
    var t := n.inbox[0];
    if k < |n.links| {
      if t.msg.header.id == MESSAGE_ALL {
        MessageAllOutcome(n, k);
        OnePosted(n.links[k].server, ServerMessageMsg(R.CounterAfter(t.from)));
      } else if t.msg.header.id == SERVER_PING {
        PingOutcome(n, k);
        OnePosted(n.links[k].server, t.msg);
      } else {
        OtherOutcome(n);
      }
    } else {
      assert t.from < |n.links|;
    }
  }

  lemma StartSends(word: u64)
    ensures E.Sent(L.Start(word, [E.SendJob(AcceptMsg())]).server) == [AcceptMsg()]
  {
    hide E.Scramble;
    var jobs := [E.SendJob(AcceptMsg())];
    assert jobs[1..] == [];
    assert W.WriteWord(W.INITIAL_OUT, word).pushed == [];
  }

  lemma StepTells(n: Net, s: Step, k: nat)
    requires Inv(n) && HeldInv(n) && Enabled(n, s)
    ensures SentTo(Apply(n, s), k) == SentTo(n, k) + Due(n, s, k)
  {
    hide Inv, HeldInv, L.Start, PingMsg, MessageAllMsg, E.Sent, E.Enabled, E.Apply, Handle;
    assert SentTo(n, k) + [] == SentTo(n, k);
    match s
    case Accept(word) =>
      StartSends(word);
      assert [] + [AcceptMsg()] == [AcceptMsg()];
    case OnLink(i, step) =>
      if step.AtServer? {
        E.StepSends(n.links[i].server, step.step);
        assert E.Posted(step.step) == [];
      }
    case HandleNext => HandleTells(n, k);
    case PingServer(i, time) => assert ClientSends(n.links[i], PingMsg(time)).server == n.links[i].server;
    case MessageAll(i) => assert ClientSends(n.links[i], MessageAllMsg()).server == n.links[i].server;
    case ShowNext(i) =>
  }

  lemma {:induction false} RunTells(n: Net, steps: seq<Step>, q: Net, k: nat)
    requires Inv(n) && HeldInv(n) && Run(n, steps, q)
    ensures Inv(q) && HeldInv(q)
    ensures SentTo(q, k) == SentTo(n, k) + AllDue(n, steps, k)
    decreases |steps|
  {
    hide Inv, HeldInv, Enabled, Apply, SentTo, Due;
    if steps == [] {
      assert SentTo(n, k) + [] == SentTo(n, k);
    } else {
      var m := Apply(n, steps[0]);
      StepKeepsInv(n, steps[0]);
      StepKeepsHeld(n, steps[0]);
      StepTells(n, steps[0], k);
      RunTells(m, steps[1..], q, k);
      Appended(SentTo(n, k), Due(n, steps[0], k), AllDue(m, steps[1..], k), SentTo(q, k));
    }
  }

  /** Every open client is held, in every run. */
  lemma OpenClientsAreHeld(steps: seq<Step>, n: Net, k: nat)
    requires Run(INITIAL_NET, steps, n) && k < |n.links| && n.links[k].server.open
    ensures k in n.roster.clients && k !in n.roster.reported
  {
    hide Run, LinkInv, QueueInv, Network.ShownInv, R.Without;
    InitialInv();
    RunTells(INITIAL_NET, steps, n, k);
    R.HeldOrReported(n.roster, k);
  }

  /** In every run, what the server has told client `k` to be sent is exactly the greeting, the pings of `k` that
      were handled, and the ids of the others whose messages to all were handled while `k` was open, in that order
      of events. */
  lemma ServerTellsExactly(steps: seq<Step>, n: Net, k: nat)
    requires Run(INITIAL_NET, steps, n)
    ensures SentTo(n, k) == AllDue(INITIAL_NET, steps, k)
  {
    hide Run, Inv, AllDue;
    InitialInv();
    RunTells(INITIAL_NET, steps, n, k);
    assert [] + AllDue(INITIAL_NET, steps, k) == AllDue(INITIAL_NET, steps, k);
  }

  /** A client is only ever delivered a prefix of that, with sticky bodies. */
  lemma ClientGetsWhatIsDue(steps: seq<Step>, n: Net, k: nat)
    requires Run(INITIAL_NET, steps, n) && k < |n.links|
    ensures n.links[k].client.reader.frames <= AllDue(INITIAL_NET, steps, k)
    ensures n.links[k].client.reader.delivered <= Sticky([], AllDue(INITIAL_NET, steps, k))
  {
    hide Run, QueueInv, Network.ShownInv, RosterInv, AllDue, E.Inv, W.WordFirst;
    ServerTellsExactly(steps, n, k);
    InitialInv();
    RunKeepsInv(INITIAL_NET, steps, n);
    var l := n.links[k];
    L.ServerCheck(l.server);
    L.ChannelRefines(l.client, l.server);
    StickyGrows(l.server.out.pushed, E.Sent(l.server));
  }

  lemma {:induction false} StickyGrows(a: seq<Msg>, b: seq<Msg>)
    requires a <= b
    ensures Sticky([], a) <= Sticky([], b)
    decreases |b|
  {
    if |a| < |b| {
      StickyGrows(a, b[..|b| - 1]);
    } else {
      assert a == b;
    }
  }

  /** And it is delivered all of it: once a link that neither failed nor was closed has nothing left to do. */
  lemma ClientGetsAllThatIsDue(steps: seq<Step>, n: Net, k: nat)
    requires Run(INITIAL_NET, steps, n) && k < |n.links|
    requires P.Healthy(n.links[k]) && P.Stuck(n.links[k])
    ensures n.links[k].client.reader.frames == AllDue(INITIAL_NET, steps, k)
    ensures n.links[k].client.reader.delivered == Sticky([], AllDue(INITIAL_NET, steps, k))
  {
    hide Run, QueueInv, Network.ShownInv, RosterInv, AllDue, P.Healthy, P.Stuck;
    ServerTellsExactly(steps, n, k);
    InitialInv();
    RunKeepsInv(INITIAL_NET, steps, n);
    DrainedClient(n.links[k]);
  }

  lemma DrainedClient(l: L.Link)
    requires LinkInv(l) && P.Healthy(l) && P.Stuck(l)
    ensures l.client.reader.frames == E.Sent(l.server)
    ensures l.client.reader.delivered == Sticky([], E.Sent(l.server))
  {
    hide L.Inv, P.Healthy, P.Stuck;
    P.StuckClient(l);
    P.StuckHasNoJobs(l);
    assert l.server.out.pushed + [] == l.server.out.pushed;
  }

  /** The first message a client is delivered is the greeting, and it is shown as the validation. */
  lemma GreetingComesFirst(steps: seq<Step>, n: Net, k: nat)
    requires Run(INITIAL_NET, steps, n) && k < |n.links| && n.links[k].client.reader.delivered != []
    ensures n.links[k].client.reader.delivered[0] == AcceptMsg()
    ensures Clients.Show(AcceptMsg()) == Clients.Validated
  {
    hide Run, AllDue, Sticky;
    ClientGetsWhatIsDue(steps, n, k);
    FirstIsGreeting(INITIAL_NET, steps, n, k);
    var due := AllDue(INITIAL_NET, steps, k);
    StickyLaw(due, 0);
    assert n.links[k].client.reader.delivered[0] == Sticky([], due)[0];
  }

  lemma {:induction false} FirstIsGreeting(n: Net, steps: seq<Step>, q: Net, k: nat)
    requires Run(n, steps, q) && |n.links| <= k < |q.links|
    ensures AllDue(n, steps, k) != [] && AllDue(n, steps, k)[0] == AcceptMsg()
    decreases |steps|
  {
    hide Enabled, Apply;
    NothingDueBefore(n, steps[0], k);
    if |Apply(n, steps[0]).links| <= k {
      FirstIsGreeting(Apply(n, steps[0]), steps[1..], q, k);
    }
  }

  lemma NothingDueBefore(n: Net, s: Step, k: nat)
    requires Enabled(n, s) && |n.links| <= k
    ensures if k < |Apply(n, s).links| then Due(n, s, k) == [AcceptMsg()] else Due(n, s, k) == []
  {
    hide L.Start, L.Enabled, L.Apply, PingMsg, MessageAllMsg, TellAll, ServerSends, R.Apply;
  }

  // ---- What the clients send and show ----

  function SentBy(n: Net, k: nat): seq<Msg> {
    if k < |n.links| then E.Sent(n.links[k].client) else []
  }

  /** What the user of client `k` asks for: nothing is sent once the socket is closed. */
  function Asked(n: Net, s: Step, k: nat): seq<Msg> {
    match s
    case PingServer(i, time) => if i == k && k < |n.links| && n.links[k].client.open then [PingMsg(time)] else []
    case MessageAll(i) => if i == k && k < |n.links| && n.links[k].client.open then [MessageAllMsg()] else []
    case _ => []
  }

  ghost function AllAsked(n: Net, steps: seq<Step>, k: nat): seq<Msg>
    decreases |steps|
  {
    if steps == [] || !Enabled(n, steps[0]) then []
    else Asked(n, steps[0], k) + AllAsked(Apply(n, steps[0]), steps[1..], k)
  }

  function Showings(steps: seq<Step>, k: nat): nat {
    if steps == [] then 0 else (if steps[0] == ShowNext(k) then 1 else 0) + Showings(steps[1..], k)
  }

  lemma HandleKeepsClient(n: Net, k: nat)
    requires Inv(n) && Enabled(n, HandleNext)
    ensures SentBy(Apply(n, HandleNext), k) == SentBy(n, k)
  {
    hide Inv, Apply, E.Sent;
    HandleKeepsLength(n);
    if k < |n.links| {
      if n.inbox[0].msg.header.id == MESSAGE_ALL {
        MessageAllOutcome(n, k);
      } else if n.inbox[0].msg.header.id == SERVER_PING {
        PingOutcome(n, k);
      } else {
        OtherOutcome(n);
      }
    }
  }

  lemma StepAsks(n: Net, s: Step, k: nat)
    requires Inv(n) && Enabled(n, s)
    ensures SentBy(Apply(n, s), k) == SentBy(n, k) + Asked(n, s, k)
  {
    hide Inv, L.Start, PingMsg, MessageAllMsg, E.Sent, E.Enabled, E.Apply, Handle;
    assert SentBy(n, k) + [] == SentBy(n, k);
    match s
    case Accept(word) =>
      assert L.Start(word, [E.SendJob(AcceptMsg())]).client == E.NewClient() by { ClientOfStart(word); }
      assert E.Sent(E.NewClient()) == [] by { NothingSentYet(); }
    case OnLink(i, step) =>
      if step.AtClient? {
        E.StepSends(n.links[i].client, step.step);
        assert E.Posted(step.step) == [];
      }
    case HandleNext => HandleKeepsClient(n, k);
    case PingServer(i, time) => ClientPosts(n.links[i], PingMsg(time));
    case MessageAll(i) => ClientPosts(n.links[i], MessageAllMsg());
    case ShowNext(i) =>
  }

  lemma ClientOfStart(word: u64)
    ensures L.Start(word, [E.SendJob(AcceptMsg())]).client == E.NewClient()
  {
  }

  lemma NothingSentYet()
    ensures E.Sent(E.NewClient()) == []
  {
  }

  lemma ClientPosts(l: L.Link, m: Msg)
    ensures E.Sent(ClientSends(l, m).client) == E.Sent(l.client) + if l.client.open then [m] else []
  {
    hide E.Sent;
    E.StepSends(l.client, E.Post(E.SendJob(m)));
    assert E.Sent(l.client) + [] == E.Sent(l.client);
  }

  lemma ShowsOne(n: Net, s: Step, k: nat)
    requires Inv(n) && Enabled(n, s) && k < |n.links|
    ensures k < |Apply(n, s).shown| && |n.links| <= |Apply(n, s).links|
    ensures |Apply(n, s).shown[k]| == |n.shown[k]| + if s == ShowNext(k) then 1 else 0
  {
    hide LinkInv, QueueInv, RosterInv, BytesPopped, L.Start, L.Apply, L.Enabled, R.Apply, Clients.Show;
    if s.ShowNext? {
      EnoughToPop(n.links[s.k], |n.shown[s.k]|);
    }
  }

  lemma {:induction false} RunAsks(n: Net, steps: seq<Step>, q: Net, k: nat)
    requires Inv(n) && Run(n, steps, q)
    ensures Inv(q) && SentBy(q, k) == SentBy(n, k) + AllAsked(n, steps, k)
    ensures k < |n.links| ==> k < |q.links| && |q.shown[k]| == |n.shown[k]| + Showings(steps, k)
    decreases |steps|
  {
    hide LinksInv, QueueInv, RosterInv, Enabled, Apply, SentBy, Asked;
    if steps == [] {
      assert SentBy(n, k) + [] == SentBy(n, k);
    } else {
      var m := Apply(n, steps[0]);
      StepKeepsInv(n, steps[0]);
      StepAsks(n, steps[0], k);
      if k < |n.links| {
        ShowsOne(n, steps[0], k);
      }
      RunAsks(m, steps[1..], q, k);
      Appended(SentBy(n, k), Asked(n, steps[0], k), AllAsked(m, steps[1..], k), SentBy(q, k));
    }
  }

  /** In every run, what client `k` has sent is exactly what its user asked for while the socket was open. */
  lemma ClientSendsExactly(steps: seq<Step>, n: Net, k: nat)
    requires Run(INITIAL_NET, steps, n)
    ensures SentBy(n, k) == AllAsked(INITIAL_NET, steps, k)
  {
    hide Run, Inv, AllAsked;
    InitialInv();
    RunAsks(INITIAL_NET, steps, n, k);
    assert [] + AllAsked(INITIAL_NET, steps, k) == AllAsked(INITIAL_NET, steps, k);
  }

  /** In every run, what client `k` has shown is what it was delivered, in order, message by message; each further
      round of its loop shows one more. */
  lemma ClientShowsInOrder(steps: seq<Step>, n: Net, k: nat, more: seq<Step>, q: Net)
    requires Run(INITIAL_NET, steps, n) && Run(n, more, q) && k < |n.links|
    ensures k < |q.links| && k < |n.shown| && k < |q.shown|
    ensures |q.shown[k]| == |n.shown[k]| + Showings(more, k)
    ensures |q.shown[k]| <= |q.links[k].client.reader.delivered|
    ensures forall i :: 0 <= i < |q.shown[k]| ==>
              var m := q.links[k].client.reader.delivered[i];
              BytesPopped(m) <= |m.body| && q.shown[k][i] == Clients.Show(m)
  {
    hide Run, LinksInv, QueueInv, RosterInv, AllAsked, BytesPopped, Clients.Show, Showings, SentBy;
    InitialInv();
    RunAsks(INITIAL_NET, steps, n, k);
    RunAsks(n, more, q, k);
  }
}
