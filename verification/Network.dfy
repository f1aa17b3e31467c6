/** The chat application: one `CustomServer`, any number of `CustomClient` programs, and the connections between
    them, over whole runs. */
module Network {
  import opened Bytes
  import opened Messages
  import opened Framing
  import opened ChatMessages
  import W = Writer
  import E = Endpoint
  import L = Link
  import R = Rosters
  import Clients

  /** A message in the server's incoming queue, with the connection it came from. */
  datatype Tagged = Tagged(from: nat, msg: Msg)

  /** Connection `k` is the `k`-th accepted one. `shown[k]` is what the receive loop of client `k` has shown, `fault`
      records a `>>` that found too few bytes, and `handled` the messages the server handled. */
  datatype Net = Net(
    links: seq<L.Link>, inbox: seq<Tagged>, handled: seq<Tagged>, roster: R.Roster<nat>,
    shown: seq<seq<Clients.Shown>>, fault: bool)

  const INITIAL_NET := Net([], [], [], R.Empty(), [], false)

  datatype Step =
    | Accept(word: u64)
    | OnLink(k: nat, step: L.Step)
    | PingServer(k: nat, time: u64)
    | MessageAll(k: nat)
    | HandleNext
    | ShowNext(k: nat)

  /** What `OnMessage` does with a message. */
  datatype Reaction = Bounce(msg: Msg) | TellOthers | Ignore

  function React(m: Msg): Reaction {
    if m.header.id == SERVER_PING then Bounce(m)
    else if m.header.id == MESSAGE_ALL then TellOthers
    else Ignore
  }

  predicate Enabled(n: Net, s: Step) {
    match s
    case Accept(_) => true
    case OnLink(k, step) =>
      k < |n.links| && L.Enabled(n.links[k], step) && (step.step.Post? ==> step.step.job.CloseJob?)
    case PingServer(k, _) => k < |n.links|
    case MessageAll(k) => k < |n.links|
    case HandleNext => n.inbox != [] && n.inbox[0].from < |n.links|
    case ShowNext(k) => 
      && k < |n.links| && k < |n.shown| && n.links[k].client.open
      && |n.shown[k]| < |n.links[k].client.reader.delivered|
  }

  /** A client sends only while its socket is open. */
  function ClientSends(l: L.Link, m: Msg): L.Link {
    if !l.client.open then l else l.(client := E.Apply(l.client, E.Post(E.SendJob(m))))
  }

  function ServerSends(l: L.Link, m: Msg): L.Link {
    l.(server := E.Apply(l.server, E.Post(E.SendJob(m))))
  }

  /** What a step delivered: at most one message. */
  function NewlyDelivered(e: E.End, f: E.End): seq<Msg> {
    if |f.reader.delivered| > |e.reader.delivered| then [f.reader.delivered[|f.reader.delivered| - 1]] else []
  }

  function Tag(k: nat, ms: seq<Msg>): seq<Tagged> {
    if ms == [] then [] else Tag(k, ms[..|ms| - 1]) + [Tagged(k, ms[|ms| - 1])]
  }

  function ClosedLinks(links: seq<L.Link>): set<nat> {
    set k: nat | k < |links| && !links[k].server.open
  }

  function TellAll(links: seq<L.Link>, to: seq<nat>, m: Msg): (r: seq<L.Link>)
    ensures |r| == |links|
  {
    seq(|links|, k requires 0 <= k < |links| => if k in to then ServerSends(links[k], m) else links[k])
  }

  function Handle(n: Net, t: Tagged): Net
    requires t.from < |n.links|
  {
    match React(t.msg)
    case Bounce(m) => n.(links := n.links[t.from := ServerSends(n.links[t.from], m)])
    case TellOthers =>
      var closed := ClosedLinks(n.links);
      var to := R.Recipients(n.roster.clients, closed, {t.from});
      n.(links := TellAll(n.links, to, ServerMessageMsg(R.CounterAfter(t.from))),
         roster := R.Apply(n.roster, R.MessageAll(closed)))
    case Ignore => n
  }

  function Apply(n: Net, s: Step): Net
    requires Enabled(n, s)
  {
    match s
    case Accept(word) =>
      n.(links := n.links + [L.Start(word, [E.SendJob(AcceptMsg())])], shown := n.shown + [[]],
         roster := R.Apply(n.roster, R.Accept(|n.links|, true)))
    case OnLink(k, step) =>
      var l := L.Apply(n.links[k], step);
      n.(links := n.links[k := l], inbox := n.inbox + Tag(k, NewlyDelivered(n.links[k].server, l.server)))
    case PingServer(k, time) => n.(links := n.links[k := ClientSends(n.links[k], PingMsg(time))])
    case MessageAll(k) => n.(links := n.links[k := ClientSends(n.links[k], MessageAllMsg())])
    case HandleNext =>
      Handle(n, n.inbox[0]).(inbox := n.inbox[1..], handled := n.handled + [n.inbox[0]])
    case ShowNext(k) =>
      var m := n.links[k].client.reader.delivered[|n.shown[k]|];
      if |m.body| < BytesPopped(m) then n.(fault := true)
      else n.(shown := n.shown[k := n.shown[k] + [Clients.Show(m)]])
  }

  ghost predicate Run(n: Net, steps: seq<Step>, q: Net)
    decreases |steps|
  {
    if steps == [] then q == n
    else Enabled(n, steps[0]) && Run(Apply(n, steps[0]), steps[1..], q)
  }

  // ---- What each side sends ----

  predicate FromClient(m: Msg) {
    || (m.header == Header(SERVER_PING, 16) && |m.body| == 8)
    || (m.header == Header(MESSAGE_ALL, 0) && m.body == [])
  }

  predicate FromServer(m: Msg) {
    || (m.header == Header(SERVER_ACCEPT, 0) && m.body == [])
    || (m.header == Header(SERVER_PING, 16) && |m.body| == 8)
    || (m.header == Header(SERVER_MESSAGE, 12) && |m.body| == 4)
  }

  predicate Sends(e: E.End, ok: Msg -> bool) {
    && (forall j | j in e.jobs && j.SendJob? :: ok(j.msg))
    && (forall m | m in e.out.pushed :: ok(m))
  }

  predicate LinkInv(l: L.Link) {
    L.Inv(l) && Sends(l.client, FromClient) && Sends(l.server, FromServer)
  }

  lemma SendsKept(e: E.End, step: E.Step, ok: Msg -> bool)
    requires Sends(e, ok) && E.Enabled(e, step) && (step.Post? && step.job.SendJob? ==> ok(step.job.msg))
    ensures Sends(E.Apply(e, step), ok)
  {
    hide OnRead, W.CanEmit, W.SendJob, W.OnWritten, W.Started;
    match step
    case Written => W.OnWrittenFrame(e.out);
    case RunJob =>
      if e.jobs[0].SendJob? {
        W.SendJobFrame(e.out, e.jobs[0].msg);
      }
    case _ =>
  }

  lemma LinkStepKeepsInv(l: L.Link, s: L.Step)
    requires LinkInv(l) && L.Enabled(l, s)
    requires s.step.Post? && s.step.job.SendJob? ==>
               if s.AtClient? then FromClient(s.step.job.msg) else FromServer(s.step.job.msg)
    ensures LinkInv(L.Apply(l, s))
  {
    hide L.Inv, Sends, E.Enabled, E.Apply;
    L.StepKeepsInv(l, s);
    if s.AtClient? {
      SendsKept(l.client, s.step, FromClient);
    } else {
      SendsKept(l.server, s.step, FromServer);
    }
  }

  // ---- What each side delivers ----

  /** Whatever a chat client does, the server delivers a prefix of the sticky image of its messages: if it sends
      early, the server always notices, because no chat header is a handshake reply. */
  lemma ServerDelivers(l: L.Link)
    requires LinkInv(l)
    ensures l.server.reader.delivered <= Sticky([], l.client.out.pushed)
  {
    hide E.Inv;
    if l.client.early {
      if |l.server.received| >= 8 {
        L.FirstBytesReceived(l);
        assert FromClient(l.client.out.pushed[0]);
      }
      L.EarlySendDeliversNothing(l);
    } else {
      if |l.server.received| >= 8 {
        L.FirstBytesReceived(l);
      }
      L.ChannelRefines(l.server, l.client);
    }
  }

  lemma ClientDelivers(l: L.Link)
    requires LinkInv(l)
    ensures l.client.reader.delivered <= Sticky([], l.server.out.pushed)
  {
    hide E.Inv;
    L.ServerCheck(l.server);
    L.ChannelRefines(l.client, l.server);
  }

  /** A delivered message, against the message its sender pushed at the same position. */
  lemma DeliveredAgainstSent(delivered: seq<Msg>, pushed: seq<Msg>, i: nat)
    requires delivered <= Sticky([], pushed) && i < |delivered|
    ensures i < |pushed| && delivered[i].header == pushed[i].header
    ensures pushed[i].body != [] ==> delivered[i] == pushed[i]
  {
    StickyAt([], pushed, i);
    hide Sticky;
    assert delivered[i] == Sticky([], pushed)[i];
  }

  /** The server reacts to what it delivers as it would to what was sent. */
  lemma SameReaction(l: L.Link, i: nat)
    requires LinkInv(l) && i < |l.server.reader.delivered|
    ensures i < |l.client.out.pushed|
    ensures React(l.server.reader.delivered[i]) == React(l.client.out.pushed[i])
    ensures React(l.server.reader.delivered[i]).Bounce? ==> FromServer(l.server.reader.delivered[i])
  {
    hide L.Inv;
    ServerDelivers(l);
    DeliveredAgainstSent(l.server.reader.delivered, l.client.out.pushed, i);
    assert FromClient(l.client.out.pushed[i]);
  }

  /** Every `>>` of the client's switch finds its bytes. */
  lemma EnoughToPop(l: L.Link, i: nat)
    requires LinkInv(l) && i < |l.client.reader.delivered|
    ensures |l.client.reader.delivered[i].body| >= BytesPopped(l.client.reader.delivered[i])
  {
    hide L.Inv;
    ClientDelivers(l);
    DeliveredAgainstSent(l.client.reader.delivered, l.server.out.pushed, i);
    assert FromServer(l.server.out.pushed[i]);
  }

  // ---- The shared queue ----

  /** The messages of connection `k`, in order. */
  function Of(ts: seq<Tagged>, k: nat): seq<Msg> {
    if ts == [] then []
    else Of(ts[..|ts| - 1], k) + if ts[|ts| - 1].from == k then [ts[|ts| - 1].msg] else []
  }

  lemma OfSnoc(ts: seq<Tagged>, t: Tagged, k: nat)
    ensures Of(ts + [t], k) == Of(ts, k) + if t.from == k then [t.msg] else []
  {
    assert (ts + [t])[..|ts|] == ts;
  }

  lemma {:induction false} OfConcat(a: seq<Tagged>, b: seq<Tagged>, k: nat)
    ensures Of(a + b, k) == Of(a, k) + Of(b, k)
    decreases |b|
  {
    if b == [] {
      assert a + b == a;
    } else {
      var front, t := b[..|b| - 1], b[|b| - 1];
      assert a + b == (a + front) + [t];
      OfConcat(a, front, k);
      OfSnoc(a + front, t, k);
    }
  }

  /** The element after `a` is, among its connection's messages, the one after those of `a`. */
  lemma PositionInClient(a: seq<Tagged>, t: Tagged, b: seq<Tagged>)
    ensures |Of(a, t.from)| < |Of(a + [t] + b, t.from)|
    ensures Of(a + [t] + b, t.from)[|Of(a, t.from)|] == t.msg
  {
    OfConcat(a + [t], b, t.from);
    OfSnoc(a, t, t.from);
  }

  // ---- The invariant ----

  function Log(n: Net): seq<Tagged> {
    n.handled + n.inbox
  }

  ghost predicate QueueInv(n: Net) {
    && (forall t | t in Log(n) :: t.from < |n.links|)
    && (forall k: nat :: k < |n.links| ==> Of(Log(n), k) == n.links[k].server.reader.delivered)
  }

  ghost predicate LinksInv(n: Net) {
    forall k: nat :: k < |n.links| ==> LinkInv(n.links[k])
  }

  /** The oldest of the messages delivered have been shown, in order. */
  ghost predicate ShownOf(shown: seq<Clients.Shown>, delivered: seq<Msg>) {
    && |shown| <= |delivered|
    && forall i :: 0 <= i < |shown| ==>
         BytesPopped(delivered[i]) <= |delivered[i].body| && shown[i] == Clients.Show(delivered[i])
  }

  ghost predicate ShownInv(n: Net) {
    !n.fault && |n.shown| == |n.links| &&
    forall k: nat :: k < |n.links| ==> ShownOf(n.shown[k], n.links[k].client.reader.delivered)
  }

  ghost predicate RosterInv(n: Net) {
    R.Inv(n.roster) && |n.roster.accepted| == |n.links| &&
    forall i :: 0 <= i < |n.links| ==> n.roster.accepted[i] == i
  }

  ghost predicate Inv(n: Net) {
    LinksInv(n) && QueueInv(n) && ShownInv(n) && RosterInv(n)
  }

  lemma StartLinkInv(word: u64)
    ensures LinkInv(L.Start(word, [E.SendJob(AcceptMsg())]))
    ensures L.Start(word, [E.SendJob(AcceptMsg())]).server.reader.delivered == []
    ensures L.Start(word, [E.SendJob(AcceptMsg())]).client.reader.delivered == []
  {
    hide L.Inv;
    L.StartInv(word, [E.SendJob(AcceptMsg())]);
  }

  /** What an end delivered only grows, by one message at a time, and only when a read completes. */
  lemma DeliveredGrows(e: E.End, step: E.Step)
    requires E.Inv(e) && E.Enabled(e, step)
    ensures var f := E.Apply(e, step);
            && f.reader.delivered == e.reader.delivered + NewlyDelivered(e, f)
            && (!step.ReadDone? ==> f.reader.delivered == e.reader.delivered)
  {
    hide W.Inv, W.SendJob, W.OnWritten, W.CanEmit, W.Started, E.HandshakeInv, E.InSync, E.Scramble;
    hide Waiting, Word, ParseHeader;
  }

  lemma ServerSendsKeepsInv(l: L.Link, m: Msg)
    requires LinkInv(l) && FromServer(m)
    ensures LinkInv(ServerSends(l, m))
    ensures ServerSends(l, m).server.reader == l.server.reader && ServerSends(l, m).client == l.client
  {
    hide L.Inv, Sends;
    LinkStepKeepsInv(l, L.AtServer(E.Post(E.SendJob(m))));
  }

  lemma ClientSendsKeepsInv(l: L.Link, m: Msg)
    requires LinkInv(l) && FromClient(m)
    ensures LinkInv(ClientSends(l, m))
    ensures ClientSends(l, m).client.reader == l.client.reader && ClientSends(l, m).server == l.server
  {
    hide L.Inv, Sends;
    LinkStepKeepsInv(l, L.AtClient(E.Post(E.SendJob(m))));
  }

  lemma {:induction false} OfStranger(ts: seq<Tagged>, k: nat)
    requires forall t | t in ts :: t.from != k
    ensures Of(ts, k) == []
    decreases |ts|
  {
    if ts != [] {
      assert ts[|ts| - 1] in ts;
      OfStranger(ts[..|ts| - 1], k);
    }
  }

  lemma AcceptKeepsInv(n: Net, word: u64)
    requires Inv(n)
    ensures Inv(Apply(n, Accept(word)))
  {
    hide LinkInv, Log, R.Inv, R.Apply, L.Start;
    var q := Apply(n, Accept(word));
    StartLinkInv(word);
    assert Log(q) == Log(n) by { SameLog(n, q); }
    OfStranger(Log(n), |n.links|);
    assert |n.links| !in n.roster.accepted;
    R.StepKeepsInv(n.roster, R.Accept(|n.links|, true));
    AcceptAppends(n.roster, |n.links|);
  }

  lemma AcceptAppends(r: R.Roster<nat>, c: nat)
    ensures R.Apply(r, R.Accept(c, true)).accepted == r.accepted + [c]
  {
  }

  lemma SameLog(n: Net, q: Net)
    requires q.handled == n.handled && q.inbox == n.inbox
    ensures Log(q) == Log(n)
  {
  }

  /** One link is replaced; the queue gains what its server end newly delivered. */
  lemma LinkChangeKeepsInv(n: Net, k: nat, l: L.Link, q: Net)
    requires Inv(n) && k < |n.links| && LinkInv(l)
    requires var more := NewlyDelivered(n.links[k].server, l.server);
             && l.server.reader.delivered == n.links[k].server.reader.delivered + more
             && q == n.(links := n.links[k := l], inbox := n.inbox + Tag(k, more))
    requires n.links[k].client.reader.delivered <= l.client.reader.delivered
    ensures Inv(q)
  {
    hide LinkInv, RosterInv, Of;
    var more := NewlyDelivered(n.links[k].server, l.server);
    assert Tag(k, more) == if more == [] then [] else [Tagged(k, more[0])] by { TagOfOne(k, more); }
    forall j: nat | j < |q.links| ensures Of(Log(q), j) == q.links[j].server.reader.delivered {
      if more == [] {
        assert Log(q) == Log(n);
      } else {
        assert Log(q) == Log(n) + [Tagged(k, more[0])];
        OfSnoc(Log(n), Tagged(k, more[0]), j);
      }
    }
    assert RosterInv(q) by { SameRoster(n, q); }
  }

  lemma SameRoster(n: Net, q: Net)
    requires RosterInv(n) && q.roster == n.roster && |q.links| == |n.links|
    ensures RosterInv(q)
  {
  }

  lemma TagOfOne(k: nat, ms: seq<Msg>)
    requires |ms| <= 1
    ensures Tag(k, ms) == if ms == [] then [] else [Tagged(k, ms[0])]
  {
    if ms != [] {
      assert ms[..0] == [];
    }
  }

  lemma OnLinkKeepsInv(n: Net, k: nat, step: L.Step)
    requires Inv(n) && Enabled(n, OnLink(k, step))
    ensures Inv(Apply(n, OnLink(k, step)))
  {
    hide QueueInv, ShownInv, RosterInv, E.Inv, E.Enabled, E.Apply, Sends;
    var l := n.links[k];
    LinkStepKeepsInv(l, step);
    if step.AtServer? {
      DeliveredGrows(l.server, step.step);
    } else {
      DeliveredGrows(l.client, step.step);
      assert l.server.reader.delivered + [] == l.server.reader.delivered;
    }
    LinkChangeKeepsInv(n, k, L.Apply(l, step), Apply(n, OnLink(k, step)));
  }

  lemma ClientSendsKeepsNet(n: Net, k: nat, m: Msg)
    requires Inv(n) && k < |n.links| && FromClient(m)
    ensures Inv(n.(links := n.links[k := ClientSends(n.links[k], m)]))
  {
    hide QueueInv, ShownInv, RosterInv, LinkInv, ClientSends, FromClient;
    var l := n.links[k];
    ClientSendsKeepsInv(l, m);
    assert n.inbox + [] == n.inbox && l.server.reader.delivered + [] == l.server.reader.delivered;
    LinkChangeKeepsInv(n, k, ClientSends(l, m), n.(links := n.links[k := ClientSends(l, m)]));
  }

  lemma ShowKeepsInv(n: Net, k: nat)
    requires Inv(n) && Enabled(n, ShowNext(k))
    ensures Inv(Apply(n, ShowNext(k)))
  {
    hide LinkInv, R.Inv, BytesPopped, Of;
    EnoughToPop(n.links[k], |n.shown[k]|);
    SameLog(n, Apply(n, ShowNext(k)));
  }

  lemma NextIsKnown(n: Net)
    requires Inv(n) && n.inbox != []
    ensures var t := n.inbox[0];
            t.from < |n.links| && (React(t.msg).Bounce? ==> FromServer(t.msg))
  {
    hide LinkInv, RosterInv, ShownInv, Of, React, FromServer;
    var t := n.inbox[0];
    assert t in Log(n);
    assert Log(n) == n.handled + [t] + n.inbox[1..];
    PositionInClient(n.handled, t, n.inbox[1..]);
    SameReaction(n.links[t.from], |Of(n.handled, t.from)|);
  }

  /** Sends at server ends change neither what was delivered nor, but for the jobs, the links. */
  lemma TellAllKeepsLinks(links: seq<L.Link>, to: seq<nat>, m: Msg)
    requires (forall k: nat :: k < |links| ==> LinkInv(links[k])) && FromServer(m)
    ensures forall k: nat :: k < |links| ==>
              && LinkInv(TellAll(links, to, m)[k])
              && TellAll(links, to, m)[k].server.reader == links[k].server.reader
              && TellAll(links, to, m)[k].client == links[k].client
  {
    hide LinkInv, ServerSends, FromServer;
    forall k: nat | k < |links|
      ensures && LinkInv(TellAll(links, to, m)[k])
              && TellAll(links, to, m)[k].server.reader == links[k].server.reader
              && TellAll(links, to, m)[k].client == links[k].client
    {
      ServerSendsKeepsInv(links[k], m);
    }
  }

  lemma HandleKeepsInv(n: Net)
    requires Inv(n) && Enabled(n, HandleNext)
    ensures Inv(Apply(n, HandleNext))
  {
    hide LinkInv, R.Inv, R.Apply, R.Recipients, Of, React, FromServer, FromClient, TellAll, ServerSends;
    hide ServerMessageMsg;
    NextIsKnown(n);
    var t := n.inbox[0];
    var q := Apply(n, HandleNext);
    assert Log(q) == Log(n);
    match React(t.msg)
    case Bounce(m) =>
      BouncedIsItself(t.msg);
      ServerSendsKeepsInv(n.links[t.from], m);
    case TellOthers =>
      var closed := ClosedLinks(n.links);
      var to := R.Recipients(n.roster.clients, closed, {t.from});
      ServerMessageShape(R.CounterAfter(t.from));
      TellAllKeepsLinks(n.links, to, ServerMessageMsg(R.CounterAfter(t.from)));
      R.StepKeepsInv(n.roster, R.MessageAll(closed));
      RemovalKeepsAccepted(n.roster, closed);
    case Ignore =>
  }

  lemma BouncedIsItself(m: Msg)
    ensures React(m).Bounce? ==> React(m).msg == m
  {
  }

  lemma RemovalKeepsAccepted(r: R.Roster<nat>, closed: set<nat>)
    ensures R.Apply(r, R.MessageAll(closed)).accepted == r.accepted
  {
  }

  lemma ServerMessageShape(id: u32)
    ensures FromServer(ServerMessageMsg(id))
  {
  }

  lemma PingShape(time: u64)
    ensures FromClient(PingMsg(time)) && FromClient(MessageAllMsg())
  {
  }

  lemma StepKeepsInv(n: Net, s: Step)
    requires Inv(n) && Enabled(n, s)
    ensures Inv(Apply(n, s))
  {
    hide Inv, PingMsg, MessageAllMsg, FromClient;
    match s
    case Accept(word) => AcceptKeepsInv(n, word);
    case OnLink(k, step) => OnLinkKeepsInv(n, k, step);
    case PingServer(k, time) =>
      PingShape(time);
      ClientSendsKeepsNet(n, k, PingMsg(time));
    case MessageAll(k) =>
      PingShape(0);
      ClientSendsKeepsNet(n, k, MessageAllMsg());
    case HandleNext => HandleKeepsInv(n);
    case ShowNext(k) => ShowKeepsInv(n, k);
  }

  lemma {:induction false} RunKeepsInv(n: Net, steps: seq<Step>, q: Net)
    requires Inv(n) && Run(n, steps, q)
    ensures Inv(q)
    decreases |steps|
  {
    hide Inv, Enabled, Apply;
    if steps != [] {
      StepKeepsInv(n, steps[0]);
      RunKeepsInv(Apply(n, steps[0]), steps[1..], q);
    }
  }

  lemma InitialInv()
    ensures Inv(INITIAL_NET)
  {
    R.EmptyInv<nat>();
  }

  // ---- The end-to-end statements, over every run of the application ----

  /** Per-client order through the shared queue: what the server handled and what is still queued are, for each
      client, exactly what its connection delivered, in that order; and that is a prefix of the sticky image of
      what the client sent. */
  lemma PerClientOrder(steps: seq<Step>, n: Net, k: nat)
    requires Run(INITIAL_NET, steps, n) && k < |n.links|
    ensures Of(n.handled, k) + Of(n.inbox, k) == n.links[k].server.reader.delivered
    ensures Of(n.handled, k) <= Sticky([], n.links[k].client.out.pushed)
  {
    hide Run, LinkInv, ShownInv, RosterInv, Of;
    InitialInv();
    RunKeepsInv(INITIAL_NET, steps, n);
    OfConcat(n.handled, n.inbox, k);
    ServerDelivers(n.links[k]);
  }

  /** The sticky bodies do not change the server's replies: each message handled is answered exactly as the
      message that its client sent at that position. */
  lemma RepliesAsIfFaithful(steps: seq<Step>, n: Net, i: nat)
    requires Run(INITIAL_NET, steps, n) && i < |n.handled|
    ensures n.handled[i].from < |n.links|
    ensures var sent := n.links[n.handled[i].from].client.out.pushed;
            var at := |Of(n.handled[..i], n.handled[i].from)|;
            at < |sent| && React(n.handled[i].msg) == React(sent[at])
  {
    hide Run, LinkInv, ShownInv, RosterInv, Of, React;
    InitialInv();
    RunKeepsInv(INITIAL_NET, steps, n);
    var t := n.handled[i];
    assert t in Log(n);
    assert Log(n) == n.handled[..i] + [t] + (n.handled[i + 1..] + n.inbox);
    PositionInClient(n.handled[..i], t, n.handled[i + 1..] + n.inbox);
    SameReaction(n.links[t.from], |Of(n.handled[..i], t.from)|);
  }

  /** No client's `>>` ever finds too few bytes, in what it has shown or still has queued. */
  lemma ClientsNeverUnderflow(steps: seq<Step>, n: Net)
    requires Run(INITIAL_NET, steps, n)
    ensures !n.fault
    ensures forall k: nat, i: nat :: k < |n.links| && i < |n.links[k].client.reader.delivered| ==>
              var m := n.links[k].client.reader.delivered[i]; |m.body| >= BytesPopped(m)
  {
    hide Run, LinkInv, QueueInv, RosterInv, BytesPopped;
    InitialInv();
    RunKeepsInv(INITIAL_NET, steps, n);
    forall k: nat, i: nat | k < |n.links| && i < |n.links[k].client.reader.delivered|
      ensures |n.links[k].client.reader.delivered[i].body| >= BytesPopped(n.links[k].client.reader.delivered[i])
    {
      EnoughToPop(n.links[k], i);
    }
  }
}
