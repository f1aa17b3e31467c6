/** What the clients of the chat application finally show, over whole runs of `Network`. */
module Shown {
  import opened Bytes
  import opened Messages
  import opened Framing
  import opened ChatMessages
  import opened Network
  import Clients
  import W = Writer
  import E = Endpoint
  import L = Link
  import R = Rosters
  import T = Traffic

  // ---- Pings among messages ----

  function Pings(ms: seq<Msg>): seq<Msg> {
    if ms == [] then []
    else Pings(ms[..|ms| - 1]) + if ms[|ms| - 1].header.id == SERVER_PING then [ms[|ms| - 1]] else []
  }

  lemma PingsSnoc(ms: seq<Msg>, m: Msg)
    ensures Pings(ms + [m]) == Pings(ms) + if m.header.id == SERVER_PING then [m] else []
  {
    assert (ms + [m])[..|ms|] == ms;
  }

  lemma PingsOne(m: Msg)
    ensures Pings([m]) == if m.header.id == SERVER_PING then [m] else []
  {
    assert Pings([]) == [];
  }

  lemma {:induction false} PingsGrow(a: seq<Msg>, b: seq<Msg>)
    requires a <= b
    ensures Pings(a) <= Pings(b)
    decreases |b|
  {
    if |a| < |b| {
      PingsGrow(a, b[..|b| - 1]);
    } else {
      assert a == b;
    }
  }

  /** Sticky bodies leave pings alone: a ping has a body. */
  lemma {:induction false} PingsOfSticky(ms: seq<Msg>)
    requires forall m | m in ms :: m.header.id == SERVER_PING ==> m.body != []
    ensures Pings(Sticky([], ms)) == Pings(ms)
    decreases |ms|
  {
    if ms != [] {
      var front, m := ms[..|ms| - 1], ms[|ms| - 1];
      assert ms == front + [m] && m in ms;
      PingsOfSticky(front);
      StickySnoc([], front, m);
      PingsSnoc(Sticky([], front), Msg(m.header, Held([], ms)));
    }
  }

  /** A message without a body after a ping is delivered with the body of the ping: a chat client that asks for a
      message to all after a ping is not delivered faithfully. */
  lemma MessageAllAfterPing(time: u64)
    ensures var sent := [PingMsg(time), MessageAllMsg()];
            Sticky([], sent) == [PingMsg(time), Msg(MessageAllMsg().header, PingMsg(time).body)] != sent
  {
    var ping, all := PingMsg(time), MessageAllMsg();
    StickySnoc([], [], ping);
    StickySnoc([], [ping], all);
    assert [] + [ping] == [ping] && [ping] + [all] == [ping, all];
    assert |ping.body| == 8 && [ping, all][1].body == [];
  }

  // ---- The invariant ----

  /** What each server end was told to send holds exactly the pings handled from its client, in order. */
  ghost predicate EchoInv(n: Net) {
    forall k: nat :: k < |n.links| ==> Pings(E.Sent(n.links[k].server)) == Pings(Of(n.handled, k))
  }

  predicate AsksForAll(sent: seq<Msg>) {
    exists i :: 0 <= i < |sent| && sent[i].header.id == MESSAGE_ALL
  }

  /** `m` names another accepted client that has sent a message to all. */
  ghost predicate Named(n: Net, k: nat, m: Msg, j: nat) {
    j < |n.links| && j != k && m == ServerMessageMsg(R.CounterAfter(j)) && AsksForAll(n.links[j].client.out.pushed)
  }

  ghost predicate Justified(n: Net, k: nat, m: Msg) {
    m.header.id == SERVER_MESSAGE ==> exists j: nat :: Named(n, k, m, j)
  }

  ghost predicate HelloInv(n: Net) {
    forall k: nat, m :: k < |n.links| && m in E.Sent(n.links[k].server) ==> Justified(n, k, m)
  }

  ghost predicate ShownInv(n: Net) {
    EchoInv(n) && HelloInv(n)
  }

  /** Clients only ever push more. */
  ghost predicate ClientsGrow(n: Net, q: Net) {
    && |n.links| <= |q.links|
    && forall k: nat :: k < |n.links| ==> n.links[k].client.out.pushed <= q.links[k].client.out.pushed
  }

  lemma StaysJustified(n: Net, q: Net, k: nat, m: Msg)
    requires Justified(n, k, m) && ClientsGrow(n, q)
    ensures Justified(q, k, m)
  {
    hide ServerMessageMsg;
    if m.header.id == SERVER_MESSAGE {
      var j: nat :| Named(n, k, m, j);
      var i :| 0 <= i < |n.links[j].client.out.pushed| && n.links[j].client.out.pushed[i].header.id == MESSAGE_ALL;
      assert q.links[j].client.out.pushed[i].header.id == MESSAGE_ALL;
      assert Named(q, k, m, j);
    }
  }

  /** A step by which the server is told to send nothing to the clients it had. */
  lemma QuietStepKeepsInv(n: Net, q: Net)
    requires ShownInv(n) && ClientsGrow(n, q) && q.handled == n.handled
    requires forall k: nat :: k < |n.links| ==> E.Sent(q.links[k].server) == E.Sent(n.links[k].server)
    requires forall k: nat :: |n.links| <= k < |q.links| ==>
               Of(n.handled, k) == [] && E.Sent(q.links[k].server) == [AcceptMsg()]
    ensures ShownInv(q)
  {
    hide E.Sent, Justified, Of, ClientsGrow;
    PingsOne(AcceptMsg());
    PingsOfNone();
    hide Pings;
    forall k: nat, m | k < |q.links| && m in E.Sent(q.links[k].server) ensures Justified(q, k, m) {
      if k < |n.links| {
        StaysJustified(n, q, k, m);
      } else {
        GreetingIsJustified(q, k);
      }
    }
  }

  lemma GreetingIsJustified(n: Net, k: nat)
    ensures Justified(n, k, AcceptMsg())
  {
  }

  lemma AcceptKeepsShown(n: Net, word: u64)
    requires Inv(n) && ShownInv(n)
    ensures ShownInv(Apply(n, Accept(word)))
  {
    hide LinkInv, RosterInv, ShownInv, R.Apply, L.Start, E.Sent;
    var q := Apply(n, Accept(word));
    OfStranger(n.handled, |n.links|) by {
      forall t | t in n.handled ensures t.from != |n.links| {
        assert t in Log(n);
      }
    }
    T.StartSends(word);
    QuietStepKeepsInv(n, q);
  }

  /** A step at one link that posts nothing at its server end. */
  lemma LinkStepKeepsShown(n: Net, k: nat, step: L.Step, q: Net)
    requires ShownInv(n) && k < |n.links| && L.Enabled(n.links[k], step)
    requires step.AtServer? ==> E.Posted(step.step) == []
    requires q.handled == n.handled && q.links == n.links[k := L.Apply(n.links[k], step)]
    ensures ShownInv(q)
  {
    hide ShownInv, E.Sent, E.Enabled, E.Apply;
    var l := n.links[k];
    E.StepSends(if step.AtServer? then l.server else l.client, step.step);
    assert step.AtServer? ==> E.Sent(l.server) + [] == E.Sent(l.server);
    QuietStepKeepsInv(n, q);
  }

  // ---- Handling a message ----

  /** A step that handles `t` and posts `more(k)` at each server end `k`. */
  lemma HandlingKeepsEcho(n: Net, q: Net, t: Tagged, k: nat, more: seq<Msg>)
    requires EchoInv(n) && k < |n.links| == |q.links| && q.handled == n.handled + [t]
    requires E.Sent(q.links[k].server) == E.Sent(n.links[k].server) + more && |more| <= 1
    requires Pings(more) == if t.from == k && t.msg.header.id == SERVER_PING then [t.msg] else []
    ensures Pings(E.Sent(q.links[k].server)) == Pings(Of(q.handled, k))
  {
    hide E.Sent, Of, Pings;
    OfSnoc(n.handled, t, k);
    if t.from == k {
      PingsSnoc(Of(n.handled, k), t.msg);
    } else {
      assert Of(n.handled, k) + [] == Of(n.handled, k);
    }
    PingsOfMore(E.Sent(n.links[k].server), more);
  }

  lemma PingsOfMore(s: seq<Msg>, more: seq<Msg>)
    requires |more| <= 1
    ensures Pings(s + more) == Pings(s) + Pings(more)
  {
    hide Pings;
    if more == [] {
      PingsOfNone();
      assert s + [] == s && Pings(s) + [] == Pings(s);
    } else {
      var m := more[0];
      assert more == [m];
      PingsSnoc(s, m);
      PingsOne(m);
    }
  }

  /** What handling `t` posts at server end `k`. */
  function Told(n: Net, t: Tagged, k: nat): seq<Msg>
    requires t.from < |n.links|
  {
    match React(t.msg)
    case Bounce(m) => if k == t.from then [m] else []
    case TellOthers =>
      if k in R.Recipients(n.roster.clients, ClosedLinks(n.links), {t.from})
      then [ServerMessageMsg(R.CounterAfter(t.from))] else []
    case Ignore => []
  }

  lemma SendTells(l: L.Link, m: Msg)
    ensures E.Sent(ServerSends(l, m).server) == E.Sent(l.server) + [m] && ServerSends(l, m).client == l.client
  {
    E.StepSends(l.server, E.Post(E.SendJob(m)));
  }

  lemma HandleTells(n: Net, t: Tagged, k: nat)
    requires t.from < |n.links| && k < |n.links|
    ensures var q := Handle(n, t);
            && |q.links| == |n.links| && q.links[k].client == n.links[k].client
            && E.Sent(q.links[k].server) == E.Sent(n.links[k].server) + Told(n, t, k)
  {
    hide E.Sent, ServerSends, R.Recipients, R.Apply, ServerMessageMsg, ClosedLinks;
    var l := n.links[k];
    assert E.Sent(l.server) + [] == E.Sent(l.server);
    match React(t.msg)
    case Bounce(m) => SendTells(l, m);
    case TellOthers => SendTells(l, ServerMessageMsg(R.CounterAfter(t.from)));
    case Ignore =>
  }

  lemma ToldPings(n: Net, t: Tagged, k: nat)
    requires t.from < |n.links|
    ensures |Told(n, t, k)| <= 1
    ensures Pings(Told(n, t, k)) == if t.from == k && t.msg.header.id == SERVER_PING then [t.msg] else []
  {
    hide R.Recipients, ClosedLinks, Pings;
    assert Pings([]) == [] by { PingsOfNone(); }
    match React(t.msg)
    case Bounce(m) => PingsOne(m);
    case TellOthers => PingsOne(ServerMessageMsg(R.CounterAfter(t.from)));
    case Ignore =>
  }

  lemma PingsOfNone()
    ensures Pings([]) == []
  {
  }

  /** The message at the front of the queue was sent by its client, with the same reaction. */
  lemma FrontWasSent(n: Net)
    requires Inv(n) && n.inbox != []
    ensures var t := n.inbox[0];
            t.from < |n.links| && (React(t.msg).TellOthers? ==> AsksForAll(n.links[t.from].client.out.pushed))
  {
    hide LinkInv, RosterInv, Network.ShownInv, Of;
    var t := n.inbox[0];
    assert t in Log(n);
    assert Log(n) == n.handled + [t] + n.inbox[1..];
    PositionInClient(n.handled, t, n.inbox[1..]);
    var i := |Of(n.handled, t.from)|;
    SameReaction(n.links[t.from], i);
    hide QueueInv, LinksInv, Log;
    assert React(t.msg).TellOthers? ==> n.links[t.from].client.out.pushed[i].header.id == MESSAGE_ALL;
  }

  lemma ToldIsJustified(n: Net, k: nat)
    requires Inv(n) && n.inbox != [] && k < |n.links| && n.inbox[0].from < |n.links|
    ensures forall m | m in Told(n, n.inbox[0], k) :: Justified(n, k, m)
  {
    hide Inv, ClosedLinks, AsksForAll, R.Recipients;
    var t := n.inbox[0];
    FrontWasSent(n);
    forall m | m in Told(n, t, k) ensures Justified(n, k, m) {
      if m.header.id == SERVER_MESSAGE {
        RecipientsAreOthers(n, t.from, k);
        assert Named(n, k, m, t.from);
      }
    }
  }

  lemma RecipientsAreOthers(n: Net, from: nat, k: nat)
    requires k in R.Recipients(n.roster.clients, ClosedLinks(n.links), {from})
    ensures k != from
  {
    R.KeptFrom(n.roster.clients, ClosedLinks(n.links) + {from}, k);
  }

  lemma HandleKeepsShown(n: Net)
    requires Inv(n) && ShownInv(n) && Enabled(n, HandleNext)
    ensures ShownInv(Apply(n, HandleNext))
  {
    hide Inv, E.Sent, Justified, Told, Handle, Pings, Of, ClientsGrow;
    var t := n.inbox[0];
    var q := Apply(n, HandleNext);
    assert |q.links| == |n.links| by { HandleTells(n, t, t.from); }
    assert ClientsGrow(n, q) by { HandleGrows(n, t, q); }
    forall k: nat | k < |q.links| ensures Pings(E.Sent(q.links[k].server)) == Pings(Of(q.handled, k)) {
      HandleTells(n, t, k);
      ToldPings(n, t, k);
      HandlingKeepsEcho(n, q, t, k, Told(n, t, k));
    }
    forall k: nat, m | k < |q.links| && m in E.Sent(q.links[k].server) ensures Justified(q, k, m) {
      HandleTells(n, t, k);
      ToldIsJustified(n, k);
      assert m in E.Sent(n.links[k].server) || m in Told(n, t, k);
      StaysJustified(n, q, k, m);
    }
  }

  lemma HandleGrows(n: Net, t: Tagged, q: Net)
    requires t.from < |n.links| && q.links == Handle(n, t).links
    ensures ClientsGrow(n, q)
  {
    hide Handle, E.Sent, Told;
    HandleTells(n, t, t.from);
    forall k: nat | k < |n.links| ensures q.links[k].client == n.links[k].client {
      HandleTells(n, t, k);
    }
  }

  // ---- Runs ----

  lemma StepKeepsShown(n: Net, s: Step)
    requires Inv(n) && ShownInv(n) && Enabled(n, s)
    ensures ShownInv(Apply(n, s))
  {
    hide Inv, ShownInv, PingMsg, MessageAllMsg, L.Enabled, L.Apply, Handle;
    match s
    case Accept(word) => AcceptKeepsShown(n, word);
    case OnLink(k, step) => LinkStepKeepsShown(n, k, step, Apply(n, s));
    case PingServer(k, time) => ClientSendKeepsShown(n, k, PingMsg(time), Apply(n, s));
    case MessageAll(k) => ClientSendKeepsShown(n, k, MessageAllMsg(), Apply(n, s));
    case HandleNext => HandleKeepsShown(n);
    case ShowNext(k) => QuietKeepsShown(n, Apply(n, s));
  }

  lemma ClientSendKeepsShown(n: Net, k: nat, m: Msg, q: Net)
    requires ShownInv(n) && k < |n.links|
    requires q.handled == n.handled && q.links == n.links[k := ClientSends(n.links[k], m)]
    ensures ShownInv(q)
  {
    hide ShownInv;
    if n.links[k].client.open {
      LinkStepKeepsShown(n, k, L.AtClient(E.Post(E.SendJob(m))), q);
    } else {
      assert q.links == n.links;
      QuietKeepsShown(n, q);
    }
  }

  lemma QuietKeepsShown(n: Net, q: Net)
    requires ShownInv(n) && q.handled == n.handled && q.links == n.links
    ensures ShownInv(q)
  {
    hide ShownInv, E.Sent;
    QuietStepKeepsInv(n, q);
  }

  lemma {:induction false} RunKeepsShown(n: Net, steps: seq<Step>, q: Net)
    requires Inv(n) && ShownInv(n) && Run(n, steps, q)
    ensures Inv(q) && ShownInv(q)
    decreases |steps|
  {
    hide Inv, ShownInv, Enabled, Apply;
    if steps != [] {
      StepKeepsInv(n, steps[0]);
      StepKeepsShown(n, steps[0]);
      RunKeepsShown(Apply(n, steps[0]), steps[1..], q);
    }
  }

  lemma Reached(steps: seq<Step>, n: Net)
    requires Run(INITIAL_NET, steps, n)
    ensures Inv(n) && ShownInv(n)
  {
    hide Run, Inv;
    InitialInv();
    RunKeepsShown(INITIAL_NET, steps, n);
  }

  // ---- What is shown ----

  /** Round trip of the pings, in every run: those delivered to a client are, in order, a prefix of those it sent,
      whatever other traffic, sticky bodies, early sends, failures and closes there were. */
  lemma PingsComeBack(steps: seq<Step>, n: Net, k: nat)
    requires Run(INITIAL_NET, steps, n) && k < |n.links|
    ensures Pings(n.links[k].client.reader.delivered) <= Pings(n.links[k].client.out.pushed)
  {
    hide Run, Network.ShownInv, RosterInv, HelloInv, Of, Pings, Sticky;
    Reached(steps, n);
    PerClientOrder(steps, n, k);
    hide QueueInv;
    EchoesComeBack(n.links[k], n.handled, k);
  }

  lemma EchoesComeBack(l: L.Link, handled: seq<Tagged>, k: nat)
    requires LinkInv(l) && Pings(E.Sent(l.server)) == Pings(Of(handled, k))
    requires Of(handled, k) <= Sticky([], l.client.out.pushed)
    ensures Pings(l.client.reader.delivered) <= Pings(l.client.out.pushed)
  {
    hide L.Inv, Of, Pings, Sticky;
    ClientDelivers(l);
    PingsOfSticky(l.server.out.pushed);
    PingsOfSticky(l.client.out.pushed);
    PingsGrow(l.client.reader.delivered, Sticky([], l.server.out.pushed));
    PingsGrow(l.server.out.pushed, E.Sent(l.server));
    PingsGrow(Of(handled, k), Sticky([], l.client.out.pushed));
  }

  /** Every ping that a client shows, it shows with the time it carried when it was sent. */
  lemma ShownPing(steps: seq<Step>, n: Net, k: nat, i: nat) returns (time: u64)
    requires Run(INITIAL_NET, steps, n) && k < |n.links| && i < |n.links[k].client.reader.delivered|
    requires n.links[k].client.reader.delivered[i].header.id == SERVER_PING
    ensures n.links[k].client.reader.delivered[i] == PingMsg(time)
    ensures Clients.Show(PingMsg(time)) == Clients.Ping(Datum(8, time))
  {
    hide Run, QueueInv, RosterInv, Network.ShownInv, ShownInv, L.Inv;
    Reached(steps, n);
    var l := n.links[k];
    ClientDelivers(l);
    DeliveredAgainstSent(l.client.reader.delivered, l.server.out.pushed, i);
    var m := l.client.reader.delivered[i];
    assert FromServer(l.server.out.pushed[i]);
    PingOfBody(m);
    time := Value(m.body);
    Clients.PingShowsItsTime(time);
  }

  lemma PingOfBody(m: Msg)
    requires m.header == Header(SERVER_PING, 16) && |m.body| == 8
    ensures Value(m.body) < 0x1_0000_0000_0000_0000 && m == PingMsg(Value(m.body))
  {
    SpanOfWords();
    ImageOfValue(m.body);
  }

  /** Every server message that a client is delivered names another accepted client, which has sent a message to
      all, and is shown as such. */
  lemma ShownHello(steps: seq<Step>, n: Net, k: nat, i: nat) returns (j: nat)
    requires Run(INITIAL_NET, steps, n) && k < |n.links| && i < |n.links[k].client.reader.delivered|
    requires n.links[k].client.reader.delivered[i].header.id == SERVER_MESSAGE
    ensures j < |n.links| && j != k && AsksForAll(n.links[j].client.out.pushed)
    ensures n.links[k].client.reader.delivered[i] == ServerMessageMsg(R.CounterAfter(j))
    ensures Clients.Show(ServerMessageMsg(R.CounterAfter(j))) == Clients.Hello(Datum(4, R.CounterAfter(j)))
  {
    hide Run, QueueInv, RosterInv, Network.ShownInv, EchoInv, L.Inv, AsksForAll, ServerMessageMsg;
    Reached(steps, n);
    var l := n.links[k];
    ClientDelivers(l);
    DeliveredAgainstSent(l.client.reader.delivered, l.server.out.pushed, i);
    var m := l.server.out.pushed[i];
    assert FromServer(m) && m in E.Sent(l.server);
    assert Justified(n, k, m);
    j :| Named(n, k, m, j);
    Clients.HelloShowsItsSender(R.CounterAfter(j));
  }
}
