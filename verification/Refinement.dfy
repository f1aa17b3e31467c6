/** The server object is the server of `Network`: each thing it does is the step of `Network` of that name, so what is
    proved about runs of `Network` holds of the object. */
module Refinement {
  import opened Bytes
  import opened Messages
  import opened Framing
  import opened TsQueues
  import opened Connections
  import opened ChatMessages
  import opened Servers
  import E = Endpoint
  import L = Link
  import N = Network
  import R = Rosters
  import T = Traffic

  /** The connections with the numbers `ks`. */
  ghost function Pick(cs: seq<Connection>, ks: seq<nat>): (r: seq<Connection?>)
    ensures |r| == |ks| && forall i :: 0 <= i < |r| ==> r[i] == if ks[i] < |cs| then cs[ks[i]] else null
  {
    seq(|ks|, i requires 0 <= i < |ks| => if ks[i] < |cs| then cs[ks[i]] else null)
  }

  /** Messages tagged with connections, for messages tagged with numbers. */
  ghost function Owners(cs: seq<Connection>, ts: seq<N.Tagged>): (r: seq<Owned>)
    ensures |r| == |ts|
    ensures forall i :: 0 <= i < |r| ==> r[i] == Owned(if ts[i].from < |cs| then cs[ts[i].from] else null, ts[i].msg)
  {
    seq(|ts|, i requires 0 <= i < |ts| => Owned(if ts[i].from < |cs| then cs[ts[i].from] else null, ts[i].msg))
  }

  /** Connection `k` is in the state of server end `k`. */
  ghost predicate StatesMatch(s: Server, n: N.Net)
    reads s`accepted, set c | c in s.accepted :: c, set c | c in s.accepted :: c.queue
  {
    && |s.accepted| == |n.links|
    && forall k: nat :: k < |s.accepted| ==> s.accepted[k].State() == n.links[k].server
  }

  /** The clients, the reports, the queue and the messages handled are the same. */
  ghost predicate RestMatches(s: Server, n: N.Net)
    reads s`accepted, s`clients, s`reported, s`handled, s.inbox`items
  {
    && s.clients == Pick(s.accepted, n.roster.clients)
    && s.reported == Pick(s.accepted, n.roster.reported)
    && s.inbox.items == Owners(s.accepted, n.inbox)
    && s.handled == Owners(s.accepted, n.handled)
  }

  /** The object `s` is the server of `n`. */
  ghost predicate Matches(s: Server, n: N.Net)
    reads s, s.inbox, set c | c in s.accepted :: c, set c | c in s.accepted :: c.queue
  {
    StatesMatch(s, n) && RestMatches(s, n)
  }

  lemma {:induction false} PickWithout(cs: seq<Connection>, ks: seq<nat>, gone: set<nat>, closed: set<Connection?>)
    requires forall k | k in ks :: k < |cs| && (cs[k] in closed <==> k in gone)
    ensures R.Without(Pick(cs, ks), closed) == Pick(cs, R.Without(ks, gone))
    ensures R.Only(Pick(cs, ks), closed) == Pick(cs, R.Only(ks, gone))
    decreases |ks|
  {
    if ks != [] {
      var front, k := ks[..|ks| - 1], ks[|ks| - 1];
      assert ks == front + [k] && k in ks;
      assert forall j | j in front :: j in ks;
      PickWithout(cs, front, gone, closed);
      assert cs[k] in closed <==> k in gone;
      PickOne(cs, k);
      hide Pick;
      PickConcat(cs, front, [k]);
      R.FilterSnoc(Pick(cs, front), cs[k], closed);
      R.FilterSnoc(front, k, gone);
      hide R.Without, R.Only;
      PickConcat(cs, R.Without(front, gone), if k in gone then [] else [k]);
      PickConcat(cs, R.Only(front, gone), if k in gone then [k] else []);
    }
  }

  lemma PickOne(cs: seq<Connection>, k: nat)
    requires k < |cs|
    ensures Pick(cs, [k]) == [cs[k]] && Pick(cs, []) == []
  {
  }

  lemma PickConcat(cs: seq<Connection>, a: seq<nat>, b: seq<nat>)
    ensures Pick(cs, a + b) == Pick(cs, a) + Pick(cs, b)
  {
  }

  /** A connection is held by the object exactly when its number is held in `Network`. */
  lemma HeldAlike(s: Server, n: N.Net, k: nat)
    requires s.Valid() && Matches(s, n) && N.Inv(n) && k < |n.links|
    ensures s.accepted[k] in s.clients <==> k in n.roster.clients
    ensures forall j | j in n.roster.clients :: j < |n.links|
  {
    hide N.LinksInv, N.QueueInv, N.ShownInv, R.Without, Connection.State;
    forall j | j in n.roster.clients ensures j < |n.links| {
      R.HeldOrReported(n.roster, j);
    }
    assert R.Distinct(s.AsRoster().accepted);
    hide R.Inv;
    if s.accepted[k] in s.clients {
      var i :| 0 <= i < |s.clients| && s.clients[i] == s.accepted[k];
      var j := n.roster.clients[i];
      assert j in n.roster.clients && s.accepted[j] == s.accepted[k];
    }
    forall i | 0 <= i < |n.roster.clients| && n.roster.clients[i] == k ensures s.accepted[k] in s.clients {
      assert s.clients[i] == s.accepted[k];
    }
  }

  lemma FrontIsKnown(s: Server, n: N.Net)
    requires s.Valid() && Matches(s, n) && N.Inv(n) && s.inbox.items != []
    ensures N.Enabled(n, N.HandleNext)
    ensures var t := n.inbox[0];
            s.inbox.items[0] == Owned(s.accepted[t.from], t.msg) && s.accepted[t.from].id == R.CounterAfter(t.from)
  {
    hide N.LinksInv, N.ShownInv, N.RosterInv, R.Inv, Connection.State, N.Of;
    var t := n.inbox[0];
    assert t in N.Log(n);
    s.ClientIsAccounted(t.from);
  }

  /** What handling the next message posts to a connection is what the step of `Network` posts at its server end. */
  lemma RepliesAlike(s: Server, n: N.Net, k: nat)
    requires s.Valid() && Matches(s, n) && N.Inv(n) && s.inbox.items != [] && k < |n.links|
    requires N.Enabled(n, N.HandleNext)
    ensures var t, server, q := n.inbox[0], n.links[k].server, N.Apply(n, N.HandleNext);
            && |q.links| == |n.links|
            && q.links[k].server == server.(jobs := server.jobs +
                 Server.Replies(s.accepted[k], s.OpenClients(), s.accepted[t.from], t.msg))
  {
    hide N.Inv, N.Apply, ServerMessageMsg, R.Inv;
    FrontIsKnown(s, n);
    var t, server := n.inbox[0], n.links[k].server;
    HeldAlike(s, n, k);
    assert s.accepted[k].State() == server;
    assert s.accepted[t.from] == s.accepted[k] <==> t.from == k by { AcceptedOnce(s, t.from, k); }
    hide Matches, Connection.State;
    T.HandleKeepsLength(n);
    assert server.jobs + [] == server.jobs;
    if t.msg.header.id == MESSAGE_ALL {
      T.MessageAllOutcome(n, k);
    } else if t.msg.header.id == SERVER_PING {
      T.PingOutcome(n, k);
    } else {
      T.OtherOutcome(n);
    }
  }

  lemma AcceptedOnce(s: Server, i: nat, j: nat)
    requires s.Valid() && i < |s.accepted| && j < |s.accepted|
    ensures s.accepted[i] == s.accepted[j] <==> i == j
  {
    var a := s.AsRoster().accepted;
    assert a[i] == s.accepted[i] && a[j] == s.accepted[j];
  }

  /** And it removes and reports the same clients. */
  lemma RemovalAlike(s: Server, n: N.Net)
    requires s.Valid() && Matches(s, n) && N.Inv(n) && N.Enabled(n, N.HandleNext)
    ensures var r, q := s.AsRoster(), N.Apply(n, N.HandleNext).roster;
            var all := n.inbox[0].msg.header.id == MESSAGE_ALL;
            var r' := if all then R.Apply(r, R.MessageAll(s.ClosedClients())) else r;
            Pick(s.accepted, q.clients) == r'.clients && Pick(s.accepted, q.reported) == r'.reported
  {
    hide N.Inv, R.Inv, R.Without, R.Only, N.TellAll, ServerMessageMsg, Pick, Connection.State;
    if n.inbox[0].msg.header.id == MESSAGE_ALL {
      ClosedAlike(s, n);
      PickWithout(s.accepted, n.roster.clients, N.ClosedLinks(n.links), s.ClosedClients());
      PickConcat(s.accepted, n.roster.reported, R.Only<nat>(n.roster.clients, N.ClosedLinks(n.links)));
    }
  }

  lemma ClosedAlike(s: Server, n: N.Net)
    requires s.Valid() && Matches(s, n) && N.Inv(n)
    ensures forall k | k in n.roster.clients ::
              k < |s.accepted| && (s.accepted[k] in s.ClosedClients() <==> k in N.ClosedLinks(n.links))
  {
    hide N.Inv, R.Inv;
    forall k | k in n.roster.clients
      ensures k < |s.accepted| && (s.accepted[k] in s.ClosedClients() <==> k in N.ClosedLinks(n.links))
    {
      HeldAreKnown(n, k);
      HeldAlike(s, n, k);
      assert s.accepted[k].State() == n.links[k].server;
    }
  }

  lemma HeldAreKnown(n: N.Net, k: nat)
    requires N.Inv(n) && k in n.roster.clients
    ensures k < |n.links|
  {
    hide R.Inv;
    R.HeldOrReported(n.roster, k);
  }

  lemma AllRepliesAlike(s: Server, n: N.Net)
    requires s.Valid() && Matches(s, n) && N.Inv(n) && s.inbox.items != [] && N.Enabled(n, N.HandleNext)
    ensures var t, q := n.inbox[0], N.Apply(n, N.HandleNext);
            && |q.links| == |n.links| && t.from < |n.links| == |s.accepted|
            && forall k: nat :: k < |n.links| ==>
                 q.links[k].server == n.links[k].server.(jobs := n.links[k].server.jobs +
                   Server.Replies(s.accepted[k], s.OpenClients(), s.accepted[t.from], t.msg))
  {
    hide N.Inv, N.Apply, R.Inv, Server.Replies, Connection.State;
    T.HandleKeepsLength(n);
    var t, q := n.inbox[0], N.Apply(n, N.HandleNext);
    forall k: nat | k < |n.links|
      ensures q.links[k].server == n.links[k].server.(jobs := n.links[k].server.jobs +
                Server.Replies(s.accepted[k], s.OpenClients(), s.accepted[t.from], t.msg))
    {
      RepliesAlike(s, n, k);
    }
  }

  lemma RestOfHandling(n: N.Net)
    requires N.Enabled(n, N.HandleNext)
    ensures var q := N.Apply(n, N.HandleNext); q.inbox == n.inbox[1..] && q.handled == n.handled + [n.inbox[0]]
  {
  }

  twostate predicate OnlyJobsDiffer(c: Connection)
    reads c, c.queue
  {
    && c.open == old(c.open) && c.ops == old(c.ops) && c.queue.items == old(c.queue.items) && c.past == old(c.past)
    && c.reading == old(c.reading) && c.phase == old(c.phase) && c.got == old(c.got) && c.temp == old(c.temp)
    && c.handshakeOut == old(c.handshakeOut) && c.handshakeIn == old(c.handshakeIn)
    && c.handshakeCheck == old(c.handshakeCheck) && c.frames == old(c.frames) && c.delivered == old(c.delivered)
    && c.received == old(c.received) && c.validations == old(c.validations) && c.early == old(c.early)
  }

  twostate lemma StatesDifferInJobs(s: Server)
    requires s.accepted == old(s.accepted) && forall c | c in s.accepted :: OnlyJobsDiffer(c)
    ensures forall c | c in s.accepted :: c.State() == old(c.State()).(jobs := c.jobs)
  {
  }

  lemma JobsAlike(s: Server, n: N.Net)
    requires StatesMatch(s, n)
    ensures forall k: nat :: k < |s.accepted| ==> n.links[k].server.jobs == s.accepted[k].jobs
  {
  }

  lemma OwnersSplit(cs: seq<Connection>, ts: seq<N.Tagged>, before: seq<N.Tagged>)
    requires ts != []
    ensures Owners(cs, ts)[1..] == Owners(cs, ts[1..])
    ensures Owners(cs, before + [ts[0]]) == Owners(cs, before) + [Owners(cs, ts)[0]]
  {
  }

  /** One round of the loop of `update`. */
  method Round(s: Server)
    requires s.Valid() && s.inbox.items != []
    modifies s`clients, s`reported, s`handled, s.inbox`items, (set c | c in s.accepted)`jobs
    ensures s.Valid()
    ensures s.inbox.items == old(s.inbox.items)[1..] && s.handled == old(s.handled) + [old(s.inbox.items)[0]]
    ensures var o := old(s.inbox.items)[0];
            && o.remote != null
            && s.AsRoster() == (if o.msg.header.id != MESSAGE_ALL then old(s.AsRoster())
                                else R.Apply(old(s.AsRoster()), R.MessageAll(old(s.ClosedClients()))))
            && forall c | c in s.accepted ::
                 && c.jobs == old(c.jobs) + Server.Replies(c, old(s.OpenClients()), o.remote, o.msg)
                 && c.State() == old(c.State()).(jobs := c.jobs)
  {
    hide R.Inv, R.Apply, Server.Replies, Server.OpenClients, Server.ClosedClients, Server.AsRoster, Connection.State;
    var o := s.inbox.PopFront();
    s.OnMessage(o.remote, o.msg);
    StatesDifferInJobs(s);
  }

  /** It is the step of `Network`. */
  method HandleNext(s: Server, ghost n: N.Net) returns (ghost q: N.Net)
    requires s.Valid() && Matches(s, n) && N.Inv(n) && s.inbox.items != []
    modifies s`clients, s`reported, s`handled, s.inbox`items, (set c | c in s.accepted)`jobs
    ensures N.Enabled(n, N.HandleNext) && q == N.Apply(n, N.HandleNext)
    ensures s.Valid() && Matches(s, q) && N.Inv(q)
  {
    hide N.Inv, N.Apply, R.Inv, R.Apply, Server.Replies, Server.OpenClients, Server.ClosedClients, Server.AsRoster;
    hide Connection.State, Pick, Owners, N.Enabled, Server.Valid;
    FrontIsKnown(s, n);
    JobsAlike(s, n);
    AllRepliesAlike(s, n);
    RemovalAlike(s, n);
    RestOfHandling(n);
    OwnersSplit(s.accepted, n.inbox, n.handled);
    N.StepKeepsInv(n, N.HandleNext);
    q := N.Apply(n, N.HandleNext);
    Round(s);
    RosterFields(s);
    StatesAfter(s, n, q);
  }

  lemma StatesAfter(s: Server, n: N.Net, q: N.Net)
    requires |s.accepted| == |n.links| == |q.links|
    requires forall k: nat :: k < |n.links| ==>
               && q.links[k].server == n.links[k].server.(jobs := q.links[k].server.jobs)
               && s.accepted[k].jobs == q.links[k].server.jobs
               && s.accepted[k].State() == n.links[k].server.(jobs := s.accepted[k].jobs)
    ensures StatesMatch(s, q)
  {
    hide Connection.State;
  }

  lemma RosterFields(s: Server)
    ensures s.AsRoster().clients == s.clients && s.AsRoster().reported == s.reported
  {
  }

  /** A new server is the server of the initial state. */
  lemma StartMatches(s: Server)
    requires s.accepted == [] && s.clients == [] && s.reported == [] && s.handled == [] && s.inbox.items == []
    ensures Matches(s, N.INITIAL_NET) && N.Inv(N.INITIAL_NET)
  {
    N.InitialInv();
  }

  lemma PickMore(cs: seq<Connection>, c: Connection, ks: seq<nat>)
    requires forall k | k in ks :: k < |cs|
    ensures Pick(cs + [c], ks) == Pick(cs, ks)
    ensures Pick(cs + [c], ks + [|cs|]) == Pick(cs, ks) + [c]
  {
    assert forall i :: 0 <= i < |ks| ==> ks[i] in ks;
  }

  lemma OwnersMore(cs: seq<Connection>, c: Connection, ts: seq<N.Tagged>)
    requires forall t | t in ts :: t.from < |cs|
    ensures Owners(cs + [c], ts) == Owners(cs, ts)
  {
    assert forall i :: 0 <= i < |ts| ==> ts[i] in ts;
  }

  lemma AcceptMatches(s: Server, n: N.Net, was: seq<Connection>, c: Connection, word: u64)
    requires N.RosterInv(n) && |was| == |n.links|
    requires forall t | t in n.inbox + n.handled :: t.from < |n.links|
    requires forall k | k in n.roster.reported :: k < |n.links|
    requires forall k | k in n.roster.clients :: k < |n.links|
    requires s.accepted == was + [c] && s.clients == Pick(was, n.roster.clients) + [c]
    requires s.reported == Pick(was, n.roster.reported)
    requires s.inbox.items == Owners(was, n.inbox) && s.handled == Owners(was, n.handled)
    requires c.State() == E.NewServer(word, [E.SendJob(AcceptMsg())])
    requires forall k: nat :: k < |was| ==> was[k].State() == n.links[k].server
    ensures Matches(s, N.Apply(n, N.Accept(word)))
  {
    hide Connection.State, E.NewServer, AcceptMsg, Pick, Owners;
    assert forall t | t in n.inbox :: t in n.inbox + n.handled;
    assert forall t | t in n.handled :: t in n.inbox + n.handled;
    PickMore(was, c, n.roster.clients);
    PickMore(was, c, n.roster.reported);
    OwnersMore(was, c, n.inbox);
    OwnersMore(was, c, n.handled);
    assert forall k: nat :: k < |n.links| ==> s.accepted[k] == was[k];
  }

  lemma TagsAreKnown(n: N.Net)
    requires N.Inv(n)
    ensures forall t | t in n.inbox + n.handled :: t.from < |n.links|
    ensures forall k | k in n.roster.reported :: k < |n.links|
    ensures forall k | k in n.roster.clients :: k < |n.links|
  {
    hide N.LinkInv, N.ShownInv, N.Of, R.Without;
    forall t | t in n.inbox + n.handled ensures t.from < |n.links| {
      assert t in N.Log(n);
    }
    forall k | k in n.roster.clients ensures k < |n.links| {
      HeldAreKnown(n, k);
    }
  }

  /** The accept handler, with the answer and the greeting of `OnClientConnection`. */
  method AcceptClient(s: Server, clock: u64, ghost n: N.Net) returns (c: Connection, ghost q: N.Net)
    requires s.Valid() && Matches(s, n) && N.Inv(n)
    modifies s`clients, s`nextId, s`accepted
    ensures q == N.Apply(n, N.Accept(clock))
    ensures s.Valid() && Matches(s, q) && N.Inv(q)
  {
    hide N.Inv, N.Apply, R.Inv, Connection.State, E.NewServer, AcceptMsg, Pick, Owners;
    ghost var was := s.accepted;
    TagsAreKnown(n);
    assert N.RosterInv(n) by { RosterIsKnown(n); }
    N.StepKeepsInv(n, N.Accept(clock));
    q := N.Apply(n, N.Accept(clock));
    c := s.OnAccept(clock, AcceptMsg(), true);
    AcceptMatches(s, n, was, c, clock);
  }

  lemma RosterIsKnown(n: N.Net)
    requires N.Inv(n)
    ensures N.RosterInv(n)
  {
    hide N.RosterInv;
  }

  // ---- The handlers of the connections ----

  /** After a step of one connection that leaves the others alone and puts into the shared queue what it newly
      delivered, tagged with that connection, the object still matches. */
  lemma EndStepMatches(s: Server, n: N.Net, k: nat, step: E.Step)
    requires k < |n.links| == |s.accepted| && N.Enabled(n, N.OnLink(k, L.AtServer(step)))
    requires s.clients == Pick(s.accepted, n.roster.clients) && s.reported == Pick(s.accepted, n.roster.reported)
    requires s.handled == Owners(s.accepted, n.handled)
    requires s.accepted[k].State() == E.Apply(n.links[k].server, step)
    requires forall j: nat :: j < |s.accepted| && j != k ==> s.accepted[j].State() == n.links[j].server
    requires var more := N.NewlyDelivered(n.links[k].server, s.accepted[k].State());
             && |more| <= 1
             && s.inbox.items == Owners(s.accepted, n.inbox) +
                                 if more == [] then [] else [Owned(s.accepted[k], more[0])]
    ensures Matches(s, N.Apply(n, N.OnLink(k, L.AtServer(step))))
  {
    hide Connection.State, E.Enabled, E.Apply;
    N.TagOfOne(k, N.NewlyDelivered(n.links[k].server, s.accepted[k].State()));
  }

  /** What the handler of a finished read put into the shared queue. */
  twostate lemma HandedOver(c: Connection)
    requires c.owner.ServerEnd?
    requires c.delivered == old(c.delivered) ==> c.inbox.items == old(c.inbox.items)
    requires c.delivered != old(c.delivered) ==>
               && |c.delivered| == |old(c.delivered)| + 1
               && c.inbox.items == old(c.inbox.items) + [Owned(c, c.delivered[|c.delivered| - 1])]
    ensures var more := N.NewlyDelivered(old(c.State()), c.State());
            && |more| <= 1
            && c.inbox.items == old(c.inbox.items) + if more == [] then [] else [Owned(c, more[0])]
  {
    assert old(c.inbox.items) + [] == old(c.inbox.items);
  }

  lemma ApplyReadDone(e: E.End)
    requires E.Enabled(e, E.ReadDone)
    ensures E.Apply(e, E.ReadDone) == E.OnReadDone(e)
  {
  }

  lemma OthersApart(s: Server, k: nat)
    requires s.Valid() && k < |s.accepted|
    ensures forall j: nat :: j < |s.accepted| && j != k ==> s.accepted[j] != s.accepted[k]
    ensures forall j: nat :: j < |s.accepted| ==> (s.accepted[j].queue as object) != (s.inbox as object)
    ensures s.accepted[k].inbox == s.inbox && s.accepted[k].owner.ServerEnd?
  {
    hide R.Inv;
    forall j: nat | j < |s.accepted|
      ensures j != k ==> s.accepted[j] != s.accepted[k]
      ensures (s.accepted[j].queue as object) != (s.inbox as object)
    {
      AcceptedOnce(s, j, k);
      assert s.accepted[j] in s.accepted;
    }
  }

  /** The handler of a finished read at connection `k`. */
  method ReadDone(s: Server, c: Connection, ghost k: nat, ghost n: N.Net) returns (ghost q: N.Net)
    requires s.Valid() && Matches(s, n) && N.Inv(n)
    requires k < |s.accepted| && s.accepted[k] == c && E.Enabled(c.State(), E.ReadDone)
    modifies c`handshakeIn, c`handshakeOut, c`ops, c`past, c`open, c`reading, c`validations
    modifies c`temp, c`phase, c`got, c`frames, c`delivered, s.inbox`items
    ensures N.Enabled(n, N.OnLink(k, L.AtServer(E.ReadDone))) && q == N.Apply(n, N.OnLink(k, L.AtServer(E.ReadDone)))
    ensures s.Valid() && Matches(s, q) && N.Inv(q)
  {
    hide N.Inv, N.Apply, N.Enabled, R.Inv, Connection.State, E.Inv, E.Enabled, E.Apply, E.OnReadDone;
    hide N.NewlyDelivered, Server.AsRoster, Pick, Owners;
    ReadEnabled(s, n, k);
    OthersApart(s, k);
    ApplyReadDone(c.State());
    q := N.Apply(n, N.OnLink(k, L.AtServer(E.ReadDone)));
    N.StepKeepsInv(n, N.OnLink(k, L.AtServer(E.ReadDone)));
    c.OnReadDone();
    HandedOver(c);
    EndStepMatches(s, n, k, E.ReadDone);
  }

  lemma ReadEnabled(s: Server, n: N.Net, k: nat)
    requires s.Valid() && Matches(s, n) && N.Inv(n) && k < |s.accepted|
    requires E.Enabled(s.accepted[k].State(), E.ReadDone)
    ensures N.Enabled(n, N.OnLink(k, L.AtServer(E.ReadDone)))
    ensures s.accepted[k].Valid() && |s.accepted| == |n.links| && s.accepted[k].State() == n.links[k].server
  {
    hide N.ShownInv, N.RosterInv, N.QueueInv, E.Inv, E.Enabled, R.Inv, Connection.State;
    assert N.LinkInv(n.links[k]);
    assert s.accepted[k] in s.accepted;
  }
}
