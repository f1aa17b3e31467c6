/** The messages of the chat application, as its client and server build them. */
module ChatMessages {
  import opened Bytes
  import opened Messages

  const SERVER_ACCEPT: u32 := 0
  const SERVER_PING: u32 := 2
  const MESSAGE_ALL: u32 := 3
  const SERVER_MESSAGE: u32 := 4

  function AcceptMsg(): Msg {
    Fresh(SERVER_ACCEPT)
  }

  /** A ping carries the client's clock, an 8-byte time point. */
  function PingMsg(time: u64): Msg {
    Push(Fresh(SERVER_PING), Datum(8, time))
  }

  function MessageAllMsg(): Msg {
    Fresh(MESSAGE_ALL)
  }

  function ServerMessageMsg(id: u32): Msg {
    Push(Fresh(SERVER_MESSAGE), Datum(4, id))
  }

  /** How many bytes the client's receive switch pops from a message. */
  function BytesPopped(m: Msg): nat {
    if m.header.id == SERVER_PING then 8
    else if m.header.id == SERVER_MESSAGE then 4
    else 0
  }
}

/** The server object, with the hooks of `CustomServer`. */
module Servers {
  import opened Bytes
  import opened Messages
  import opened TsQueues
  import opened Connections
  import opened Rosters
  import opened ChatMessages
  import E = Endpoint

  /** `std::remove` of the null pointers, then `erase`. */
  function NonNull(cs: seq<Connection?>): seq<Connection?> {
    if cs == [] then []
    else NonNull(cs[..|cs| - 1]) + if cs[|cs| - 1] == null then [] else [cs[|cs| - 1]]
  }

  /** Resetting the closed connections and removing the nulls keeps exactly the others. */
  lemma {:induction false} ResetAndRemove(was: seq<Connection?>, now: seq<Connection?>, closed: set<Connection?>)
    requires |now| == |was| && null !in was
    requires forall i :: 0 <= i < |was| ==> now[i] == if was[i] in closed then null else was[i]
    ensures NonNull(now) == Without(was, closed)
    decreases |was|
  {
    if was != [] {
      var n := |was| - 1;
      ResetAndRemove(was[..n], now[..n], closed);
      assert was[n] in was;
    }
  }

  class Server {
    var clients: seq<Connection?>
    const inbox: TsQueue<Owned>
    var nextId: u32

    // History: approved connections in order, connections passed to `OnClientDisconnect`, messages handled.
    ghost var accepted: seq<Connection>
    ghost var reported: seq<Connection?>
    ghost var handled: seq<Owned>

    ghost function Ids(cs: seq<Connection>): (r: seq<u32>)
      reads (set c | c in cs)`id
      ensures |r| == |cs| && forall i :: 0 <= i < |r| ==> r[i] == cs[i].id
      decreases |cs|
    {
      if cs == [] then [] else
      var front := cs[..|cs| - 1];
      assert forall c | c in front :: c in cs;
      Ids(front) + [cs[|cs| - 1].id]
    }

    /** The server as a state of `Rosters`. */
    ghost function AsRoster(): Roster<Connection?>
      reads this`clients, this`nextId, this`accepted, this`reported, (set c | c in accepted)`id
    {
      Roster(clients, nextId, accepted, Ids(accepted), reported)
    }

    ghost predicate Valid()
      reads this`clients, this`nextId, this`accepted, this`reported, (set c | c in accepted)`id, inbox`items
    {
      && Rosters.Inv(AsRoster())
      && (forall c | c in accepted ::
            c.owner.ServerEnd? && c.inbox == inbox && (c.queue as object) != (inbox as object))
      && (forall i, j :: 0 <= i < j < |accepted| ==> accepted[i].queue != accepted[j].queue)
      && (forall o | o in inbox.items :: o.remote != null && o.remote in accepted)
    }

    /** In every state the server reaches, each approved connection is held or was reported, once and never both,
        and has the id that its place gives. */
    lemma ClientIsAccounted(i: nat)
      requires Valid() && i < |accepted|
      ensures accepted[i].id == CounterAfter(i)
      ensures multiset(clients)[accepted[i]] + multiset(reported)[accepted[i]] == 1
    {
      hide Without, Distinct;
      var r := AsRoster();
      assert r.ids[i] == accepted[i].id;
      HeldOrReported(r, accepted[i]);
    }

    lemma ClientsAreAccepted()
      requires Rosters.Inv(AsRoster())
      ensures null !in clients && Distinct(clients) && Distinct(accepted) && forall c | c in clients :: c in accepted
    {
      hide Without;
      var r := AsRoster();
      FilterDistinct(r.accepted, Elements(reported));
      forall c | c in clients ensures c in accepted {
        KeptFrom(r.accepted, Elements(reported), c);
      }
    }

    constructor ()
      ensures Valid() && clients == [] && fresh(inbox) && inbox.items == []
      ensures accepted == [] && reported == [] && handled == []
    {
      clients, nextId, accepted, reported, handled := [], FIRST_ID, [], [], [];
      inbox := new TsQueue();
    }

    /** The accept handler: a new connection, the greeting that `OnClientConnection` sends it, and its answer. */
    method OnAccept(clock: u64, greeting: Msg, approve: bool) returns (c: Connection)
      requires Valid()
      modifies this`clients, this`nextId, this`accepted
      ensures Valid() && fresh(c)
      ensures AsRoster() == Apply(old(AsRoster()), Accept(c, approve))
      ensures reported == old(reported)
      ensures !approve ==> clients == old(clients) && accepted == old(accepted) && nextId == old(nextId)
      ensures approve ==>
                && clients == old(clients) + [c] && accepted == old(accepted) + [c]
                && c.id == old(nextId) && nextId == (old(nextId) + 1) % 0x1_0000_0000
                && c.State() == E.NewServer(clock, [E.SendJob(greeting)])
    {
      hide E.Inv, E.NewServer, Rosters.Inv, AsRoster;
      c := new Connection(E.ServerEnd, clock, inbox);
      c.Send(greeting);
      assert c.jobs == [E.SendJob(greeting)];
      if approve {
        Admit(c);
      }
    }

    /** The approving branch: the connection joins the clients and is given the next id. */
    method Admit(c: Connection)
      requires Valid() && c !in accepted && c.inbox == inbox && (c.queue as object) != (inbox as object)
      requires forall d | d in accepted :: d.queue != c.queue
      requires c.owner.ServerEnd? && c.Created() && c.open
      modifies this`clients, this`nextId, this`accepted, c`id, c`ops, c`past, c`reading, c`got
      ensures Valid()
      ensures AsRoster() == Apply(old(AsRoster()), Accept(c, true))
      ensures clients == old(clients) + [c] && accepted == old(accepted) + [c]
      ensures nextId == (old(nextId) + 1) % ID_LIMIT
      ensures c.id == old(nextId) && c.State() == E.NewServer(c.handshakeOut, c.jobs)
    {
      hide E.Inv, E.NewServer, Rosters.Inv, Rosters.Apply, AsRoster, Ids;
      hide Connection.Created, Connection.State, Connection.Valid;
      clients := clients + [c];
      accepted := accepted + [c];
      c.ConnectToClient(nextId);
      nextId := (nextId + 1) % ID_LIMIT;
      Admitted(c);
    }

    twostate lemma Admitted(c: Connection)
      requires old(Rosters.Inv(AsRoster())) && c !in old(accepted)
      requires accepted == old(accepted) + [c] && clients == old(clients) + [c] && reported == old(reported)
      requires c.id == old(nextId) && nextId == (old(nextId) + 1) % ID_LIMIT
      requires forall d | d in old(accepted) :: d.id == old(d.id)
      ensures AsRoster() == Apply(old(AsRoster()), Accept(c, true)) && Rosters.Inv(AsRoster())
    {
      hide Rosters.Inv;
      AcceptKeepsInv(old(AsRoster()), c);
      assert Ids(accepted) == old(Ids(accepted)) + [c.id];
    }

    ghost function ClosedClients(): set<Connection?>
      reads this`clients, this`accepted, (set c | c in accepted)`open
    {
      set c: Connection? | c in clients && c in accepted && !c.open
    }

    ghost function OpenClients(): set<Connection?>
      reads this`clients, this`accepted, (set c | c in accepted)`open
    {
      set c: Connection? | c in clients && c in accepted && c.open
    }

    /** Every open client but the ignored one is sent the message exactly once; the closed ones are reported, in
        order, and removed; every other connection is left alone. */
    method MessageAllClients(m: Msg, ignore: Connection?)
      requires Valid()
      modifies this`clients, this`reported, (set c | c in accepted)`jobs
      ensures Valid()
      ensures AsRoster() == Apply(old(AsRoster()), MessageAll(old(ClosedClients())))
      ensures OpenClients() == old(OpenClients())
      ensures forall c | c in accepted ::
                c.jobs == old(c.jobs) + if c in old(clients) && c.open && c != ignore then [E.SendJob(m)] else []
      ensures forall c | c in accepted && c in old(clients) ::
                if c.open then c in clients else c !in clients && c in reported
    {
      hide Distinct, NonNull, Rosters.Inv, Rosters.Apply, Without, Only, AsRoster, OpenClients, ClosedClients;
      ClientsAreAccepted();
      ghost var was, closed := clients, ClosedClients();
      var invalid := SendOrReset(m, ignore);
      Removed(was, clients, closed, invalid);
      if invalid {
        clients := NonNull(clients);
      }
      ClosedAreRemoved(closed);
    }

    /** The clients held are exactly the open ones and the closed ones. */
    lemma OpenOrClosed(c: Connection)
      requires Valid()
      ensures c in OpenClients() <==> c in clients && c.open
      ensures c in ClosedClients() <==> c in clients && !c.open
    {
      hide Rosters.Inv, AsRoster;
      ClientsAreAccepted();
    }

    twostate lemma ClosedAreRemoved(closed: set<Connection?>)
      requires old(Rosters.Inv(AsRoster())) && closed == old(ClosedClients())
      requires clients == Without(old(clients), closed) && reported == old(reported) + Only(old(clients), closed)
      requires accepted == old(accepted) && nextId == old(nextId)
      requires forall c | c in accepted :: c.open == old(c.open) && c.id == old(c.id)
      ensures AsRoster() == Apply(old(AsRoster()), MessageAll(closed)) && Rosters.Inv(AsRoster())
      ensures OpenClients() == old(OpenClients())
      ensures forall c | c in accepted && c in old(clients) ::
                if c.open then c in clients else c !in clients && c in reported
    {
      hide Without, Only, Rosters.Inv;
      MessageAllKeepsInv(old(AsRoster()), closed);
      FilterMembers(old(clients), closed);
      assert Ids(accepted) == old(Ids(accepted));
    }

    /** The loop of the broadcast; says whether it reset any client. */
    method SendOrReset(m: Msg, ignore: Connection?) returns (invalid: bool)
      requires null !in clients && Distinct(clients) && Distinct(accepted) && forall c | c in clients :: c in accepted
      modifies this`clients, this`reported, (set c | c in accepted)`jobs
      ensures |clients| == |old(clients)|
      ensures forall j :: 0 <= j < |clients| ==>
                clients[j] == if old(clients)[j] in old(ClosedClients()) then null else old(clients)[j]
      ensures !invalid ==> forall j :: 0 <= j < |clients| ==> old(clients)[j] !in old(ClosedClients())
      ensures reported == old(reported) + Only(old(clients), old(ClosedClients()))
      ensures forall c | c in accepted ::
                c.jobs == old(c.jobs) + if c in old(clients) && c.open && c != ignore then [E.SendJob(m)] else []
    {
      hide Connection.State, Connection.Created, Only, Distinct, E.Apply, E.Inv;
      ghost var was, closed := clients, ClosedClients();
      invalid := false;
      var i := 0;
      assert was[..0] == [] && Only(was[..0], closed) == [] by { OnlyOfNone(closed); }
      while i < |clients|
        invariant i <= |clients| == |was|
        invariant forall j :: 0 <= j < |was| ==> clients[j] == if j < i && was[j] in closed then null else was[j]
        invariant !invalid ==> forall j :: 0 <= j < i ==> was[j] !in closed
        invariant reported == old(reported) + Only(was[..i], closed)
        invariant forall c | c in accepted ::
                    c.jobs == old(c.jobs) + if c in was[..i] && c.open && c != ignore then [E.SendJob(m)] else []
      {
        NextClient(was, i, closed);
        var client := clients[i];
        if client != null && client.open {
          if client != ignore {
            client.Send(m);
          }
        } else {
          reported := reported + [client];
          clients := clients[i := null];
          invalid := true;
        }
        i := i + 1;
      }
      assert was[..|was|] == was;
    }

    static lemma OnlyOfNone(closed: set<Connection?>)
      ensures Only([], closed) == []
    {
    }

    static lemma Removed(was: seq<Connection?>, now: seq<Connection?>, closed: set<Connection?>, invalid: bool)
      requires |now| == |was| && null !in was && Distinct(was)
      requires forall i :: 0 <= i < |was| ==> now[i] == if was[i] in closed then null else was[i]
      requires !invalid ==> forall i :: 0 <= i < |was| ==> was[i] !in closed
      ensures (if invalid then NonNull(now) else now) == Without(was, closed)
      ensures Distinct(Without(was, closed))
      ensures forall c | c in Without(was, closed) :: c in was
    {
      hide Without;
      ResetAndRemove(was, now, closed);
      if !invalid {
        NothingNull(now);
      }
      FilterDistinct(was, closed);
      forall c | c in Without(was, closed) ensures c in was {
        KeptFrom(was, closed, c);
      }
    }

    static lemma NextClient(was: seq<Connection?>, i: nat, closed: set<Connection?>)
      requires i < |was| && Distinct(was)
      ensures forall c :: c in was[..i + 1] <==> c in was[..i] || c == was[i]
      ensures was[i] !in was[..i]
      ensures Only(was[..i + 1], closed) == Only(was[..i], closed) + if was[i] in closed then [was[i]] else []
    {
      assert was[..i + 1] == was[..i] + [was[i]];
      FilterSnoc(was[..i], was[i], closed);
    }

    static lemma {:induction false} NothingNull(cs: seq<Connection?>)
      requires null !in cs
      ensures NonNull(cs) == cs
      decreases |cs|
    {
      if cs != [] {
        NothingNull(cs[..|cs| - 1]);
        assert cs[|cs| - 1] in cs;
      }
    }

    /** What handling `m` from `from` posts to `c`: a ping goes back as it came; a message to all makes a new
        message with the sender's id, for the clients in `reach` other than the sender. */
    static ghost function Replies(c: Connection, reach: set<Connection?>, from: Connection, m: Msg): seq<E.Job>
      reads from`id
    {
      if m.header.id == SERVER_PING then
        if c == from then [E.SendJob(m)] else []
      else if m.header.id == MESSAGE_ALL then
        if c in reach && c != from then [E.SendJob(ServerMessageMsg(from.id))] else []
      else []
    }

    /** What handling the messages `os`, in order, posts to `c`. */
    static ghost function AllReplies(c: Connection, reach: set<Connection?>, os: seq<Owned>): seq<E.Job>
      reads (set o | o in os :: o.remote)`id
    {
      if os == [] then [] else
      var front, o := os[..|os| - 1], os[|os| - 1];
      assert forall p | p in front :: p in os;
      AllReplies(c, reach, front) + if o.remote == null then [] else Replies(c, reach, o.remote, o.msg)
    }

    static lemma AllRepliesSnoc(reach: set<Connection?>, os: seq<Owned>, o: Owned)
      requires o.remote != null
      ensures forall c: Connection ::
                AllReplies(c, reach, os + [o]) == AllReplies(c, reach, os) + Replies(c, reach, o.remote, o.msg)
    {
      hide Replies;
      assert (os + [o])[..|os|] == os;
    }

    method OnMessage(from: Connection, m: Msg)
      requires Valid() && from in accepted
      modifies this`clients, this`reported, this`handled, (set c | c in accepted)`jobs
      ensures Valid()
      ensures handled == old(handled) + [Owned(from, m)]
      ensures forall c | c in accepted :: c.jobs == old(c.jobs) + Replies(c, old(OpenClients()), from, m)
      ensures m.header.id == SERVER_PING ==> from.jobs == old(from.jobs) + [E.SendJob(m)]
      ensures m.header.id == MESSAGE_ALL ==> forall c | c in accepted && c in old(clients) && c.open && c != from ::
                c.jobs == old(c.jobs) + [E.SendJob(ServerMessageMsg(from.id))]
      ensures AsRoster() ==
        if m.header.id == MESSAGE_ALL then Apply(old(AsRoster()), MessageAll(old(ClosedClients())))
        else old(AsRoster())
      ensures OpenClients() == old(OpenClients())
    {
      hide Rosters.Inv, AsRoster, Rosters.Apply;
      handled := handled + [Owned(from, m)];
      if m.header.id == SERVER_PING {
        from.Send(m);
      } else if m.header.id == MESSAGE_ALL {
        var out := new Message(SERVER_MESSAGE);
        out.PushBack(Datum(4, from.id));
        MessageAllClients(out.State(), from);
      }
    }

    /** One update: the oldest queued messages, at most `limit` of them, are handled in order; the rest stay. Each
        connection is posted exactly the replies to those messages, in order. */
    method Update(limit: nat)
      requires Valid()
      modifies this`clients, this`reported, this`handled, inbox`items, (set c | c in accepted)`jobs
      ensures Valid() && OpenClients() == old(OpenClients())
      ensures var n := if limit < |old(inbox.items)| then limit else |old(inbox.items)|;
              && handled == old(handled) + old(inbox.items)[..n] && inbox.items == old(inbox.items)[n..]
              && forall c | c in accepted ::
                   c.jobs == old(c.jobs) + AllReplies(c, old(OpenClients()), old(inbox.items)[..n])
    {
      hide Rosters.Inv, AsRoster, Rosters.Apply, Replies, AllReplies, OpenClients, Connection.State, Connection.Created;
      ghost var all, reach := inbox.items, OpenClients();
      var count := 0;
      var empty := inbox.Empty();
      NoReplies(reach);
      while count < limit && !empty
        invariant Valid() && OpenClients() == reach
        invariant forall o | o in all :: o.remote != null && o.remote in accepted
        invariant count <= limit && count <= |all|
        invariant handled == old(handled) + all[..count] && inbox.items == all[count..]
        invariant forall c | c in accepted :: c.jobs == old(c.jobs) + AllReplies(c, reach, all[..count])
        invariant empty <==> inbox.items == []
      {
        var o := inbox.PopFront();
        ghost var done := all[..count];
        assert o == all[count] && o in all && all[..count + 1] == done + [o];
        AllRepliesSnoc(reach, done, o);
        OnMessage(o.remote, o.msg);
        count := count + 1;
        empty := inbox.Empty();
      }
    }

    static lemma NoReplies(reach: set<Connection?>)
      ensures forall c: Connection :: AllReplies(c, reach, []) == []
    {
    }
  }
}
