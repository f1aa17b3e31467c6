/** The chat client program: what its key handler sends, and one round of its receive loop. */
module Clients {
  import opened Bytes
  import opened Messages
  import opened TsQueues
  import opened Connections
  import opened ChatMessages
  import E = Endpoint

  datatype Shown = Quit | Idle | Validated | Ping(timeThen: Datum) | Hello(client: Datum) | Unknown

  /** What one round of the loop shows for a message. */
  function Show(m: Msg): Shown
    requires BytesPopped(m) <= |m.body|
  {
    if m.header.id == SERVER_ACCEPT then Validated
    else if m.header.id == SERVER_PING then Ping(Pop(m, 8).1)
    else if m.header.id == SERVER_MESSAGE then Hello(Pop(m, 4).1)
    else Unknown
  }

  /** A ping that comes back as it was sent shows the time it was sent at. */
  lemma PingShowsItsTime(time: u64)
    ensures |PingMsg(time).body| == 8 && Show(PingMsg(time)) == Ping(Datum(8, time))
  {
    SpanOfWords();
    PopAfterPush(Fresh(SERVER_PING), Datum(8, time));
  }

  /** The message that a server makes for the others shows the id of the client that asked for it. */
  lemma HelloShowsItsSender(id: u32)
    ensures |ServerMessageMsg(id).body| == 4 && Show(ServerMessageMsg(id)) == Hello(Datum(4, id))
  {
    SpanOfWords();
    PopAfterPush(Fresh(SERVER_MESSAGE), Datum(4, id));
  }

  class Client {
    const connection: Connection

    constructor (connection: Connection)
      ensures this.connection == connection
    {
      this.connection := connection;
    }

    /** `client_interface::Send` checks only that the socket is open. */
    method Send(m: Msg)
      modifies connection`jobs
      ensures connection.jobs == old(connection.jobs) + if connection.open then [E.SendJob(m)] else []
    {
      var connected := connection.IsConnected();
      if connected {
        connection.Send(m);
      }
    }

    method PingServer(timeNow: u64)
      modifies connection`jobs
      ensures connection.jobs == old(connection.jobs) + if connection.open then [E.SendJob(PingMsg(timeNow))] else []
    {
      var msg := new Message(SERVER_PING);
      msg.PushBack(Datum(8, timeNow));
      Send(msg.State());
    }

    method MessageAll()
      modifies connection`jobs
      ensures connection.jobs == old(connection.jobs) + if connection.open then [E.SendJob(MessageAllMsg())] else []
    {
      var msg := new Message(MESSAGE_ALL);
      Send(msg.State());
    }

    /** One round of the loop in `main`: quit when the connection is closed; else take the oldest message, if there
        is one, and pop its data. */
    method Round() returns (shown: Shown)
      requires connection.inbox.items != [] ==>
                 BytesPopped(connection.inbox.items[0].msg) <= |connection.inbox.items[0].msg.body|
      modifies connection.inbox`items
      ensures !connection.open ==> shown == Quit && connection.inbox.items == old(connection.inbox.items)
      ensures connection.open && old(connection.inbox.items) == [] ==> shown == Idle && connection.inbox.items == []
      ensures connection.open && old(connection.inbox.items) != [] ==>
                && connection.inbox.items == old(connection.inbox.items)[1..]
                && shown == Show(old(connection.inbox.items)[0].msg)
    {
      var connected := connection.IsConnected();
      if !connected {
        return Quit;
      }
      var empty := connection.inbox.Empty();
      if empty {
        return Idle;
      }
      var o := connection.inbox.PopFront();
      assert o == old(connection.inbox.items)[0] && connection.inbox.items == old(connection.inbox.items)[1..];
      var msg := new Message.Copy(o.msg);
      if msg.id == SERVER_ACCEPT {
        return Validated;
      } else if msg.id == SERVER_PING {
        var timeThen := msg.PopBack(8);
        return Ping(timeThen);
      } else if msg.id == SERVER_MESSAGE {
        var clientId := msg.PopBack(4);
        return Hello(clientId);
      }
      return Unknown;
    }
  }
}
