/** One request and one response between a client and a server, each over its own one-way
    stream; the streams deliver in chunks of any size. */
module SingleCycle {

  /** A one-way stream: what the writer handed over, whether a write is outstanding, whether
      it was shut down, and how much the reader has been given. */
  class Stream {
    var handed: string
    var writing: bool
    var closed: bool
    var delivered: nat
    var ended: bool

    constructor ()
      ensures handed == "" && !writing && !closed && delivered == 0 && !ended
    {
      handed, writing, closed, delivered, ended := "", false, false, 0, false;
    }

    /** One write at a time, and none after a shutdown. */
    method Write(data: string)
      requires !writing && !closed
      modifies this`handed, this`writing
      ensures handed == old(handed) + data && writing
    {
      handed := handed + data;
      writing := true;
    }

    /** Only when no write is outstanding, and once. */
    method Shutdown()
      requires !writing && !closed
      modifies this`closed
      ensures closed
    {
      closed := true;
    }

    /** The next n characters, for the reader. */
    method Deliver(n: nat) returns (data: string)
      requires delivered + n <= |handed|
      modifies this`delivered
      ensures delivered == old(delivered) + n && data == handed[old(delivered)..delivered]
    {
      data := handed[delivered..delivered + n];
      delivered := delivered + n;
    }
  }

  const ID_SIZE: nat := 2

  /** The client's connection. */
  class Client {
    const request: string
    const localService: string
    const os: Stream
    var requestStr: string
    var responseStr: string
    var connected: bool
    var responses: seq<string>

    /** Connects, and sends the id of the service it listens on for the answer. */
    constructor (request: string, id: string, os: Stream)
      requires |id| == ID_SIZE && !os.writing && !os.closed
      modifies os`handed, os`writing
      ensures this.request == request && localService == id && this.os == os
      ensures requestStr == request && responseStr == "" && !connected && responses == []
      ensures os.handed == old(os.handed) + id && os.writing
    {
      this.request, requestStr, responseStr, localService := request, request, "", id;
      this.os, connected, responses := os, false, [];
      new;
      os.Write(id);
    }

    method OnSendReady()
      requires !os.writing && !os.closed
      modifies this`requestStr, os`handed, os`writing, os`closed
      ensures requestStr == "" && os.handed == old(os.handed) + old(requestStr)
      ensures if old(requestStr) != "" then os.writing && !os.closed else !os.writing && os.closed
    {
      if requestStr != "" {
        os.Write(requestStr);
        requestStr := "";
      } else {
        os.Shutdown();
      }
    }

    /** The server has opened its stream to the client. */
    method OnConnect()
      requires !connected
      modifies this`connected
      ensures connected
    {
      connected := true;
    }

    method OnReceive(data: string)
      requires connected
      modifies this`responseStr
      ensures responseStr == old(responseStr) + data
    {
      responseStr := responseStr + data;
    }

    method OnReceiveShutdown()
      modifies this`responses
      ensures responses == old(responses) + [responseStr]
    {
      responses := responses + [responseStr];
    }
  }

  /** The server's side of one connection. */
  class Conn {
    const answer: string -> string
    var os: Stream?
    var remoteService: string
    var sendReady: bool
    var request: string
    var response: string
    var requests: seq<string>

    constructor (answer: string -> string)
      ensures this.answer == answer && os == null && !sendReady && request == "" && response == "" && requests == []
    {
      this.answer := answer;
      os, remoteService, sendReady, request, response, requests := null, "", false, "", "", [];
    }

    ghost function Writes(): set<Stream>
      reads this`os
    {
      if os == null then {} else {os}
    }

    method OnSendReady()
      requires os != null && !os.writing && !os.closed
      modifies this`sendReady, os`handed, os`writing, os`closed
      ensures sendReady
      ensures if old(sendReady) then os.closed && !os.writing && os.handed == old(os.handed)
              else !os.closed && os.handed == old(os.handed) + response && (os.writing <==> response != "")
    {
      if !sendReady {
        if response != "" {
          os.Write(response);
        }
        sendReady := true;
      } else {
        os.Shutdown();
      }
    }

    /** The first chunk must hold the whole service id; the rest of it, and all later chunks,
        are the request. */
    method OnReceive(data: string)
      requires os == null ==> |data| >= ID_SIZE && !sendReady && response == ""
      modifies this`os, this`remoteService, this`sendReady, this`request
      ensures os != null
      ensures old(os) != null ==>
        os == old(os) && request == old(request) + data && remoteService == old(remoteService)
        && sendReady == old(sendReady)
      ensures old(os) == null ==>
        fresh(os) && os.handed == "" && !os.writing && !os.closed && os.delivered == 0 && !os.ended
      ensures old(os) == null ==>
        remoteService == data[..ID_SIZE] && request == old(request) + data[ID_SIZE..] && sendReady
    {
      if os != null {
        request := request + data;
      } else {
        remoteService := data[..ID_SIZE];
        os := new Stream();
        OnSendReady();
        if |data| > ID_SIZE {
          request := request + data[ID_SIZE..];
        }
      }
    }

    /** The request is complete: ask for the answer, and send it if the stream is there; without
        it a later OnSendReady has to. */
    method OnReceiveShutdown()
      requires sendReady ==> os != null && !os.writing && !os.closed
      modifies this`response, this`requests, this`sendReady, Writes()`handed, Writes()`writing, Writes()`closed
      ensures requests == old(requests) + [request] && response == answer(request)
      ensures old(sendReady) ==> os.handed == old(os.handed) + response && sendReady
      ensures old(sendReady) ==> if response != "" then os.writing && !os.closed else os.closed && !os.writing
      ensures !old(sendReady) ==> (sendReady <==> response == "")
      ensures !old(sendReady) && os != null ==>
        os.handed == old(os.handed) && os.writing == old(os.writing) && os.closed == old(os.closed)
    {
      requests := requests + [request];
      response := answer(request);
      if response != "" {
        if sendReady {
          os.Write(response);
        }
      } else if sendReady {
        os.Shutdown();
      } else {
        sendReady := true;
      }
    }
  }

  class Session {
    const up: Stream
    const client: Client
    const server: Conn

    constructor (request: string, id: string, answer: string -> string)
      requires |id| == ID_SIZE
      ensures Valid() && client.request == request && client.localService == id && server.answer == answer
      ensures fresh(up) && fresh(client) && fresh(server) && server.os == null
    {
      var stream := new Stream();
      up := stream;
      client := new Client(request, id, stream);
      server := new Conn(answer);
    }

    ghost predicate Valid()
      reads this, up, client, server, server.Writes()
    {
      && client.os == up && server.os != up && |client.localService| == ID_SIZE && Requesting() && Answering()
      && Receiving()
    }

    /** On the way up: the id and the request, once it is sent; the shutdown comes last. */
    ghost predicate Requesting()
      reads this, up, client
    {
      && up.handed == client.localService + (if client.requestStr == "" then client.request else "")
      && (client.requestStr == "" || client.requestStr == client.request)
      && (up.closed ==> client.requestStr == "" && !up.writing) && (!up.closed ==> up.writing)
      && up.delivered <= |up.handed| && (up.ended ==> up.closed && up.delivered == |up.handed|)
    }

    /** The server has the id and what was delivered of the request, asks for the answer once,
        when the request is complete, and sends just the answer. */
    ghost predicate Answering()
      reads this, up, client, server, server.Writes()
    {
      && (server.os == null <==> up.delivered == 0)
      && (server.os == null ==>
           !server.sendReady && server.request == "" && server.response == "" && server.requests == [] && !up.ended)
      && (server.os != null ==>
            && server.sendReady && ID_SIZE <= up.delivered <= |up.handed| && server.remoteService == client.localService
            && up.handed[..up.delivered] == server.remoteService + server.request
            && server.os.handed == server.response && if up.ended then Answered() else Waiting())
    }

    ghost predicate Waiting()
      reads this, server, server.Writes()
    {
      server.requests == [] && server.response == "" && server.os != null && !server.os.writing && !server.os.closed
    }

    ghost predicate Answered()
      reads this, client, server, server.Writes()
    {
      && server.requests == [client.request] && server.response == server.answer(client.request)
      && server.os != null && (server.os.closed <==> !server.os.writing)
    }

    /** The client has what was delivered of the answer, and hands it on once, when it is
        complete. */
    ghost predicate Receiving()
      reads this, client, server, server.Writes()
    {
      && (server.os == null ==> !client.connected && client.responseStr == "" && client.responses == [])
      && (server.os != null ==>
            var os := server.os;
            && os.delivered <= |os.handed| && client.responseStr == os.handed[..os.delivered]
            && (os.ended ==> os.closed && os.delivered == |os.handed|)
            && (!client.connected ==> os.delivered == 0 && !os.ended)
            && client.responses == if os.ended then [os.handed] else [])
    }

    /** Nothing is left to happen. */
    ghost predicate Idle()
      reads this, up, client, server, server.Writes()
    {
      && !up.writing && up.delivered == |up.handed| && (up.closed ==> up.ended)
      && (server.os != null ==>
           client.connected && !server.os.writing && server.os.delivered == |server.os.handed|
           && (server.os.closed ==> server.os.ended))
    }

    /** May this happen now? */
    predicate Enabled(event: Event)
      reads this, up, client, server, server.Writes()
    {
      match event
      case ClientReady => up.writing
      case Up(n) => 0 < n && up.delivered + n <= |up.handed| && !up.ended && (server.os == null ==> n >= ID_SIZE)
      case UpEnd => up.closed && !up.ended && up.delivered == |up.handed|
      case ServerReady => server.os != null && server.os.writing
      case Accept => server.os != null && !client.connected
      case Down(n) =>
        server.os != null && client.connected && 0 < n && server.os.delivered + n <= |server.os.handed| &&
        !server.os.ended
      case DownEnd =>
        server.os != null && client.connected && server.os.closed && !server.os.ended &&
        server.os.delivered == |server.os.handed|
    }

    /** How much is still to happen on the way up: characters to deliver, the request to send, the
        shutdown and its arrival. */
    ghost function LeftUp(): int
      reads this, up, client
    {
      |client.localService| + |client.request| - up.delivered + (if client.requestStr == "" then 0 else 1)
      + (if up.closed then 0 else 1) + (if up.ended then 0 else 1)
    }

    /** And on the way down. */
    ghost function LeftDown(): int
      reads this, client, server, server.Writes()
    {
      (if client.connected then 0 else 1) +
      if server.os == null then |server.answer(client.request)| + 2
      else |server.answer(client.request)| - server.os.delivered + (if server.os.closed then 0 else 1)
           + (if server.os.ended then 0 else 1)
    }

    ghost function Left(): int
      reads this, up, client, server, server.Writes()
    {
      LeftUp() + LeftDown()
    }

    /** As long as anything is left, something can happen. */
    lemma CanGoOn() returns (event: Event)
      requires Valid()
      ensures Left() >= 0 && (Idle() <==> Left() == 0)
      ensures Idle() || Enabled(event)
    {
      event := Event.ClientReady;
      if up.delivered < |up.handed| {
        event := Up(|up.handed| - up.delivered);
      } else if up.closed && !up.ended {
        event := UpEnd;
      } else if server.os != null {
        if !client.connected {
          event := Event.Accept;
        } else if server.os.writing {
          event := Event.ServerReady;
        } else if server.os.delivered < |server.os.handed| {
          event := Down(|server.os.handed| - server.os.delivered);
        } else if server.os.closed && !server.os.ended {
          event := DownEnd;
        }
      }
    }

    method ClientReady()
      requires Valid() && Enabled(Event.ClientReady)
      modifies up, client
      ensures Valid() && Left() == old(Left()) - 1
    {
      up.writing := false;
      client.OnSendReady();
    }

    method DeliverUp(n: nat)
      requires Valid() && Enabled(Up(n))
      modifies up, server
      ensures Valid() && (server.os == old(server.os) || fresh(server.os)) && Left() == old(Left()) - n
    {
      var data := up.Deliver(n);
      server.OnReceive(data);
      assert up.handed[..up.delivered] == old(up.handed[..up.delivered]) + data;
      if old(server.os) == null {
        assert data == data[..ID_SIZE] + data[ID_SIZE..];
      }
    }

    /** An empty answer is shut down at once. */
    method EndUp()
      requires Valid() && Enabled(UpEnd)
      modifies up, server, server.Writes()
      ensures Valid() && server.os == old(server.os)
      ensures Left() == old(Left()) - if server.answer(client.request) == "" then 2 else 1
    {
      assert server.os != null by { assert |up.handed| >= ID_SIZE; }
      assert up.handed[..up.delivered] == up.handed;
      assert server.request == up.handed[ID_SIZE..] == client.request;
      up.ended := true;
      server.OnReceiveShutdown();
    }

    method ServerReady()
      requires Valid() && Enabled(Event.ServerReady)
      modifies server, server.Writes()
      ensures Valid() && server.os == old(server.os) && Left() == old(Left()) - 1
    {
      server.os.writing := false;
      server.OnSendReady();
    }

    method DeliverDown(n: nat)
      requires Valid() && Enabled(Down(n))
      modifies client, server.Writes()
      ensures Valid() && Left() == old(Left()) - n
    {
      var data := server.os.Deliver(n);
      client.OnReceive(data);
    }

    method EndDown()
      requires Valid() && Enabled(DownEnd)
      modifies client, server.Writes()
      ensures Valid() && Left() == old(Left()) - 1
    {
      assert server.os.handed[..server.os.delivered] == server.os.handed;
      server.os.ended := true;
      client.OnReceiveShutdown();
    }

    /** One callback, if it can come now: then less is left than before. */
    method Happen(event: Event)
      requires Valid()
      modifies up, client, server, server.Writes()
      ensures Valid() && (server.os == old(server.os) || fresh(server.os))
      ensures if old(Enabled(event)) then Left() < old(Left()) else Left() == old(Left())
    {
      hide Requesting, Answering, Receiving, Left, LeftUp, LeftDown;
      if Enabled(event) {
        match event
        case ClientReady => ClientReady();
        case Up(n) => DeliverUp(n);
        case UpEnd => EndUp();
        case ServerReady => ServerReady();
        case Accept => Accept();
        case Down(n) => DeliverDown(n);
        case DownEnd => EndDown();
      }
    }

    method Accept()
      requires Valid() && Enabled(Event.Accept)
      modifies client
      ensures Valid() && Left() == old(Left()) - 1
    {
      client.OnConnect();
    }
  }

  /** What the streams may do next; Up and Down deliver a chunk. */
  datatype Event = ClientReady | Up(n: nat) | UpEnd | ServerReady | Accept | Down(n: nat) | DownEnd

  /** Every run: the server is asked at most once, with exactly the request; the client gets
      at most one response, exactly the answer; and when nothing is left to happen, it has got
      it.  Only so many callbacks can come, and as long as the response is missing, one can. */
  method Run(request: string, id: string, answer: string -> string, events: seq<Event>)
    returns (session: Session, ghost happened: nat, ghost next: Event)
    requires |id| == ID_SIZE
    ensures session.client.request == request && session.server.answer == answer
    ensures session.server.requests == [] || session.server.requests == [request]
    ensures session.client.responses == [] || session.client.responses == [answer(request)]
    ensures session.client.responses != [] ==> session.server.requests == [request]
    ensures session.Idle() ==> session.client.responses == [answer(request)]
    ensures happened <= |request| + |answer(request)| + 8 && (session.Idle() || session.Enabled(next))
    ensures happened == |request| + |answer(request)| + 8 ==> session.client.responses == [answer(request)]
  {
    session := new Session(request, id, answer);
    happened := 0;
    for i := 0 to |events|
      invariant session.Valid() && session.client.request == request && session.server.answer == answer
      invariant fresh(session) && fresh(session.up) && fresh(session.client) && fresh(session.server)
      invariant session.server.os != null ==> fresh(session.server.os)
      invariant happened + session.Left() <= |request| + |answer(request)| + 8
    {
      if session.Enabled(events[i]) { happened := happened + 1; }
      session.Happen(events[i]);
    }
    next := session.CanGoOn();
  }
}
