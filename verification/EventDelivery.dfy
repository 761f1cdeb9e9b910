/** Events from the daemon to a page over sockets that drop (websocket/daemon.js, resources/event.js). */
module EventDelivery {
  import opened Common

  datatype Message = Message(id: int, channel: string, text: string)

  /** A socket as the daemon sees it; what it has sent and the page has not received yet is on its way. */
  datatype Client = Client(lastMsg: int, filter: set<string>, sent: seq<Message>)

  datatype Request = StartMsg(start: int) | SetFilter(filter: seq<string>)

  // -------------------------------------------------------------------------------------------- the daemon

  /** messages.post(): the queue keeps the newest messages. */
  function Push(messages: seq<Message>, message: Message, maxQueue: nat): seq<Message> {
    var more := messages + [message];
    if |more| > maxQueue then more[1..] else more
  }

  /** got_message() */
  function Got(client: Client, message: Message): Client {
    Client(message.id, client.filter, if message.channel in client.filter then client.sent + [message] else client.sent)
  }

  /** messages.catch_up() */
  function CatchUp(messages: seq<Message>, client: Client): Client {
    if messages == [] then client
    else CatchUp(messages[1..], if messages[0].id > client.lastMsg then Got(client, messages[0]) else client)
  }

  function Elements(filter: seq<string>): set<string> {
    set channel | channel in filter
  }

  /** What a request does to its socket: an empty filter is an error. */
  function Handle(messages: seq<Message>, client: Client, request: Request): Client {
    match request
    case StartMsg(start) => client.(lastMsg := start)
    case SetFilter(filter) =>
      if filter == [] then client else CatchUp(messages, client.(filter := Elements(filter)))
  }

  /** A socket of the daemon. */
  class Socket {
    var lastMsg: int
    var filter: set<string>
    var sent: seq<Message>

    function View(): Client
      reads this
    {
      Client(lastMsg, filter, sent)
    }

    constructor ()
      ensures View() == Client(0, {}, [])
    {
      lastMsg, filter, sent := 0, {}, [];
    }

    method GotMessage(message: Message)
      modifies this
      ensures View() == Got(old(View()), message)
    {
      if message.channel in filter { sent := sent + [message]; }
      lastMsg := message.id;
    }
  }

  class Daemon {
    const maxQueue: nat
    var messages: seq<Message>
    var messageId: int
    var followers: set<Socket>

    constructor (now: int, maxQueue: nat)
      ensures this.maxQueue == maxQueue && messages == [] && messageId == now && followers == {}
    {
      this.maxQueue, messages, messageId, followers := maxQueue, [], now, {};
    }

    /** Every follower gets the message, in any order. */
    method Post(channel: string, text: string) returns (id: int)
      modifies this, followers
      ensures id == messageId == old(messageId) + 1 && followers == old(followers)
      ensures messages == Push(old(messages), Message(id, channel, text), maxQueue)
      ensures forall socket :: socket in followers ==>
                socket.View() == Got(old(socket.View()), Message(id, channel, text))
    {
      messageId := messageId + 1;
      var message := Message(messageId, channel, text);
      messages := messages + [message];
      if |messages| > maxQueue { messages := messages[1..]; }
      var left := followers;
      while left != {}
        invariant left <= followers == old(followers)
        invariant messages == Push(old(messages), message, maxQueue) && messageId == message.id
        invariant forall socket :: socket in followers - left ==> socket.View() == Got(old(socket.View()), message)
        invariant forall socket :: socket in left ==> socket.View() == old(socket.View())
        decreases left
      {
        var socket :| socket in left;
        left := left - {socket};
        socket.GotMessage(message);
      }
      return messageId;
    }

    method Start(socket: Socket, start: int)
      modifies socket
      ensures socket.View() == Handle(messages, old(socket.View()), StartMsg(start))
    {
      socket.lastMsg := start;
    }

    /** An empty filter is an error; otherwise the socket follows from now on and catches up with the queue. */
    method Subscribe(socket: Socket, filter: seq<string>) returns (ok: bool)
      modifies this`followers, socket
      ensures ok <==> filter != []
      ensures followers == old(followers) + if ok then {socket} else {}
      ensures socket.View() == Handle(messages, old(socket.View()), SetFilter(filter))
    {
      if filter == [] { return false; }
      socket.filter := set channel | channel in filter;
      followers := followers + {socket};
      ghost var start := socket.View();
      for i := 0 to |messages|
        invariant followers == old(followers) + {socket}
        invariant CatchUp(messages[i..], socket.View()) == CatchUp(messages, start)
      {
        assert messages[i..][1..] == messages[i + 1..];
        if messages[i].id > socket.lastMsg { socket.GotMessage(messages[i]); }
      }
      return true;
    }
  }

  // ------------------------------------------------------------------------------------------------ the page

  /** How far a page is, and what it was handed. */
  datatype Page = Page(lastMsg: int, handed: seq<Message>)

  /** What a page asks for when a socket opens. */
  function Opening(page: Page, channels: seq<string>): seq<Request> {
    [StartMsg(page.lastMsg), SetFilter(channels)]
  }

  function Handed(page: Page, message: Message): Page {
    Page(message.id, page.handed + [message])
  }

  class Receiver {
    var lastMsg: int
    var handed: seq<Message>

    function View(): Page
      reads this
    {
      Page(lastMsg, handed)
    }

    constructor (lastMsg: int)
      ensures View() == Page(lastMsg, [])
    {
      this.lastMsg, handed := lastMsg, [];
    }

    /**
     onopen: the cursor is read when the socket opens.  Whatever the queue holds by then, and whatever the cursor of the
     socket was, the page catches up from where it is.
     */
    method OnOpen(channels: seq<string>) returns (requests: seq<Request>)
      ensures requests == Opening(View(), channels)
      ensures channels != [] ==> forall messages, client ::
        Handle(messages, Handle(messages, client, requests[0]), requests[1])
        == CatchUp(messages, client.(lastMsg := lastMsg, filter := Elements(channels)))
    {
      return [StartMsg(lastMsg), SetFilter(channels)];
    }

    method OnMessage(message: Message)
      modifies this
      ensures View() == Handed(old(View()), message)
    {
      handed := handed + [message];
      lastMsg := message.id;
    }
  }

  // -------------------------------------------------------------------------------- the page and its sockets

  /** A subscription: where the page was, and the newest message there was. */
  datatype Subscription = Subscription(cursor: int, newest: int)

  /**
   The daemon, the page and the socket between them.  The log of everything posted and the subscriptions are only kept
   to say what was missed.
   */
  datatype System = System(messages: seq<Message>, messageId: int, client: Client, following: bool,
                           live: bool, requests: seq<Request>, page: Page,
                           log: seq<Message>, subscriptions: seq<Subscription>)

  /** What does not change: the size of the queue, what the page follows, and where it and the daemon started. */
  datatype Setting = Setting(maxQueue: nat, channels: seq<string>, start: int, base: int)

  datatype Step =
    | Post(channel: string, text: string)
    | Connect      // the page opens a socket
    | Serve        // the daemon reads a request of the socket
    | Receive      // the page receives a message
    | Close        // the daemon loses the socket: what is on its way may still arrive
    | Drop         // the socket is gone, with whatever was on its way

  /** The end of the log that the queue holds. */
  function Newest(log: seq<Message>, maxQueue: nat): seq<Message> {
    log[|log| - Min(|log|, maxQueue)..]
  }

  /** A page that loads when the daemon has already posted some messages. */
  function Loaded(k: Setting, log: seq<Message>): System {
    System(Newest(log, k.maxQueue), k.base + |log|, Client(0, {}, []), false, false, [], Page(k.start, []), log, [])
  }

  predicate Legal(s: System, step: Step) {
    match step
    case Post(_, _) => true
    case Connect => !s.live
    case Serve => s.live && s.requests != []
    case Receive => s.live && s.client.sent != []
    case Close => s.live
    case Drop => s.live
  }

  function Served(s: System): System
    requires s.requests != []
  {
    var request := s.requests[0];
    var rest := s.(requests := s.requests[1..], client := Handle(s.messages, s.client, request));
    if request.SetFilter? && request.filter != [] then
      rest.(following := true, subscriptions := s.subscriptions + [Subscription(s.client.lastMsg, s.messageId)])
    else rest
  }

  function Next(k: Setting, s: System, step: Step): System
    requires Legal(s, step)
  {
    match step
    case Post(channel, text) =>
      var message := Message(s.messageId + 1, channel, text);
      s.(messages := Push(s.messages, message, k.maxQueue), messageId := message.id, log := s.log + [message],
         client := if s.following then Got(s.client, message) else s.client)
    case Connect =>
      s.(live := true, following := false, client := Client(0, {}, []),
         requests := Opening(s.page, k.channels))
    case Serve => Served(s)
    case Receive => s.(client := s.client.(sent := s.client.sent[1..]), page := Handed(s.page, s.client.sent[0]))
    case Close => s.(following := false, requests := [])
    case Drop => s.(live := false, following := false, requests := [], client := Client(0, {}, []))
  }

  predicate LegalRun(k: Setting, s: System, steps: seq<Step>)
    decreases |steps|
  {
    steps == [] || (Legal(s, steps[0]) && LegalRun(k, Next(k, s, steps[0]), steps[1..]))
  }

  function Run(k: Setting, s: System, steps: seq<Step>): System
    requires LegalRun(k, s, steps)
    decreases |steps|
  {
    if steps == [] then s else Run(k, Next(k, s, steps[0]), steps[1..])
  }
}
