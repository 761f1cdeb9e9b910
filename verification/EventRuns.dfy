/** What a page gets and what it misses, over any run of posts, drops and reconnections. */
module EventRuns {
  import opened Common
  import opened EventDelivery

  // -------------------------------------------------------------------------------------- what always holds

  ghost predicate Rising(messages: seq<Message>) {
    forall i, j :: 0 <= i < j < |messages| ==> messages[i].id < messages[j].id
  }

  /** Ids follow one another, and the queue is the end of the log. */
  ghost predicate LogOk(k: Setting, s: System) {
    s.messageId == k.base + |s.log| && (forall i :: 0 <= i < |s.log| ==> s.log[i].id == k.base + 1 + i) &&
    s.messages == Newest(s.log, k.maxQueue)
  }

  /** A message the page asked for when it loaded. */
  predicate Wanted(k: Setting, message: Message) {
    message.channel in k.channels && message.id > k.start
  }

  /** More than the queue holds had been posted from this message on, before some subscription that looked for it. */
  ghost predicate Overflowed(k: Setting, s: System, message: Message) {
    exists i :: 0 <= i < |s.subscriptions| && s.subscriptions[i].cursor < message.id &&
                s.subscriptions[i].newest - message.id + 1 > k.maxQueue
  }

  ghost predicate HandedOk(k: Setting, s: System) {
    Rising(s.page.handed) && (s.page.handed != [] ==> s.page.handed[|s.page.handed| - 1].id == s.page.lastMsg) &&
    (s.page.handed == [] ==> s.page.lastMsg == k.start) &&
    forall message :: message in s.page.handed ==> Wanted(k, message) && message in s.log
  }

  ghost predicate SentOk(k: Setting, s: System) {
    Rising(s.client.sent) &&
    forall message :: message in s.client.sent ==>
      Wanted(k, message) && message in s.log && s.page.lastMsg < message.id <= s.client.lastMsg
  }

  predicate Asking(k: Setting, s: System) {
    (s.requests == Opening(s.page, k.channels) && s.client.lastMsg <= s.page.lastMsg) ||
    (s.requests == [SetFilter(k.channels)] && s.client.lastMsg == s.page.lastMsg)
  }

  ghost predicate UpToDate(s: System) {
    forall message :: message in s.log ==> message.id <= s.client.lastMsg
  }

  /** Until the subscription is read nothing is sent, and the cursor is still where the page is. */
  ghost predicate SocketOk(k: Setting, s: System) {
    (s.client.sent != [] ==> s.live && s.requests == []) &&
    (!s.live ==> s.requests == [] && !s.following) &&
    (s.requests != [] ==> !s.following && Asking(k, s)) &&
    (s.following ==> s.client.filter == Elements(k.channels) && UpToDate(s)) &&
    s.client.lastMsg <= s.messageId
  }

  /** Whatever is behind the page was handed to it or had overflowed; whatever is behind the socket, or on its way. */
  ghost predicate Accounted(k: Setting, s: System, message: Message) {
    (message.id <= s.page.lastMsg ==> message in s.page.handed || Overflowed(k, s, message)) &&
    (s.page.lastMsg < message.id <= s.client.lastMsg && s.requests == [] ==>
      message in s.client.sent || Overflowed(k, s, message))
  }

  ghost predicate Inv(k: Setting, s: System) {
    k.maxQueue >= 1 && LogOk(k, s) && HandedOk(k, s) && SentOk(k, s) && SocketOk(k, s) &&
    0 <= k.start <= s.page.lastMsg <= s.messageId &&
    forall message :: message in s.log && Wanted(k, message) ==> Accounted(k, s, message)
  }

  // ---------------------------------------------------------------------------------------------- each step

  lemma PostLog(k: Setting, s: System, channel: string, text: string)
    requires LogOk(k, s)
    ensures LogOk(k, Next(k, s, Post(channel, text)))
    ensures forall m :: m in s.log ==> m.id <= s.messageId
  {
    PushIs(s.log, Message(s.messageId + 1, channel, text), k.maxQueue);
  }

  lemma PostAccounts(k: Setting, s: System, channel: string, text: string, m: Message)
    requires SocketOk(k, s) && s.page.lastMsg <= s.messageId && m.id <= s.messageId && Accounted(k, s, m)
    requires s.following ==> m.id <= s.client.lastMsg
    ensures Accounted(k, Next(k, s, Post(channel, text)), m)
  {
    var s' := Next(k, s, Post(channel, text));
    assert Overflowed(k, s, m) ==> Overflowed(k, s', m);
    hide Overflowed, Push, LogOk;
  }

  lemma PostSends(k: Setting, s: System, channel: string, text: string)
    requires LogOk(k, s) && SentOk(k, s) && SocketOk(k, s) && k.start <= s.page.lastMsg <= s.messageId
    ensures SentOk(k, Next(k, s, Post(channel, text))) && SocketOk(k, Next(k, s, Post(channel, text)))
  {
    hide Push;
    PostLog(k, s, channel, text);
    hide LogOk;
  }

  lemma PostKeepsInv(k: Setting, s: System, channel: string, text: string)
    requires Inv(k, s)
    ensures Inv(k, Next(k, s, Post(channel, text)))
  {
    hide LogOk, Accounted, Overflowed, Push, SentOk, Rising, Wanted;
    var s' := Next(k, s, Post(channel, text));
    PostLog(k, s, channel, text);
    PostSends(k, s, channel, text);
    forall m | m in s.log && Wanted(k, m) ensures Accounted(k, s', m) {
      PostAccounts(k, s, channel, text, m);
    }
    if Wanted(k, Message(s.messageId + 1, channel, text)) { NewlyPosted(k, s, channel, text); }
  }

  lemma NewlyPosted(k: Setting, s: System, channel: string, text: string)
    requires Inv(k, s) && Wanted(k, Message(s.messageId + 1, channel, text))
    ensures Accounted(k, Next(k, s, Post(channel, text)), Message(s.messageId + 1, channel, text))
  {
    hide LogOk, Overflowed, Push, Rising;
  }

  lemma PushIs(log: seq<Message>, message: Message, maxQueue: nat)
    ensures Push(Newest(log, maxQueue), message, maxQueue) == Newest(log + [message], maxQueue)
  {}

  lemma ReceiveOrders(k: Setting, s: System)
    requires Inv(k, s) && Legal(s, Receive)
    ensures HandedOk(k, Next(k, s, Receive)) && SentOk(k, Next(k, s, Receive)) && SocketOk(k, Next(k, s, Receive))
    ensures s.page.lastMsg < s.client.sent[0].id <= s.client.lastMsg
  {
    hide Accounted, LogOk;
    var message, rest := s.client.sent[0], s.client.sent[1..];
    var s' := Next(k, s, Receive);
    assert s.client.sent == [message] + rest;
    assert message in s.client.sent;
    assert forall m :: m in rest ==> m in s.client.sent;
    assert forall i :: 0 <= i < |s.page.handed| ==> s.page.handed[i].id <= s.page.lastMsg;
    assert s'.page.handed == s.page.handed + [message];
  }

  lemma ReceiveAccounts(k: Setting, s: System, m: Message)
    requires Rising(s.client.sent) && Legal(s, Receive) && Accounted(k, s, m) && s.requests == []
    requires s.page.lastMsg < s.client.sent[0].id <= s.client.lastMsg
    ensures Accounted(k, Next(k, s, Receive), m)
  {
    var message, rest := s.client.sent[0], s.client.sent[1..];
    var s' := Next(k, s, Receive);
    assert s.client.sent == [message] + rest;
    assert Overflowed(k, s, m) ==> Overflowed(k, s', m);
    if m in rest { assert m.id > message.id; }
  }

  lemma ReceiveKeepsInv(k: Setting, s: System)
    requires Inv(k, s) && Legal(s, Receive)
    ensures Inv(k, Next(k, s, Receive))
  {
    hide Accounted, HandedOk, SocketOk;
    ReceiveOrders(k, s);
    ReceiveReady(k, s);
    var s' := Next(k, s, Receive);
    assert s.client.sent[0] in s.client.sent;
    forall m | m in s'.log && Wanted(k, m) ensures Accounted(k, s', m) { ReceiveAccounts(k, s, m); }
  }

  lemma ReceiveReady(k: Setting, s: System)
    requires Inv(k, s) && Legal(s, Receive)
    ensures s.requests == [] && s.client.lastMsg <= s.messageId
  {}

  lemma GotIs(client: Client, message: Message)
    requires Rising(client.sent) && message.id > client.lastMsg
    requires forall m :: m in client.sent ==> m.id <= client.lastMsg
    ensures var after := Got(client, message);
            after.filter == client.filter && after.lastMsg == message.id && Rising(after.sent) &&
            (forall m :: m in after.sent ==> m.id <= message.id) &&
            forall m :: m in after.sent <==> m in client.sent || (m == message && message.channel in client.filter)
  {}

  lemma RisingRest(messages: seq<Message>)
    requires Rising(messages) && messages != []
    ensures Rising(messages[1..]) && forall m :: m in messages[1..] ==> m.id > messages[0].id
    ensures forall m :: m in messages <==> m == messages[0] || m in messages[1..]
  {
    assert messages == [messages[0]] + messages[1..];
  }

  /** What catching up sends: whatever in the queue is newer than the cursor and in the filter, in order. */
  lemma {:induction false} CatchUpSends(messages: seq<Message>, client: Client)
    requires Rising(messages) && Rising(client.sent) && forall m :: m in client.sent ==> m.id <= client.lastMsg
    ensures var after := CatchUp(messages, client);
            after.filter == client.filter && Rising(after.sent) && after.lastMsg >= client.lastMsg &&
            (forall m :: m in messages ==> m.id <= after.lastMsg) &&
            (after.lastMsg == client.lastMsg || exists m :: m in messages && m.id == after.lastMsg) &&
            forall m :: m in after.sent <==>
              m in client.sent || (m in messages && m.id > client.lastMsg && m.channel in client.filter)
    decreases |messages|
  {
    hide Rising, Got;
    if messages != [] {
      RisingRest(messages);
      if messages[0].id > client.lastMsg {
        GotIs(client, messages[0]);
        CatchUpSends(messages[1..], Got(client, messages[0]));
      } else {
        CatchUpSends(messages[1..], client);
      }
    }
  }

  lemma QueueRises(k: Setting, s: System)
    requires LogOk(k, s)
    ensures Rising(s.messages)
    ensures forall m :: m in s.messages ==> m in s.log
    ensures forall m :: m in s.log && m !in s.messages ==> s.messageId - m.id + 1 > k.maxQueue
  {
    var from := |s.log| - Min(|s.log|, k.maxQueue);
    assert s.log == s.log[..from] + s.messages;
  }

  lemma NewestIsQueued(k: Setting, s: System)
    requires LogOk(k, s) && k.maxQueue >= 1 && s.log != []
    ensures exists m :: m in s.messages && m.id == s.messageId
    ensures forall m :: m in s.log ==> m.id <= s.messageId
  {
    assert s.messages[|s.messages| - 1] == s.log[|s.log| - 1];
    assert s.messages[|s.messages| - 1] in s.messages;
  }

  /** A subscription sends whatever is wanted, newer than the page and still in the queue. */
  lemma SubscribedIs(k: Setting, s: System, client: Client)
    requires LogOk(k, s) && k.maxQueue >= 1 && s.client.sent == [] && s.client.lastMsg == s.page.lastMsg <= s.messageId
    requires client == CatchUp(s.messages, s.client.(filter := Elements(k.channels))) && k.start <= s.page.lastMsg
    ensures client.filter == Elements(k.channels) && Rising(client.sent) &&
            s.page.lastMsg <= client.lastMsg <= s.messageId
    ensures forall m :: m in s.log ==> m.id <= client.lastMsg
    ensures forall m :: m in client.sent <==> m in s.messages && m.id > s.page.lastMsg && m.channel in k.channels
    ensures forall m :: m in client.sent ==> m in s.log
  {
    hide CatchUp;
    QueueRises(k, s);
    CatchUpSends(s.messages, s.client.(filter := Elements(k.channels)));
    if s.log != [] { NewestIsQueued(k, s); }
    hide LogOk, Rising;
  }

  lemma SubscribedOverflows(k: Setting, s: System, s': System, m: Message)
    requires s'.subscriptions == s.subscriptions + [Subscription(s.page.lastMsg, s.messageId)]
    ensures Overflowed(k, s, m) ==> Overflowed(k, s', m)
    ensures m.id > s.page.lastMsg && s.messageId - m.id + 1 > k.maxQueue ==> Overflowed(k, s', m)
  {
    assert s'.subscriptions[|s.subscriptions|] == Subscription(s.page.lastMsg, s.messageId);
    if Overflowed(k, s, m) {
      var i :| 0 <= i < |s.subscriptions| && s.subscriptions[i].cursor < m.id &&
               s.subscriptions[i].newest - m.id + 1 > k.maxQueue;
      assert s'.subscriptions[i] == s.subscriptions[i];
    }
  }

  lemma SubscribeAccounts(k: Setting, s: System, m: Message)
    requires Inv(k, s) && s.live && s.requests == [SetFilter(k.channels)] && k.channels != []
    requires m in s.log && Wanted(k, m)
    ensures Accounted(k, Served(s), m)
  {
    hide CatchUp, Overflowed, Rising, LogOk, HandedOk;
    var s' := Served(s);
    SubscribedIs(k, s, s'.client);
    QueueRises(k, s);
    assert Accounted(k, s, m);
    SubscribedOverflows(k, s, s', m);
  }

  lemma SubscribeKeepsInv(k: Setting, s: System)
    requires Inv(k, s) && s.live && s.requests == [SetFilter(k.channels)] && k.channels != []
    ensures Inv(k, Served(s))
  {
    hide CatchUp, Accounted, Rising;
    var s' := Served(s);
    SubscribedIs(k, s, s'.client);
    forall m | m in s.log && Wanted(k, m) ensures Accounted(k, s', m) { SubscribeAccounts(k, s, m); }
  }

  lemma ServeKeepsInv(k: Setting, s: System)
    requires Inv(k, s) && Legal(s, Serve)
    ensures Inv(k, Next(k, s, Serve))
  {
    if s.requests[0].SetFilter? && k.channels != [] {
      SubscribeKeepsInv(k, s);
    } else {
      var s' := Next(k, s, Serve);
      forall m | m in s'.log && Wanted(k, m) ensures Accounted(k, s', m) {
        assert Accounted(k, s, m);
        assert Overflowed(k, s, m) ==> Overflowed(k, s', m);
      }
    }
  }

  /** Opening or losing a socket: whatever was on its way is looked for again by the next subscription. */
  lemma SocketKeepsInv(k: Setting, s: System, step: Step)
    requires Inv(k, s) && Legal(s, step) && (step.Connect? || step.Close? || step.Drop?)
    ensures Inv(k, Next(k, s, step))
  {
    var s' := Next(k, s, step);
    forall m | m in s'.log && Wanted(k, m) ensures Accounted(k, s', m) {
      assert Accounted(k, s, m);
      assert Overflowed(k, s, m) ==> Overflowed(k, s', m);
    }
  }

  lemma StepKeepsInv(k: Setting, s: System, step: Step)
    requires Inv(k, s) && Legal(s, step)
    ensures Inv(k, Next(k, s, step))
  {
    hide Inv;
    match step {
      case Post(channel, text) => PostKeepsInv(k, s, channel, text);
      case Serve => ServeKeepsInv(k, s);
      case Receive => ReceiveKeepsInv(k, s);
      case _ => SocketKeepsInv(k, s, step);
    }
  }

  lemma {:induction false} RunKeepsInv(k: Setting, s: System, steps: seq<Step>)
    requires Inv(k, s) && LegalRun(k, s, steps)
    ensures Inv(k, Run(k, s, steps))
    decreases |steps|
  {
    hide Inv;
    if steps != [] {
      StepKeepsInv(k, s, steps[0]);
      RunKeepsInv(k, Next(k, s, steps[0]), steps[1..]);
    }
  }

  // ------------------------------------------------------------------------------- what was lost is lost

  /** Subscriptions are in the past, and what overflowed before one is neither handed over nor on its way. */
  ghost predicate LostForGood(k: Setting, s: System) {
    (forall i :: 0 <= i < |s.subscriptions| ==> s.subscriptions[i].newest <= s.messageId) &&
    forall m :: m in s.log && Overflowed(k, s, m) ==> m !in s.page.handed && m !in s.client.sent
  }

  lemma {:induction false} NotAhead(k: Setting, s: System, m: Message)
    requires HandedOk(k, s) && m in s.page.handed
    ensures m.id <= s.page.lastMsg
  {
    var i :| 0 <= i < |s.page.handed| && s.page.handed[i] == m;
  }

  lemma SubscribeLoses(k: Setting, s: System)
    requires Inv(k, s) && LostForGood(k, s)
    requires s.live && s.requests == [SetFilter(k.channels)] && k.channels != []
    ensures LostForGood(k, Served(s))
  {
    hide CatchUp;
    var s' := Served(s);
    SubscribedIs(k, s, s'.client);
    QueueRises(k, s);
    forall m | m in s.log && Overflowed(k, s', m) ensures m !in s.page.handed && m !in s'.client.sent {
      LongGone(k, s, s', m);
      if m in s.page.handed { NotAhead(k, s, m); }
    }
    hide Rising, LogOk, Overflowed;
  }

  /** What overflowed is not in the queue any more. */
  lemma LongGone(k: Setting, s: System, s': System, m: Message)
    requires LogOk(k, s) && m in s.log && Overflowed(k, s', m) && LostForGood(k, s)
    requires s'.subscriptions == s.subscriptions + [Subscription(s.page.lastMsg, s.messageId)]
    ensures m !in s.messages && (Overflowed(k, s, m) || m.id > s.page.lastMsg)
  {
    var i :| 0 <= i < |s'.subscriptions| && s'.subscriptions[i].cursor < m.id &&
             s'.subscriptions[i].newest - m.id + 1 > k.maxQueue;
    if i < |s.subscriptions| { assert s.subscriptions[i] == s'.subscriptions[i]; }
    OldestQueued(k, s);
  }

  lemma OldestQueued(k: Setting, s: System)
    requires LogOk(k, s)
    ensures forall m :: m in s.messages ==> s.messageId - m.id + 1 <= k.maxQueue
  {}

  lemma StepKeepsLost(k: Setting, s: System, step: Step)
    requires Inv(k, s) && LostForGood(k, s) && Legal(s, step)
    ensures LostForGood(k, Next(k, s, step))
  {
    var s' := Next(k, s, step);
    if step.Serve? && s.requests[0].SetFilter? && k.channels != [] {
      SubscribeLoses(k, s);
    } else {
      assert s'.subscriptions == s.subscriptions;
      forall m | m in s'.log && Overflowed(k, s', m) ensures m !in s'.page.handed && m !in s'.client.sent {
        assert Overflowed(k, s, m);
        if m in s.log { StaysLost(k, s, step, m); } else { NotYetPosted(k, s, m); }
      }
    }
  }

  lemma StaysLost(k: Setting, s: System, step: Step, m: Message)
    requires Inv(k, s) && Legal(s, step) && m in s.log && m !in s.page.handed && m !in s.client.sent
    requires step.Serve? ==> !s.requests[0].SetFilter? || k.channels == []
    ensures m !in Next(k, s, step).page.handed && m !in Next(k, s, step).client.sent
  {
    hide Accounted, Overflowed, Push;
    if step.Post? { assert m.id <= s.messageId; }
  }

  /** A message still to be posted has not overflowed. */
  lemma NotYetPosted(k: Setting, s: System, m: Message)
    requires Inv(k, s) && LostForGood(k, s) && m.id == s.messageId + 1
    ensures !Overflowed(k, s, m)
  {}

  lemma {:induction false} RunKeepsLost(k: Setting, s: System, steps: seq<Step>)
    requires Inv(k, s) && LostForGood(k, s) && LegalRun(k, s, steps)
    ensures LostForGood(k, Run(k, s, steps))
    decreases |steps|
  {
    hide Inv, LostForGood;
    if steps != [] {
      StepKeepsInv(k, s, steps[0]);
      StepKeepsLost(k, s, steps[0]);
      RunKeepsLost(k, Next(k, s, steps[0]), steps[1..]);
    }
  }

  // ------------------------------------------------------------------------------------------------- whole runs

  /** Whatever was posted before, one id after another, and a page no further than that. */
  ghost predicate CanLoad(k: Setting, log: seq<Message>) {
    k.maxQueue >= 1 && 0 <= k.start <= k.base + |log| && forall i :: 0 <= i < |log| ==> log[i].id == k.base + 1 + i
  }

  /**
   A page loads with everything in the log still to be accounted for: what was wanted and already posted is looked for
   by its first subscription.
   */
  lemma LoadedInv(k: Setting, log: seq<Message>)
    requires CanLoad(k, log)
    ensures Inv(k, Loaded(k, log)) && LostForGood(k, Loaded(k, log))
  {}

  /**
   Over any run of a page loaded at any moment: ids handed to it only rise, each once, on its channels and newer than
   where it started; and of the messages it wanted and is past, it was handed exactly those that were still in the queue
   at every subscription that looked for them.
   */
  lemma DeliveredOrOverflowed(k: Setting, log: seq<Message>, steps: seq<Step>)
    requires CanLoad(k, log) && LegalRun(k, Loaded(k, log), steps)
    ensures var s := Run(k, Loaded(k, log), steps);
            Rising(s.page.handed) &&
            (forall message :: message in s.page.handed ==> Wanted(k, message) && message in s.log) &&
            (forall message :: message in s.log && Wanted(k, message) && message.id <= s.page.lastMsg ==>
              (message in s.page.handed <==> !Overflowed(k, s, message)))
  {
    hide Run, LegalRun, Overflowed, CanLoad, Loaded;
    LoadedInv(k, log);
    RunKeepsInv(k, Loaded(k, log), steps);
    RunKeepsLost(k, Loaded(k, log), steps);
    hide Rising, LogOk, SentOk, SocketOk;
  }

  /** A page whose socket is followed and has nothing on its way has exactly what did not overflow. */
  lemma QuietIsComplete(k: Setting, log: seq<Message>, steps: seq<Step>, message: Message)
    requires CanLoad(k, log) && LegalRun(k, Loaded(k, log), steps)
    requires var s := Run(k, Loaded(k, log), steps);
             s.following && s.client.sent == [] && message in s.log && Wanted(k, message)
    ensures var s := Run(k, Loaded(k, log), steps);
            message in s.page.handed <==> !Overflowed(k, s, message)
  {
    hide Run, LegalRun, Overflowed, CanLoad, Loaded;
    LoadedInv(k, log);
    RunKeepsInv(k, Loaded(k, log), steps);
    RunKeepsLost(k, Loaded(k, log), steps);
    assert Accounted(k, Run(k, Loaded(k, log), steps), message);
  }

  /** With a queue that never overflows between two subscriptions, nothing is ever missed. */
  lemma NothingMissed(k: Setting, log: seq<Message>, steps: seq<Step>, message: Message)
    requires CanLoad(k, log) && LegalRun(k, Loaded(k, log), steps)
    requires var s := Run(k, Loaded(k, log), steps);
             message in s.log && Wanted(k, message) && message.id <= s.page.lastMsg &&
             forall i :: 0 <= i < |s.subscriptions| ==>
               s.subscriptions[i].newest - s.subscriptions[i].cursor <= k.maxQueue
    ensures message in Run(k, Loaded(k, log), steps).page.handed
  {
    hide Run, LegalRun, Rising, Wanted, CanLoad, Loaded;
    DeliveredOrOverflowed(k, log, steps);
  }

  /** A page that lost its socket opens another, and is sent exactly what it wants, has not had and is still queued. */
  lemma ReconnectCatchesUp(k: Setting, s: System)
    requires Inv(k, s) && !s.live && k.channels != []
    ensures var asking := Next(k, s, Connect);
            Legal(asking, Serve) && Legal(Next(k, asking, Serve), Serve) &&
            var caughtUp := Next(k, Next(k, asking, Serve), Serve);
            caughtUp.following && caughtUp.page == s.page && Rising(caughtUp.client.sent) &&
            forall m :: m in caughtUp.client.sent <==>
              m in s.messages && m.channel in k.channels && m.id > s.page.lastMsg
  {
    hide CatchUp;
    var started := Next(k, Next(k, s, Connect), Serve);
    assert started.requests == [SetFilter(k.channels)];
    SubscribedIs(k, started, Next(k, started, Serve).client);
    hide Rising, Accounted, LogOk;
  }
}
