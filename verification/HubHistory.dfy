/**
 Any interleaving of connections, subscriptions, broadcasts, writers and disconnections. A broadcast
 holds the hub's lock for reading, so several may run at once, each visiting the members one by one;
 adding and removing a client needs the lock alone.
 */
module HubHistory {
  import opened Hub

  /** A connection: waiting to send its acknowledgement, open, or left by its reader. */
  datatype Phase = Greeting | Open | Left

  /** `taken` is what the writer has taken from the channel; `closings` counts how often it was closed. */
  datatype Connection = Connection(
    topics: set<string>, queue: seq<Message>, taken: seq<Message>, phase: Phase, writing: bool, closings: nat)

  datatype Sending = Sending(message: Message, visited: set<nat>)

  datatype Sys = Sys(connections: map<nat, Connection>, members: set<nat>, sendings: map<nat, Sending>)

  const INIT := Sys(map[], {}, map[])
  const ADDED := Connection({}, [], [], Greeting, false, 0)

  datatype Step =
    | Add(client: nat)
    | Greet(client: nat)
    | Subscribe(client: nat, topics: set<string>)
    | StartBroadcast(op: nat, message: Message)
    | Visit(op: nat, client: nat)
    | EndBroadcast(op: nat)
    | Take(client: nat)
    | StopWriter(client: nat)
    | Remove(client: nat)

  predicate CanVisit(s: Sys, op: nat, client: nat) {
    op in s.sendings && client in s.members && client in s.connections && client !in s.sendings[op].visited
  }

  /** One step; a step that is not possible changes nothing. */
  function Do(s: Sys, step: Step): Sys {
    match step
    case Add(c) =>
      if c in s.connections || s.sendings != map[] then s
      else s.(connections := s.connections[c := ADDED], members := s.members + {c})
    case Greet(c) =>
      if c !in s.connections || !s.connections[c].phase.Greeting? || |s.connections[c].queue| >= CAPACITY then s
      else
        var client := s.connections[c];
        s.(connections := s.connections[c := client.(queue := client.queue + [Ack], phase := Open, writing := true)])
    case Subscribe(c, topics) =>
      if c !in s.connections || !s.connections[c].phase.Open? then s
      else s.(connections := s.connections[c := s.connections[c].(topics := topics)])
    case StartBroadcast(op, m) =>
      if op in s.sendings || m.Ack? then s else s.(sendings := s.sendings[op := Sending(m, {})])
    case Visit(op, c) =>
      if !CanVisit(s, op, c) then s
      else
        var sending, client := s.sendings[op], s.connections[c];
        s.(connections := s.connections[c := client.(queue := Offered(client.topics, client.queue, sending.message))],
           sendings := s.sendings[op := sending.(visited := sending.visited + {c})])
    case EndBroadcast(op) =>
      if op in s.sendings && s.members <= s.sendings[op].visited then s.(sendings := s.sendings - {op}) else s
    case Take(c) =>
      if c !in s.connections || !s.connections[c].writing || s.connections[c].queue == [] then s
      else
        var client := s.connections[c];
        s.(connections := s.connections[c := client.(queue := client.queue[1..],
          taken := client.taken + [client.queue[0]])])
    case StopWriter(c) =>
      if c !in s.connections then s else s.(connections := s.connections[c := s.connections[c].(writing := false)])
    case Remove(c) =>
      if c !in s.connections || s.connections[c].phase.Greeting? || s.sendings != map[] then s
      else
        var client := s.connections[c].(phase := Left);
        var closed := if c in s.members then client.(closings := client.closings + 1) else client;
        s.(connections := s.connections[c := closed], members := s.members - {c})
  }

  function After(steps: seq<Step>): Sys {
    if steps == [] then INIT else Do(After(steps[..|steps| - 1]), steps[|steps| - 1])
  }

  lemma AfterOneMore(steps: seq<Step>, step: Step)
    ensures After(steps + [step]) == Do(After(steps), step)
  {
    assert (steps + [step])[..|steps|] == steps;
  }

  // ---- Channels -------------------------------------------------------------------------------

  /** The channel holds at most 16 messages, is open exactly while the client is a member,
    and is closed at most once. */
  ghost predicate ChannelHolds(s: Sys, c: nat)
    requires c in s.connections
  {
    var client := s.connections[c];
    && |client.queue| <= CAPACITY
    && client.closings == (if c in s.members then 0 else 1)
    && (client.phase.Greeting? ==> c in s.members && client.taken == [] && !client.writing && client.topics == {})
  }

  ghost predicate ChannelsHold(s: Sys) {
    s.members <= s.connections.Keys && forall c | c in s.connections :: ChannelHolds(s, c)
  }

  lemma ChannelsStay(s: Sys, step: Step)
    requires ChannelsHold(s)
    ensures ChannelsHold(Do(s, step))
  {
    hide Subscribed;
  }

  lemma {:induction false} AlwaysChannels(steps: seq<Step>)
    ensures ChannelsHold(After(steps))
  {
    if steps == [] {
    } else {
      var n := |steps| - 1;
      AlwaysChannels(steps[..n]);
      hide Do, ChannelsHold;
      ChannelsStay(After(steps[..n]), steps[n]);
    }
  }

  /** The step sends to the client's channel, or closes it. */
  predicate UsesChannel(s: Sys, step: Step, c: nat) {
    || (step == Greet(c) && c in s.connections && s.connections[c].phase.Greeting?)
    || (step.Visit? && step.client == c && CanVisit(s, step.op, c))
    || (step == Remove(c) && c in s.members && s.sendings == map[])
  }

  /** Nothing is ever sent on a closed channel and no channel is closed twice. */
  lemma ChannelsUsedOpen(steps: seq<Step>, step: Step, c: nat)
    requires UsesChannel(After(steps), step, c)
    ensures c in After(steps).connections && After(steps).connections[c].closings == 0
  {
    AlwaysChannels(steps);
    hide After;
  }

  // ---- What a client receives -----------------------------------------------------------------

  /** The messages of the broadcasts that visited the client and matched its subscription, in order. */
  function Matching(steps: seq<Step>, c: nat): seq<Message> {
    if steps == [] then []
    else
      var before, step := steps[..|steps| - 1], steps[|steps| - 1];
      Matching(before, c) + Matched(After(before), step, c)
  }

  function Matched(s: Sys, step: Step, c: nat): seq<Message> {
    if step.Visit? && step.client == c && CanVisit(s, step.op, c)
       && Subscribed(s.connections[c].topics, Topic(s.sendings[step.op].message))
    then [s.sendings[step.op].message] else []
  }

  /** How many of them found the queue full. */
  function Lost(steps: seq<Step>, c: nat): nat {
    if steps == [] then 0
    else
      var before, step := steps[..|steps| - 1], steps[|steps| - 1];
      var s := After(before);
      Lost(before, c) + if Matched(s, step, c) != [] && |s.connections[c].queue| >= CAPACITY then 1 else 0
  }

  function Broadcasts(messages: seq<Message>): seq<Message> {
    if messages == [] then []
    else
      var n := |messages| - 1;
      Broadcasts(messages[..n]) + if messages[n].Ack? then [] else [messages[n]]
  }

  /** `a` is `b` with some messages left out. */
  predicate Subsequence(a: seq<Message>, b: seq<Message>) {
    if a == [] then true
    else if b == [] then false
    else
      var (i, j) := (|a| - 1, |b| - 1);
      Subsequence(a, b[..j]) || (a[i] == b[j] && Subsequence(a[..i], b[..j]))
  }

  function Reached(client: Connection): seq<Message> {
    client.taken + client.queue
  }

  lemma BroadcastsOneMore(messages: seq<Message>, m: Message)
    ensures Broadcasts(messages + [m]) == Broadcasts(messages) + if m.Ack? then [] else [m]
  {
    assert (messages + [m])[..|messages|] == messages;
  }

  lemma SubsequenceOneMore(a: seq<Message>, b: seq<Message>, m: Message)
    requires Subsequence(a, b)
    ensures Subsequence(a, b + [m]) && Subsequence(a + [m], b + [m])
  {
    assert (b + [m])[..|b|] == b && (a + [m])[..|a|] == a;
  }

  lemma NothingReceived(b: seq<Message>)
    ensures Broadcasts([]) == [] && Subsequence([], b)
  {
  }

  /** What a step adds to the messages that reached the client. */
  function Gained(s: Sys, step: Step, c: nat): seq<Message> {
    if c !in s.connections then []
    else if step == Greet(c) && s.connections[c].phase.Greeting? && |s.connections[c].queue| < CAPACITY then [Ack]
    else if |s.connections[c].queue| < CAPACITY then Matched(s, step, c)
    else []
  }

  lemma ReachedGrows(s: Sys, step: Step, c: nat)
    requires ChannelsHold(s) && c in Do(s, step).connections
    ensures Reached(Do(s, step).connections[c])
        == (if c in s.connections then Reached(s.connections[c]) else []) + Gained(s, step, c)
  {
    if c in s.connections {
      var client := s.connections[c];
      if step == Take(c) && client.queue != [] {
        assert client.queue == [client.queue[0]] + client.queue[1..];
      }
    }
  }

  ghost predicate SendingsAreBroadcasts(s: Sys) {
    forall op | op in s.sendings :: !s.sendings[op].message.Ack?
  }

  lemma {:induction false} AlwaysBroadcasts(steps: seq<Step>)
    ensures SendingsAreBroadcasts(After(steps))
  {
    if steps == [] {
    } else {
      AlwaysBroadcasts(steps[..|steps| - 1]);
    }
  }

  ghost predicate ClientServed(steps: seq<Step>, c: nat) {
    var s := After(steps);
    if c in s.connections then
      var got := Broadcasts(Reached(s.connections[c]));
      Subsequence(got, Matching(steps, c)) && |got| + Lost(steps, c) == |Matching(steps, c)|
    else Matching(steps, c) == [] && Lost(steps, c) == 0
  }

  /**
   What a client has received or has queued is, the acknowledgement apart, an in-order subsequence of
   the broadcasts that matched its subscription when they reached it; exactly the messages that found
   16 others waiting are missing.
   */
  lemma {:induction false} ReceivedInOrder(steps: seq<Step>, c: nat)
    ensures ClientServed(steps, c)
  {
    if steps == [] {
    } else {
      var n := |steps| - 1;
      var before, step := steps[..n], steps[n];
      ReceivedInOrder(before, c);
      ServedOneMore(before, step, c);
      assert steps == before + [step];
    }
  }

  lemma CountsOneMore(before: seq<Step>, step: Step, c: nat)
    ensures var steps, s := before + [step], After(before);
            && Matching(steps, c) == Matching(before, c) + Matched(s, step, c)
            && Lost(steps, c) == Lost(before, c) + if Matched(s, step, c) != [] && |s.connections[c].queue| >= CAPACITY
              then 1 else 0
  {
    assert (before + [step])[..|before|] == before;
  }

  lemma ServedOneMore(before: seq<Step>, step: Step, c: nat)
    requires ClientServed(before, c)
    ensures ClientServed(before + [step], c)
  {
    var s, t := After(before), After(before + [step]);
    AlwaysChannels(before);
    AlwaysBroadcasts(before);
    AfterOneMore(before, step);
    CountsOneMore(before, step, c);
    hide After, Matching, Lost, Subsequence, Broadcasts;
    if c in t.connections {
      ReachedGrows(s, step, c);
      if c in s.connections {
        var got, gained := Reached(s.connections[c]), Gained(s, step, c);
        hide Do, Reached;
        assert got + [] == got && Matching(before, c) + [] == Matching(before, c);
        assert Broadcasts(got) + [] == Broadcasts(got);
        if gained != [] {
          assert gained == [gained[0]];
          BroadcastsOneMore(got, gained[0]);
        }
        if Matched(s, step, c) != [] { SubsequenceOneMore(Broadcasts(got), Matching(before, c),
          Matched(s, step, c)[0]); }
      } else {
        NothingReceived(Matching(before + [step], c));
        assert Reached(t.connections[c]) == [];
      }
    }
  }

  // ---- Topics ---------------------------------------------------------------------------------

  /** A client without topics wants every event, one with topics those topics and the events that have none. */
  predicate Wants(topics: set<string>, m: Message) {
    m.Event? && (topics == {} || m.topic == "" || m.topic in topics)
  }

  /** A visit queues the event exactly when the client wants it and fewer than 16 wait, and does nothing else to it. */
  lemma VisitDelivers(steps: seq<Step>, op: nat, c: nat)
    requires CanVisit(After(steps), op, c)
    ensures var (s, t) := (After(steps), Do(After(steps), Visit(op, c)));
            var (client, m) := (s.connections[c], s.sendings[op].message);
            && m.Event? && c in t.connections
            && t.connections[c] == client.(queue :=
                 if Wants(client.topics, m) && |client.queue| < 16 then client.queue + [m] else client.queue)
            && (forall d | d in s.connections && d != c :: d in t.connections && t.connections[d] == s.connections[d])
  {
    AlwaysBroadcasts(steps);
    hide After;
  }

  lemma MatchedIsWanted(steps: seq<Step>, step: Step, c: nat)
    ensures forall m | m in Matched(After(steps), step, c) :: c in After(steps).connections
              && Wants(After(steps).connections[c].topics, m)
  {
    AlwaysBroadcasts(steps);
    hide After;
  }

  lemma TopicsStay(s: Sys, step: Step, c: nat)
    requires c in s.connections && !(step.Subscribe? && step.client == c)
    ensures c in Do(s, step).connections && Do(s, step).connections[c].topics == s.connections[c].topics
  {
    hide Offered;
  }

  /** From a subscription on, until the next one, a client is offered only what it asked for. */
  lemma {:induction false} OnlyWhatWasAskedFor(steps: seq<Step>, later: seq<Step>, c: nat)
    requires c in After(steps).connections && forall step | step in later :: !(step.Subscribe? && step.client == c)
    ensures var topics := After(steps).connections[c].topics;
            && c in After(steps + later).connections && After(steps + later).connections[c].topics == topics
            && Matching(steps, c) <= Matching(steps + later, c)
            && forall m | m in Matching(steps + later, c)[|Matching(steps, c)|..] :: Wants(topics, m)
    decreases |later|
  {
    if later == [] {
      assert steps + later == steps;
    } else {
      var rest, step := later[..|later| - 1], later[|later| - 1];
      assert steps + later == steps + rest + [step] && step in later;
      OnlyWhatWasAskedFor(steps, rest, c);
      AfterOneMore(steps + rest, step);
      CountsOneMore(steps + rest, step, c);
      MatchedIsWanted(steps + rest, step, c);
      TopicsStay(After(steps + rest), step, c);
      hide After, Do, Matching, Matched, Wants;
      var before, added := Matching(steps + rest, c), Matched(After(steps + rest), step, c);
      assert (before + added)[|Matching(steps, c)|..] == before[|Matching(steps, c)|..] + added;
    }
  }

  // ---- The acknowledgement --------------------------------------------------------------------

  /** The matching broadcasts that visited the client before its acknowledgement was queued. */
  function EarlyMatching(steps: seq<Step>, c: nat): seq<Message> {
    if steps == [] then []
    else
      var before, step := steps[..|steps| - 1], steps[|steps| - 1];
      var s := After(before);
      EarlyMatching(before, c) + if c in s.connections && s.connections[c].phase.Greeting? then Matched(s, step, c)
        else []
  }

  ghost predicate AckPlaced(steps: seq<Step>, c: nat) {
    var s, early := After(steps), EarlyMatching(steps, c);
    if c !in s.connections then early == []
    else
      var reached := Reached(s.connections[c]);
      if s.connections[c].phase.Greeting?
      then (early == [] <==> reached == []) && (reached != [] ==> !reached[0].Ack?)
      else reached != [] && (reached[0].Ack? <==> early == [])
  }

  /** What a step can do to a client that waits to send its acknowledgement, and to one that does not. */
  lemma GreetingStep(s: Sys, step: Step, c: nat)
    requires ChannelsHold(s) && SendingsAreBroadcasts(s) && c in s.connections
    ensures c in Do(s, step).connections
    ensures !s.connections[c].phase.Greeting? ==> !Do(s, step).connections[c].phase.Greeting?
    ensures s.connections[c].phase.Greeting? ==>
              if Do(s, step).connections[c].phase.Greeting?
              then Gained(s, step, c) == if |Reached(s.connections[c])| < CAPACITY then Matched(s, step, c) else []
              else Gained(s, step, c) == [Ack] && Matched(s, step, c) == []
    ensures forall m | m in Matched(s, step, c) :: !m.Ack?
  {
    hide Offered, Subscribed;
    assert s.connections[c].phase.Greeting? ==> |Reached(s.connections[c])| == |s.connections[c].queue|;
  }

  lemma NewConnection(s: Sys, step: Step, c: nat)
    requires c !in s.connections && c in Do(s, step).connections
    ensures Do(s, step).connections[c] == ADDED && Reached(ADDED) == [] && Matched(s, step, c) == []
  {
    hide Offered, Subscribed;
  }

  lemma AckPlacedOneMore(before: seq<Step>, step: Step, c: nat)
    requires AckPlaced(before, c)
    ensures AckPlaced(before + [step], c)
  {
    AlwaysChannels(before);
    AlwaysBroadcasts(before);
    AfterOneMore(before, step);
    EarlyOneMore(before, step, c);
    hide After, EarlyMatching, ChannelsHold, SendingsAreBroadcasts, Do, Gained, Matched, Reached;
    var s := After(before);
    if c in s.connections {
      GreetingStep(s, step, c);
      ReachedGrows(s, step, c);
    } else if c in Do(s, step).connections {
      NewConnection(s, step, c);
    }
  }

  lemma {:induction false} AckPlace(steps: seq<Step>, c: nat)
    ensures AckPlaced(steps, c)
  {
    if steps == [] {
    } else {
      var n := |steps| - 1;
      AckPlace(steps[..n], c);
      AckPlacedOneMore(steps[..n], steps[n], c);
      assert steps == steps[..n] + [steps[n]];
    }
  }

  /** The acknowledgement is the first message of a client exactly when no matching broadcast reached it before. */
  lemma AckFirstIffNothingEarly(steps: seq<Step>, c: nat)
    requires c in After(steps).connections && !After(steps).connections[c].phase.Greeting?
    ensures var reached := Reached(After(steps).connections[c]);
            reached != [] && (reached[0].Ack? <==> EarlyMatching(steps, c) == [])
  {
    AckPlace(steps, c);
  }

  /** Until a client is acknowledged nothing leaves its queue: it holds the first 16 early matching broadcasts. */
  ghost predicate EarlyQueued(steps: seq<Step>, c: nat) {
    var s, early := After(steps), EarlyMatching(steps, c);
    if c !in s.connections then early == []
    else s.connections[c].phase.Greeting? ==>
           s.connections[c].queue == if |early| < CAPACITY then early else early[..CAPACITY]
  }

  lemma EarlyQueuedOneMore(before: seq<Step>, step: Step, c: nat)
    requires EarlyQueued(before, c)
    ensures EarlyQueued(before + [step], c)
  {
    AlwaysChannels(before);
    AfterOneMore(before, step);
    EarlyOneMore(before, step, c);
    hide After, EarlyMatching, Subscribed;
  }

  lemma EarlyOneMore(before: seq<Step>, step: Step, c: nat)
    ensures var s := After(before);
            EarlyMatching(before + [step], c)
            == EarlyMatching(before, c) + if c in s.connections && s.connections[c].phase.Greeting?
              then Matched(s, step, c) else []
  {
    assert (before + [step])[..|before|] == before;
  }

  lemma {:induction false} AlwaysEarlyQueued(steps: seq<Step>, c: nat)
    ensures EarlyQueued(steps, c)
  {
    if steps == [] {
    } else {
      var n := |steps| - 1;
      AlwaysEarlyQueued(steps[..n], c);
      EarlyQueuedOneMore(steps[..n], steps[n], c);
      assert steps == steps[..n] + [steps[n]];
    }
  }

  ghost predicate OpenAfter(steps: seq<Step>, c: nat) {
    c in After(steps).connections && After(steps).connections[c].phase.Open?
  }

  /**
   A connection that waits to send its acknowledgement can still be acknowledged exactly while fewer
   than 16 matching broadcasts have reached it; after that it stays as it is for ever.
   */
  lemma AcknowledgedIffFewEarly(steps: seq<Step>, c: nat)
    requires c in After(steps).connections && After(steps).connections[c].phase.Greeting?
    ensures (exists later :: OpenAfter(steps + later, c)) <==> |EarlyMatching(steps, c)| < CAPACITY
  {
    AlwaysEarlyQueued(steps, c);
    AlwaysChannels(steps);
    if |EarlyMatching(steps, c)| < CAPACITY {
      AfterOneMore(steps, Greet(c));
      hide After;
      assert OpenAfter(steps + [Greet(c)], c);
    } else {
      assert Stuck(After(steps), c);
      hide After;
      forall later ensures !OpenAfter(steps + later, c) {
        StuckForever(steps, later, c);
      }
    }
  }

  /** One early broadcast, and the client's first message is not its acknowledgement. */
  lemma AckMayComeSecond()
    ensures exists steps :: OpenAfter(steps, 1) && Reached(After(steps).connections[1]) != []
                            && !Reached(After(steps).connections[1])[0].Ack?
  {
    FloodFills(1);
    var steps := Flood(1) + [Greet(1)];
    AfterOneMore(Flood(1), Greet(1));
    AckPlace(Flood(1), 1);
    AckPlace(steps, 1);
    EarlyOneMore(Flood(1), Greet(1), 1);
    AlwaysEarlyQueued(Flood(1), 1);
    hide After, Flood, EarlyMatching;
    assert OpenAfter(steps, 1);
  }

  /** A client whose queue is full before its acknowledgement was sent. */
  predicate Stuck(s: Sys, c: nat) {
    c in s.connections && s.connections[c].phase.Greeting? && |s.connections[c].queue| == CAPACITY
    && c in s.members && !s.connections[c].writing
  }

  /** Such a client stays a member for ever: it is never acknowledged, drained or removed. */
  lemma {:induction false} StuckForever(steps: seq<Step>, later: seq<Step>, c: nat)
    requires Stuck(After(steps), c)
    ensures Stuck(After(steps + later), c) && After(steps + later).connections[c] == After(steps).connections[c]
    decreases |later|
  {
    if later == [] {
      assert steps + later == steps;
    } else {
      var n := |later| - 1;
      StuckForever(steps, later[..n], c);
      assert steps + later == steps + later[..n] + [later[n]];
      AfterOneMore(steps + later[..n], later[n]);
      hide After;
      StuckStays(After(steps + later[..n]), later[n], c);
    }
  }

  lemma StuckStays(s: Sys, step: Step, c: nat)
    requires Stuck(s, c)
    ensures Stuck(Do(s, step), c) && Do(s, step).connections[c] == s.connections[c]
  {
  }

  /** A client, and then `n` broadcasts before its acknowledgement. */
  function Flood(n: nat): seq<Step> {
    if n == 0 then [Add(1)]
    else Flood(n - 1) + [StartBroadcast(1, Event("", n))] + [Visit(1, 1)] + [EndBroadcast(1)]
  }

  ghost predicate Flooded(s: Sys, n: nat) {
    && s.sendings == map[] && s.members == {1} && 1 in s.connections
    && s.connections[1].phase.Greeting? && !s.connections[1].writing
    && s.connections[1].topics == {} && |s.connections[1].queue| == n
  }

  lemma FloodsOn(s: Sys, m: Message, n: nat)
    requires Flooded(s, n) && n < CAPACITY && !m.Ack?
    ensures Flooded(Do(Do(Do(s, StartBroadcast(1, m)), Visit(1, 1)), EndBroadcast(1)), n + 1)
  {
  }

  lemma {:induction false} FloodFills(n: nat)
    requires n <= CAPACITY
    ensures Flooded(After(Flood(n)), n)
  {
    if n == 0 {
      AfterOneMore([], Add(1));
      assert [] + [Add(1)] == Flood(0);
    } else {
      FloodFills(n - 1);
      var m, first := Event("", n), Flood(n - 1);
      AfterOneMore(first, StartBroadcast(1, m));
      AfterOneMore(first + [StartBroadcast(1, m)], Visit(1, 1));
      AfterOneMore(first + [StartBroadcast(1, m)] + [Visit(1, 1)], EndBroadcast(1));
      hide After, Do;
      FloodsOn(After(first), m, n - 1);
    }
  }

  /** Sixteen broadcasts before the acknowledgement are enough to reach that state. */
  lemma StuckIsReachable()
    ensures exists steps :: Stuck(After(steps), 1)
  {
    FloodFills(CAPACITY);
    assert Stuck(After(Flood(CAPACITY)), 1);
  }

  // ---- A broadcast nobody interrupts ----------------------------------------------------------

  function VisitAll(s: Sys, op: nat, order: seq<nat>): Sys {
    if order == [] then s
    else
      var n := |order| - 1;
      Do(VisitAll(s, op, order[..n]), Visit(op, order[n]))
  }

  /** Whatever the order of its visits, a broadcast offers its message to every member once. */
  lemma {:induction false} VisitsOfferOnce(s: Sys, op: nat, order: seq<nat>)
    requires op in s.sendings && s.sendings[op].visited == {} && s.members <= s.connections.Keys
    requires (forall c | c in order :: c in s.members) && forall i, j | 0 <= i < j < |order| :: order[i] != order[j]
    ensures var t := VisitAll(s, op, order);
            && t.members == s.members && t.connections.Keys == s.connections.Keys
            && op in t.sendings && t.sendings[op] == s.sendings[op].(visited := set c | c in order)
            && (forall c | c in s.connections ::
                  t.connections[c] == if c in order
                  then s.connections[c].(queue := Offered(s.connections[c].topics, s.connections[c].queue,
                    s.sendings[op].message))
                  else s.connections[c])
  {
    if order == [] {
    } else {
      var n := |order| - 1;
      var earlier := order[..n];
      assert order == earlier + [order[n]];
      VisitsOfferOnce(s, op, earlier);
      hide VisitAll;
    }
  }

  lemma UninterruptedBroadcast(s: Sys, op: nat, m: Message, order: seq<nat>)
    requires op !in s.sendings && !m.Ack? && s.members <= s.connections.Keys
    requires (set c | c in order) == s.members && forall i, j | 0 <= i < j < |order| :: order[i] != order[j]
    ensures var t := Do(VisitAll(Do(s, StartBroadcast(op, m)), op, order), EndBroadcast(op));
            && op !in t.sendings && t.members == s.members && t.connections.Keys == s.connections.Keys
            && (forall c | c in s.members ::
                  t.connections[c].queue == Offered(s.connections[c].topics, s.connections[c].queue, m))
            && (forall c | c in s.connections && c !in s.members :: t.connections[c] == s.connections[c])
  {
    var started := Do(s, StartBroadcast(op, m));
    assert forall c :: c in order <==> c in s.members;
    VisitsOfferOnce(started, op, order);
  }
}
