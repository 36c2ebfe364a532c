/** The per-room registry of subscriber queues of necsus/broker.py. A queue is named by a
    number; what matters about it is the sequence of events sent into it so far. */
module Broker {
  import opened Values

  type QueueId = nat

  /** `{'kind': kind, 'data': data}`. */
  datatype Event = Event(kind: string, data: Value)

  const ClearEvent: Event := Event("clear_messages", Dict(map[]))

  /** The queues a room's notifications go to: `queues_by_room.get(room, set())`. */
  function Subscribers(byRoom: map<string, set<QueueId>>, room: string): set<QueueId> {
    if room in byRoom then byRoom[room] else {}
  }

  /** Every queue of `targets` with `e` appended; the other queues as they were. */
  function Fanout(queues: map<QueueId, seq<Event>>, targets: set<QueueId>, e: Event): map<QueueId, seq<Event>> {
    map q | q in queues :: if q in targets then queues[q] + [e] else queues[q]
  }

  /** The queues after notifying `targets` of each event of `es` in turn. */
  function Deliver(queues: map<QueueId, seq<Event>>, targets: set<QueueId>, es: seq<Event>): map<QueueId, seq<Event>>
    decreases |es|
  {
    if es == [] then queues else Fanout(Deliver(queues, targets, es[..|es| - 1]), targets, es[|es| - 1])
  }

  /** Notifications reach exactly the targeted queues, each in the order they were sent, and
      leave every other queue as it was. */
  lemma {:induction false} DeliverContents(queues: map<QueueId, seq<Event>>, targets: set<QueueId>, es: seq<Event>)
    ensures Deliver(queues, targets, es).Keys == queues.Keys
    ensures forall q :: q in queues ==> Deliver(queues, targets, es)[q] == queues[q] + (if q in targets then es else [])
    decreases |es|
  {
    if es != [] {
      var init := es[..|es| - 1];
      DeliverContents(queues, targets, init);
      forall q | q in queues ensures Deliver(queues, targets, es)[q] == queues[q] + (if q in targets then es else []) {
        if q in targets {
          assert init + [es[|es| - 1]] == es;
        }
      }
    }
  }

  /** The queues after each `(room, event)` of `pubs` was published in turn. */
  function Broadcast(queues: map<QueueId, seq<Event>>, byRoom: map<string, set<QueueId>>,
                     pubs: seq<(string, Event)>): map<QueueId, seq<Event>>
    decreases |pubs|
  {
    if pubs == [] then queues
    else
      var last := pubs[|pubs| - 1];
      Fanout(Broadcast(queues, byRoom, pubs[..|pubs| - 1]), Subscribers(byRoom, last.0), last.1)
  }

  /** The events of `pubs` that queue `q` is subscribed to, in publish order. */
  function EventsFor(byRoom: map<string, set<QueueId>>, q: QueueId, pubs: seq<(string, Event)>): seq<Event>
    decreases |pubs|
  {
    if pubs == [] then []
    else
      var last := pubs[|pubs| - 1];
      EventsFor(byRoom, q, pubs[..|pubs| - 1]) + if q in Subscribers(byRoom, last.0) then [last.1] else []
  }

  /** The events published to `room`, in publish order. */
  function RoomEvents(pubs: seq<(string, Event)>, room: string): seq<Event>
    decreases |pubs|
  {
    if pubs == [] then []
    else
      var last := pubs[|pubs| - 1];
      RoomEvents(pubs[..|pubs| - 1], room) + if last.0 == room then [last.1] else []
  }

  /** Publishing creates and drops no queue, and appends to each queue exactly the events it
      is subscribed to, in publish order. */
  lemma {:induction false} BroadcastContents(queues: map<QueueId, seq<Event>>, byRoom: map<string, set<QueueId>>,
                                             pubs: seq<(string, Event)>)
    ensures Broadcast(queues, byRoom, pubs).Keys == queues.Keys
    ensures forall q :: q in queues ==> Broadcast(queues, byRoom, pubs)[q] == queues[q] + EventsFor(byRoom, q, pubs)
    decreases |pubs|
  {
    if pubs != [] {
      var init := pubs[..|pubs| - 1];
      BroadcastContents(queues, byRoom, init);
      forall q | q in queues
        ensures Broadcast(queues, byRoom, pubs)[q] == queues[q] + EventsFor(byRoom, q, pubs)
      {
        var last := pubs[|pubs| - 1];
        assert queues[q] + EventsFor(byRoom, q, pubs)
          == (queues[q] + EventsFor(byRoom, q, init)) + if q in Subscribers(byRoom, last.0) then [last.1] else [];
      }
    }
  }

  /** A queue registered under one room alone receives exactly what is published to that
      room, and in publish order. */
  lemma {:induction false} EventsForRoom(byRoom: map<string, set<QueueId>>, q: QueueId, room: string,
                                         pubs: seq<(string, Event)>)
    requires q in Subscribers(byRoom, room)
    requires forall r :: r in byRoom && r != room ==> q !in byRoom[r]
    ensures EventsFor(byRoom, q, pubs) == RoomEvents(pubs, room)
    decreases |pubs|
  {
    if pubs != [] {
      EventsForRoom(byRoom, q, room, pubs[..|pubs| - 1]);
    }
  }

  /** One event per item of `xs`, in order. */
  function Wrap(kind: string, xs: seq<Row>): (r: seq<Event>)
    ensures |r| == |xs|
    ensures forall i :: 0 <= i < |xs| ==> r[i] == Event(kind, Dict(xs[i]))
  {
    seq(|xs|, i requires 0 <= i < |xs| => Event(kind, Dict(xs[i])))
  }

  /** What `subscribe` puts in a new queue before anything is published. */
  function Seed(shouldClear: bool, bots: seq<Row>, messages: seq<Row>): seq<Event> {
    (if shouldClear then [ClearEvent] else []) + Wrap("put_bot", bots) + Wrap("message", messages)
  }

  /** How many clear events open a seed. */
  function ClearCount(shouldClear: bool): nat {
    if shouldClear then 1 else 0
  }

  function KindRank(kind: string): nat {
    if kind == "clear_messages" then 0 else if kind == "put_bot" then 1 else 2
  }

  /** The `i`-th event of a seed. */
  lemma SeedAt(shouldClear: bool, bots: seq<Row>, messages: seq<Row>, i: nat)
    requires i < |Seed(shouldClear, bots, messages)|
    ensures var s := Seed(shouldClear, bots, messages);
      var c := ClearCount(shouldClear);
      s[i] == if i < c then ClearEvent
              else if i < c + |bots| then Event("put_bot", Dict(bots[i - c]))
              else Event("message", Dict(messages[i - c - |bots|]))
  {
  }

  lemma KindRanks()
    ensures KindRank(ClearEvent.kind) == 0 && KindRank("put_bot") == 1 && KindRank("message") == 2
  {
    assert "put_bot" != "clear_messages" by { assert "put_bot"[0] != "clear_messages"[0]; }
    assert "message" != "clear_messages" by { assert "message"[0] != "clear_messages"[0]; }
    assert "message" != "put_bot" by { assert "message"[0] != "put_bot"[0]; }
  }

  /** The rank of each event's kind in a seed: clear, then bots, then messages. */
  lemma SeedRanks(shouldClear: bool, bots: seq<Row>, messages: seq<Row>)
    ensures var s := Seed(shouldClear, bots, messages);
      var c := ClearCount(shouldClear);
      forall i :: 0 <= i < |s| ==> KindRank(s[i].kind) == if i < c then 0 else if i < c + |bots| then 1 else 2
  {
    var s := Seed(shouldClear, bots, messages);
    var c := ClearCount(shouldClear);
    KindRanks();
    forall i | 0 <= i < |s| ensures KindRank(s[i].kind) == if i < c then 0 else if i < c + |bots| then 1 else 2 {
      SeedAt(shouldClear, bots, messages, i);
    }
  }

  /** The seed opens with a clear event exactly when one was asked for, holds one `put_bot`
      per bot and one `message` per message, in their order. */
  lemma SeedContents(shouldClear: bool, bots: seq<Row>, messages: seq<Row>)
    ensures var s := Seed(shouldClear, bots, messages);
      var c := ClearCount(shouldClear);
      |s| == c + |bots| + |messages|
      && (shouldClear <==> |s| > 0 && s[0] == ClearEvent)
      && (forall i :: 0 <= i < |bots| ==> s[c + i] == Event("put_bot", Dict(bots[i])))
      && (forall i :: 0 <= i < |messages| ==> s[c + |bots| + i] == Event("message", Dict(messages[i])))
  {
    var s := Seed(shouldClear, bots, messages);
    var c := ClearCount(shouldClear);
    assert |s| == c + |bots| + |messages|;
    forall i | 0 <= i < |bots| ensures s[c + i] == Event("put_bot", Dict(bots[i])) {
      SeedAt(shouldClear, bots, messages, c + i);
    }
    forall i | 0 <= i < |messages| ensures s[c + |bots| + i] == Event("message", Dict(messages[i])) {
      SeedAt(shouldClear, bots, messages, c + |bots| + i);
    }
    if !shouldClear && |s| > 0 {
      SeedAt(shouldClear, bots, messages, 0);
      KindRanks();
      assert s[0].kind != ClearEvent.kind;
    }
  }

  /** The seed opens with a clear event exactly when one was asked for, holds one `put_bot`
      per bot and one `message` per message, in their order, and never puts a later kind
      before an earlier one. */
  lemma SeedOrder(shouldClear: bool, bots: seq<Row>, messages: seq<Row>)
    ensures var s := Seed(shouldClear, bots, messages);
      var c := ClearCount(shouldClear);
      |s| == c + |bots| + |messages|
      && (shouldClear <==> |s| > 0 && s[0] == ClearEvent)
      && (forall i :: 0 <= i < |bots| ==> s[c + i] == Event("put_bot", Dict(bots[i])))
      && (forall i :: 0 <= i < |messages| ==> s[c + |bots| + i] == Event("message", Dict(messages[i])))
      && (forall i, j :: 0 <= i < j < |s| ==> KindRank(s[i].kind) <= KindRank(s[j].kind))
  {
    SeedContents(shouldClear, bots, messages);
    SeedRanks(shouldClear, bots, messages);
  }

  ghost predicate Consistent(byRoom: map<string, set<QueueId>>, ids: set<QueueId>, closed: set<QueueId>, next: nat) {
    (forall q :: q in ids ==> q < next)
    && closed <= ids
    && (forall room, q :: room in byRoom && q in byRoom[room] ==> q in ids && q !in closed)
    && (forall r1, r2, q :: r1 in byRoom && r2 in byRoom && q in byRoom[r1] && q in byRoom[r2] ==> r1 == r2)
  }

  class Broker {
    var queuesByRoom: map<string, set<QueueId>>
    /** The events sent into each queue so far. */
    var queues: map<QueueId, seq<Event>>
    var closed: set<QueueId>
    var nextQueue: nat

    /** Every registered queue exists and is open, queue ids are below the next one to hand
        out, and no queue is registered under two rooms. */
    ghost predicate Valid()
      reads this
    {
      Consistent(queuesByRoom, queues.Keys, closed, nextQueue)
    }

    constructor ()
      ensures Valid() && queuesByRoom == map[] && queues == map[] && closed == {}
    {
      queuesByRoom := map[];
      queues := map[];
      closed := {};
      nextQueue := 0;
    }

    /** `_notify_room`: one event to every queue of the room; creates no room entry. */
    method NotifyRoom(room: string, e: Event)
      requires Valid()
      modifies this
      ensures Valid()
      ensures queues == Fanout(old(queues), Subscribers(old(queuesByRoom), room), e)
      ensures queuesByRoom == old(queuesByRoom) && closed == old(closed) && nextQueue == old(nextQueue)
    {
      var targets := Subscribers(queuesByRoom, room);
      var pending := targets;
      ghost var start := queues;
      while pending != {}
        invariant pending <= targets
        invariant queues == Fanout(start, targets - pending, e)
        invariant queuesByRoom == old(queuesByRoom) && closed == old(closed) && nextQueue == old(nextQueue)
        decreases pending
      {
        var q :| q in pending;
        assert q in start;
        queues := queues[q := queues[q] + [e]];
        pending := pending - {q};
        assert queues == Fanout(start, targets - pending, e);
      }
      assert targets - pending == targets;
    }

    method PublishMessage(room: string, message: Value)
      requires Valid()
      modifies this
      ensures Valid()
      ensures queues == Fanout(old(queues), Subscribers(old(queuesByRoom), room), Event("message", message))
      ensures queuesByRoom == old(queuesByRoom) && closed == old(closed) && nextQueue == old(nextQueue)
    {
      NotifyRoom(room, Event("message", message));
    }

    method ClearRoom(room: string)
      requires Valid()
      modifies this
      ensures Valid()
      ensures queues == Fanout(old(queues), Subscribers(old(queuesByRoom), room), ClearEvent)
      ensures queuesByRoom == old(queuesByRoom) && closed == old(closed) && nextQueue == old(nextQueue)
    {
      NotifyRoom(room, ClearEvent);
    }

    method PutBot(room: string, bot: Value)
      requires Valid()
      modifies this
      ensures Valid()
      ensures queues == Fanout(old(queues), Subscribers(old(queuesByRoom), room), Event("put_bot", bot))
      ensures queuesByRoom == old(queuesByRoom) && closed == old(closed) && nextQueue == old(nextQueue)
    {
      NotifyRoom(room, Event("put_bot", bot));
    }

    method DeleteBot(room: string, bot: Value)
      requires Valid()
      modifies this
      ensures Valid()
      ensures queues == Fanout(old(queues), Subscribers(old(queuesByRoom), room), Event("delete_bot", bot))
      ensures queuesByRoom == old(queuesByRoom) && closed == old(closed) && nextQueue == old(nextQueue)
    {
      NotifyRoom(room, Event("delete_bot", bot));
    }

    /** `send.send_nowait(e)` on a queue this broker holds. */
    method Send(q: QueueId, e: Event)
      requires q in queues
      modifies this
      ensures queues == old(queues)[q := old(queues)[q] + [e]]
      ensures queuesByRoom == old(queuesByRoom) && closed == old(closed) && nextQueue == old(nextQueue)
    {
      queues := queues[q := queues[q] + [e]];
    }

    /** One `send_nowait` per item of `xs`, in order, each wrapped with `kind`. */
    method SendAll(q: QueueId, kind: string, xs: seq<Row>)
      requires q in queues
      modifies this
      ensures queues == old(queues)[q := old(queues)[q] + Wrap(kind, xs)]
      ensures queuesByRoom == old(queuesByRoom) && closed == old(closed) && nextQueue == old(nextQueue)
    {
      assert old(queues)[q] + Wrap(kind, xs[..0]) == old(queues)[q];
      var i := 0;
      while i < |xs|
        invariant 0 <= i <= |xs|
        invariant queues == old(queues)[q := old(queues)[q] + Wrap(kind, xs[..i])]
        invariant queuesByRoom == old(queuesByRoom) && closed == old(closed) && nextQueue == old(nextQueue)
      {
        assert Wrap(kind, xs[..i + 1]) == Wrap(kind, xs[..i]) + [Event(kind, Dict(xs[i]))];
        assert old(queues)[q] + Wrap(kind, xs[..i + 1]) == old(queues)[q] + Wrap(kind, xs[..i]) + [Event(kind, Dict(xs[i]))];
        Send(q, Event(kind, Dict(xs[i])));
        i := i + 1;
      }
      assert xs[..i] == xs;
    }

    /** A fresh, empty queue registered under `room`. */
    method Register(room: string) returns (q: QueueId)
      requires Valid()
      modifies this
      ensures Valid()
      ensures q !in old(queues) && queues == old(queues)[q := []]
      ensures queuesByRoom == old(queuesByRoom)[room := Subscribers(old(queuesByRoom), room) + {q}]
      ensures closed == old(closed)
    {
      q := nextQueue;
      nextQueue := nextQueue + 1;
      queues := queues[q := []];
      queuesByRoom := queuesByRoom[room := Subscribers(queuesByRoom, room) + {q}];
      assert q !in old(queues);
      forall r1, r2, p | r1 in queuesByRoom && r2 in queuesByRoom && p in queuesByRoom[r1] && p in queuesByRoom[r2]
        ensures r1 == r2
      {
        if p == q {
          assert r1 == room && r2 == room;
        }
      }
    }

    /** `subscribe`: register a fresh queue under the room, seed it, and hand back the tag. */
    method Subscribe(room: string, initMessages: seq<Row>, initBots: seq<Row>, shouldClear: bool)
      returns (tag: (string, QueueId))
      requires Valid()
      modifies this
      ensures Valid()
      ensures tag.0 == room && tag.1 !in old(queues)
      ensures queues == old(queues)[tag.1 := Seed(shouldClear, initBots, initMessages)]
      ensures queuesByRoom == old(queuesByRoom)[room := Subscribers(old(queuesByRoom), room) + {tag.1}]
      ensures closed == old(closed)
    {
      var q := Register(room);
      ghost var registered := queues;
      if shouldClear {
        Send(q, ClearEvent);
        assert [] + [ClearEvent] == [ClearEvent];
      }
      ghost var head := if shouldClear then [ClearEvent] else [];
      assert queues == registered[q := head];
      SendAll(q, "put_bot", initBots);
      assert queues == registered[q := head + Wrap("put_bot", initBots)];
      SendAll(q, "message", initMessages);
      assert queues == registered[q := Seed(shouldClear, initBots, initMessages)];
      assert queues.Keys == registered.Keys;
      tag := (room, q);
    }

    /** `unsubscribe(tag)`: close the queue and take it out of its room's set. The room's
        entry is created if it was missing (a defaultdict); `removed` is false where
        `set.remove` raises KeyError because the queue was not registered there. */
    method Unsubscribe(tag: (string, QueueId)) returns (removed: bool)
      requires Valid() && tag.1 in queues
      requires forall r :: r in queuesByRoom && r != tag.0 ==> tag.1 !in queuesByRoom[r]
      modifies this
      ensures Valid()
      ensures removed <==> tag.1 in Subscribers(old(queuesByRoom), tag.0)
      ensures closed == old(closed) + {tag.1}
      ensures queuesByRoom == old(queuesByRoom)[tag.0 := Subscribers(old(queuesByRoom), tag.0) - {tag.1}]
      ensures queues == old(queues) && nextQueue == old(nextQueue)
    {
      var (room, q) := tag;
      closed := closed + {q};
      var members := Subscribers(queuesByRoom, room);
      removed := q in members;
      queuesByRoom := queuesByRoom[room := members - {q}];
    }
  }

  /** A second unsubscribe with the same tag finds the queue gone and raises. */
  lemma UnsubscribeTwice(byRoom: map<string, set<QueueId>>, room: string, q: QueueId)
    ensures q !in Subscribers(byRoom[room := Subscribers(byRoom, room) - {q}], room)
  {
  }

  /** After subscribing, every later notification of the room lands behind the seed, in
      publish order; queues of other rooms see none of it. */
  lemma PublishesFollowSeed(queues: map<QueueId, seq<Event>>, byRoom: map<string, set<QueueId>>, room: string,
                            q: QueueId, seed: seq<Event>, es: seq<Event>)
    requires q in Subscribers(byRoom, room)
    ensures var after := Deliver(queues[q := seed], Subscribers(byRoom, room), es);
      q in after && after[q] == seed + es
  {
    DeliverContents(queues[q := seed], Subscribers(byRoom, room), es);
  }
}
