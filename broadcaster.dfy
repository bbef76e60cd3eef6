/** The per-tournament broadcaster: a registry from tournament id ("room") to
    a broadcast channel. Each subscription is a receiver with its own FIFO of
    pending events; dropping a receiver is an explicit operation. */
module Broadcaster {
  import opened Common
  import opened WebsocketModel

  /** A receiver handle, as returned by `Subscribe`. */
  type ReceiverId = nat

  class TournamentBroadcaster {
    /** The live receivers of every room; a room exists once subscribed to
        and until a cleanup finds it without receivers. */
    var rooms: map<ObjectId, set<ReceiverId>>
    /** The events each live receiver has not taken yet, oldest first. */
    var pending: map<ReceiverId, seq<TournamentEvent>>
    /** The next receiver handle to hand out. */
    var nextReceiver: ReceiverId
    /** The room each live receiver listens to. */
    ghost var roomOf: map<ReceiverId, ObjectId>

    /** Every live receiver belongs to exactly one room and has a queue, and
        every handle given out so far is below `nextReceiver`. */
    ghost predicate Valid()
      reads this
    {
      && pending.Keys == roomOf.Keys
      && (forall rx :: rx in roomOf ==> rx < nextReceiver && roomOf[rx] in rooms && rx in rooms[roomOf[rx]])
      && (forall t, rx :: t in rooms && rx in rooms[t] ==> rx in roomOf && roomOf[rx] == t)
    }

    /** `receiver_count` of a room's sender, 0 for a room that does not exist. */
    function SubscriberCount(t: ObjectId): (n: nat)
      reads this
      ensures t !in rooms ==> n == 0
      ensures t in rooms ==> n == |rooms[t]|
    {
      if t in rooms then |rooms[t]| else 0
    }

    /** Number of rooms. */
    function RoomCount(): (n: nat)
      reads this
      ensures n == |rooms.Keys|
    {
      |rooms|
    }

    /** `new`: no rooms at all. */
    constructor ()
      ensures Valid() && rooms == map[] && pending == map[] && RoomCount() == 0
    {
      rooms := map[];
      pending := map[];
      nextReceiver := 0;
      roomOf := map[];
    }

    /** `subscribe`: creates the room if it is missing and adds one fresh
        receiver to it, which sees only events published from now on. */
    method Subscribe(t: ObjectId) returns (rx: ReceiverId)
      requires Valid()
      modifies this
      ensures Valid()
      ensures rx == old(nextReceiver) && rx !in old(pending)
      ensures rooms == old(rooms)[t := (if t in old(rooms) then old(rooms)[t] else {}) + {rx}]
      ensures pending == old(pending)[rx := []]
      ensures SubscriberCount(t) == old(SubscriberCount(t)) + 1
      ensures forall u :: u != t ==> SubscriberCount(u) == old(SubscriberCount(u))
    {
      rx := nextReceiver;
      forall u | u in rooms ensures rx !in rooms[u] {
        assert rx in rooms[u] ==> rx in roomOf && rx < nextReceiver;
      }
      var members := if t in rooms then rooms[t] else {};
      assert rx !in members;
      assert |members + {rx}| == |members| + 1;
      rooms := rooms[t := members + {rx}];
      pending := pending[rx := []];
      nextReceiver := nextReceiver + 1;
      roomOf := roomOf[rx := t];
    }

    /** `broadcast`: appends the event to the queue of every live receiver of
        the room; a missing room is left missing and nothing is queued. */
    method Broadcast(t: ObjectId, e: TournamentEvent)
      requires Valid()
      modifies this
      ensures Valid()
      ensures rooms == old(rooms) && nextReceiver == old(nextReceiver)
      ensures pending.Keys == old(pending).Keys
      ensures forall rx :: rx in pending ==>
        pending[rx] == if t in rooms && rx in rooms[t] then old(pending)[rx] + [e] else old(pending)[rx]
    {
      if t in rooms {
        var members := rooms[t];
        pending := map rx | rx in pending :: if rx in members then pending[rx] + [e] else pending[rx];
      }
    }

    /** Dropping a receiver: it leaves its room (the room itself stays) and its
        queue is discarded. */
    method Drop(rx: ReceiverId)
      requires Valid() && rx in pending
      modifies this
      ensures Valid()
      ensures rooms.Keys == old(rooms).Keys && nextReceiver == old(nextReceiver)
      ensures forall t :: t in rooms ==> rooms[t] == old(rooms)[t] - {rx}
      ensures pending == old(pending) - {rx}
    {
      rooms := map t | t in rooms :: rooms[t] - {rx};
      pending := pending - {rx};
      roomOf := roomOf - {rx};
    }

    /** `try_recv`: the oldest event the receiver has not taken, if any. */
    method TryRecv(rx: ReceiverId) returns (e: Option<TournamentEvent>)
      requires Valid() && rx in pending
      modifies this
      ensures Valid()
      ensures rooms == old(rooms) && nextReceiver == old(nextReceiver)
      ensures old(pending)[rx] == [] ==> e == None && pending == old(pending)
      ensures old(pending)[rx] != [] ==>
        e == Some(old(pending)[rx][0]) && pending == old(pending)[rx := old(pending)[rx][1..]]
    {
      var queue := pending[rx];
      if queue == [] {
        e := None;
      } else {
        e := Some(queue[0]);
        pending := pending[rx := queue[1..]];
      }
    }

    /** `cleanup`: keeps exactly the rooms that still have a live receiver. */
    method Cleanup()
      requires Valid()
      modifies this
      ensures Valid()
      ensures pending == old(pending) && nextReceiver == old(nextReceiver)
      ensures forall t :: t in rooms <==> t in old(rooms) && |old(rooms)[t]| > 0
      ensures forall t :: t in rooms ==> rooms[t] == old(rooms)[t]
    {
      rooms := map t | t in rooms && |rooms[t]| > 0 :: rooms[t];
    }
  }
}
