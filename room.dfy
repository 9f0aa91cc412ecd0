/**
 * The room hub of room.go: the `room` struct, `newRoom`, the three arms of
 * the `select` in `run` (join, leave, forward) as one method each, the
 * creation of a client with its buffered `send` channel in `ServeHTTP`, and
 * the receiving end of that channel.
 *
 * The hub is modelled sequentially: each method is one event taken by the
 * `run` loop, chosen by the caller. A client is identified by a `ClientId`,
 * standing for the `*client` pointer the hub keys its map by. Messages are
 * opaque values of type `M`.
 *
 * Besides the real state, the room keeps a ghost `trace` of the events it
 * has processed, in processing order. The functions `Members`, `Broadcast`
 * and `Delivered` say what the membership set and every channel must be
 * after a trace, `Room.Valid` ties the real state to them, and the lemmas
 * at the end state the hub's guarantees over all traces.
 */
module ChatRoom {
  import opened Wrappers

  /** Capacity of every client's `send` channel (`messageBufferSize`). */
  const MessageBufferSize: nat := 256

  /** Identity of a client: stands for the `*client` pointer. */
  type ClientId = nat

  /** One event taken by the hub's `run` loop. */
  datatype Event<M> =
    | JoinEvent(client: ClientId)
    | LeaveEvent(client: ClientId)
      /** A message from the `forward` channel; `persisted` is whether `coll.Insert` succeeded. */
    | ForwardEvent(msg: M, persisted: bool)

  /** Whether `e` is a join or a leave of client `c`. */
  predicate Mentions<M>(e: Event<M>, c: ClientId)
  {
    (e.JoinEvent? || e.LeaveEvent?) && e.client == c
  }

  /** The hub's client set after processing `trace`, starting from a new room. */
  function Members<M>(trace: seq<Event<M>>): set<ClientId>
  {
    if trace == [] then {}
    else
      var before := Members(trace[..|trace| - 1]);
      match trace[|trace| - 1]
      case JoinEvent(c) => before + {c}
      case LeaveEvent(c) => before - {c}
      case ForwardEvent(_, _) => before
  }

  /** The messages fanned out while processing `trace`: those whose persistence succeeded. */
  function Broadcast<M>(trace: seq<Event<M>>): seq<M>
  {
    if trace == [] then []
    else
      var before := Broadcast(trace[..|trace| - 1]);
      match trace[|trace| - 1]
      case ForwardEvent(m, true) => before + [m]
      case _ => before
  }

  /** Everything ever sent on client `c`'s channel while processing `trace`, in order. */
  function Delivered<M>(trace: seq<Event<M>>, c: ClientId): seq<M>
  {
    if trace == [] then []
    else
      var init := trace[..|trace| - 1];
      var before := Delivered(init, c);
      match trace[|trace| - 1]
      case ForwardEvent(m, true) => if c in Members(init) then before + [m] else before
      case _ => before
  }

  /** A client's buffered `send` channel: the messages not yet received, and whether it was closed. */
  datatype Channel<M> = Channel(buffer: seq<M>, closed: bool)

  class Room<M> {
    const name: string
    /** `r.clients`: the current members. */
    var clients: set<ClientId>
    /** The `send` channel of every client created so far. */
    var send: map<ClientId, Channel<M>>
    /** The identity the next created client gets. */
    var nextId: ClientId
    /** The events processed so far, in processing order. */
    ghost var trace: seq<Event<M>>
    /** How many messages each client's channel has handed to its reader. */
    ghost var received: map<ClientId, nat>

    /**
     * The room invariant: the members are those the trace gives; every
     * member's channel is open; every channel holds the not yet received
     * part of what was delivered to it, within the channel's capacity.
     */
    ghost predicate Valid()
      reads this
    {
      && clients == Members(trace)
      && clients <= send.Keys
      && send.Keys == received.Keys
      && (forall c :: c in send ==> c < nextId)
      && (forall c :: c !in send ==> Delivered(trace, c) == [])
      && (forall c :: c in clients ==> !send[c].closed)
      && (forall c :: c in send ==>
            && received[c] <= |Delivered(trace, c)|
            && send[c].buffer == Delivered(trace, c)[received[c]..]
            && |send[c].buffer| <= MessageBufferSize)
    }

    /** `newRoom`: a room with the given name and no clients. */
    constructor (name: string)
      ensures Valid()
      ensures this.name == name && clients == {} && send == map[] && trace == []
    {
      this.name := name;
      clients := {};
      send := map[];
      nextId := 0;
      trace := [];
      received := map[];
    }

    /** The client struct of `ServeHTTP`: a fresh client with an empty, open channel, not yet a member. */
    method NewClient() returns (c: ClientId)
      requires Valid()
      modifies this
      ensures Valid()
      ensures c !in old(send) && send == old(send)[c := Channel([], false)]
      ensures clients == old(clients) && trace == old(trace)
    {
      c := nextId;
      nextId := nextId + 1;
      send := send[c := Channel([], false)];
      received := received[c := 0];
    }

    /** The join arm: adds `c` to the client set; no channel changes. */
    method Join(c: ClientId)
      requires Valid()
      requires c in send && !send[c].closed
      modifies this
      ensures Valid()
      ensures clients == old(clients) + {c}
      ensures send == old(send)
      ensures trace == old(trace) + [JoinEvent(c)]
    {
      TraceStep(trace, JoinEvent(c));
      DeliveriesKept(trace, JoinEvent(c));
      clients := clients + {c};
      trace := trace + [JoinEvent(c)];
    }

    /**
     * The leave arm: removes `c` from the client set (nothing to remove if it
     * is absent) and closes its channel; closing it a second time would panic.
     */
    method Leave(c: ClientId)
      requires Valid()
      requires c in send && !send[c].closed
      modifies this
      ensures Valid()
      ensures clients == old(clients) - {c}
      ensures send == old(send)[c := old(send)[c].(closed := true)]
      ensures trace == old(trace) + [LeaveEvent(c)]
    {
      TraceStep(trace, LeaveEvent(c));
      DeliveriesKept(trace, LeaveEvent(c));
      clients := clients - {c};
      send := send[c := send[c].(closed := true)];
      trace := trace + [LeaveEvent(c)];
    }

    /**
     * The forward arm. When persistence failed nobody receives `msg`.
     * Otherwise `msg` is appended once to the end of every member's channel;
     * a send on a full channel would block, so every member's channel must
     * have room.
     */
    method Forward(msg: M, persisted: bool)
      requires Valid()
      requires persisted ==> forall c :: c in clients ==> |send[c].buffer| < MessageBufferSize
      modifies this
      ensures Valid()
      ensures clients == old(clients)
      ensures trace == old(trace) + [ForwardEvent(msg, persisted)]
      ensures !persisted ==> send == old(send)
      ensures persisted ==> send.Keys == old(send).Keys
      ensures persisted ==> forall c :: c in send ==>
                send[c] == if c in clients then old(send)[c].(buffer := old(send)[c].buffer + [msg])
                           else old(send)[c]
    {
      ghost var before := trace;
      trace := trace + [ForwardEvent(msg, persisted)];
      if !persisted {
        FailedPersistenceDeliversNothing(before, msg);
        return;
      }
      TraceStep(before, ForwardEvent(msg, persisted));
      var out := FanOut(send, clients, msg);
      FanOutKeepsChannels(before, msg, send, out, received);
      send := out;
    }

    /**
     * Receiving from `c`'s channel: the oldest buffered message, or `None`
     * once the channel is closed and drained. A receive on an empty open
     * channel blocks, so that case is excluded.
     */
    method Receive(c: ClientId) returns (m: Option<M>)
      requires Valid()
      requires c in send && (send[c].buffer != [] || send[c].closed)
      modifies this
      ensures Valid()
      ensures clients == old(clients) && trace == old(trace)
      ensures old(send)[c].buffer == [] ==> m == None && send == old(send)
      ensures old(send)[c].buffer != [] ==>
                && m == Some(old(send)[c].buffer[0])
                && send == old(send)[c := old(send)[c].(buffer := old(send)[c].buffer[1..])]
    {
      var ch := send[c];
      if ch.buffer == [] {
        m := None;
      } else {
        m := Some(ch.buffer[0]);
        send := send[c := ch.(buffer := ch.buffer[1..])];
        received := received[c := received[c] + 1];
      }
    }

    /** `ServeHTTP` up to the join: a fresh client with an empty open channel becomes a member. */
    method Connect() returns (c: ClientId)
      requires Valid()
      modifies this
      ensures Valid()
      ensures c !in old(send) && send == old(send)[c := Channel([], false)]
      ensures clients == old(clients) + {c}
      ensures trace == old(trace) + [JoinEvent(c)]
    {
      c := NewClient();
      Join(c);
    }
  }

  /**
   * The fan-out loop of the forward arm: `msg` is sent once on the channel of
   * every client in `members`; the other channels are left as they were. A
   * send on a closed channel panics, so every member's channel must be open.
   */
  method FanOut<M>(send: map<ClientId, Channel<M>>, members: set<ClientId>, msg: M)
    returns (out: map<ClientId, Channel<M>>)
    requires members <= send.Keys
    requires forall c :: c in members ==> !send[c].closed
    ensures out.Keys == send.Keys
    ensures forall c :: c in out ==>
              out[c] == if c in members then send[c].(buffer := send[c].buffer + [msg]) else send[c]
  {
    out := send;
    var pending := members;
    while pending != {}
      invariant pending <= members
      invariant out.Keys == send.Keys
      invariant forall c :: c in out ==>
                  out[c] == if c in members - pending then send[c].(buffer := send[c].buffer + [msg])
                            else send[c]
      decreases pending
    {
      var c :| c in pending;
      assert !out[c].closed;
      out := out[c := out[c].(buffer := out[c].buffer + [msg])];
      pending := pending - {c};
    }
  }

  /** Joins, leaves and failed forwards deliver nothing to anybody. */
  lemma DeliveriesKept<M>(t: seq<Event<M>>, e: Event<M>)
    requires !(e.ForwardEvent? && e.persisted)
    ensures forall c :: Delivered(t + [e], c) == Delivered(t, c)
  {
    forall c ensures Delivered(t + [e], c) == Delivered(t, c) {
      DeliveredStep(t, e, c);
    }
  }

  /**
   * A persisted forward whose fan-out produced `out` from `send` keeps every
   * channel holding the unreceived part of its deliveries, within capacity.
   */
  lemma FanOutKeepsChannels<M>(t: seq<Event<M>>, msg: M, send: map<ClientId, Channel<M>>,
                               out: map<ClientId, Channel<M>>, received: map<ClientId, nat>)
    requires send.Keys == received.Keys && Members(t) <= send.Keys
    requires forall c :: c !in send ==> Delivered(t, c) == []
    requires forall c :: c in send ==>
               && received[c] <= |Delivered(t, c)|
               && send[c].buffer == Delivered(t, c)[received[c]..]
               && |send[c].buffer| <= MessageBufferSize
    requires forall c :: c in Members(t) ==> |send[c].buffer| < MessageBufferSize
    requires out.Keys == send.Keys
    requires forall c :: c in out ==>
               out[c] == if c in Members(t) then send[c].(buffer := send[c].buffer + [msg]) else send[c]
    ensures forall c :: c !in out ==> Delivered(t + [ForwardEvent(msg, true)], c) == []
    ensures forall c :: c in out ==>
              && received[c] <= |Delivered(t + [ForwardEvent(msg, true)], c)|
              && out[c].buffer == Delivered(t + [ForwardEvent(msg, true)], c)[received[c]..]
              && |out[c].buffer| <= MessageBufferSize
  {
    forall c | c !in out ensures Delivered(t + [ForwardEvent(msg, true)], c) == [] {
      DeliveredStep(t, ForwardEvent(msg, true), c);
    }
    forall c | c in out
      ensures received[c] <= |Delivered(t + [ForwardEvent(msg, true)], c)|
      ensures out[c].buffer == Delivered(t + [ForwardEvent(msg, true)], c)[received[c]..]
    {
      DeliveredStep(t, ForwardEvent(msg, true), c);
    }
  }

  /** One step of `Members` and `Broadcast`; `DeliveredStep` is the step of `Delivered`. */
  lemma TraceStep<M>(t: seq<Event<M>>, e: Event<M>)
    ensures e.JoinEvent? ==> Members(t + [e]) == Members(t) + {e.client}
    ensures e.LeaveEvent? ==> Members(t + [e]) == Members(t) - {e.client}
    ensures e.ForwardEvent? ==> Members(t + [e]) == Members(t)
    ensures Broadcast(t + [e]) == if e.ForwardEvent? && e.persisted then Broadcast(t) + [e.msg] else Broadcast(t)
  {
    assert (t + [e])[..|t|] == t;
  }

  /**
   * Membership closure: `c` is a member after `trace` exactly when some join
   * of `c` in it is followed by no leave of `c`.
   */
  lemma {:induction false} MembershipClosure<M>(trace: seq<Event<M>>, c: ClientId)
    ensures c in Members(trace) <==>
      exists i :: 0 <= i < |trace| && trace[i] == JoinEvent(c) &&
        forall j :: i < j < |trace| ==> trace[j] != LeaveEvent(c)
  {
    if trace != [] {
      var init := trace[..|trace| - 1];
      var e := trace[|trace| - 1];
      TraceStep(init, e);
      assert trace == init + [e];
      MembershipClosure(init, c);
      if c in Members(trace) {
        if e != JoinEvent(c) {
          var i :| 0 <= i < |init| && init[i] == JoinEvent(c) &&
            forall j :: i < j < |init| ==> init[j] != LeaveEvent(c);
          assert trace[i] == JoinEvent(c);
        }
      }
    }
  }

  /** Joins and leaves of clients other than `c`, and forwards, leave `c`'s membership alone. */
  lemma {:induction false} MembershipUnaffected<M>(t: seq<Event<M>>, u: seq<Event<M>>, c: ClientId)
    requires forall i :: 0 <= i < |u| ==> !Mentions(u[i], c)
    ensures c in Members(t + u) <==> c in Members(t)
  {
    if u != [] {
      var init := u[..|u| - 1];
      assert t + u == (t + init) + [u[|u| - 1]];
      TraceStep(t + init, u[|u| - 1]);
      MembershipUnaffected(t, init, c);
    } else {
      assert t + u == t;
    }
  }

  /**
   * Delivery completeness and order: a client that is a member when each
   * event of `u` is processed receives exactly the messages fanned out
   * during `u`, once each, in hub processing order, after what it had.
   */
  lemma {:induction false} DeliveryCompleteness<M>(t: seq<Event<M>>, u: seq<Event<M>>, c: ClientId)
    requires forall i :: 0 <= i < |u| ==> c in Members(t + u[..i])
    ensures Delivered(t + u, c) == Delivered(t, c) + Broadcast(u)
  {
    if u == [] {
      assert t + u == t;
    } else {
      var init := u[..|u| - 1];
      var e := u[|u| - 1];
      assert t + u == (t + init) + [e];
      assert c in Members(t + init) by {
        assert u[..|init|] == init;
      }
      DeliveredStep(t + init, e, c);
      forall i | 0 <= i < |init| ensures c in Members(t + init[..i]) {
        assert init[..i] == u[..i];
      }
      DeliveryCompleteness(t, init, c);
    }
  }

  /** One step of `Delivered` for one client. */
  lemma DeliveredStep<M>(t: seq<Event<M>>, e: Event<M>, c: ClientId)
    ensures Delivered(t + [e], c) ==
      if e.ForwardEvent? && e.persisted && c in Members(t) then Delivered(t, c) + [e.msg]
      else Delivered(t, c)
  {
    assert (t + [e])[..|t|] == t;
  }

  /** A client that is not a member when any event of `u` is processed receives nothing during `u`. */
  lemma {:induction false} NonMembersReceiveNothing<M>(t: seq<Event<M>>, u: seq<Event<M>>, c: ClientId)
    requires forall i :: 0 <= i < |u| ==> c !in Members(t + u[..i])
    ensures Delivered(t + u, c) == Delivered(t, c)
  {
    if u == [] {
      assert t + u == t;
    } else {
      var init := u[..|u| - 1];
      var e := u[|u| - 1];
      assert t + u == (t + init) + [e];
      assert c !in Members(t + init) by {
        assert u[..|init|] == init;
      }
      DeliveredStep(t + init, e, c);
      forall i | 0 <= i < |init| ensures c !in Members(t + init[..i]) {
        assert init[..i] == u[..i];
      }
      NonMembersReceiveNothing(t, init, c);
    }
  }

  /**
   * One connection of `ServeHTTP`: the join of `c`, then events that do not
   * join or leave `c` (other connections, forwards), then the deferred leave
   * of `c`. Throughout, `c` is a member; it receives exactly the messages
   * fanned out in between; afterwards it is no longer a member.
   */
  lemma {:induction false} ConnectionLifetime<M>(t: seq<Event<M>>, c: ClientId, u: seq<Event<M>>)
    requires forall i :: 0 <= i < |u| ==> !Mentions(u[i], c)
    ensures forall i :: 0 <= i <= |u| ==> c in Members(t + [JoinEvent(c)] + u[..i])
    ensures Delivered(t + [JoinEvent(c)] + u + [LeaveEvent(c)], c) == Delivered(t, c) + Broadcast(u)
    ensures c !in Members(t + [JoinEvent(c)] + u + [LeaveEvent(c)])
  {
    var joined := t + [JoinEvent(c)];
    TraceStep(t, JoinEvent(c));
    forall i | 0 <= i <= |u| ensures c in Members(joined + u[..i]) {
      forall k | 0 <= k < |u[..i]| ensures !Mentions(u[..i][k], c) {
        assert u[..i][k] == u[k];
      }
      MembershipUnaffected(joined, u[..i], c);
    }
    DeliveryCompleteness(joined, u, c);
    TraceStep(joined + u, LeaveEvent(c));
    DeliveredStep(joined + u, LeaveEvent(c), c);
  }

  /**
   * Persistence failure: a forward whose insert failed changes neither the
   * membership nor what any client has received.
   */
  lemma {:induction false} FailedPersistenceDeliversNothing<M>(t: seq<Event<M>>, m: M)
    ensures Members(t + [ForwardEvent(m, false)]) == Members(t)
    ensures Broadcast(t + [ForwardEvent(m, false)]) == Broadcast(t)
    ensures forall c :: Delivered(t + [ForwardEvent(m, false)], c) == Delivered(t, c)
  {
    TraceStep(t, ForwardEvent(m, false));
    DeliveriesKept(t, ForwardEvent(m, false));
  }

  /** A second leave of a client that has left changes the membership no further. */
  lemma {:induction false} LeaveIdempotent<M>(t: seq<Event<M>>, c: ClientId)
    ensures Members(t + [LeaveEvent(c), LeaveEvent(c)]) == Members(t + [LeaveEvent(c)])
  {
    TraceStep(t, LeaveEvent(c));
    TraceStep(t + [LeaveEvent(c)], LeaveEvent(c));
    assert t + [LeaveEvent(c), LeaveEvent(c)] == (t + [LeaveEvent(c)]) + [LeaveEvent(c)];
  }
}
