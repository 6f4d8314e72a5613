/**
  The closure `createSubscribe` returns, as an object: the id counter, the
  registry and the transport are fields its handlers update in place. Each
  handler is proved to perform exactly the matching transition of the
  state machine in `SubscriptionSession`, and to keep its invariant, so
  every property proved there holds of the object.
 */
module CreateSubscribe {

  import opened Wrappers
  import opened Protocol
  import opened Sinks
  import opened Registry
  import opened SubscriptionSession

  class Session {
    /** The `token` option. */
    const token: Option<string>
    /** The `maxSubscriptions` option, defaulted. */
    const max: nat
    /** `nextSubscriptionId`: the id the next activation takes. */
    var nextId: nat
    /** The registry `subscriptions`: its insertion order and its records. */
    var order: seq<nat>
    var records: map<nat, Rec>
    /** `socket.connected`. */
    var connected: bool
    /** Every notice `socket.emit` has sent. */
    var outbox: seq<Notice>
    /** What each activation's observer has received, by id. */
    var logs: map<nat, seq<Event>>

    /** The object's state as a value of the state machine. */
    function Snapshot(): State
      reads this
    {
      State(token, max, nextId, order, records, connected, outbox, logs)
    }

    /** The state machine's invariant holds of the object. */
    ghost predicate Valid()
      reads this
    {
      Consistent(Snapshot())
    }

    /** `createSubscribe(options)`: the counter at zero, an empty registry, a transport not yet connected. */
    constructor(options: Options)
      ensures Snapshot() == Init(options)
      ensures Valid()
    {
      token := options.token;
      max := if options.maxSubscriptions.Some? then options.maxSubscriptions.value else DEFAULT_MAX_SUBSCRIPTIONS;
      nextId := 0;
      order := [];
      records := map[];
      connected := false;
      outbox := [];
      logs := map[];
      InitConsistent(options);
    }

    /** `emitTransient`: send the notice only while connected; nothing is buffered. */
    method EmitTransient(n: Notice)
      modifies this`outbox
      ensures Snapshot() == Emitted(old(Snapshot()), n)
    {
      if !connected {
        return;
      }
      outbox := outbox + [n];
    }

    /** The `subscribe` helper: announce a record under its id. */
    method SendSubscribe(id: nat, rec: Rec)
      modifies this`outbox
      ensures Snapshot() == Emitted(old(Snapshot()), SubscribeFor(id, rec))
    {
      EmitTransient(SubscribeFor(id, rec));
    }

    /** The `forEach` over the registry in the `connect` handler: announce every record, oldest first. */
    method ReplayAll()
      requires connected
      requires forall k :: k in order ==> k in records
      modifies this`outbox
      ensures outbox == old(outbox) + Replay(order, records)
    {
      var i := 0;
      while i < |order|
        invariant 0 <= i <= |order|
        invariant outbox == old(outbox) + Replay(order[..i], records)
      {
        var id := order[i];
        assert order[..i + 1][..i] == order[..i];
        assert id in records;
        SendSubscribe(id, records[id]);
        i := i + 1;
      }
      assert order[..i] == order;
    }

    /** The `connect` handler: authenticate when the token is truthy, then announce every record in insertion order. */
    method OnConnect()
      requires Valid()
      modifies this
      ensures Snapshot() == Connected(old(Snapshot()))
      ensures Valid()
    {
      LiveHaveLogs(Snapshot());
      connected := true;
      if token.Some? && token.value != "" {
        EmitTransient(Authenticate(token.value));
      }
      ReplayAll();
    }

    /** The transport drops. */
    method OnDisconnect()
      requires Valid()
      modifies this`connected
      ensures Snapshot() == Disconnected(old(Snapshot()))
      ensures Valid()
    {
      connected := false;
    }

    /** The `subscription update` handler: hand the payload without its `id` to the sink of the record the id names, if any. */
    method OnUpdate(update: Payload)
      requires Valid()
      modifies this`logs
      ensures Snapshot() == Updated(old(Snapshot()), update)
      ensures Valid()
    {
      UpdatedConsistent(Snapshot(), update);
      var subscription := Target(update, records);
      if subscription.None? {
        return;
      }
      var id := subscription.value;
      logs := logs[id := Deliver(Log(logs, id), Next(Strip(update)))];
    }

    /**
      Subscribing to the observable `subscribeFn` returns: take the next
      id, then register and announce the stream only below capacity.
     */
    method Activate(query: string, variables: Variables) returns (id: nat, accepted: bool)
      requires Valid()
      modifies this
      ensures Activation(Snapshot(), id, accepted) == Activated(old(Snapshot()), query, variables)
      ensures Valid()
    {
      ghost var st := Snapshot();
      ActivatedConsistent(st, query, variables);
      id := nextId;
      nextId := nextId + 1;
      logs := logs[id := []];
      if |records| >= max {
        accepted := false;
        return;
      }
      var subscription := Rec(query, variables);
      order := order + [id];
      records := records[id := subscription];
      assert Snapshot() == st.(nextId := id + 1, logs := st.logs[id := []], order := st.order + [id], records := st.records[id := subscription]);
      SendSubscribe(id, subscription);
      accepted := true;
    }

    /** The teardown an accepted activation returns: send `unsubscribe`, then delete the record. */
    method Cancel(id: nat)
      requires Valid()
      modifies this
      ensures Snapshot() == Cancelled(old(Snapshot()), id)
      ensures Valid()
    {
      CancelledConsistent(Snapshot(), id);
      EmitTransient(Unsubscribe(id));
      order := Without(order, id);
      records := records - {id};
    }

    /** The `forEach` over the registry in `close`: complete every registered sink, oldest first. */
    method CompleteAll()
      modifies this`logs
      ensures logs == CompleteEach(old(logs), order)
    {
      var i := 0;
      while i < |order|
        invariant 0 <= i <= |order|
        invariant logs == CompleteEach(old(logs), order[..i])
      {
        var id := order[i];
        assert order[..i + 1][..i] == order[..i];
        logs := logs[id := Deliver(Log(logs, id), Complete)];
        i := i + 1;
      }
      assert order[..i] == order;
    }

    /** `close`: disconnect, then complete every registered sink in insertion order; the registry is kept. */
    method Close()
      requires Valid()
      modifies this
      ensures Snapshot() == Closed(old(Snapshot()))
      ensures Valid()
    {
      ClosedConsistent(Snapshot());
      connected := false;
      CompleteAll();
    }
  }
}
