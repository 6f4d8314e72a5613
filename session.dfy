/**
  The state machine behind `createSubscribe`. The closure it returns keeps
  an id counter, an insertion-ordered registry of live subscriptions and a
  transport; here that state is one value, `State`, and every handler of
  the closure is a transition on it. The transport is abstracted to its
  `connected` flag, the `connect` and `disconnect` events and the log of
  notices actually sent; nothing is ever buffered while disconnected. Each
  stream's sink is modelled by what its observer has received, a log kept
  under the stream's id.
 */
module SubscriptionSession {

  import opened Wrappers
  import opened Protocol
  import opened Sinks
  import opened Registry

  /** The default of the `maxSubscriptions` option. */
  const DEFAULT_MAX_SUBSCRIPTIONS: nat := 200

  /** The options the session reads (the transport address is not part of this model). */
  datatype Options = Options(token: Option<string>, maxSubscriptions: Option<nat>)

  /**
    The closure's state. `order` and `records` together are the registry,
    a map that remembers insertion order; `logs` holds, for every id ever
    issued, what the observer of that activation's sink has received.
   */
  datatype State = State(
    token: Option<string>,
    max: nat,
    nextId: nat,
    order: seq<nat>,
    records: map<nat, Rec>,
    connected: bool,
    outbox: seq<Notice>,
    logs: map<nat, seq<Event>>)

  /**
    The invariant of the registry and the sinks: the insertion order lists
    exactly the live ids, in increasing order; every live id has been issued
    already; no more ids are live than the capacity allows; every live id
    has its sink's log, and every log belongs to an id already issued; and
    no log goes on after a completion.
   */
  ghost predicate Registered(order: seq<nat>, records: map<nat, Rec>, logs: map<nat, seq<Event>>, nextId: nat, max: nat) {
    && Increasing(order)
    && records.Keys == Elements(order)
    && |order| <= max
    && records.Keys <= logs.Keys
    && Logged(logs, nextId)
  }

  /** Every sink log belongs to an issued id and is well formed. */
  ghost predicate Logged(logs: map<nat, seq<Event>>, nextId: nat) {
    forall k :: k in logs ==> k < nextId && WellFormed(logs[k])
  }

  /** The invariant every reachable state keeps. */
  ghost predicate Consistent(st: State) {
    Registered(st.order, st.records, st.logs, st.nextId, st.max)
  }

  /** Opening the log of the next id keeps every log that of an issued id, and well formed. */
  lemma OpenLog(logs: map<nat, seq<Event>>, nextId: nat)
    requires Logged(logs, nextId)
    ensures nextId !in logs
    ensures Logged(logs[nextId := []], nextId + 1)
  {
  }

  /** Registering a new record under the next id, below capacity, keeps the invariant. */
  lemma RegisteredInsert(order: seq<nat>, records: map<nat, Rec>, logs: map<nat, seq<Event>>, nextId: nat, max: nat, rec: Rec)
    requires Registered(order, records, logs, nextId, max)
    requires |records| < max
    ensures nextId !in records
    ensures Registered(order + [nextId], records[nextId := rec], logs[nextId := []], nextId + 1, max)
  {
    assert Increasing(order + [nextId]) && Elements(order + [nextId]) == records.Keys + {nextId} by {
      InsertOrdered(order, records, logs, nextId, max);
    }
    assert |order| + 1 <= max by {
      InsertBounded(order, records, logs, nextId, max);
    }
    assert nextId !in logs && Logged(logs[nextId := []], nextId + 1) by {
      OpenLog(logs, nextId);
    }
  }

  /** The new id goes last in insertion order, and the registry's keys grow by it. */
  lemma InsertOrdered(order: seq<nat>, records: map<nat, Rec>, logs: map<nat, seq<Event>>, nextId: nat, max: nat)
    requires Registered(order, records, logs, nextId, max)
    ensures nextId !in records
    ensures Increasing(order + [nextId])
    ensures Elements(order + [nextId]) == records.Keys + {nextId}
  {
    forall k | k in order ensures k < nextId {
      assert k in Elements(order);
    }
    AppendIncreasing(order, nextId);
  }

  /** Below capacity there is room for one more live id. */
  lemma InsertBounded(order: seq<nat>, records: map<nat, Rec>, logs: map<nat, seq<Event>>, nextId: nat, max: nat)
    requires Registered(order, records, logs, nextId, max)
    requires |records| < max
    ensures |order| + 1 <= max
  {
    DistinctElements(order);
  }

  /** Taking an id for a refused activation keeps the invariant. */
  lemma RegisteredSkip(order: seq<nat>, records: map<nat, Rec>, logs: map<nat, seq<Event>>, nextId: nat, max: nat)
    requires Registered(order, records, logs, nextId, max)
    ensures nextId !in records
    ensures Registered(order, records, logs[nextId := []], nextId + 1, max)
  {
  }

  /** Removing a record, live or not, keeps the invariant. */
  lemma RegisteredRemove(order: seq<nat>, records: map<nat, Rec>, logs: map<nat, seq<Event>>, nextId: nat, max: nat, id: nat)
    requires Registered(order, records, logs, nextId, max)
    ensures Registered(Without(order, id), records - {id}, logs, nextId, max)
  {
    var order' := Without(order, id);
    WithoutIncreasing(order, id);
    assert (records - {id}).Keys == Elements(order') by {
      forall y | y in (records - {id}).Keys ensures y in Elements(order') {
        assert y in Elements(order);
      }
      forall y | y in Elements(order') ensures y in (records - {id}).Keys {
        assert y in Elements(order);
      }
    }
  }

  /** The registry's size is the number of ids in insertion order, so the capacity bounds it. */
  lemma RegistrySize(st: State)
    requires Consistent(st)
    ensures |st.records| == |st.order| <= st.max
  {
    assert st.records.Keys == Elements(st.order);
    DistinctElements(st.order);
  }

  /** Every live id has its record and its sink's log. */
  lemma LiveHaveLogs(st: State)
    requires Consistent(st)
    ensures forall k :: k in st.order ==> k in st.records && k in st.logs
  {
    forall k | k in st.order ensures k in st.records && k in st.logs {
      assert k in Elements(st.order);
    }
  }

  /** The state right after `createSubscribe(options)`: nothing issued, nothing registered, not yet connected. */
  function Init(options: Options): (st: State)
    ensures st.token == options.token
    ensures st.max == if options.maxSubscriptions.Some? then options.maxSubscriptions.value else DEFAULT_MAX_SUBSCRIPTIONS
    ensures st.nextId == 0 && st.order == [] && st.records == map[] && !st.connected && st.outbox == [] && st.logs == map[]
  {
    State(options.token, options.maxSubscriptions.GetOr(DEFAULT_MAX_SUBSCRIPTIONS), 0, [], map[], false, [], map[])
  }

  /** `emitTransient`: the notice is sent when the transport is connected and dropped otherwise. */
  function Emitted(st: State, n: Notice): State {
    if st.connected then st.(outbox := st.outbox + [n]) else st
  }

  /** The `connect` handler: authenticate when the token is truthy, then announce every live record, oldest first. */
  function Connected(st: State): State {
    var up := st.(connected := true);
    var authenticated := if Truthy(st.token) then Emitted(up, Authenticate(st.token.value)) else up;
    authenticated.(outbox := authenticated.outbox + Replay(st.order, st.records))
  }

  /** The transport drops: later sends are no-ops until the next connect. */
  function Disconnected(st: State): State {
    st.(connected := false)
  }

  /**
    The `subscription update` handler: the payload, without its `id`, is
    offered to the sink of the live record the id names; any other update
    changes nothing.
   */
  function Updated(st: State, update: Payload): State {
    match Target(update, st.records)
    case None => st
    case Some(k) => st.(logs := st.logs[k := Deliver(Log(st.logs, k), Next(Strip(update)))])
  }

  /** The outcome of starting a stream: the new state, the id it took and whether it was registered. */
  datatype Activation = Activation(state: State, id: nat, accepted: bool)

  /**
    Starting a stream: the id is taken before the capacity check, so a
    refused activation consumes one too, and the stream's sink starts with
    an empty log. Below capacity the record is registered and announced.
   */
  function Activated(st: State, query: string, variables: Variables): Activation {
    var id := st.nextId;
    var counted := st.(nextId := id + 1, logs := st.logs[id := []]);
    if |st.records| >= st.max then Activation(counted, id, false)
    else
      var rec := Rec(query, variables);
      var registered := counted.(order := st.order + [id], records := st.records[id := rec]);
      Activation(Emitted(registered, SubscribeFor(id, rec)), id, true)
  }

  /** The teardown of an activation: send `unsubscribe`, then delete the record. */
  function Cancelled(st: State, id: nat): State {
    var notified := Emitted(st, Unsubscribe(id));
    notified.(order := Without(st.order, id), records := st.records - {id})
  }

  /** `close`: disconnect, then complete the sink of every registered record in insertion order. */
  function Closed(st: State): State {
    st.(connected := false, logs := CompleteEach(st.logs, st.order))
  }

  /** The initial state satisfies the invariant. */
  lemma InitConsistent(options: Options)
    ensures Consistent(Init(options))
  {
  }

  /** An update keeps the invariant. */
  lemma UpdatedConsistent(st: State, update: Payload)
    requires Consistent(st)
    ensures Consistent(Updated(st, update))
  {
    var t := Target(update, st.records);
    if t.Some? {
      DeliverKeepsWellFormed(Log(st.logs, t.value), Next(Strip(update)));
    }
  }

  /** An activation, accepted or refused, keeps the invariant. */
  lemma ActivatedConsistent(st: State, query: string, variables: Variables)
    requires Consistent(st)
    ensures Consistent(Activated(st, query, variables).state)
  {
    if |st.records| >= st.max {
      RegisteredSkip(st.order, st.records, st.logs, st.nextId, st.max);
    } else {
      RegisteredInsert(st.order, st.records, st.logs, st.nextId, st.max, Rec(query, variables));
    }
  }

  /** A teardown keeps the invariant. */
  lemma CancelledConsistent(st: State, id: nat)
    requires Consistent(st)
    ensures Consistent(Cancelled(st, id))
  {
    RegisteredRemove(st.order, st.records, st.logs, st.nextId, st.max, id);
  }

  /** `close` keeps the invariant. */
  lemma ClosedConsistent(st: State)
    requires Consistent(st)
    ensures Consistent(Closed(st))
  {
    LiveHaveLogs(st);
    var logs := CompleteEach(st.logs, st.order);
    forall k | k in logs ensures k < st.nextId && WellFormed(logs[k]) {
      CompleteEachAt(st.logs, st.order, k);
      DeliverKeepsWellFormed(Log(st.logs, k), Complete);
    }
  }

  /** An event the closure reacts to. */
  datatype Op =
    | Connect
    | Disconnect
    | Update(update: Payload)
    | Activate(query: string, variables: Variables)
    | Cancel(id: nat)
    | Close

  /** The state after one event. */
  function Step(st: State, op: Op): State {
    match op
    case Connect => Connected(st)
    case Disconnect => Disconnected(st)
    case Update(update) => Updated(st, update)
    case Activate(query, variables) => Activated(st, query, variables).state
    case Cancel(id) => Cancelled(st, id)
    case Close => Closed(st)
  }

  /** The state after a sequence of events, first to last. */
  function Run(st: State, ops: seq<Op>): State
    decreases |ops|
  {
    if ops == [] then st else Run(Step(st, ops[0]), ops[1..])
  }

  /** Every event keeps the invariant. */
  lemma StepConsistent(st: State, op: Op)
    requires Consistent(st)
    ensures Consistent(Step(st, op))
  {
    match op
    case Connect =>
    case Disconnect =>
    case Update(update) => UpdatedConsistent(st, update);
    case Activate(query, variables) => ActivatedConsistent(st, query, variables);
    case Cancel(id) => CancelledConsistent(st, id);
    case Close => ClosedConsistent(st);
  }

  /** Every state reachable from a consistent one is consistent; in particular every state reachable from `Init`. */
  lemma {:induction false} RunConsistent(st: State, ops: seq<Op>)
    requires Consistent(st)
    ensures Consistent(Run(st, ops))
    decreases |ops|
  {
    if ops != [] {
      StepConsistent(st, ops[0]);
      RunConsistent(Step(st, ops[0]), ops[1..]);
    }
  }

  /** An activation takes the next id whether or not it is accepted, and gives that id a fresh, empty sink log. */
  lemma ActivationTakesId(st: State, query: string, variables: Variables)
    requires Consistent(st)
    ensures var a := Activated(st, query, variables);
      && a.id == st.nextId
      && a.state.nextId == st.nextId + 1
      && a.id !in st.records && a.id !in st.logs
      && a.state.logs == st.logs[a.id := []]
  {
  }

  /** An activation is accepted exactly when the registry is below capacity; a refused one changes neither the registry nor the transport. */
  lemma ActivationCapacity(st: State, query: string, variables: Variables)
    requires Consistent(st)
    ensures var a := Activated(st, query, variables);
      && (a.accepted <==> |st.records| < st.max)
      && |a.state.records| <= st.max
      && (!a.accepted ==> a.state.records == st.records && a.state.order == st.order && a.state.outbox == st.outbox)
  {
    ActivatedConsistent(st, query, variables);
    RegistrySize(Activated(st, query, variables).state);
  }

  /**
    An accepted activation registers the query and variables under its id,
    last in insertion order, announces them when connected, and from then on
    updates carrying that id are routed to it.
   */
  lemma ActivationAccepted(st: State, query: string, variables: Variables, update: Payload)
    requires Consistent(st)
    requires ID_FIELD in update && update[ID_FIELD] == JNum(st.nextId)
    ensures var a := Activated(st, query, variables);
      a.accepted ==>
        && a.state.records == st.records[a.id := Rec(query, variables)]
        && a.state.order == st.order + [a.id]
        && a.state.outbox == st.outbox + (if st.connected then [Subscribe(a.id, query, variables)] else [])
        && Target(update, a.state.records) == Some(a.id)
  {
  }

  /**
    On connect the transport is sent `authenticate` first when the token is
    truthy, then the `subscribe` notices of the live records in insertion
    order; nothing else changes but the flag.
   */
  lemma ConnectAnnounces(st: State)
    ensures var r := Connected(st);
      && r.connected
      && r.outbox == st.outbox + (if Truthy(st.token) then [Authenticate(st.token.value)] else []) + Replay(st.order, st.records)
      && r.(connected := st.connected, outbox := st.outbox) == st
  {
  }

  /** What a connect sends: the optional `authenticate`, then the replay. */
  lemma ConnectSends(st: State)
    ensures Connected(st).outbox[|st.outbox|..] == (if Truthy(st.token) then [Authenticate(st.token.value)] else []) + Replay(st.order, st.records)
  {
    ConnectAnnounces(st);
  }

  /** On connect every live record is announced exactly once, and no other id is. */
  lemma ConnectReplaysEachOnce(st: State, id: nat)
    requires Consistent(st)
    ensures SubscribeCount(Connected(st).outbox[|st.outbox|..], id) == if id in st.records then 1 else 0
  {
    var auth: seq<Notice> := if Truthy(st.token) then [Authenticate(st.token.value)] else [];
    var replay := Replay(st.order, st.records);
    ConnectSends(st);
    SubscribeCountAppend(auth, replay, id);
    assert SubscribeCount(auth, id) == 0 by {
      if auth != [] {
        assert auth[..0] == [];
      }
    }
    LiveHaveLogs(st);
    ReplayOnce(st.order, st.records, id);
    assert id in st.records <==> id in Elements(st.order);
  }

  /**
    An update reaches at most one sink, the one its `id` names while that
    record is live, and what it offers is the update without its `id`;
    nothing but that sink's log changes.
   */
  lemma UpdateRoutes(st: State, update: Payload, k: nat)
    requires Consistent(st)
    ensures var r := Updated(st, update);
      && r.logs.Keys == st.logs.Keys
      && Log(r.logs, k) == (if Target(update, st.records) == Some(k) then Deliver(Log(st.logs, k), Next(Strip(update))) else Log(st.logs, k))
      && r.(logs := st.logs) == st
  {
  }

  /**
    The teardown sends `unsubscribe` when connected, removes just that
    record, and afterwards an update carrying its id reaches nobody.
   */
  lemma CancelStopsDelivery(st: State, id: nat, update: Payload)
    requires Consistent(st)
    requires ID_FIELD in update && update[ID_FIELD] == JNum(id)
    ensures var c := Cancelled(st, id);
      && c.outbox == st.outbox + (if st.connected then [Unsubscribe(id)] else [])
      && c.records == st.records - {id}
      && c.order == Without(st.order, id)
      && c.logs == st.logs
      && Consistent(c)
      && Updated(c, update) == c
  {
    CancelledConsistent(st, id);
  }

  /**
    `close` disconnects and completes every live sink exactly once, with
    the values it had received left as they were; sinks of records no
    longer live are not touched, and the registry is not cleared.
   */
  lemma CloseCompletes(st: State, k: nat)
    requires Consistent(st)
    ensures var c := Closed(st);
      && !c.connected
      && c.records == st.records && c.order == st.order && c.outbox == st.outbox
      && c.logs.Keys == st.logs.Keys
      && (k in st.records ==>
        && Log(c.logs, k) == Deliver(Log(st.logs, k), Complete)
        && Completions(Log(c.logs, k)) == 1
        && Values(Log(c.logs, k)) == Values(Log(st.logs, k)))
      && (k !in st.records ==> Log(c.logs, k) == Log(st.logs, k))
  {
    LiveHaveLogs(st);
    CompleteEachAt(st.logs, st.order, k);
    assert k in st.records <==> k in Elements(st.order);
    if k in st.records {
      CompleteDeliversOnce(Log(st.logs, k));
    }
  }

  /** After `close` no update reaches an observer. */
  lemma CloseSilences(st: State, update: Payload)
    requires Consistent(st)
    ensures Updated(Closed(st), update) == Closed(st)
  {
    var c := Closed(st);
    var t := Target(update, st.records);
    if t.Some? {
      CloseCompletes(st, t.value);
      LiveHaveLogs(st);
      CompleteIdempotent(Log(st.logs, t.value));
      assert c.logs[t.value := Deliver(Log(c.logs, t.value), Next(Strip(update)))] == c.logs;
    }
  }

  /** A second `close` changes nothing: every observer it would complete already has. */
  lemma CloseIdempotent(st: State)
    ensures Closed(Closed(st)) == Closed(st)
  {
    var c := Closed(st);
    var again := CompleteEach(c.logs, st.order);
    forall k | k in c.logs ensures again[k] == c.logs[k] {
      CompleteEachAt(c.logs, st.order, k);
      CompleteEachAt(st.logs, st.order, k);
      if k in st.order {
        CompleteIdempotent(Log(st.logs, k));
      }
    }
    assert again == c.logs;
  }

  /**
    A repeated teardown of the same id removes nothing more, but sends a
    second `unsubscribe` for it when connected: nothing in the session
    makes the teardown idempotent on the wire.
   */
  lemma CancelRepeated(st: State, id: nat)
    ensures var once := Cancelled(st, id);
      var twice := Cancelled(once, id);
      && twice.records == once.records
      && twice.order == once.order
      && twice.outbox == once.outbox + (if st.connected then [Unsubscribe(id)] else [])
  {
    var once := Cancelled(st, id);
    assert id !in once.order;
  }

  /** Starting a stream is the only event that takes an id. */
  function Activations(ops: seq<Op>): nat {
    if ops == [] then 0 else (if ops[0].Activate? then 1 else 0) + Activations(ops[1..])
  }

  /** One event keeps the options and takes an id exactly when it starts a stream. */
  lemma StepBounds(st: State, op: Op)
    ensures Step(st, op).token == st.token && Step(st, op).max == st.max
    ensures Step(st, op).nextId == st.nextId + (if op.Activate? then 1 else 0)
  {
  }

  /**
    Along any run the options stay as given, every activation (accepted or
    not) takes exactly one id and nothing else does, and the registry never
    holds more than `max` records.
   */
  lemma {:induction false} RunBounds(st: State, ops: seq<Op>)
    requires Consistent(st)
    ensures Run(st, ops).token == st.token && Run(st, ops).max == st.max
    ensures Run(st, ops).nextId == st.nextId + Activations(ops)
    ensures |Run(st, ops).records| <= st.max
    decreases |ops|
  {
    if ops != [] {
      StepBounds(st, ops[0]);
      StepConsistent(st, ops[0]);
      RunBounds(Step(st, ops[0]), ops[1..]);
    }
    RunConsistent(st, ops);
    RegistrySize(Run(st, ops));
  }

  /** While disconnected nothing reaches the transport: a run without a connect leaves the outbox as it was. */
  lemma {:induction false} SilentWhileDisconnected(st: State, ops: seq<Op>)
    requires !st.connected
    requires forall i :: 0 <= i < |ops| ==> !ops[i].Connect?
    ensures !Run(st, ops).connected
    ensures Run(st, ops).outbox == st.outbox
    decreases |ops|
  {
    if ops != [] {
      SilentWhileDisconnected(Step(st, ops[0]), ops[1..]);
    }
  }

  /** After `close` nothing reaches the transport until the next connect, whatever else happens. */
  lemma SilentAfterClose(st: State, ops: seq<Op>)
    requires forall i :: 0 <= i < |ops| ==> !ops[i].Connect?
    ensures Run(Closed(st), ops).outbox == st.outbox
  {
    SilentWhileDisconnected(Closed(st), ops);
  }

  /**
    An id that was issued and is no longer live never becomes live again,
    whatever happens next: the counter only moves forward, so no activation
    takes it again.
   */
  lemma {:induction false} NeverRevived(st: State, ops: seq<Op>, k: nat)
    requires Consistent(st)
    requires k < st.nextId && k !in st.records
    ensures k !in Run(st, ops).records
    decreases |ops|
  {
    if ops != [] {
      StepConsistent(st, ops[0]);
      StepBounds(st, ops[0]);
      NeverRevived(Step(st, ops[0]), ops[1..], k);
    }
  }

  /** After a teardown of an issued id, no later update for that id reaches anyone, whatever events come in between. */
  lemma CancelledStaysSilent(st: State, id: nat, ops: seq<Op>, update: Payload)
    requires Consistent(st) && id < st.nextId
    requires ID_FIELD in update && update[ID_FIELD] == JNum(id)
    ensures var r := Run(Cancelled(st, id), ops);
      Updated(r, update) == r
  {
    CancelledConsistent(st, id);
    NeverRevived(Cancelled(st, id), ops, id);
  }

  /** A refused activation's observer never receives a value, whatever events come later. */
  lemma RefusedStaysSilent(st: State, query: string, variables: Variables, ops: seq<Op>, update: Payload)
    requires Consistent(st)
    requires ID_FIELD in update && update[ID_FIELD] == JNum(st.nextId)
    ensures var a := Activated(st, query, variables);
      !a.accepted ==> Updated(Run(a.state, ops), update) == Run(a.state, ops)
  {
    var a := Activated(st, query, variables);
    if !a.accepted {
      ActivatedConsistent(st, query, variables);
      NeverRevived(a.state, ops, a.id);
    }
  }

  /** Running one more event after a run. */
  lemma {:induction false} RunAppend(st: State, ops: seq<Op>, op: Op)
    ensures Run(st, ops + [op]) == Step(Run(st, ops), op)
    decreases |ops|
  {
    if ops == [] {
      assert [] + [op] == [op];
      assert [op][1..] == [];
    } else {
      assert (ops + [op])[1..] == ops[1..] + [op];
      RunAppend(Step(st, ops[0]), ops[1..], op);
    }
  }

  /** The payloads, without their `id`, of those updates among `ops` that are routed to `k`, in order. */
  function Routed(records: map<nat, Rec>, ops: seq<Op>, k: nat): seq<Payload> {
    if ops == [] then []
    else
      var last := ops[|ops| - 1];
      Routed(records, ops[..|ops| - 1], k)
        + (if last.Update? && Target(last.update, records) == Some(k) then [Strip(last.update)] else [])
  }

  /**
    A run of updates leaves the registry as it was and offers each sink,
    in arrival order, exactly the stripped payloads routed to it.
   */
  lemma {:induction false} UpdatesInOrder(st: State, ops: seq<Op>, k: nat)
    requires forall i :: 0 <= i < |ops| ==> ops[i].Update?
    ensures Run(st, ops).records == st.records
    ensures Log(Run(st, ops).logs, k) == DeliverAll(Log(st.logs, k), Routed(st.records, ops, k))
  {
    if ops != [] {
      var init, last := ops[..|ops| - 1], ops[|ops| - 1];
      assert ops == init + [last];
      UpdatesInOrder(st, init, k);
      RunAppend(st, init, last);
      var before := Routed(st.records, init, k);
      if Target(last.update, st.records) == Some(k) {
        assert (before + [Strip(last.update)])[..|before|] == before;
      } else {
        assert before + [] == before;
      }
    }
  }

  /** Hence an open sink's values are its earlier values followed by the routed payloads, in order. */
  lemma ValuesArriveInOrder(st: State, ops: seq<Op>, k: nat)
    requires forall i :: 0 <= i < |ops| ==> ops[i].Update?
    requires !Completed(Log(st.logs, k))
    ensures Values(Log(Run(st, ops).logs, k)) == Values(Log(st.logs, k)) + Routed(st.records, ops, k)
  {
    UpdatesInOrder(st, ops, k);
    ValuesInOrder(Log(st.logs, k), Routed(st.records, ops, k));
  }
}
