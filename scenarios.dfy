/**
  The repository's own test scenarios, and a few more, as runs of the
  state machine from a fresh session: what the transport is sent and what
  each observer receives.
 */
module Scenarios {

  import opened Wrappers
  import opened Protocol
  import opened Sinks
  import opened Registry
  import opened SubscriptionSession

  /** An inbound `subscription update` carrying `{ id, data }`. */
  function UpdateFor(id: int, data: string): Payload {
    map[ID_FIELD := JNum(id), "data" := JStr(data)]
  }

  /** What the observer of that update receives: `{ data }`. */
  function DataOf(data: string): Payload {
    map["data" := JStr(data)]
  }

  /** A fresh session with default options. */
  function Fresh(): State {
    Init(Options(None, None))
  }

  /** Connecting with a token sends `authenticate` with it; an empty token sends nothing. */
  lemma AuthenticateOnConnect()
    ensures Connected(Init(Options(Some("foo"), None))).outbox == [Authenticate("foo")]
    ensures Connected(Init(Options(Some(""), None))).outbox == []
  {
  }

  /** The replay of two live records, first then second. */
  lemma ReplayTwo(first: nat, second: nat, records: map<nat, Rec>)
    requires first in records && second in records
    ensures Replay([first, second], records) == [SubscribeFor(first, records[first]), SubscribeFor(second, records[second])]
  {
    var one := [first];
    assert one[..0] == [];
    assert Replay(one, records) == [SubscribeFor(first, records[first])];
    assert [first, second][..1] == one;
  }

  /** Connecting without a token, with two live records, sends their `subscribe` notices in insertion order. */
  lemma ConnectReplaysTwo(st: State, first: nat, second: nat)
    requires st.token == None && st.order == [first, second] && first in st.records && second in st.records
    ensures Connected(st).outbox == st.outbox + [SubscribeFor(first, st.records[first]), SubscribeFor(second, st.records[second])]
  {
    ReplayTwo(first, second, st.records);
    ConnectAnnounces(st);
  }

  /** Two streams started before the first connect get ids 0 and 1 and are announced on connect, in that order, and not before. */
  lemma PendingSubscriptionsOnConnect()
    ensures var s1 := Activated(Fresh(), "subscription foo", map[]);
      var s2 := Activated(s1.state, "subscription bar", map[]);
      && s1.id == 0 && s2.id == 1
      && s2.state.outbox == []
      && Connected(s2.state).outbox == [Subscribe(0, "subscription foo", map[]), Subscribe(1, "subscription bar", map[])]
  {
    var s2 := Activated(Activated(Fresh(), "subscription foo", map[]).state, "subscription bar", map[]).state;
    ConnectReplaysTwo(s2, 0, 1);
  }

  /** A stream started while connected is announced at once under id 0. */
  lemma SubscribeWhileConnected()
    ensures var a := Activated(Connected(Fresh()), "subscription foo", map[]);
      a.accepted && a.id == 0 && a.state.outbox == [Subscribe(0, "subscription foo", map[])]
  {
  }

  /** The observer sees an update without its `id` field. */
  lemma StripUpdate(id: int, data: string)
    ensures Strip(UpdateFor(id, data)) == DataOf(data)
  {
    assert Strip(UpdateFor(id, data)).Keys == DataOf(data).Keys;
  }

  /** An update for `id` is routed to `id` exactly when that record is live. */
  lemma TargetUpdate(id: nat, data: string, records: map<nat, Rec>)
    ensures Target(UpdateFor(id, data), records) == if id in records then Some(id) else None
  {
  }

  /** Two updates for a live stream whose observer has seen nothing yet reach it in order. */
  lemma UpdateTwice(st: State, id: nat, first: string, second: string)
    requires id in st.records && Log(st.logs, id) == []
    ensures Log(Updated(Updated(st, UpdateFor(id, first)), UpdateFor(id, second)).logs, id) == [Next(DataOf(first)), Next(DataOf(second))]
  {
    TargetUpdate(id, first, st.records);
    StripUpdate(id, first);
    var s := Updated(st, UpdateFor(id, first));
    assert Log(s.logs, id) == [Next(DataOf(first))];
    TargetUpdate(id, second, s.records);
    StripUpdate(id, second);
  }

  /** Two updates for id 0 reach subscription 0's observer in order, without their `id`. */
  lemma MatchUpdatesById()
    ensures var s := Activated(Connected(Fresh()), "subscription foo", map[]).state;
      Log(Updated(Updated(s, UpdateFor(0, "foo")), UpdateFor(0, "bar")).logs, 0) == [Next(DataOf("foo")), Next(DataOf("bar"))]
  {
    UpdateTwice(Activated(Connected(Fresh()), "subscription foo", map[]).state, 0, "foo", "bar");
  }

  /** Update, close, update, for a live stream whose observer has seen nothing yet: the observer gets the first update and the completion. */
  lemma UpdateCloseUpdate(st: State, id: nat, first: string, second: string)
    requires id in st.order && id in st.records && Log(st.logs, id) == []
    ensures Log(Updated(Closed(Updated(st, UpdateFor(id, first))), UpdateFor(id, second)).logs, id) == [Next(DataOf(first)), Complete]
  {
    TargetUpdate(id, first, st.records);
    StripUpdate(id, first);
    var s := Updated(st, UpdateFor(id, first));
    assert Log(s.logs, id) == [Next(DataOf(first))];
    var c := Closed(s);
    CompleteEachAt(s.logs, s.order, id);
    assert Log(c.logs, id) == [Next(DataOf(first)), Complete];
    TargetUpdate(id, second, c.records);
  }

  /** After `close` the observer has completed, and a later update for its id delivers nothing more. */
  lemma CloseEndsStreams()
    ensures var s := Activated(Connected(Fresh()), "subscription foo", map[]).state;
      Log(Updated(Closed(Updated(s, UpdateFor(0, "foo"))), UpdateFor(0, "bar")).logs, 0) == [Next(DataOf("foo")), Complete]
  {
    UpdateCloseUpdate(Activated(Connected(Fresh()), "subscription foo", map[]).state, 0, "foo", "bar");
  }

  /** Once closed the session is disconnected: a stream started afterwards is registered but not announced. */
  lemma NothingSentAfterClose()
    ensures var s := Activated(Connected(Fresh()), "subscription foo", map[]).state;
      var a := Activated(Closed(s), "subscription bar", map[]);
      && a.accepted && a.id == 1
      && a.state.order == [0, 1]
      && a.state.outbox == [Subscribe(0, "subscription foo", map[])]
  {
  }

  /** With room for one subscription a second stream is refused: it takes id 1 but is neither registered nor announced. */
  lemma CapacityRefusesActivation()
    ensures var s := Activated(Connected(Init(Options(None, Some(1)))), "subscription foo", map[]).state;
      var a := Activated(s, "subscription bar", map[]);
      && !a.accepted && a.id == 1 && a.state.nextId == 2
      && a.state.order == [0]
      && a.state.outbox == [Subscribe(0, "subscription foo", map[])]
  {
  }

  /** Cancelling sends `unsubscribe`, and a later update for that id reaches nobody. */
  lemma CancelThenUpdate()
    ensures var s := Cancelled(Activated(Connected(Fresh()), "subscription foo", map[]).state, 0);
      && s.outbox == [Subscribe(0, "subscription foo", map[]), Unsubscribe(0)]
      && Updated(s, UpdateFor(0, "foo")) == s
  {
    var s := Cancelled(Activated(Connected(Fresh()), "subscription foo", map[]).state, 0);
    TargetUpdate(0, "foo", s.records);
  }

  /** Cancelling the first of two streams while disconnected, then connecting, announces only the second. */
  lemma CancelThenConnect(st: State, first: nat, second: nat)
    requires st.token == None && !st.connected && st.outbox == []
    requires st.order == [first, second] && first != second && second in st.records
    ensures Connected(Cancelled(st, first)).outbox == [SubscribeFor(second, st.records[second])]
  {
    var c := Cancelled(st, first);
    assert c.order == [second];
    assert Replay([second], c.records) == [SubscribeFor(second, st.records[second])] by {
      assert [second][..0] == [];
    }
    ConnectAnnounces(c);
  }

  /** A connect after a cancellation announces only the streams still live. */
  lemma ReconnectReplaysLive()
    ensures var s := Activated(Activated(Fresh(), "subscription foo", map[]).state, "subscription bar", map[]).state;
      Connected(Cancelled(s, 0)).outbox == [Subscribe(1, "subscription bar", map[])]
  {
    var s := Activated(Activated(Fresh(), "subscription foo", map[]).state, "subscription bar", map[]).state;
    CancelThenConnect(s, 0, 1);
  }
}
