/**
  The subscription registry: records keyed by id in the order they were
  inserted, how an inbound update finds its record, and the `subscribe`
  notices a connect replays.
 */
module Registry {

  import opened Wrappers
  import opened Protocol

  /**
    A live subscription: the query and variables captured at activation.
    Its sink is the observer log kept under the same id.
   */
  datatype Rec = Rec(query: string, variables: Variables)

  /** Strictly increasing ids; in particular no id occurs twice. */
  ghost predicate Increasing(ids: seq<nat>) {
    forall i, j :: 0 <= i < j < |ids| ==> ids[i] < ids[j]
  }

  /** The set of ids a sequence lists. */
  function Elements(ids: seq<nat>): set<nat> {
    set i | i in ids
  }

  /** Ids without repetition: as many distinct ids as entries. */
  lemma {:induction false} DistinctElements(ids: seq<nat>)
    requires Increasing(ids)
    ensures |Elements(ids)| == |ids|
  {
    if ids != [] {
      var init, last := ids[..|ids| - 1], ids[|ids| - 1];
      DistinctElements(init);
      assert ids == init + [last];
      assert Elements(ids) == Elements(init) + {last};
      assert last !in Elements(init) by {
        forall i | 0 <= i < |init| ensures init[i] != last {
          assert ids[i] < ids[|ids| - 1];
        }
      }
    }
  }

  /** The insertion order after `Map.delete(x)`: `x` removed, every other id kept in place. */
  function Without(ids: seq<nat>, x: nat): (r: seq<nat>)
    ensures forall y :: y in r <==> y in ids && y != x
    ensures x !in ids ==> r == ids
    ensures |r| <= |ids|
  {
    if ids == [] then []
    else if ids[0] == x then Without(ids[1..], x)
    else [ids[0]] + Without(ids[1..], x)
  }

  /** Removing an id keeps the others in increasing order. */
  lemma {:induction false} WithoutIncreasing(ids: seq<nat>, x: nat)
    requires Increasing(ids)
    ensures Increasing(Without(ids, x))
  {
    if ids != [] {
      var rest := Without(ids[1..], x);
      WithoutIncreasing(ids[1..], x);
      if ids[0] != x {
        forall y | y in rest ensures ids[0] < y {
          var j :| 0 <= j < |ids[1..]| && ids[1..][j] == y;
          assert ids[j + 1] == y;
        }
        IncreasingPrepend(ids[0], rest);
      }
    }
  }

  /** An id larger than every element of an increasing sequence can be put after it. */
  lemma AppendIncreasing(ids: seq<nat>, x: nat)
    requires Increasing(ids)
    requires forall y :: y in ids ==> y < x
    ensures Increasing(ids + [x])
    ensures Elements(ids + [x]) == Elements(ids) + {x}
  {
    var s := ids + [x];
    forall i, j | 0 <= i < j < |s| ensures s[i] < s[j] {
      if j == |ids| {
        assert ids[i] in ids;
      }
    }
  }

  /** An id smaller than every element of an increasing sequence can be put in front of it. */
  lemma IncreasingPrepend(h: nat, t: seq<nat>)
    requires Increasing(t)
    requires forall y :: y in t ==> h < y
    ensures Increasing([h] + t)
  {
    var s := [h] + t;
    forall i, j | 0 <= i < j < |s| ensures s[i] < s[j] {
      assert s[j] == t[j - 1];
      if i > 0 {
        assert s[i] == t[i - 1];
      } else {
        assert t[j - 1] in t;
      }
    }
  }

  /**
    The record an inbound update is routed to: `subscriptions.get(id)` only
    finds a record when `id` is one of the registry's numeric keys.
   */
  function Target(update: Payload, records: map<nat, Rec>): (k: Option<nat>)
    ensures k.Some? <==> exists n: nat :: ID_FIELD in update && update[ID_FIELD] == JNum(n) && n in records
    ensures k.Some? ==> k.value in records && update[ID_FIELD] == JNum(k.value)
  {
    if ID_FIELD in update && update[ID_FIELD].JNum? && update[ID_FIELD].n >= 0 && update[ID_FIELD].n in records
    then Some(update[ID_FIELD].n)
    else None
  }

  /** The `subscribe` notice that announces record `rec` under `id`. */
  function SubscribeFor(id: nat, rec: Rec): Notice {
    Subscribe(id, rec.query, rec.variables)
  }

  /**
    The `subscribe` notices for the records listed in `order`, oldest first
    (an id without a record, which the registry invariant rules out, is
    skipped).
   */
  function Replay(order: seq<nat>, records: map<nat, Rec>): seq<Notice> {
    if order == [] then []
    else
      var last := order[|order| - 1];
      Replay(order[..|order| - 1], records) + (if last in records then [SubscribeFor(last, records[last])] else [])
  }

  /** The i-th replayed notice is the `subscribe` of the i-th record in insertion order, query and variables unchanged. */
  lemma {:induction false} ReplayAt(order: seq<nat>, records: map<nat, Rec>, i: nat)
    requires forall k :: k in order ==> k in records
    requires i < |order|
    ensures |Replay(order, records)| == |order|
    ensures Replay(order, records)[i] == Subscribe(order[i], records[order[i]].query, records[order[i]].variables)
  {
    var init := order[..|order| - 1];
    if i < |init| {
      ReplayAt(init, records, i);
    } else if init != [] {
      ReplayAt(init, records, 0);
    }
  }

  /** Replayed notices carry strictly increasing ids when the records were inserted in id order. */
  lemma ReplayIncreasing(order: seq<nat>, records: map<nat, Rec>, i: nat, j: nat)
    requires forall k :: k in order ==> k in records
    requires Increasing(order)
    requires i < j < |order|
    ensures |Replay(order, records)| == |order|
    ensures Replay(order, records)[i].Subscribe? && Replay(order, records)[j].Subscribe?
    ensures Replay(order, records)[i].id < Replay(order, records)[j].id
  {
    ReplayAt(order, records, i);
    ReplayAt(order, records, j);
  }

  /** Number of `subscribe` notices for `id` in a notice log. */
  function SubscribeCount(notices: seq<Notice>, id: nat): nat {
    if notices == [] then 0
    else
      var last := notices[|notices| - 1];
      SubscribeCount(notices[..|notices| - 1], id) + (if last.Subscribe? && last.id == id then 1 else 0)
  }

  /** Number of `subscribe` notices for `id` in a concatenation. */
  lemma {:induction false} SubscribeCountAppend(a: seq<Notice>, b: seq<Notice>, id: nat)
    ensures SubscribeCount(a + b, id) == SubscribeCount(a, id) + SubscribeCount(b, id)
  {
    if b != [] {
      var init := b[..|b| - 1];
      SubscribeCountAppend(a, init, id);
      assert (a + b)[..|a + b| - 1] == a + init;
    } else {
      assert a + b == a;
    }
  }

  /** A replay announces every live record exactly once and nothing else. */
  lemma {:induction false} ReplayOnce(order: seq<nat>, records: map<nat, Rec>, id: nat)
    requires forall k :: k in order ==> k in records
    requires Increasing(order)
    ensures SubscribeCount(Replay(order, records), id) == if id in order then 1 else 0
  {
    if order != [] {
      var init := order[..|order| - 1];
      var last := order[|order| - 1];
      assert order == init + [last];
      assert last in records;
      ReplayOnce(init, records, id);
      var tail := [SubscribeFor(last, records[last])];
      assert Replay(order, records) == Replay(init, records) + tail;
      SubscribeCountAppend(Replay(init, records), tail, id);
      assert tail[..0] == [];
      if last == id {
        assert id !in init by {
          forall i | 0 <= i < |init| ensures init[i] != id {
            assert order[i] < order[|order| - 1];
          }
        }
      }
    }
  }
}
