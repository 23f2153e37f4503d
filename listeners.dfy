/**
 * The two callback registries of Frontend/lib/webcontainerClient.ts: the
 * one-shot "server ready" listeners (`window.__wc_listeners__`) and the
 * persistent "versions changed" listeners (`window.__wc_version_listeners__`).
 * Both are JavaScript `Set`s of functions, iterated in insertion order.
 *
 * A callback is opaque: it is named by a `ListenerId` (its identity as a
 * function object), and what it does when called is described by a
 * `Reaction`: the `add`/`delete` calls it makes on the same registry while it
 * runs, and whether it then throws.
 */
module Listeners {
  import opened Text

  /** The identity of one callback function. */
  type ListenerId = nat

  /** A registry operation a running callback may perform. */
  datatype Op = Subscribe(id: ListenerId) | Unsubscribe(id: ListenerId)

  /** What one callback does when it is called. */
  datatype Reaction = Reaction(ops: seq<Op>, throws: bool)

  /** A callback that touches nothing and returns normally. */
  const Quiet: Reaction := Reaction([], false)

  /**
   * The record of one callback invocation during a dispatch. Every callback of
   * one dispatch receives the same arguments (the preview URL for a
   * "server-ready" dispatch, none for a version change), so they are not
   * recorded per call.
   */
  datatype Call = Call(listener: ListenerId, threw: bool)

  function ReactionOf(reactions: map<ListenerId, Reaction>, id: ListenerId): Reaction {
    if id in reactions then reactions[id] else Quiet
  }

  /** `set.add(id)`: appended at the end unless already present. */
  function Added(m: seq<ListenerId>, id: ListenerId): (r: seq<ListenerId>)
    ensures NoDuplicates(m) ==> NoDuplicates(r)
    ensures |m| <= |r| <= |m| + 1 && r[..|m|] == m
    ensures forall y :: y in r <==> y == id || y in m
  {
    if id in m then m else m + [id]
  }

  function ApplyOp(m: seq<ListenerId>, op: Op): seq<ListenerId> {
    match op
    case Subscribe(x) => Added(m, x)
    case Unsubscribe(x) => Remove(m, x)
  }

  /** The registry after the operations `ops`, performed in order. */
  function ApplyOps(m: seq<ListenerId>, ops: seq<Op>): seq<ListenerId> {
    if ops == [] then m else ApplyOp(ApplyOps(m, ops[..|ops| - 1]), ops[|ops| - 1])
  }

  /** The registry after each callback of `fired`, in order, has run its reaction. */
  function AfterCalls(m: seq<ListenerId>, fired: seq<ListenerId>, reactions: map<ListenerId, Reaction>): seq<ListenerId> {
    if fired == [] then m
    else ApplyOps(AfterCalls(m, fired[..|fired| - 1], reactions), ReactionOf(reactions, fired[|fired| - 1]).ops)
  }

  /** The invocations a dispatch over the snapshot `fired` makes, in order. */
  function CallsFor(fired: seq<ListenerId>, reactions: map<ListenerId, Reaction>): seq<Call> {
    seq(|fired|, i requires 0 <= i < |fired| => Call(fired[i], ReactionOf(reactions, fired[i]).throws))
  }

  /** How many of `calls` invoked `id`. */
  function CountCalls(calls: seq<Call>, id: ListenerId): nat {
    if calls == [] then 0
    else CountCalls(calls[..|calls| - 1], id) + (if calls[|calls| - 1].listener == id then 1 else 0)
  }

  /**
   * A dispatch calls every callback registered when it started exactly once,
   * whatever the callbacks throw, and calls no callback that was not
   * registered then (in particular none added during the dispatch).
   */
  lemma {:induction false} CalledExactlyOnce(fired: seq<ListenerId>, reactions: map<ListenerId, Reaction>, id: ListenerId)
    requires NoDuplicates(fired)
    ensures CountCalls(CallsFor(fired, reactions), id) == if id in fired then 1 else 0
  {
    if fired != [] {
      var init := fired[..|fired| - 1];
      assert CallsFor(fired, reactions)[..|fired| - 1] == CallsFor(init, reactions);
      CalledExactlyOnce(init, reactions, id);
      assert id in fired <==> id in init || id == fired[|fired| - 1];
    }
  }

  /** A callback that nobody unsubscribes stays registered: persistent subscriptions. */
  lemma {:induction false} KeptUnlessUnsubscribed(m: seq<ListenerId>, ops: seq<Op>, x: ListenerId)
    requires x in m
    requires Unsubscribe(x) !in ops
    ensures x in ApplyOps(m, ops)
  {
    if ops != [] {
      assert Unsubscribe(x) !in ops[..|ops| - 1];
      KeptUnlessUnsubscribed(m, ops[..|ops| - 1], x);
    }
  }

  /** No dispatch removes a callback by itself: only an explicit unsubscribe does. */
  lemma {:induction false} DispatchKeepsSubscribers(m: seq<ListenerId>, fired: seq<ListenerId>, reactions: map<ListenerId, Reaction>, x: ListenerId)
    requires x in m
    requires forall id :: id in fired ==> Unsubscribe(x) !in ReactionOf(reactions, id).ops
    ensures x in AfterCalls(m, fired, reactions)
  {
    if fired != [] {
      var init := fired[..|fired| - 1];
      DispatchKeepsSubscribers(m, init, reactions, x);
      KeptUnlessUnsubscribed(AfterCalls(m, init, reactions), ReactionOf(reactions, fired[|fired| - 1]).ops, x);
    }
  }

  /** A `Set` of callbacks, in insertion order. */
  class ListenerSet {
    var members: seq<ListenerId>

    ghost predicate Valid()
      reads this
    {
      NoDuplicates(members)
    }

    constructor ()
      ensures Valid() && members == []
    {
      members := [];
    }

    /** `set.add(id)`. */
    method Add(id: ListenerId)
      requires Valid()
      modifies this
      ensures Valid()
      ensures members == Added(old(members), id)
    {
      if id !in members {
        members := members + [id];
      }
    }

    /** `set.delete(id)`: whether it was present; a second call is harmless. */
    method Delete(id: ListenerId) returns (removed: bool)
      requires Valid()
      modifies this
      ensures Valid()
      ensures removed == (id in old(members))
      ensures members == Remove(old(members), id)
      ensures !removed ==> members == old(members)
    {
      removed := id in members;
      members := Remove(members, id);
    }

    /** `set.clear()`. */
    method Clear()
      modifies this
      ensures Valid() && members == []
    {
      members := [];
    }

    /** A running callback performs its registry operations. */
    method Perform(ops: seq<Op>)
      requires Valid()
      modifies this
      ensures Valid()
      ensures members == ApplyOps(old(members), ops)
    {
      var j := 0;
      while j < |ops|
        invariant 0 <= j <= |ops|
        invariant Valid()
        invariant members == ApplyOps(old(members), ops[..j])
      {
        assert ops[..j + 1][..j] == ops[..j];
        match ops[j] {
          case Subscribe(x) =>
            Add(x);
          case Unsubscribe(x) =>
            var _ := Delete(x);
        }
        j := j + 1;
      }
      assert ops[..|ops|] == ops;
    }

    /**
     * `for (const fn of Array.from(set)) { try { fn(...) } catch {} }`: every
     * callback of a snapshot taken before the loop is called once, in order;
     * a callback that throws does not stop the others, and callbacks added
     * or removed while the loop runs do not change who is called.
     */
    method Dispatch(reactions: map<ListenerId, Reaction>) returns (calls: seq<Call>)
      requires Valid()
      modifies this
      ensures Valid()
      ensures calls == CallsFor(old(members), reactions)
      ensures members == AfterCalls(old(members), old(members), reactions)
    {
      var snapshot := members;
      calls := [];
      var i := 0;
      while i < |snapshot|
        invariant 0 <= i <= |snapshot|
        invariant Valid()
        invariant calls == CallsFor(snapshot[..i], reactions)
        invariant members == AfterCalls(snapshot, snapshot[..i], reactions)
      {
        assert snapshot[..i + 1][..i] == snapshot[..i];
        var reaction := ReactionOf(reactions, snapshot[i]);
        Perform(reaction.ops);
        // A throwing callback is caught and the loop goes on.
        calls := calls + [Call(snapshot[i], reaction.throws)];
        i := i + 1;
      }
      assert snapshot[..|snapshot|] == snapshot;
    }
  }
}
