// The content-process side of the cell broadcast service: a list of
// listeners that received broadcast messages are handed to.

module CellBroadcastChildActor {
  import opened Wrappers

  type ListenerId = nat

  /** The nsresult values these methods return. */
  datatype NsResult = NsOk | NsErrorUnexpected | NsErrorNotImplemented

  predicate NoDuplicates(s: seq<ListenerId>)
  {
    forall i, j | 0 <= i < j < |s| :: s[i] != s[j]
  }

  /** Where the first `x` in `s` is. */
  function FirstIndex(s: seq<ListenerId>, x: ListenerId): (i: nat)
    requires x in s
    ensures i < |s| && s[i] == x && x !in s[..i]
  {
    if s[0] == x then 0
    else
      var i := FirstIndex(s[1..], x);
      assert s[..i + 1] == [s[0]] + s[1..][..i];
      i + 1
  }

  /** nsTArray::RemoveElement: the first element equal to `x` goes, all
      others stay in their order. */
  function RemoveFirst(s: seq<ListenerId>, x: ListenerId): (r: seq<ListenerId>)
    ensures x !in s ==> r == s
    ensures x in s ==> var i := FirstIndex(s, x); r == s[..i] + s[i + 1..]
  {
    if x in s then
      var i := FirstIndex(s, x);
      s[..i] + s[i + 1..]
    else s
  }

  /** In a list without duplicates, removing a listener removes exactly it
      and keeps the list without duplicates. */
  lemma RemoveFirstOfDistinct(s: seq<ListenerId>, x: ListenerId)
    requires NoDuplicates(s)
    ensures NoDuplicates(RemoveFirst(s, x))
    ensures forall y :: y in RemoveFirst(s, x) <==> y in s && y != x
  {
    if x in s {
      var i := FirstIndex(s, x);
      RemovedAt(s, i);
    }
  }

  lemma RemovedAt(s: seq<ListenerId>, i: nat)
    requires NoDuplicates(s) && i < |s|
    ensures var r := s[..i] + s[i + 1..];
      NoDuplicates(r) && forall y :: y in r <==> y in s && y != s[i]
  {
    var r := s[..i] + s[i + 1..];
    assert forall k | 0 <= k < |r| :: r[k] == if k < i then s[k] else s[k + 1];
    forall y
      ensures y in r <==> y in s && y != s[i]
    {
      if y in s && y != s[i] {
        var k :| 0 <= k < |s| && s[k] == y;
        if k < i { assert r[k] == y; } else { assert r[k - 1] == y; }
      }
    }
  }

  class CellBroadcastChild {
    /** mListeners */
    var listeners: seq<ListenerId>
    var actorDestroyed: bool
    /** Whether Send__delete__ has been sent. */
    var sentDelete: bool

    ghost predicate Valid()
      reads this
    {
      NoDuplicates(listeners)
    }

    constructor ()
      ensures Valid() && listeners == [] && !actorDestroyed && !sentDelete
    {
      listeners := [];
      actorDestroyed := false;
      sentDelete := false;
    }

    /** RegisterListener: the listener must be new; after the actor is
        destroyed it is refused. */
    method RegisterListener(l: ListenerId) returns (r: NsResult)
      requires Valid() && l !in listeners
      modifies this`listeners
      ensures Valid()
      ensures r == if old(actorDestroyed) then NsErrorUnexpected else NsOk
      ensures r == NsOk ==> listeners == old(listeners) + [l]
      ensures r != NsOk ==> listeners == old(listeners)
    {
      if actorDestroyed {
        return NsErrorUnexpected;
      }
      listeners := listeners + [l];
      return NsOk;
    }

    /** UnregisterListener: the listener must be registered; after the
        actor is destroyed it is refused. */
    method UnregisterListener(l: ListenerId) returns (r: NsResult)
      requires Valid() && l in listeners
      modifies this`listeners
      ensures Valid()
      ensures r == if old(actorDestroyed) then NsErrorUnexpected else NsOk
      ensures r == NsOk ==> listeners == RemoveFirst(old(listeners), l) && l !in listeners
      ensures r != NsOk ==> listeners == old(listeners)
    {
      if actorDestroyed {
        return NsErrorUnexpected;
      }
      RemoveFirstOfDistinct(listeners, l);
      listeners := RemoveFirst(listeners, l);
      return NsOk;
    }

    /** RecvNotifyReceivedMessage: every listener registered when the
        message arrives is notified, in order, from a copy of the list.
        `unregisters(l)` is the listener, if any, that listener `l`
        unregisters from inside its callback. */
    method RecvNotifyReceivedMessage(unregisters: ListenerId -> Option<ListenerId>) returns (notified: seq<ListenerId>)
      requires Valid()
      modifies this`listeners
      ensures Valid()
      ensures notified == old(listeners)
      ensures forall l :: l in listeners ==> l in old(listeners)
    {
      var snapshot := listeners;
      notified := [];
      for i := 0 to |snapshot|
        invariant Valid()
        invariant notified == snapshot[..i]
        invariant forall l :: l in listeners ==> l in snapshot
      {
        notified := notified + [snapshot[i]];
        var removal := unregisters(snapshot[i]);
        if removal.Some? && removal.value in listeners {
          var _ := UnregisterListener(removal.value);
        }
      }
    }

    /** ActorDestroy */
    method ActorDestroy()
      modifies this`actorDestroyed
      ensures actorDestroyed
    {
      actorDestroyed := true;
    }

    /** ~CellBroadcastChild: Send__delete__ unless the actor is already
        destroyed, then the list is cleared. */
    method Destroy()
      modifies this`sentDelete, this`listeners
      ensures sentDelete == (old(sentDelete) || !actorDestroyed)
      ensures listeners == []
    {
      if !actorDestroyed {
        sentDelete := true;
      }
      listeners := [];
    }
  }

  /** SetCBSearchList is not implemented in the child, whatever it is given. */
  function SetCBSearchList(clientId: nat, gsms: seq<nat>, cdmas: seq<nat>): (r: NsResult)
    ensures r == NsErrorNotImplemented
  {
    NsErrorNotImplemented
  }

  /** SetCBDisabled is not implemented in the child, whatever it is given. */
  function SetCBDisabled(clientId: nat, disabled: bool): (r: NsResult)
    ensures r == NsErrorNotImplemented
  {
    NsErrorNotImplemented
  }

  /** Registering and unregistering a listener leaves the list as before. */
  method RegisterThenUnregister(l: ListenerId, others: seq<ListenerId>) returns (before: seq<ListenerId>, after: seq<ListenerId>)
    requires NoDuplicates(others) && l !in others
    ensures before == after
  {
    var c := new CellBroadcastChild();
    for i := 0 to |others|
      invariant c.Valid() && c.listeners == others[..i] && !c.actorDestroyed
    {
      assert others[i] !in others[..i];
      var _ := c.RegisterListener(others[i]);
      assert others[..i + 1] == others[..i] + [others[i]];
    }
    assert others[..|others|] == others;
    before := c.listeners;
    var _ := c.RegisterListener(l);
    var _ := c.UnregisterListener(l);
    after := c.listeners;
    assert (others + [l])[..|others|] == others;
  }
}
