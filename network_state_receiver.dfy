/**
 * The connectivity receiver: a latch holding the last known connectivity
 * (unknown until the first conclusive broadcast), and a list of listeners told
 * about it. Listeners are notified in registration order; while the state is
 * unknown nobody is notified.
 */
module Receiver {
  import opened Options

  /** A listener, by identity; `remove` compares with `equals`, which is identity for these listeners. */
  type Listener = int

  /** A listener callback made by the receiver. */
  datatype Call = NetworkAvailable(listener: Listener) | NetworkUnavailable(listener: Listener)

  /** The broadcast's extras; `EXTRA_NO_CONNECTIVITY` reads as false when absent. */
  datatype Extras = Extras(noConnectivity: bool)

  datatype Intent = Intent(extras: Option<Extras>)

  /** The detailed state of the active network, as the connectivity service reports it. */
  datatype DetailedState = Connected | NotConnected

  /** The new value of `connected`: a connected active network wins over the no-connectivity extra. */
  function Latch(connected: Option<bool>, activeNetwork: Option<DetailedState>, noConnectivity: bool): (r: Option<bool>)
    ensures activeNetwork == Some(Connected) ==> r == Some(true)
    ensures activeNetwork != Some(Connected) && noConnectivity ==> r == Some(false)
    ensures activeNetwork != Some(Connected) && !noConnectivity ==> r == connected
  {
    if activeNetwork == Some(Connected) then Some(true)
    else if noConnectivity then Some(false)
    else connected
  }

  /** Once known, the state never becomes unknown again. */
  lemma LatchKeepsKnown(connected: Option<bool>, activeNetwork: Option<DetailedState>, noConnectivity: bool)
    requires connected.Some?
    ensures Latch(connected, activeNetwork, noConnectivity).Some?
  {
  }

  /** `notifyState(listener)`: nothing while unknown. */
  function NotifyOne(connected: Option<bool>, listener: Listener): seq<Call>
  {
    if connected.None? then []
    else if connected.value then [NetworkAvailable(listener)]
    else [NetworkUnavailable(listener)]
  }

  /** `notifyStateToAll()`: one call per registered listener, in registration order. */
  function Broadcast(connected: Option<bool>, listeners: seq<Listener>): (r: seq<Call>)
    ensures connected.None? ==> r == []
    ensures connected.Some? ==> |r| == |listeners|
    ensures connected.Some? ==> forall k :: 0 <= k < |r| ==>
      r[k] == (if connected.value then NetworkAvailable(listeners[k]) else NetworkUnavailable(listeners[k]))
  {
    if listeners == [] then []
    else Broadcast(connected, listeners[..|listeners| - 1]) + NotifyOne(connected, listeners[|listeners| - 1])
  }

  /** A broadcast reaches only registered listeners. */
  lemma BroadcastOnlyRegistered(connected: Option<bool>, listeners: seq<Listener>, call: Call)
    requires call in Broadcast(connected, listeners)
    ensures call.listener in listeners
  {
    var r := Broadcast(connected, listeners);
    var k :| 0 <= k < |r| && r[k] == call;
  }

  /** The position of the first occurrence of `x`, or -1. */
  function IndexOf(s: seq<Listener>, x: Listener): (i: int)
    ensures -1 <= i < |s|
    ensures i == -1 <==> x !in s
    ensures i >= 0 ==> s[i] == x && x !in s[..i]
  {
    if s == [] then -1
    else if s[0] == x then 0
    else
      var j := IndexOf(s[1..], x);
      assert s == [s[0]] + s[1..];
      if j == -1 then -1
      else
        assert s[..j + 1] == [s[0]] + s[1..][..j];
        j + 1
  }

  /** `ArrayList.remove(x)`: drops the first occurrence, if any, keeping the others in order. */
  function RemoveFirst(s: seq<Listener>, x: Listener): (r: seq<Listener>)
    ensures x !in s ==> r == s
    ensures x in s ==> |r| == |s| - 1
    ensures multiset(r) == multiset(s) - multiset{x}
    ensures x in s ==> r == s[..IndexOf(s, x)] + s[IndexOf(s, x) + 1..]
  {
    var i := IndexOf(s, x);
    if i < 0 then s
    else
      assert s == s[..i] + [s[i]] + s[i + 1..];
      s[..i] + s[i + 1..]
  }

  /** A listener registered once is not notified by any broadcast after its removal. */
  lemma RemovedListenerNotNotified(listeners: seq<Listener>, x: Listener, connected: Option<bool>)
    requires multiset(listeners)[x] == 1
    ensures forall call :: call in Broadcast(connected, RemoveFirst(listeners, x)) ==> call.listener != x
  {
    var remaining := RemoveFirst(listeners, x);
    assert x !in remaining by {
      assert multiset(remaining)[x] == 0;
    }
    forall call | call in Broadcast(connected, remaining)
      ensures call.listener != x
    {
      BroadcastOnlyRegistered(connected, remaining, call);
    }
  }

  class NetworkStateReceiver {
    var listeners: seq<Listener>
    /** Whether some network is connected; `None` until known. */
    var connected: Option<bool>
    /** The listener callbacks made so far, in order. */
    var calls: seq<Call>

    constructor()
      ensures listeners == [] && connected == None && calls == []
    {
      listeners := [];
      connected := None;
      calls := [];
    }

    /** `onReceive(context, intent)`; the active network's detailed state is a parameter. */
    method OnReceive(intent: Option<Intent>, activeNetwork: Option<DetailedState>)
      modifies this
      ensures listeners == old(listeners)
      ensures intent.None? || intent.value.extras.None? ==> connected == old(connected) && calls == old(calls)
      ensures intent.Some? && intent.value.extras.Some? ==>
        && connected == Latch(old(connected), activeNetwork, intent.value.extras.value.noConnectivity)
        && calls == old(calls) + Broadcast(connected, listeners)
    {
      if intent.None? || intent.value.extras.None? {
        return;
      }
      if activeNetwork == Some(Connected) {
        connected := Some(true);
      } else if intent.value.extras.value.noConnectivity {
        connected := Some(false);
      }
      NotifyStateToAll();
    }

    /** Registers the listener and tells just that listener the current known state. */
    method AddListener(listener: Listener)
      modifies this
      ensures listeners == old(listeners) + [listener] && connected == old(connected)
      ensures calls == old(calls) + NotifyOne(connected, listener)
    {
      listeners := listeners + [listener];
      NotifyState(listener);
    }

    method RemoveListener(listener: Listener)
      modifies this
      ensures listeners == RemoveFirst(old(listeners), listener)
      ensures connected == old(connected) && calls == old(calls)
    {
      listeners := RemoveFirst(listeners, listener);
    }

    method NotifyStateToAll()
      modifies this
      ensures listeners == old(listeners) && connected == old(connected)
      ensures calls == old(calls) + Broadcast(connected, listeners)
    {
      for i := 0 to |listeners|
        invariant listeners == old(listeners) && connected == old(connected)
        invariant calls == old(calls) + Broadcast(connected, listeners[..i])
      {
        assert listeners[..i + 1][..i] == listeners[..i];
        NotifyState(listeners[i]);
      }
      assert listeners[..|listeners|] == listeners;
    }

    method NotifyState(listener: Listener)
      modifies this
      ensures listeners == old(listeners) && connected == old(connected)
      ensures calls == old(calls) + NotifyOne(connected, listener)
    {
      if connected.None? {
        return;
      }
      if connected.value {
        calls := calls + [NetworkAvailable(listener)];
      } else {
        calls := calls + [NetworkUnavailable(listener)];
      }
    }
  }
}
