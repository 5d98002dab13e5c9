/**
 * The profile view's friend-request hook: three username lists updated by
 * the user's own actions and by incoming socket events, and the queue of
 * socket emits held back while the socket is disconnected.
 */
module FriendRequests {

  predicate Distinct(s: seq<string>)
  {
    forall i, j :: 0 <= i < j < |s| ==> s[i] != s[j]
  }

  /** [...new Set(s)]: the distinct elements of s in order of first occurrence. */
  function Dedupe(s: seq<string>): (r: seq<string>)
    ensures Distinct(r)
    ensures forall y :: y in r <==> y in s
    decreases |s|
  {
    if |s| == 0 then []
    else
      var init := s[..|s| - 1];
      assert s == init + [s[|s| - 1]];
      var d := Dedupe(init);
      if s[|s| - 1] in d then d else d + [s[|s| - 1]]
  }

  lemma {:induction false} DedupeOfDistinct(s: seq<string>)
    requires Distinct(s)
    ensures Dedupe(s) == s
    decreases |s|
  {
    if |s| > 0 {
      var init := s[..|s| - 1];
      DedupeOfDistinct(init);
      assert s[|s| - 1] !in init;
      assert s == init + [s[|s| - 1]];
    }
  }

  lemma {:induction false} DistinctOccursOnce(s: seq<string>, x: string)
    requires Distinct(s) && x in s
    ensures multiset(s)[x] == 1
  {
    if s[0] == x {
      assert s == [s[0]] + s[1..];
      assert x !in s[1..];
    } else {
      assert s == [s[0]] + s[1..];
      DistinctOccursOnce(s[1..], x);
    }
  }

  /** [...new Set([...s, x])]: s deduplicated, with x added if missing. */
  function AddOnce(s: seq<string>, x: string): (r: seq<string>)
    ensures Distinct(r)
    ensures multiset(r)[x] == 1
    ensures forall y :: y in r <==> y in s || y == x
  {
    var r := Dedupe(s + [x]);
    DistinctOccursOnce(r, x);
    r
  }

  /** On a list already free of repeats, AddOnce is a plain append of a new name and a no-op for a known one. */
  lemma AddOnceKeepsOrder(s: seq<string>, x: string)
    requires Distinct(s)
    ensures AddOnce(s, x) == if x in s then s else s + [x]
  {
    assert (s + [x])[..|s|] == s;
    DedupeOfDistinct(s);
  }

  /** s.filter(u => u !== x). */
  function Without(s: seq<string>, x: string): (r: seq<string>)
    ensures x !in r
    ensures forall y :: y != x ==> multiset(r)[y] == multiset(s)[y]
  {
    if |s| == 0 then []
    else
      assert s == [s[0]] + s[1..];
      if s[0] == x then Without(s[1..], x) else [s[0]] + Without(s[1..], x)
  }

  /** Filtering out a name that is not there changes nothing. */
  lemma {:induction false} WithoutAbsent(s: seq<string>, x: string)
    requires x !in s
    ensures Without(s, x) == s
  {
    if |s| > 0 {
      WithoutAbsent(s[1..], x);
    }
  }

  datatype FriendLists = FriendLists(friends: seq<string>, sentRequests: seq<string>, receivedRequests: seq<string>)

  /** A socket event the hook listens to, with the username it carries. */
  datatype Incoming =
    | FriendRequestReceived(from: string)
    | FriendRequestAccepted(user: string)
    | FriendRequestDeclined(user: string)
    | FriendRemoved(user: string)

  /** The state updater each incoming event applies. */
  function OnEvent(s: FriendLists, ev: Incoming): FriendLists
  {
    match ev
    case FriendRequestReceived(from) => s.(receivedRequests := AddOnce(s.receivedRequests, from))
    case FriendRequestAccepted(u) => s.(sentRequests := Without(s.sentRequests, u), friends := AddOnce(s.friends, u))
    case FriendRequestDeclined(u) => s.(sentRequests := Without(s.sentRequests, u))
    case FriendRemoved(u) => s.(friends := Without(s.friends, u))
  }

  /**
   * Incoming events: a received request lists its sender once; an accepted
   * one moves the user from the sent list to the friends, once; a decline
   * or a removal filters only its own list.
   */
  lemma IncomingEvents(s: FriendLists, ev: Incoming)
    ensures ev.FriendRequestReceived? ==>
              multiset(OnEvent(s, ev).receivedRequests)[ev.from] == 1
              && OnEvent(s, ev).friends == s.friends && OnEvent(s, ev).sentRequests == s.sentRequests
    ensures ev.FriendRequestAccepted? ==>
              ev.user !in OnEvent(s, ev).sentRequests && multiset(OnEvent(s, ev).friends)[ev.user] == 1
              && OnEvent(s, ev).receivedRequests == s.receivedRequests
    ensures ev.FriendRequestDeclined? ==>
              ev.user !in OnEvent(s, ev).sentRequests
              && OnEvent(s, ev).friends == s.friends && OnEvent(s, ev).receivedRequests == s.receivedRequests
    ensures ev.FriendRemoved? ==>
              ev.user !in OnEvent(s, ev).friends
              && OnEvent(s, ev).sentRequests == s.sentRequests && OnEvent(s, ev).receivedRequests == s.receivedRequests
  {
  }

  /** What the hook sends on the profile socket. */
  datatype Emit =
    | JoinProfile(username: string)
    | SendFriendRequest(from: string, to: string)
    | AcceptFriendRequest(from: string, to: string)
    | DeclineFriendRequest(from: string, to: string)
    | RemoveFriend(user: string, friend: string)

  /**
   * useFriendRequestsSocketIO for one username. sent is what reached the
   * socket, in order; pending is the queue of emits held back while it was
   * disconnected; listening says whether the event handlers are registered.
   */
  class FriendRequestsHook {
    const username: string
    var state: FriendLists
    var connected: bool
    var awaitingConnect: bool
    var listening: bool
    var pending: seq<Emit>
    var sent: seq<Emit>

    constructor(username: string, initial: FriendLists, connected: bool)
      ensures this.username == username && state == initial && this.connected == connected
      ensures !awaitingConnect && !listening && pending == [] && sent == []
    {
      this.username := username;
      state := initial;
      this.connected := connected;
      awaitingConnect := false;
      listening := false;
      pending := [];
      sent := [];
    }

    /** join: joinProfile, then the queued emits in the order they were queued, leaving the queue empty. */
    method Join()
      modifies this
      ensures sent == old(sent) + [JoinProfile(username)] + old(pending)
      ensures pending == []
      ensures state == old(state) && connected == old(connected)
      ensures awaitingConnect == old(awaitingConnect) && listening == old(listening)
    {
      sent := sent + [JoinProfile(username)];
      while |pending| > 0
        invariant sent + pending == old(sent) + [JoinProfile(username)] + old(pending)
        invariant state == old(state) && connected == old(connected)
        invariant awaitingConnect == old(awaitingConnect) && listening == old(listening)
        decreases |pending|
      {
        var fn := pending[0];
        pending := pending[1..];
        sent := sent + [fn];
      }
    }

    /**
     * The subscription effect: with a connected socket it joins and
     * registers the event handlers; otherwise it only waits for the
     * connect event, and the handlers stay unregistered.
     */
    method MountEffect()
      modifies this
      ensures |username| == 0 ==> sent == old(sent) && pending == old(pending) && listening == old(listening)
                                  && awaitingConnect == old(awaitingConnect)
      ensures |username| > 0 && old(connected) ==>
                sent == old(sent) + [JoinProfile(username)] + old(pending) && pending == [] && listening
                && awaitingConnect == old(awaitingConnect)
      ensures |username| > 0 && !old(connected) ==>
                sent == old(sent) && pending == old(pending) && awaitingConnect && listening == old(listening)
      ensures state == old(state) && connected == old(connected)
    {
      if |username| == 0 {
        return;
      }
      if connected {
        Join();
        listening := true;
      } else {
        awaitingConnect := true;
      }
    }

    /** The socket's connect event: the waiting join runs and flushes the queue. */
    method SocketConnected()
      modifies this
      ensures connected
      ensures old(awaitingConnect) ==> sent == old(sent) + [JoinProfile(username)] + old(pending) && pending == []
      ensures !old(awaitingConnect) ==> sent == old(sent) && pending == old(pending)
      ensures state == old(state) && listening == old(listening) && awaitingConnect == old(awaitingConnect)
    {
      connected := true;
      if awaitingConnect {
        Join();
      }
    }

    /** An incoming socket event reaches the state only through a registered handler. */
    method Receive(ev: Incoming)
      modifies this
      ensures state == if old(listening) then OnEvent(old(state), ev) else old(state)
      ensures sent == old(sent) && pending == old(pending) && connected == old(connected)
      ensures listening == old(listening) && awaitingConnect == old(awaitingConnect)
    {
      if listening {
        state := OnEvent(state, ev);
      }
    }

    /** doEmit, or a place at the back of the queue while the socket is disconnected. */
    method EmitOrQueue(e: Emit)
      modifies this
      ensures connected ==> sent == old(sent) + [e] && pending == old(pending)
      ensures !connected ==> sent == old(sent) && pending == old(pending) + [e]
      ensures state == old(state) && connected == old(connected)
      ensures listening == old(listening) && awaitingConnect == old(awaitingConnect)
    {
      if !connected {
        pending := pending + [e];
      } else {
        sent := sent + [e];
      }
    }

    /** sendFriendRequest; apiFailed stands for the rejected fetch, after which nothing happens. */
    method SendRequest(receiver: string, apiFailed: bool)
      modifies this
      ensures apiFailed ==> state == old(state) && sent == old(sent) && pending == old(pending)
      ensures !apiFailed ==> state == old(state).(sentRequests := AddOnce(old(state).sentRequests, receiver))
      ensures !apiFailed && connected ==> sent == old(sent) + [SendFriendRequest(username, receiver)] && pending == old(pending)
      ensures !apiFailed && !connected ==> sent == old(sent) && pending == old(pending) + [SendFriendRequest(username, receiver)]
      ensures connected == old(connected) && listening == old(listening) && awaitingConnect == old(awaitingConnect)
    {
      if apiFailed {
        return;
      }
      EmitOrQueue(SendFriendRequest(username, receiver));
      state := state.(sentRequests := AddOnce(state.sentRequests, receiver));
    }

    /** acceptFriendRequest: the sender leaves the received list and joins the friends once. */
    method AcceptRequest(sender: string, apiFailed: bool)
      modifies this
      ensures apiFailed ==> state == old(state) && sent == old(sent) && pending == old(pending)
      ensures !apiFailed ==> state == old(state).(receivedRequests := Without(old(state).receivedRequests, sender),
                                                  friends := AddOnce(old(state).friends, sender))
      ensures !apiFailed && connected ==> sent == old(sent) + [AcceptFriendRequest(sender, username)] && pending == old(pending)
      ensures !apiFailed && !connected ==> sent == old(sent) && pending == old(pending) + [AcceptFriendRequest(sender, username)]
      ensures connected == old(connected) && listening == old(listening) && awaitingConnect == old(awaitingConnect)
    {
      if apiFailed {
        return;
      }
      EmitOrQueue(AcceptFriendRequest(sender, username));
      state := state.(receivedRequests := Without(state.receivedRequests, sender), friends := AddOnce(state.friends, sender));
    }

    /** declineFriendRequest: only the received list is filtered. */
    method DeclineRequest(sender: string, apiFailed: bool)
      modifies this
      ensures apiFailed ==> state == old(state) && sent == old(sent) && pending == old(pending)
      ensures !apiFailed ==> state == old(state).(receivedRequests := Without(old(state).receivedRequests, sender))
      ensures !apiFailed && connected ==> sent == old(sent) + [DeclineFriendRequest(sender, username)] && pending == old(pending)
      ensures !apiFailed && !connected ==> sent == old(sent) && pending == old(pending) + [DeclineFriendRequest(sender, username)]
      ensures connected == old(connected) && listening == old(listening) && awaitingConnect == old(awaitingConnect)
    {
      if apiFailed {
        return;
      }
      EmitOrQueue(DeclineFriendRequest(sender, username));
      state := state.(receivedRequests := Without(state.receivedRequests, sender));
    }

    /** removeFriend: only the friends list is filtered. */
    method RemoveFriendship(friend: string, apiFailed: bool)
      modifies this
      ensures apiFailed ==> state == old(state) && sent == old(sent) && pending == old(pending)
      ensures !apiFailed ==> state == old(state).(friends := Without(old(state).friends, friend))
      ensures !apiFailed && connected ==> sent == old(sent) + [RemoveFriend(username, friend)] && pending == old(pending)
      ensures !apiFailed && !connected ==> sent == old(sent) && pending == old(pending) + [RemoveFriend(username, friend)]
      ensures connected == old(connected) && listening == old(listening) && awaitingConnect == old(awaitingConnect)
    {
      if apiFailed {
        return;
      }
      EmitOrQueue(RemoveFriend(username, friend));
      state := state.(friends := Without(state.friends, friend));
    }

    /** undoFriendRequest: declines on the receiver's behalf and filters only the sent list. */
    method UndoRequest(receiver: string, apiFailed: bool)
      modifies this
      ensures apiFailed ==> state == old(state) && sent == old(sent) && pending == old(pending)
      ensures !apiFailed ==> state == old(state).(sentRequests := Without(old(state).sentRequests, receiver))
      ensures !apiFailed && connected ==> sent == old(sent) + [DeclineFriendRequest(username, receiver)] && pending == old(pending)
      ensures !apiFailed && !connected ==> sent == old(sent) && pending == old(pending) + [DeclineFriendRequest(username, receiver)]
      ensures connected == old(connected) && listening == old(listening) && awaitingConnect == old(awaitingConnect)
    {
      if apiFailed {
        return;
      }
      EmitOrQueue(DeclineFriendRequest(username, receiver));
      state := state.(sentRequests := Without(state.sentRequests, receiver));
    }
  }
}
