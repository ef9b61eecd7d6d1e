/** The websocket lobby: the registry from user id to the connection that
    serves it, and the three ways of sending a text message through it. A
    send is recorded by appending a delivery to an outbox; closing a session
    is recorded by appending the call to the room-cleanup hook. */
module WebsocketLobby {
  import opened Query

  /** The address of one websocket connection actor. */
  datatype Addr = Addr(connection: nat)

  /** One text message handed to one connection. */
  datatype Delivery = Delivery(to: Addr, message: string)

  /** One call of the room-cleanup hook `handle_websocket_closing`. */
  datatype Closing = Closing(userId: int, addr: Addr)

  /** The session map after `insert(selfId, addr)`: the last connection of
      an id wins and every other entry stays as it was. */
  function Connected(sessions: map<int, Addr>, selfId: int, addr: Addr): (s: map<int, Addr>)
    ensures s.Keys == sessions.Keys + {selfId}
    ensures selfId in s && s[selfId] == addr
    ensures forall id :: id in sessions && id != selfId ==> s[id] == sessions[id]
  {
    sessions[selfId := addr]
  }

  /** The session map after `remove(id)`: the id is gone, whatever
      connection it had, and every other entry stays as it was. */
  function Disconnected(sessions: map<int, Addr>, id: int): (s: map<int, Addr>)
    ensures s.Keys == sessions.Keys - {id}
    ensures forall k :: k in s ==> s[k] == sessions[k]
  {
    sessions - {id}
  }

  /** A disconnect does not look at the connection it comes from: after a
      reconnection under the same id, the disconnect of the earlier
      connection removes the newer one. */
  lemma StaleDisconnectEvictsNewerConnection(sessions: map<int, Addr>, id: int, earlier: Addr, newer: Addr)
    ensures earlier != newer ==> Connected(Connected(sessions, id, earlier), id, newer)[id] != earlier
    ensures id !in Disconnected(Connected(Connected(sessions, id, earlier), id, newer), id)
    ensures Disconnected(Connected(Connected(sessions, id, earlier), id, newer), id) == Disconnected(sessions, id)
  {
    var s := Disconnected(Connected(Connected(sessions, id, earlier), id, newer), id);
    assert s.Keys == Disconnected(sessions, id).Keys;
  }

  function Registered(sessions: map<int, Addr>): int -> bool {
    (id: int) => id in sessions
  }

  /** What `send_message` hands out for one id: one delivery to its
      connection when it is registered, nothing otherwise. */
  function SendOne(sessions: map<int, Addr>, id: int, message: string): seq<Delivery> {
    if id in sessions then [Delivery(sessions[id], message)] else []
  }

  /** What `send_many_message` hands out: `send_message` for each listed
      id, in list order. */
  function ManyDeliveries(sessions: map<int, Addr>, ids: seq<int>, message: string): (d: seq<Delivery>)
    ensures |d| <= |ids|
    ensures forall i :: 0 <= i < |d| ==> d[i].message == message
    ensures forall i :: 0 <= i < |d| ==> d[i].to in sessions.Values
  {
    if ids == [] then []
    else
      var n := |ids| - 1;
      var front := ManyDeliveries(sessions, ids[..n], message);
      front + SendOne(sessions, ids[n], message)
  }

  /** One delivery to the connection of each id, in order. */
  function DeliveriesTo(sessions: map<int, Addr>, ids: seq<int>, message: string): seq<Delivery>
    requires forall i :: 0 <= i < |ids| ==> ids[i] in sessions
  {
    seq(|ids|, i requires 0 <= i < |ids| => Delivery(sessions[ids[i]], message))
  }

  lemma DeliveriesToSnoc(sessions: map<int, Addr>, ids: seq<int>, id: int, message: string)
    requires forall i :: 0 <= i < |ids| ==> ids[i] in sessions
    requires id in sessions
    ensures DeliveriesTo(sessions, ids + [id], message)
            == DeliveriesTo(sessions, ids, message) + [Delivery(sessions[id], message)]
  {
    var xs := ids + [id];
    assert forall i :: 0 <= i < |ids| ==> xs[i] == ids[i];
  }

  /** `send_many_message` to a list of ids is one delivery per registered
      id, in list order; the unregistered ids are skipped. */
  lemma {:induction false} ManyDeliveriesSkipUnregistered(sessions: map<int, Addr>, ids: seq<int>, message: string)
    ensures ManyDeliveries(sessions, ids, message)
            == DeliveriesTo(sessions, Filter(ids, Registered(sessions)), message)
    decreases |ids|
  {
    if ids != [] {
      var n := |ids| - 1;
      assert ids == ids[..n] + [ids[n]];
      ManyDeliveriesSkipUnregistered(sessions, ids[..n], message);
      FilterSnoc(ids[..n], ids[n], Registered(sessions));
      if ids[n] in sessions {
        DeliveriesToSnoc(sessions, Filter(ids[..n], Registered(sessions)), ids[n], message);
      }
    }
  }

  /** Sending to two lists one after the other is sending to their
      concatenation. */
  lemma {:induction false} ManyDeliveriesConcat(sessions: map<int, Addr>, a: seq<int>, b: seq<int>, message: string)
    ensures ManyDeliveries(sessions, a + b, message)
            == ManyDeliveries(sessions, a, message) + ManyDeliveries(sessions, b, message)
    decreases |b|
  {
    if b == [] {
      assert a + b == a;
    } else {
      var n := |b| - 1;
      assert (a + b)[..|a + b| - 1] == a + b[..n];
      assert (a + b)[|a + b| - 1] == b[n];
      ManyDeliveriesConcat(sessions, a, b[..n], message);
    }
  }

  predicate NoDuplicates(ids: seq<int>) {
    forall i, j :: 0 <= i < j < |ids| ==> ids[i] != ids[j]
  }

  /** The ids that `send_message_to_all_except` reaches. */
  function Others(sessions: map<int, Addr>, except: seq<int>): set<int> {
    set id | id in sessions.Keys && id !in except
  }

  /** `recipients` lists the registered ids outside `except`, each once, in
      some order (the iteration order of the session map). */
  predicate IsBroadcastOrder(sessions: map<int, Addr>, except: seq<int>, recipients: seq<int>) {
    && NoDuplicates(recipients)
    && (forall i :: 0 <= i < |recipients| ==> recipients[i] in Others(sessions, except))
    && (forall id :: id in Others(sessions, except) ==> id in recipients)
  }

  lemma {:induction false} DistinctCardinality(ids: seq<int>)
    requires NoDuplicates(ids)
    ensures |set id | id in ids| == |ids|
    decreases |ids|
  {
    if ids != [] {
      var n := |ids| - 1;
      var front := ids[..n];
      assert ids == front + [ids[n]];
      DistinctCardinality(front);
      assert (set id | id in ids) == (set id | id in front) + {ids[n]};
      assert ids[n] !in (set id | id in front) by {
        forall k | 0 <= k < n ensures front[k] != ids[n] {
          assert front[k] == ids[k];
        }
      }
    }
  }

  /** A broadcast reaches every other registered id exactly once: as many
      deliveries as there are such ids, one to each, and none to an
      excluded or unregistered id. */
  lemma BroadcastReachesEachOtherOnce(sessions: map<int, Addr>, except: seq<int>, recipients: seq<int>, message: string)
    requires IsBroadcastOrder(sessions, except, recipients)
    ensures forall i :: 0 <= i < |recipients| ==> recipients[i] in sessions
    ensures |DeliveriesTo(sessions, recipients, message)| == |Others(sessions, except)|
    ensures forall id :: id in Others(sessions, except) <==> id in recipients
  {
    DistinctCardinality(recipients);
    var reached := set id | id in recipients;
    forall id | id in reached ensures id in Others(sessions, except) {
      var i :| 0 <= i < |recipients| && recipients[i] == id;
    }
    forall id | id in Others(sessions, except) ensures id in reached {
      assert id in recipients;
    }
    assert reached == Others(sessions, except);
  }

  /** A broadcast is `send_many_message` to its recipients. */
  lemma BroadcastIsSendMany(sessions: map<int, Addr>, except: seq<int>, recipients: seq<int>, message: string)
    requires IsBroadcastOrder(sessions, except, recipients)
    ensures forall i :: 0 <= i < |recipients| ==> recipients[i] in sessions
    ensures DeliveriesTo(sessions, recipients, message) == ManyDeliveries(sessions, recipients, message)
  {
    ManyDeliveriesSkipUnregistered(sessions, recipients, message);
    FilterKeepsAll(recipients, Registered(sessions));
  }

  lemma NonEmptyHasMember(ids: set<int>)
    requires ids != {}
    ensures exists id :: id in ids
  {
    if forall id :: id !in ids {
      assert false;
    }
  }

  class Lobby {
    /** user id to the connection serving it */
    var sessions: map<int, Addr>
    /** every message handed to a connection, oldest first */
    var outbox: seq<Delivery>
    /** every call of the room-cleanup hook, oldest first */
    var closings: seq<Closing>

    /** `Lobby::new`: no sessions yet. */
    constructor ()
      ensures sessions == map[] && outbox == [] && closings == []
    {
      sessions, outbox, closings := map[], [], [];
    }

    /** `send_message`: one delivery to the id's connection if it is
        registered; otherwise nothing is sent and nothing fails. */
    method SendMessage(message: string, idTo: int)
      modifies this`outbox
      ensures sessions == old(sessions) && closings == old(closings)
      ensures idTo in sessions ==> outbox == old(outbox) + [Delivery(sessions[idTo], message)]
      ensures idTo !in sessions ==> outbox == old(outbox)
    {
      if idTo in sessions {
        outbox := outbox + [Delivery(sessions[idTo], message)];
      }
    }

    /** `send_message_to_all_except`: one delivery to every registered id
        that is not excluded, in the map's iteration order. */
    method SendMessageToAllExcept(message: string, idsToExcept: seq<int>) returns (ghost recipients: seq<int>)
      modifies this`outbox
      ensures sessions == old(sessions) && closings == old(closings)
      ensures IsBroadcastOrder(sessions, idsToExcept, recipients)
      ensures forall i :: 0 <= i < |recipients| ==> recipients[i] in sessions
      ensures outbox == old(outbox) + DeliveriesTo(sessions, recipients, message)
    {
      recipients := [];
      var remaining := sessions.Keys;
      while remaining != {}
        invariant remaining <= sessions.Keys
        invariant NoDuplicates(recipients)
        invariant forall i :: 0 <= i < |recipients| ==>
                    recipients[i] in Others(sessions, idsToExcept) && recipients[i] !in remaining
        invariant forall id :: id in Others(sessions, idsToExcept) && id !in remaining ==> id in recipients
        invariant outbox == old(outbox) + DeliveriesTo(sessions, recipients, message)
        decreases remaining
      {
        NonEmptyHasMember(remaining);
        var id :| id in remaining;
        if id !in idsToExcept {
          DeliveriesToSnoc(sessions, recipients, id, message);
          outbox := outbox + [Delivery(sessions[id], message)];
          recipients := recipients + [id];
        }
        remaining := remaining - {id};
      }
    }

    /** `send_many_message`: `send_message` for each listed id, in order. */
    method SendManyMessage(message: string, ids: seq<int>)
      modifies this`outbox
      ensures sessions == old(sessions) && closings == old(closings)
      ensures outbox == old(outbox) + ManyDeliveries(sessions, ids, message)
      ensures outbox == old(outbox) + DeliveriesTo(sessions, Filter(ids, Registered(sessions)), message)
    {
      var i := 0;
      while i < |ids|
        invariant 0 <= i <= |ids|
        invariant outbox == old(outbox) + ManyDeliveries(sessions, ids[..i], message)
      {
        assert ids[..i + 1][..i] == ids[..i];
        SendMessage(message, ids[i]);
        i := i + 1;
      }
      assert ids[..i] == ids;
      ManyDeliveriesSkipUnregistered(sessions, ids, message);
    }

    /** The `Disconnect` handler: drop the id's session, whichever
        connection it holds, then run the room-cleanup hook for it. */
    method HandleDisconnect(id: int, addr: Addr)
      modifies this`sessions, this`closings
      ensures sessions == Disconnected(old(sessions), id)
      ensures closings == old(closings) + [Closing(id, addr)]
      ensures outbox == old(outbox)
    {
      sessions := sessions - {id};
      closings := closings + [Closing(id, addr)];
    }

    /** The `Connect` handler: register the connection under its id,
        replacing any earlier one. */
    method HandleConnect(addr: Addr, selfId: int)
      modifies this`sessions
      ensures sessions == Connected(old(sessions), selfId, addr)
      ensures outbox == old(outbox) && closings == old(closings)
    {
      sessions := sessions[selfId := addr];
    }
  }
}
