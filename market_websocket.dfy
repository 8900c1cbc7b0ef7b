/**
 * The market calendar and the registry of live push connections.
 *
 * The wall clock and the time-zone database are inputs: a `Clock` carries
 * the UTC weekday and, per time-zone name the database can load, the local
 * time of day in minutes. Connections are opaque ids; every frame written
 * to one is appended to `written`, together with whether the write
 * succeeded (writes to the connections in `unreachable` fail).
 */
module Websocket {
  import opened Wrappers

  datatype Weekday = Sunday | Monday | Tuesday | Wednesday | Thursday | Friday | Saturday

  /** Trading hours of an exchange, as local hours and minutes, and its time zone. */
  datatype MarketHours = MarketHours(
    startHour: int, startMinute: int,
    endHour: int, endMinute: int,
    timezone: string)

  /** The exchanges the calendar knows; every other exchange is closed. */
  const MarketHoursTable: map<string, MarketHours> := map[
    "NYSE" := MarketHours(9, 30, 16, 0, "America/New_York"),
    "NASDAQ" := MarketHours(9, 30, 16, 0, "America/New_York")]

  /** The calendar knows NYSE and NASDAQ only, both trading 09:30 to 16:00 New York time. */
  lemma MarketCalendar(exchange: string)
    ensures exchange in MarketHoursTable <==> exchange == "NYSE" || exchange == "NASDAQ"
    ensures exchange in MarketHoursTable ==>
      var h := MarketHoursTable[exchange];
      OpensAt(h) == 570 && ClosesAt(h) == 960 && h.timezone == "America/New_York"
  {
  }

  /**
   * One reading of the clock. `localTimeOfDay[z]` is the local time of day in
   * zone `z`, in minutes since local midnight; a zone absent from the map is
   * one the time-zone database fails to load.
   */
  datatype Clock = Clock(minute: int, utcWeekday: Weekday, localTimeOfDay: map<string, real>)

  /** Local minutes since midnight at which trading opens and closes. */
  function OpensAt(h: MarketHours): int { h.startHour * 60 + h.startMinute }
  function ClosesAt(h: MarketHours): int { h.endHour * 60 + h.endMinute }

  /**
   * An exchange is open when it is known, the UTC day is a weekday, its time
   * zone loads, and local time lies strictly between opening and closing.
   */
  function IsMarketOpen(exchange: string, clock: Clock): (open: bool)
    ensures open ==> exchange in MarketHoursTable
    ensures open ==> clock.utcWeekday != Saturday && clock.utcWeekday != Sunday
    ensures open ==> var zone := MarketHoursTable[exchange].timezone;
      zone in clock.localTimeOfDay && 570.0 < clock.localTimeOfDay[zone] < 960.0
  {
    if exchange !in MarketHoursTable then false
    else
      var hours := MarketHoursTable[exchange];
      if clock.utcWeekday == Saturday || clock.utcWeekday == Sunday then false
      else if hours.timezone !in clock.localTimeOfDay then false
      else
        var now := clock.localTimeOfDay[hours.timezone];
        OpensAt(hours) as real < now && now < ClosesAt(hours) as real
  }

  /** NYSE and NASDAQ are open on a weekday exactly when New York time is strictly inside 09:30-16:00. */
  lemma NewYorkSessionIff(exchange: string, clock: Clock)
    requires exchange == "NYSE" || exchange == "NASDAQ"
    requires clock.utcWeekday != Saturday && clock.utcWeekday != Sunday
    requires "America/New_York" in clock.localTimeOfDay
    ensures IsMarketOpen(exchange, clock) <==> 570.0 < clock.localTimeOfDay["America/New_York"] < 960.0
  {
  }

  /** The opening and the closing minute themselves are closed. */
  lemma SessionBoundsExclusive(exchange: string, clock: Clock)
    requires "America/New_York" in clock.localTimeOfDay
    requires clock.localTimeOfDay["America/New_York"] == 570.0 || clock.localTimeOfDay["America/New_York"] == 960.0
    ensures !IsMarketOpen(exchange, clock)
  {
  }

  /** Unknown exchanges, weekends and an unloadable time zone all mean closed. */
  lemma ClosedCases(exchange: string, clock: Clock)
    ensures exchange !in MarketHoursTable ==> !IsMarketOpen(exchange, clock)
    ensures clock.utcWeekday == Saturday || clock.utcWeekday == Sunday ==> !IsMarketOpen(exchange, clock)
    ensures "America/New_York" !in clock.localTimeOfDay ==> !IsMarketOpen(exchange, clock)
  {
  }

  type ConnId = nat

  /** One attempted write of `payload` to `user`'s connection `conn`. */
  datatype Frame<M> = Frame(user: string, conn: ConnId, payload: M, delivered: bool)

  datatype WsError = NotConnected(user: string) | WriteFailed(conn: ConnId)

  /** The frame of a write of `msg` to `u`'s registered connection. */
  function WriteTo<M>(u: string, clients: map<string, ConnId>, msg: M, unreachable: set<ConnId>): Frame<M>
    requires u in clients
  {
    Frame(u, clients[u], msg, clients[u] !in unreachable)
  }

  /** Every frame of `batch` is a write of `msg` to a user of `users` on that user's connection. */
  ghost predicate WritesOf<M>(batch: seq<Frame<M>>, users: set<string>,
                              clients: map<string, ConnId>, msg: M, unreachable: set<ConnId>)
  {
    forall i | 0 <= i < |batch| ::
      batch[i].user in users && batch[i].user in clients && batch[i] == WriteTo(batch[i].user, clients, msg, unreachable)
  }

  /** No user has two frames in `batch`. */
  ghost predicate DistinctUsers<M>(batch: seq<Frame<M>>)
  {
    forall i, j | 0 <= i < j < |batch| :: batch[i].user != batch[j].user
  }

  /** Every user of `users` has a frame in `batch`. */
  ghost predicate Covers<M>(batch: seq<Frame<M>>, users: set<string>)
  {
    forall u | u in users :: exists i | 0 <= i < |batch| :: batch[i].user == u
  }

  /** `batch` is exactly one write of `msg` per user of `users`. */
  ghost predicate OneFramePerUser<M>(batch: seq<Frame<M>>, users: set<string>,
                                     clients: map<string, ConnId>, msg: M, unreachable: set<ConnId>)
  {
    WritesOf(batch, users, clients, msg, unreachable) && DistinctUsers(batch) && Covers(batch, users)
  }

  lemma WritesOfExtend<M>(batch: seq<Frame<M>>, users: set<string>, clients: map<string, ConnId>, msg: M,
                          unreachable: set<ConnId>, u: string, users': set<string>, batch': seq<Frame<M>>)
    requires u in clients && users' == users + {u}
    requires batch' == batch + [WriteTo(u, clients, msg, unreachable)]
    requires WritesOf(batch, users, clients, msg, unreachable)
    ensures WritesOf(batch', users', clients, msg, unreachable)
  {
  }

  lemma DistinctUsersExtend<M>(batch: seq<Frame<M>>, f: Frame<M>, batch': seq<Frame<M>>)
    requires batch' == batch + [f]
    requires DistinctUsers(batch)
    requires forall i | 0 <= i < |batch| :: batch[i].user != f.user
    ensures DistinctUsers(batch')
  {
  }

  lemma CoversExtend<M>(batch: seq<Frame<M>>, users: set<string>, f: Frame<M>,
                        users': set<string>, batch': seq<Frame<M>>)
    requires users' == users + {f.user} && batch' == batch + [f]
    requires Covers(batch, users)
    ensures Covers(batch', users')
  {
    assert batch'[|batch|] == f;
    forall v | v in users ensures exists i | 0 <= i < |batch'| :: batch'[i].user == v {
      var i :| 0 <= i < |batch| && batch[i].user == v;
      assert batch'[i] == batch[i];
    }
  }

  /** Writing to one more user not yet served keeps one frame per served user. */
  lemma OneFramePerUserExtend<M>(batch: seq<Frame<M>>, users: set<string>, clients: map<string, ConnId>, msg: M,
                                 unreachable: set<ConnId>, u: string, users': set<string>, batch': seq<Frame<M>>)
    requires u in clients && u !in users && users' == users + {u}
    requires batch' == batch + [WriteTo(u, clients, msg, unreachable)]
    requires OneFramePerUser(batch, users, clients, msg, unreachable)
    ensures OneFramePerUser(batch', users', clients, msg, unreachable)
  {
    var f := WriteTo(u, clients, msg, unreachable);
    WritesOfExtend(batch, users, clients, msg, unreachable, u, users', batch');
    assert forall i | 0 <= i < |batch| :: batch[i].user in users;
    DistinctUsersExtend(batch, f, batch');
    CoversExtend(batch, users, f, users', batch');
  }

  /**
   * The broadcast loop's state: `out` is `log` followed by one write per
   * user in `done`; the users in `pending` are still to be written to.
   */
  ghost predicate Broadcasting<M>(log: seq<Frame<M>>, out: seq<Frame<M>>, pending: set<string>, done: set<string>,
                                  clients: map<string, ConnId>, msg: M, unreachable: set<ConnId>)
  {
    && pending + done == clients.Keys && pending !! done
    && |log| <= |out| && out[..|log|] == log && |out| == |log| + |done|
    && OneFramePerUser(out[|log|..], done, clients, msg, unreachable)
  }

  /** Writing to one pending user moves that user from pending to done. */
  lemma BroadcastStep<M>(log: seq<Frame<M>>, out: seq<Frame<M>>, pending: set<string>, done: set<string>,
                         clients: map<string, ConnId>, msg: M, unreachable: set<ConnId>, u: string,
                         out': seq<Frame<M>>, pending': set<string>, done': set<string>)
    requires Broadcasting(log, out, pending, done, clients, msg, unreachable) && u in pending
    requires out' == out + [WriteTo(u, clients, msg, unreachable)]
    requires pending' == pending - {u} && done' == done + {u}
    ensures Broadcasting(log, out', pending', done', clients, msg, unreachable)
  {
    var batch := out[|log|..];
    assert out'[|log|..] == batch + [WriteTo(u, clients, msg, unreachable)];
    OneFramePerUserExtend(batch, done, clients, msg, unreachable, u, done', out'[|log|..]);
    assert out'[..|log|] == log;
    assert |done'| == |done| + 1;
  }

  /**
   * The broadcast loop: appends to `log` one write of `msg` per entry of
   * `clients`, visiting the entries in an arbitrary order.
   */
  method WriteToAll<M>(log: seq<Frame<M>>, clients: map<string, ConnId>, msg: M, unreachable: set<ConnId>)
    returns (out: seq<Frame<M>>)
    ensures |log| <= |out| && out[..|log|] == log
    ensures |out| == |log| + |clients|
    ensures OneFramePerUser(out[|log|..], clients.Keys, clients, msg, unreachable)
  {
    out := log;
    var pending := clients.Keys;
    ghost var done: set<string> := {};
    while pending != {}
      invariant Broadcasting(log, out, pending, done, clients, msg, unreachable)
      decreases pending
    {
      var u :| u in pending;
      var next := out + [WriteTo(u, clients, msg, unreachable)];
      BroadcastStep(log, out, pending, done, clients, msg, unreachable, u, next, pending - {u}, done + {u});
      out := next;
      pending := pending - {u};
      done := done + {u};
    }
    assert done == clients.Keys;
  }

  /** The push hub: at most one live connection per user id. */
  class MarketWebSocket<M> {
    var clients: map<string, ConnId>
    var written: seq<Frame<M>>
    var closed: set<ConnId>

    constructor ()
      ensures clients == map[] && written == [] && closed == {}
    {
      clients, written, closed := map[], [], {};
    }

    /**
     * Registration after the upgrade: a failed upgrade (None) registers
     * nothing; otherwise the connection replaces any earlier one of the user.
     */
    method HandleConnection(userId: string, upgraded: Option<ConnId>)
      modifies this`clients
      ensures upgraded.None? ==> clients == old(clients)
      ensures upgraded.Some? ==> clients.Keys == old(clients).Keys + {userId}
      ensures upgraded.Some? ==> clients[userId] == upgraded.value
      ensures forall u | u in old(clients) && u != userId :: u in clients && clients[u] == old(clients)[u]
    {
      if upgraded.Some? {
        clients := clients[userId := upgraded.value];
      }
    }

    /**
     * The read loop's exit and the deferred cleanup: the entry under `userId`
     * is deleted whatever connection it holds now, and `conn` is closed.
     */
    method CloseConnection(userId: string, conn: ConnId)
      modifies this`clients, this`closed
      ensures clients == old(clients) - {userId}
      ensures closed == old(closed) + {conn}
    {
      clients := clients - {userId};
      closed := closed + {conn};
    }

    /**
     * The cleanup as it should be: the entry goes only while it still holds
     * the closing connection, so a newer connection of the same user stays
     * registered.
     */
    method CloseOwnConnection(userId: string, conn: ConnId)
      modifies this`clients, this`closed
      ensures userId in old(clients) && old(clients)[userId] == conn ==> clients == old(clients) - {userId}
      ensures !(userId in old(clients) && old(clients)[userId] == conn) ==> clients == old(clients)
      ensures closed == old(closed) + {conn}
      ensures old(Live()) && (forall u | u in old(clients) && u != userId :: old(clients)[u] != conn) ==> Live()
    {
      if userId in clients && clients[userId] == conn {
        clients := clients - {userId};
      }
      closed := closed + {conn};
    }

    /** Every registered connection is still open. */
    ghost predicate Live()
      reads this
    {
      forall u | u in clients :: clients[u] !in closed
    }

    /** Writes `msg` to `userId`'s connection, or fails with NotConnected and writes nothing. */
    method SendMessage(userId: string, msg: M, unreachable: set<ConnId>) returns (r: Outcome<WsError>)
      modifies this`written
      ensures userId !in clients ==> r == Fail(NotConnected(userId)) && written == old(written)
      ensures userId in clients ==>
        written == old(written) + [Frame(userId, clients[userId], msg, clients[userId] !in unreachable)]
      ensures userId in clients ==>
        (r.Pass? <==> clients[userId] !in unreachable) &&
        (r.Fail? ==> r.error == WriteFailed(clients[userId]))
    {
      if userId !in clients {
        return Fail(NotConnected(userId));
      }
      var conn := clients[userId];
      var ok := conn !in unreachable;
      written := written + [Frame(userId, conn, msg, ok)];
      r := if ok then Pass else Fail(WriteFailed(conn));
    }

    /**
     * Writes `msg` once to every registered connection, in no fixed order;
     * a failed write does not stop the others, and the registry is unchanged.
     */
    method BroadcastMessage(msg: M, unreachable: set<ConnId>)
      modifies this`written
      ensures |old(written)| <= |written| && written[..|old(written)|] == old(written)
      ensures |written| == |old(written)| + |clients|
      ensures OneFramePerUser(written[|old(written)|..], clients.Keys, clients, msg, unreachable)
    {
      written := WriteToAll(written, clients, msg, unreachable);
    }
  }

  /**
   * A reconnect followed by the end of the first connection's read loop, with
   * the cleanup as written: the user's live second connection is dropped
   * from the registry, so messages to the user fail although it is connected.
   */
  method StaleCloseDropsLiveConnection() returns (ws: MarketWebSocket<string>, r: Outcome<WsError>)
    ensures 2 !in ws.closed && "alice" !in ws.clients
    ensures r == Fail(NotConnected("alice"))
  {
    ws := new MarketWebSocket<string>();
    ws.HandleConnection("alice", Some(1));
    ws.HandleConnection("alice", Some(2));
    ws.CloseConnection("alice", 1);
    r := ws.SendMessage("alice", "hello", {});
  }

  /** The same sequence with the corrected cleanup keeps the second connection registered and reachable. */
  method StaleCloseKeepsLiveConnection() returns (ws: MarketWebSocket<string>, r: Outcome<WsError>)
    ensures ws.Live() && "alice" in ws.clients && ws.clients["alice"] == 2
    ensures r == Pass
  {
    ws := new MarketWebSocket<string>();
    ws.HandleConnection("alice", Some(1));
    ws.HandleConnection("alice", Some(2));
    ws.CloseOwnConnection("alice", 1);
    r := ws.SendMessage("alice", "hello", {});
  }
}
