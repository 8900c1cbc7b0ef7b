/**
 * The price-trigger engine: evaluation of one trigger against a price, the
 * per-trigger skip/fire/persist rules applied to every candidate of a price
 * update, and the upkeep of a stock's trigger-id list on create and delete.
 */
module Triggers {
  import opened Wrappers
  import opened Models
  import Database
  import opened Websocket

  // Trigger kinds. A trigger's kind is a free string; only the first,
  // second and fourth of these are acted upon.
  const PriceUpperLimit: string := "PRICE_UPPER_LIMIT"
  const PriceLowerLimit: string := "PRICE_LOWER_LIMIT"
  const PriceChangePercent: string := "PRICE_CHANGE_PERCENT"
  const VolumeSpike: string := "VOLUME_SPIKE"
  const RSI: string := "RSI"
  const MACD: string := "MACD"
  const BollingerBands: string := "BOLLINGER_BANDS"
  const TimeBased: string := "TIME_BASED"

  /** The record pushed to the owning user when a trigger fires. */
  datatype TriggerEvaluation = TriggerEvaluation(
    triggerId: string,
    userId: string,
    symbol: string,
    exchange: string,
    triggered: bool,
    currentPrice: real,
    timestamp: int,
    message: string)

  /**
   * Checks one trigger against `price`. Both limits are inclusive; a volume
   * spike compares the price with the volume multiplier; every other kind
   * never fires.
   */
  function EvaluateTrigger(t: StockTrigger, stock: Stock, price: real, now: int): (e: TriggerEvaluation)
    ensures e.triggerId == t.triggerId && e.userId == t.userId
    ensures e.symbol == stock.symbol && e.exchange == stock.exchange
    ensures e.currentPrice == price && e.timestamp == now
    ensures e.triggered <==>
      || (t.triggerType == PriceUpperLimit && price >= t.priceThreshold)
      || (t.triggerType == PriceLowerLimit && price <= t.priceThreshold)
      || (t.triggerType == VolumeSpike && price > t.volumeMultiplier)
    ensures !e.triggered ==> e.message == ""
  {
    var e := TriggerEvaluation(t.triggerId, t.userId, stock.symbol, stock.exchange, false, price, now, "");
    if t.triggerType == PriceUpperLimit then
      if price >= t.priceThreshold then e.(triggered := true, message := "Price exceeded upper limit") else e
    else if t.triggerType == PriceLowerLimit then
      if price <= t.priceThreshold then e.(triggered := true, message := "Price fell below lower limit") else e
    else if t.triggerType == VolumeSpike then
      if price > t.volumeMultiplier then e.(triggered := true, message := "Unusual volume detected") else e
    else e
  }

  /** A price exactly at the threshold fires both an upper and a lower limit. */
  lemma BoundaryPriceFires(t: StockTrigger, stock: Stock, now: int)
    requires t.triggerType == PriceUpperLimit || t.triggerType == PriceLowerLimit
    ensures EvaluateTrigger(t, stock, t.priceThreshold, now).triggered
  {
  }

  /** Kinds other than the two limits and the volume spike never fire, whatever the price. */
  lemma OtherKindsNeverFire(t: StockTrigger, stock: Stock, price: real, now: int)
    requires t.triggerType != PriceUpperLimit && t.triggerType != PriceLowerLimit && t.triggerType != VolumeSpike
    ensures !EvaluateTrigger(t, stock, price, now).triggered
  {
  }

  // ---------------------------------------------------------------------
  // Cooldown

  /** The range of Go's time.Duration, in minutes; elapsed times saturate at these bounds. */
  const MaxElapsedMinutes: real := 9223372036854775807.0 / 60000000000.0
  const MinElapsedMinutes: real := -9223372036854775808.0 / 60000000000.0

  /**
   * Minutes since the last firing. The zero time of a never-fired trigger
   * lies so far back that the elapsed time saturates at the maximum.
   */
  function ElapsedMinutes(last: Option<int>, now: int): (m: real)
    ensures MinElapsedMinutes <= m <= MaxElapsedMinutes
    ensures last.None? ==> m == MaxElapsedMinutes
    ensures last.Some? && MinElapsedMinutes <= (now - last.value) as real <= MaxElapsedMinutes ==>
      m == (now - last.value) as real
  {
    match last
    case None => MaxElapsedMinutes
    case Some(at) =>
      var d := (now - at) as real;
      if d > MaxElapsedMinutes then MaxElapsedMinutes
      else if d < MinElapsedMinutes then MinElapsedMinutes
      else d
  }

  /** A trigger is cooling down while fewer than its cooldown minutes have passed since it last fired. */
  predicate CoolingDown(t: StockTrigger, now: int)
    ensures CoolingDown(t, now) ==> t.cooldownMinutes > 0 || (t.lastTrigger.Some? && now < t.lastTrigger.value)
  {
    ElapsedMinutes(t.lastTrigger, now) < t.cooldownMinutes as real
  }

  /** A never-fired trigger is not held back by any cooldown shorter than about 292 years. */
  lemma NeverFiredNotCooling(t: StockTrigger, now: int)
    requires t.lastTrigger.None? && t.cooldownMinutes <= 153722867
    ensures !CoolingDown(t, now)
  {
  }

  /** A zero or negative cooldown never holds back a trigger last fired at or before now. */
  lemma NoCooldownNotCooling(t: StockTrigger, now: int)
    requires t.cooldownMinutes <= 0
    requires t.lastTrigger.Some? ==> t.lastTrigger.value <= now
    ensures !CoolingDown(t, now)
  {
  }

  /** For a trigger that fired in the last 292 years, cooling down means: fewer than cooldown minutes ago. */
  lemma CoolingDownIff(t: StockTrigger, now: int)
    requires t.lastTrigger.Some? && 0 <= now - t.lastTrigger.value <= 153722867
    ensures CoolingDown(t, now) <==> now - t.lastTrigger.value < t.cooldownMinutes
  {
  }

  // ---------------------------------------------------------------------
  // What a price update does with one candidate trigger

  /** How the update loop disposes of one candidate trigger. */
  datatype Disposition =
    | SkippedInactive
    | SkippedCooling
    | SkippedNoStock(error: Database.DbError)
    | NotFired(eval: TriggerEvaluation)
    | PersistFailed(eval: TriggerEvaluation)
    | Fired(saved: StockTrigger, eval: TriggerEvaluation)

  /**
   * One candidate, in the loop's order of checks: inactive and cooling
   * triggers are skipped; a failed stock lookup skips the trigger; a firing
   * stamps the last-trigger time (and the store stamps the update time) and
   * is notified only when that write succeeds.
   */
  function Dispose(t: StockTrigger, stocksTable: string, stocks: map<string, Stock>,
                   faults: Database.Faults, price: real, now: int): (d: Disposition)
    ensures d.Fired? ==> t.isActive && !CoolingDown(t, now)
    ensures d.Fired? ==> d.saved == t.(lastTrigger := Some(now), updatedAt := now)
    ensures d.Fired? ==> t.triggerId !in faults.triggerWrites
    ensures (d.Fired? || d.PersistFailed?) ==> d.eval.triggered && t.stockId in stocks
    ensures (d.Fired? || d.PersistFailed? || d.NotFired?) ==>
      && Database.GetStock(stocksTable, stocks, faults, t.stockId).Success?
      && t.stockId in stocks && d.eval == EvaluateTrigger(t, stocks[t.stockId], price, now)
    ensures t.isActive && !CoolingDown(t, now) && Database.GetStock(stocksTable, stocks, faults, t.stockId).Failure? ==>
      d == SkippedNoStock(Database.GetStock(stocksTable, stocks, faults, t.stockId).error)
    ensures t.isActive && !CoolingDown(t, now) && Database.GetStock(stocksTable, stocks, faults, t.stockId).Success? ==>
      var e := EvaluateTrigger(t, stocks[t.stockId], price, now);
      && (!e.triggered ==> d == NotFired(e))
      && (e.triggered && t.triggerId in faults.triggerWrites ==> d == PersistFailed(e))
      && (e.triggered && t.triggerId !in faults.triggerWrites ==> d.Fired?)
  {
    if !t.isActive then SkippedInactive
    else if CoolingDown(t, now) then SkippedCooling
    else
      match Database.GetStock(stocksTable, stocks, faults, t.stockId)
      case Failure(err) => SkippedNoStock(err)
      case Success(stock) =>
        var e := EvaluateTrigger(t, stock, price, now);
        if !e.triggered then NotFired(e)
        else if t.triggerId in faults.triggerWrites then PersistFailed(e)
        else Fired(t.(lastTrigger := Some(now), updatedAt := now), e)
  }

  /** Inactive and cooling triggers are skipped before anything else is looked at. */
  lemma SkipRules(t: StockTrigger, stocksTable: string, stocks: map<string, Stock>,
                  faults: Database.Faults, price: real, now: int)
    ensures !t.isActive ==> Dispose(t, stocksTable, stocks, faults, price, now) == SkippedInactive
    ensures t.isActive && CoolingDown(t, now) ==> Dispose(t, stocksTable, stocks, faults, price, now) == SkippedCooling
  {
  }

  /** The dispositions of all candidates of one update, in the order the store returned them. */
  function Dispositions(ts: seq<StockTrigger>, stocksTable: string, stocks: map<string, Stock>,
                        faults: Database.Faults, price: real, now: int): (ds: seq<Disposition>)
    ensures |ds| == |ts|
    ensures forall i | 0 <= i < |ts| :: ds[i] == Dispose(ts[i], stocksTable, stocks, faults, price, now)
  {
    seq(|ts|, i requires 0 <= i < |ts| => Dispose(ts[i], stocksTable, stocks, faults, price, now))
  }

  /** The trigger table after one candidate: a saved firing overwrites its trigger. */
  function PersistOne(m: map<string, StockTrigger>, d: Disposition): map<string, StockTrigger>
  {
    match d
    case Fired(saved, _) => m[saved.triggerId := saved]
    case _ => m
  }

  /** The trigger table after the loop's writes. */
  function Persist(m: map<string, StockTrigger>, ds: seq<Disposition>): map<string, StockTrigger>
    decreases |ds|
  {
    if ds == [] then m else PersistOne(Persist(m, ds[..|ds| - 1]), ds[|ds| - 1])
  }

  /** The evaluation one candidate hands to notification, if its firing was saved. */
  function AlertOf(d: Disposition): seq<TriggerEvaluation>
  {
    if d.Fired? then [d.eval] else []
  }

  /** The evaluations handed to notification: those of saved firings, in order. */
  function Alerts(ds: seq<Disposition>): seq<TriggerEvaluation>
    decreases |ds|
  {
    if ds == [] then [] else Alerts(ds[..|ds| - 1]) + AlertOf(ds[|ds| - 1])
  }

  /** The frame a notification writes: one to the owner's connection, none when the owner is offline. */
  function Delivery(clients: map<string, ConnId>, unreachable: set<ConnId>, e: TriggerEvaluation)
    : seq<Frame<TriggerEvaluation>>
  {
    if e.userId in clients
    then [Frame(e.userId, clients[e.userId], e, clients[e.userId] !in unreachable)]
    else []
  }

  /** The frames written for a sequence of notifications. */
  function Deliveries(clients: map<string, ConnId>, unreachable: set<ConnId>, es: seq<TriggerEvaluation>)
    : seq<Frame<TriggerEvaluation>>
    decreases |es|
  {
    if es == [] then []
    else Deliveries(clients, unreachable, es[..|es| - 1]) + Delivery(clients, unreachable, es[|es| - 1])
  }

  /** One more candidate extends the folds by one step. */
  lemma FoldsSnoc(m: map<string, StockTrigger>, ds: seq<Disposition>, d: Disposition)
    ensures Persist(m, ds + [d]) == PersistOne(Persist(m, ds), d)
    ensures Alerts(ds + [d]) == Alerts(ds) + AlertOf(d)
  {
    assert (ds + [d])[..|ds|] == ds;
  }

  /** One pass of the update loop extends the table fold and the frame log by candidate `i`'s share. */
  lemma LoopStep(table: map<string, StockTrigger>, log: seq<Frame<TriggerEvaluation>>, ds: seq<Disposition>, i: int,
                 clients: map<string, ConnId>, unreachable: set<ConnId>)
    requires 0 <= i < |ds|
    ensures Persist(table, ds[..i + 1]) == PersistOne(Persist(table, ds[..i]), ds[i])
    ensures log + Deliveries(clients, unreachable, Alerts(ds[..i + 1])) ==
      log + Deliveries(clients, unreachable, Alerts(ds[..i]))
          + (if ds[i].Fired? then Delivery(clients, unreachable, ds[i].eval) else [])
  {
    assert ds[..i + 1] == ds[..i] + [ds[i]];
    FoldsSnoc(table, ds[..i], ds[i]);
    DeliveriesStep(clients, unreachable, Alerts(ds[..i]), ds[i]);
  }

  /** Notifying one more candidate's alert appends its frame, if any. */
  lemma DeliveriesStep(clients: map<string, ConnId>, unreachable: set<ConnId>,
                       es: seq<TriggerEvaluation>, d: Disposition)
    ensures Deliveries(clients, unreachable, es + AlertOf(d)) ==
      Deliveries(clients, unreachable, es) + (if d.Fired? then Delivery(clients, unreachable, d.eval) else [])
  {
    if d.Fired? {
      assert (es + [d.eval])[..|es|] == es;
    } else {
      assert es + [] == es;
    }
  }

  /** A trigger id with no saved firing keeps its stored record (or stays absent). */
  lemma {:induction false} PersistTouchesOnlyFired(m: map<string, StockTrigger>, ds: seq<Disposition>, k: string)
    requires forall i | 0 <= i < |ds| && ds[i].Fired? :: ds[i].saved.triggerId != k
    ensures k in Persist(m, ds) <==> k in m
    ensures k in m ==> Persist(m, ds)[k] == m[k]
    decreases |ds|
  {
    if ds != [] {
      var p := ds[..|ds| - 1];
      assert forall i | 0 <= i < |p| :: p[i] == ds[i];
      PersistTouchesOnlyFired(m, p, k);
    }
  }

  /** A trigger with a saved firing ends up stored with the last firing's record. */
  lemma {:induction false} PersistStoresLastFiring(m: map<string, StockTrigger>, ds: seq<Disposition>, i: int)
    requires 0 <= i < |ds| && ds[i].Fired?
    requires forall j | i < j < |ds| && ds[j].Fired? :: ds[j].saved.triggerId != ds[i].saved.triggerId
    ensures ds[i].saved.triggerId in Persist(m, ds)
    ensures Persist(m, ds)[ds[i].saved.triggerId] == ds[i].saved
    decreases |ds|
  {
    var p := ds[..|ds| - 1];
    if i < |ds| - 1 {
      assert forall j | 0 <= j < |p| :: p[j] == ds[j];
      PersistStoresLastFiring(m, p, i);
    }
  }

  /** Every notified evaluation is that of a firing whose write succeeded. */
  lemma {:induction false} AlertsAreSavedFirings(ds: seq<Disposition>, e: TriggerEvaluation)
    requires e in Alerts(ds)
    ensures exists i | 0 <= i < |ds| :: ds[i].Fired? && ds[i].eval == e
    decreases |ds|
  {
    var p := ds[..|ds| - 1];
    if e in Alerts(p) {
      AlertsAreSavedFirings(p, e);
      var i :| 0 <= i < |p| && p[i].Fired? && p[i].eval == e;
      assert ds[i] == p[i];
    } else {
      assert ds[|ds| - 1].Fired? && ds[|ds| - 1].eval == e;
    }
  }

  /** Alerts of a concatenation are the alerts of the parts, in order. */
  lemma {:induction false} AlertsAppend(a: seq<Disposition>, b: seq<Disposition>)
    ensures Alerts(a + b) == Alerts(a) + Alerts(b)
    decreases |b|
  {
    if b == [] {
      assert a + b == a;
    } else {
      var b', last := b[..|b| - 1], b[|b| - 1];
      var ab' := a + b';
      calc {
        Alerts(a + b);
        { assert a + b == ab' + [last]; }
        Alerts(ab' + [last]);
        { FoldsSnoc(map[], ab', last); }
        Alerts(ab') + AlertOf(last);
        { AlertsAppend(a, b'); }
        (Alerts(a) + Alerts(b')) + AlertOf(last);
        Alerts(a) + (Alerts(b') + AlertOf(last));
        { FoldsSnoc(map[], b', last); assert b' + [last] == b; }
        Alerts(a) + Alerts(b);
      }
    }
  }

  /**
   * A candidate that is skipped, does not fire or fails to persist adds no
   * alert and does not stop the later candidates' alerts.
   */
  lemma UnsavedCandidateAddsNoAlert(ds: seq<Disposition>, i: int)
    requires 0 <= i < |ds| && !ds[i].Fired?
    ensures Alerts(ds) == Alerts(ds[..i]) + Alerts(ds[i + 1..])
  {
    var a := ds[..i] + [ds[i]];
    assert ds == a + ds[i + 1..];
    AlertsAppend(a, ds[i + 1..]);
    assert a[..i] == ds[..i];
    assert Alerts(a) == Alerts(ds[..i]) + AlertOf(ds[i]);
    assert Alerts(ds[..i]) + [] == Alerts(ds[..i]);
  }

  /** Each notification frame goes to the owner of the evaluation it carries, on the owner's connection. */
  lemma {:induction false} DeliveriesReachOwners(clients: map<string, ConnId>, unreachable: set<ConnId>,
                                                 es: seq<TriggerEvaluation>, f: Frame<TriggerEvaluation>)
    requires f in Deliveries(clients, unreachable, es)
    ensures f.payload in es && f.user == f.payload.userId
    ensures f.user in clients && f.conn == clients[f.user] && f.delivered == (f.conn !in unreachable)
    decreases |es|
  {
    var p := es[..|es| - 1];
    if f in Deliveries(clients, unreachable, p) {
      DeliveriesReachOwners(clients, unreachable, p, f);
      assert f.payload in es by {
        var j :| 0 <= j < |p| && p[j] == f.payload;
        assert es[j] == f.payload;
      }
    } else {
      assert f in Delivery(clients, unreachable, es[|es| - 1]);
    }
  }

  /** A firing whose write succeeded is handed to notification. */
  lemma {:induction false} FiredIsAlerted(ds: seq<Disposition>, i: int)
    requires 0 <= i < |ds| && ds[i].Fired?
    ensures ds[i].eval in Alerts(ds)
    decreases |ds|
  {
    var p := ds[..|ds| - 1];
    if i < |ds| - 1 {
      FiredIsAlerted(p, i);
    }
  }

  /** The log holds the frame carrying `e` on its owner's registered connection. */
  predicate OwnerFrameIn(clients: map<string, ConnId>, unreachable: set<ConnId>, e: TriggerEvaluation,
                         log: seq<Frame<TriggerEvaluation>>)
    requires e.userId in clients
  {
    Frame(e.userId, clients[e.userId], e, clients[e.userId] !in unreachable) in log
  }

  /** A notified evaluation whose owner is registered gets a frame on the owner's connection. */
  lemma {:induction false} AlertedOwnerGetsFrame(clients: map<string, ConnId>, unreachable: set<ConnId>,
                                                 es: seq<TriggerEvaluation>, e: TriggerEvaluation)
    requires e in es && e.userId in clients
    ensures OwnerFrameIn(clients, unreachable, e, Deliveries(clients, unreachable, es))
    decreases |es|
  {
    var p := es[..|es| - 1];
    if e != es[|es| - 1] {
      var j :| 0 <= j < |es| && es[j] == e;
      assert p[j] == e;
      AlertedOwnerGetsFrame(clients, unreachable, p, e);
    }
  }

  /**
   * A candidate that is active, not cooling down, whose stock is read, whose
   * condition holds and whose write succeeds is stored with its firing
   * stamped (no later candidate sharing its id) and notified: its owner, when
   * connected, gets a frame carrying the evaluation.
   */
  lemma QualifyingTriggerFires(ts: seq<StockTrigger>, stocksTable: string, stocks: map<string, Stock>,
                               faults: Database.Faults, price: real, now: int, m: map<string, StockTrigger>,
                               clients: map<string, ConnId>, unreachable: set<ConnId>, i: int,
                               ds: seq<Disposition>, e: TriggerEvaluation)
    requires 0 <= i < |ts|
    requires ts[i].isActive && !CoolingDown(ts[i], now)
    requires Database.GetStock(stocksTable, stocks, faults, ts[i].stockId).Success?
    requires e == EvaluateTrigger(ts[i], stocks[ts[i].stockId], price, now) && e.triggered
    requires ts[i].triggerId !in faults.triggerWrites
    requires forall j | i < j < |ts| :: ts[j].triggerId != ts[i].triggerId
    requires ds == Dispositions(ts, stocksTable, stocks, faults, price, now)
    ensures ts[i].triggerId in Persist(m, ds)
    ensures Persist(m, ds)[ts[i].triggerId] == ts[i].(lastTrigger := Some(now), updatedAt := now)
    ensures e in Alerts(ds)
    ensures e.userId in clients ==> OwnerFrameIn(clients, unreachable, e, Deliveries(clients, unreachable, Alerts(ds)))
  {
    assert ds[i] == Fired(ts[i].(lastTrigger := Some(now), updatedAt := now), e);
    forall j | i < j < |ds| && ds[j].Fired? ensures ds[j].saved.triggerId != ds[i].saved.triggerId {
      assert ds[j] == Dispose(ts[j], stocksTable, stocks, faults, price, now);
    }
    PersistStoresLastFiring(m, ds, i);
    FiredIsAlerted(ds, i);
    if e.userId in clients {
      AlertedOwnerGetsFrame(clients, unreachable, Alerts(ds), e);
    }
  }

  /**
   * A candidate whose every occurrence is inactive or cooling down is
   * neither rewritten nor notified.
   */
  lemma SkippedTriggerUntouched(ts: seq<StockTrigger>, stocksTable: string, stocks: map<string, Stock>,
                                faults: Database.Faults, price: real, now: int,
                                m: map<string, StockTrigger>, k: string)
    requires forall i | 0 <= i < |ts| && ts[i].triggerId == k :: !ts[i].isActive || CoolingDown(ts[i], now)
    ensures var ds := Dispositions(ts, stocksTable, stocks, faults, price, now);
      && (k in Persist(m, ds) <==> k in m)
      && (k in m ==> Persist(m, ds)[k] == m[k])
      && (forall e | e in Alerts(ds) :: e.triggerId != k)
  {
    var ds := Dispositions(ts, stocksTable, stocks, faults, price, now);
    PersistTouchesOnlyFired(m, ds, k);
    forall e | e in Alerts(ds) ensures e.triggerId != k {
      AlertsAreSavedFirings(ds, e);
    }
  }

  /**
   * The cooldown test scenario: an active upper-limit trigger with a
   * one-minute cooldown that never fired fires at a price above its
   * threshold; the saved record is held back at the same minute and fires
   * again two minutes later.
   */
  lemma CooldownScenario(t: StockTrigger, stocksTable: string, stocks: map<string, Stock>,
                         faults: Database.Faults, now: int)
    requires t.isActive && t.triggerType == PriceUpperLimit && t.priceThreshold == 2900.0
    requires t.cooldownMinutes == 1 && t.lastTrigger.None?
    requires stocksTable != "" && t.stockId in stocks && t.stockId !in faults.stockReads
    requires t.triggerId !in faults.triggerWrites
    ensures var first := Dispose(t, stocksTable, stocks, faults, 2950.0, now);
      && first.Fired?
      && Dispose(first.saved, stocksTable, stocks, faults, 2950.0, now) == SkippedCooling
      && Dispose(first.saved, stocksTable, stocks, faults, 2950.0, now + 2).Fired?
  {
    NeverFiredNotCooling(t, now);
    var saved := t.(lastTrigger := Some(now), updatedAt := now);
    CoolingDownIff(saved, now);
    CoolingDownIff(saved, now + 2);
  }

  // ---------------------------------------------------------------------
  // Trigger-id list upkeep

  /** Position of the first occurrence of `id`. */
  function IndexOf(ids: seq<string>, id: string): (k: nat)
    requires id in ids
    ensures k < |ids| && ids[k] == id && id !in ids[..k]
  {
    if ids[0] == id then 0
    else
      var k := IndexOf(ids[1..], id);
      assert ids[..k + 1] == [ids[0]] + ids[1..][..k];
      1 + k
  }

  /** `ids` with its first occurrence of `id` cut out; unchanged when `id` is absent. */
  function RemoveFirst(ids: seq<string>, id: string): (r: seq<string>)
    ensures id !in ids ==> r == ids
    ensures id in ids ==> |r| == |ids| - 1
  {
    if id in ids then var k := IndexOf(ids, id); ids[..k] + ids[k + 1..] else ids
  }

  /** Exactly one occurrence of `id` goes, when there is one. */
  lemma RemoveFirstCount(ids: seq<string>, id: string)
    ensures multiset(RemoveFirst(ids, id)) == multiset(ids) - multiset{id}
  {
    if id in ids {
      var k := IndexOf(ids, id);
      assert ids == ids[..k] + [id] + ids[k + 1..];
    } else {
      assert multiset(ids)[id] == 0;
    }
  }

  /** Removal keeps the other ids in their order: those before the cut, then those after. */
  lemma RemoveFirstKeepsOrder(ids: seq<string>, id: string)
    requires id in ids
    ensures var r := RemoveFirst(ids, id); var k := IndexOf(ids, id);
      && |r| == |ids| - 1
      && (forall j | 0 <= j < k :: r[j] == ids[j])
      && (forall j | k <= j < |r| :: r[j] == ids[j + 1])
  {
    var k := IndexOf(ids, id);
    var front, back := ids[..k], ids[k + 1..];
    assert RemoveFirst(ids, id) == front + back;
    assert |front + back| == |ids| - 1;
    forall j | 0 <= j < k ensures (front + back)[j] == ids[j] {
      assert (front + back)[j] == front[j];
    }
    forall j | k <= j < |ids| - 1 ensures (front + back)[j] == ids[j + 1] {
      assert (front + back)[j] == back[j - k];
    }
  }

  /** Appending a new id on create and removing it on delete gives back the original list. */
  lemma AppendThenRemove(ids: seq<string>, id: string)
    requires id !in ids
    ensures RemoveFirst(ids + [id], id) == ids
  {
    var all := ids + [id];
    assert all[|ids|] == id;
    assert all[..|ids|] == ids;
  }

  /** The loop that finds the id in the stock's list, splices it out and stops. */
  method RemoveTriggerId(ids: seq<string>, id: string) returns (r: seq<string>)
    ensures r == RemoveFirst(ids, id)
  {
    r := ids;
    var i := 0;
    while i < |ids|
      invariant 0 <= i <= |ids|
      invariant id !in ids[..i]
      invariant r == ids
    {
      if ids[i] == id {
        r := ids[..i] + ids[i + 1..];
        break;
      }
      assert ids[..i + 1] == ids[..i] + [ids[i]];
      i := i + 1;
    }
    assert i == |ids| ==> ids[..i] == ids;
  }

  /** The price-cache key of an instrument. */
  function CacheKey(symbol: string, exchange: string): (k: string)
    ensures |k| == |symbol| + 1 + |exchange|
    ensures k[..|symbol|] == symbol && k[|symbol|] == ':' && k[|symbol| + 1..] == exchange
  {
    symbol + ":" + exchange
  }

  /** Instruments whose symbols hold no ':' never share a cache entry. */
  lemma CacheKeyInjective(s1: string, e1: string, s2: string, e2: string)
    requires ':' !in s1 && ':' !in s2
    ensures CacheKey(s1, e1) == CacheKey(s2, e2) <==> s1 == s2 && e1 == e2
  {
    var k1, k2 := CacheKey(s1, e1), CacheKey(s2, e2);
    if k1 == k2 {
      assert |s1| == |s2|;
    }
  }

  /** The trigger service: the store, the push hub and the last price seen per instrument. */
  class Service {
    const db: Database.Database
    const ws: MarketWebSocket<TriggerEvaluation>
    var priceCache: map<string, real>

    constructor (db: Database.Database, ws: MarketWebSocket<TriggerEvaluation>)
      ensures this.db == db && this.ws == ws && priceCache == map[]
    {
      this.db := db;
      this.ws := ws;
      priceCache := map[];
    }

    /**
     * Stores the trigger under a fresh id and appends that id to its stock's
     * list. A failed trigger write stops everything; a failed stock lookup
     * or write is returned, with the trigger already stored.
     */
    method CreateTrigger(t: StockTrigger, freshId: string, now: int, faults: Database.Faults)
      returns (r: Outcome<Database.DbError>)
      requires db.Valid()
      modifies db`triggers, db`stocks
      ensures db.Valid()
      ensures freshId in faults.triggerWrites ==>
        r == Fail(Database.WriteFailed) && db.triggers == old(db.triggers) && db.stocks == old(db.stocks)
      ensures freshId !in faults.triggerWrites ==>
        db.triggers == old(db.triggers)[freshId := t.(triggerId := freshId, createdAt := now, updatedAt := now, lastTrigger := None)]
      ensures freshId !in faults.triggerWrites &&
              Database.GetStock(db.stocksTable, old(db.stocks), faults, t.stockId).Failure? ==>
        r == Fail(Database.GetStock(db.stocksTable, old(db.stocks), faults, t.stockId).error) &&
        db.stocks == old(db.stocks)
      ensures freshId !in faults.triggerWrites &&
              Database.GetStock(db.stocksTable, old(db.stocks), faults, t.stockId).Success? &&
              t.stockId in faults.stockWrites ==>
        r == Fail(Database.WriteFailed) && db.stocks == old(db.stocks)
      ensures freshId !in faults.triggerWrites &&
              Database.GetStock(db.stocksTable, old(db.stocks), faults, t.stockId).Success? &&
              t.stockId !in faults.stockWrites ==>
        var s := old(db.stocks)[t.stockId];
        r == Pass && db.stocks == old(db.stocks)[t.stockId := s.(triggers := s.triggers + [freshId], lastUpdated := now)]
    {
      var created;
      r, created := db.CreateTrigger(t, freshId, now, faults);
      if r.Fail? {
        return;
      }
      var lookup := Database.GetStock(db.stocksTable, db.stocks, faults, created.stockId);
      if lookup.Failure? {
        return Fail(lookup.error);
      }
      var stock := lookup.value;
      stock := stock.(triggers := stock.triggers + [created.triggerId]);
      r := db.UpdateStock(stock, now, faults);
    }

    /**
     * Pushes the evaluation to its owner; an offline owner or a failed
     * write is only logged.
     */
    method NotifyTrigger(e: TriggerEvaluation, unreachable: set<ConnId>)
      modifies ws`written
      ensures ws.written == old(ws.written) + Delivery(ws.clients, unreachable, e)
    {
      var _ := ws.SendMessage(e.userId, e, unreachable);
    }

    /**
     * One pass of the update loop: skips an inactive or cooling trigger or
     * one whose stock cannot be read; otherwise evaluates it and, when it
     * fires, saves the firing time and notifies the owner only if the save
     * succeeded.
     */
    method CheckTrigger(trigger: StockTrigger, price: real, now: int, faults: Database.Faults,
                        unreachable: set<ConnId>)
      requires db.Valid()
      modifies db`triggers, ws`written
      ensures db.Valid()
      ensures var d := Dispose(trigger, db.stocksTable, db.stocks, faults, price, now);
        && db.triggers == PersistOne(old(db.triggers), d)
        && ws.written == old(ws.written) + (if d.Fired? then Delivery(ws.clients, unreachable, d.eval) else [])
    {
      if !trigger.isActive {
        return;
      }
      if CoolingDown(trigger, now) {
        return;
      }
      var lookup := Database.GetStock(db.stocksTable, db.stocks, faults, trigger.stockId);
      if lookup.Failure? {
        return;
      }
      var evaluation := EvaluateTrigger(trigger, lookup.value, price, now);
      if evaluation.triggered {
        var fired := trigger.(lastTrigger := Some(now));
        var err := db.UpdateTrigger(fired, now, faults);
        if err.Fail? {
          return;
        }
        NotifyTrigger(evaluation, unreachable);
      }
    }

    /** The update loop: every candidate in turn, in the order the store returned them. */
    method CheckTriggers(triggers: seq<StockTrigger>, price: real, now: int, faults: Database.Faults,
                         unreachable: set<ConnId>)
      requires db.Valid()
      modifies db`triggers, ws`written
      ensures db.Valid()
      ensures var ds := Dispositions(triggers, db.stocksTable, db.stocks, faults, price, now);
        && db.triggers == Persist(old(db.triggers), ds)
        && ws.written == old(ws.written) + Deliveries(ws.clients, unreachable, Alerts(ds))
    {
      ghost var ds := Dispositions(triggers, db.stocksTable, db.stocks, faults, price, now);
      ghost var table := old(db.triggers);
      ghost var log := old(ws.written);
      var i := 0;
      while i < |triggers|
        invariant 0 <= i <= |triggers|
        invariant db.Valid()
        invariant db.triggers == Persist(table, ds[..i])
        invariant ws.written == log + Deliveries(ws.clients, unreachable, Alerts(ds[..i]))
      {
        LoopStep(table, log, ds, i, ws.clients, unreachable);
        CheckTrigger(triggers[i], price, now, faults, unreachable);
        i := i + 1;
      }
      assert ds[..|triggers|] == ds;
    }

    /**
     * Records the price, and while the exchange is open disposes of every
     * candidate trigger in turn. `fetched` is the store's answer to the query
     * by symbol and exchange; its error is returned. Skips, failed lookups
     * and failed writes of single triggers are only logged.
     */
    method UpdatePrice(symbol: string, exchange: string, price: real, clock: Clock,
                       fetched: Result<seq<StockTrigger>, Database.DbError>,
                       faults: Database.Faults, unreachable: set<ConnId>)
      returns (r: Outcome<Database.DbError>)
      requires db.Valid()
      modifies this`priceCache, db`triggers, ws`written
      ensures db.Valid()
      ensures priceCache == old(priceCache)[CacheKey(symbol, exchange) := price]
      ensures !IsMarketOpen(exchange, clock) ==>
        r == Pass && db.triggers == old(db.triggers) && ws.written == old(ws.written)
      ensures IsMarketOpen(exchange, clock) && fetched.Failure? ==>
        r == Fail(fetched.error) && db.triggers == old(db.triggers) && ws.written == old(ws.written)
      ensures IsMarketOpen(exchange, clock) && fetched.Success? ==>
        var ds := Dispositions(fetched.value, db.stocksTable, db.stocks, faults, price, clock.minute);
        && r == Pass
        && db.triggers == Persist(old(db.triggers), ds)
        && ws.written == old(ws.written) + Deliveries(ws.clients, unreachable, Alerts(ds))
    {
      priceCache := priceCache[CacheKey(symbol, exchange) := price];

      if !IsMarketOpen(exchange, clock) {
        return Pass;
      }
      if fetched.Failure? {
        return Fail(fetched.error);
      }

      CheckTriggers(fetched.value, price, clock.minute, faults, unreachable);
      r := Pass;
    }

    /**
     * Looks up the trigger and its stock, writes the stock back without the
     * trigger's id (first occurrence only), and only then deletes the
     * trigger. Any lookup or write error is returned at once.
     */
    method DeleteTrigger(triggerId: string, now: int, faults: Database.Faults)
      returns (r: Outcome<Database.DbError>)
      requires db.Valid()
      modifies db`triggers, db`stocks
      ensures db.Valid()
      ensures Database.GetTrigger(old(db.triggers), faults, triggerId).Failure? ==>
        r == Fail(Database.GetTrigger(old(db.triggers), faults, triggerId).error) &&
        db.triggers == old(db.triggers) && db.stocks == old(db.stocks)
      ensures Database.GetTrigger(old(db.triggers), faults, triggerId).Success? ==>
        var sid := old(db.triggers)[triggerId].stockId;
        var lookup := Database.GetStock(db.stocksTable, old(db.stocks), faults, sid);
        && (lookup.Failure? ==>
              r == Fail(lookup.error) && db.triggers == old(db.triggers) && db.stocks == old(db.stocks))
        && (lookup.Success? && sid in faults.stockWrites ==>
              r == Fail(Database.WriteFailed) && db.triggers == old(db.triggers) && db.stocks == old(db.stocks))
        && (lookup.Success? && sid !in faults.stockWrites ==>
              var s := old(db.stocks)[sid];
              && db.stocks == old(db.stocks)[sid := s.(triggers := RemoveFirst(s.triggers, triggerId), lastUpdated := now)]
              && (triggerId in faults.triggerWrites ==> r == Fail(Database.WriteFailed) && db.triggers == old(db.triggers))
              && (triggerId !in faults.triggerWrites ==> r == Pass && db.triggers == old(db.triggers) - {triggerId}))
    {
      var found := Database.GetTrigger(db.triggers, faults, triggerId);
      if found.Failure? {
        return Fail(found.error);
      }
      var trigger := found.value;
      var lookup := Database.GetStock(db.stocksTable, db.stocks, faults, trigger.stockId);
      if lookup.Failure? {
        return Fail(lookup.error);
      }
      var stock := lookup.value;
      var remaining := RemoveTriggerId(stock.triggers, triggerId);
      stock := stock.(triggers := remaining);
      r := db.UpdateStock(stock, now, faults);
      if r.Fail? {
        return;
      }
      r := db.DeleteTrigger(triggerId, faults);
    }
  }
}
