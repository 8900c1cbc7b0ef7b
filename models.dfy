/**
 * The two records kept in the store: a portfolio entry and a price trigger.
 * Timestamps are whole minutes on one clock; prices, thresholds and
 * multipliers are reals.
 */
module Models {
  import opened Wrappers

  /** One user's holding of one symbol; `triggers` lists the ids of the triggers set on it. */
  datatype Stock = Stock(
    stockId: string,
    userId: string,
    symbol: string,
    name: string,
    exchange: string,
    currency: string,
    price: real,
    lastPrice: real,
    addedAt: int,
    lastUpdated: int,
    triggers: seq<string>)

  /**
   * A standing condition owned by one user on one stock. `lastTrigger` is
   * None for the zero time a new trigger is stored with ("never fired").
   */
  datatype StockTrigger = StockTrigger(
    triggerId: string,
    stockId: string,
    userId: string,
    triggerType: string,
    isActive: bool,
    createdAt: int,
    updatedAt: int,
    lastTrigger: Option<int>,
    priceThreshold: real,
    volumeMultiplier: real,
    notificationChannels: seq<string>,
    cooldownMinutes: int)
}
