/** A trade opportunity: the per-symbol configuration dictionary the strategy and the risk
    manager read (`symbol`, `entry`, `target`, `stop_loss`, `tick_size`, `base_increment`,
    `confidence`). */
module Trades {
  datatype Trade = Trade(
    symbol: string,
    entry: real,
    target: real,
    stopLoss: real,
    tickSize: real,
    baseIncrement: real,
    confidence: string)
}
