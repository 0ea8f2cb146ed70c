/** Enumerations and records of internal/contracts/models.go that several components share. */
module Contracts {

  datatype Side = Long | Short | Flat

  datatype Instrument = Spot | Perp

  datatype MarginMode = Isolated | Cross
}

/** Order statuses and the payloads of the order journal. */
module OrderTypes {
  import opened Contracts
  import opened Wrappers

  datatype Status =
    | New | Preflight | Submitting | Acknowledged | PartiallyFilled | Filled
    | ProtectivePlaced | Closed | Canceled | Rejected | Failed | Unknown
    | ProtectiveFailed | Flattening

  datatype ProtectiveKind = StopLoss | TakeProfit | OtherKind

  datatype ProtectiveOrder = ProtectiveOrder(
    kind: ProtectiveKind,
    clientId: string,
    positionSide: Side,
    triggerPrice: real,
    sizeBase: real,
    reduceOnly: bool,
    fullClose: bool)

  datatype Intent = Intent(
    clientId: string,
    symbol: string,
    side: Side,
    instrument: Instrument,
    reduceOnly: bool,
    stopLoss: Option<real>,
    takeProfit: seq<real>)

  datatype Execution = Execution(status: Status, filledBase: real, protectiveOrders: seq<ProtectiveOrder>)

  datatype Position = Position(symbol: string, instrument: Instrument, side: Side, sizeBase: real)
}
