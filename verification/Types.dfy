/** Vocabulary shared by every part of the model: sides, order types, the inbound
    message and the outbound report. */
module Types {

  datatype Side = Buy | Sell

  datatype Option<+T> = None | Some(value: T)

  /** 2^32: `Quantity`, `total_qty` and `order_count` are 32-bit words. */
  const TWO_32: int := 0x1_0000_0000

  type U32 = x: int | 0 <= x < TWO_32

  // Wire values of `InboundOrderMsg::Kind` and `OrderType`.
  const NEW_ORDER := 0
  const CANCEL := 1
  const MODIFY := 2

  const LIMIT := 0
  const MARKET := 1
  const IOC := 2
  const FOK := 3

  /** An inbound command.  `kind`, `side` and `orderType` are raw bytes: the engine
      casts them without a range check. */
  datatype Msg = Msg(
    kind: nat, orderId: nat, price: int, quantity: U32,
    instrumentId: nat, clientId: nat, side: nat, orderType: nat)

  /** Every byte other than 0 behaves as a sell: the code only ever asks `== Buy`. */
  function SideOf(raw: nat): Side {
    if raw == 0 then Buy else Sell
  }

  function Opposite(side: Side): Side {
    if side == Buy then Sell else Buy
  }

  datatype ReportKind = Fill | PartialFill | CancelAck | Reject

  /** An execution report without its timestamp. */
  datatype Report = Report(
    kind: ReportKind, orderId: nat, counterpart: nat, price: int, quantity: nat, leaves: nat)

  function RejectReport(id: nat, original: nat): Report {
    Report(Reject, id, 0, 0, 0, original)
  }

  function CancelReport(id: nat, leaves: nat): Report {
    Report(CancelAck, id, 0, 0, 0, leaves)
  }

  function Min(a: nat, b: nat): nat {
    if a < b then a else b
  }

  /** The price grid of one instrument: `min`, `min + tick`, ..., `max`. */
  datatype Grid = Grid(min: int, max: int, tick: int) {

    predicate WellFormed() {
      min < max && tick > 0 && (max - min) % tick == 0
    }

    predicate IsValidPrice(p: int)
      requires tick > 0
    {
      min <= p <= max && (p - min) % tick == 0
    }
  }
}
