/** One entry of a paper position's ledger, as the engine writes it and the performance fold reads
    it. Follows `PaperEvent` and `PaperEventType` of backend/app/domain/paper/model.py. */
module PaperEvents {
  import opened Wrappers

  datatype Kind =
    | POSITION_CREATED | OBSERVATION_APPLIED | ENTRY_FILLED | ENTRY_REJECTED | TARGET_FILLED
    | STOP_FILLED | SAME_BAR_AMBIGUITY | CLOSE_REQUESTED | MANUAL_EXIT_FILLED
    | STOP_MOVED_TO_BREAKEVEN | POSITION_CANCELLED | POSITION_CLOSED

  /** The four prices and the volume of one closed bar. */
  datatype Prices = Prices(open: real, high: real, low: real, close: real, volume: real)

  /** An event's mapping, key by key: `None` where the key is absent or holds the empty text that
      stands for a value not modelled. `detail` stands for every key no rule here reads. */
  datatype Data = Data(
    feeMode: Option<string>, policy: Option<string>, grossPnl: Option<real>, fee: Option<real>,
    realizedGross: Option<real>, feesTotal: Option<real>, realizedNet: Option<real>,
    quantity: Option<int>, fillPrice: Option<real>, prices: Option<Prices>, detail: string)

  const NO_DATA := Data(None, None, None, None, None, None, None, None, None, None, "")

  datatype Event = Event(sequence: int, kind: Kind, time: Option<int>, data: Data)

  predicate IsExit(kind: Kind) {
    kind in {TARGET_FILLED, STOP_FILLED, MANUAL_EXIT_FILLED}
  }

  predicate IsFinancial(kind: Kind) {
    IsExit(kind)
    || kind in {POSITION_CREATED, ENTRY_FILLED, ENTRY_REJECTED, SAME_BAR_AMBIGUITY, POSITION_CANCELLED, POSITION_CLOSED}
  }
}
