/** The paper-trading engine: from a position and one input to the next position, or a refusal.
    Follows backend/app/domain/paper/engine.py, with the parts of rules.py and model.py it needs. */
module PaperEngine {
  import opened Wrappers
  import opened PaperEvents

  datatype Direction = LONG | SHORT
  datatype State = PENDING_ENTRY | OPEN | PARTIALLY_CLOSED | AMBIGUOUS_HALTED | CLOSED | CANCELLED | REJECTED

  datatype Refusal =
    | PRODUCT_NOT_CALCULABLE | UNSUPPORTED_ASSET_CLASS | POINT_VALUE_UNVERIFIED | SYMBOL_MISMATCH
    | RISK_NOT_ALLOWED | QUANTITY_EXCEEDS_RISK | LEVELS_NOT_EXECUTABLE | INVALID_TRANSITION
    | INVALID_OBSERVATION | OUT_OF_ORDER | CONFLICTING_OBSERVATION | OBSERVATION_BEFORE_DECISION
    | FILL_NOT_POSITIVE | BREAKEVEN_NOT_PROTECTIVE | REPLAY_DIVERGED

  datatype TargetSpec = TargetSpec(price: real, quantity: int)
  datatype TargetState = TargetState(spec: TargetSpec, filled: bool, fillPrice: Option<real>)

  /** `halts`: an ambiguous bar freezes the position instead of assuming its stop came first. */
  datatype Policy = Policy(halts: bool, slippage: real, feePerUnit: Option<real>)

  datatype Spec = Spec(
    instrument: string, direction: Direction, quantity: int, intendedEntry: real, stop: real,
    targets: seq<TargetSpec>, timeframe: nat, decisionTime: int, policy: Policy, detail: string)

  datatype Approval = Approval(allowed: bool, units: Option<int>)

  /** What the engine asks the product: whether it can be calculated, whether a level is
      executable, and what an exit is worth (`None` where the formula refuses its inputs). */
  datatype Product = Product(
    refuses: Option<Refusal>, onGrid: (real, real) -> bool, gross: (Direction, real, real, int) -> Option<real>)

  datatype Candle = Candle(instrument: string, timeframe: nat, closed: bool, openTime: int, prices: Prices)

  datatype Position = Position(
    spec: Spec, approval: Approval, state: State, remaining: int, stop: real, targets: seq<TargetState>,
    events: seq<Event>, entryFill: Option<real>, entryTime: Option<int>, gross: real, fees: Option<real>,
    lastBarTime: Option<int>, lastMark: Option<real>, closePending: bool, barsApplied: nat)

  predicate IsTerminal(state: State) {
    state in {CLOSED, CANCELLED, REJECTED}
  }

  predicate HasExposure(state: State) {
    state in {OPEN, PARTIALLY_CLOSED, AMBIGUOUS_HALTED}
  }

  function Units(targets: seq<TargetSpec>): int {
    if targets == [] then 0 else targets[0].quantity + Units(targets[1..])
  }

  /** The level a target has to lie beyond. */
  function Previous(spec: Spec, i: nat): real
    requires i < |spec.targets|
  {
    if i == 0 then spec.intendedEntry else spec.targets[i - 1].price
  }

  /** The checks a specification passes before it exists. */
  predicate ValidSpec(spec: Spec) {
    && spec.quantity >= 1 && spec.intendedEntry > 0.0 && spec.stop > 0.0
    && 1 <= |spec.targets| <= 5 && Units(spec.targets) <= spec.quantity
    && (if spec.direction == LONG then spec.stop < spec.intendedEntry else spec.stop > spec.intendedEntry)
    && (forall i | 0 <= i < |spec.targets| ::
          && spec.targets[i].price > 0.0 && spec.targets[i].quantity >= 1
          && if spec.direction == LONG then spec.targets[i].price > Previous(spec, i)
             else spec.targets[i].price < Previous(spec, i))
    && spec.policy.slippage >= 0.0
    && (spec.policy.feePerUnit.Some? ==> spec.policy.feePerUnit.value >= 0.0)
  }

  // ---------------------------------------------------------------- rules

  function AdversePrice(price: real, points: real, direction: Direction, entering: bool): real {
    if (direction == LONG) == entering then price + points else price - points
  }

  function FeeFor(policy: Policy, quantity: int): Option<real> {
    if policy.feePerUnit.None? then None else Some(policy.feePerUnit.value * quantity as real)
  }

  /** At or beyond a level against the position: at or below for a long. */
  predicate AtOrWorse(spec: Spec, price: real, level: real) {
    if spec.direction == LONG then price <= level else price >= level
  }

  predicate AtOrBetter(spec: Spec, price: real, level: real) {
    if spec.direction == LONG then price >= level else price <= level
  }

  // ---------------------------------------------------------------- opening

  function OpenPosition(spec: Spec, approval: Approval, product: Product): Result<Position, Refusal> {
    if product.refuses.Some? then Err(product.refuses.value)
    else if !approval.allowed || approval.units.None? then Err(RISK_NOT_ALLOWED)
    else if spec.quantity > approval.units.value then Err(QUANTITY_EXCEEDS_RISK)
    else if !product.onGrid(spec.intendedEntry, spec.stop)
            || exists t :: t in spec.targets && !product.onGrid(t.price, spec.stop) then Err(LEVELS_NOT_EXECUTABLE)
    else
      Ok(Position(
        spec, approval, PENDING_ENTRY, 0, spec.stop, Unfilled(spec.targets),
        [Event(1, POSITION_CREATED, Some(spec.decisionTime), CreationData(spec))],
        None, None, 0.0, if spec.policy.feePerUnit.Some? then Some(0.0) else None,
        None, None, false, 0))
  }

  function Unfilled(targets: seq<TargetSpec>): seq<TargetState> {
    if targets == [] then [] else [TargetState(targets[0], false, None)] + Unfilled(targets[1..])
  }

  function CreationData(spec: Spec): Data {
    NO_DATA.(feeMode := Some(if spec.policy.feePerUnit.Some? then "USER_DEFINED_PER_UNIT" else "NOT_MODELLED"),
             quantity := Some(spec.quantity), detail := spec.detail)
  }

  // ---------------------------------------------------------------- what one bar does

  function Emit(b: Position, kind: Kind, time: Option<int>, data: Data): Position {
    b.(events := b.events + [Event(|b.events| + 1, kind, time, data)])
  }

  function Charge(b: Position, fee: Option<real>): Position {
    if fee.None? then b
    else b.(fees := Some((if b.fees.Some? then b.fees.value else 0.0) + fee.value))
  }

  /** The bar made the plan impossible. */
  function Rejected(b: Position, time: int, fill: real): Position {
    Emit(b, ENTRY_REJECTED, Some(time), NO_DATA.(fillPrice := Some(fill))).(state := REJECTED)
  }

  function Entered(b: Position, time: int, fill: real): Position {
    var fee := FeeFor(b.spec.policy, b.spec.quantity);
    Emit(Charge(b, fee).(entryFill := Some(fill), entryTime := Some(time), remaining := b.spec.quantity, state := OPEN),
         ENTRY_FILLED, Some(time), EntryData(fill, b.spec.quantity, fee))
  }

  function EntryData(fill: real, quantity: int, fee: Option<real>): Data {
    NO_DATA.(fillPrice := Some(fill), quantity := Some(quantity), fee := fee)
  }

  function Enter(b: Position, bar: Candle): Result<Position, Refusal> {
    if b.targets == [] then Err(INVALID_TRANSITION)
    else
      var fill := AdversePrice(bar.prices.open, b.spec.policy.slippage, b.spec.direction, true);
      if AtOrWorse(b.spec, fill, b.stop) || AtOrBetter(b.spec, fill, b.targets[0].spec.price) then
        Ok(Rejected(b, bar.openTime, fill))
      else if fill <= 0.0 then Err(FILL_NOT_POSITIVE)
      else Ok(Entered(b, bar.openTime, fill))
  }

  function ExitData(fill: real, quantity: int, gross: real, fee: Option<real>): Data {
    NO_DATA.(fillPrice := Some(fill), quantity := Some(quantity), grossPnl := Some(gross), fee := fee)
  }

  /** Books an exit and records it under `kind`. */
  function Booked(b: Position, kind: Kind, time: int, fill: real, quantity: int, gross: real): Position {
    var fee := FeeFor(b.spec.policy, quantity);
    Emit(Charge(b, fee).(gross := b.gross + gross, remaining := b.remaining - quantity),
         kind, Some(time), ExitData(fill, quantity, gross, fee))
  }

  function Exit(
      b: Position, product: Product, kind: Kind, bar: Candle, fill: real, quantity: int): Result<Position, Refusal> {
    if fill <= 0.0 then Err(FILL_NOT_POSITIVE)
    else if b.entryFill.None? then Err(INVALID_TRANSITION)
    else if quantity < 1 || quantity > b.remaining then Err(INVALID_TRANSITION)
    else
      var gross := product.gross(b.spec.direction, b.entryFill.value, fill, quantity);
      if gross.None? then Err(FILL_NOT_POSITIVE)
      else Ok(Booked(b, kind, bar.openTime, fill, quantity, gross.value))
  }

  function ExitStop(b: Position, product: Product, bar: Candle, reference: real): Result<Position, Refusal> {
    Exit(b, product, STOP_FILLED, bar,
         AdversePrice(reference, b.spec.policy.slippage, b.spec.direction, false), b.remaining)
  }

  function ManualExit(b: Position, product: Product, bar: Candle): Result<Position, Refusal> {
    var b :- Exit(b, product, MANUAL_EXIT_FILLED, bar,
                  AdversePrice(bar.prices.open, b.spec.policy.slippage, b.spec.direction, false), b.remaining);
    Ok(b.(closePending := false))
  }

  function MarkFilled(b: Position, index: nat): Position
    requires index < |b.targets|
  {
    var target := b.targets[index];
    var filled := target.(filled := true, fillPrice := Some(target.spec.price));
    var b := b.(targets := b.targets[..index] + [filled] + b.targets[index + 1..]);
    if b.remaining > 0 && b.state == OPEN then b.(state := PARTIALLY_CLOSED) else b
  }

  function ExitTarget(b: Position, product: Product, bar: Candle, index: nat): Result<Position, Refusal>
    requires index < |b.targets|
  {
    var target := b.targets[index];
    if target.spec.quantity > b.remaining then Err(INVALID_TRANSITION)
    else
      var b :- Exit(b, product, TARGET_FILLED, bar, target.spec.price, target.spec.quantity);
      Ok(MarkFilled(b, index))
  }

  /** The targets the open is already at or beyond, in order, until one it is not. */
  function FillAtOpen(b: Position, product: Product, bar: Candle, index: nat): Result<Position, Refusal>
    decreases |b.targets| - index
  {
    if index >= |b.targets| then Ok(b)
    else if b.targets[index].filled || b.remaining == 0 then FillAtOpen(b, product, bar, index + 1)
    else if !AtOrBetter(b.spec, bar.prices.open, b.targets[index].spec.price) then Ok(b)
    else
      ExitTargetKeepsShape(b, product, bar, index);
      var b :- ExitTarget(b, product, bar, index);
      FillAtOpen(b, product, bar, index + 1)
  }

  function AtOpen(b: Position, product: Product, bar: Candle): Result<Position, Refusal> {
    if AtOrWorse(b.spec, bar.prices.open, b.stop) then ExitStop(b, product, bar, bar.prices.open)
    else FillAtOpen(b, product, bar, 0)
  }

  function BestOf(spec: Spec, bar: Candle): real {
    if spec.direction == LONG then bar.prices.high else bar.prices.low
  }

  function WorstOf(spec: Spec, bar: Candle): real {
    if spec.direction == LONG then bar.prices.low else bar.prices.high
  }

  predicate Touched(b: Position, bar: Candle, index: nat)
    requires index < |b.targets|
  {
    !b.targets[index].filled && AtOrBetter(b.spec, BestOf(b.spec, bar), b.targets[index].spec.price)
  }

  function TouchedFrom(b: Position, bar: Candle, index: nat): (r: seq<nat>)
    ensures forall k | 0 <= k < |r| :: index <= r[k] < |b.targets| && Touched(b, bar, r[k])
    ensures forall i, j | 0 <= i < j < |r| :: r[i] < r[j]
    decreases |b.targets| - index
  {
    if index >= |b.targets| then []
    else (if Touched(b, bar, index) then [index] else []) + TouchedFrom(b, bar, index + 1)
  }

  function FillTouched(b: Position, product: Product, bar: Candle, touched: seq<nat>): Result<Position, Refusal>
    requires forall k | 0 <= k < |touched| :: touched[k] < |b.targets|
    decreases |touched|
  {
    if touched == [] || b.remaining == 0 then Ok(b)
    else
      ExitTargetKeepsShape(b, product, bar, touched[0]);
      var b :- ExitTarget(b, product, bar, touched[0]);
      FillTouched(b, product, bar, touched[1..])
  }

  /** The bar reached the stop and a target, in an order nobody can know. */
  function Ambiguous(b: Position, time: int): Position {
    Emit(b, SAME_BAR_AMBIGUITY, Some(time),
         NO_DATA.(policy := Some(if b.spec.policy.halts then "HALT" else "STOP_FIRST")))
  }

  function Intrabar(b: Position, product: Product, bar: Candle): Result<Position, Refusal> {
    var stopTouched := AtOrWorse(b.spec, WorstOf(b.spec, bar), b.stop);
    var touched := TouchedFrom(b, bar, 0);
    if stopTouched && touched != [] then
      var b := Ambiguous(b, bar.openTime);
      if b.spec.policy.halts then Ok(b.(state := AMBIGUOUS_HALTED)) else ExitStop(b, product, bar, b.stop)
    else if stopTouched then ExitStop(b, product, bar, b.stop)
    else FillTouched(b, product, bar, touched)
  }

  function ClosingData(gross: real, fees: Option<real>): Data {
    NO_DATA.(realizedGross := Some(gross), feesTotal := fees,
             realizedNet := if fees.None? then None else Some(gross - fees.value))
  }

  function Finish(b: Position, bar: Candle): Position {
    if HasExposure(b.state) && b.remaining == 0 then
      Emit(b.(state := CLOSED), POSITION_CLOSED, Some(bar.openTime), ClosingData(b.gross, b.fees))
    else b
  }

  function BarEvents(events: seq<Event>): seq<Event> {
    if events == [] then []
    else if events[|events| - 1].kind == OBSERVATION_APPLIED then
      BarEvents(events[..|events| - 1]) + [events[|events| - 1]]
    else BarEvents(events[..|events| - 1])
  }

  function Build(b: Position): Position {
    var bars := BarEvents(b.events);
    if bars == [] then b
    else
      var last := bars[|bars| - 1];
      b.(lastBarTime := last.time,
         lastMark := if last.data.prices.Some? then Some(last.data.prices.value.close) else None,
         closePending := b.closePending && HasExposure(b.state), barsApplied := |bars|)
  }

  // ---------------------------------------------------------------- the inputs

  predicate ValidBar(spec: Spec, bar: Candle) {
    var p := bar.prices;
    && bar.instrument == spec.instrument && bar.timeframe == spec.timeframe && bar.closed
    && p.open > 0.0 && p.high > 0.0 && p.low > 0.0 && p.close > 0.0
    && p.low <= p.open <= p.high && p.low <= p.close <= p.high
  }

  /** The first bar applied with this open time. */
  function AppliedBar(events: seq<Event>, openTime: int): Option<Data> {
    if events == [] then None
    else if events[0].kind == OBSERVATION_APPLIED && events[0].time == Some(openTime) then Some(events[0].data)
    else AppliedBar(events[1..], openTime)
  }

  function BarData(bar: Candle): Data {
    NO_DATA.(prices := Some(bar.prices))
  }

  function BarRefusal(p: Position, bar: Candle): Option<Refusal> {
    if p.lastBarTime.Some? && bar.openTime < p.lastBarTime.value + p.spec.timeframe then Some(OUT_OF_ORDER)
    else if bar.openTime < p.spec.decisionTime then Some(OBSERVATION_BEFORE_DECISION)
    else if IsTerminal(p.state) then Some(INVALID_TRANSITION)
    else None
  }

  function StepBar(b: Position, bar: Candle, product: Product): Result<Position, Refusal> {
    if b.state == PENDING_ENTRY then
      var b :- Enter(b, bar);
      if b.state == OPEN then Intrabar(b, product, bar) else Ok(b)
    else if b.closePending then ManualExit(b, product, bar)
    else if b.state == AMBIGUOUS_HALTED then Ok(b)
    else
      var b :- AtOpen(b, product, bar);
      if b.remaining > 0 then Intrabar(b, product, bar) else Ok(b)
  }

  function ApplyNewBar(p: Position, bar: Candle, product: Product): Result<Position, Refusal> {
    var b := Emit(p, OBSERVATION_APPLIED, Some(bar.openTime), BarData(bar));
    var b :- StepBar(b, bar, product);
    Ok(Build(Finish(b, bar)))
  }

  function ApplyObservation(p: Position, bar: Candle, product: Product): Result<Position, Refusal> {
    if !ValidBar(p.spec, bar) then Err(INVALID_OBSERVATION)
    else if p.lastBarTime.Some? && bar.openTime <= p.lastBarTime.value then
      var previous := AppliedBar(p.events, bar.openTime);
      if previous.None? then Err(OUT_OF_ORDER)
      else if previous.value != BarData(bar) then Err(CONFLICTING_OBSERVATION)
      else Ok(p)
    else if BarRefusal(p, bar).Some? then Err(BarRefusal(p, bar).value)
    else ApplyNewBar(p, bar, product)
  }

  function RequestClose(p: Position): Result<Position, Refusal> {
    if p.closePending then Ok(p)
    else if !HasExposure(p.state) then Err(INVALID_TRANSITION)
    else Ok(Emit(p, CLOSE_REQUESTED, p.lastBarTime, NO_DATA.(quantity := Some(p.remaining))).(closePending := true))
  }

  function MoveStopToBreakeven(p: Position): Result<Position, Refusal> {
    if p.state != OPEN && p.state != PARTIALLY_CLOSED then Err(INVALID_TRANSITION)
    else if p.entryFill.None? || p.lastMark.None? then Err(INVALID_TRANSITION)
    else if p.stop == p.entryFill.value then Ok(p)
    else if AtOrWorse(p.spec, p.lastMark.value, p.entryFill.value) then Err(BREAKEVEN_NOT_PROTECTIVE)
    else
      var moved := Emit(p, STOP_MOVED_TO_BREAKEVEN, p.lastBarTime, NO_DATA.(fillPrice := p.entryFill));
      Ok(moved.(stop := p.entryFill.value))
  }

  function Cancel(p: Position): Result<Position, Refusal> {
    if p.state == CANCELLED then Ok(p)
    else if p.state != PENDING_ENTRY then Err(INVALID_TRANSITION)
    else Ok(Emit(p, POSITION_CANCELLED, None, NO_DATA).(state := CANCELLED))
  }

  datatype Input = Observe(bar: Candle) | CloseInput | BreakevenInput | CancelInput

  function ApplyInput(p: Position, item: Input, product: Product): Result<Position, Refusal> {
    match item
    case Observe(bar) => ApplyObservation(p, bar, product)
    case CloseInput => RequestClose(p)
    case BreakevenInput => MoveStopToBreakeven(p)
    case CancelInput => Cancel(p)
  }

  // ---------------------------------------------------------------- replay

  function ApplyAll(p: Position, inputs: seq<Input>, product: Product): Result<Position, Refusal> {
    if inputs == [] then Ok(p)
    else
      var p :- ApplyAll(p, inputs[..|inputs| - 1], product);
      ApplyInput(p, inputs[|inputs| - 1], product)
  }

  function Replay(spec: Spec, approval: Approval, product: Product, inputs: seq<Input>): Result<Position, Refusal> {
    var p :- OpenPosition(spec, approval, product);
    ApplyAll(p, inputs, product)
  }

  function BarFromEvent(spec: Spec, event: Event): Option<Candle> {
    if event.data.prices.None? || event.time.None? then None
    else Some(Candle(spec.instrument, spec.timeframe, true, event.time.value, event.data.prices.value))
  }

  /** What one ledger entry says was put in: nothing, for an entry the engine derived. */
  function InputOf(spec: Spec, event: Event): Result<seq<Input>, Refusal> {
    match event.kind
    case OBSERVATION_APPLIED =>
      var bar := BarFromEvent(spec, event);
      if bar.None? then Err(REPLAY_DIVERGED) else Ok([Observe(bar.value)])
    case CLOSE_REQUESTED => Ok([CloseInput])
    case STOP_MOVED_TO_BREAKEVEN => Ok([BreakevenInput])
    case POSITION_CANCELLED => Ok([CancelInput])
    case _ => Ok([])
  }

  function InputsFromEvents(spec: Spec, events: seq<Event>): Result<seq<Input>, Refusal> {
    if events == [] then Ok([])
    else
      var before :- InputsFromEvents(spec, events[..|events| - 1]);
      var last :- InputOf(spec, events[|events| - 1]);
      Ok(before + last)
  }

  function Rebuild(spec: Spec, approval: Approval, product: Product, events: seq<Event>): Result<Position, Refusal> {
    var inputs :- InputsFromEvents(spec, events);
    var p :- Replay(spec, approval, product, inputs);
    if p.events != events then Err(REPLAY_DIVERGED) else Ok(p)
  }

  // ---------------------------------------------------------------- shape

  lemma ExitTargetKeepsShape(b: Position, product: Product, bar: Candle, index: nat)
    requires index < |b.targets|
    ensures var r := ExitTarget(b, product, bar, index);
            r.Ok? ==> |r.value.targets| == |b.targets|
  {
  }
}
