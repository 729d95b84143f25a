/** Where the paper engine's fills come from: every entry and exit of a bar is at the price, for the
    units and with the money the simulation rules state, and none is more favourable than they
    allow. The rules are those of backend/app/domain/paper/rules.py, the engine that of
    backend/app/domain/paper/engine.py as modelled in `PaperEngine`. */
module PaperPrices {
  import opened Wrappers
  import opened PaperEvents
  import opened PaperEngine
  import opened PaperReplay

  /** What a bar is worked through against: the plan, the stop as it stands, whether the position
      has yet to enter, and the price it entered or is about to enter at. */
  datatype Terms = Terms(spec: Spec, stop: real, entering: bool, entry: Option<real>)

  function EntryPrice(spec: Spec, bar: Candle): real {
    AdversePrice(bar.prices.open, spec.policy.slippage, spec.direction, true)
  }

  function ExitPrice(spec: Spec, reference: real): real {
    AdversePrice(reference, spec.policy.slippage, spec.direction, false)
  }

  function TermsOf(p: Position, bar: Candle): Terms {
    var entering := p.state == PENDING_ENTRY;
    Terms(p.spec, p.stop, entering, if entering then Some(EntryPrice(p.spec, bar)) else p.entryFill)
  }

  /** The bar reached the stop. */
  predicate StopReached(t: Terms, bar: Candle) {
    AtOrWorse(t.spec, WorstOf(t.spec, bar), t.stop)
  }

  /** The bar of a position already entered opened at or beyond the stop. */
  predicate OpenedBeyondStop(t: Terms, bar: Candle) {
    !t.entering && AtOrWorse(t.spec, bar.prices.open, t.stop)
  }

  /** A stop exits at its own price, or at the open that gapped through it. */
  function StopReference(t: Terms, bar: Candle): real {
    if OpenedBeyondStop(t, bar) then bar.prices.open else t.stop
  }

  /** Target `k` may fill in this bar: its price was traded, and unless the open was already there,
      the bar did not reach the stop as well. */
  predicate TargetMayFill(t: Terms, bar: Candle, k: nat)
    requires k < |t.spec.targets|
  {
    var price := t.spec.targets[k].price;
    && AtOrBetter(t.spec, BestOf(t.spec, bar), price)
    && ((!t.entering && AtOrBetter(t.spec, bar.prices.open, price)) || !StopReached(t, bar))
  }

  predicate RefusesEntry(spec: Spec, stop: real, fill: real)
    requires spec.targets != []
  {
    AtOrWorse(spec, fill, stop) || AtOrBetter(spec, fill, spec.targets[0].price)
  }

  /** The price and the units an exit of this kind may have. */
  ghost predicate ExitStated(t: Terms, bar: Candle, kind: Kind, fill: real, quantity: int) {
    match kind
    case TARGET_FILLED =>
      exists k :: 0 <= k < |t.spec.targets| && TargetMayFill(t, bar, k)
                  && fill == t.spec.targets[k].price && quantity == t.spec.targets[k].quantity
    case STOP_FILLED => StopReached(t, bar) && fill == ExitPrice(t.spec, StopReference(t, bar))
    case MANUAL_EXIT_FILLED => fill == ExitPrice(t.spec, bar.prices.open)
    case _ => false
  }

  /** A derived ledger entry says what the rules state for this bar, no more and nothing else. */
  ghost predicate Stated(t: Terms, product: Product, bar: Candle, e: Event) {
    && e.time == Some(bar.openTime)
    && match e.kind {
         case ENTRY_FILLED =>
           && t.entering && t.spec.targets != [] && !RefusesEntry(t.spec, t.stop, EntryPrice(t.spec, bar))
           && e.data == EntryData(EntryPrice(t.spec, bar), t.spec.quantity, FeeFor(t.spec.policy, t.spec.quantity))
         case ENTRY_REJECTED =>
           && t.entering && t.spec.targets != [] && RefusesEntry(t.spec, t.stop, EntryPrice(t.spec, bar))
           && e.data.fillPrice == Some(EntryPrice(t.spec, bar))
         case SAME_BAR_AMBIGUITY =>
           && StopReached(t, bar) && !OpenedBeyondStop(t, bar)
           && e.data == NO_DATA.(policy := Some(if t.spec.policy.halts then "HALT" else "STOP_FIRST"))
         case POSITION_CLOSED => true
         case _ =>
           && e.data.fillPrice.Some? && e.data.quantity.Some? && t.entry.Some?
           && ExitStated(t, bar, e.kind, e.data.fillPrice.value, e.data.quantity.value)
           && e.data.grossPnl ==
              product.gross(t.spec.direction, t.entry.value, e.data.fillPrice.value, e.data.quantity.value)
           && e.data.fee == FeeFor(t.spec.policy, e.data.quantity.value)
       }
  }

  /** The position is still one these terms are about. */
  ghost predicate Fits(t: Terms, b: Position) {
    && b.spec == t.spec && b.stop == t.stop
    && |b.targets| == |t.spec.targets| && (forall i | 0 <= i < |b.targets| :: b.targets[i].spec == t.spec.targets[i])
    && (b.entryFill.Some? ==> b.entryFill == t.entry)
  }

  /** From `a` to `b` only stated entries were added. */
  ghost predicate AddsStated(t: Terms, product: Product, bar: Candle, a: Position, b: Position) {
    && Fits(t, b) && a.events <= b.events
    && forall i | |a.events| <= i < |b.events| :: Stated(t, product, bar, b.events[i])
  }

  ghost predicate ResultStated(t: Terms, product: Product, bar: Candle, a: Position, r: Result<Position, Refusal>) {
    r.Ok? ==> AddsStated(t, product, bar, a, r.value)
  }

  lemma StatedOn(t: Terms, product: Product, bar: Candle, a: Position, b: Position, r: Result<Position, Refusal>)
    requires AddsStated(t, product, bar, a, b) && ResultStated(t, product, bar, b, r)
    ensures ResultStated(t, product, bar, a, r)
  {
    if r.Ok? {
      forall i | |a.events| <= i < |r.value.events| ensures Stated(t, product, bar, r.value.events[i]) {
        assert i < |b.events| ==> r.value.events[i] == b.events[i];
      }
    }
  }

  // ---------------------------------------------------------------- exits

  lemma ExitIsStated(t: Terms, b: Position, product: Product, kind: Kind, bar: Candle, fill: real, q: int)
    requires Fits(t, b) && IsExit(kind) && ExitStated(t, bar, kind, fill, q)
    ensures ResultStated(t, product, bar, b, Exit(b, product, kind, bar, fill, q))
  {
  }

  lemma StopInsideIsStated(t: Terms, b: Position, product: Product, bar: Candle)
    requires Fits(t, b) && StopReached(t, bar) && !OpenedBeyondStop(t, bar)
    ensures ResultStated(t, product, bar, b, ExitStop(b, product, bar, b.stop))
  {
    ExitIsStated(t, b, product, STOP_FILLED, bar, ExitPrice(t.spec, t.stop), b.remaining);
  }

  lemma StopAtOpenIsStated(t: Terms, b: Position, product: Product, bar: Candle)
    requires Fits(t, b) && OpenedBeyondStop(t, bar) && ValidBar(t.spec, bar)
    ensures ResultStated(t, product, bar, b, ExitStop(b, product, bar, bar.prices.open))
  {
    ExitIsStated(t, b, product, STOP_FILLED, bar, ExitPrice(t.spec, bar.prices.open), b.remaining);
  }

  lemma ManualExitIsStated(t: Terms, b: Position, product: Product, bar: Candle)
    requires Fits(t, b)
    ensures ResultStated(t, product, bar, b, ManualExit(b, product, bar))
  {
    ExitIsStated(t, b, product, MANUAL_EXIT_FILLED, bar, ExitPrice(t.spec, bar.prices.open), b.remaining);
  }

  lemma MarkedStillFits(t: Terms, a: Position, b: Position, product: Product, bar: Candle, i: nat)
    requires AddsStated(t, product, bar, a, b) && i < |b.targets|
    ensures AddsStated(t, product, bar, a, MarkFilled(b, i))
  {
    var r := MarkFilled(b, i);
    forall k | 0 <= k < |b.targets| ensures r.targets[k].spec == b.targets[k].spec {}
  }

  lemma TargetIsStated(t: Terms, b: Position, product: Product, bar: Candle, i: nat)
    requires Fits(t, b) && i < |b.targets| && TargetMayFill(t, bar, i)
    ensures ResultStated(t, product, bar, b, ExitTarget(b, product, bar, i))
  {
    var target := b.targets[i].spec;
    ExitIsStated(t, b, product, TARGET_FILLED, bar, target.price, target.quantity);
    var exit := Exit(b, product, TARGET_FILLED, bar, target.price, target.quantity);
    if exit.Ok? && |exit.value.targets| == |b.targets| {
      MarkedStillFits(t, b, exit.value, product, bar, i);
    }
  }

  lemma {:induction false} FillAtOpenIsStated(t: Terms, b: Position, product: Product, bar: Candle, i: nat)
    requires Fits(t, b) && !t.entering && ValidBar(t.spec, bar)
    ensures ResultStated(t, product, bar, b, FillAtOpen(b, product, bar, i))
    decreases |b.targets| - i
  {
    if i < |b.targets| {
      if b.targets[i].filled || b.remaining == 0 {
        FillAtOpenIsStated(t, b, product, bar, i + 1);
      } else if AtOrBetter(b.spec, bar.prices.open, b.targets[i].spec.price) {
        TargetIsStated(t, b, product, bar, i);
        ExitTargetKeepsShape(b, product, bar, i);
        var one := ExitTarget(b, product, bar, i);
        if one.Ok? {
          FillAtOpenIsStated(t, one.value, product, bar, i + 1);
          StatedOn(t, product, bar, b, one.value, FillAtOpen(one.value, product, bar, i + 1));
        }
      }
    }
  }

  lemma {:induction false} FillTouchedIsStated(t: Terms, b: Position, product: Product, bar: Candle, touched: seq<nat>)
    requires Fits(t, b)
    requires forall k | 0 <= k < |touched| :: touched[k] < |b.targets| && TargetMayFill(t, bar, touched[k])
    ensures ResultStated(t, product, bar, b, FillTouched(b, product, bar, touched))
    decreases |touched|
  {
    if touched != [] && b.remaining != 0 {
      TargetIsStated(t, b, product, bar, touched[0]);
      ExitTargetKeepsShape(b, product, bar, touched[0]);
      var one := ExitTarget(b, product, bar, touched[0]);
      if one.Ok? {
        FillTouchedIsStated(t, one.value, product, bar, touched[1..]);
        StatedOn(t, product, bar, b, one.value, FillTouched(one.value, product, bar, touched[1..]));
      }
    }
  }

  // ---------------------------------------------------------------- one bar

  lemma IntrabarIsStated(t: Terms, b: Position, product: Product, bar: Candle)
    requires Fits(t, b) && !OpenedBeyondStop(t, bar)
    ensures ResultStated(t, product, bar, b, Intrabar(b, product, bar))
  {
    var touched := TouchedFrom(b, bar, 0);
    if StopReached(t, bar) {
      StopInsideIsStated(t, b, product, bar);
      if touched != [] {
        AmbiguousIsStated(t, b, product, bar);
      }
    } else {
      FillTouchedIsStated(t, b, product, bar, touched);
    }
  }

  lemma AmbiguousIsStated(t: Terms, b: Position, product: Product, bar: Candle)
    requires Fits(t, b) && StopReached(t, bar) && !OpenedBeyondStop(t, bar)
    ensures var a := Ambiguous(b, bar.openTime);
            ResultStated(t, product, bar, b,
                         if b.spec.policy.halts then Ok(a.(state := AMBIGUOUS_HALTED))
                         else ExitStop(a, product, bar, a.stop))
  {
    var a := Ambiguous(b, bar.openTime);
    StopInsideIsStated(t, a, product, bar);
    StatedOn(t, product, bar, b, a, ExitStop(a, product, bar, a.stop));
  }

  lemma EnterIsStated(t: Terms, b: Position, product: Product, bar: Candle)
    requires Fits(t, b) && t.entering && t.entry == Some(EntryPrice(t.spec, bar))
    ensures ResultStated(t, product, bar, b, Enter(b, bar))
  {
  }

  lemma AtOpenIsStated(t: Terms, b: Position, product: Product, bar: Candle)
    requires Fits(t, b) && !t.entering && ValidBar(t.spec, bar)
    ensures ResultStated(t, product, bar, b, AtOpen(b, product, bar))
    ensures AtOpen(b, product, bar).Ok? && OpenedBeyondStop(t, bar) ==> AtOpen(b, product, bar).value.remaining == 0
  {
    if OpenedBeyondStop(t, bar) {
      StopAtOpenIsStated(t, b, product, bar);
    } else {
      FillAtOpenIsStated(t, b, product, bar, 0);
    }
  }

  lemma StepBarIsStated(t: Terms, b: Position, product: Product, bar: Candle)
    requires Fits(t, b) && ValidBar(t.spec, bar) && (t.entering <==> b.state == PENDING_ENTRY)
    requires t.entering ==> t.entry == Some(EntryPrice(t.spec, bar))
    ensures ResultStated(t, product, bar, b, StepBar(b, bar, product))
  {
    if b.state == PENDING_ENTRY {
      EnterIsStated(t, b, product, bar);
      var r := Enter(b, bar);
      if r.Ok? && r.value.state == OPEN {
        IntrabarIsStated(t, r.value, product, bar);
        StatedOn(t, product, bar, b, r.value, Intrabar(r.value, product, bar));
      }
    } else if b.closePending {
      ManualExitIsStated(t, b, product, bar);
    } else if b.state != AMBIGUOUS_HALTED {
      AtOpenIsStated(t, b, product, bar);
      var r := AtOpen(b, product, bar);
      if r.Ok? && r.value.remaining > 0 {
        IntrabarIsStated(t, r.value, product, bar);
        StatedOn(t, product, bar, b, r.value, Intrabar(r.value, product, bar));
      }
    }
  }

  lemma FinishIsStated(t: Terms, b: Position, product: Product, bar: Candle)
    requires Fits(t, b)
    ensures AddsStated(t, product, bar, b, Finish(b, bar))
  {
  }

  lemma BuiltIsStated(t: Terms, a: Position, b: Position, product: Product, bar: Candle)
    requires AddsStated(t, product, bar, a, b)
    ensures AddsStated(t, product, bar, a, Build(b))
  {
    assert Build(b).events == b.events && Build(b).targets == b.targets;
  }

  /** The position's targets are still the plan's. */
  ghost predicate KeepsPlan(p: Position) {
    |p.targets| == |p.spec.targets| && forall i | 0 <= i < |p.targets| :: p.targets[i].spec == p.spec.targets[i]
  }

  /** Every entry a bar adds after its own observation is as stated: the entry at the open, moved
      against the position; a target at its own price, and inside a bar that also reached the stop
      only if the bar opened at it; a stop at its price, or at the open that gapped through it; the
      money what the product says of entry, fill and units. */
  lemma EveryFillIsStated(p: Position, bar: Candle, product: Product)
    requires KeepsPlan(p) && ValidBar(p.spec, bar) && (p.state == PENDING_ENTRY ==> p.entryFill.None?)
    ensures var r := ApplyNewBar(p, bar, product);
            r.Ok? ==>
              && KeepsPlan(r.value) && r.value.stop == p.stop
              && (r.value.entryFill.Some? ==> r.value.entryFill == TermsOf(p, bar).entry)
              && |r.value.events| > |p.events| && p.events <= r.value.events
              && r.value.events[|p.events|] ==
                 Event(|p.events| + 1, OBSERVATION_APPLIED, Some(bar.openTime), BarData(bar))
              && forall i | |p.events| < i < |r.value.events| ::
                   Stated(TermsOf(p, bar), product, bar, r.value.events[i])
  {
    var t := TermsOf(p, bar);
    var b := Emit(p, OBSERVATION_APPLIED, Some(bar.openTime), BarData(bar));
    StepBarIsStated(t, b, product, bar);
    var r := StepBar(b, bar, product);
    if r.Ok? {
      FinishIsStated(t, r.value, product, bar);
      BuiltIsStated(t, r.value, Finish(r.value, bar), product, bar);
      StatedOn(t, product, bar, b, r.value, Ok(Build(Finish(r.value, bar))));
    }
  }

  // ---------------------------------------------------------------- the rules in numbers

  /** A price for a long, and its negative for a short: greater is better for either. */
  function Sided(direction: Direction, price: real): real {
    match direction
    case LONG => price
    case SHORT => -price
  }

  /** The best and the worst a bar showed, seen from the position's side. */
  ghost predicate Spans(direction: Direction, bar: Candle, worst: real, best: real) {
    match direction
    case LONG => worst == bar.prices.low && best == bar.prices.high
    case SHORT => worst == -bar.prices.high && best == -bar.prices.low
  }

  /** What it means, in prices, that a bar reached the stop, opened beyond it, or may fill a target. */
  lemma TestsAreComparisons(t: Terms, bar: Candle, k: nat, worst: real, best: real)
    requires k < |t.spec.targets| && Spans(t.spec.direction, bar, worst, best)
    ensures var d, target := t.spec.direction, t.spec.targets[k].price;
            var open, stop, level := Sided(d, bar.prices.open), Sided(d, t.stop), Sided(d, target);
            && (StopReached(t, bar) <==> worst <= stop)
            && (OpenedBeyondStop(t, bar) <==> !t.entering && open <= stop)
            && (AtOrBetter(t.spec, BestOf(t.spec, bar), target) <==> best >= level)
            && (AtOrBetter(t.spec, bar.prices.open, target) <==> open >= level)
            && (TargetMayFill(t, bar, k) <==> best >= level && ((!t.entering && open >= level) || worst > stop))
  {
  }

  /** A fee per unit, or none at all. */
  ghost predicate FeeStated(policy: Policy, units: int, fee: Option<real>) {
    match policy.feePerUnit
    case None => fee == None
    case Some(each) => fee == Some(each * units as real)
  }

  /** A stated entry in numbers: at the open plus the slippage, seen from the position's side, for the
      units planned and their fee; refused exactly when that is not between the stop and target one. */
  lemma EntriesInNumbers(t: Terms, product: Product, bar: Candle, e: Event)
    requires Stated(t, product, bar, e) && e.kind in {ENTRY_FILLED, ENTRY_REJECTED}
    ensures var d := t.spec.direction;
            && e.time == Some(bar.openTime) && t.entering && t.spec.targets != [] && e.data.fillPrice.Some?
            && var fill := Sided(d, e.data.fillPrice.value);
            && fill == (match d case LONG => bar.prices.open + t.spec.policy.slippage
                                case SHORT => -(bar.prices.open - t.spec.policy.slippage))
            && (e.kind == ENTRY_FILLED <==> Sided(d, t.stop) < fill < Sided(d, t.spec.targets[0].price))
            && (e.kind == ENTRY_FILLED ==>
                  e.data.quantity == Some(t.spec.quantity)
                  && FeeStated(t.spec.policy, t.spec.quantity, e.data.fee))
  {
  }

  /** A stated exit in numbers: a stop or a close on request gives the slippage away, seen from the
      position's side, a target does not; each is charged for its units. */
  lemma ExitsInNumbers(t: Terms, product: Product, bar: Candle, e: Event)
    requires Stated(t, product, bar, e) && IsExit(e.kind)
    ensures var d := t.spec.direction;
            && e.time == Some(bar.openTime) && e.data.fillPrice.Some? && e.data.quantity.Some? && t.entry.Some?
            && var (fill, slip) := (Sided(d, e.data.fillPrice.value), t.spec.policy.slippage);
            var (open, stop) := (Sided(d, bar.prices.open), Sided(d, t.stop));
            && (e.kind == STOP_FILLED ==> fill == (if !t.entering && open <= stop then open else stop) - slip)
            && (e.kind == MANUAL_EXIT_FILLED ==> fill == open - slip)
            && (e.kind == TARGET_FILLED ==>
                  exists k :: 0 <= k < |t.spec.targets| && e.data.fillPrice == Some(t.spec.targets[k].price)
                              && e.data.quantity == Some(t.spec.targets[k].quantity))
            && e.data.grossPnl == product.gross(d, t.entry.value, e.data.fillPrice.value, e.data.quantity.value)
            && FeeStated(t.spec.policy, e.data.quantity.value, e.data.fee)
  {
  }

  // ---------------------------------------------------------------- every run

  lemma InputKeepsPlan(p: Position, item: Input, product: Product)
    requires KeepsPlan(p) && Settled(p)
    ensures ApplyInput(p, item, product).Ok? ==> KeepsPlan(ApplyInput(p, item, product).value)
  {
    if item.Observe? {
      ObservationIs(p, item.bar, product);
      if ValidBar(p.spec, item.bar) {
        PendingHasNotEntered(p);
        EveryFillIsStated(p, item.bar, product);
      }
    }
  }

  lemma PendingHasNotEntered(p: Position)
    requires Settled(p)
    ensures p.state == PENDING_ENTRY ==> p.entryFill.None?
  {
  }

  lemma {:induction false} UnfilledPlan(targets: seq<TargetSpec>)
    ensures |Unfilled(targets)| == |targets| && forall i | 0 <= i < |targets| :: Unfilled(targets)[i].spec == targets[i]
  {
    if targets != [] {
      UnfilledPlan(targets[1..]);
    }
  }

  lemma {:induction false} EveryPositionKeepsItsPlan(
      spec: Spec, approval: Approval, product: Product, inputs: seq<Input>)
    requires ValidSpec(spec) && OpenPosition(spec, approval, product).Ok?
    ensures var p := Live(OpenPosition(spec, approval, product).value, inputs, product);
            KeepsPlan(p) && Settled(p) && p.spec == spec
  {
    var start := OpenPosition(spec, approval, product).value;
    EveryPositionHolds(spec, approval, product, inputs);
    if inputs == [] {
      UnfilledPlan(spec.targets);
    } else {
      var before := inputs[..|inputs| - 1];
      EveryPositionKeepsItsPlan(spec, approval, product, before);
      InputKeepsPlan(Live(start, before, product), inputs[|inputs| - 1], product);
    }
  }

  /** Whatever was put in before: all a bar adds to the ledger, after itself, is as stated. */
  lemma EveryRunIsStated(spec: Spec, approval: Approval, product: Product, inputs: seq<Input>, bar: Candle)
    requires ValidSpec(spec) && OpenPosition(spec, approval, product).Ok?
    ensures var p := Live(OpenPosition(spec, approval, product).value, inputs, product);
            var r := ApplyObservation(p, bar, product);
            r.Ok? ==>
              forall i | |p.events| < i < |r.value.events| :: Stated(TermsOf(p, bar), product, bar, r.value.events[i])
  {
    var p := Live(OpenPosition(spec, approval, product).value, inputs, product);
    EveryPositionKeepsItsPlan(spec, approval, product, inputs);
    ObservationIs(p, bar, product);
    if ValidBar(p.spec, bar) {
      PendingHasNotEntered(p);
      EveryFillIsStated(p, bar, product);
    }
  }

  // ---------------------------------------------------------------- nothing is assumed in one's favour

  /** A stated target is a price the bar traded at; a stated stop never better than the stop; a
      stated manual exit never better than the open. */
  lemma NoExitIsOptimistic(t: Terms, bar: Candle, kind: Kind, fill: real, quantity: int)
    requires ExitStated(t, bar, kind, fill, quantity) && t.spec.policy.slippage >= 0.0 && ValidBar(t.spec, bar)
    ensures kind == TARGET_FILLED ==> AtOrBetter(t.spec, BestOf(t.spec, bar), fill)
    ensures kind == STOP_FILLED ==> AtOrWorse(t.spec, fill, t.stop)
    ensures kind == MANUAL_EXIT_FILLED ==> AtOrWorse(t.spec, fill, bar.prices.open)
  {
  }

  /** The first price at or beyond the stop that the bar shows. */
  function FirstBeyondStop(t: Terms, bar: Candle): real {
    if AtOrWorse(t.spec, bar.prices.open, t.stop) then bar.prices.open else t.stop
  }

  predicate EntersBeyondItsStop(t: Terms, bar: Candle) {
    t.entering && AtOrWorse(t.spec, bar.prices.open, t.stop) && bar.prices.open != t.stop
  }

  /** A stop exits no better than the first price that existed at or beyond it - except on the very
      bar that entered, if that bar opened beyond the stop (which slippage allows). */
  lemma StopTakesTheFirstPriceIff(t: Terms, bar: Candle, fill: real, quantity: int)
    requires ExitStated(t, bar, STOP_FILLED, fill, quantity)
    ensures AtOrWorse(t.spec, fill, ExitPrice(t.spec, FirstBeyondStop(t, bar))) <==> !EntersBeyondItsStop(t, bar)
  {
  }

  lemma {:induction false} NothingTouched(b: Position, bar: Candle, index: nat)
    requires forall i | 0 <= i < |b.targets| :: !AtOrBetter(b.spec, BestOf(b.spec, bar), b.targets[i].spec.price)
    ensures TouchedFrom(b, bar, index) == []
    decreases |b.targets| - index
  {
    if index < |b.targets| {
      NothingTouched(b, bar, index + 1);
    }
  }

  /** That exception is reached: slippage carries the entry past a stop the open was beyond, and
      the stop then exits at its own price, which the market had skipped. */
  lemma EntryBarSkipsTheGap(p: Position, bar: Candle, product: Product)
    requires Settled(p) && KeepsPlan(p) && p.state == PENDING_ENTRY && ValidBar(p.spec, bar)
    requires EntersBeyondItsStop(TermsOf(p, bar), bar)
    requires !RefusesEntry(p.spec, p.stop, EntryPrice(p.spec, bar)) && EntryPrice(p.spec, bar) > 0.0
    requires forall i | 0 <= i < |p.targets| :: !AtOrBetter(p.spec, BestOf(p.spec, bar), p.targets[i].spec.price)
    requires ExitPrice(p.spec, p.stop) > 0.0
    requires product.gross(p.spec.direction, EntryPrice(p.spec, bar), ExitPrice(p.spec, p.stop), p.spec.quantity).Some?
    ensures var r := ApplyNewBar(p, bar, product);
            && r.Ok? && |r.value.events| == |p.events| + 4
            && r.value.events[|p.events| + 1].data.fillPrice == Some(EntryPrice(p.spec, bar))
            && var stop := r.value.events[|p.events| + 2];
               stop.kind == STOP_FILLED && stop.data.fillPrice == Some(ExitPrice(p.spec, p.stop))
  {
    var b := Emit(p, OBSERVATION_APPLIED, Some(bar.openTime), BarData(bar));
    var entered := Entered(b, bar.openTime, EntryPrice(p.spec, bar));
    EntersAndStops(b, bar, product);
    StoppedOut(entered, bar, product);
  }

  lemma EntersAndStops(b: Position, bar: Candle, product: Product)
    requires b.state == PENDING_ENTRY && KeepsPlan(b) && b.targets != []
    requires AtOrWorse(b.spec, WorstOf(b.spec, bar), b.stop)
    requires !RefusesEntry(b.spec, b.stop, EntryPrice(b.spec, bar)) && EntryPrice(b.spec, bar) > 0.0
    requires forall i | 0 <= i < |b.targets| :: !AtOrBetter(b.spec, BestOf(b.spec, bar), b.targets[i].spec.price)
    ensures var entered := Entered(b, bar.openTime, EntryPrice(b.spec, bar));
            StepBar(b, bar, product) == ExitStop(entered, product, bar, entered.stop)
  {
    var entered := Entered(b, bar.openTime, EntryPrice(b.spec, bar));
    NothingTouched(entered, bar, 0);
  }

  /** The exit's two entries: the fill, and the close. */
  lemma StoppedOut(b: Position, bar: Candle, product: Product)
    requires b.state == OPEN && b.entryFill.Some? && b.remaining >= 1 && ExitPrice(b.spec, b.stop) > 0.0
    requires product.gross(b.spec.direction, b.entryFill.value, ExitPrice(b.spec, b.stop), b.remaining).Some?
    ensures var exit := ExitStop(b, product, bar, b.stop);
            && exit.Ok?
            && var r := Build(Finish(exit.value, bar));
               && |r.events| == |b.events| + 2 && b.events <= r.events
               && r.events[|b.events|].kind == STOP_FILLED
               && r.events[|b.events|].data.fillPrice == Some(ExitPrice(b.spec, b.stop))
  {
  }

  const SLIDING := OneUnitLong(0.0).(policy := Policy(false, 2.0, None))

  lemma SlidingIsValid()
    ensures ValidSpec(SLIDING)
  {
    var targets := SLIDING.targets;
    assert targets[1..] == [];
    assert Units(targets) == 1;
  }

  lemma OpensPending(spec: Spec, approval: Approval, product: Product)
    requires ValidSpec(spec) && OpenPosition(spec, approval, product).Ok?
    ensures var start := OpenPosition(spec, approval, product).value;
            && Settled(start) && KeepsPlan(start) && start.spec == spec && start.stop == spec.stop
            && start.state == PENDING_ENTRY && |start.events| == 1 && start.lastBarTime == None
  {
    UnfilledPlan(spec.targets);
    OpenedSettled(spec, approval, product);
  }

  lemma SlidingOpens()
    ensures ValidSpec(SLIDING) && OpenPosition(SLIDING, Approval(true, Some(1)), PlainProduct()).Ok?
    ensures var start := OpenPosition(SLIDING, Approval(true, Some(1)), PlainProduct()).value;
            && Settled(start) && KeepsPlan(start) && start.spec == SLIDING && start.stop == 90.0
            && start.state == PENDING_ENTRY && |start.events| == 1 && start.lastBarTime == None
  {
    SlidingIsValid();
    assert OpenPosition(SLIDING, Approval(true, Some(1)), PlainProduct()).Ok?;
    OpensPending(SLIDING, Approval(true, Some(1)), PlainProduct());
  }

  /** A run in which it is: stop at 90, two points of slippage, a first bar that opens at 89. It
      enters at 91 and exits at 88; the open that gapped through the stop would have given 87. */
  lemma GapIsSkipped()
    ensures var bar := Candle("I", 1, true, 0, Prices(89.0, 95.0, 85.0, 90.0, 0.0));
            && OpenPosition(SLIDING, Approval(true, Some(1)), PlainProduct()).Ok?
            && var start := OpenPosition(SLIDING, Approval(true, Some(1)), PlainProduct()).value;
               var p := Live(start, [Observe(bar)], PlainProduct());
               && |p.events| == 5 && p.events[2].data.fillPrice == Some(91.0)
               && p.events[3].kind == STOP_FILLED && p.events[3].data.fillPrice == Some(88.0)
  {
    var bar := Candle("I", 1, true, 0, Prices(89.0, 95.0, 85.0, 90.0, 0.0));
    SlidingOpens();
    var start := OpenPosition(SLIDING, Approval(true, Some(1)), PlainProduct()).value;
    EntryBarSkipsTheGap(start, bar, PlainProduct());
    ObservedOnce(start, bar, PlainProduct());
    LiveOfOne(start, Observe(bar), PlainProduct());
  }

  lemma ObservedOnce(p: Position, bar: Candle, product: Product)
    requires ValidBar(p.spec, bar) && p.lastBarTime.None? && bar.openTime >= p.spec.decisionTime && !IsTerminal(p.state)
    ensures ApplyInput(p, Observe(bar), product) == ApplyNewBar(p, bar, product)
  {
  }
}
