/** What each of the engine's four inputs comes to over a whole run, read off the ledger alone: which
    stop is in force, whether a close is pending, which bars were seen, and what is refused and why.
    Follows `open_position`, `apply_observation`, `request_close`, `move_stop_to_breakeven` and
    `cancel` of backend/app/domain/paper/engine.py. */
module PaperInputs {
  import opened Wrappers
  import opened PaperEvents
  import opened PaperEngine
  import opened PaperReplay
  import opened PaperPrices
  import opened PaperFills
  import PaperLedger

  ghost predicate Has(events: seq<Event>, kind: Kind) {
    exists i :: 0 <= i < |events| && events[i].kind == kind
  }

  predicate IsBar(e: Event) {
    e.kind == OBSERVATION_APPLIED
  }

  // ---------------------------------------------------------------- the invariant

  /** The stop is the plan's until it is moved, and the price of entry from then on. */
  ghost predicate StopTold(p: Position) {
    && (Has(p.events, STOP_MOVED_TO_BREAKEVEN) ==> p.entryFill == Some(p.stop))
    && (!Has(p.events, STOP_MOVED_TO_BREAKEVEN) ==> p.stop == p.spec.stop && p.entryFill != Some(p.stop))
  }

  /** A close is pending once asked for, for as long as there is something to close. */
  ghost predicate CloseTold(p: Position) {
    && (p.closePending <==> HasExposure(p.state) && Has(p.events, CLOSE_REQUESTED))
    && (Has(p.events, CLOSE_REQUESTED) ==> p.entryFill.Some?)
  }

  /** The bars seen are in the ledger one after the other, none before the decision; the last one is
      where the position stands. */
  ghost predicate BarsTold(p: Position) {
    && (forall i | 0 <= i < |p.events| && IsBar(p.events[i]) ::
          && p.events[i].time.Some? && p.events[i].data.prices.Some? && p.lastBarTime.Some?
          && p.events[i].data == NO_DATA.(prices := p.events[i].data.prices)
          && p.spec.decisionTime <= p.events[i].time.value <= p.lastBarTime.value)
    && (forall i, j | 0 <= i < j < |p.events| && IsBar(p.events[i]) && IsBar(p.events[j]) ::
          && p.events[i].time.value < p.events[j].time.value
          && p.events[i].time.value + p.spec.timeframe <= p.events[j].time.value)
    && (p.lastBarTime.Some? <==> p.lastMark.Some?)
    && (p.lastBarTime.Some? ==>
          exists i :: 0 <= i < |p.events| && IsBar(p.events[i]) && p.events[i].time == p.lastBarTime
                      && p.events[i].data.prices.Some?
                      && p.lastMark == Some(p.events[i].data.prices.value.close))
    && p.barsApplied == BarCount(p.events)
  }

  function BarCount(events: seq<Event>): nat {
    if events == [] then 0
    else BarCount(events[..|events| - 1]) + if IsBar(events[|events| - 1]) then 1 else 0
  }

  ghost predicate Told(p: Position) {
    && Settled(p) && KeepsPlan(p) && ValidSpec(p.spec)
    && StopTold(p) && CloseTold(p) && BarsTold(p)
    && (p.entryFill.Some? ==> p.lastBarTime.Some?)
  }

  // ---------------------------------------------------------------- a new bar

  lemma {:induction false} BarsOfDerived(events: seq<Event>, k: nat)
    requires k <= |events| && forall i | k <= i < |events| :: IsDerived(events[i].kind)
    ensures BarEvents(events) == BarEvents(events[..k]) && BarCount(events) == BarCount(events[..k])
  {
    if k < |events| {
      assert events[..|events| - 1][..k] == events[..k];
      BarsOfDerived(events[..|events| - 1], k);
    } else {
      assert events[..k] == events;
    }
  }

  lemma {:induction false} BarsAreCounted(events: seq<Event>)
    ensures |BarEvents(events)| == BarCount(events)
  {
    if events != [] {
      BarsAreCounted(events[..|events| - 1]);
    }
  }

  /** `r` came of `p` by one bar that was worked through. */
  ghost predicate BarWorked(p: Position, bar: Candle, r: Position) {
    && |p.events| < |r.events| && p.events <= r.events && r.spec == p.spec
    && r.events[|p.events|] == Event(|p.events| + 1, OBSERVATION_APPLIED, Some(bar.openTime), BarData(bar))
    && (forall i | |p.events| < i < |r.events| :: IsDerived(r.events[i].kind))
    && r.lastBarTime == Some(bar.openTime) && r.lastMark == Some(bar.prices.close)
    && r.barsApplied == BarCount(p.events) + 1 == BarCount(r.events)
    && r.stop == p.stop && (p.entryFill.Some? ==> r.entryFill == p.entryFill)
    && (p.entryFill.None? && r.entryFill.Some? ==> r.entryFill != Some(p.stop))
    && (r.closePending <==> HasExposure(r.state) && p.closePending)
  }

  lemma BuiltFromBars(p: Position, bar: Candle, b: Position)
    requires |p.events| < |b.events| && p.events <= b.events
    requires b.events[|p.events|] == Event(|p.events| + 1, OBSERVATION_APPLIED, Some(bar.openTime), BarData(bar))
    requires forall i | |p.events| < i < |b.events| :: IsDerived(b.events[i].kind)
    ensures var r := Build(b);
            && r.lastBarTime == Some(bar.openTime) && r.lastMark == Some(bar.prices.close)
            && r.barsApplied == BarCount(p.events) + 1 == BarCount(b.events)
            && (r.closePending <==> b.closePending && HasExposure(b.state)) && r.state == b.state
  {
    var k, e := |p.events|, b.events[|p.events|];
    var upTo := b.events[..k + 1];
    assert upTo == p.events + [e] && upTo[..k] == p.events;
    assert BarEvents(upTo) == BarEvents(p.events) + [e];
    BarsOfDerived(b.events, k + 1);
    BarsAreCounted(b.events);
  }

  lemma RefusedAtTheStop(p: Position, bar: Candle, product: Product)
    requires p.state == PENDING_ENTRY && p.entryFill.None? && EntryPrice(p.spec, bar) == p.stop
    ensures ApplyNewBar(p, bar, product).Ok? ==> ApplyNewBar(p, bar, product).value.entryFill.None?
  {
  }

  lemma {:induction false} FillAtOpenKeepsClose(b: Position, product: Product, bar: Candle, i: nat)
    ensures var r := FillAtOpen(b, product, bar, i);
            r.Ok? ==> r.value.closePending == b.closePending
    decreases |b.targets| - i
  {
    if i < |b.targets| {
      if b.targets[i].filled || b.remaining == 0 {
        FillAtOpenKeepsClose(b, product, bar, i + 1);
      } else if AtOrBetter(b.spec, bar.prices.open, b.targets[i].spec.price) {
        ExitTargetKeepsShape(b, product, bar, i);
        var one := ExitTarget(b, product, bar, i);
        if one.Ok? {
          FillAtOpenKeepsClose(one.value, product, bar, i + 1);
        }
      }
    }
  }

  lemma {:induction false} FillTouchedKeepsClose(b: Position, product: Product, bar: Candle, touched: seq<nat>)
    requires forall k | 0 <= k < |touched| :: touched[k] < |b.targets|
    ensures var r := FillTouched(b, product, bar, touched);
            r.Ok? ==> r.value.closePending == b.closePending
    decreases |touched|
  {
    if touched != [] && b.remaining != 0 {
      ExitTargetKeepsShape(b, product, bar, touched[0]);
      var one := ExitTarget(b, product, bar, touched[0]);
      if one.Ok? {
        FillTouchedKeepsClose(one.value, product, bar, touched[1..]);
      }
    }
  }

  lemma StopKeepsClose(b: Position, product: Product, bar: Candle, reference: real)
    ensures var r := ExitStop(b, product, bar, reference);
            r.Ok? ==> r.value.closePending == b.closePending
  {
  }

  lemma IntrabarKeepsClose(b: Position, product: Product, bar: Candle)
    ensures var r := Intrabar(b, product, bar);
            r.Ok? ==> r.value.closePending == b.closePending
  {
    var ambiguous := Ambiguous(b, bar.openTime);
    StopKeepsClose(b, product, bar, b.stop);
    StopKeepsClose(ambiguous, product, bar, ambiguous.stop);
    FillTouchedKeepsClose(b, product, bar, TouchedFrom(b, bar, 0));
  }

  lemma StepKeepsClose(b: Position, bar: Candle, product: Product)
    requires !b.closePending
    ensures var r := StepBar(b, bar, product);
            r.Ok? ==> !r.value.closePending
  {
    if b.state == PENDING_ENTRY {
      if Enter(b, bar).Ok? {
        IntrabarKeepsClose(Enter(b, bar).value, product, bar);
      }
    } else if b.state != AMBIGUOUS_HALTED {
      FillAtOpenKeepsClose(b, product, bar, 0);
      if AtOpen(b, product, bar).Ok? {
        IntrabarKeepsClose(AtOpen(b, product, bar).value, product, bar);
      }
    }
  }

  lemma NewBarIsWorked(p: Position, bar: Candle, product: Product)
    requires Settled(p) && KeepsPlan(p) && ValidSpec(p.spec) && ValidBar(p.spec, bar) && !IsTerminal(p.state)
    requires ApplyNewBar(p, bar, product).Ok?
    ensures BarWorked(p, bar, ApplyNewBar(p, bar, product).value)
  {
    var r := ApplyNewBar(p, bar, product).value;
    var b := Emit(p, OBSERVATION_APPLIED, Some(bar.openTime), BarData(bar));
    var finished := Finish(StepBar(b, bar, product).value, bar);
    EveryFillIsStated(p, bar, product);
    NewBarWorks(p, bar, product);
    BarIsComplete(p, bar, product);
    BuiltFromBars(p, bar, finished);
    if p.state == PENDING_ENTRY && EntryPrice(p.spec, bar) == p.stop {
      RefusedAtTheStop(p, bar, product);
    }
    if !p.closePending {
      StepKeepsClose(b, bar, product);
    }
  }

  lemma WorkedBarTells(p: Position, bar: Candle, r: Position)
    requires BarsTold(p) && BarWorked(p, bar, r) && bar.openTime >= p.spec.decisionTime
    requires p.lastBarTime.Some? ==>
               bar.openTime > p.lastBarTime.value && bar.openTime >= p.lastBarTime.value + p.spec.timeframe
    ensures BarsTold(r)
  {
    var k := |p.events|;
    forall i | 0 <= i < |r.events| && IsBar(r.events[i]) ensures i <= k && (i < k ==> r.events[i] == p.events[i]) {}
    assert IsBar(r.events[k]) && r.events[k].time == r.lastBarTime;
  }

  lemma WorkedBarKeepsStop(p: Position, bar: Candle, r: Position)
    requires StopTold(p) && BarWorked(p, bar, r)
    ensures StopTold(r)
    ensures Has(r.events, CLOSE_REQUESTED) <==> Has(p.events, CLOSE_REQUESTED)
  {
    forall i | 0 <= i < |r.events| && !IsDerived(r.events[i].kind) && !IsBar(r.events[i])
      ensures i < |p.events| && r.events[i] == p.events[i]
    {
    }
    forall i | 0 <= i < |p.events| ensures r.events[i] == p.events[i] {}
  }

  // ---------------------------------------------------------------- every input

  lemma NewBarTells(p: Position, bar: Candle, r: Position)
    requires Told(p) && BarWorked(p, bar, r) && bar.openTime >= p.spec.decisionTime && !IsTerminal(p.state)
    requires p.lastBarTime.Some? ==>
               bar.openTime > p.lastBarTime.value && bar.openTime >= p.lastBarTime.value + p.spec.timeframe
    requires Settled(r) && KeepsPlan(r)
    ensures Told(r)
  {
    WorkedBarTells(p, bar, r);
    WorkedBarKeepsStop(p, bar, r);
  }

  /** A bar is refused, already known, or new and worked through. */
  lemma ObservationIsNew(p: Position, bar: Candle, product: Product)
    requires ApplyObservation(p, bar, product).Ok? && ApplyObservation(p, bar, product).value != p
    ensures ApplyObservation(p, bar, product) == ApplyNewBar(p, bar, product) && ValidBar(p.spec, bar)
    ensures bar.openTime >= p.spec.decisionTime && !IsTerminal(p.state)
    ensures p.lastBarTime.Some? ==>
              bar.openTime > p.lastBarTime.value && bar.openTime >= p.lastBarTime.value + p.spec.timeframe
  {
  }

  lemma ObservationTells(p: Position, bar: Candle, product: Product)
    requires Told(p) && ApplyObservation(p, bar, product).Ok?
    ensures Told(ApplyObservation(p, bar, product).value)
  {
    var r := ApplyObservation(p, bar, product).value;
    if r != p {
      ObservationIsNew(p, bar, product);
      NewBarWorks(p, bar, product);
      PendingHasNotEntered(p);
      InputKeepsPlan(p, Observe(bar), product);
      NewBarIsWorked(p, bar, product);
      NewBarTells(p, bar, r);
    }
  }

  lemma HasAppend(events: seq<Event>, e: Event, kind: Kind)
    ensures Has(events + [e], kind) <==> Has(events, kind) || kind == e.kind
  {
    var all := events + [e];
    assert all[|events|] == e;
    if Has(events, kind) {
      var i :| 0 <= i < |events| && events[i].kind == kind;
      assert all[i].kind == kind;
    }
  }

  /** One entry added by hand: no bar, no fill. */
  lemma EntryTells(p: Position, r: Position, e: Event)
    requires BarsTold(p) && r.events == p.events + [e] && !IsBar(e)
    requires r.spec == p.spec && r.lastBarTime == p.lastBarTime && r.lastMark == p.lastMark
    requires r.barsApplied == p.barsApplied
    ensures BarsTold(r)
    ensures forall kind :: Has(r.events, kind) <==> Has(p.events, kind) || kind == e.kind
  {
    assert r.events[..|r.events| - 1] == p.events;
    forall i | 0 <= i < |p.events| ensures r.events[i] == p.events[i] {}
    if p.lastBarTime.Some? {
      var i :| 0 <= i < |p.events| && IsBar(p.events[i]) && p.events[i].time == p.lastBarTime
               && p.events[i].data.prices.Some? && p.lastMark == Some(p.events[i].data.prices.value.close);
      assert r.events[i] == p.events[i];
    }
    forall kind ensures Has(r.events, kind) <==> Has(p.events, kind) || kind == e.kind {
      HasAppend(p.events, e, kind);
    }
  }

  lemma CloseTells(p: Position)
    requires Told(p) && RequestClose(p).Ok?
    ensures Told(RequestClose(p).value)
  {
    var r := RequestClose(p).value;
    CloseRequestWorks(p);
    if !p.closePending {
      EntryTells(p, r, r.events[|p.events|]);
    }
  }

  lemma BreakevenTells(p: Position)
    requires Told(p) && MoveStopToBreakeven(p).Ok?
    ensures Told(MoveStopToBreakeven(p).value)
  {
    var r := MoveStopToBreakeven(p).value;
    BreakevenWorks(p);
    if r != p {
      EntryTells(p, r, r.events[|p.events|]);
    }
  }

  lemma CancelTells(p: Position)
    requires Told(p) && Cancel(p).Ok?
    ensures Told(Cancel(p).value)
  {
    var r := Cancel(p).value;
    CancelWorks(p);
    if p.state != CANCELLED {
      EntryTells(p, r, r.events[|p.events|]);
    }
  }

  lemma OpenedTells(spec: Spec, approval: Approval, product: Product)
    requires ValidSpec(spec) && OpenPosition(spec, approval, product).Ok?
    ensures Told(OpenPosition(spec, approval, product).value)
  {
    var p := OpenPosition(spec, approval, product).value;
    OpensPending(spec, approval, product);
    assert p.events[..0] == [];
  }

  lemma {:induction false} EveryRunTells(spec: Spec, approval: Approval, product: Product, inputs: seq<Input>)
    requires ValidSpec(spec) && OpenPosition(spec, approval, product).Ok?
    ensures var p := Live(OpenPosition(spec, approval, product).value, inputs, product);
            Told(p) && p.spec == spec
  {
    var start := OpenPosition(spec, approval, product).value;
    EveryPositionKeepsItsPlan(spec, approval, product, inputs);
    if inputs == [] {
      OpenedTells(spec, approval, product);
    } else {
      var before, item := inputs[..|inputs| - 1], inputs[|inputs| - 1];
      EveryRunTells(spec, approval, product, before);
      var p := Live(start, before, product);
      if ApplyInput(p, item, product).Ok? {
        match item
        case Observe(bar) => ObservationTells(p, bar, product);
        case CloseInput => CloseTells(p);
        case BreakevenInput => BreakevenTells(p);
        case CancelInput => CancelTells(p);
      }
    }
  }

  // ---------------------------------------------------------------- breakeven, close, cancel

  /** Over every run, the stop in force is the plan's until the ledger says it was moved, and the price
      the position entered at from then on. */
  lemma StopInForce(spec: Spec, approval: Approval, product: Product, inputs: seq<Input>)
    requires ValidSpec(spec) && OpenPosition(spec, approval, product).Ok?
    ensures var p := Live(OpenPosition(spec, approval, product).value, inputs, product);
            var moved := Has(p.events, STOP_MOVED_TO_BREAKEVEN);
            && (moved ==> p.entryFill.Some?)
            && p.stop == if moved then p.entryFill.value else spec.stop
  {
    EveryRunTells(spec, approval, product, inputs);
  }

  lemma {:induction false} PassedCancelled(events: seq<Event>)
    ensures PaperLedger.Passed(events).cancelled <==> Has(events, POSITION_CANCELLED)
  {
    if events != [] {
      var before, last := events[..|events| - 1], events[|events| - 1];
      PassedCancelled(before);
      if Has(before, POSITION_CANCELLED) {
        var i :| 0 <= i < |before| && before[i].kind == POSITION_CANCELLED;
        assert events[i] == before[i];
      }
      if Has(events, POSITION_CANCELLED) && last.kind != POSITION_CANCELLED {
        var i :| 0 <= i < |events| && events[i].kind == POSITION_CANCELLED;
        assert before[i] == events[i];
      }
    }
  }

  lemma CancelledIsTold(p: Position)
    requires Settled(p)
    ensures p.state == CANCELLED <==> Has(p.events, POSITION_CANCELLED)
  {
    PassedCancelled(p.events);
  }

  /** What the invariant says to a request made by hand. */
  lemma ToldSays(p: Position)
    requires Told(p)
    ensures StopTold(p) && CloseTold(p)
    ensures HasExposure(p.state) ==> p.entryFill.Some? && p.lastMark.Some?
    ensures p.state == CANCELLED <==> Has(p.events, POSITION_CANCELLED)
  {
    CancelledIsTold(p);
  }

  lemma EveryRunSaysOfStop(spec: Spec, approval: Approval, product: Product, inputs: seq<Input>)
    requires ValidSpec(spec) && OpenPosition(spec, approval, product).Ok?
    ensures var p := Live(OpenPosition(spec, approval, product).value, inputs, product);
            p.spec == spec && StopTold(p) && (HasExposure(p.state) ==> p.entryFill.Some? && p.lastMark.Some?)
  {
    EveryRunTells(spec, approval, product, inputs);
    ToldSays(Live(OpenPosition(spec, approval, product).value, inputs, product));
  }

  lemma EveryRunSaysOfClose(spec: Spec, approval: Approval, product: Product, inputs: seq<Input>)
    requires ValidSpec(spec) && OpenPosition(spec, approval, product).Ok?
    ensures CloseTold(Live(OpenPosition(spec, approval, product).value, inputs, product))
  {
    EveryRunTells(spec, approval, product, inputs);
  }

  lemma EveryRunSaysOfCancel(spec: Spec, approval: Approval, product: Product, inputs: seq<Input>)
    requires ValidSpec(spec) && OpenPosition(spec, approval, product).Ok?
    ensures var p := Live(OpenPosition(spec, approval, product).value, inputs, product);
            p.state == CANCELLED <==> Has(p.events, POSITION_CANCELLED)
  {
    EveryRunTells(spec, approval, product, inputs);
    ToldSays(Live(OpenPosition(spec, approval, product).value, inputs, product));
  }

  /** The last price seen lies beyond the price of entry, in the position's favour. */
  predicate InProfit(direction: Direction, entry: real, mark: real) {
    match direction
    case LONG => mark > entry
    case SHORT => mark < entry
  }

  lemma BreakevenDecided(p: Position, product: Product)
    requires StopTold(p) && (HasExposure(p.state) ==> p.entryFill.Some? && p.lastMark.Some?)
    ensures var open := p.state == OPEN || p.state == PARTIALLY_CLOSED;
            var moved := Has(p.events, STOP_MOVED_TO_BREAKEVEN);
            ApplyInput(p, BreakevenInput, product) ==
            if !open then Err(INVALID_TRANSITION)
            else if moved then Ok(p)
            else if !InProfit(p.spec.direction, p.entryFill.value, p.lastMark.value) then Err(BREAKEVEN_NOT_PROTECTIVE)
            else
              var e := Event(|p.events| + 1, STOP_MOVED_TO_BREAKEVEN, p.lastBarTime,
                             NO_DATA.(fillPrice := p.entryFill));
              Ok(p.(stop := p.entryFill.value, events := p.events + [e]))
  {
  }

  /** In every run: a request to move the stop is refused exactly when the position is not open, or the
      stop has not been moved yet and the last bar did not close in its favour. Let through, it puts
      the stop at the price of entry, once, and changes nothing else. */
  lemma BreakevenIsDecidedBy(spec: Spec, approval: Approval, product: Product, inputs: seq<Input>)
    requires ValidSpec(spec) && OpenPosition(spec, approval, product).Ok?
    ensures var p := Live(OpenPosition(spec, approval, product).value, inputs, product);
            var open := p.state == OPEN || p.state == PARTIALLY_CLOSED;
            var moved := Has(p.events, STOP_MOVED_TO_BREAKEVEN);
            var r := ApplyInput(p, BreakevenInput, product);
            && (open ==> p.entryFill.Some? && p.lastMark.Some?)
            && r == if !open then Err(INVALID_TRANSITION)
                    else if moved then Ok(p)
                    else if !InProfit(spec.direction, p.entryFill.value, p.lastMark.value) then
                      Err(BREAKEVEN_NOT_PROTECTIVE)
                    else
                      var e := Event(|p.events| + 1, STOP_MOVED_TO_BREAKEVEN, p.lastBarTime,
                                     NO_DATA.(fillPrice := p.entryFill));
                      Ok(p.(stop := p.entryFill.value, events := p.events + [e]))
  {
    EveryRunSaysOfStop(spec, approval, product, inputs);
    var p := Live(OpenPosition(spec, approval, product).value, inputs, product);
    BreakevenDecided(p, product);
  }

  lemma CloseDecided(p: Position, product: Product)
    requires CloseTold(p)
    ensures var exposed := p.state in {OPEN, PARTIALLY_CLOSED, AMBIGUOUS_HALTED};
            var asked := Has(p.events, CLOSE_REQUESTED);
            && (p.closePending <==> exposed && asked)
            && ApplyInput(p, CloseInput, product) ==
               if !exposed then Err(INVALID_TRANSITION)
               else if asked then Ok(p)
               else
                 var e := Event(|p.events| + 1, CLOSE_REQUESTED, p.lastBarTime,
                                NO_DATA.(quantity := Some(p.remaining)));
                 Ok(p.(closePending := true, events := p.events + [e]))
  {
  }

  /** In every run: a close can be asked for exactly while the position is exposed; asked for once, it
      stays pending until the position is closed, and asking again changes nothing. */
  lemma CloseIsDecidedBy(spec: Spec, approval: Approval, product: Product, inputs: seq<Input>)
    requires ValidSpec(spec) && OpenPosition(spec, approval, product).Ok?
    ensures var p := Live(OpenPosition(spec, approval, product).value, inputs, product);
            var exposed := p.state in {OPEN, PARTIALLY_CLOSED, AMBIGUOUS_HALTED};
            var asked := Has(p.events, CLOSE_REQUESTED);
            var r := ApplyInput(p, CloseInput, product);
            && (p.closePending <==> exposed && asked)
            && r == if !exposed then Err(INVALID_TRANSITION)
                    else if asked then Ok(p)
                    else
                      var e := Event(|p.events| + 1, CLOSE_REQUESTED, p.lastBarTime,
                                     NO_DATA.(quantity := Some(p.remaining)));
                      Ok(p.(closePending := true, events := p.events + [e]))
  {
    EveryRunSaysOfClose(spec, approval, product, inputs);
    var p := Live(OpenPosition(spec, approval, product).value, inputs, product);
    CloseDecided(p, product);
  }

  lemma CancelDecided(p: Position, product: Product)
    ensures var r := ApplyInput(p, CancelInput, product);
            && (p.state == PENDING_ENTRY ==>
                  r == Ok(p.(state := CANCELLED,
                             events := p.events + [Event(|p.events| + 1, POSITION_CANCELLED, None, NO_DATA)])))
            && (p.state == CANCELLED ==> r == Ok(p))
            && (p.state !in {PENDING_ENTRY, CANCELLED} ==> r == Err(INVALID_TRANSITION))
  {
  }

  /** In every run: a position can be cancelled exactly while its entry is pending; cancelling again
      changes nothing, and the ledger says it was cancelled exactly if it is. */
  lemma CancelIsDecidedBy(spec: Spec, approval: Approval, product: Product, inputs: seq<Input>)
    requires ValidSpec(spec) && OpenPosition(spec, approval, product).Ok?
    ensures var p := Live(OpenPosition(spec, approval, product).value, inputs, product);
            var r := ApplyInput(p, CancelInput, product);
            && (p.state == CANCELLED <==> Has(p.events, POSITION_CANCELLED))
            && (p.state == PENDING_ENTRY ==>
                  r == Ok(p.(state := CANCELLED,
                             events := p.events + [Event(|p.events| + 1, POSITION_CANCELLED, None, NO_DATA)])))
            && (p.state == CANCELLED ==> r == Ok(p))
            && (p.state !in {PENDING_ENTRY, CANCELLED} ==> r == Err(INVALID_TRANSITION))
  {
    EveryRunSaysOfCancel(spec, approval, product, inputs);
    var p := Live(OpenPosition(spec, approval, product).value, inputs, product);
    CancelDecided(p, product);
  }

  // ---------------------------------------------------------------- bars

  lemma {:induction false} AppliedBarIs(events: seq<Event>, openTime: int)
    ensures var r := AppliedBar(events, openTime);
            && (r.None? ==> forall i | 0 <= i < |events| && IsBar(events[i]) :: events[i].time != Some(openTime))
            && (r.Some? ==> exists i :: 0 <= i < |events| && IsBar(events[i]) && events[i].time == Some(openTime)
                                        && events[i].data == r.value)
  {
    if events != [] {
      var rest := events[1..];
      AppliedBarIs(rest, openTime);
      var r := AppliedBar(rest, openTime);
      if r.Some? {
        var i :| 0 <= i < |rest| && IsBar(rest[i]) && rest[i].time == Some(openTime) && rest[i].data == r.value;
        assert events[i + 1] == rest[i];
      } else {
        forall i | 1 <= i < |events| && IsBar(events[i]) ensures events[i].time != Some(openTime) {
          assert rest[i - 1] == events[i];
        }
      }
    }
  }

  /** A bar of the position's own instrument and timeframe, over, with prices that make sense. */
  ghost predicate IsProper(spec: Spec, bar: Candle) {
    && bar.instrument == spec.instrument && bar.timeframe == spec.timeframe && bar.closed
    && bar.prices.low > 0.0
    && bar.prices.low <= bar.prices.open <= bar.prices.high && bar.prices.low <= bar.prices.close <= bar.prices.high
  }

  /** The ledger holds a bar of this open time, with these prices. */
  ghost predicate SeenAs(p: Position, openTime: int, prices: Prices) {
    exists i :: 0 <= i < |p.events| && IsBar(p.events[i]) && p.events[i].time == Some(openTime)
                && p.events[i].data.prices == Some(prices)
  }

  ghost predicate Seen(p: Position, openTime: int) {
    exists i :: 0 <= i < |p.events| && IsBar(p.events[i]) && p.events[i].time == Some(openTime)
  }

  /** Its interval overlaps the last bar's, or lies before it. */
  ghost predicate TooEarly(p: Position, openTime: int) {
    exists i :: 0 <= i < |p.events| && IsBar(p.events[i]) && p.events[i].time.Some?
                && (openTime <= p.events[i].time.value || openTime < p.events[i].time.value + p.spec.timeframe)
  }

  lemma SeenIs(p: Position, bar: Candle)
    requires BarsTold(p)
    ensures Seen(p, bar.openTime) <==> AppliedBar(p.events, bar.openTime).Some?
    ensures SeenAs(p, bar.openTime, bar.prices) <==> AppliedBar(p.events, bar.openTime) == Some(BarData(bar))
  {
    AppliedBarIs(p.events, bar.openTime);
    if SeenAs(p, bar.openTime, bar.prices) {
      var i :| 0 <= i < |p.events| && IsBar(p.events[i]) && p.events[i].time == Some(bar.openTime)
               && p.events[i].data.prices == Some(bar.prices);
      var found := AppliedBar(p.events, bar.openTime);
      var j :| 0 <= j < |p.events| && IsBar(p.events[j]) && p.events[j].time == Some(bar.openTime)
               && p.events[j].data == found.value;
      assert i == j;
    }
  }

  lemma EarlyIs(p: Position, openTime: int)
    requires BarsTold(p)
    ensures Seen(p, openTime) ==> p.lastBarTime.Some? && openTime <= p.lastBarTime.value
    ensures TooEarly(p, openTime) <==>
            p.lastBarTime.Some? && (openTime <= p.lastBarTime.value
                                    || openTime < p.lastBarTime.value + p.spec.timeframe)
  {
  }

  /** In every run, what happens to a bar is decided by the ledger: one that is no proper bar of this
      position is refused; one already seen changes nothing, or is refused if its prices differ; a new
      one must not overlap an earlier one, nor open before the decision, nor come after the end. */
  lemma ObservationIsDecidedBy(spec: Spec, approval: Approval, product: Product, inputs: seq<Input>, bar: Candle)
    requires ValidSpec(spec) && OpenPosition(spec, approval, product).Ok?
    ensures var p := Live(OpenPosition(spec, approval, product).value, inputs, product);
            var r := ApplyInput(p, Observe(bar), product);
            if !IsProper(spec, bar) then r == Err(INVALID_OBSERVATION)
            else if Seen(p, bar.openTime) then
              r == if SeenAs(p, bar.openTime, bar.prices) then Ok(p) else Err(CONFLICTING_OBSERVATION)
            else if TooEarly(p, bar.openTime) then r == Err(OUT_OF_ORDER)
            else if bar.openTime < spec.decisionTime then r == Err(OBSERVATION_BEFORE_DECISION)
            else if p.state in {CLOSED, CANCELLED, REJECTED} then r == Err(INVALID_TRANSITION)
            else r == Err(FILL_NOT_POSITIVE) || (r.Ok? && BarWorked(p, bar, r.value))
  {
    EveryRunTells(spec, approval, product, inputs);
    var p := Live(OpenPosition(spec, approval, product).value, inputs, product);
    SeenIs(p, bar);
    EarlyIs(p, bar.openTime);
    assert IsProper(spec, bar) <==> ValidBar(spec, bar);
    NewBarDecided(p, bar, product);
  }

  lemma NewBarDecided(p: Position, bar: Candle, product: Product)
    requires Told(p)
    ensures ValidBar(p.spec, bar) && !IsTerminal(p.state) ==>
              var r := ApplyNewBar(p, bar, product);
              r == Err(FILL_NOT_POSITIVE) || (r.Ok? && BarWorked(p, bar, r.value))
  {
    if ValidBar(p.spec, bar) && !IsTerminal(p.state) {
      NewBarWorks(p, bar, product);
      if ApplyNewBar(p, bar, product).Ok? {
        NewBarIsWorked(p, bar, product);
      }
    }
  }

  /** In every run, where the position stands is what its last bar said: its open time, its close as the
      mark, and as many bars as the ledger holds. */
  lemma StandsAtItsLastBar(spec: Spec, approval: Approval, product: Product, inputs: seq<Input>)
    requires ValidSpec(spec) && OpenPosition(spec, approval, product).Ok?
    ensures BarsTold(Live(OpenPosition(spec, approval, product).value, inputs, product))
  {
    EveryRunTells(spec, approval, product, inputs);
  }

  // ---------------------------------------------------------------- opening

  lemma {:induction false} TargetsRise(spec: Spec, i: nat, j: nat)
    requires ValidSpec(spec) && i < j < |spec.targets|
    ensures spec.targets[i].price != spec.targets[j].price
    ensures if spec.direction == LONG then spec.targets[i].price < spec.targets[j].price
            else spec.targets[i].price > spec.targets[j].price
  {
    if i + 1 < j {
      TargetsRise(spec, i, j - 1);
    }
  }

  lemma {:induction false} AllBeyondEntry(spec: Spec, i: nat)
    requires ValidSpec(spec) && i < |spec.targets|
    ensures Sided(spec.direction, spec.intendedEntry) < Sided(spec.direction, spec.targets[i].price)
  {
    if i > 0 {
      AllBeyondEntry(spec, i - 1);
      TargetsRise(spec, i - 1, i);
    }
  }

  ghost predicate LevelsInOrder(spec: Spec) {
    var d := spec.direction;
    && Sided(d, spec.stop) < Sided(d, spec.intendedEntry)
    && (forall i | 0 <= i < |spec.targets| :: Sided(d, spec.intendedEntry) < Sided(d, spec.targets[i].price))
    && (forall i, j | 0 <= i < j < |spec.targets| :: Sided(d, spec.targets[i].price) < Sided(d, spec.targets[j].price))
  }

  /** A plan is valid exactly when it enters between its stop and its targets, which lie one beyond the
      other, one to five of them for no more units than it has, at prices that are prices; and neither
      slippage nor a fee is negative. */
  lemma SpecIsValidIff(spec: Spec)
    ensures ValidSpec(spec) <==>
            && spec.quantity >= 1 && spec.intendedEntry > 0.0 && spec.stop > 0.0
            && 1 <= |spec.targets| <= 5 && Units(spec.targets) <= spec.quantity
            && (forall i | 0 <= i < |spec.targets| :: spec.targets[i].price > 0.0 && spec.targets[i].quantity >= 1)
            && LevelsInOrder(spec) && spec.policy.slippage >= 0.0
            && (spec.policy.feePerUnit.Some? ==> spec.policy.feePerUnit.value >= 0.0)
  {
    if ValidSpec(spec) {
      forall i | 0 <= i < |spec.targets|
        ensures Sided(spec.direction, spec.intendedEntry) < Sided(spec.direction, spec.targets[i].price)
      {
        AllBeyondEntry(spec, i);
      }
      forall i, j | 0 <= i < j < |spec.targets|
        ensures Sided(spec.direction, spec.targets[i].price) < Sided(spec.direction, spec.targets[j].price)
      {
        TargetsRise(spec, i, j);
      }
    }
  }

  /** A position is opened exactly when the product can be calculated, the risk engine allows the trade
      and at least its units, and every level is on the product's grid; the first check that fails is
      the one reported. */
  lemma OpeningIsDecidedBy(spec: Spec, approval: Approval, product: Product)
    ensures var r := OpenPosition(spec, approval, product);
            && (product.refuses.Some? ==> r == Err(product.refuses.value))
            && (product.refuses.None? && !(approval.allowed && approval.units.Some?) ==> r == Err(RISK_NOT_ALLOWED))
            && (product.refuses.None? && approval.allowed && approval.units.Some? ==>
                  && (spec.quantity > approval.units.value ==> r == Err(QUANTITY_EXCEEDS_RISK))
                  && (spec.quantity <= approval.units.value ==>
                        && (r.Ok? <==> && product.onGrid(spec.intendedEntry, spec.stop)
                                       && forall t | t in spec.targets :: product.onGrid(t.price, spec.stop))
                        && (r.Err? ==> r.error == LEVELS_NOT_EXECUTABLE)))
  {
  }

  /** It starts pending, with its whole plan ahead of it and one ledger entry, no money and no bar. */
  lemma OpenedIs(spec: Spec, approval: Approval, product: Product)
    requires OpenPosition(spec, approval, product).Ok?
    ensures var p := OpenPosition(spec, approval, product).value;
            && p.spec == spec && p.approval == approval && p.state == PENDING_ENTRY && p.remaining == 0
            && p.stop == spec.stop && p.entryFill == None && p.entryTime == None && p.gross == 0.0
            && p.fees == (if spec.policy.feePerUnit.Some? then Some(0.0) else None)
            && p.lastBarTime == None && p.lastMark == None && !p.closePending && p.barsApplied == 0
            && |p.events| == 1 && p.events[0].sequence == 1 && p.events[0].kind == POSITION_CREATED
            && p.events[0].time == Some(spec.decisionTime) && p.events[0].data.quantity == Some(spec.quantity)
            && p.events[0].data.feeMode ==
               Some(if spec.policy.feePerUnit.Some? then "USER_DEFINED_PER_UNIT" else "NOT_MODELLED")
            && |p.targets| == |spec.targets|
            && forall i | 0 <= i < |p.targets| :: p.targets[i] == TargetState(spec.targets[i], false, None)
  {
    AllUnfilled(spec.targets);
  }

  lemma {:induction false} AllUnfilled(targets: seq<TargetSpec>)
    ensures var r := Unfilled(targets);
            |r| == |targets| && forall i | 0 <= i < |r| :: r[i] == TargetState(targets[i], false, None)
  {
    if targets != [] {
      AllUnfilled(targets[1..]);
    }
  }

  // ---------------------------------------------------------------- targets

  ghost predicate FillOf(e: Event, target: TargetSpec) {
    e.kind == TARGET_FILLED && e.data.fillPrice == Some(target.price) && e.data.quantity == Some(target.quantity)
  }

  ghost predicate FillTold(events: seq<Event>, target: TargetState) {
    && (target.fillPrice == if target.filled then Some(target.spec.price) else None)
    && (target.filled ==> exists k :: 0 <= k < |events| && FillOf(events[k], target.spec))
  }

  ghost predicate HasFilled(targets: seq<TargetState>, e: Event) {
    exists i :: 0 <= i < |targets| && targets[i].filled && FillOf(e, targets[i].spec)
  }

  /** What counts as filled is what the ledger records as filled. */
  ghost predicate TargetsTold(p: Position) {
    && (forall i | 0 <= i < |p.targets| :: FillTold(p.events, p.targets[i]))
    && (forall k | 0 <= k < |p.events| && p.events[k].kind == TARGET_FILLED :: HasFilled(p.targets, p.events[k]))
  }

  ghost predicate ResultTellsTargets(r: Result<Position, Refusal>) {
    r.Ok? ==> TargetsTold(r.value)
  }

  lemma OtherEntryTells(a: Position, b: Position, e: Event)
    requires TargetsTold(a) && b.targets == a.targets && b.events == a.events + [e] && e.kind != TARGET_FILLED
    ensures TargetsTold(b)
  {
    forall i | 0 <= i < |b.targets| ensures FillTold(b.events, b.targets[i]) {
      FillStaysTold(a.events, e, b.targets[i]);
    }
  }

  lemma FillStaysTold(events: seq<Event>, e: Event, target: TargetState)
    requires FillTold(events, target)
    ensures FillTold(events + [e], target)
  {
    if target.filled {
      var k :| 0 <= k < |events| && FillOf(events[k], target.spec);
      assert (events + [e])[k] == events[k];
    }
  }

  lemma OtherExitTells(b: Position, product: Product, kind: Kind, bar: Candle, fill: real, q: int)
    requires TargetsTold(b) && kind != TARGET_FILLED
    ensures ResultTellsTargets(Exit(b, product, kind, bar, fill, q))
  {
    var r := Exit(b, product, kind, bar, fill, q);
    if r.Ok? {
      OtherEntryTells(b, r.value, r.value.events[|b.events|]);
    }
  }

  lemma FilledStays(before: seq<TargetState>, after: seq<TargetState>, e: Event)
    requires HasFilled(before, e) && |after| == |before|
    requires forall j | 0 <= j < |before| && before[j].filled :: after[j].filled && after[j].spec == before[j].spec
    ensures HasFilled(after, e)
  {
    var j :| 0 <= j < |before| && before[j].filled && FillOf(e, before[j].spec);
    assert after[j].filled && FillOf(e, after[j].spec);
  }

  /** Target `i` of `b` was filled, by the entry `e`. */
  ghost predicate Marks(b: Position, r: Position, i: nat, e: Event) {
    && i < |b.targets| == |r.targets| && r.events == b.events + [e] && FillOf(e, b.targets[i].spec)
    && r.targets[i] == TargetState(b.targets[i].spec, true, Some(b.targets[i].spec.price))
    && forall k | 0 <= k < |b.targets| && k != i :: r.targets[k] == b.targets[k]
  }

  lemma MarkedFillsTold(b: Position, r: Position, i: nat, e: Event, k: nat)
    requires TargetsTold(b) && Marks(b, r, i, e) && k < |r.targets|
    ensures FillTold(r.events, r.targets[k])
  {
    if k == i {
      assert r.events[|b.events|] == e;
    } else {
      FillStaysTold(b.events, e, b.targets[k]);
    }
  }

  lemma MarkedEventsTold(b: Position, r: Position, i: nat, e: Event, k: nat)
    requires TargetsTold(b) && Marks(b, r, i, e) && k < |r.events| && r.events[k].kind == TARGET_FILLED
    ensures HasFilled(r.targets, r.events[k])
  {
    if k == |b.events| {
      assert r.targets[i].filled && FillOf(e, r.targets[i].spec);
    } else {
      assert r.events[k] == b.events[k];
      FilledStays(b.targets, r.targets, b.events[k]);
    }
  }

  lemma MarkedTells(b: Position, r: Position, i: nat, e: Event)
    requires TargetsTold(b) && Marks(b, r, i, e)
    ensures TargetsTold(r)
  {
    forall k | 0 <= k < |r.targets| ensures FillTold(r.events, r.targets[k]) {
      MarkedFillsTold(b, r, i, e, k);
    }
    forall k | 0 <= k < |r.events| && r.events[k].kind == TARGET_FILLED ensures HasFilled(r.targets, r.events[k]) {
      MarkedEventsTold(b, r, i, e, k);
    }
  }

  lemma TargetExitTells(b: Position, product: Product, bar: Candle, i: nat)
    requires TargetsTold(b) && i < |b.targets|
    ensures ResultTellsTargets(ExitTarget(b, product, bar, i))
  {
    var t := b.targets[i].spec;
    var exit := Exit(b, product, TARGET_FILLED, bar, t.price, t.quantity);
    if t.quantity <= b.remaining && exit.Ok? {
      MarkedTells(b, MarkFilled(exit.value, i), i, exit.value.events[|b.events|]);
    }
  }

  lemma {:induction false} FillAtOpenTells(b: Position, product: Product, bar: Candle, i: nat)
    requires TargetsTold(b)
    ensures ResultTellsTargets(FillAtOpen(b, product, bar, i))
    decreases |b.targets| - i
  {
    if i < |b.targets| {
      if b.targets[i].filled || b.remaining == 0 {
        FillAtOpenTells(b, product, bar, i + 1);
      } else if AtOrBetter(b.spec, bar.prices.open, b.targets[i].spec.price) {
        TargetExitTells(b, product, bar, i);
        ExitTargetKeepsShape(b, product, bar, i);
        var one := ExitTarget(b, product, bar, i);
        if one.Ok? {
          FillAtOpenTells(one.value, product, bar, i + 1);
        }
      }
    }
  }

  lemma {:induction false} FillTouchedTells(b: Position, product: Product, bar: Candle, touched: seq<nat>)
    requires TargetsTold(b) && forall k | 0 <= k < |touched| :: touched[k] < |b.targets|
    ensures ResultTellsTargets(FillTouched(b, product, bar, touched))
    decreases |touched|
  {
    if touched != [] && b.remaining != 0 {
      TargetExitTells(b, product, bar, touched[0]);
      ExitTargetKeepsShape(b, product, bar, touched[0]);
      var one := ExitTarget(b, product, bar, touched[0]);
      if one.Ok? {
        FillTouchedTells(one.value, product, bar, touched[1..]);
      }
    }
  }

  lemma StopExitTells(b: Position, product: Product, bar: Candle, reference: real)
    requires TargetsTold(b)
    ensures ResultTellsTargets(ExitStop(b, product, bar, reference))
  {
    OtherExitTells(b, product, STOP_FILLED, bar,
                   AdversePrice(reference, b.spec.policy.slippage, b.spec.direction, false), b.remaining);
  }

  lemma IntrabarTells(b: Position, product: Product, bar: Candle)
    requires TargetsTold(b)
    ensures ResultTellsTargets(Intrabar(b, product, bar))
  {
    var ambiguous := Ambiguous(b, bar.openTime);
    OtherEntryTells(b, ambiguous, ambiguous.events[|b.events|]);
    StopExitTells(b, product, bar, b.stop);
    StopExitTells(ambiguous, product, bar, ambiguous.stop);
    FillTouchedTells(b, product, bar, TouchedFrom(b, bar, 0));
  }

  lemma EnterTells(b: Position, bar: Candle)
    requires TargetsTold(b)
    ensures ResultTellsTargets(Enter(b, bar))
  {
    var r := Enter(b, bar);
    if r.Ok? {
      OtherEntryTells(b, r.value, r.value.events[|b.events|]);
    }
  }

  lemma StepTells(b: Position, bar: Candle, product: Product)
    requires TargetsTold(b)
    ensures ResultTellsTargets(StepBar(b, bar, product))
  {
    if b.state == PENDING_ENTRY {
      EnterTells(b, bar);
      if Enter(b, bar).Ok? {
        IntrabarTells(Enter(b, bar).value, product, bar);
      }
    } else if b.closePending {
      OtherExitTells(b, product, MANUAL_EXIT_FILLED, bar, ExitPrice(b.spec, bar.prices.open), b.remaining);
    } else {
      StopExitTells(b, product, bar, bar.prices.open);
      FillAtOpenTells(b, product, bar, 0);
      if AtOpen(b, product, bar).Ok? {
        IntrabarTells(AtOpen(b, product, bar).value, product, bar);
      }
    }
  }

  lemma BarTellsTargets(p: Position, bar: Candle, product: Product)
    requires TargetsTold(p)
    ensures ResultTellsTargets(ApplyNewBar(p, bar, product))
  {
    var b := Emit(p, OBSERVATION_APPLIED, Some(bar.openTime), BarData(bar));
    OtherEntryTells(p, b, b.events[|p.events|]);
    StepTells(b, bar, product);
    var stepped := StepBar(b, bar, product);
    if stepped.Ok? {
      var finished := Finish(stepped.value, bar);
      if finished != stepped.value {
        OtherEntryTells(stepped.value, finished, finished.events[|stepped.value.events|]);
      }
      BuiltSame(finished);
    }
  }

  lemma InputTellsTargets(p: Position, item: Input, product: Product)
    requires TargetsTold(p)
    ensures ResultTellsTargets(ApplyInput(p, item, product))
  {
    var r := ApplyInput(p, item, product);
    if r.Ok? && r.value != p {
      if item.Observe? {
        ObservationIsNew(p, item.bar, product);
        BarTellsTargets(p, item.bar, product);
      } else {
        OtherEntryTells(p, r.value, r.value.events[|p.events|]);
      }
    }
  }

  lemma {:induction false} EveryRunTellsTargets(spec: Spec, approval: Approval, product: Product, inputs: seq<Input>)
    requires OpenPosition(spec, approval, product).Ok?
    ensures TargetsTold(Live(OpenPosition(spec, approval, product).value, inputs, product))
  {
    var start := OpenPosition(spec, approval, product).value;
    if inputs == [] {
      AllUnfilled(spec.targets);
    } else {
      EveryRunTellsTargets(spec, approval, product, inputs[..|inputs| - 1]);
      InputTellsTargets(Live(start, inputs[..|inputs| - 1], product), inputs[|inputs| - 1], product);
    }
  }

  /** In every run, target `i` counts as filled - at its own price - exactly if the ledger records a
      fill at that price, and that fill is for the units planned. */
  lemma TargetIsFilledIff(spec: Spec, approval: Approval, product: Product, inputs: seq<Input>, i: nat)
    requires ValidSpec(spec) && OpenPosition(spec, approval, product).Ok? && i < |spec.targets|
    ensures var p := Live(OpenPosition(spec, approval, product).value, inputs, product);
            && |p.targets| == |spec.targets|
            && var (target, plan) := (p.targets[i], spec.targets[i]);
            && (target.filled <==> exists k :: 0 <= k < |p.events| && p.events[k].kind == TARGET_FILLED
                                               && p.events[k].data.fillPrice == Some(plan.price))
            && target == TargetState(plan, target.filled, if target.filled then Some(plan.price) else None)
            && forall k | 0 <= k < |p.events| && p.events[k].kind == TARGET_FILLED
                          && p.events[k].data.fillPrice == Some(plan.price) ::
                 p.events[k].data.quantity == Some(plan.quantity)
  {
    var p := Live(OpenPosition(spec, approval, product).value, inputs, product);
    EveryPositionKeepsItsPlan(spec, approval, product, inputs);
    EveryRunTellsTargets(spec, approval, product, inputs);
    forall k | 0 <= k < |p.events| && p.events[k].kind == TARGET_FILLED
               && p.events[k].data.fillPrice == Some(spec.targets[i].price)
      ensures p.targets[i].filled && FillOf(p.events[k], spec.targets[i])
    {
      OnlyThatTarget(p, i, p.events[k]);
    }
  }

  lemma OnlyThatTarget(p: Position, i: nat, e: Event)
    requires KeepsPlan(p) && ValidSpec(p.spec) && i < |p.targets| && HasFilled(p.targets, e)
    requires e.data.fillPrice == Some(p.spec.targets[i].price)
    ensures p.targets[i].filled && FillOf(e, p.spec.targets[i])
  {
    var j :| 0 <= j < |p.targets| && p.targets[j].filled && FillOf(e, p.targets[j].spec);
    if i < j {
      TargetsRise(p.spec, i, j);
    } else if j < i {
      TargetsRise(p.spec, j, i);
    }
  }

  // ---------------------------------------------------------------- which ledgers rebuild

  lemma {:induction false} AppliedIsLive(start: Position, inputs: seq<Input>, product: Product)
    requires ApplyAll(start, inputs, product).Ok?
    ensures Live(start, inputs, product) == ApplyAll(start, inputs, product).value
  {
    if inputs != [] {
      AppliedIsLive(start, inputs[..|inputs| - 1], product);
    }
  }

  ghost predicate Written(start: Position, product: Product, events: seq<Event>, inputs: seq<Input>) {
    Live(start, inputs, product).events == events
  }

  /** A ledger rebuilds if and only if it is one the engine would have written for some run of inputs: an
      entry added, dropped, reordered or altered is refused. What it rebuilds to is that run's position. */
  lemma RebuildsIff(spec: Spec, approval: Approval, product: Product, events: seq<Event>)
    requires ValidSpec(spec) && OpenPosition(spec, approval, product).Ok?
    ensures var start, r := OpenPosition(spec, approval, product).value, Rebuild(spec, approval, product, events);
            && (r.Ok? <==> exists inputs :: Written(start, product, events, inputs))
            && (r.Ok? ==> r.value.events == events)
            && forall inputs | Written(start, product, events, inputs) :: r == Ok(Live(start, inputs, product))
  {
    var start, r := OpenPosition(spec, approval, product).value, Rebuild(spec, approval, product, events);
    if r.Ok? {
      var inputs := InputsFromEvents(spec, events).value;
      AppliedIsLive(start, inputs, product);
      assert Written(start, product, events, inputs);
    }
    forall inputs | Written(start, product, events, inputs) ensures r == Ok(Live(start, inputs, product)) {
      LedgerRebuilds(spec, approval, product, inputs);
    }
  }
}
