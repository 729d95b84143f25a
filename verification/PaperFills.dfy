/** That no fill a bar calls for is left out: which targets are filled after it, and whether it
    closed the position or froze it, is decided by the bar and what was filled before. The rules are
    those of backend/app/domain/paper/rules.py; `PaperPrices` says at what price each fill is. */
module PaperFills {
  import opened Wrappers
  import opened PaperEvents
  import opened PaperEngine
  import opened PaperReplay
  import opened PaperPrices

  // ---------------------------------------------------------------- what a bar calls for

  predicate Reached(spec: Spec, price: real, i: nat)
    requires i < |spec.targets|
  {
    AtOrBetter(spec, price, spec.targets[i].price)
  }

  /** The open was already at target `i`, of a position that was in the market by then. */
  predicate AtTargetOpen(t: Terms, bar: Candle, i: nat)
    requires i < |t.spec.targets|
  {
    !t.entering && Reached(t.spec, bar.prices.open, i)
  }

  /** A bar fills the targets it reached - only those its open was at, if it reached the stop as
      well, and none if it opened beyond the stop. */
  predicate BarFills(t: Terms, bar: Candle, i: nat)
    requires i < |t.spec.targets|
  {
    if OpenedBeyondStop(t, bar) then false
    else if StopReached(t, bar) then AtTargetOpen(t, bar, i)
    else AtTargetOpen(t, bar, i) || Reached(t.spec, BestOf(t.spec, bar), i)
  }

  /** The bar reached the stop, and a target still open, in an order nobody can know. */
  predicate Undecided(t: Terms, bar: Candle, targets: seq<TargetState>)
    requires |targets| == |t.spec.targets|
  {
    && StopReached(t, bar) && !OpenedBeyondStop(t, bar)
    && exists i :: 0 <= i < |targets| && !targets[i].filled && !AtTargetOpen(t, bar, i)
                   && Reached(t.spec, BestOf(t.spec, bar), i)
  }

  ghost predicate FilledBy(t: Terms, bar: Candle, before: seq<TargetState>, after: seq<TargetState>) {
    && |before| == |after| == |t.spec.targets|
    && forall i | 0 <= i < |after| :: after[i].filled <==> before[i].filled || BarFills(t, bar, i)
  }

  /** How often the ledger records that the order within a bar could not be known. */
  function Ambiguities(events: seq<Event>): nat {
    if events == [] then 0
    else Ambiguities(events[..|events| - 1]) + if events[|events| - 1].kind == SAME_BAR_AMBIGUITY then 1 else 0
  }

  /** A bar that is worked through: not one that closes on request, finds the position frozen or
      refuses its entry. */
  predicate WorkedThrough(p: Position, bar: Candle)
    requires KeepsPlan(p) && p.targets != []
  {
    && !p.closePending && p.state != AMBIGUOUS_HALTED
    && !(p.state == PENDING_ENTRY && RefusesEntry(p.spec, p.stop, EntryPrice(p.spec, bar)))
  }

  /** The bar records an ambiguity, once, if it leaves the order undecided, and otherwise none. */
  ghost predicate RecordsAmbiguity(p: Position, bar: Candle, r: Position)
    requires KeepsPlan(p) && p.targets != []
  {
    Ambiguities(r.events) ==
    Ambiguities(p.events) + if WorkedThrough(p, bar) && Undecided(TermsOf(p, bar), bar, p.targets) then 1 else 0
  }

  /** What a bar has to come to, for a position it finds in `p`. */
  ghost predicate CalledFor(p: Position, bar: Candle, r: Position)
    requires KeepsPlan(p) && p.targets != []
  {
    var t := TermsOf(p, bar);
    RecordsAmbiguity(p, bar, r) &&
    if p.closePending then r.state == CLOSED && r.targets == p.targets
    else if p.state == AMBIGUOUS_HALTED then
      r.state == AMBIGUOUS_HALTED && r.targets == p.targets && r.remaining == p.remaining
    else if p.state == PENDING_ENTRY && RefusesEntry(p.spec, p.stop, EntryPrice(p.spec, bar)) then
      r.state == REJECTED && r.targets == p.targets
    else
      && r.entryFill == t.entry && FilledBy(t, bar, p.targets, r.targets)
      && (StopReached(t, bar) ==>
            r.state == if Undecided(t, bar, p.targets) && p.spec.policy.halts then AMBIGUOUS_HALTED else CLOSED)
      && (!StopReached(t, bar) ==> r.state in {OPEN, PARTIALLY_CLOSED, CLOSED})
  }

  // ---------------------------------------------------------------- filling

  /** In the market, with enough left for every target not yet filled. */
  ghost predicate Covered(t: Terms, b: Position) {
    && Working(b) && Fits(t, b) && b.state in {OPEN, PARTIALLY_CLOSED}
    && UnitsLeft(b.targets) <= b.remaining
  }

  ghost predicate Fills(t: Terms, b: Position, r: Position, which: nat -> bool) {
    && Covered(t, r) && |r.targets| == |b.targets|
    && forall k: nat | k < |b.targets| :: r.targets[k].filled <==> b.targets[k].filled || which(k)
  }

  lemma NothingLeftToFill(t: Terms, b: Position)
    requires Covered(t, b) && b.remaining == 0
    ensures forall k | 0 <= k < |b.targets| :: b.targets[k].filled
  {
    forall k | 0 <= k < |b.targets| ensures b.targets[k].filled {
      LeftAtLeast(b.targets, k);
    }
  }

  lemma OneTargetFilled(t: Terms, b: Position, product: Product, bar: Candle, i: nat)
    requires Covered(t, b) && b.remaining > 0 && i < |b.targets| && !b.targets[i].filled
    ensures var r := ExitTarget(b, product, bar, i);
            r.Ok? ==> && Covered(t, r.value) && |r.value.targets| == |b.targets| && r.value.targets[i].filled
                      && (forall k | 0 <= k < |b.targets| && k != i :: r.value.targets[k] == b.targets[k])
  {
    ExitTargetWorks(b, product, bar, i);
    OtherTargetsStay(b, product, bar, i);
    HasEntered(b);
    LeftAtLeast(b.targets, i);
    ExitTargetIs(b, product, bar, i);
    var target := b.targets[i].spec;
    var gross := product.gross(b.spec.direction, b.entryFill.value, target.price, target.quantity);
    if gross.Some? {
      BookedFits(t, b, i, bar.openTime, gross.value);
    }
  }

  lemma MarkedFits(t: Terms, b: Position, i: nat)
    requires Fits(t, b) && i < |b.targets| && WholeUnits(b.targets) && !b.targets[i].filled
    ensures var r := MarkFilled(b, i);
            && Fits(t, r) && r.targets[i].filled && r.remaining == b.remaining
            && UnitsLeft(r.targets) == UnitsLeft(b.targets) - b.targets[i].spec.quantity
  {
    FilledUnits(b, i);
    var r := MarkFilled(b, i);
    forall k | 0 <= k < |r.targets| ensures r.targets[k].spec == t.spec.targets[k] {}
  }

  lemma BookedFits(t: Terms, b: Position, i: nat, time: int, gross: real)
    requires Fits(t, b) && i < |b.targets| && WholeUnits(b.targets) && !b.targets[i].filled
    requires UnitsLeft(b.targets) <= b.remaining
    ensures var target := b.targets[i].spec;
            var r := MarkFilled(Booked(b, TARGET_FILLED, time, target.price, target.quantity, gross), i);
            Fits(t, r) && UnitsLeft(r.targets) <= r.remaining && r.targets[i].filled
  {
    var target := b.targets[i].spec;
    var booked := Booked(b, TARGET_FILLED, time, target.price, target.quantity, gross);
    MarkedFits(t, booked, i);
  }

  lemma {:induction false} TargetsAreOrdered(spec: Spec, i: nat, j: nat, price: real)
    requires ValidSpec(spec) && i <= j < |spec.targets| && !Reached(spec, price, i)
    ensures !Reached(spec, price, j)
  {
    if i < j {
      TargetsAreOrdered(spec, i, j - 1, price);
    }
  }

  function FromOpen(spec: Spec, bar: Candle, i: nat): nat -> bool {
    (k: nat) => i <= k < |spec.targets| && Reached(spec, bar.prices.open, k)
  }

  lemma {:induction false} FillAtOpenFills(t: Terms, b: Position, product: Product, bar: Candle, i: nat)
    requires Covered(t, b) && ValidSpec(t.spec)
    ensures var r := FillAtOpen(b, product, bar, i);
            r.Ok? ==> Fills(t, b, r.value, FromOpen(t.spec, bar, i))
    decreases |b.targets| - i
  {
    if i < |b.targets| {
      if b.remaining == 0 {
        NothingLeftToFill(t, b);
        FillAtOpenFills(t, b, product, bar, i + 1);
      } else if b.targets[i].filled {
        FillAtOpenFills(t, b, product, bar, i + 1);
      } else if Reached(t.spec, bar.prices.open, i) {
        NotNegative(b);
        OneTargetFilled(t, b, product, bar, i);
        ExitTargetKeepsShape(b, product, bar, i);
        var one := ExitTarget(b, product, bar, i);
        if one.Ok? {
          FillAtOpenFills(t, one.value, product, bar, i + 1);
        }
      } else {
        forall k | i <= k < |b.targets| ensures !Reached(t.spec, bar.prices.open, k) {
          TargetsAreOrdered(t.spec, i, k, bar.prices.open);
        }
      }
    }
  }

  function Among(touched: seq<nat>): nat -> bool {
    (k: nat) => k in touched
  }

  lemma OneMoreFilled(t: Terms, b: Position, one: Position, r: Position, touched: seq<nat>)
    requires touched != [] && touched[0] < |b.targets| && |one.targets| == |b.targets|
    requires one.targets[touched[0]].filled
    requires forall k | 0 <= k < |b.targets| && k != touched[0] :: one.targets[k] == b.targets[k]
    requires Fills(t, one, r, Among(touched[1..]))
    ensures Fills(t, b, r, Among(touched))
  {
    assert touched == [touched[0]] + touched[1..];
    forall k: nat | k < |b.targets| ensures r.targets[k].filled <==> b.targets[k].filled || k in touched {
      assert r.targets[k].filled <==> one.targets[k].filled || Among(touched[1..])(k);
    }
  }

  lemma {:induction false} FillTouchedFills(t: Terms, b: Position, product: Product, bar: Candle, touched: seq<nat>)
    requires Covered(t, b) && StillUnfilled(b, touched)
    ensures var r := FillTouched(b, product, bar, touched);
            r.Ok? ==> Fills(t, b, r.value, Among(touched))
    decreases |touched|
  {
    if touched != [] {
      if b.remaining == 0 {
        NothingLeftToFill(t, b);
      } else {
        NotNegative(b);
        OneTargetFilled(t, b, product, bar, touched[0]);
        var one := ExitTarget(b, product, bar, touched[0]);
        if one.Ok? {
          RestUnfilled(b, one.value, touched);
          FillTouchedFills(t, one.value, product, bar, touched[1..]);
          var r := FillTouched(one.value, product, bar, touched[1..]);
          if r.Ok? {
            OneMoreFilled(t, b, one.value, r.value, touched);
          }
        }
      }
    }
  }

  lemma {:induction false} TouchedIs(b: Position, bar: Candle, index: nat, k: nat)
    ensures k in TouchedFrom(b, bar, index) <==> index <= k < |b.targets| && Touched(b, bar, k)
    decreases |b.targets| - index
  {
    if index < |b.targets| {
      TouchedIs(b, bar, index + 1, k);
    }
  }

  // ---------------------------------------------------------------- ambiguities

  lemma AmbiguitiesAppend(events: seq<Event>, e: Event)
    ensures Ambiguities(events + [e]) == Ambiguities(events) + if e.kind == SAME_BAR_AMBIGUITY then 1 else 0
  {
    assert (events + [e])[..|events|] == events;
  }

  lemma EmitCounts(b: Position, kind: Kind, time: Option<int>, data: Data)
    ensures Ambiguities(Emit(b, kind, time, data).events) ==
            Ambiguities(b.events) + if kind == SAME_BAR_AMBIGUITY then 1 else 0
  {
    AmbiguitiesAppend(b.events, Event(|b.events| + 1, kind, time, data));
  }

  lemma ExitCounts(b: Position, product: Product, kind: Kind, bar: Candle, fill: real, q: int)
    requires kind != SAME_BAR_AMBIGUITY
    ensures var r := Exit(b, product, kind, bar, fill, q);
            r.Ok? ==> Ambiguities(r.value.events) == Ambiguities(b.events)
  {
    var gross := if b.entryFill.Some? then product.gross(b.spec.direction, b.entryFill.value, fill, q) else None;
    if gross.Some? {
      AmbiguitiesAppend(b.events, Event(|b.events| + 1, kind, Some(bar.openTime),
                                        ExitData(fill, q, gross.value, FeeFor(b.spec.policy, q))));
    }
  }

  lemma ExitTargetCounts(b: Position, product: Product, bar: Candle, i: nat)
    requires i < |b.targets|
    ensures var r := ExitTarget(b, product, bar, i);
            r.Ok? ==> Ambiguities(r.value.events) == Ambiguities(b.events) && |r.value.targets| == |b.targets|
  {
    ExitCounts(b, product, TARGET_FILLED, bar, b.targets[i].spec.price, b.targets[i].spec.quantity);
    ExitTargetKeepsShape(b, product, bar, i);
  }

  lemma {:induction false} FillAtOpenCounts(b: Position, product: Product, bar: Candle, i: nat)
    ensures var r := FillAtOpen(b, product, bar, i);
            r.Ok? ==> Ambiguities(r.value.events) == Ambiguities(b.events)
    decreases |b.targets| - i
  {
    if i < |b.targets| {
      FillAtOpenIs(b, product, bar, i);
      FillAtOpenCounts(b, product, bar, i + 1);
      ExitTargetCounts(b, product, bar, i);
      var one := ExitTarget(b, product, bar, i);
      if one.Ok? {
        FillAtOpenCounts(one.value, product, bar, i + 1);
      }
    }
  }

  lemma {:induction false} FillTouchedCounts(b: Position, product: Product, bar: Candle, touched: seq<nat>)
    requires forall k | 0 <= k < |touched| :: touched[k] < |b.targets|
    ensures var r := FillTouched(b, product, bar, touched);
            r.Ok? ==> Ambiguities(r.value.events) == Ambiguities(b.events)
    decreases |touched|
  {
    if touched != [] && b.remaining != 0 {
      ExitTargetCounts(b, product, bar, touched[0]);
      var one := ExitTarget(b, product, bar, touched[0]);
      if one.Ok? {
        FillTouchedCounts(one.value, product, bar, touched[1..]);
      }
    }
  }

  lemma AtOpenCounts(b: Position, product: Product, bar: Candle)
    ensures var r := AtOpen(b, product, bar);
            r.Ok? ==> Ambiguities(r.value.events) == Ambiguities(b.events)
  {
    ExitCounts(b, product, STOP_FILLED, bar, ExitPrice(b.spec, bar.prices.open), b.remaining);
    FillAtOpenCounts(b, product, bar, 0);
  }

  /** Within a bar an ambiguity is recorded exactly when stop and target were both reached. */
  lemma IntrabarCounts(b: Position, product: Product, bar: Candle)
    ensures var r := Intrabar(b, product, bar);
            var both := AtOrWorse(b.spec, WorstOf(b.spec, bar), b.stop) && TouchedFrom(b, bar, 0) != [];
            r.Ok? ==> Ambiguities(r.value.events) == Ambiguities(b.events) + if both then 1 else 0
  {
    var a := Ambiguous(b, bar.openTime);
    EmitCounts(b, SAME_BAR_AMBIGUITY, Some(bar.openTime),
               NO_DATA.(policy := Some(if b.spec.policy.halts then "HALT" else "STOP_FIRST")));
    ExitCounts(a, product, STOP_FILLED, bar, ExitPrice(b.spec, b.stop), b.remaining);
    ExitCounts(b, product, STOP_FILLED, bar, ExitPrice(b.spec, b.stop), b.remaining);
    FillTouchedCounts(b, product, bar, TouchedFrom(b, bar, 0));
  }

  lemma EnterCounts(b: Position, bar: Candle)
    ensures var r := Enter(b, bar);
            r.Ok? ==> Ambiguities(r.value.events) == Ambiguities(b.events)
  {
    var fill := EntryPrice(b.spec, bar);
    EmitCounts(b, ENTRY_REJECTED, Some(bar.openTime), NO_DATA.(fillPrice := Some(fill)));
    EmitCounts(b, ENTRY_FILLED, Some(bar.openTime),
               EntryData(fill, b.spec.quantity, FeeFor(b.spec.policy, b.spec.quantity)));
  }

  lemma FinishCounts(b: Position, bar: Candle)
    ensures Ambiguities(Build(Finish(b, bar)).events) == Ambiguities(b.events)
  {
    EmitCounts(b, POSITION_CLOSED, Some(bar.openTime), ClosingData(b.gross, b.fees));
    BuiltSame(Finish(b, bar));
  }

  // ---------------------------------------------------------------- one bar

  /** What is to be said of a position when its bar is over, but for the closing entry; `noted` is
      how many ambiguities its ledger had before. */
  ghost predicate Ends(t: Terms, bar: Candle, before: seq<TargetState>, noted: nat, r: Position) {
    && |before| == |t.spec.targets| && Ambiguities(r.events) == noted + (if Undecided(t, bar, before) then 1 else 0)
    && FilledBy(t, bar, before, r.targets)
    && (StopReached(t, bar) ==>
          if Undecided(t, bar, before) && t.spec.policy.halts then r.state == AMBIGUOUS_HALTED && r.remaining > 0
          else HasExposure(r.state) && r.remaining == 0)
    && (!StopReached(t, bar) ==> r.state in {OPEN, PARTIALLY_CLOSED})
  }

  lemma ExitAllEmpties(b: Position, product: Product, kind: Kind, bar: Candle, fill: real)
    ensures var r := Exit(b, product, kind, bar, fill, b.remaining);
            r.Ok? ==> r.value.remaining == 0 && r.value.targets == b.targets && r.value.state == b.state
  {
  }

  lemma IntrabarStops(t: Terms, b: Position, product: Product, bar: Candle)
    requires Covered(t, b) && b.remaining > 0 && StopReached(t, bar)
    ensures var r, touched := Intrabar(b, product, bar), TouchedFrom(b, bar, 0);
            r.Ok? ==> && r.value.targets == b.targets
                      && if touched != [] && t.spec.policy.halts then
                           r.value.state == AMBIGUOUS_HALTED && r.value.remaining > 0
                         else HasExposure(r.value.state) && r.value.remaining == 0
  {
    var a := Ambiguous(b, bar.openTime);
    ExitAllEmpties(a, product, STOP_FILLED, bar, ExitPrice(t.spec, t.stop));
    ExitAllEmpties(b, product, STOP_FILLED, bar, ExitPrice(t.spec, t.stop));
  }

  lemma IntrabarFills(t: Terms, b: Position, product: Product, bar: Candle)
    requires Covered(t, b) && !StopReached(t, bar)
    ensures var r := Intrabar(b, product, bar);
            r.Ok? ==>
              && r.value.state in {OPEN, PARTIALLY_CLOSED} && |r.value.targets| == |b.targets|
              && forall k: nat | k < |b.targets| ::
                   r.value.targets[k].filled <==> b.targets[k].filled || Reached(t.spec, BestOf(t.spec, bar), k)
  {
    var touched := TouchedFrom(b, bar, 0);
    assert StillUnfilled(b, touched);
    FillTouchedFills(t, b, product, bar, touched);
    forall k: nat | k < |b.targets|
      ensures k in touched <==> !b.targets[k].filled && Reached(t.spec, BestOf(t.spec, bar), k)
    {
      TouchedIs(b, bar, 0, k);
    }
  }

  /** A target still open after the open's fills and reached by the bar is what leaves it undecided. */
  lemma TouchedMeansUndecided(t: Terms, b: Position, bar: Candle, before: seq<TargetState>)
    requires Fits(t, b) && StopReached(t, bar) && !OpenedBeyondStop(t, bar) && |before| == |t.spec.targets|
    requires forall i: nat | i < |before| :: b.targets[i].filled <==> before[i].filled || AtTargetOpen(t, bar, i)
    ensures TouchedFrom(b, bar, 0) != [] <==> Undecided(t, bar, before)
  {
    var touched := TouchedFrom(b, bar, 0);
    if touched != [] {
      var k := touched[0];
      assert Touched(b, bar, k);
      assert !before[k].filled && !AtTargetOpen(t, bar, k) && Reached(t.spec, BestOf(t.spec, bar), k);
    }
    if Undecided(t, bar, before) {
      var i :| 0 <= i < |before| && !before[i].filled && !AtTargetOpen(t, bar, i)
               && Reached(t.spec, BestOf(t.spec, bar), i);
      TouchedIs(b, bar, 0, i);
    }
  }

  lemma IntrabarEnds(t: Terms, b: Position, product: Product, bar: Candle, before: seq<TargetState>)
    requires Covered(t, b) && b.remaining > 0 && !OpenedBeyondStop(t, bar) && |before| == |t.spec.targets|
    requires forall i: nat | i < |before| :: b.targets[i].filled <==> before[i].filled || AtTargetOpen(t, bar, i)
    ensures Intrabar(b, product, bar).Ok? ==>
              Ends(t, bar, before, Ambiguities(b.events), Intrabar(b, product, bar).value)
  {
    IntrabarCounts(b, product, bar);
    if StopReached(t, bar) {
      IntrabarStops(t, b, product, bar);
      TouchedMeansUndecided(t, b, bar, before);
    } else {
      IntrabarFills(t, b, product, bar);
    }
  }

  lemma EmptiedByOpenEnds(t: Terms, b: Position, bar: Candle, before: seq<TargetState>)
    requires Covered(t, b) && b.remaining == 0 && !OpenedBeyondStop(t, bar) && |before| == |t.spec.targets|
    requires forall i: nat | i < |before| :: b.targets[i].filled <==> before[i].filled || AtTargetOpen(t, bar, i)
    ensures Ends(t, bar, before, Ambiguities(b.events), b)
  {
    NothingLeftToFill(t, b);
  }

  lemma OpenBarEnds(t: Terms, b: Position, product: Product, bar: Candle)
    requires Covered(t, b) && b.remaining > 0 && !t.entering && ValidSpec(t.spec) && ValidBar(t.spec, bar)
    ensures var opening := AtOpen(b, product, bar);
            opening.Ok? ==>
              var r := if opening.value.remaining > 0 then Intrabar(opening.value, product, bar) else opening;
              r.Ok? ==> Ends(t, bar, b.targets, Ambiguities(b.events), r.value)
  {
    var opening := AtOpen(b, product, bar);
    AtOpenCounts(b, product, bar);
    if opening.Ok? {
      if OpenedBeyondStop(t, bar) {
        ExitAllEmpties(b, product, STOP_FILLED, bar, ExitPrice(t.spec, bar.prices.open));
      } else {
        FillAtOpenFills(t, b, product, bar, 0);
        NotNegative(opening.value);
        if opening.value.remaining > 0 {
          IntrabarEnds(t, opening.value, product, bar, b.targets);
        } else {
          EmptiedByOpenEnds(t, opening.value, bar, b.targets);
        }
      }
    }
  }

  lemma EntryBarEnds(t: Terms, b: Position, product: Product, bar: Candle)
    requires Working(b) && Fits(t, b) && b.state == PENDING_ENTRY && t.entering
    requires t.entry == Some(EntryPrice(t.spec, bar)) && !RefusesEntry(t.spec, t.stop, EntryPrice(t.spec, bar))
    ensures var entered := Enter(b, bar);
            entered.Ok? ==> && entered.value.state == OPEN
                            && var r := Intrabar(entered.value, product, bar);
                               r.Ok? ==> Ends(t, bar, b.targets, Ambiguities(b.events), r.value)
  {
    EnterWorks(b, bar);
    EnterCounts(b, bar);
    var entered := Enter(b, bar);
    if entered.Ok? {
      EnteredCovers(t, b, bar);
      IntrabarEnds(t, entered.value, product, bar, b.targets);
    }
  }

  lemma EnteredCovers(t: Terms, b: Position, bar: Candle)
    requires Working(b) && Fits(t, b) && b.state == PENDING_ENTRY && Enter(b, bar).Ok?
    requires t.entry == Some(EntryPrice(t.spec, bar)) && !RefusesEntry(t.spec, t.stop, EntryPrice(t.spec, bar))
    ensures var r := Enter(b, bar).value;
            Covered(t, r) && r.state == OPEN && r.remaining > 0 && r.targets == b.targets
  {
    EnterWorks(b, bar);
  }

  lemma FinishEnds(t: Terms, b: Position, bar: Candle, before: seq<TargetState>, noted: nat)
    requires Ends(t, bar, before, noted, b)
    ensures var r := Build(Finish(b, bar));
            && Ambiguities(r.events) == noted + (if Undecided(t, bar, before) then 1 else 0)
            && FilledBy(t, bar, before, r.targets)
            && (StopReached(t, bar) ==>
                  r.state == if Undecided(t, bar, before) && t.spec.policy.halts then AMBIGUOUS_HALTED else CLOSED)
            && (!StopReached(t, bar) ==> r.state in {OPEN, PARTIALLY_CLOSED, CLOSED})
  {
    BuiltSame(Finish(b, bar));
    FinishCounts(b, bar);
  }

  lemma BuiltSame(b: Position)
    ensures var r := Build(b);
            r.targets == b.targets && r.state == b.state && r.remaining == b.remaining && r.events == b.events
  {
  }

  lemma ObservedFits(p: Position, bar: Candle)
    requires Settled(p) && KeepsPlan(p)
    ensures var b := Emit(p, OBSERVATION_APPLIED, Some(bar.openTime), BarData(bar));
            && Settled(b) && Fits(TermsOf(p, bar), b) && b.targets == p.targets && b.state == p.state
            && Ambiguities(b.events) == Ambiguities(p.events)
  {
    EmitCounts(p, OBSERVATION_APPLIED, Some(bar.openTime), BarData(bar));
    ObservedSettled(p, bar);
    PendingHasNotEntered(p);
  }

  lemma StepEntersAtTheOpen(p: Position, b: Position, bar: Candle, product: Product)
    requires Settled(p) && KeepsPlan(p) && ValidBar(p.spec, bar) && !IsTerminal(p.state)
    requires b == Emit(p, OBSERVATION_APPLIED, Some(bar.openTime), BarData(bar))
    ensures var r := StepBar(b, bar, product);
            r.Ok? && HasExposure(r.value.state) ==> Build(Finish(r.value, bar)).entryFill == TermsOf(p, bar).entry
  {
    var t := TermsOf(p, bar);
    ObservedFits(p, bar);
    StepBarIsStated(t, b, product, bar);
    StepBarWorks(b, bar, product);
    var r := StepBar(b, bar, product);
    if r.Ok? && HasExposure(r.value.state) {
      HasEntered(r.value);
      assert Build(Finish(r.value, bar)).entryFill == r.value.entryFill;
    }
  }

  /** The position as a bar finds it, and as working through the bar leaves it. */
  ghost predicate StepsTo(p: Position, bar: Candle, product: Product, b: Position, stepped: Position) {
    && Settled(p) && KeepsPlan(p) && ValidSpec(p.spec) && ValidBar(p.spec, bar) && !IsTerminal(p.state)
    && b == Emit(p, OBSERVATION_APPLIED, Some(bar.openTime), BarData(bar))
    && StepBar(b, bar, product) == Ok(stepped)
  }

  lemma RefusedEntryIsComplete(p: Position, bar: Candle, product: Product, b: Position, stepped: Position)
    requires StepsTo(p, bar, product, b, stepped) && p.state == PENDING_ENTRY && p.targets != []
    requires RefusesEntry(p.spec, p.stop, EntryPrice(p.spec, bar))
    ensures CalledFor(p, bar, Build(Finish(stepped, bar)))
  {
    ObservedFits(p, bar);
    BuiltSame(Finish(stepped, bar));
    FinishCounts(stepped, bar);
    EnterCounts(b, bar);
    assert stepped == Rejected(b, bar.openTime, EntryPrice(p.spec, bar));
  }

  lemma EntryBarIsComplete(p: Position, bar: Candle, product: Product, b: Position, stepped: Position)
    requires StepsTo(p, bar, product, b, stepped) && p.state == PENDING_ENTRY && p.targets != []
    requires !RefusesEntry(p.spec, p.stop, EntryPrice(p.spec, bar))
    ensures CalledFor(p, bar, Build(Finish(stepped, bar)))
  {
    ObservedFits(p, bar);
    StepEntersAtTheOpen(p, b, bar, product);
    EntryBarEnds(TermsOf(p, bar), b, product, bar);
    FinishEnds(TermsOf(p, bar), stepped, bar, p.targets, Ambiguities(b.events));
  }

  lemma OpenBarIsComplete(p: Position, bar: Candle, product: Product, b: Position, stepped: Position)
    requires StepsTo(p, bar, product, b, stepped) && p.targets != []
    requires p.state in {OPEN, PARTIALLY_CLOSED} && !p.closePending
    ensures CalledFor(p, bar, Build(Finish(stepped, bar)))
  {
    ObservedFits(p, bar);
    StepEntersAtTheOpen(p, b, bar, product);
    OpenBarEnds(TermsOf(p, bar), b, product, bar);
    FinishEnds(TermsOf(p, bar), stepped, bar, p.targets, Ambiguities(b.events));
  }

  lemma CloseBarIsComplete(p: Position, bar: Candle, product: Product, b: Position, stepped: Position)
    requires StepsTo(p, bar, product, b, stepped) && p.targets != [] && (p.closePending || p.state == AMBIGUOUS_HALTED)
    ensures CalledFor(p, bar, Build(Finish(stepped, bar)))
  {
    BuiltSame(Finish(stepped, bar));
    FinishCounts(stepped, bar);
    ObservedFits(p, bar);
    ExitCounts(b, product, MANUAL_EXIT_FILLED, bar, ExitPrice(p.spec, bar.prices.open), b.remaining);
    ExitAllEmpties(b, product, MANUAL_EXIT_FILLED, bar, ExitPrice(p.spec, bar.prices.open));
  }

  /** A bar fills every target it should and no other; a position whose stop it reached is closed
      or, if a target was reached as well and the policy is to halt, frozen. A pending entry is
      refused exactly when the plan no longer makes sense at the open; a requested close happens. */
  lemma BarIsComplete(p: Position, bar: Candle, product: Product)
    requires Settled(p) && KeepsPlan(p) && ValidSpec(p.spec) && ValidBar(p.spec, bar) && !IsTerminal(p.state)
    requires p.targets != []
    ensures ApplyNewBar(p, bar, product).Ok? ==> CalledFor(p, bar, ApplyNewBar(p, bar, product).value)
  {
    var b := Emit(p, OBSERVATION_APPLIED, Some(bar.openTime), BarData(bar));
    var r := StepBar(b, bar, product);
    if r.Ok? {
      if p.closePending || p.state == AMBIGUOUS_HALTED {
        CloseBarIsComplete(p, bar, product, b, r.value);
      } else if p.state == PENDING_ENTRY {
        if RefusesEntry(p.spec, p.stop, EntryPrice(p.spec, bar)) {
          RefusedEntryIsComplete(p, bar, product, b, r.value);
        } else {
          EntryBarIsComplete(p, bar, product, b, r.value);
        }
      } else {
        OpenBarIsComplete(p, bar, product, b, r.value);
      }
    }
  }

  lemma ObservedAnew(p: Position, bar: Candle, product: Product)
    ensures var r := ApplyObservation(p, bar, product);
            r.Ok? ==>
              if p.lastBarTime.Some? && bar.openTime <= p.lastBarTime.value then r.value == p
              else ValidBar(p.spec, bar) && !IsTerminal(p.state) && r == ApplyNewBar(p, bar, product)
  {
  }

  /** So for every bar of every run: whatever was put in before, a new bar does all it calls for. */
  lemma EveryRunIsComplete(spec: Spec, approval: Approval, product: Product, inputs: seq<Input>, bar: Candle)
    requires ValidSpec(spec) && OpenPosition(spec, approval, product).Ok?
    ensures var p := Live(OpenPosition(spec, approval, product).value, inputs, product);
            KeepsPlan(p) && p.targets != [] &&
            var r := ApplyObservation(p, bar, product);
            r.Ok? ==>
              if p.lastBarTime.Some? && bar.openTime <= p.lastBarTime.value then r.value == p
              else CalledFor(p, bar, r.value)
  {
    var p := Live(OpenPosition(spec, approval, product).value, inputs, product);
    EveryPositionKeepsItsPlan(spec, approval, product, inputs);
    ObservedAnew(p, bar, product);
    if ValidBar(p.spec, bar) && !IsTerminal(p.state) {
      BarIsComplete(p, bar, product);
    }
  }
}
