/** What every position the engine can reach satisfies: its ledger replays to it, the performance
    fold reads that ledger as the engine left it, and no unit or amount goes missing. */
module PaperReplay {
  import opened Wrappers
  import opened PaperEvents
  import opened PaperEngine
  import PaperLedger

  // ---------------------------------------------------------------- units

  /** Units of the targets still to be filled. */
  function UnitsLeft(targets: seq<TargetState>): int {
    if targets == [] then 0
    else (if targets[0].filled then 0 else targets[0].spec.quantity) + UnitsLeft(targets[1..])
  }

  ghost predicate WholeUnits(targets: seq<TargetState>) {
    forall i | 0 <= i < |targets| :: targets[i].spec.quantity >= 1
  }

  /** Units the ledger says have left the position. */
  function ExitedUnits(events: seq<Event>): int {
    if events == [] then 0
    else
      var last := events[|events| - 1];
      ExitedUnits(events[..|events| - 1])
      + if IsExit(last.kind) && last.data.quantity.Some? then last.data.quantity.value else 0
  }

  lemma {:induction false} LeftAfterFilling(targets: seq<TargetState>, i: nat, filled: TargetState)
    requires i < |targets| && !targets[i].filled && filled.filled
    ensures UnitsLeft(targets[..i] + [filled] + targets[i + 1..]) == UnitsLeft(targets) - targets[i].spec.quantity
  {
    var after := targets[..i] + [filled] + targets[i + 1..];
    if i == 0 {
      assert after == [filled] + targets[1..];
    } else {
      assert after[1..] == targets[1..][..i - 1] + [filled] + targets[1..][i..];
      LeftAfterFilling(targets[1..], i - 1, filled);
    }
  }

  lemma {:induction false} LeftAtLeast(targets: seq<TargetState>, i: nat)
    requires WholeUnits(targets) && i < |targets|
    ensures UnitsLeft(targets) >= if targets[i].filled then 0 else targets[i].spec.quantity
  {
    LeftNotNegative(targets[1..]);
    if i > 0 {
      LeftAtLeast(targets[1..], i - 1);
    }
  }

  lemma {:induction false} LeftNotNegative(targets: seq<TargetState>)
    requires WholeUnits(targets)
    ensures UnitsLeft(targets) >= 0
  {
    if targets != [] {
      LeftNotNegative(targets[1..]);
    }
  }

  lemma {:induction false} LeftOfUnfilled(targets: seq<TargetSpec>)
    requires forall i | 0 <= i < |targets| :: targets[i].quantity >= 1
    ensures var states := Unfilled(targets);
            |states| == |targets| && UnitsLeft(states) == Units(targets) && WholeUnits(states)
  {
    if targets != [] {
      LeftOfUnfilled(targets[1..]);
    }
  }

  // ---------------------------------------------------------------- the invariant

  /** The fee charged on entering. */
  function EntryFee(p: Position): real {
    if p.entryFill.Some? then PaperLedger.OrZero(FeeFor(p.spec.policy, p.spec.quantity)) else 0.0
  }

  /** What a pass over the ledger remembers is what the position says of itself. */
  ghost predicate Mirrors(p: Position, m: PaperLedger.Pass) {
    && m.creation == Some(CreationData(p.spec)) && m.decided == Some(p.spec.decisionTime)
    && (m.entry.Some? <==> p.entryFill.Some?) && (p.entryTime.Some? <==> p.entryFill.Some?)
    && (m.entry.Some? ==> m.entry.value.time == p.entryTime)
    && (m.rejected <==> p.state == REJECTED) && (m.cancelled <==> p.state == CANCELLED)
    && (m.closed.Some? <==> p.state == CLOSED)
    && (m.closed.Some? ==> m.closed.value.data == ClosingData(p.gross, p.fees) && m.closed.value.time.Some?)
  }

  ghost predicate MoneyMirrors(p: Position, m: PaperLedger.Pass) {
    && m.gross == p.gross
    && (p.fees.Some? <==> p.spec.policy.feePerUnit.Some?)
    && (p.fees.Some? ==> p.fees.value == m.fees + EntryFee(p))
  }

  /** With units still open, the state says whether an exit has happened or a bar was ambiguous. */
  ghost predicate StateMirrors(p: Position, m: PaperLedger.Pass) {
    && (p.entryFill.None? ==> !m.exited && !m.halted)
    && (p.remaining > 0 && p.state == OPEN ==> !m.exited && !m.halted)
    && (p.remaining > 0 && p.state == PARTIALLY_CLOSED ==> m.exited && !m.halted)
    && (p.remaining > 0 && p.state == AMBIGUOUS_HALTED ==> m.halted)
  }

  /** `exited` units have left; what remains covers the targets still to be filled. */
  ghost predicate UnitsOk(p: Position, exited: int) {
    && p.spec.quantity >= 1 && p.targets != [] && WholeUnits(p.targets)
    && p.remaining + exited == (if p.entryFill.Some? then p.spec.quantity else 0)
    && 0 <= p.remaining && 0 <= exited
    && (p.entryFill.Some? <==> HasExposure(p.state) || p.state == CLOSED)
    && (p.entryFill.None? ==> p.remaining == 0 && UnitsLeft(p.targets) <= p.spec.quantity)
    && (p.remaining > 0 ==> UnitsLeft(p.targets) <= p.remaining)
  }

  /** Holds while a bar is being worked through, `m` and `exited` being what the ledger says. */
  ghost predicate Works(p: Position, m: PaperLedger.Pass, exited: int) {
    Mirrors(p, m) && MoneyMirrors(p, m) && StateMirrors(p, m) && UnitsOk(p, exited)
  }

  ghost predicate Working(p: Position) {
    Works(p, PaperLedger.Passed(p.events), ExitedUnits(p.events))
  }

  /** Holds between inputs. */
  ghost predicate Settled(p: Position) {
    Working(p) && (HasExposure(p.state) <==> p.remaining > 0) && (p.closePending ==> HasExposure(p.state))
  }

  predicate IsDerived(kind: Kind) {
    kind in {ENTRY_FILLED, ENTRY_REJECTED, SAME_BAR_AMBIGUITY, POSITION_CLOSED} || IsExit(kind)
  }

  /** `b` came of `a` by the engine's own doing: the same terms, and only derived entries added. */
  ghost predicate Extends(a: Position, b: Position) {
    && b.spec == a.spec && b.approval == a.approval && a.events <= b.events
    && forall i | |a.events| <= i < |b.events| :: IsDerived(b.events[i].kind) && b.events[i].sequence == i + 1
  }

  /** `b` is `a` with one more ledger entry. */
  ghost predicate Adds(a: Position, b: Position, e: Event) {
    b.spec == a.spec && b.approval == a.approval && b.events == a.events + [e] && e.sequence == |a.events| + 1
  }

  function UnitsOut(e: Event): int {
    if IsExit(e.kind) && e.data.quantity.Some? then e.data.quantity.value else 0
  }

  lemma AddsPasses(a: Position, b: Position, e: Event)
    requires Adds(a, b, e)
    ensures PaperLedger.Passed(b.events) == PaperLedger.Advance(PaperLedger.Passed(a.events), e)
    ensures ExitedUnits(b.events) == ExitedUnits(a.events) + UnitsOut(e)
    ensures IsDerived(e.kind) ==> Extends(a, b)
  {
    assert b.events[..|a.events|] == a.events;
  }

  /** Enough to show for a step that adds one entry. */
  lemma OneEntryWorks(a: Position, b: Position, e: Event)
    requires Adds(a, b, e)
    requires Works(b, PaperLedger.Advance(PaperLedger.Passed(a.events), e), ExitedUnits(a.events) + UnitsOut(e))
    ensures Working(b) && (IsDerived(e.kind) ==> Extends(a, b))
  {
    AddsPasses(a, b, e);
  }

  // ---------------------------------------------------------------- entering

  lemma RejectedWorks(b: Position, m: PaperLedger.Pass, exited: int, time: int, fill: real)
    requires Works(b, m, exited) && b.state == PENDING_ENTRY
    ensures var r := Rejected(b, time, fill);
            var e := r.events[|b.events|];
            Adds(b, r, e) && e.kind == ENTRY_REJECTED && Works(r, PaperLedger.Advance(m, e), exited)
  {
  }

  lemma EnteredWorks(b: Position, m: PaperLedger.Pass, exited: int, time: int, fill: real)
    requires Works(b, m, exited) && b.state == PENDING_ENTRY
    ensures var r := Entered(b, time, fill);
            var e := r.events[|b.events|];
            Adds(b, r, e) && e.kind == ENTRY_FILLED && Works(r, PaperLedger.Advance(m, e), exited)
  {
  }

  lemma EnterIs(b: Position, bar: Candle)
    requires b.targets != []
    ensures var r := Enter(b, bar);
            var fill := AdversePrice(bar.prices.open, b.spec.policy.slippage, b.spec.direction, true);
            r in {Err(FILL_NOT_POSITIVE), Ok(Rejected(b, bar.openTime, fill)), Ok(Entered(b, bar.openTime, fill))}
  {
  }

  lemma EnterWorks(b: Position, bar: Candle)
    requires Working(b) && b.state == PENDING_ENTRY
    ensures var r := Enter(b, bar);
            && (r.Err? ==> r.error == FILL_NOT_POSITIVE)
            && (r.Ok? ==> Working(r.value) && Extends(b, r.value)
                          && (r.value.state == OPEN <==> r.value.remaining > 0) && r.value.state in {OPEN, REJECTED})
  {
    var fill := AdversePrice(bar.prices.open, b.spec.policy.slippage, b.spec.direction, true);
    EnterIs(b, bar);
    RejectedWorking(b, bar.openTime, fill);
    EnteredWorking(b, bar.openTime, fill);
  }

  lemma RejectedWorking(b: Position, time: int, fill: real)
    requires Working(b) && b.state == PENDING_ENTRY
    ensures var r := Rejected(b, time, fill);
            Working(r) && Extends(b, r) && r.state == REJECTED && r.remaining == 0
  {
    var r := Rejected(b, time, fill);
    RejectedWorks(b, PaperLedger.Passed(b.events), ExitedUnits(b.events), time, fill);
    OneEntryWorks(b, r, r.events[|b.events|]);
  }

  lemma EnteredWorking(b: Position, time: int, fill: real)
    requires Working(b) && b.state == PENDING_ENTRY
    ensures var r := Entered(b, time, fill);
            Working(r) && Extends(b, r) && r.state == OPEN && r.remaining > 0
  {
    var r := Entered(b, time, fill);
    EnteredWorks(b, PaperLedger.Passed(b.events), ExitedUnits(b.events), time, fill);
    OneEntryWorks(b, r, r.events[|b.events|]);
  }

  // ---------------------------------------------------------------- exits

  /** Booking an exit moves money and units together, in the position and in its ledger. */
  lemma BookedMoves(
      b: Position, m: PaperLedger.Pass, exited: int, kind: Kind, time: int, fill: real, q: int, gross: real)
    requires Works(b, m, exited) && HasExposure(b.state) && IsExit(kind) && 1 <= q <= b.remaining
    ensures var r := Booked(b, kind, time, fill, q, gross);
            var e := r.events[|b.events|];
            var m' := PaperLedger.Advance(m, e);
            && Adds(b, r, e) && e.kind == kind && UnitsOut(e) == q
            && Mirrors(r, m') && MoneyMirrors(r, m') && m'.exited && !m'.halted
            && r.remaining == b.remaining - q && r.targets == b.targets && r.state == b.state
            && r.entryFill == b.entryFill
  {
  }

  lemma BookedAllWorks(b: Position, m: PaperLedger.Pass, exited: int, kind: Kind, time: int, fill: real, gross: real)
    requires Works(b, m, exited) && HasExposure(b.state) && IsExit(kind) && b.remaining > 0
    ensures var r := Booked(b, kind, time, fill, b.remaining, gross);
            var e := r.events[|b.events|];
            Adds(b, r, e) && IsDerived(e.kind) && Works(r, PaperLedger.Advance(m, e), exited + UnitsOut(e))
            && r.remaining == 0 && r.state == b.state
  {
    BookedMoves(b, m, exited, kind, time, fill, b.remaining, gross);
  }

  lemma BookedAllWorking(b: Position, kind: Kind, time: int, fill: real, gross: real)
    requires Working(b) && HasExposure(b.state) && IsExit(kind) && b.remaining > 0
    ensures var r := Booked(b, kind, time, fill, b.remaining, gross);
            Working(r) && Extends(b, r) && r.remaining == 0 && r.state == b.state
  {
    var r := Booked(b, kind, time, fill, b.remaining, gross);
    BookedAllWorks(b, PaperLedger.Passed(b.events), ExitedUnits(b.events), kind, time, fill, gross);
    OneEntryWorks(b, r, r.events[|b.events|]);
  }

  /** With units in hand the only thing that can stand in an exit's way is a price that is none. */
  lemma ExitIsBooked(b: Position, product: Product, kind: Kind, bar: Candle, fill: real, q: int)
    requires b.entryFill.Some? && 1 <= q <= b.remaining
    ensures var r := Exit(b, product, kind, bar, fill, q);
            var gross := product.gross(b.spec.direction, b.entryFill.value, fill, q);
            && (r.Err? ==> r.error == FILL_NOT_POSITIVE)
            && (r.Ok? ==> gross.Some? && r.value == Booked(b, kind, bar.openTime, fill, q, gross.value))
  {
  }

  lemma HasEntered(b: Position)
    requires Working(b) && HasExposure(b.state)
    ensures b.entryFill.Some?
  {
  }

  lemma ExitAllWorks(b: Position, product: Product, kind: Kind, bar: Candle, fill: real)
    requires Working(b) && HasExposure(b.state) && IsExit(kind) && b.remaining > 0
    ensures var r := Exit(b, product, kind, bar, fill, b.remaining);
            && (r.Err? ==> r.error == FILL_NOT_POSITIVE)
            && (r.Ok? ==> Working(r.value) && Extends(b, r.value) && r.value.remaining == 0 && r.value.state == b.state)
  {
    HasEntered(b);
    ExitIsBooked(b, product, kind, bar, fill, b.remaining);
    var gross := product.gross(b.spec.direction, b.entryFill.value, fill, b.remaining);
    if gross.Some? {
      BookedAllWorking(b, kind, bar.openTime, fill, gross.value);
    }
  }

  lemma FilledUnits(b: Position, i: nat)
    requires i < |b.targets| && WholeUnits(b.targets) && !b.targets[i].filled
    ensures var r := MarkFilled(b, i);
            && WholeUnits(r.targets) && |r.targets| == |b.targets|
            && UnitsLeft(r.targets) == UnitsLeft(b.targets) - b.targets[i].spec.quantity
            && forall k | 0 <= k < |b.targets| && k != i :: r.targets[k] == b.targets[k]
  {
    LeftAfterFilling(b.targets, i, b.targets[i].(filled := true, fillPrice := Some(b.targets[i].spec.price)));
  }

  lemma TargetBookedWorks(b: Position, m: PaperLedger.Pass, exited: int, i: nat, time: int, gross: real)
    requires Works(b, m, exited) && b.state in {OPEN, PARTIALLY_CLOSED} && b.remaining > 0
    requires i < |b.targets| && !b.targets[i].filled
    ensures var t := b.targets[i].spec;
            1 <= t.quantity <= b.remaining
    ensures var t := b.targets[i].spec;
            var r := MarkFilled(Booked(b, TARGET_FILLED, time, t.price, t.quantity, gross), i);
            var e := r.events[|b.events|];
            Adds(b, r, e) && IsDerived(e.kind) && Works(r, PaperLedger.Advance(m, e), exited + UnitsOut(e))
            && r.state in {OPEN, PARTIALLY_CLOSED}
  {
    var t := b.targets[i].spec;
    LeftAtLeast(b.targets, i);
    BookedMoves(b, m, exited, TARGET_FILLED, time, t.price, t.quantity, gross);
    FilledUnits(Booked(b, TARGET_FILLED, time, t.price, t.quantity, gross), i);
  }

  lemma TargetBookedWorking(b: Position, i: nat, time: int, gross: real)
    requires Working(b) && b.state in {OPEN, PARTIALLY_CLOSED} && b.remaining > 0
    requires i < |b.targets| && !b.targets[i].filled
    ensures var t := b.targets[i].spec;
            1 <= t.quantity <= b.remaining
    ensures var t := b.targets[i].spec;
            var r := MarkFilled(Booked(b, TARGET_FILLED, time, t.price, t.quantity, gross), i);
            Working(r) && Extends(b, r) && r.state in {OPEN, PARTIALLY_CLOSED}
  {
    var t := b.targets[i].spec;
    TargetBookedWorks(b, PaperLedger.Passed(b.events), ExitedUnits(b.events), i, time, gross);
    var r := MarkFilled(Booked(b, TARGET_FILLED, time, t.price, t.quantity, gross), i);
    OneEntryWorks(b, r, r.events[|b.events|]);
  }

  /** What filling targets one after the other comes to. */
  ghost predicate FillsWork(b: Position, r: Result<Position, Refusal>) {
    && (r.Err? ==> r.error == FILL_NOT_POSITIVE)
    && (r.Ok? ==> Working(r.value) && Extends(b, r.value) && r.value.state in {OPEN, PARTIALLY_CLOSED})
  }

  lemma ExitTargetIs(b: Position, product: Product, bar: Candle, i: nat)
    requires i < |b.targets| && b.entryFill.Some? && 1 <= b.targets[i].spec.quantity <= b.remaining
    ensures var t := b.targets[i].spec;
            var r := ExitTarget(b, product, bar, i);
            var gross := product.gross(b.spec.direction, b.entryFill.value, t.price, t.quantity);
            && (r.Err? ==> r.error == FILL_NOT_POSITIVE)
            && (r.Ok? ==>
                  && gross.Some?
                  && r.value == MarkFilled(Booked(b, TARGET_FILLED, bar.openTime, t.price, t.quantity, gross.value), i))
  {
  }

  lemma ExitTargetWorks(b: Position, product: Product, bar: Candle, i: nat)
    requires Working(b) && b.state in {OPEN, PARTIALLY_CLOSED} && b.remaining > 0
    requires i < |b.targets| && !b.targets[i].filled
    ensures FillsWork(b, ExitTarget(b, product, bar, i))
  {
    var t := b.targets[i].spec;
    HasEntered(b);
    TargetBookedWorking(b, i, bar.openTime, 0.0);
    ExitTargetIs(b, product, bar, i);
    var gross := product.gross(b.spec.direction, b.entryFill.value, t.price, t.quantity);
    if gross.Some? {
      TargetBookedWorking(b, i, bar.openTime, gross.value);
    }
  }

  lemma OtherTargetsStay(b: Position, product: Product, bar: Candle, i: nat)
    requires i < |b.targets|
    ensures var r := ExitTarget(b, product, bar, i);
            r.Ok? ==> |r.value.targets| == |b.targets| &&
                      forall k | 0 <= k < |b.targets| && k != i :: r.value.targets[k] == b.targets[k]
  {
  }

  lemma ExtendsOn(a: Position, b: Position, c: Position)
    requires Extends(a, b) && Extends(b, c)
    ensures Extends(a, c)
  {
    forall i | |a.events| <= i < |c.events| ensures IsDerived(c.events[i].kind) && c.events[i].sequence == i + 1 {
      assert i < |b.events| ==> c.events[i] == b.events[i];
    }
  }

  lemma ThenFills(a: Position, b: Position, r: Result<Position, Refusal>)
    requires Extends(a, b) && FillsWork(b, r)
    ensures FillsWork(a, r)
  {
    if r.Ok? {
      ExtendsOn(a, b, r.value);
    }
  }

  lemma FillAtOpenIs(b: Position, product: Product, bar: Candle, i: nat)
    requires i < |b.targets|
    ensures var r, one := FillAtOpen(b, product, bar, i), ExitTarget(b, product, bar, i);
            || r == Ok(b)
            || r == FillAtOpen(b, product, bar, i + 1)
            || (!b.targets[i].filled && b.remaining != 0 &&
                if one.Ok? then r == FillAtOpen(one.value, product, bar, i + 1) && |one.value.targets| == |b.targets|
                else r == one)
  {
    ExitTargetKeepsShape(b, product, bar, i);
  }

  lemma {:induction false} FillAtOpenWorks(b: Position, product: Product, bar: Candle, i: nat)
    requires Working(b) && b.state in {OPEN, PARTIALLY_CLOSED}
    ensures FillsWork(b, FillAtOpen(b, product, bar, i))
    decreases |b.targets| - i
  {
    if i < |b.targets| {
      FillAtOpenIs(b, product, bar, i);
      FillAtOpenWorks(b, product, bar, i + 1);
      NotNegative(b);
      if !b.targets[i].filled && b.remaining != 0 {
        FillOneWorks(b, product, bar, i);
      }
    }
  }

  lemma FillOneWorks(b: Position, product: Product, bar: Candle, i: nat)
    requires Working(b) && b.state in {OPEN, PARTIALLY_CLOSED} && b.remaining > 0
    requires i < |b.targets| && !b.targets[i].filled
    ensures var one := ExitTarget(b, product, bar, i);
            FillsWork(b, one) && (one.Ok? ==> FillsWork(b, FillAtOpen(one.value, product, bar, i + 1)))
    decreases |b.targets| - i, 0
  {
    ExitTargetWorks(b, product, bar, i);
    ExitTargetKeepsShape(b, product, bar, i);
    var one := ExitTarget(b, product, bar, i);
    if one.Ok? {
      FillAtOpenWorks(one.value, product, bar, i + 1);
      ThenFills(b, one.value, FillAtOpen(one.value, product, bar, i + 1));
    }
  }

  lemma NotNegative(b: Position)
    requires Working(b)
    ensures b.remaining >= 0
  {
  }

  ghost predicate StillUnfilled(b: Position, touched: seq<nat>) {
    && (forall k | 0 <= k < |touched| :: touched[k] < |b.targets| && !b.targets[touched[k]].filled)
    && (forall j, k | 0 <= j < k < |touched| :: touched[j] < touched[k])
  }

  lemma RestUnfilled(b: Position, one: Position, touched: seq<nat>)
    requires StillUnfilled(b, touched) && touched != [] && |one.targets| == |b.targets|
    requires forall k | 0 <= k < |b.targets| && k != touched[0] :: one.targets[k] == b.targets[k]
    ensures StillUnfilled(one, touched[1..])
  {
    forall k | 0 <= k < |touched| - 1 ensures touched[1..][k] == touched[k + 1] && touched[k + 1] > touched[0] {}
  }

  lemma {:induction false} FillTouchedWorks(b: Position, product: Product, bar: Candle, touched: seq<nat>)
    requires Working(b) && b.state in {OPEN, PARTIALLY_CLOSED} && StillUnfilled(b, touched)
    ensures FillsWork(b, FillTouched(b, product, bar, touched))
    decreases |touched|
  {
    NotNegative(b);
    if touched != [] && b.remaining > 0 {
      ExitTargetWorks(b, product, bar, touched[0]);
      OtherTargetsStay(b, product, bar, touched[0]);
      var r := ExitTarget(b, product, bar, touched[0]);
      if r.Ok? {
        RestUnfilled(b, r.value, touched);
        FillTouchedWorks(r.value, product, bar, touched[1..]);
        ThenFills(b, r.value, FillTouched(r.value, product, bar, touched[1..]));
      }
    }
  }

  // ---------------------------------------------------------------- one bar

  lemma AmbiguousWorks(b: Position, m: PaperLedger.Pass, exited: int, time: int)
    requires Works(b, m, exited) && b.state in {OPEN, PARTIALLY_CLOSED} && b.remaining > 0
    ensures var a := Ambiguous(b, time);
            var r := if b.spec.policy.halts then a.(state := AMBIGUOUS_HALTED) else a;
            var e := r.events[|b.events|];
            Adds(b, r, e) && IsDerived(e.kind) && Works(r, PaperLedger.Advance(m, e), exited + UnitsOut(e))
  {
  }

  ghost predicate BarWorks(b: Position, r: Result<Position, Refusal>) {
    && (r.Err? ==> r.error == FILL_NOT_POSITIVE)
    && (r.Ok? ==> Working(r.value) && Extends(b, r.value)
                  && (r.value.entryFill.Some? ==> HasExposure(r.value.state)))
  }

  lemma IntrabarWorks(b: Position, product: Product, bar: Candle)
    requires Working(b) && b.state in {OPEN, PARTIALLY_CLOSED} && b.remaining > 0
    ensures BarWorks(b, Intrabar(b, product, bar))
  {
    var touched := TouchedFrom(b, bar, 0);
    if AtOrWorse(b.spec, WorstOf(b.spec, bar), b.stop) {
      StopInsideWorks(b, product, bar);
      AmbiguousBarWorks(b, product, bar);
    } else {
      FillTouchedWorks(b, product, bar, touched);
    }
  }

  lemma StopInsideWorks(b: Position, product: Product, bar: Candle)
    requires Working(b) && HasExposure(b.state) && b.remaining > 0
    ensures BarWorks(b, ExitStop(b, product, bar, b.stop)) && BarWorks(b, ExitStop(b, product, bar, bar.prices.open))
  {
    var slip, direction := b.spec.policy.slippage, b.spec.direction;
    ExitAllWorks(b, product, STOP_FILLED, bar, AdversePrice(b.stop, slip, direction, false));
    ExitAllWorks(b, product, STOP_FILLED, bar, AdversePrice(bar.prices.open, slip, direction, false));
  }

  lemma AmbiguousBarWorks(b: Position, product: Product, bar: Candle)
    requires Working(b) && b.state in {OPEN, PARTIALLY_CLOSED} && b.remaining > 0
    ensures var a := Ambiguous(b, bar.openTime);
            BarWorks(b, if b.spec.policy.halts then Ok(a.(state := AMBIGUOUS_HALTED))
                        else ExitStop(a, product, bar, a.stop))
  {
    var a := Ambiguous(b, bar.openTime);
    var r := if b.spec.policy.halts then a.(state := AMBIGUOUS_HALTED) else a;
    AmbiguousWorks(b, PaperLedger.Passed(b.events), ExitedUnits(b.events), bar.openTime);
    OneEntryWorks(b, r, r.events[|b.events|]);
    if !b.spec.policy.halts {
      StopInsideWorks(a, product, bar);
      if ExitStop(a, product, bar, a.stop).Ok? {
        ExtendsOn(b, a, ExitStop(a, product, bar, a.stop).value);
      }
    }
  }

  lemma ManualExitWorks(b: Position, product: Product, bar: Candle)
    requires Working(b) && HasExposure(b.state) && b.remaining > 0
    ensures BarWorks(b, ManualExit(b, product, bar))
  {
    var fill := AdversePrice(bar.prices.open, b.spec.policy.slippage, b.spec.direction, false);
    ExitAllWorks(b, product, MANUAL_EXIT_FILLED, bar, fill);
    var r := Exit(b, product, MANUAL_EXIT_FILLED, bar, fill, b.remaining);
    if r.Ok? {
      SameBooks(r.value, r.value.(closePending := false));
    }
  }

  /** What no rule of the invariant reads. */
  lemma SameBooks(a: Position, b: Position)
    requires Working(a)
    requires b == a.(lastBarTime := b.lastBarTime, lastMark := b.lastMark, closePending := b.closePending,
                     barsApplied := b.barsApplied, stop := b.stop)
    ensures Working(b)
  {
  }

  lemma AtOpenWorks(b: Position, product: Product, bar: Candle)
    requires Working(b) && b.state in {OPEN, PARTIALLY_CLOSED} && b.remaining > 0
    ensures var r := AtOpen(b, product, bar);
            BarWorks(b, r) && (r.Ok? && r.value.remaining > 0 ==> r.value.state in {OPEN, PARTIALLY_CLOSED})
  {
    if AtOrWorse(b.spec, bar.prices.open, b.stop) {
      StopInsideWorks(b, product, bar);
      ExitAllWorks(b, product, STOP_FILLED, bar,
                   AdversePrice(bar.prices.open, b.spec.policy.slippage, b.spec.direction, false));
    } else {
      FillAtOpenWorks(b, product, bar, 0);
    }
  }

  lemma OpenBarWorks(b: Position, product: Product, bar: Candle)
    requires Working(b) && b.state in {OPEN, PARTIALLY_CLOSED} && b.remaining > 0
    ensures var r := AtOpen(b, product, bar);
            && BarWorks(b, r)
            && (r.Ok? && r.value.remaining > 0 ==> BarWorks(b, Intrabar(r.value, product, bar)))
  {
    AtOpenWorks(b, product, bar);
    var r := AtOpen(b, product, bar);
    if r.Ok? {
      if r.value.remaining > 0 {
        IntrabarWorks(r.value, product, bar);
        ThenWorks(b, r.value, Intrabar(r.value, product, bar));
      }
    }
  }

  lemma ThenWorks(a: Position, b: Position, r: Result<Position, Refusal>)
    requires Extends(a, b) && BarWorks(b, r)
    ensures BarWorks(a, r)
  {
    if r.Ok? {
      ExtendsOn(a, b, r.value);
    }
  }

  lemma StepBarWorks(b: Position, bar: Candle, product: Product)
    requires Settled(b) && !IsTerminal(b.state)
    ensures BarWorks(b, StepBar(b, bar, product))
  {
    if b.state == PENDING_ENTRY {
      EnterWorks(b, bar);
      var r := Enter(b, bar);
      if r.Ok? && r.value.state == OPEN {
        IntrabarWorks(r.value, product, bar);
        ThenWorks(b, r.value, Intrabar(r.value, product, bar));
      }
    } else if b.closePending {
      ManualExitWorks(b, product, bar);
    } else if b.state == AMBIGUOUS_HALTED {
    } else {
      OpenBarWorks(b, product, bar);
    }
  }

  lemma ClosedOutWorks(b: Position, m: PaperLedger.Pass, exited: int, bar: Candle)
    requires Works(b, m, exited) && HasExposure(b.state) && b.remaining == 0
    ensures var r := Finish(b, bar);
            var e := r.events[|b.events|];
            Adds(b, r, e) && IsDerived(e.kind) && Works(r, PaperLedger.Advance(m, e), exited + UnitsOut(e))
            && r.state == CLOSED
  {
  }

  lemma FinishWorks(b: Position, bar: Candle)
    requires Working(b) && (b.entryFill.Some? ==> HasExposure(b.state))
    ensures var r := Finish(b, bar);
            Working(r) && Extends(b, r) && (HasExposure(r.state) <==> r.remaining > 0)
  {
    if HasExposure(b.state) && b.remaining == 0 {
      var r := Finish(b, bar);
      ClosedOutWorks(b, PaperLedger.Passed(b.events), ExitedUnits(b.events), bar);
      OneEntryWorks(b, r, r.events[|b.events|]);
    }
  }

  lemma {:induction false} SomeBar(events: seq<Event>, i: nat)
    requires i < |events| && events[i].kind == OBSERVATION_APPLIED
    ensures BarEvents(events) != []
  {
    if i < |events| - 1 {
      SomeBar(events[..|events| - 1], i);
    }
  }

  lemma BuildWorks(b: Position)
    requires Working(b) && (HasExposure(b.state) <==> b.remaining > 0) && BarEvents(b.events) != []
    ensures var r := Build(b);
            Settled(r) && r.events == b.events && r.spec == b.spec && r.approval == b.approval
  {
    SameBooks(b, Build(b));
  }

  /** The entry a bar leaves: an input, which changes nothing the books say. */
  lemma ObservedSettled(p: Position, bar: Candle)
    requires Settled(p)
    ensures var b := Emit(p, OBSERVATION_APPLIED, Some(bar.openTime), BarData(bar));
            Settled(b) && Adds(p, b, Event(|p.events| + 1, OBSERVATION_APPLIED, Some(bar.openTime), BarData(bar)))
  {
    NeutralEntry(p, Emit(p, OBSERVATION_APPLIED, Some(bar.openTime), BarData(bar)),
                 Event(|p.events| + 1, OBSERVATION_APPLIED, Some(bar.openTime), BarData(bar)));
  }

  /** An input that is let through either changes nothing, or adds itself to the ledger and then
      whatever it led to. */
  ghost predicate Records(p: Position, item: Input, r: Position) {
    || r == p
    || (&& |r.events| > |p.events| && p.events <= r.events && r.spec == p.spec && r.approval == p.approval
        && InputOf(p.spec, r.events[|p.events|]) == Ok([item]) && r.events[|p.events|].sequence == |p.events| + 1
        && forall i | |p.events| < i < |r.events| :: IsDerived(r.events[i].kind) && r.events[i].sequence == i + 1)
  }

  lemma NewBarWorks(p: Position, bar: Candle, product: Product)
    requires Settled(p) && !IsTerminal(p.state) && ValidBar(p.spec, bar)
    ensures var r := ApplyNewBar(p, bar, product);
            && (r.Err? ==> r.error == FILL_NOT_POSITIVE)
            && (r.Ok? ==> Settled(r.value) && Records(p, Observe(bar), r.value))
  {
    var b := Emit(p, OBSERVATION_APPLIED, Some(bar.openTime), BarData(bar));
    ObservedSettled(p, bar);
    StepBarWorks(b, bar, product);
    if StepBar(b, bar, product).Ok? {
      var stepped := StepBar(b, bar, product).value;
      FinishWorks(stepped, bar);
      ExtendsOn(b, stepped, Finish(stepped, bar));
      BuiltRecords(p, bar, b, Finish(stepped, bar));
    }
  }

  lemma BuiltRecords(p: Position, bar: Candle, b: Position, finished: Position)
    requires ValidBar(p.spec, bar) && Extends(b, finished) && Working(finished)
    requires HasExposure(finished.state) <==> finished.remaining > 0
    requires Adds(p, b, Event(|p.events| + 1, OBSERVATION_APPLIED, Some(bar.openTime), BarData(bar)))
    ensures Settled(Build(finished)) && Records(p, Observe(bar), Build(finished))
  {
    assert finished.events[|p.events|] == b.events[|p.events|];
    SomeBar(finished.events, |p.events|);
    BuildWorks(finished);
  }

  /** A bar is refused, already applied, or worked through. */
  lemma ObservationIs(p: Position, bar: Candle, product: Product)
    ensures var r := ApplyObservation(p, bar, product);
            || r.Err? || r.value == p
            || (ValidBar(p.spec, bar) && !IsTerminal(p.state) && r == ApplyNewBar(p, bar, product))
  {
  }

  lemma ObservationWorks(p: Position, bar: Candle, product: Product)
    requires Settled(p)
    ensures var r := ApplyObservation(p, bar, product);
            r.Ok? ==> Settled(r.value) && Records(p, Observe(bar), r.value)
  {
    ObservationIs(p, bar, product);
    if ValidBar(p.spec, bar) {
      if !IsTerminal(p.state) {
        NewBarWorks(p, bar, product);
      }
    }
  }

  /** The two refusals the source marks as impossible are: a bar the position may still see, in its
      turn, is refused only because a simulated price would not be positive. */
  lemma OnlyAPriceStopsABar(p: Position, bar: Candle, product: Product)
    requires Settled(p) && ValidBar(p.spec, bar) && BarRefusal(p, bar).None?
    requires p.lastBarTime.Some? ==> bar.openTime > p.lastBarTime.value
    ensures var r := ApplyObservation(p, bar, product);
            r.Err? ==> r.error == FILL_NOT_POSITIVE
  {
    NewBarWorks(p, bar, product);
  }

  // ---------------------------------------------------------------- every input

  /** An entry no rule of the books reads. */
  lemma NeutralEntry(p: Position, r: Position, e: Event)
    requires Settled(p) && Adds(p, r, e) && e.kind in {CLOSE_REQUESTED, STOP_MOVED_TO_BREAKEVEN, OBSERVATION_APPLIED}
    requires r == p.(events := r.events, stop := r.stop, closePending := r.closePending)
    requires r.closePending ==> HasExposure(r.state)
    ensures Settled(r)
  {
    AddsPasses(p, r, e);
    assert PaperLedger.Advance(PaperLedger.Passed(p.events), e) == PaperLedger.Passed(p.events);
  }

  lemma CloseRequestWorks(p: Position)
    requires Settled(p)
    ensures var r := RequestClose(p);
            r.Ok? ==> Settled(r.value) && Records(p, CloseInput, r.value)
  {
    var e := Event(|p.events| + 1, CLOSE_REQUESTED, p.lastBarTime, NO_DATA.(quantity := Some(p.remaining)));
    if RequestClose(p).Ok? && !p.closePending {
      NeutralEntry(p, RequestClose(p).value, e);
    }
  }

  lemma BreakevenWorks(p: Position)
    requires Settled(p)
    ensures var r := MoveStopToBreakeven(p);
            r.Ok? ==> Settled(r.value) && Records(p, BreakevenInput, r.value)
  {
    var e := Event(|p.events| + 1, STOP_MOVED_TO_BREAKEVEN, p.lastBarTime, NO_DATA.(fillPrice := p.entryFill));
    if MoveStopToBreakeven(p).Ok? && MoveStopToBreakeven(p).value != p {
      NeutralEntry(p, MoveStopToBreakeven(p).value, e);
    }
  }

  lemma CancelledWorks(p: Position, m: PaperLedger.Pass, exited: int, e: Event, r: Position)
    requires Works(p, m, exited) && p.state == PENDING_ENTRY && e.kind == POSITION_CANCELLED
    requires r == p.(events := r.events, state := CANCELLED)
    ensures Works(r, PaperLedger.Advance(m, e), exited + UnitsOut(e))
  {
  }

  lemma CancelWorks(p: Position)
    requires Settled(p)
    ensures var r := Cancel(p);
            r.Ok? ==> Settled(r.value) && Records(p, CancelInput, r.value)
  {
    if p.state == PENDING_ENTRY {
      var r, e := Cancel(p).value, Event(|p.events| + 1, POSITION_CANCELLED, None, NO_DATA);
      CancelledWorks(p, PaperLedger.Passed(p.events), ExitedUnits(p.events), e, r);
      OneEntryWorks(p, r, e);
    }
  }

  lemma InputWorks(p: Position, item: Input, product: Product)
    requires Settled(p)
    ensures var r := ApplyInput(p, item, product);
            r.Ok? ==> Settled(r.value) && Records(p, item, r.value)
  {
    match item
    case Observe(bar) => ObservationWorks(p, bar, product);
    case CloseInput => CloseRequestWorks(p);
    case BreakevenInput => BreakevenWorks(p);
    case CancelInput => CancelWorks(p);
  }

  lemma OpenedSettled(spec: Spec, approval: Approval, product: Product)
    requires ValidSpec(spec) && OpenPosition(spec, approval, product).Ok?
    ensures Settled(OpenPosition(spec, approval, product).value)
  {
    var p := OpenPosition(spec, approval, product).value;
    LeftOfUnfilled(spec.targets);
    assert p.events[..0] == [];
    assert p.events[..|p.events| - 1] == [];
  }

  /** A position as it lives: inputs in the order they came, those refused leaving it as it was. */
  function Live(p: Position, inputs: seq<Input>, product: Product): Position {
    if inputs == [] then p
    else
      var q := Live(p, inputs[..|inputs| - 1], product);
      var r := ApplyInput(q, inputs[|inputs| - 1], product);
      if r.Ok? then r.value else q
  }

  // ---------------------------------------------------------------- the ledger replays

  lemma InputsAppend(spec: Spec, events: seq<Event>, e: Event)
    requires InputsFromEvents(spec, events).Ok? && InputOf(spec, e).Ok?
    ensures InputsFromEvents(spec, events + [e]) == Ok(InputsFromEvents(spec, events).value + InputOf(spec, e).value)
  {
    assert (events + [e])[..|events|] == events;
  }

  lemma {:induction false} InputsSkipDerived(spec: Spec, events: seq<Event>, k: nat)
    requires k <= |events| && InputsFromEvents(spec, events[..k]).Ok?
    requires forall i | k <= i < |events| :: IsDerived(events[i].kind)
    ensures InputsFromEvents(spec, events) == InputsFromEvents(spec, events[..k])
  {
    if k < |events| {
      var before := events[..|events| - 1];
      assert before[..k] == events[..k];
      InputsSkipDerived(spec, before, k);
      InputsAppend(spec, before, events[|events| - 1]);
      assert before + [events[|events| - 1]] == events;
      var inputs := InputsFromEvents(spec, before).value;
      assert inputs + [] == inputs;
    } else {
      assert events[..k] == events;
    }
  }

  lemma RecordedInputs(p: Position, item: Input, r: Position)
    requires Records(p, item, r) && r != p && InputsFromEvents(p.spec, p.events).Ok?
    ensures InputsFromEvents(p.spec, r.events) == Ok(InputsFromEvents(p.spec, p.events).value + [item])
  {
    var k := |p.events|;
    assert r.events[..k + 1] == p.events + [r.events[k]];
    InputsAppend(p.spec, p.events, r.events[k]);
    InputsSkipDerived(p.spec, r.events, k + 1);
  }

  /** Replaying what the ledger says was put in ends at the position itself. */
  ghost predicate Replays(p: Position, product: Product) {
    var inputs := InputsFromEvents(p.spec, p.events);
    inputs.Ok? && Replay(p.spec, p.approval, product, inputs.value) == Ok(p)
  }

  lemma ReplayAppend(spec: Spec, approval: Approval, product: Product, inputs: seq<Input>, item: Input)
    requires Replay(spec, approval, product, inputs).Ok?
    ensures Replay(spec, approval, product, inputs + [item]) ==
            ApplyInput(Replay(spec, approval, product, inputs).value, item, product)
  {
    assert (inputs + [item])[..|inputs|] == inputs;
  }

  lemma StepReplays(p: Position, item: Input, r: Position, product: Product)
    requires Replays(p, product) && Records(p, item, r) && ApplyInput(p, item, product) == Ok(r)
    ensures Replays(r, product)
  {
    if r != p {
      RecordedInputs(p, item, r);
      ReplayAppend(p.spec, p.approval, product, InputsFromEvents(p.spec, p.events).value, item);
    }
  }

  ghost predicate Numbered(events: seq<Event>) {
    forall i | 0 <= i < |events| :: events[i].sequence == i + 1
  }

  ghost predicate Holds(p: Position, spec: Spec, approval: Approval, product: Product) {
    Settled(p) && Replays(p, product) && Numbered(p.events) && p.spec == spec && p.approval == approval
  }

  lemma OpenedHolds(spec: Spec, approval: Approval, product: Product)
    requires ValidSpec(spec) && OpenPosition(spec, approval, product).Ok?
    ensures Holds(OpenPosition(spec, approval, product).value, spec, approval, product)
  {
    var start := OpenPosition(spec, approval, product).value;
    OpenedSettled(spec, approval, product);
    OpenedReplays(start, spec, approval, product);
  }

  lemma OpenedReplays(start: Position, spec: Spec, approval: Approval, product: Product)
    requires OpenPosition(spec, approval, product) == Ok(start)
    ensures Replays(start, product) && Numbered(start.events) && start.spec == spec && start.approval == approval
  {
    assert start.events[..0] == [] && |start.events| == 1;
    assert start.events[..|start.events| - 1] == [];
    assert InputOf(spec, start.events[0]) == Ok([]);
    var none: seq<Input> := [];
    assert none + none == none;
    assert InputsFromEvents(spec, start.events) == Ok([]);
  }

  lemma StepHolds(p: Position, item: Input, spec: Spec, approval: Approval, product: Product)
    requires Holds(p, spec, approval, product) && ApplyInput(p, item, product).Ok?
    ensures Holds(ApplyInput(p, item, product).value, spec, approval, product)
  {
    var r := ApplyInput(p, item, product).value;
    InputWorks(p, item, product);
    StepReplays(p, item, r, product);
    StaysNumbered(p, item, r);
  }

  lemma StaysNumbered(p: Position, item: Input, r: Position)
    requires Numbered(p.events) && Records(p, item, r)
    ensures Numbered(r.events) && r.spec == p.spec && r.approval == p.approval
  {
    forall i | 0 <= i < |r.events| ensures r.events[i].sequence == i + 1 {
      assert i < |p.events| ==> r.events[i] == p.events[i];
    }
  }

  lemma {:induction false} EveryPositionHolds(spec: Spec, approval: Approval, product: Product, inputs: seq<Input>)
    requires ValidSpec(spec) && OpenPosition(spec, approval, product).Ok?
    ensures Holds(Live(OpenPosition(spec, approval, product).value, inputs, product), spec, approval, product)
  {
    if inputs == [] {
      OpenedHolds(spec, approval, product);
    } else {
      var before, item := inputs[..|inputs| - 1], inputs[|inputs| - 1];
      EveryPositionHolds(spec, approval, product, before);
      var p := Live(OpenPosition(spec, approval, product).value, before, product);
      if ApplyInput(p, item, product).Ok? {
        StepHolds(p, item, spec, approval, product);
      }
    }
  }

  /** Whatever was put in, in whatever order, let through or refused: replaying the stored ledger
      gives the very same position, and the very same ledger. */
  lemma LedgerRebuilds(spec: Spec, approval: Approval, product: Product, inputs: seq<Input>)
    requires ValidSpec(spec) && OpenPosition(spec, approval, product).Ok?
    ensures var p := Live(OpenPosition(spec, approval, product).value, inputs, product);
            Rebuild(spec, approval, product, p.events) == Ok(p)
  {
    EveryPositionHolds(spec, approval, product, inputs);
  }

  // ---------------------------------------------------------------- the fold agrees with the engine

  function PopulationFor(state: State): PaperLedger.Population {
    match state
    case PENDING_ENTRY => PaperLedger.PendingEntry
    case OPEN => PaperLedger.Open
    case PARTIALLY_CLOSED => PaperLedger.PartiallyClosed
    case AMBIGUOUS_HALTED => PaperLedger.AmbiguousHalted
    case CLOSED => PaperLedger.Closed
    case CANCELLED => PaperLedger.Cancelled
    case REJECTED => PaperLedger.Rejected
  }

  /** The outcome `o` reads the position as the engine left it - but for one thing: of a position
      that has not closed it counts the exits' fees, and leaves the fee for entering out. */
  ghost predicate ReadsAs(o: PaperLedger.Outcome, p: Position) {
    && o.population == PopulationFor(p.state)
    && o.realizedGross == p.gross
    && o.decisionTime == p.spec.decisionTime && o.entryTime == p.entryTime
    && (o.terminalTime.Some? <==> p.state == CLOSED)
    && (o.feesTotal.Some? <==> p.fees.Some?) && (o.realizedNet.Some? <==> p.fees.Some?)
    && (p.fees.Some? ==>
          && o.feesTotal.value == p.fees.value - (if p.state == CLOSED then 0.0 else EntryFee(p))
          && o.realizedNet.value == p.gross - o.feesTotal.value)
  }

  lemma SettledReads(p: Position, id: string)
    requires Settled(p)
    ensures PaperLedger.Fold(id, p.events).Ok? && ReadsAs(PaperLedger.Fold(id, p.events).value, p)
  {
    PaperLedger.FoldIsOnePass(id, p.events);
  }

  /** For every run of the engine, the performance fold reads its ledger without error, and sees
      the state, the money and the times the engine ended with. */
  lemma FoldReadsTheEngine(spec: Spec, approval: Approval, product: Product, inputs: seq<Input>, id: string)
    requires ValidSpec(spec) && OpenPosition(spec, approval, product).Ok?
    ensures var p := Live(OpenPosition(spec, approval, product).value, inputs, product);
            PaperLedger.Fold(id, p.events).Ok? && ReadsAs(PaperLedger.Fold(id, p.events).value, p)
  {
    EveryPositionHolds(spec, approval, product, inputs);
    SettledReads(Live(OpenPosition(spec, approval, product).value, inputs, product), id);
  }

  /** Fees and net agree with the engine's own exactly when fees are not modelled, the position
      has closed, or entering cost nothing. */
  lemma FeesAgreeIff(spec: Spec, approval: Approval, product: Product, inputs: seq<Input>, id: string)
    requires ValidSpec(spec) && OpenPosition(spec, approval, product).Ok?
    ensures var p := Live(OpenPosition(spec, approval, product).value, inputs, product);
            var o := PaperLedger.Fold(id, p.events);
            o.Ok? && (o.value.feesTotal == p.fees <==> p.fees.None? || p.state == CLOSED || EntryFee(p) == 0.0)
  {
    FoldReadsTheEngine(spec, approval, product, inputs, id);
  }

  function OneUnitLong(fee: real): Spec {
    Spec("I", LONG, 1, 100.0, 90.0, [TargetSpec(110.0, 1)], 1, 0, Policy(false, 0.0, Some(fee)), "")
  }

  function PlainProduct(): Product {
    Product(None, (price: real, stop: real) => true, (d: Direction, entry: real, fill: real, units: int) => Some(0.0))
  }

  lemma OneUnitIsValid(fee: real)
    requires fee > 0.0
    ensures ValidSpec(OneUnitLong(fee))
  {
    assert OneUnitLong(fee).targets[1..] == [];
    assert Units(OneUnitLong(fee).targets) == 1;
  }

  /** A bar that enters and reaches neither the stop nor the one target. */
  lemma QuietEntry(b: Position, bar: Candle, product: Product, fill: real)
    requires b.state == PENDING_ENTRY && |b.targets| == 1
    requires fill == AdversePrice(bar.prices.open, b.spec.policy.slippage, b.spec.direction, true) && fill > 0.0
    requires !AtOrWorse(b.spec, fill, b.stop) && !AtOrBetter(b.spec, fill, b.targets[0].spec.price)
    requires !AtOrWorse(b.spec, WorstOf(b.spec, bar), b.stop)
    requires !AtOrBetter(b.spec, BestOf(b.spec, bar), b.targets[0].spec.price)
    ensures StepBar(b, bar, product) == Ok(Entered(b, bar.openTime, fill))
  {
    var entered := Entered(b, bar.openTime, fill);
    assert TouchedFrom(entered, bar, 1) == [];
    assert TouchedFrom(entered, bar, 0) == [];
  }

  lemma EnteredStays(b: Position, bar: Candle, time: int, fill: real)
    requires b.fees == Some(0.0) && b.spec.quantity == 1 && b.spec.policy.feePerUnit.Some?
    ensures var r := Build(Finish(Entered(b, time, fill), bar));
            r.state == OPEN && r.fees == b.spec.policy.feePerUnit && r.entryFill == Some(fill) && r.spec == b.spec
  {
    var entered := Entered(b, time, fill);
    assert Finish(entered, bar) == entered;
  }

  lemma LiveOfOne(p: Position, item: Input, product: Product)
    ensures Live(p, [item], product) ==
            if ApplyInput(p, item, product).Ok? then ApplyInput(p, item, product).value else p
  {
    assert [item][..0] == [];
  }

  /** A run in which they do not: entered, and not closed yet. */
  lemma EntryFeeIsLeftOut(fee: real, id: string)
    requires fee > 0.0
    ensures var spec, approval := OneUnitLong(fee), Approval(true, Some(1));
            var bar := Candle("I", 1, true, 0, Prices(100.0, 101.0, 99.0, 100.0, 0.0));
            && ValidSpec(spec) && OpenPosition(spec, approval, PlainProduct()).Ok?
            && var p := Live(OpenPosition(spec, approval, PlainProduct()).value, [Observe(bar)], PlainProduct());
               p.state == OPEN && p.fees == Some(fee)
               && PaperLedger.Fold(id, p.events).Ok? && PaperLedger.Fold(id, p.events).value.feesTotal == Some(0.0)
  {
    var spec, approval, product := OneUnitLong(fee), Approval(true, Some(1)), PlainProduct();
    var bar := Candle("I", 1, true, 0, Prices(100.0, 101.0, 99.0, 100.0, 0.0));
    OneUnitIsValid(fee);
    var start := OpenPosition(spec, approval, product).value;
    assert Unfilled(spec.targets[1..]) == [];
    var b := Emit(start, OBSERVATION_APPLIED, Some(0), BarData(bar));
    QuietEntry(b, bar, product, 100.0);
    EnteredStays(b, bar, 0, 100.0);
    LiveOfOne(start, Observe(bar), product);
    FoldReadsTheEngine(spec, approval, product, [Observe(bar)], id);
  }

  /** No unit is lost: what was entered has left through an exit or is still there, and a position
      has units exactly while it is exposed. */
  lemma UnitsAreConserved(spec: Spec, approval: Approval, product: Product, inputs: seq<Input>)
    requires ValidSpec(spec) && OpenPosition(spec, approval, product).Ok?
    ensures var p := Live(OpenPosition(spec, approval, product).value, inputs, product);
            && p.remaining + ExitedUnits(p.events) == (if p.entryFill.Some? then spec.quantity else 0)
            && 0 <= p.remaining <= spec.quantity && (p.remaining > 0 <==> HasExposure(p.state))
            && (p.state == CLOSED ==> ExitedUnits(p.events) == spec.quantity)
            && (p.remaining > 0 ==> UnitsLeft(p.targets) <= p.remaining)
  {
    EveryPositionHolds(spec, approval, product, inputs);
    ExitedNotNegative(Live(OpenPosition(spec, approval, product).value, inputs, product));
  }

  lemma ExitedNotNegative(p: Position)
    requires Settled(p)
    ensures p.remaining <= p.spec.quantity
  {
  }
}
