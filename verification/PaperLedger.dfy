/** Folding one position's ledger into its outcome. Follows `fold_ledger` and `_halted` of
    backend/app/adapters/performance/paper_source.py, which
    backend/app/adapters/performance/backtest_source.py shares. */
module PaperLedger {
  import opened Wrappers
  import opened Sorting
  import opened PaperEvents

  datatype Population = PendingEntry | Open | PartiallyClosed | AmbiguousHalted | Closed | Cancelled | Rejected

  datatype Fill = Fill(amount: real, fee: Option<real>, time: int)

  /** `creation` is the data frozen when the position was made. */
  datatype Outcome = Outcome(
    positionId: string, creation: Data, population: Population, realizedGross: real,
    feesTotal: Option<real>, realizedNet: Option<real>, unrealizedGross: Option<real>,
    decisionTime: int, entryTime: Option<int>, terminalTime: Option<int>, fills: seq<Fill>)

  datatype FoldError = NoCreation | NoDecisionTime | NoTerminalTime | NetWithoutFees

  function OrZero(amount: Option<real>): real {
    if amount.Some? then amount.value else 0.0
  }

  // ---------------------------------------------------------------- the source's scans

  /** The first event of a kind: what every `next(... for ... if kind == ...)` finds. */
  function First(kind: Kind, events: seq<Event>): Option<Event> {
    if events == [] then None
    else if events[0].kind == kind then Some(events[0])
    else First(kind, events[1..])
  }

  function FirstData(kind: Kind, events: seq<Event>): Option<Data> {
    var e := First(kind, events);
    if e.None? then None else Some(e.value.data)
  }

  function FirstTime(kind: Kind, events: seq<Event>): Option<int> {
    var e := First(kind, events);
    if e.None? then None else e.value.time
  }

  predicate Has(kind: Kind, events: seq<Event>) {
    exists e :: e in events && e.kind == kind
  }

  /** A reverse scan: the last ambiguity decides, unless an exit or the close came after it. */
  predicate HaltedNow(events: seq<Event>) {
    if events == [] then false
    else
      var last := events[|events| - 1];
      if last.kind == SAME_BAR_AMBIGUITY then last.data.policy == Some("HALT")
      else if last.kind == POSITION_CLOSED || IsExit(last.kind) then false
      else HaltedNow(events[..|events| - 1])
  }

  function Exits(events: seq<Event>): seq<Event> {
    if events == [] then []
    else if IsExit(events[0].kind) then [events[0]] + Exits(events[1..])
    else Exits(events[1..])
  }

  function SumGross(exits: seq<Event>): real {
    if exits == [] then 0.0 else OrZero(exits[0].data.grossPnl) + SumGross(exits[1..])
  }

  function SumFees(exits: seq<Event>): real {
    if exits == [] then 0.0 else OrZero(exits[0].data.fee) + SumFees(exits[1..])
  }

  /** One fill for every exit that carries a market time. */
  function FillsOf(exits: seq<Event>, feeModelled: bool): seq<Fill> {
    if exits == [] then []
    else if exits[0].time.None? then FillsOf(exits[1..], feeModelled)
    else
      [Fill(OrZero(exits[0].data.grossPnl), if feeModelled then exits[0].data.fee else None, exits[0].time.value)]
      + FillsOf(exits[1..], feeModelled)
  }

  /** The creation event's own time: the first creation event that has one. */
  function DecisionTime(events: seq<Event>): Option<int> {
    if events == [] then None
    else if events[0].kind == POSITION_CREATED && events[0].time.Some? then events[0].time
    else DecisionTime(events[1..])
  }

  function PopulationOf(events: seq<Event>): Population {
    if Has(ENTRY_REJECTED, events) then Rejected
    else if Has(POSITION_CANCELLED, events) then Cancelled
    else if First(POSITION_CLOSED, events).Some? then Closed
    else if !Has(ENTRY_FILLED, events) then PendingEntry
    else if HaltedNow(events) then AmbiguousHalted
    else if Exits(events) != [] then PartiallyClosed
    else Open
  }

  predicate FeesModelled(creation: Data) {
    creation.feeMode != Some("NOT_MODELLED")
  }

  /** Gross, fees and net: what the closing event recorded, or else what the exits add up to. */
  function Money(closed: Option<Data>, modelled: bool, exitGross: real, exitFees: real)
    : (real, Option<real>, Option<real>)
  {
    if closed.Some? then
      (OrZero(closed.value.realizedGross),
       if modelled then closed.value.feesTotal else None,
       if modelled then closed.value.realizedNet else None)
    else
      (exitGross,
       if modelled then Some(exitFees) else None,
       if modelled then Some(exitGross - exitFees) else None)
  }

  function Fold(positionId: string, events: seq<Event>): Result<Outcome, FoldError> {
    var creation := FirstData(POSITION_CREATED, events);
    if creation.None? then Err(NoCreation)
    else
      var population := PopulationOf(events);
      var modelled := FeesModelled(creation.value);
      var exits := Exits(events);
      var (gross, fees, net) := Money(FirstData(POSITION_CLOSED, events), modelled, SumGross(exits), SumFees(exits));
      if DecisionTime(events).None? then Err(NoDecisionTime)
      else
        Checked(Outcome(
          positionId, creation.value, population, gross, fees, net, None, DecisionTime(events).value,
          FirstTime(ENTRY_FILLED, events),
          if population == Closed then FirstTime(POSITION_CLOSED, events) else None,
          FillsOf(exits, modelled)))
  }

  /** The outcome record's own checks. */
  function Checked(o: Outcome): Result<Outcome, FoldError> {
    if o.population == Closed && o.terminalTime.None? then Err(NoTerminalTime)
    else if o.feesTotal.None? && o.realizedNet.Some? then Err(NetWithoutFees)
    else Ok(o)
  }

  // ---------------------------------------------------------------- one pass

  /** All a single left-to-right pass has to remember. */
  datatype Pass = Pass(
    creation: Option<Data>, decided: Option<int>, entry: Option<Event>, closed: Option<Event>,
    rejected: bool, cancelled: bool, halted: bool, exited: bool, gross: real, fees: real, fills: seq<Fill>)

  const BLANK := Pass(None, None, None, None, false, false, false, false, 0.0, 0.0, [])

  function Advance(m: Pass, e: Event): Pass {
    Pass(
      if m.creation.None? && e.kind == POSITION_CREATED then Some(e.data) else m.creation,
      if m.decided.None? && e.kind == POSITION_CREATED then e.time else m.decided,
      if m.entry.None? && e.kind == ENTRY_FILLED then Some(e) else m.entry,
      if m.closed.None? && e.kind == POSITION_CLOSED then Some(e) else m.closed,
      m.rejected || e.kind == ENTRY_REJECTED,
      m.cancelled || e.kind == POSITION_CANCELLED,
      if e.kind == SAME_BAR_AMBIGUITY then e.data.policy == Some("HALT")
      else m.halted && e.kind != POSITION_CLOSED && !IsExit(e.kind),
      m.exited || IsExit(e.kind),
      if IsExit(e.kind) then m.gross + OrZero(e.data.grossPnl) else m.gross,
      if IsExit(e.kind) then m.fees + OrZero(e.data.fee) else m.fees,
      if IsExit(e.kind) && e.time.Some? then m.fills + [Fill(OrZero(e.data.grossPnl), e.data.fee, e.time.value)]
      else m.fills)
  }

  function Passed(events: seq<Event>): Pass {
    if events == [] then BLANK else Advance(Passed(events[..|events| - 1]), events[|events| - 1])
  }

  function Masked(fills: seq<Fill>, modelled: bool): seq<Fill> {
    if modelled then fills else Map((f: Fill) => f.(fee := None), fills)
  }

  function StandsAt(m: Pass): Population {
    if m.rejected then Rejected else if m.cancelled then Cancelled else if m.closed.Some? then Closed
    else if m.entry.None? then PendingEntry else if m.halted then AmbiguousHalted
    else if m.exited then PartiallyClosed else Open
  }

  function Concluded(positionId: string, m: Pass): Result<Outcome, FoldError> {
    if m.creation.None? then Err(NoCreation)
    else if m.decided.None? then Err(NoDecisionTime)
    else
      var modelled := FeesModelled(m.creation.value);
      var population := StandsAt(m);
      var closed := if m.closed.Some? then Some(m.closed.value.data) else None;
      var (gross, fees, net) := Money(closed, modelled, m.gross, m.fees);
      Checked(Outcome(
        positionId, m.creation.value, population, gross, fees, net, None, m.decided.value,
        if m.entry.Some? then m.entry.value.time else None,
        if population == Closed then m.closed.value.time else None,
        Masked(m.fills, modelled)))
  }

  // ---------------------------------------------------------------- the scans are the pass

  lemma {:induction false} FirstAppend(kind: Kind, events: seq<Event>, e: Event)
    ensures First(kind, events + [e]) ==
            if First(kind, events).Some? then First(kind, events) else if e.kind == kind then Some(e) else None
  {
    if events != [] {
      assert (events + [e])[1..] == events[1..] + [e];
      FirstAppend(kind, events[1..], e);
    } else {
      assert [e][1..] == [];
    }
  }

  lemma {:induction false} DecisionAppend(events: seq<Event>, e: Event)
    ensures DecisionTime(events + [e]) ==
            if DecisionTime(events).Some? then DecisionTime(events)
            else if e.kind == POSITION_CREATED then e.time else None
  {
    if events != [] {
      assert (events + [e])[1..] == events[1..] + [e];
      DecisionAppend(events[1..], e);
    } else {
      assert [e][1..] == [];
    }
  }

  lemma {:induction false} ExitsAppend(events: seq<Event>, e: Event)
    ensures Exits(events + [e]) == if IsExit(e.kind) then Exits(events) + [e] else Exits(events)
  {
    if events != [] {
      assert (events + [e])[1..] == events[1..] + [e];
      ExitsAppend(events[1..], e);
    } else {
      assert [e][1..] == [];
    }
  }

  lemma {:induction false} SumsAppend(exits: seq<Event>, e: Event)
    ensures SumGross(exits + [e]) == SumGross(exits) + OrZero(e.data.grossPnl)
    ensures SumFees(exits + [e]) == SumFees(exits) + OrZero(e.data.fee)
  {
    if exits != [] {
      assert (exits + [e])[1..] == exits[1..] + [e];
      SumsAppend(exits[1..], e);
    } else {
      assert [e][1..] == [];
    }
  }

  lemma {:induction false} FillsAppend(exits: seq<Event>, e: Event)
    ensures FillsOf(exits + [e], true) ==
            if e.time.None? then FillsOf(exits, true)
            else FillsOf(exits, true) + [Fill(OrZero(e.data.grossPnl), e.data.fee, e.time.value)]
  {
    if exits != [] {
      assert (exits + [e])[1..] == exits[1..] + [e];
      FillsAppend(exits[1..], e);
    } else {
      assert [e][1..] == [];
    }
  }

  lemma {:induction false} FillsMasked(exits: seq<Event>, modelled: bool)
    ensures FillsOf(exits, modelled) == Masked(FillsOf(exits, true), modelled)
  {
    if exits != [] && !modelled {
      FillsMasked(exits[1..], modelled);
    }
  }

  lemma HasAppend(kind: Kind, events: seq<Event>, e: Event)
    ensures Has(kind, events + [e]) <==> Has(kind, events) || e.kind == kind
  {
    assert e in events + [e];
    forall x ensures x in events + [e] <==> x in events || x == e {}
  }

  ghost predicate MarksAgree(m: Pass, events: seq<Event>) {
    && m.creation == FirstData(POSITION_CREATED, events) && m.decided == DecisionTime(events)
    && m.entry == First(ENTRY_FILLED, events) && m.closed == First(POSITION_CLOSED, events)
  }

  ghost predicate FlagsAgree(m: Pass, events: seq<Event>) {
    && m.rejected == Has(ENTRY_REJECTED, events) && m.cancelled == Has(POSITION_CANCELLED, events)
    && m.halted == HaltedNow(events)
  }

  ghost predicate SumsAgree(m: Pass, exits: seq<Event>) {
    && m.exited == (exits != [])
    && m.gross == SumGross(exits) && m.fees == SumFees(exits) && m.fills == FillsOf(exits, true)
  }

  /** What the pass remembers is what the scans find. */
  ghost predicate Agrees(m: Pass, events: seq<Event>) {
    MarksAgree(m, events) && FlagsAgree(m, events) && SumsAgree(m, Exits(events))
  }

  lemma AdvanceMarks(m: Pass, events: seq<Event>, e: Event)
    requires MarksAgree(m, events)
    ensures MarksAgree(Advance(m, e), events + [e])
  {
    FirstAppend(POSITION_CREATED, events, e);
    FirstAppend(ENTRY_FILLED, events, e);
    FirstAppend(POSITION_CLOSED, events, e);
    DecisionAppend(events, e);
  }

  lemma AdvanceFlags(m: Pass, events: seq<Event>, e: Event)
    requires FlagsAgree(m, events)
    ensures FlagsAgree(Advance(m, e), events + [e])
  {
    HasAppend(ENTRY_REJECTED, events, e);
    HasAppend(POSITION_CANCELLED, events, e);
    assert (events + [e])[..|events|] == events;
  }

  lemma AdvanceSums(m: Pass, exits: seq<Event>, e: Event)
    requires SumsAgree(m, exits)
    ensures SumsAgree(Advance(m, e), if IsExit(e.kind) then exits + [e] else exits)
  {
    if IsExit(e.kind) {
      SumsAppend(exits, e);
      FillsAppend(exits, e);
    }
  }

  lemma AdvanceAgrees(m: Pass, events: seq<Event>, e: Event)
    requires Agrees(m, events)
    ensures Agrees(Advance(m, e), events + [e])
  {
    AdvanceMarks(m, events, e);
    AdvanceFlags(m, events, e);
    AdvanceSums(m, Exits(events), e);
    ExitsAppend(events, e);
  }

  lemma {:induction false} PassedAgrees(events: seq<Event>)
    ensures Agrees(Passed(events), events)
  {
    if events != [] {
      var before, e := events[..|events| - 1], events[|events| - 1];
      PassedAgrees(before);
      AdvanceAgrees(Passed(before), before, e);
      assert before + [e] == events;
    }
  }

  lemma {:induction false} FirstIffHas(kind: Kind, events: seq<Event>)
    ensures First(kind, events).Some? <==> Has(kind, events)
  {
    if events != [] {
      FirstIffHas(kind, events[1..]);
      assert events == [events[0]] + events[1..];
    }
  }

  lemma PopulationAgrees(m: Pass, events: seq<Event>)
    requires Agrees(m, events)
    ensures PopulationOf(events) == StandsAt(m)
  {
    FirstIffHas(ENTRY_FILLED, events);
  }

  /** For every sequence of events, complete or not: the membership tests, first-match searches,
      sums and reverse scan compute what one left-to-right pass computes. */
  lemma FoldIsOnePass(positionId: string, events: seq<Event>)
    ensures Fold(positionId, events) == Concluded(positionId, Passed(events))
  {
    PassedAgrees(events);
    PassConcludes(positionId, Passed(events), events);
  }

  lemma PassConcludes(positionId: string, m: Pass, events: seq<Event>)
    requires Agrees(m, events)
    ensures Fold(positionId, events) == Concluded(positionId, m)
  {
    PopulationAgrees(m, events);
    if m.creation.Some? {
      FillsMasked(Exits(events), FeesModelled(m.creation.value));
    }
  }

  /** When a ledger cannot be folded, and why: it has no creation, or none with a time; it was closed at
      no time; or its close records a net where it records no fees. */
  lemma FoldFailsIff(positionId: string, events: seq<Event>)
    ensures var r, created := Fold(positionId, events), Has(POSITION_CREATED, events);
            var decided := exists e :: e in events && e.kind == POSITION_CREATED && e.time.Some?;
            var closed := First(POSITION_CLOSED, events);
            && (r == Err(NoCreation) <==> !created)
            && (r == Err(NoDecisionTime) <==> created && !decided)
            && (r == Err(NoTerminalTime) <==>
                  created && decided && closed.Some? && closed.value.time.None?
                  && !Has(ENTRY_REJECTED, events) && !Has(POSITION_CANCELLED, events))
            && (r.Err? && r.error == NetWithoutFees ==>
                  closed.Some? && closed.value.data.feesTotal.None? && closed.value.data.realizedNet.Some?)
  {
    FirstIffHas(POSITION_CREATED, events);
    DecidedIff(events);
  }

  lemma {:induction false} DecidedIff(events: seq<Event>)
    ensures DecisionTime(events).Some? <==> exists e :: e in events && e.kind == POSITION_CREATED && e.time.Some?
  {
    if events != [] {
      DecidedIff(events[1..]);
      assert events == [events[0]] + events[1..];
    }
  }

  /** Of a closed position the outcome is what its close recorded, each amount where it belongs; the fees
      and the net only if fees are modelled. */
  lemma ClosedIsAsRecorded(positionId: string, events: seq<Event>)
    requires Fold(positionId, events).Ok? && First(POSITION_CLOSED, events).Some?
    ensures var o, data := Fold(positionId, events).value, First(POSITION_CLOSED, events).value.data;
            var modelled := o.creation.feeMode != Some("NOT_MODELLED");
            && o.realizedGross == (if data.realizedGross.Some? then data.realizedGross.value else 0.0)
            && o.feesTotal == (if modelled then data.feesTotal else None)
            && o.realizedNet == (if modelled then data.realizedNet else None)
  {
  }

  /** Each fill of an outcome is an exit that has a market time, with its gross - nothing, if it records
      none - and its fee if fees are modelled; and each such exit is a fill. */
  lemma {:induction false} FillsAreExits(exits: seq<Event>, modelled: bool, f: Fill)
    ensures f in FillsOf(exits, modelled) <==>
            exists e :: e in exits && e.time == Some(f.time)
                        && f.amount == (if e.data.grossPnl.Some? then e.data.grossPnl.value else 0.0)
                        && f.fee == (if modelled then e.data.fee else None)
  {
    if exits != [] {
      FillsAreExits(exits[1..], modelled, f);
      assert exits == [exits[0]] + exits[1..];
    }
  }

  // ---------------------------------------------------------------- what may be left out

  lemma {:induction false} PassedOfFilter(keep: Event -> bool, events: seq<Event>)
    requires forall e | e in events && IsFinancial(e.kind) :: keep(e)
    ensures Passed(Filter(keep, events)) == Passed(events)
  {
    if events != [] {
      var before, e := events[..|events| - 1], events[|events| - 1];
      assert events == before + [e];
      PassedOfFilter(keep, before);
      FilterAppend(keep, before, [e]);
      assert [e][1..] == [];
      var kept := Filter(keep, before);
      if keep(e) {
        assert (kept + [e])[..|kept|] == kept;
      } else {
        assert kept + [] == kept;
      }
    }
  }

  /** Whichever events without a financial fact are left out - or put in - and wherever they
      stand, the outcome is the same. */
  lemma OnlyFinancialEventsMatter(positionId: string, keep: Event -> bool, events: seq<Event>)
    requires forall e | e in events && IsFinancial(e.kind) :: keep(e)
    ensures Fold(positionId, Filter(keep, events)) == Fold(positionId, events)
  {
    PassedOfFilter(keep, events);
    FoldIsOnePass(positionId, events);
    FoldIsOnePass(positionId, Filter(keep, events));
  }

  /** What the paper source reads from the database. */
  function FinancialOnly(events: seq<Event>): seq<Event> {
    Filter((e: Event) => IsFinancial(e.kind), events)
  }

  /** What the backtest source passes on. */
  function WithoutObservations(events: seq<Event>): seq<Event> {
    Filter((e: Event) => e.kind != OBSERVATION_APPLIED, events)
  }

  /** The paper source and the backtest source see one ledger as the same outcome. */
  lemma BothSourcesAgree(positionId: string, events: seq<Event>)
    ensures Fold(positionId, FinancialOnly(events)) == Fold(positionId, WithoutObservations(events))
            == Fold(positionId, events)
  {
    OnlyFinancialEventsMatter(positionId, (e: Event) => IsFinancial(e.kind), events);
    OnlyFinancialEventsMatter(positionId, (e: Event) => e.kind != OBSERVATION_APPLIED, events);
  }

  // ---------------------------------------------------------------- money

  function AmountOf(fills: seq<Fill>): real {
    if fills == [] then 0.0 else fills[0].amount + AmountOf(fills[1..])
  }

  function FeesOf(fills: seq<Fill>): real {
    if fills == [] then 0.0 else OrZero(fills[0].fee) + FeesOf(fills[1..])
  }

  function Untimed(exits: seq<Event>): seq<Event> {
    if exits == [] then []
    else if exits[0].time.None? then [exits[0]] + Untimed(exits[1..])
    else Untimed(exits[1..])
  }

  lemma {:induction false} FillsConserve(exits: seq<Event>)
    ensures SumGross(exits) == AmountOf(FillsOf(exits, true)) + SumGross(Untimed(exits))
    ensures SumFees(exits) == FeesOf(FillsOf(exits, true)) + SumFees(Untimed(exits))
    ensures AmountOf(FillsOf(exits, false)) == AmountOf(FillsOf(exits, true))
  {
    if exits != [] {
      FillsConserve(exits[1..]);
      assert exits[0].time.None? ==> ([exits[0]] + Untimed(exits[1..]))[1..] == Untimed(exits[1..]);
    }
  }

  /** No money is lost or made up for a position that has not closed: its gross is its fills'
      amounts plus what exits without a market time brought in, its fees likewise, and its net is
      the one less the other exactly when fees are modelled - absent otherwise, never zero. */
  lemma MoneyIsConserved(positionId: string, events: seq<Event>)
    requires Fold(positionId, events).Ok? && First(POSITION_CLOSED, events).None?
    ensures var o, lost := Fold(positionId, events).value, Untimed(Exits(events));
            && o.realizedGross == AmountOf(o.fills) + SumGross(lost)
            && (FeesModelled(o.creation) ==>
                  && o.feesTotal == Some(FeesOf(o.fills) + SumFees(lost))
                  && o.realizedNet == Some(o.realizedGross - o.feesTotal.value))
            && (!FeesModelled(o.creation) ==> o.feesTotal == None && o.realizedNet == None)
  {
    FillsConserve(Exits(events));
  }
}
