/** The team budget row and the four operations that change it. */
module Budgets {
  import opened Wrappers
  import opened Calendar

  datatype Period = Daily | Weekly | Monthly

  datatype Policy = Block | Warn | Downgrade

  /** The persisted columns of one budget row. */
  datatype Budget = Budget(
    limit: real,
    usage: real,
    reserved: real,
    period: Period,
    start: DateTime,
    end: DateTime,
    policy: Policy,
    enabled: bool)

  function Max(x: real, y: real): real {
    if x >= y then x else y
  }

  /** What a caller may still spend; never negative. */
  function RemainingAmount(b: Budget): real {
    Max(0.0, b.limit - b.usage - b.reserved)
  }

  predicate IsPeriodExpired(b: Budget, now: DateTime) {
    !Before(now, b.end)
  }

  function ComputePeriodEnd(period: Period, start: DateTime): DateTime
    requires start.Valid()
  {
    match period
    case Daily => AddDays(start, 1)
    case Weekly => AddDays(start, 7)
    case Monthly => AddDays(start.(day := 1), 32).(day := 1, micros := 0)
  }

  /** A period about to begin. */
  datatype Span = Span(start: DateTime, end: DateTime)

  /** The period a rollover at `now` would start, if one is due. */
  function DuePeriod(b: Budget, now: DateTime): Option<Span>
    requires now.Valid()
  {
    if IsPeriodExpired(b, now) then Some(Span(now, ComputePeriodEnd(b.period, now))) else None
  }

  function Rollover(b: Budget, due: Option<Span>): Budget {
    match due
    case None => b
    case Some(span) => b.(usage := 0.0, reserved := 0.0, start := span.start, end := span.end)
  }

  /** True when committing `estimate` on top of everything used and reserved breaks the limit. */
  predicate WouldExceed(b: Budget, estimate: real) {
    b.usage + b.reserved + estimate > b.limit
  }

  predicate Rejects(b: Budget, estimate: real, due: Option<Span>) {
    b.policy != Warn && WouldExceed(Rollover(b, due), estimate)
  }

  /** The committed row after a reservation; a rejection rolls everything back, the rollover too. */
  function Reserve(b: Budget, estimate: real, due: Option<Span>): Budget {
    if Rejects(b, estimate, due) then b
    else var r := Rollover(b, due); r.(reserved := r.reserved + estimate)
  }

  function Release(b: Budget, estimate: real): Budget {
    b.(reserved := Max(0.0, b.reserved - estimate))
  }

  function Reconcile(b: Budget, estimate: real, actual: real): Budget {
    Release(b, estimate).(usage := Max(0.0, b.usage + actual))
  }

  /** The WARN policy's flag: over the limit, or past the warning percentage. Ignores `reserved`. */
  predicate CrossesWarning(b: Budget, estimate: real, thresholdPercent: real) {
    var after := b.usage + estimate;
    after > b.limit || (if b.limit > 0.0 then after / b.limit * 100.0 else 0.0) >= thresholdPercent
  }

  /** A new period always ends later than it starts, so one expiry triggers exactly one rollover. */
  lemma PeriodEndsLater(period: Period, start: DateTime)
    requires start.Valid()
    ensures Before(start, ComputePeriodEnd(period, start))
    ensures period == Monthly ==> ComputePeriodEnd(period, start) == FirstOfNextMonth(start)
  {
    AddDaysIsLater(start, 1);
    AddDaysIsLater(start, 7);
    ThirtyTwoDaysReachNextMonth(start);
  }

  /** A day, seven days, or up to midnight on the first of the following month. */
  lemma PeriodLengths(start: DateTime)
    requires start.Valid()
    ensures var day := ComputePeriodEnd(Daily, start);
            DayNumber(day) == DayNumber(start) + 1 && day.micros == start.micros
    ensures var week := ComputePeriodEnd(Weekly, start);
            DayNumber(week) == DayNumber(start) + 7 && week.micros == start.micros
    ensures var month := ComputePeriodEnd(Monthly, start);
            && month.day == 1 && month.micros == 0
            && 12 * month.year + month.month == 12 * start.year + start.month + 1 && 1 <= month.month <= 12
  {
    AddDaysCounts(start, 1);
    AddDaysCounts(start, 7);
    ThirtyTwoDaysReachNextMonth(start);
  }

  /** A rollover is due from the very end of the period on; it starts an empty period now and changes nothing else. */
  lemma RolloverMeans(b: Budget, now: DateTime)
    requires now.Valid() && b.end.Valid()
    ensures DuePeriod(b, now).Some? <==>
              || DayNumber(now) > DayNumber(b.end)
              || (DayNumber(now) == DayNumber(b.end) && now.micros >= b.end.micros)
    ensures var r := Rollover(b, DuePeriod(b, now));
            && (DuePeriod(b, now).None? ==> r == b)
            && (DuePeriod(b, now).Some? ==>
                  && r.usage == 0.0 && r.reserved == 0.0 && r.start == now && r.end == ComputePeriodEnd(b.period, now))
            && r.limit == b.limit && r.period == b.period && r.policy == b.policy && r.enabled == b.enabled
  {
    BeforeIsChronological(now, b.end);
  }

  /** What the three row operations do to the two amounts, and what remains to be spent. */
  lemma AmountsMean(b: Budget, estimate: real, actual: real)
    requires b.usage >= 0.0 && b.reserved >= 0.0 && estimate >= 0.0 && actual >= 0.0
    ensures Rejects(b, estimate, None) <==> b.policy in {Block, Downgrade} && b.usage + b.reserved + estimate > b.limit
    ensures !Rejects(b, estimate, None) ==>
              Reserve(b, estimate, None) == b.(reserved := b.reserved + estimate)
    ensures forall span :: Rejects(b, estimate, Some(span)) <==> b.policy in {Block, Downgrade} && estimate > b.limit
    ensures forall due :: Rejects(b, estimate, due) ==> Reserve(b, estimate, due) == b
    ensures forall span :: !Rejects(b, estimate, Some(span)) ==>
              Reserve(b, estimate, Some(span))
              == b.(usage := 0.0, reserved := estimate, start := span.start, end := span.end)
    ensures b.reserved >= estimate ==>
              && Release(b, estimate) == b.(reserved := b.reserved - estimate)
              && Reconcile(b, estimate, actual) == b.(reserved := b.reserved - estimate, usage := b.usage + actual)
    ensures b.reserved < estimate ==>
              && Release(b, estimate) == b.(reserved := 0.0)
              && Reconcile(b, estimate, actual) == b.(reserved := 0.0, usage := b.usage + actual)
    ensures if b.usage + b.reserved <= b.limit then b.usage + b.reserved + RemainingAmount(b) == b.limit
            else RemainingAmount(b) == 0.0
  {
  }

  /**
   The WARN flag: the usage with this request, what is reserved aside, passes the limit or reaches the
   threshold percentage of it. A limit of zero or less counts as no percentage at all.
   */
  lemma WarningMeans(b: Budget, estimate: real, thresholdPercent: real)
    ensures b.limit > 0.0 ==>
              (CrossesWarning(b, estimate, thresholdPercent) <==>
                b.usage + estimate > b.limit || (b.usage + estimate) * 100.0 >= thresholdPercent * b.limit)
    ensures b.limit <= 0.0 ==>
              (CrossesWarning(b, estimate, thresholdPercent) <==>
                b.usage + estimate > b.limit || thresholdPercent <= 0.0)
  {
    if b.limit > 0.0 {
      var after := b.usage + estimate;
      PercentOrder(after, b.limit, thresholdPercent);
    }
  }

  lemma PercentOrder(x: real, limit: real, percent: real)
    requires limit > 0.0
    ensures x / limit * 100.0 >= percent <==> x * 100.0 >= percent * limit
  {
    var q := x / limit;
    assert q * limit == x;
    assert (q * 100.0 - percent) * limit == x * 100.0 - percent * limit;
  }

  /** Right after a rollover no other one is due. */
  lemma RolloverFiresOnce(b: Budget, now: DateTime)
    requires now.Valid()
    ensures DuePeriod(Rollover(b, DuePeriod(b, now)), now) == None
  {
    PeriodEndsLater(b.period, now);
  }

  datatype ReserveResult = NoBudget | Reserved(row: Budget, warning: bool) | BudgetExceeded

  /** The mutable row, as the ORM hands it to the service. */
  class BudgetRow {
    const limit: real
    var usage: real
    var reserved: real
    const period: Period
    var start: DateTime
    var end: DateTime
    const policy: Policy
    const enabled: bool

    constructor (b: Budget)
      ensures View() == b
    {
      limit, usage, reserved := b.limit, b.usage, b.reserved;
      period, start, end := b.period, b.start, b.end;
      policy, enabled := b.policy, b.enabled;
    }

    function View(): Budget
      reads this
    {
      Budget(limit, usage, reserved, period, start, end, policy, enabled)
    }
  }

  /** One team's view of the budget table: at most one row. */
  class BudgetService {
    const row: BudgetRow?

    constructor (row: BudgetRow?)
      ensures this.row == row
    {
      this.row := row;
    }

    /** The row the `enabled == True` query finds. */
    ghost predicate HasActiveRow()
      reads this, row
    {
      row != null && row.enabled
    }

    static method ApplyRolloverIfNeeded(budget: BudgetRow, now: DateTime) returns (rolled: bool)
      requires now.Valid()
      modifies budget
      ensures budget.View() == Rollover(old(budget.View()), DuePeriod(old(budget.View()), now))
      ensures rolled <==> IsPeriodExpired(old(budget.View()), now)
    {
      if !IsPeriodExpired(budget.View(), now) {
        return false;
      }
      budget.usage := 0.0;
      budget.reserved := 0.0;
      budget.start := now;
      budget.end := ComputePeriodEnd(budget.period, now);
      return true;
    }

    method CheckAndReserve(estimate: real, thresholdPercent: real, now: DateTime) returns (result: ReserveResult)
      requires now.Valid()
      modifies row
      ensures !HasActiveRow() ==> result == NoBudget && (row != null ==> unchanged(row))
      ensures HasActiveRow() ==> row.View() == Reserve(old(row.View()), estimate, DuePeriod(old(row.View()), now))
      ensures HasActiveRow() ==>
                var due := DuePeriod(old(row.View()), now);
                if Rejects(old(row.View()), estimate, due) then result == BudgetExceeded
                else result == Reserved(row.View(),
                                        && row.policy == Warn
                                        && CrossesWarning(Rollover(old(row.View()), due), estimate, thresholdPercent))
    {
      if row == null || !row.enabled {
        return NoBudget;
      }
      // The transaction's undo image.
      var usage, reserved, start, end := row.usage, row.reserved, row.start, row.end;
      var rolled := ApplyRolloverIfNeeded(row, now);
      var warning := false;
      match row.policy {
        case Warn =>
          warning := CrossesWarning(row.View(), estimate, thresholdPercent);
        case _ =>
          if row.usage + row.reserved + estimate > row.limit {
            row.usage, row.reserved, row.start, row.end := usage, reserved, start, end;
            return BudgetExceeded;
          }
      }
      row.reserved := row.reserved + estimate;
      return Reserved(row.View(), warning);
    }

    method ReconcileCost(estimate: real, actual: real)
      modifies row
      ensures !HasActiveRow() ==> row != null ==> unchanged(row)
      ensures HasActiveRow() ==> row.View() == Reconcile(old(row.View()), estimate, actual)
    {
      if row == null || !row.enabled {
        return;
      }
      row.reserved := Max(0.0, row.reserved - estimate);
      row.usage := Max(0.0, row.usage + actual);
    }

    method ReleaseReservation(estimate: real)
      modifies row
      ensures !HasActiveRow() ==> row != null ==> unchanged(row)
      ensures HasActiveRow() ==> row.View() == Release(old(row.View()), estimate)
    {
      if row == null || !row.enabled {
        return;
      }
      row.reserved := Max(0.0, row.reserved - estimate);
    }
  }
}
