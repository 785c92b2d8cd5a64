/**
 * Reference model of the amortization schedule projector.
 *
 * `Project` is the period-by-period fold that the schedule loop performs:
 * it carries the recurring payment and the running balance from one period
 * to the next and stops after the first row whose balance is negative.
 * `RecurringAt` is an independent, closed description of the recurring
 * payment in force at each period. The lemmas state what the schedule
 * promises in terms of these two definitions.
 */
module ScheduleModel {

  /** A calendar date, the key type of the two override maps. */
  datatype Date = Date(year: int, month: int, day: int)

  /** The per-period interest function: (periodic rate, period, number of periods, present value). */
  type Ipmt = (real, int, int, real) -> real

  /** One emitted row of the schedule (values are kept unrounded). */
  datatype Row = Row(month: Date, period: int, payment: real, interest: real, principal: real, balance: real)

  /**
   * Everything the projection loop reads but never changes: the horizon, the
   * annual rate, the two override maps, the label of each period's month and
   * the interest function.
   */
  datatype Terms = Terms(
    months: nat,
    interest: real,
    extra: map<Date, real>,
    changePayment: map<Date, real>,
    monthOf: int -> Date,
    ipmt: Ipmt)

  /** The emitted rows together with the recurring payment left in force afterwards. */
  datatype Projection = Projection(rows: seq<Row>, monthly: real)

  /** Distinct periods fall in distinct months. */
  ghost predicate DistinctMonths(monthOf: int -> Date)
  {
    forall p, q :: 1 <= p < q ==> monthOf(p) != monthOf(q)
  }

  /** The recurring payment after a period whose month is `key`: a matching change replaces it. */
  function NewRecurring(changePayment: map<Date, real>, key: Date, monthly: real): real
  {
    if key in changePayment then changePayment[key] else monthly
  }

  /** The payment shown in the row for month `key`: an extra payment replaces the recurring one. */
  function RowPayment(extra: map<Date, real>, key: Date, recurring: real): real
  {
    if key in extra then extra[key] else recurring
  }

  /** The principal of the row for month `key`, given that period's interest. */
  function RowPrincipal(extra: map<Date, real>, key: Date, recurring: real, interest: real): real
  {
    if key in extra then extra[key] - interest else recurring - interest
  }

  /**
   * The row of `period`, given the recurring payment `monthly` in force before
   * it and the running balance `balance` before it.
   */
  function PeriodRow(t: Terms, period: int, monthly: real, balance: real): Row
  {
    var key := t.monthOf(period);
    var interest := t.ipmt(t.interest / 12.0, period, t.months, balance);
    var recurring := NewRecurring(t.changePayment, key, monthly);
    var principal := RowPrincipal(t.extra, key, recurring, interest);
    Row(key, period, RowPayment(t.extra, key, recurring), interest, principal, balance + principal)
  }

  /**
   * The projection from `period` on, with `monthly` the recurring payment
   * and `balance` the running balance before that period.
   */
  function Project(t: Terms, period: int, monthly: real, balance: real): Projection
    decreases t.months + 1 - period
  {
    if period > t.months then Projection([], monthly)
    else
      var recurring := NewRecurring(t.changePayment, t.monthOf(period), monthly);
      var row := PeriodRow(t, period, monthly, balance);
      if row.balance < 0.0 then Projection([row], recurring)
      else
        var rest := Project(t, period + 1, recurring, row.balance);
        Projection([row] + rest.rows, rest.monthly)
  }

  /** The whole schedule, starting at period 1. */
  function Schedule(t: Terms, monthly0: real, balance0: real): Projection
  {
    Project(t, 1, monthly0, balance0)
  }

  /**
   * The recurring payment in force once period `p` has applied its change
   * (period 0 stands for the state before the first period): the value of
   * the last change whose month is among periods 1..p, or `monthly0`.
   */
  function RecurringAt(changePayment: map<Date, real>, monthOf: int -> Date, monthly0: real, p: nat): real
  {
    if p == 0 then monthly0
    else NewRecurring(changePayment, monthOf(p), RecurringAt(changePayment, monthOf, monthly0, p - 1))
  }

  /** Sum of the principals of `rows`. */
  function SumPrincipal(rows: seq<Row>): real
  {
    if rows == [] then 0.0 else rows[0].principal + SumPrincipal(rows[1..])
  }

  /**
   * One period of the fold, seen from a loop that has emitted `done` and still
   * has to produce `Project(t, period, monthly, balance)` to reach `full`.
   */
  lemma ResumeStep(t: Terms, period: int, monthly: real, balance: real, done: seq<Row>, full: Projection)
    requires period <= t.months
    requires done + Project(t, period, monthly, balance).rows == full.rows
    requires Project(t, period, monthly, balance).monthly == full.monthly
    ensures var row := PeriodRow(t, period, monthly, balance);
      var recurring := NewRecurring(t.changePayment, t.monthOf(period), monthly);
      && (row.balance < 0.0 ==> done + [row] == full.rows && recurring == full.monthly)
      && (row.balance >= 0.0 ==>
            && (done + [row]) + Project(t, period + 1, recurring, row.balance).rows == full.rows
            && Project(t, period + 1, recurring, row.balance).monthly == full.monthly)
  {
  }

  // ---------------------------------------------------------------------
  // Properties of the fold from an arbitrary period s
  // ---------------------------------------------------------------------

  lemma {:induction false} ShapeFrom(t: Terms, s: int, monthly: real, balance: real, rows: seq<Row>)
    requires 1 <= s <= t.months + 1
    requires rows == Project(t, s, monthly, balance).rows
    ensures |rows| <= t.months + 1 - s
    ensures forall i :: 0 <= i < |rows| ==> rows[i].period == s + i && rows[i].month == t.monthOf(s + i)
    ensures s <= t.months ==> |rows| >= 1
    ensures forall i :: 0 <= i < |rows| - 1 ==> rows[i].balance >= 0.0
    ensures |rows| < t.months + 1 - s ==> |rows| >= 1 && rows[|rows| - 1].balance < 0.0
    decreases t.months + 1 - s
  {
    if s <= t.months {
      var recurring := NewRecurring(t.changePayment, t.monthOf(s), monthly);
      var next := PeriodRow(t, s, monthly, balance).balance;
      if next >= 0.0 {
        var rest := Project(t, s + 1, recurring, next).rows;
        ShapeFrom(t, s + 1, recurring, next, rest);
        assert rows == [rows[0]] + rest;
      }
    }
  }

  lemma {:induction false} BalanceFrom(t: Terms, s: int, monthly: real, balance: real, rows: seq<Row>)
    requires rows == Project(t, s, monthly, balance).rows
    ensures forall i :: 0 <= i < |rows| ==> rows[i].balance == balance + SumPrincipal(rows[..i + 1])
    decreases t.months + 1 - s
  {
    if s <= t.months {
      var recurring := NewRecurring(t.changePayment, t.monthOf(s), monthly);
      var principal := PeriodRow(t, s, monthly, balance).principal;
      var next := balance + principal;
      if next < 0.0 {
        assert rows[..1][1..] == [];
      } else {
        var rest := Project(t, s + 1, recurring, next).rows;
        BalanceFrom(t, s + 1, recurring, next, rest);
        assert rows == [rows[0]] + rest;
        forall i | 0 <= i < |rows|
          ensures rows[i].balance == balance + SumPrincipal(rows[..i + 1])
        {
          var prefix := rows[..i + 1];
          assert prefix[0] == rows[0] && prefix[1..] == rest[..i];
          if i == 0 {
            assert rest[..i] == [];
          } else {
            assert rows[i] == rest[i - 1] && rest[..i] == rest[..(i - 1) + 1];
          }
        }
      }
    }
  }

  lemma {:induction false} InterestFrom(t: Terms, s: int, monthly: real, balance: real, rows: seq<Row>)
    requires rows == Project(t, s, monthly, balance).rows
    ensures forall i :: 0 <= i < |rows| ==>
      rows[i].interest == t.ipmt(t.interest / 12.0, s + i, t.months, if i == 0 then balance else rows[i - 1].balance)
    decreases t.months + 1 - s
  {
    if s <= t.months {
      var recurring := NewRecurring(t.changePayment, t.monthOf(s), monthly);
      var next := PeriodRow(t, s, monthly, balance).balance;
      if next >= 0.0 {
        var rest := Project(t, s + 1, recurring, next).rows;
        InterestFrom(t, s + 1, recurring, next, rest);
        assert forall i :: 1 <= i < |rows| ==> rows[i] == rest[i - 1];
      }
    }
  }

  lemma {:induction false} PaymentsFrom(t: Terms, s: nat, monthly0: real, balance: real, pr: Projection)
    requires 1 <= s
    requires pr == Project(t, s, RecurringAt(t.changePayment, t.monthOf, monthly0, s - 1), balance)
    ensures forall i :: 0 <= i < |pr.rows| ==>
      pr.rows[i].payment == RowPayment(t.extra, t.monthOf(s + i), RecurringAt(t.changePayment, t.monthOf, monthly0, s + i)) &&
      pr.rows[i].principal
      == RowPrincipal(t.extra, t.monthOf(s + i), RecurringAt(t.changePayment, t.monthOf, monthly0, s + i), pr.rows[i].interest)
    ensures pr.monthly == RecurringAt(t.changePayment, t.monthOf, monthly0, s - 1 + |pr.rows|)
    decreases t.months + 1 - s
  {
    var monthly := RecurringAt(t.changePayment, t.monthOf, monthly0, s - 1);
    if s <= t.months {
      var recurring := NewRecurring(t.changePayment, t.monthOf(s), monthly);
      assert recurring == RecurringAt(t.changePayment, t.monthOf, monthly0, s);
      var next := PeriodRow(t, s, monthly, balance).balance;
      if next >= 0.0 {
        var rest := Project(t, s + 1, recurring, next);
        PaymentsFrom(t, s + 1, monthly0, next, rest);
        assert forall i :: 1 <= i < |pr.rows| ==> pr.rows[i] == rest.rows[i - 1];
      }
    }
  }

  // ---------------------------------------------------------------------
  // Properties of the whole schedule
  // ---------------------------------------------------------------------

  /** At most `months` rows, numbered 1, 2, ..., k in order, each labelled with its period's month. */
  lemma {:induction false} ScheduleShape(t: Terms, monthly0: real, balance0: real, pr: Projection)
    requires pr == Schedule(t, monthly0, balance0)
    ensures |pr.rows| <= t.months
    ensures forall i :: 0 <= i < |pr.rows| ==> pr.rows[i].period == i + 1 && pr.rows[i].month == t.monthOf(i + 1)
  {
    ShapeFrom(t, 1, monthly0, balance0, pr.rows);
  }

  /**
   * The schedule stops after the first row whose balance is negative, and only
   * then: every earlier row has a non-negative balance, and fewer than `months`
   * rows means the last emitted row (which is kept) is negative.
   */
  lemma {:induction false} ScheduleStopsAtFirstNegative(t: Terms, monthly0: real, balance0: real, pr: Projection)
    requires pr == Schedule(t, monthly0, balance0)
    ensures t.months > 0 ==> |pr.rows| >= 1
    ensures forall i :: 0 <= i < |pr.rows| - 1 ==> pr.rows[i].balance >= 0.0
    ensures |pr.rows| < t.months ==> |pr.rows| >= 1 && pr.rows[|pr.rows| - 1].balance < 0.0
  {
    ShapeFrom(t, 1, monthly0, balance0, pr.rows);
  }

  /** After each row the running balance is the starting balance plus the principals so far. */
  lemma {:induction false} ScheduleBalance(t: Terms, monthly0: real, balance0: real, pr: Projection)
    requires pr == Schedule(t, monthly0, balance0)
    ensures forall i :: 0 <= i < |pr.rows| ==> pr.rows[i].balance == balance0 + SumPrincipal(pr.rows[..i + 1])
  {
    BalanceFrom(t, 1, monthly0, balance0, pr.rows);
  }

  /**
   * A row's interest is the interest function applied to the monthly rate, the
   * period, the horizon and the running balance before that period; no payment
   * or override enters it.
   */
  lemma {:induction false} ScheduleInterest(t: Terms, monthly0: real, balance0: real, pr: Projection)
    requires pr == Schedule(t, monthly0, balance0)
    ensures forall i :: 0 <= i < |pr.rows| ==>
      pr.rows[i].interest == t.ipmt(t.interest / 12.0, i + 1, t.months, if i == 0 then balance0 else pr.rows[i - 1].balance)
  {
    InterestFrom(t, 1, monthly0, balance0, pr.rows);
  }

  /**
   * Without an extra payment a row pays the recurring payment in force and its
   * principal is that payment minus interest; with one, the row pays the extra
   * amount and its principal is the extra amount minus interest. What is left in
   * force afterwards is the recurring payment of the last emitted period.
   */
  lemma {:induction false} SchedulePayments(t: Terms, monthly0: real, balance0: real, pr: Projection)
    requires pr == Schedule(t, monthly0, balance0)
    ensures forall i :: 0 <= i < |pr.rows| && t.monthOf(i + 1) !in t.extra ==>
      pr.rows[i].payment == RecurringAt(t.changePayment, t.monthOf, monthly0, i + 1) &&
      pr.rows[i].principal == RecurringAt(t.changePayment, t.monthOf, monthly0, i + 1) - pr.rows[i].interest
    ensures forall i :: 0 <= i < |pr.rows| && t.monthOf(i + 1) in t.extra ==>
      pr.rows[i].payment == t.extra[t.monthOf(i + 1)] &&
      pr.rows[i].principal == t.extra[t.monthOf(i + 1)] - pr.rows[i].interest
    ensures pr.monthly == RecurringAt(t.changePayment, t.monthOf, monthly0, |pr.rows|)
  {
    PaymentsFrom(t, 1, monthly0, balance0, pr);
  }

  /**
   * A change at period p takes effect at p and stays in force for every later
   * period up to the next period whose month has a change.
   */
  lemma {:induction false} ChangePersists(changePayment: map<Date, real>, monthOf: int -> Date, monthly0: real, p: nat, q: nat)
    requires 1 <= p <= q
    requires monthOf(p) in changePayment
    requires forall r :: p < r <= q ==> monthOf(r) !in changePayment
    ensures RecurringAt(changePayment, monthOf, monthly0, q) == changePayment[monthOf(p)]
    decreases q
  {
    if q > p {
      ChangePersists(changePayment, monthOf, monthly0, p, q - 1);
    }
  }

  /** With no change among periods 1..q, the starting recurring payment is still in force at q. */
  lemma {:induction false} NoChangeKeepsInitial(changePayment: map<Date, real>, monthOf: int -> Date, monthly0: real, q: nat)
    requires forall r :: 1 <= r <= q ==> monthOf(r) !in changePayment
    ensures RecurringAt(changePayment, monthOf, monthly0, q) == monthly0
    decreases q
  {
    if q > 0 {
      NoChangeKeepsInitial(changePayment, monthOf, monthly0, q - 1);
    }
  }

  /** A change at period p has no effect on the recurring payment of any earlier period. */
  lemma {:induction false} ChangeDoesNotReachBack(changePayment: map<Date, real>, monthOf: int -> Date, monthly0: real, p: nat, q: nat)
    requires DistinctMonths(monthOf)
    requires q < p
    ensures RecurringAt(changePayment, monthOf, monthly0, q)
         == RecurringAt(changePayment - {monthOf(p)}, monthOf, monthly0, q)
    decreases q
  {
    if q > 0 {
      ChangeDoesNotReachBack(changePayment, monthOf, monthly0, p, q - 1);
      assert monthOf(q) != monthOf(p);
    }
  }

  /**
   * An extra payment for the month of period p shows only in that period's row:
   * every other row pays what it would pay had that extra payment not been given.
   */
  lemma {:induction false} ExtraOnlyItsRow(t: Terms, monthly0: real, balance0: real, pr: Projection, p: nat)
    requires DistinctMonths(t.monthOf)
    requires pr == Schedule(t, monthly0, balance0)
    requires 1 <= p
    requires t.monthOf(p) in t.extra
    ensures p <= |pr.rows| ==> pr.rows[p - 1].payment == t.extra[t.monthOf(p)]
    ensures forall i :: 0 <= i < |pr.rows| && i + 1 != p ==>
      pr.rows[i].payment
      == RowPayment(t.extra - {t.monthOf(p)}, t.monthOf(i + 1), RecurringAt(t.changePayment, t.monthOf, monthly0, i + 1))
  {
    SchedulePayments(t, monthly0, balance0, pr);
    forall k | 1 <= k <= |pr.rows| && k != p
      ensures t.monthOf(k) != t.monthOf(p)
    {
      if k < p {
        assert t.monthOf(k) != t.monthOf(p);
      } else {
        assert t.monthOf(p) != t.monthOf(k);
      }
    }
  }

  /**
   * An extra payment does not touch the recurring payment: the next row, when it
   * has no override of its own, pays the recurring payment in force at p, which
   * is the one from before p unless p's month also has a change.
   */
  lemma {:induction false} ExtraLeavesRecurring(t: Terms, monthly0: real, balance0: real, pr: Projection, p: nat)
    requires pr == Schedule(t, monthly0, balance0)
    requires 1 <= p < |pr.rows|
    requires t.monthOf(p) in t.extra
    requires t.monthOf(p + 1) !in t.extra && t.monthOf(p + 1) !in t.changePayment
    ensures pr.rows[p].payment == RecurringAt(t.changePayment, t.monthOf, monthly0, p)
    ensures t.monthOf(p) !in t.changePayment ==>
      pr.rows[p].payment == RecurringAt(t.changePayment, t.monthOf, monthly0, p - 1)
  {
    SchedulePayments(t, monthly0, balance0, pr);
  }

  /**
   * When a month has both a change and an extra payment, the change is applied
   * first: the row pays the extra amount, while the changed amount becomes the
   * recurring payment for the periods that follow.
   */
  lemma {:induction false} ChangeThenExtra(t: Terms, monthly0: real, balance0: real, pr: Projection, p: nat)
    requires pr == Schedule(t, monthly0, balance0)
    requires 1 <= p <= |pr.rows|
    requires t.monthOf(p) in t.extra && t.monthOf(p) in t.changePayment
    ensures pr.rows[p - 1].payment == t.extra[t.monthOf(p)]
    ensures pr.rows[p - 1].principal == t.extra[t.monthOf(p)] - pr.rows[p - 1].interest
    ensures RecurringAt(t.changePayment, t.monthOf, monthly0, p) == t.changePayment[t.monthOf(p)]
    ensures p < |pr.rows| && t.monthOf(p + 1) !in t.extra && t.monthOf(p + 1) !in t.changePayment ==>
      pr.rows[p].payment == t.changePayment[t.monthOf(p)]
    ensures p == |pr.rows| ==> pr.monthly == t.changePayment[t.monthOf(p)]
  {
    SchedulePayments(t, monthly0, balance0, pr);
  }
}
