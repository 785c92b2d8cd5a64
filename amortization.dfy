/**
 * The schedule projector as the program runs it: a mutable argument record
 * whose recurring payment a matching payment change overwrites, the two
 * override helpers that scan their maps for the period's month, and the
 * period loop that appends rows and stops after the first negative balance.
 * Each operation is proved against the reference model in ScheduleModel.
 */
module Amortization {
  import opened ScheduleModel

  datatype Option<T> = None | Some(value: T)

  /** The usage errors raised by the range check on the command-line values. */
  datatype UsageError = InterestAboveOne | PositiveMonthly

  /** Range check on the parsed options: the interest is checked first, then the payment's sign. */
  function CheckRanges(interest: real, monthly: real): (r: Option<UsageError>)
    ensures r == None <==> interest <= 1.0 && monthly <= 0.0
    ensures interest > 1.0 ==> r == Some(InterestAboveOne)
    ensures interest <= 1.0 && monthly > 0.0 ==> r == Some(PositiveMonthly)
  {
    if interest > 1.0 then Some(InterestAboveOne)
    else if monthly > 0.0 then Some(PositiveMonthly)
    else None
  }

  /**
   * The parsed option record shared by the helpers. Only `monthly`, the
   * recurring payment, is ever written; an absent override list is an empty map.
   */
  class Args {
    var balance: real
    var monthly: real
    var interest: real
    var extra: map<Date, real>
    var changePayment: map<Date, real>

    constructor (balance: real, monthly: real, interest: real, extra: map<Date, real>, changePayment: map<Date, real>)
      ensures this.balance == balance && this.monthly == monthly && this.interest == interest
      ensures this.extra == extra && this.changePayment == changePayment
    {
      this.balance := balance;
      this.monthly := monthly;
      this.interest := interest;
      this.extra := extra;
      this.changePayment := changePayment;
    }

    /**
     * Looks the month up among the payment changes; on a match the change
     * becomes the recurring payment, for this period and every later one.
     * Returns the recurring payment now in force.
     */
    method ChangePayment(monthDate: Date) returns (payment: real)
      modifies this`monthly
      ensures monthly == NewRecurring(changePayment, monthDate, old(monthly))
      ensures payment == monthly
    {
      payment := monthly;
      var pending := changePayment.Keys;
      while pending != {}
        invariant pending <= changePayment.Keys
        invariant monthDate in changePayment && monthDate !in pending ==> monthly == changePayment[monthDate]
        invariant monthDate !in changePayment || monthDate in pending ==> monthly == old(monthly)
        invariant payment == monthly
        decreases pending
      {
        var change :| change in pending;
        if monthDate == change {
          monthly := changePayment[change];
          payment := monthly;
        }
        pending := pending - {change};
      }
    }

    /**
     * Splits the period's payment: the principal is the recurring payment
     * minus interest, unless the month has an extra payment, which then
     * replaces both the row's payment and its principal. Nothing is written.
     */
    method Principal(monthDate: Date, interest: real, payment: real) returns (principal: real, interest': real, payment': real)
      ensures interest' == interest
      ensures principal == RowPrincipal(extra, monthDate, monthly, interest)
      ensures payment' == RowPayment(extra, monthDate, payment)
    {
      principal, interest', payment' := monthly - interest, interest, payment;
      var pending := extra.Keys;
      while pending != {}
        invariant pending <= extra.Keys
        invariant interest' == interest
        invariant monthDate in extra && monthDate !in pending ==>
          principal == extra[monthDate] - interest && payment' == extra[monthDate]
        invariant monthDate !in extra || monthDate in pending ==>
          principal == monthly - interest && payment' == payment
        decreases pending
      {
        var extraMonth :| extraMonth in pending;
        if monthDate == extraMonth {
          principal := extra[extraMonth] - interest;
          payment' := extra[extraMonth];
        }
        pending := pending - {extraMonth};
      }
    }
  }

  /** What the projection of `args` reads and never changes. */
  ghost function TermsOf(months: nat, args: Args, monthOf: int -> Date, ipmt: Ipmt): Terms
    reads args
  {
    Terms(months, args.interest, args.extra, args.changePayment, monthOf, ipmt)
  }

  /**
   * Projects the schedule over periods 1..months. The rows are exactly the
   * reference schedule, and the recurring payment left in `args` is the one in
   * force at the last emitted period.
   */
  method AmortizationSchedule(months: nat, args: Args, monthOf: int -> Date, ipmt: Ipmt) returns (rows: seq<Row>)
    modifies args`monthly
    ensures rows == Schedule(TermsOf(months, args, monthOf, ipmt), old(args.monthly), args.balance).rows
    ensures args.monthly == Schedule(TermsOf(months, args, monthOf, ipmt), old(args.monthly), args.balance).monthly
    ensures args.monthly == RecurringAt(args.changePayment, monthOf, old(args.monthly), |rows|)
  {
    ghost var t := TermsOf(months, args, monthOf, ipmt);
    ghost var full := Schedule(t, args.monthly, args.balance);
    var monthBalance := args.balance;
    rows := [];
    for period := 1 to months + 1
      invariant args.interest == t.interest && args.extra == t.extra && args.changePayment == t.changePayment
      invariant rows + Project(t, period, args.monthly, monthBalance).rows == full.rows
      invariant Project(t, period, args.monthly, monthBalance).monthly == full.monthly
    {
      ResumeStep(t, period, args.monthly, monthBalance, rows, full);
      ghost var current := args.monthly;
      var monthDate := monthOf(period);
      var interestDue := ipmt(args.interest / 12.0, period, months, monthBalance);
      var recurring := args.ChangePayment(monthDate);
      var principal, interest, payment := args.Principal(monthDate, interestDue, recurring);
      var row := Row(monthDate, period, payment, interest, principal, monthBalance + principal);
      assert row == PeriodRow(t, period, current, monthBalance);
      monthBalance := monthBalance + principal;
      rows := rows + [row];
      if monthBalance < 0.0 {
        break;
      }
    }
    PaymentsFrom(t, 1, old(args.monthly), args.balance, full);
  }
}
