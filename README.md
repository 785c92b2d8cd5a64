# Amortization schedule projector

A Dafny model of the schedule projector of the `amortization-schedules` tool. Given a
horizon of `months` periods and the parsed options (starting balance, recurring monthly
payment, annual interest rate, one-off extra payments and permanent payment changes, both
keyed by date), the projector walks periods 1..months. For each period it:

- looks up the period's month among the payment changes and, on a match, overwrites the
  recurring payment stored in the shared option record;
- computes the period's interest from the live running balance;
- takes the principal as the recurring payment minus interest, unless the month has an
  extra payment, which replaces the payment and the principal of that row only;
- adds the principal to the running balance and appends a row;
- stops after the first row whose balance is negative.

Two files, two modules:

- `schedule_model.dfy`, module `ScheduleModel`: the reference model. `PeriodRow` is one
  period's row. `Project` is the period-by-period fold that carries the recurring payment
  and the running balance and stops after the first negative balance. `Schedule` is that
  fold from period 1. `RecurringAt` is a closed description of the recurring payment in
  force at each period. The lemmas state the schedule's properties in terms of these
  definitions.
- `amortization.dfy`, module `Amortization`: the program's own form. `Args` is the mutable
  option record; only its `monthly` field is ever written. `Args.ChangePayment` and
  `Args.Principal` scan their override maps key by key, as the source does.
  `AmortizationSchedule` is the period loop with its early `break`. It is proved to
  return exactly `Schedule(...).rows` and to leave `Schedule(...).monthly` in `args`.
  `CheckRanges` is the range check on the parsed options.

Abstractions:

- The interest function `np.ipmt(rate, per, nper, pv)` is the parameter `ipmt`. It is an
  arbitrary total function of those four arguments, so no payment and no override can
  enter it.
- The month of period `p` (today's first of month plus `31 * p` days, moved back to the
  first of that month) is the parameter `monthOf`. Where a property needs distinct periods
  to fall in distinct months, the lemma requires `DistinctMonths(monthOf)`. The source's
  31-day stride guarantees this, because no month is longer than 31 days.
- Amounts are Dafny `real`s. Rows hold the unrounded interest, principal and balance.
- A missing override list (`None` in the source) and an empty one behave the same, and
  both are the empty map.

Where the code and the design description disagree, the model follows the code:

- The design description says the interest is computed from the balance at the start of
  the projection. The code passes the live running balance (`amortization.py:115` uses
  `month_balance`). The model uses the live balance; see `ScheduleInterest`.
- The design description gives the rate range as [0, 1]. The code rejects only a rate
  above 1 and a positive payment (`amortization.py:57-60`). `CheckRanges` does the same.
- The design description says an extra payment changes only its own row. In the code it
  changes only that row's *payment*. Later rows' interest and principal still shift,
  because the running balance differs. `ExtraOnlyItsRow` states the precise property.

## Model

| member | source | states |
|---|---|---|
| `Amortization.CheckRanges` | amortization.py:57-60 | no error exactly when interest <= 1 and monthly <= 0; a rate above 1 is reported first, otherwise a positive payment is reported |
| `Amortization.Args.ChangePayment` | amortization.py:85-91 | when the month is a change key, `monthly` becomes that change; otherwise `monthly` keeps its old value; the returned payment is the new `monthly`; no other field changes |
| `Amortization.Args.Principal` | amortization.py:94-102 | for an extra-payment month: principal = extra - interest and payment = extra; otherwise principal = monthly - interest and the payment passed in is returned; interest is passed through; nothing is written |
| `Amortization.AmortizationSchedule` | amortization.py:105-132 | the rows are exactly the reference schedule from period 1 with the starting balance and payment; the recurring payment left in `args` is the schedule's final one, i.e. the one in force at the last emitted period; only `args.monthly` is written |
| `ScheduleModel.ScheduleShape` | amortization.py:109-131 | at most `months` rows; row i has period i+1 and the month of period i+1, so periods run 1..k in order without gaps or repeats |
| `ScheduleModel.ScheduleStopsAtFirstNegative` | amortization.py:119-131 | with a positive horizon at least one row is emitted; every row but the last has balance >= 0; fewer than `months` rows only when the last emitted row (kept) has a negative balance |
| `ScheduleModel.ScheduleBalance` | amortization.py:106-119 | the balance after row i is the starting balance plus the sum of the principals of rows 1..i+1 |
| `ScheduleModel.ScheduleInterest` | amortization.py:115-119 | row i's interest is ipmt(rate / 12, i+1, months, balance before that period): the starting balance for the first row, otherwise the previous row's balance |
| `ScheduleModel.SchedulePayments` | amortization.py:94-102 | a row without an extra payment pays the recurring payment in force (`RecurringAt`) and its principal is that payment minus interest; a row with one pays the extra amount and its principal is extra minus interest; the recurring payment left afterwards is the one in force at the last emitted period |
| `ScheduleModel.ChangePersists` | amortization.py:85-91 | a change at period p is the recurring payment at p and at every later period until the next period whose month has a change |
| `ScheduleModel.NoChangeKeepsInitial` | amortization.py:86-91 | with no change key among periods 1..q, the recurring payment at q is still the starting `monthly` |
| `ScheduleModel.ChangeDoesNotReachBack` | amortization.py:88-90 | with distinct months, deleting the change for period p's month leaves the recurring payment of every earlier period unchanged |
| `ScheduleModel.ExtraOnlyItsRow` | amortization.py:97-101 | with distinct months, the row of period p pays the extra amount, and every other row pays what it would pay without that extra payment |
| `ScheduleModel.ExtraLeavesRecurring` | amortization.py:94-102 | after an extra payment at p, a next row without overrides pays the recurring payment in force at p; this is the pre-override payment when p has no change |
| `ScheduleModel.ChangeThenExtra` | amortization.py:112-117 | for a month in both maps, the change is applied first: the row pays the extra amount with principal extra - interest, the changed value is the recurring payment at p, and it is what the next override-free row pays or what is left in `args` if p is the last row |

## Left out

- `calculate_months` (amortization.py:79-82): the horizon comes from numpy's floating-point `nper` formula, is rounded up with `math.ceil` and is printed. The model takes `months` as a natural-number input.
- The body of numpy's `ipmt`: a floating-point financial formula from a foreign library. It is the uninterpreted parameter `ipmt`.
- The calendar: `datetime.date.today()`, the 31-day stride and the `"year/month"` label text are the parameter `monthOf`. Rows carry the period's date, not its formatted label.
- The rounding of interest, principal and balance to two decimals in each emitted row: floating-point rounding. Rows hold unrounded values. The early-exit test uses the unrounded balance in the source too.
- Floating-point arithmetic in general: amounts are exact reals.
- Argument parsing, JSON decoding of override entries and `fromisoformat` (amortization.py:10-76) are command-line plumbing. Only the range check is modelled, as `CheckRanges`.
- `main` (amortization.py:135-147): the CSV writing and file handling are I/O.
- Python dict iteration order in the two helpers: the keys of a dict are distinct, so at most one key matches the month and the order cannot change the result. The model scans the key set in an arbitrary order.
