/** Loans: origination, the stored payment schedule and the payment state machine. */
module Loans {
  import opened Prelude
  import opened Calendar
  import opened Money
  import opened RealArithmetic
  import A = Amortization

  datatype Status = Active | PaidOff

  datatype Loan = Loan(
    id: int, userId: int, accountId: int, originalAmount: real, currentBalance: real, interestRate: real, termMonths: int,
    monthlyPayment: real, nextPaymentDate: Date, paymentsMade: nat, paymentsRemaining: int,
    totalPaid: real, totalInterestPaid: real, status: Status, originatedDate: Day,
    maturityDate: Date, lastPaymentDate: Option<Day>)

  datatype Scheduled = Scheduled(
    loanId: int, number: nat, date: Date, amount: real, principal: real, interest: real,
    remaining: real, cumulativeInterest: real, cumulativePrincipal: real)

  /** `kind` is the payment type: "payoff", "extra_principal", or anything else for a regular payment. */
  datatype Request = Request(loanId: int, amount: real, kind: string, date: Option<Day>)

  datatype Payment = Payment(
    loanId: int, number: nat, amount: real, principal: real, interest: real, extraPrincipal: real,
    kind: string, date: Day, remaining: real)

  datatype LoanError = NotFound | NoApplication | Unauthorized | NotActive | BadDate

  // ---------------------------------------------------------------------------------------------
  // One payment
  // ---------------------------------------------------------------------------------------------

  function PayoffInterest(loan: Loan, on: Day): real {
    var since := if loan.lastPaymentDate.Some? then loan.lastPaymentDate.value else loan.originatedDate;
    loan.currentBalance * (loan.interestRate / 100.0 / 365.0) * (DayNumber(on) - DayNumber(since)) as real
  }

  /** The day from which a payoff charges interest: that of the last payment, or of the loan. */
  function Since(loan: Loan): Day {
    if loan.lastPaymentDate.Some? then loan.lastPaymentDate.value else loan.originatedDate
  }

  /** A payoff charges a 365th of the annual percentage on the balance for every day since. */
  lemma PayoffChargesAnnualRate(loan: Loan, on: Day)
    ensures 36500.0 * PayoffInterest(loan, on) ==
            loan.currentBalance * loan.interestRate * (DayNumber(on) - DayNumber(Since(loan))) as real
    ensures loan.currentBalance > 0.0 && loan.interestRate > 0.0 ==>
              (PayoffInterest(loan, on) > 0.0 <==> Before(Since(loan), on)) && (PayoffInterest(loan, on) == 0.0 <==> on == Since(loan))
  {
    var days := (DayNumber(on) - DayNumber(Since(loan))) as real;
    hide *;
    DaysHaveSign(Since(loan), on);
    PayoffInterestIs(loan, on);
    DailyShare(loan.currentBalance, loan.interestRate, days, PayoffInterest(loan, on));
  }

  lemma PayoffInterestIs(loan: Loan, on: Day)
    ensures PayoffInterest(loan, on) ==
            loan.currentBalance * (loan.interestRate / 100.0 / 365.0) * (DayNumber(on) - DayNumber(Since(loan))) as real
  {
    hide DayNumber;
  }

  lemma DailyShare(balance: real, annualRate: real, days: real, interest: real)
    requires interest == balance * (annualRate / 100.0 / 365.0) * days
    ensures 36500.0 * interest == balance * annualRate * days
    ensures balance > 0.0 && annualRate > 0.0 ==> (interest > 0.0 <==> days > 0.0) && (interest == 0.0 <==> days == 0.0)
  {
    var daily := annualRate / 100.0 / 365.0;
    assert 36500.0 * daily == annualRate;
    assert 36500.0 * (balance * daily) == balance * annualRate;
    if balance > 0.0 && annualRate > 0.0 {
      MulPositive(balance, daily);
      SignOfProduct(balance * daily, days);
    }
  }

  lemma SignOfProduct(c: real, x: real)
    requires c > 0.0
    ensures (c * x > 0.0 <==> x > 0.0) && (c * x == 0.0 <==> x == 0.0)
  {
    ScaledComparison(c, 0.0, x);
    ScaledComparison(c, x, 0.0);
  }

  lemma DaysHaveSign(a: Day, b: Day)
    ensures Before(a, b) <==> DayNumber(a) < DayNumber(b)
    ensures a == b <==> DayNumber(a) == DayNumber(b)
  {
    hide DayNumber;
    if Before(a, b) {
      DayNumberIncreases(a, b);
    } else if Before(b, a) {
      DayNumberIncreases(b, a);
    }
  }

  /** How a payment is split: principal and interest. */
  function Split(loan: Loan, q: Request, scheduled: Option<Scheduled>, on: Day): (real, real) {
    var due := if scheduled.Some? then scheduled.value.interest else 0.0;
    if q.kind == "payoff" then (loan.currentBalance, PayoffInterest(loan, on))
    else if q.kind == "extra_principal" then (q.amount, 0.0)
    else (q.amount - due, due)
  }

  function Record(loan: Loan, q: Request, scheduled: Option<Scheduled>, on: Day): Payment {
    var (principal, interest) := Split(loan, q, scheduled, on);
    Payment(loan.id, loan.paymentsMade + 1, q.amount, principal, interest,
            Max0(principal - if scheduled.Some? then scheduled.value.principal else 0.0),
            q.kind, on, loan.currentBalance - principal)
  }

  /** `max(0, remaining - 1)`. */
  function OneFewer(remaining: int): int {
    if remaining <= 1 then 0 else remaining - 1
  }

  function Pay(loan: Loan, p: Payment, next: Date): Loan {
    loan.(currentBalance := if p.remaining <= 0.0 then 0.0 else p.remaining,
          paymentsMade := loan.paymentsMade + 1,
          paymentsRemaining := OneFewer(loan.paymentsRemaining),
          totalPaid := loan.totalPaid + p.amount,
          totalInterestPaid := loan.totalInterestPaid + p.interest,
          status := if p.remaining <= 0.0 then PaidOff else loan.status,
          nextPaymentDate := next,
          lastPaymentDate := Some(p.date))
  }

  /** What a payment has updated when the date of the next one leaves the calendar: not the status. */
  function Interrupted(loan: Loan, p: Payment): Loan {
    loan.(currentBalance := p.remaining,
          paymentsMade := loan.paymentsMade + 1,
          paymentsRemaining := OneFewer(loan.paymentsRemaining),
          totalPaid := loan.totalPaid + p.amount,
          totalInterestPaid := loan.totalInterestPaid + p.interest,
          lastPaymentDate := Some(p.date))
  }

  // ---------------------------------------------------------------------------------------------
  // Any run of payments on one loan
  // ---------------------------------------------------------------------------------------------

  /** One call of `make_payment`, made on day `today`. */
  datatype Attempt = Attempt(q: Request, today: Day)

  function DateOf(a: Attempt): Day {
    if a.q.date.Some? then a.q.date.value else a.today
  }

  function RowKey(s: Scheduled): (int, nat) {
    (s.loanId, s.number)
  }

  /** The first schedule row of the loan with that number. */
  function FindScheduled(schedules: seq<Scheduled>, loanId: int, number: nat): Option<Scheduled> {
    var i := FirstWith(schedules, RowKey, (loanId, number));
    if i < |schedules| then Some(schedules[i]) else None
  }

  /** A loan and the payments recorded for it. */
  datatype Ledger = Ledger(loan: Loan, payments: seq<Payment>)

  /** The record that an accepted attempt adds. */
  function Entered(l: Ledger, schedules: seq<Scheduled>, a: Attempt): Payment {
    Record(l.loan, a.q, FindScheduled(schedules, l.loan.id, l.loan.paymentsMade + 1), DateOf(a))
  }

  /** The loan after the payment `p`; in the last month of the calendar the call raises part-way. */
  function Updated(loan: Loan, p: Payment): Loan {
    match AddMonths(p.date, 1)
    case Success(next) => Pay(loan, p, next)
    case Failure(_) => Interrupted(loan, p)
  }

  function Attempted(l: Ledger, schedules: seq<Scheduled>, a: Attempt): Ledger {
    if l.loan.status != Active then l
    else
      var p := Entered(l, schedules, a);
      Ledger(Updated(l.loan, p), l.payments + [p])
  }

  function RunPayments(l: Ledger, schedules: seq<Scheduled>, attempts: seq<Attempt>): Ledger {
    if attempts == [] then l
    else Attempted(RunPayments(l, schedules, attempts[..|attempts| - 1]), schedules, attempts[|attempts| - 1])
  }

  function SumPrincipal(ps: seq<Payment>): real {
    if ps == [] then 0.0 else SumPrincipal(ps[..|ps| - 1]) + ps[|ps| - 1].principal
  }

  function SumInterest(ps: seq<Payment>): real {
    if ps == [] then 0.0 else SumInterest(ps[..|ps| - 1]) + ps[|ps| - 1].interest
  }

  function SumAmount(ps: seq<Payment>): real {
    if ps == [] then 0.0 else SumAmount(ps[..|ps| - 1]) + ps[|ps| - 1].amount
  }

  /** A loan as `accept_offer` creates it. */
  ghost predicate JustOriginated(loan: Loan) {
    && loan.status == Active && loan.currentBalance == loan.originalAmount
    && loan.paymentsMade == 0 && loan.paymentsRemaining == loan.termMonths
    && loan.totalPaid == 0.0 && loan.totalInterestPaid == 0.0
  }

  /** What remains of the original amount after the first `n` payments, before any clamp. */
  function Owed(loan: Loan, ps: seq<Payment>, n: nat): real
    requires n <= |ps|
  {
    loan.originalAmount - SumPrincipal(ps[..n])
  }

  /** A regular payment pays the interest of its own schedule row, if there is one; an extra
      principal payment pays none. */
  ghost predicate PaysDueInterest(schedules: seq<Scheduled>, loanId: int, p: Payment) {
    var row := FindScheduled(schedules, loanId, p.number);
    p.kind != "payoff" ==>
      p.interest == if p.kind == "extra_principal" || row.None? then 0.0 else row.value.interest
  }

  ghost predicate Splits(p: Payment) {
    p.amount == p.principal + p.interest
  }

  /**
   * The books balance: every principal part reduces what is owed, only the final balance is
   * clamped to 0, and the loan is paid off exactly when what is owed first falls to 0 or below.
   */
  ghost predicate BooksBalance(loan0: Loan, schedules: seq<Scheduled>, l: Ledger) {
    && l.loan.originalAmount == loan0.originalAmount && l.loan.id == loan0.id
    && RecordsOk(loan0, schedules, l.payments) && CountersOk(loan0, l) && BalanceOk(loan0, l)
  }

  ghost predicate RecordsOk(loan0: Loan, schedules: seq<Scheduled>, ps: seq<Payment>) {
    var n := |ps|;
    && (forall i: nat :: i < n ==> ps[i].number == i + 1 && PaysDueInterest(schedules, loan0.id, ps[i]))
    && (forall i: nat :: 0 < i < n ==> Owed(loan0, ps, i) > 0.0)
    && (forall i: nat :: i < n - 1 ==> ps[i].kind != "payoff")
    && (forall i: nat :: i < n && ps[i].kind != "payoff" ==> Splits(ps[i]))
  }

  ghost predicate CountersOk(loan0: Loan, l: Ledger) {
    var n := |l.payments|;
    && l.loan.paymentsMade == n
    && l.loan.paymentsRemaining == (if n == 0 || n <= loan0.termMonths then loan0.termMonths - n else 0)
    && l.loan.totalPaid == SumAmount(l.payments) && l.loan.totalInterestPaid == SumInterest(l.payments)
  }

  ghost predicate BalanceOk(loan0: Loan, l: Ledger) {
    var n := |l.payments|;
    && (l.loan.status == PaidOff <==> n > 0 && Owed(loan0, l.payments, n) <= 0.0)
    && l.loan.currentBalance == (if l.loan.status == PaidOff then 0.0 else Owed(loan0, l.payments, n))
    && (n > 0 && l.payments[n - 1].kind == "payoff" ==> Owed(loan0, l.payments, n) == 0.0)
  }

  lemma AttemptedIs(l: Ledger, schedules: seq<Scheduled>, a: Attempt)
    ensures Attempted(l, schedules, a) ==
            if l.loan.status != Active then l
            else Ledger(Updated(l.loan, Entered(l, schedules, a)), l.payments + [Entered(l, schedules, a)])
  {
  }

  /** The call ends normally, or at least leaves something to pay. */
  ghost predicate Completes(l: Ledger, schedules: seq<Scheduled>, a: Attempt) {
    l.loan.status == Active ==> AddMonths(DateOf(a), 1).Success? || Entered(l, schedules, a).remaining > 0.0
  }

  /** A payment keeps the books iff it is not the final one, made in the last month of the calendar. */
  lemma PaymentKeepsBooksIff(loan0: Loan, l: Ledger, schedules: seq<Scheduled>, a: Attempt)
    requires BooksBalance(loan0, schedules, l)
    ensures BooksBalance(loan0, schedules, Attempted(l, schedules, a)) <==> Completes(l, schedules, a)
  {
    hide *;
    AttemptedIs(l, schedules, a);
    CompletesIs(l, schedules, a);
    if l.loan.status == Active {
      var p := Entered(l, schedules, a);
      EnteredFacts(loan0, l, schedules, a);
      EntryKeepsBooks(loan0, schedules, l, p);
    }
  }

  lemma CompletesIs(l: Ledger, schedules: seq<Scheduled>, a: Attempt)
    ensures Completes(l, schedules, a) <==>
              (l.loan.status == Active ==> AddMonths(DateOf(a), 1).Success? || Entered(l, schedules, a).remaining > 0.0)
  {
    hide Entered, AddMonths;
  }

  lemma EnteredFacts(loan0: Loan, l: Ledger, schedules: seq<Scheduled>, a: Attempt)
    requires BooksBalance(loan0, schedules, l)
    ensures var p := Entered(l, schedules, a);
      && p.number == l.loan.paymentsMade + 1 && p.remaining == l.loan.currentBalance - p.principal
      && PaysDueInterest(schedules, loan0.id, p) && p.date == DateOf(a)
      && if p.kind == "payoff" then p.principal == l.loan.currentBalance else Splits(p)
  {
    hide *;
    SameId(loan0, schedules, l);
    EnteredIs(l, schedules, a);
    RecordFacts(l.loan, schedules, a.q, DateOf(a));
  }

  lemma SameId(loan0: Loan, schedules: seq<Scheduled>, l: Ledger)
    requires BooksBalance(loan0, schedules, l)
    ensures l.loan.id == loan0.id
  {
  }

  lemma EnteredIs(l: Ledger, schedules: seq<Scheduled>, a: Attempt)
    ensures Entered(l, schedules, a) == Record(l.loan, a.q, FindScheduled(schedules, l.loan.id, l.loan.paymentsMade + 1), DateOf(a))
  {
    hide Record, FindScheduled, ValidDate;
  }

  lemma RecordFacts(loan: Loan, schedules: seq<Scheduled>, q: Request, on: Day)
    ensures var p := Record(loan, q, FindScheduled(schedules, loan.id, loan.paymentsMade + 1), on);
      && p.number == loan.paymentsMade + 1 && p.remaining == loan.currentBalance - p.principal
      && p.amount == q.amount && p.kind == q.kind && p.date == on
      && PaysDueInterest(schedules, loan.id, p)
      && if p.kind == "payoff" then p.principal == loan.currentBalance && p.interest == PayoffInterest(loan, on) else Splits(p)
  {
    hide PayoffInterest, FindScheduled, ValidDate, Max0;
  }

  lemma UpdatedFacts(loan: Loan, p: Payment)
    ensures var u := Updated(loan, p);
      && u.id == loan.id && u.originalAmount == loan.originalAmount && u.paymentsMade == loan.paymentsMade + 1
      && u.paymentsRemaining == OneFewer(loan.paymentsRemaining)
      && u.totalPaid == loan.totalPaid + p.amount && u.totalInterestPaid == loan.totalInterestPaid + p.interest
      && if AddMonths(p.date, 1).Success? && p.remaining <= 0.0 then u.status == PaidOff && u.currentBalance == 0.0
         else u.status == loan.status && u.currentBalance == p.remaining
  {
    hide AddMonths;
  }

  lemma EntryKeepsBooks(loan0: Loan, schedules: seq<Scheduled>, l: Ledger, p: Payment)
    requires BooksBalance(loan0, schedules, l) && l.loan.status == Active
    requires p.number == l.loan.paymentsMade + 1 && p.remaining == l.loan.currentBalance - p.principal
    requires if p.kind == "payoff" then p.principal == l.loan.currentBalance else Splits(p)
    requires PaysDueInterest(schedules, loan0.id, p)
    ensures BooksBalance(loan0, schedules, Ledger(Updated(l.loan, p), l.payments + [p])) <==>
              AddMonths(p.date, 1).Success? || p.remaining > 0.0
  {
    hide Owed, SumPrincipal, SumInterest, SumAmount, RecordsOk, CountersOk, BalanceOk, AddMonths, Updated;
    UpdatedFacts(l.loan, p);
    EntryKeepsRecords(loan0, schedules, l, p);
    EntryKeepsCounters(loan0, l, p);
    EntryKeepsBalance(loan0, l, p);
  }

  lemma EntryKeepsRecords(loan0: Loan, schedules: seq<Scheduled>, l: Ledger, p: Payment)
    requires RecordsOk(loan0, schedules, l.payments) && CountersOk(loan0, l) && BalanceOk(loan0, l) && l.loan.status == Active
    requires p.number == l.loan.paymentsMade + 1 && (p.kind != "payoff" ==> Splits(p)) && PaysDueInterest(schedules, loan0.id, p)
    ensures RecordsOk(loan0, schedules, l.payments + [p])
  {
    OwedExtends(loan0, l.payments, p);
    ActiveOwes(loan0, l);
    hide Owed, PaysDueInterest, Splits, SumPrincipal, SumAmount, SumInterest, CountersOk, BalanceOk;
  }

  lemma ActiveOwes(loan0: Loan, l: Ledger)
    requires CountersOk(loan0, l) && BalanceOk(loan0, l) && l.loan.status == Active
    ensures var n := |l.payments|;
      l.loan.paymentsMade == n && (n > 0 ==> Owed(loan0, l.payments, n) > 0.0 && l.payments[n - 1].kind != "payoff")
  {
    hide Owed, SumAmount, SumInterest;
  }

  lemma EntryKeepsCounters(loan0: Loan, l: Ledger, p: Payment)
    requires CountersOk(loan0, l)
    ensures CountersOk(loan0, Ledger(Updated(l.loan, p), l.payments + [p]))
  {
    UpdatedFacts(l.loan, p);
    SumsExtend(l.payments, p);
    hide Updated, SumAmount, SumInterest;
  }

  lemma EntryKeepsBalance(loan0: Loan, l: Ledger, p: Payment)
    requires BalanceOk(loan0, l) && l.loan.status == Active && p.remaining == l.loan.currentBalance - p.principal
    requires p.kind == "payoff" ==> p.principal == l.loan.currentBalance
    ensures BalanceOk(loan0, Ledger(Updated(l.loan, p), l.payments + [p])) <==> AddMonths(p.date, 1).Success? || p.remaining > 0.0
  {
    UpdatedFacts(l.loan, p);
    OwedExtends(loan0, l.payments, p);
    hide Updated, Owed, AddMonths;
  }

  lemma SumsExtend(ps: seq<Payment>, p: Payment)
    ensures SumAmount(ps + [p]) == SumAmount(ps) + p.amount
    ensures SumInterest(ps + [p]) == SumInterest(ps) + p.interest
    ensures SumPrincipal(ps + [p]) == SumPrincipal(ps) + p.principal
  {
    assert (ps + [p])[..|ps|] == ps;
  }

  lemma OwedExtends(loan: Loan, ps: seq<Payment>, p: Payment)
    ensures forall i: nat :: i <= |ps| ==> Owed(loan, ps + [p], i) == Owed(loan, ps, i)
    ensures Owed(loan, ps + [p], |ps| + 1) == Owed(loan, ps, |ps|) - p.principal
  {
    SumsExtend(ps, p);
    assert (ps + [p])[..|ps| + 1] == ps + [p] && ps[..|ps|] == ps;
    forall i: nat | i <= |ps|
      ensures (ps + [p])[..i] == ps[..i]
    {
    }
  }

  /** The ledger before attempt `k`. */
  function LedgerAt(first: Ledger, schedules: seq<Scheduled>, attempts: seq<Attempt>, k: nat): Ledger
    requires k <= |attempts|
  {
    RunPayments(first, schedules, attempts[..k])
  }

  /** No attempt of the run is cut short by the end of the calendar with nothing left to pay. */
  ghost predicate AllComplete(first: Ledger, schedules: seq<Scheduled>, attempts: seq<Attempt>) {
    forall k: nat :: k < |attempts| ==> Completes(LedgerAt(first, schedules, attempts, k), schedules, attempts[k])
  }

  lemma AllCompletePrefix(first: Ledger, schedules: seq<Scheduled>, attempts: seq<Attempt>)
    requires attempts != [] && AllComplete(first, schedules, attempts)
    ensures var n := |attempts| - 1;
      AllComplete(first, schedules, attempts[..n]) && Completes(LedgerAt(first, schedules, attempts, n), schedules, attempts[n])
  {
    hide Completes, RunPayments;
    var n := |attempts| - 1;
    forall k: nat | k < n
      ensures LedgerAt(first, schedules, attempts[..n], k) == LedgerAt(first, schedules, attempts, k)
    {
      assert attempts[..n][..k] == attempts[..k];
    }
    assert forall k: nat :: k < n ==> Completes(LedgerAt(first, schedules, attempts, k), schedules, attempts[k]);
  }

  /** For every sequence of payments, however they are typed, sized and refused, from balanced books on. */
  lemma {:induction false} EveryRunBalances(loan: Loan, first: Ledger, schedules: seq<Scheduled>, attempts: seq<Attempt>)
    requires BooksBalance(loan, schedules, first) && AllComplete(first, schedules, attempts)
    ensures BooksBalance(loan, schedules, RunPayments(first, schedules, attempts))
  {
    if attempts != [] {
      var n := |attempts| - 1;
      AllCompletePrefix(first, schedules, attempts);
      hide BooksBalance, AllComplete, Completes;
      EveryRunBalances(loan, first, schedules, attempts[..n]);
      PaymentKeepsBooksIff(loan, LedgerAt(first, schedules, attempts, n), schedules, attempts[n]);
    }
  }

  /** The records from the `from`-th on say what was left after them. */
  ghost predicate TellBalances(loan: Loan, ps: seq<Payment>, from: nat) {
    forall i: nat :: from <= i < |ps| ==> ps[i].remaining == Owed(loan, ps, i + 1)
  }

  /** The loan is dated by its latest record: paid on that day, the next payment due a month later. */
  ghost predicate DatedByLatest(l: Ledger) {
    l.payments != [] ==>
      var on := l.payments[|l.payments| - 1].date;
      && l.loan.lastPaymentDate == Some(on)
      && (InRange(Index(on) + 1) ==>
            && ValidDate(l.loan.nextPaymentDate) && Index(l.loan.nextPaymentDate) == Index(on) + 1
            && l.loan.nextPaymentDate.day == Min(on.day, LengthAt(Index(on) + 1)))
  }

  /** Over any run the records tell the balance after them, and the latest one the dates of the loan. */
  lemma {:induction false} RecordsTellBalances(loan: Loan, first: Ledger, schedules: seq<Scheduled>, attempts: seq<Attempt>)
    requires BooksBalance(loan, schedules, first) && AllComplete(first, schedules, attempts) && DatedByLatest(first)
    ensures var l := RunPayments(first, schedules, attempts);
      && |first.payments| <= |l.payments| && l.payments[..|first.payments|] == first.payments
      && TellBalances(loan, l.payments, |first.payments|) && DatedByLatest(l)
  {
    if attempts == [] {
      NothingNew(loan, first, schedules);
    } else {
      var n := |attempts| - 1;
      AllCompletePrefix(first, schedules, attempts);
      RecordsTellBalances(loan, first, schedules, attempts[..n]);
      EveryRunBalances(loan, first, schedules, attempts[..n]);
      hide *;
      LastAttempt(first, schedules, attempts);
      AttemptTellsBalance(loan, RunPayments(first, schedules, attempts[..n]), schedules, attempts[n], first);
    }
  }

  lemma NothingNew(loan: Loan, first: Ledger, schedules: seq<Scheduled>)
    ensures RunPayments(first, schedules, []) == first && TellBalances(loan, first.payments, |first.payments|)
    ensures first.payments[..|first.payments|] == first.payments
  {
  }

  lemma AttemptTellsBalance(loan: Loan, l: Ledger, schedules: seq<Scheduled>, a: Attempt, first: Ledger)
    requires BooksBalance(loan, schedules, l) && DatedByLatest(l)
    requires |first.payments| <= |l.payments| && l.payments[..|first.payments|] == first.payments
    requires TellBalances(loan, l.payments, |first.payments|)
    ensures var after := Attempted(l, schedules, a);
      && |first.payments| <= |after.payments| && after.payments[..|first.payments|] == first.payments
      && TellBalances(loan, after.payments, |first.payments|) && DatedByLatest(after)
  {
    hide TellBalances, DatedByLatest, Attempted, Entered, Owed, RecordsOk, CountersOk, Updated;
    AttemptedIs(l, schedules, a);
    if l.loan.status == Active {
      var p := Entered(l, schedules, a);
      EnteredIs(l, schedules, a);
      RecordFacts(l.loan, schedules, a.q, DateOf(a));
      EntryTells(loan, l.payments, p, |first.payments|);
      EntryDates(l, p);
    }
  }

  lemma EntryTells(loan: Loan, ps: seq<Payment>, p: Payment, from: nat)
    requires TellBalances(loan, ps, from) && p.remaining == Owed(loan, ps, |ps|) - p.principal
    ensures TellBalances(loan, ps + [p], from)
  {
    OwedExtends(loan, ps, p);
    hide Owed;
  }

  lemma EntryDates(l: Ledger, p: Payment)
    ensures DatedByLatest(Ledger(Updated(l.loan, p), l.payments + [p]))
  {
    hide Updated, AddMonths, InRange, ValidDate, Index, LengthAt, Min;
    AddMonthsLands(p.date, 1);
    UpdatedDates(l.loan, p);
  }

  lemma UpdatedDates(loan: Loan, p: Payment)
    ensures var u, next := Updated(loan, p), AddMonths(p.date, 1);
      u.lastPaymentDate == Some(p.date) && u.nextPaymentDate == if next.Success? then next.value else loan.nextPaymentDate
  {
    hide AddMonths;
  }

  /** A payoff of another amount than balance plus interest since the last payment. */
  predicate WrongPayoff(loan: Loan, a: Attempt) {
    loan.status == Active && a.q.kind == "payoff" && a.q.amount != loan.currentBalance + PayoffInterest(loan, DateOf(a))
  }

  /** Total paid less principal parts less interest. */
  function Gap(l: Ledger): real {
    l.loan.totalPaid - SumPrincipal(l.payments) - l.loan.totalInterestPaid
  }

  /** Only a wrong payoff opens a gap, and it ends the loan. */
  lemma GapOpens(l: Ledger, schedules: seq<Scheduled>, a: Attempt)
    requires Completes(l, schedules, a)
    ensures var after := Attempted(l, schedules, a);
      && (Gap(after) != Gap(l) <==> WrongPayoff(l.loan, a))
      && (Gap(after) != Gap(l) ==> after.loan.status == PaidOff)
      && (l.loan.status == PaidOff ==> after == l)
  {
    hide PayoffInterest, Record, FindScheduled, PaysDueInterest, AddMonths, Updated, SumPrincipal, Entered;
    if l.loan.status == Active {
      var p := Entered(l, schedules, a);
      EnteredIs(l, schedules, a);
      RecordFacts(l.loan, schedules, a.q, DateOf(a));
      UpdatedFacts(l.loan, p);
      SumsExtend(l.payments, p);
    }
  }

  ghost predicate WrongAt(first: Ledger, schedules: seq<Scheduled>, attempts: seq<Attempt>, k: nat)
    requires k < |attempts|
  {
    WrongPayoff(LedgerAt(first, schedules, attempts, k).loan, attempts[k])
  }

  ghost predicate NoneWrong(first: Ledger, schedules: seq<Scheduled>, attempts: seq<Attempt>) {
    forall k: nat :: k < |attempts| ==> !WrongAt(first, schedules, attempts, k)
  }

  lemma NoneWrongPrefix(first: Ledger, schedules: seq<Scheduled>, attempts: seq<Attempt>)
    requires attempts != []
    ensures var n := |attempts| - 1;
      NoneWrong(first, schedules, attempts) <==>
        NoneWrong(first, schedules, attempts[..n]) && !WrongAt(first, schedules, attempts, n)
  {
    hide WrongPayoff, RunPayments;
    var n := |attempts| - 1;
    forall k: nat | k < n
      ensures WrongAt(first, schedules, attempts[..n], k) == WrongAt(first, schedules, attempts, k)
    {
      assert attempts[..n][..k] == attempts[..k];
    }
  }

  lemma LastAttempt(first: Ledger, schedules: seq<Scheduled>, attempts: seq<Attempt>)
    requires attempts != []
    ensures var n := |attempts| - 1;
      && RunPayments(first, schedules, attempts) ==
           Attempted(LedgerAt(first, schedules, attempts, n), schedules, attempts[n])
      && LedgerAt(first, schedules, attempts, n) == RunPayments(first, schedules, attempts[..n])
      && (WrongAt(first, schedules, attempts, n) <==> WrongPayoff(LedgerAt(first, schedules, attempts, n).loan, attempts[n]))
  {
    hide Attempted, WrongPayoff;
  }

  /** A gap is there iff some payoff was wrong. */
  lemma {:induction false} GapIffWrong(first: Ledger, schedules: seq<Scheduled>, attempts: seq<Attempt>)
    requires Gap(first) == 0.0 && AllComplete(first, schedules, attempts)
    ensures var l := RunPayments(first, schedules, attempts);
      && (Gap(l) == 0.0 <==> NoneWrong(first, schedules, attempts))
      && (Gap(l) != 0.0 ==> l.loan.status == PaidOff)
  {
    if attempts != [] {
      hide *;
      var n := |attempts| - 1;
      AllCompletePrefix(first, schedules, attempts);
      NoneWrongPrefix(first, schedules, attempts);
      LastAttempt(first, schedules, attempts);
      GapIffWrong(first, schedules, attempts[..n]);
      GapOpens(LedgerAt(first, schedules, attempts, n), schedules, attempts[n]);
    }
  }

  /** From books without a gap - those of a new loan, say - the total paid is principal plus interest iff
      no attempt was a payoff of a wrong amount: a payoff takes the whole balance whatever is paid. */
  lemma TotalPaidSplitsIff(first: Ledger, schedules: seq<Scheduled>, attempts: seq<Attempt>)
    requires Gap(first) == 0.0 && AllComplete(first, schedules, attempts)
    ensures var l := RunPayments(first, schedules, attempts);
      l.loan.totalPaid == SumPrincipal(l.payments) + l.loan.totalInterestPaid <==>
        forall k: nat :: k < |attempts| ==> !WrongAt(first, schedules, attempts, k)
  {
    GapIffWrong(first, schedules, attempts);
    hide RunPayments, SumPrincipal, WrongAt;
  }

  /** A loan of 100 at rate 0, closed by a payoff of 10: the total paid is 10, the principal 100. */
  lemma WrongPayoffCloses(loan: Loan, schedules: seq<Scheduled>, a: Attempt)
    requires JustOriginated(loan) && loan.originalAmount == 100.0 && loan.interestRate == 0.0
    requires a == Attempt(Request(loan.id, 10.0, "payoff", None), Date(2024, 2, 1))
    ensures var l := RunPayments(Ledger(loan, []), schedules, [a]);
      l.loan.status == PaidOff && l.loan.totalPaid == 10.0 && SumPrincipal(l.payments) == 100.0 && l.loan.totalInterestPaid == 0.0
  {
    var l := Ledger(loan, []);
    EnteredIs(l, schedules, a);
    RecordFacts(loan, schedules, a.q, a.today);
    assert AddMonths(a.today, 1).Success?;
    var p := Entered(l, schedules, a);
    UpdatedFacts(loan, p);
    RateZero(loan, a.today);
    hide Entered, Record, FindScheduled, PaysDueInterest, AddMonths, Updated, PayoffInterest;
    assert [a][..0] == [];
    assert RunPayments(l, schedules, []) == l;
    assert RunPayments(l, schedules, [a]) == Attempted(l, schedules, a);
    assert [p][..0] == [];
  }

  lemma RateZero(loan: Loan, on: Day)
    requires loan.interestRate == 0.0
    ensures PayoffInterest(loan, on) == 0.0
  {
    hide DayNumber;
  }

  /** A loan whose last payment is made in December 9999 stays active with nothing left to pay. */
  lemma EndOfCalendarBreaksBooks(loan: Loan, schedules: seq<Scheduled>, a: Attempt)
    requires JustOriginated(loan) && a == Attempt(Request(loan.id, 100.0, "payoff", None), Date(9999, 12, 1))
    ensures var l := RunPayments(Ledger(loan, []), schedules, [a]);
      l.loan.status == Active && l.loan.currentBalance == 0.0 && !BooksBalance(loan, schedules, l)
  {
    var l := Ledger(loan, []);
    EnteredIs(l, schedules, a);
    RecordFacts(loan, schedules, a.q, a.today);
    assert AddMonths(a.today, 1).Failure?;
    UpdatedFacts(loan, Entered(l, schedules, a));
    BooksStart(loan, schedules);
    hide Entered, Record, FindScheduled, PaysDueInterest, AddMonths, Updated, PayoffInterest, BooksBalance;
    PaymentKeepsBooksIff(loan, l, schedules, a);
    assert [a][..0] == [];
    assert RunPayments(l, schedules, []) == l;
    assert RunPayments(l, schedules, [a]) == Attempted(l, schedules, a);
  }

  /** The books of a new loan balance, without a gap. */
  lemma BooksStart(loan: Loan, schedules: seq<Scheduled>)
    requires JustOriginated(loan)
    ensures BooksBalance(loan, schedules, Ledger(loan, [])) && Gap(Ledger(loan, [])) == 0.0
  {
  }

  /** Once a loan is not active, every further payment is refused and nothing changes. */
  lemma {:induction false} ClosedLoanRefusesAll(l: Ledger, schedules: seq<Scheduled>, attempts: seq<Attempt>)
    requires l.loan.status != Active
    ensures RunPayments(l, schedules, attempts) == l
  {
    if attempts != [] {
      ClosedLoanRefusesAll(l, schedules, attempts[..|attempts| - 1]);
    }
  }

  // ---------------------------------------------------------------------------------------------
  // Acceptance and the stored schedule
  // ---------------------------------------------------------------------------------------------

  datatype Offer = Offer(
    id: int, applicationId: int, lender: string, approvedAmount: real, interestRate: real, termMonths: int, monthlyPayment: real)

  datatype Application = Application(id: int, userId: int)

  /** The account of a loan carries the debt as a negative balance. */
  datatype LoanAccount = LoanAccount(id: int, userId: int, lender: string, balance: real)

  function Originate(id: int, accountId: int, offer: Offer, userId: int, today: Day, next: Date, maturity: Date): (loan: Loan)
    ensures JustOriginated(loan)
  {
    Loan(id, userId, accountId, offer.approvedAmount, offer.approvedAmount, offer.interestRate, offer.termMonths,
         offer.monthlyPayment, next, 0, offer.termMonths, 0.0, 0.0, Active, today, maturity, None)
  }

  /** What a row stores as cumulative. */
  function RowTimes(amount: real, k: nat): real {
    Round2(amount * k as real)
  }

  /** A schedule row: amounts are rounded to cents, and row amount times row number is stored as cumulative. */
  function ScheduleRow(loan: Loan, k: nat, date: Date, principal: real, interest: real, remaining: real): Scheduled {
    Scheduled(loan.id, k, date, loan.monthlyPayment, Round2(principal), Round2(interest), Round2(Max0(remaining)),
              RowTimes(interest, k), RowTimes(principal, k))
  }

  /** Row `k` of the stored schedule, from the balance function. */
  function Entry(loan: Loan, k: nat, date: Date): Scheduled
    requires k > 0
  {
    var p, r, m := loan.originalAmount, A.MonthlyRate(loan.interestRate), loan.monthlyPayment;
    ScheduleRow(loan, k, date, A.PrincipalOf(p, r, m, k), A.InterestOf(p, r, m, k), A.Balance(p, r, m, k))
  }

  ghost predicate StoredAt(loan: Loan, k: nat, row: Scheduled) {
    Steps(loan.nextPaymentDate, k).Success? && row == Entry(loan, k + 1, Steps(loan.nextPaymentDate, k).value)
  }

  ghost predicate IsStoredSchedule(loan: Loan, rows: seq<Scheduled>) {
    forall k: nat :: k < |rows| ==> StoredAt(loan, k, rows[k])
  }

  /** The first `n` rows of the stored schedule, as far as the calendar goes. */
  function StoredRows(loan: Loan, n: nat): seq<Scheduled> {
    if n == 0 then []
    else
      var before := StoredRows(loan, n - 1);
      match Steps(loan.nextPaymentDate, n - 1)
      case Success(date) => before + [Entry(loan, n, date)]
      case Failure(_) => before
  }

  /** The whole schedule: one row per month of the term. */
  function Schedule(loan: Loan): seq<Scheduled> {
    StoredRows(loan, A.Term(loan.termMonths))
  }

  lemma {:induction false} RowsStop(loan: Loan, i: nat, n: nat)
    requires i <= n && Steps(loan.nextPaymentDate, i).Failure?
    ensures StoredRows(loan, n) == StoredRows(loan, i)
  {
    if i < n {
      RowsStop(loan, i, n - 1);
      A.StepsStayFailed(loan.nextPaymentDate, i, n - 1);
    }
  }

  lemma EntryExtends(loan: Loan, rows: seq<Scheduled>, date: Date)
    requires IsStoredSchedule(loan, rows) && Steps(loan.nextPaymentDate, |rows|) == Success(date)
    ensures IsStoredSchedule(loan, rows + [Entry(loan, |rows| + 1, date)])
  {
    hide Entry, Steps;
    assert StoredAt(loan, |rows|, Entry(loan, |rows| + 1, date));
    hide StoredAt;
  }

  /** Row k is the balance function's row k; rows are missing only where the calendar ends. */
  lemma {:induction false} StoredRowsAre(loan: Loan, n: nat)
    ensures |StoredRows(loan, n)| <= n && IsStoredSchedule(loan, StoredRows(loan, n))
    ensures |StoredRows(loan, n)| < n ==> Steps(loan.nextPaymentDate, |StoredRows(loan, n)|).Failure?
  {
    if n > 0 {
      hide Entry, Steps, IsStoredSchedule;
      StoredRowsAre(loan, n - 1);
      var before := StoredRows(loan, n - 1);
      if |before| < n - 1 {
        A.StepsStayFailed(loan.nextPaymentDate, |before|, n - 1);
      }
      if Steps(loan.nextPaymentDate, n - 1).Success? {
        EntryExtends(loan, before, Steps(loan.nextPaymentDate, n - 1).value);
      }
    }
  }

  lemma StoredDatesIncrease(loan: Loan, i: nat, j: nat)
    requires ValidDate(loan.nextPaymentDate) && i < j < |Schedule(loan)|
    ensures Before(Schedule(loan)[i].date, Schedule(loan)[j].date)
  {
    StoredRowsAre(loan, A.Term(loan.termMonths));
    assert StoredAt(loan, i, Schedule(loan)[i]) && StoredAt(loan, j, Schedule(loan)[j]);
    hide Entry, StoredRows;
    StepsIncrease(loan.nextPaymentDate, i, j);
  }

  lemma OwnKeys(loan: Loan)
    ensures forall j: nat :: j < |Schedule(loan)| ==> RowKey(Schedule(loan)[j]) == (loan.id, j + 1)
  {
    StoredRowsAre(loan, A.Term(loan.termMonths));
    hide StoredRows, Steps, A.Balance, A.InterestOf, A.PrincipalOf, A.MonthlyRate;
  }

  /** Among rows of the loan alone, payment number `k` finds row `k`. */
  lemma OwnRowFound(loan: Loan, k: nat)
    ensures FindScheduled(Schedule(loan), loan.id, k) ==
            if 1 <= k <= |Schedule(loan)| then Some(Schedule(loan)[k - 1]) else None
  {
    OwnKeys(loan);
    hide Schedule, FirstWith, RowKey;
    if 1 <= k <= |Schedule(loan)| {
      FoundAt(Schedule(loan), RowKey, (loan.id, k), k - 1);
    } else {
      FoundNowhere(Schedule(loan), RowKey, (loan.id, k));
    }
  }

  // ---------------------------------------------------------------------------------------------
  // Many loans: any interleaving of acceptances and payments
  // ---------------------------------------------------------------------------------------------

  function LoanId(loan: Loan): int {
    loan.id
  }

  function OfferId(offer: Offer): int {
    offer.id
  }

  function ApplicationId(app: Application): int {
    app.id
  }

  datatype Bank = Bank(loans: seq<Loan>, payments: seq<Payment>, schedules: seq<Scheduled>)

  /** A call of `accept_offer` that has found its offer, or one of `make_payment`. */
  datatype Call =
    | Accepting(offer: Offer, userId: int, accountId: int, today: Day)
    | Paying(q: Request, userId: int, today: Day)

  /** The loan that an acceptance creates, if its dates are in the calendar. */
  function NewLoan(id: int, c: Call): (loan: Option<Loan>)
    requires c.Accepting?
    ensures loan.Some? ==> JustOriginated(loan.value) && loan.value.id == id
  {
    var next, maturity := AddMonths(c.today, 1), AddMonths(c.today, c.offer.termMonths);
    if next.Failure? || maturity.Failure? then None
    else Some(Originate(id, c.accountId, c.offer, c.userId, c.today, next.value, maturity.value))
  }

  /** A loan on the terms of its offer: what is owed and charged, by whom, on which account, from when to when. */
  ghost predicate OnTerms(loan: Loan, offer: Offer, userId: int, accountId: int, today: Day) {
    && loan.originalAmount == offer.approvedAmount && loan.interestRate == offer.interestRate
    && loan.termMonths == offer.termMonths && loan.monthlyPayment == offer.monthlyPayment
    && loan.userId == userId && loan.accountId == accountId
    && loan.originatedDate == today
    && ValidDate(loan.maturityDate) && Index(loan.maturityDate) - Index(today) == offer.termMonths
    && loan.maturityDate.day == Min(today.day, LengthAt(Index(loan.maturityDate)))
  }

  /** Nothing paid, all of it owed in as many payments as the term has months, the first in a month's time. */
  ghost predicate Untouched(loan: Loan, today: Day) {
    && loan.status == Active && loan.currentBalance == loan.originalAmount
    && loan.paymentsMade == 0 && loan.paymentsRemaining == loan.termMonths
    && loan.totalPaid == 0.0 && loan.totalInterestPaid == 0.0 && loan.lastPaymentDate == None
    && ValidDate(loan.nextPaymentDate) && Index(loan.nextPaymentDate) - Index(today) == 1
    && loan.nextPaymentDate.day == Min(today.day, LengthAt(Index(loan.nextPaymentDate)))
  }

  lemma NewLoanOnTerms(id: int, c: Call)
    requires c.Accepting? && NewLoan(id, c).Some?
    ensures OnTerms(NewLoan(id, c).value, c.offer, c.userId, c.accountId, c.today) && Untouched(NewLoan(id, c).value, c.today)
  {
    MonthsFrom(c.today, 1);
    MonthsFrom(c.today, c.offer.termMonths);
    hide AddMonths, LengthAt, Index, ValidDate, Min;
  }

  lemma MonthsFrom(today: Day, months: int)
    ensures AddMonths(today, months).Success? ==>
              var d := AddMonths(today, months).value;
              ValidDate(d) && Index(d) - Index(today) == months && d.day == Min(today.day, LengthAt(Index(d)))
  {
    AddMonthsLands(today, months);
    hide AddMonths, LengthAt, Index;
  }

  /** The bank after an acceptance, and after a payment on loan `i`. */
  function WithLoan(b: Bank, loan: Loan): Bank {
    Bank(b.loans + [loan], b.payments, b.schedules + Schedule(loan))
  }

  function WithPayment(b: Bank, i: nat, a: Attempt): Bank
    requires i < |b.loans|
  {
    var l := Attempted(Ledger(b.loans[i], []), b.schedules, a);
    b.(loans := b.loans[i := l.loan], payments := b.payments + l.payments)
  }

  function Called(b: Bank, c: Call): Bank {
    match c
    case Accepting(_, _, _, _) =>
      var loan := NewLoan(|b.loans| + 1, c);
      if loan.Some? then WithLoan(b, loan.value) else b
    case Paying(q, userId, today) =>
      var i := FirstWith(b.loans, LoanId, q.loanId);
      if i == |b.loans| || b.loans[i].userId != userId then b else WithPayment(b, i, Attempt(q, today))
  }

  /** The bank after calls on one that may already hold loans. */
  function RunCalls(start: Bank, calls: seq<Call>): Bank {
    if calls == [] then start else Called(RunCalls(start, calls[..|calls| - 1]), calls[|calls| - 1])
  }

  function Grown(origins: seq<Loan>, c: Call): seq<Loan> {
    var loan := if c.Accepting? then NewLoan(|origins| + 1, c) else None;
    if loan.Some? then origins + [loan.value] else origins
  }

  /** The loans as they were at the start or when they were accepted. */
  function Accepted(start: Bank, calls: seq<Call>): (origins: seq<Loan>)
    ensures |start.loans| <= |origins| && origins[..|start.loans|] == start.loans
    ensures forall i: nat :: |start.loans| <= i < |origins| ==> JustOriginated(origins[i]) && origins[i].id == i + 1
  {
    if calls == [] then start.loans else Grown(Accepted(start, calls[..|calls| - 1]), calls[|calls| - 1])
  }

  /** Whether the call is a payment on loan `id` by its owner. */
  predicate Concerns(origins: seq<Loan>, c: Call, id: nat) {
    c.Paying? && c.q.loanId == id && 1 <= id <= |origins| && origins[id - 1].userId == c.userId
  }

  function Tried(origins: seq<Loan>, attempts: seq<Attempt>, c: Call, id: nat): seq<Attempt> {
    if Concerns(origins, c, id) then attempts + [Attempt(c.q, c.today)] else attempts
  }

  /** The payments tried on loan `id` by its owner since the start or since it was accepted. */
  function AttemptsOn(start: Bank, calls: seq<Call>, id: nat): seq<Attempt> {
    if calls == [] then []
    else
      var before := calls[..|calls| - 1];
      Tried(Accepted(start, before), AttemptsOn(start, before, id), calls[|calls| - 1], id)
  }

  function PaymentsOf(payments: seq<Payment>, id: int): seq<Payment> {
    if payments == [] then []
    else
      var n := |payments| - 1;
      PaymentsOf(payments[..n], id) + if payments[n].loanId == id then [payments[n]] else []
  }

  /** What the bank holds of loan `id`. */
  function LedgerOf(b: Bank, id: nat): Ledger
    requires 1 <= id <= |b.loans|
  {
    Ledger(b.loans[id - 1], PaymentsOf(b.payments, id))
  }

  /** Loan number i has id i + 1 and its owner, and no record names a loan that does not exist. */
  ghost predicate Numbered(b: Bank, origins: seq<Loan>) {
    && |b.loans| == |origins|
    && (forall i: nat :: i < |origins| ==> b.loans[i].id == origins[i].id == i + 1 && b.loans[i].userId == origins[i].userId)
    && (forall s <- b.schedules :: 1 <= s.loanId <= |origins|)
    && (forall p <- b.payments :: 1 <= p.loanId <= |origins|)
  }

  /** What a loan starts from: a ledger and the rows it finds its payments in. */
  datatype Origin = Origin(first: Ledger, rows: seq<Scheduled>)

  /** A loan of the start has its ledger there and its rows in the table; an accepted one is new and has its own schedule. */
  function OriginOf(start: Bank, origins: seq<Loan>, id: nat): Origin
    requires 1 <= id <= |origins|
  {
    if id <= |start.loans| then Origin(LedgerOf(start, id), start.schedules)
    else Origin(Ledger(origins[id - 1], []), Schedule(origins[id - 1]))
  }

  /** A loan finds the same rows in the shared table as in its own. */
  ghost predicate OwnRows(b: Bank, id: nat, rows: seq<Scheduled>) {
    forall k: nat :: FindScheduled(b.schedules, id, k) == FindScheduled(rows, id, k)
  }

  lemma LoopAmounts(p: real, r: real, m: real, k: nat, interest: real, principal: real, remaining: real)
    requires k > 0
    requires interest == A.Accrued(A.Balance(p, r, m, k - 1), r) && principal == m - interest
    requires remaining == A.Balance(p, r, m, k - 1) - principal
    ensures interest == A.InterestOf(p, r, m, k) && principal == A.PrincipalOf(p, r, m, k) && remaining == A.Balance(p, r, m, k)
  {
  }

  lemma AttemptedFacts(l: Ledger, schedules: seq<Scheduled>, a: Attempt)
    ensures var after, alone := Attempted(l, schedules, a), Attempted(Ledger(l.loan, []), schedules, a);
      && after.loan == alone.loan && after.payments == l.payments + alone.payments
      && alone.loan.id == l.loan.id && alone.loan.userId == l.loan.userId
      && |alone.payments| <= 1 && forall p <- alone.payments :: p.loanId == l.loan.id
  {
    hide AddMonths, FindScheduled, Split, Max0;
    if l.loan.status == Active {
      var p := Entered(l, schedules, a);
      assert [] + [p] == [p];
    }
  }

  lemma SameRowsSameStep(l: Ledger, s1: seq<Scheduled>, s2: seq<Scheduled>, a: Attempt)
    requires FindScheduled(s1, l.loan.id, l.loan.paymentsMade + 1) == FindScheduled(s2, l.loan.id, l.loan.paymentsMade + 1)
    ensures Attempted(l, s1, a) == Attempted(l, s2, a)
  {
    hide FindScheduled, Record, Updated;
  }

  lemma PaymentsAppend(ps: seq<Payment>, more: seq<Payment>, id: int)
    requires |more| <= 1
    ensures PaymentsOf(ps + more, id) == PaymentsOf(ps, id) + if more != [] && more[0].loanId == id then more else []
  {
    if more == [] {
      assert ps + more == ps;
    } else {
      assert (ps + more)[..|ps|] == ps && more == [more[0]];
    }
  }

  lemma {:induction false} NoPaymentsOf(ps: seq<Payment>, id: int)
    requires forall p <- ps :: p.loanId != id
    ensures PaymentsOf(ps, id) == []
  {
    if ps != [] {
      assert ps[|ps| - 1] in ps;
      NoPaymentsOf(ps[..|ps| - 1], id);
    }
  }

  lemma AcceptKeepsNumbered(b: Bank, origins: seq<Loan>, loan: Loan)
    requires Numbered(b, origins) && loan.id == |origins| + 1
    ensures Numbered(WithLoan(b, loan), origins + [loan])
  {
    OwnKeys(loan);
    hide Schedule;
    assert forall s <- Schedule(loan) :: s.loanId == loan.id by {
      forall s <- Schedule(loan)
        ensures s.loanId == loan.id
      {
        var j :| 0 <= j < |Schedule(loan)| && Schedule(loan)[j] == s;
        assert RowKey(Schedule(loan)[j]) == (loan.id, j + 1);
      }
    }
  }

  lemma PaymentKeepsNumbered(b: Bank, origins: seq<Loan>, i: nat, a: Attempt)
    requires Numbered(b, origins) && i < |b.loans|
    ensures Numbered(WithPayment(b, i, a), origins)
  {
    AttemptedFacts(Ledger(b.loans[i], []), b.schedules, a);
    hide Attempted;
  }

  /** Rows of a new loan leave what every other loan finds. */
  lemma AcceptKeepsOwnRows(b: Bank, origins: seq<Loan>, loan: Loan, id: nat, rows: seq<Scheduled>)
    requires Numbered(b, origins) && loan.id == |origins| + 1
    requires if id == loan.id then rows == Schedule(loan) else OwnRows(b, id, rows)
    ensures OwnRows(WithLoan(b, loan), id, rows)
  {
    OwnKeys(loan);
    hide Schedule, FirstWith;
    forall k: nat
      ensures FindScheduled(WithLoan(b, loan).schedules, id, k) == FindScheduled(rows, id, k)
    {
      var key := (id as int, k);
      FirstInConcat(b.schedules, Schedule(loan), RowKey, key);
      if id == loan.id {
        FoundNowhere(b.schedules, RowKey, key);
      } else {
        assert FindScheduled(b.schedules, id, k) == FindScheduled(rows, id, k);
        FoundNowhere(Schedule(loan), RowKey, key);
      }
    }
  }

  /** The bank holds for loan `id` exactly the ledger of its own attempts under its own rows. */
  ghost predicate Apart(b: Bank, id: nat, o: Origin, attempts: seq<Attempt>) {
    && 1 <= id <= |b.loans| && b.loans[id - 1].id == id && OwnRows(b, id, o.rows)
    && LedgerOf(b, id) == RunPayments(o.first, o.rows, attempts)
  }

  lemma AcceptKeepsApart(b: Bank, origins: seq<Loan>, loan: Loan, id: nat, o: Origin, attempts: seq<Attempt>)
    requires Numbered(b, origins) && loan.id == |origins| + 1 && 1 <= id <= |origins| && Apart(b, id, o, attempts)
    ensures Apart(WithLoan(b, loan), id, o, attempts)
  {
    AcceptKeepsOwnRows(b, origins, loan, id, o.rows);
    hide OwnRows, RunPayments, Schedule;
  }

  lemma NewLoanIsApart(b: Bank, origins: seq<Loan>, loan: Loan)
    requires Numbered(b, origins) && loan.id == |origins| + 1
    ensures Apart(WithLoan(b, loan), loan.id, Origin(Ledger(loan, []), Schedule(loan)), [])
  {
    AcceptKeepsOwnRows(b, origins, loan, loan.id, Schedule(loan));
    NoPaymentsOf(b.payments, loan.id);
    hide OwnRows, Schedule;
  }

  lemma OtherPaymentKeepsApart(b: Bank, i: nat, a: Attempt, id: nat, o: Origin, attempts: seq<Attempt>)
    requires i < |b.loans| && b.loans[i].id == i + 1 != id && Apart(b, id, o, attempts)
    ensures Apart(WithPayment(b, i, a), id, o, attempts)
  {
    var l := Ledger(b.loans[i], []);
    AttemptedFacts(l, b.schedules, a);
    PaymentsAppend(b.payments, Attempted(l, b.schedules, a).payments, id);
    hide Attempted, RunPayments, FindScheduled;
  }

  lemma OwnPaymentKeepsApart(b: Bank, a: Attempt, id: nat, o: Origin, attempts: seq<Attempt>)
    requires Apart(b, id, o, attempts)
    ensures Apart(WithPayment(b, id - 1, a), id, o, attempts + [a])
  {
    hide *;
    ApartIs(b, id, o, attempts);
    PaidLedger(b, a, id, o.rows);
    SameRowsSameStep(LedgerOf(b, id), b.schedules, o.rows, a);
    RunExtends(o.first, o.rows, attempts, a);
    ApartFrom(WithPayment(b, id - 1, a), id, o, attempts + [a]);
  }

  lemma ApartIs(b: Bank, id: nat, o: Origin, attempts: seq<Attempt>)
    requires Apart(b, id, o, attempts)
    ensures 1 <= id <= |b.loans| && b.loans[id - 1].id == id && OwnRows(b, id, o.rows)
    ensures var l := LedgerOf(b, id);
      && l == RunPayments(o.first, o.rows, attempts)
      && FindScheduled(b.schedules, l.loan.id, l.loan.paymentsMade + 1) == FindScheduled(o.rows, l.loan.id, l.loan.paymentsMade + 1)
  {
    hide FindScheduled, RunPayments;
  }

  lemma ApartFrom(b: Bank, id: nat, o: Origin, attempts: seq<Attempt>)
    requires 1 <= id <= |b.loans| && b.loans[id - 1].id == id && OwnRows(b, id, o.rows)
    requires LedgerOf(b, id) == RunPayments(o.first, o.rows, attempts)
    ensures Apart(b, id, o, attempts)
  {
  }

  lemma PaidLedger(b: Bank, a: Attempt, id: nat, rows: seq<Scheduled>)
    requires 1 <= id <= |b.loans| && b.loans[id - 1].id == id && OwnRows(b, id, rows)
    ensures var after := WithPayment(b, id - 1, a);
      && |after.loans| == |b.loans| && after.loans[id - 1].id == id && OwnRows(after, id, rows)
      && LedgerOf(after, id) == Attempted(LedgerOf(b, id), b.schedules, a)
  {
    hide Attempted, FindScheduled;
    var l := LedgerOf(b, id);
    AttemptedFacts(l, b.schedules, a);
    PaymentsAppend(b.payments, Attempted(Ledger(l.loan, []), b.schedules, a).payments, id);
  }

  lemma RunExtends(l: Ledger, schedules: seq<Scheduled>, attempts: seq<Attempt>, a: Attempt)
    ensures RunPayments(l, schedules, attempts + [a]) == Attempted(RunPayments(l, schedules, attempts), schedules, a)
  {
    hide Attempted;
    assert (attempts + [a])[..|attempts|] == attempts;
  }

  lemma FindNumbered(b: Bank, origins: seq<Loan>, id: int)
    requires Numbered(b, origins)
    ensures FirstWith(b.loans, LoanId, id) == if 1 <= id <= |b.loans| then id - 1 else |b.loans|
  {
    if 1 <= id <= |b.loans| {
      FoundAt(b.loans, LoanId, id, id - 1);
    } else {
      FoundNowhere(b.loans, LoanId, id);
    }
  }

  lemma {:induction false} NoAttemptsYet(start: Bank, calls: seq<Call>, id: nat)
    requires id == 0 || id > |Accepted(start, calls)|
    ensures AttemptsOn(start, calls, id) == []
  {
    hide NewLoan;
    if calls != [] {
      NoAttemptsYet(start, calls[..|calls| - 1], id);
    }
  }

  lemma AcceptanceKeepsApart(start: Bank, b: Bank, origins: seq<Loan>, c: Call, id: nat, attempts: seq<Attempt>)
    requires Numbered(b, origins) && c.Accepting? && |start.loans| <= |origins|
    requires if 1 <= id <= |origins| then Apart(b, id, OriginOf(start, origins, id), attempts) else attempts == []
    ensures Numbered(Called(b, c), Grown(origins, c))
    ensures 1 <= id <= |Grown(origins, c)| ==> Apart(Called(b, c), id, OriginOf(start, Grown(origins, c), id), attempts)
  {
    SameCount(b, origins);
    var loan := NewLoan(|b.loans| + 1, c);
    hide Numbered, Apart, NewLoan, WithLoan, OriginOf, Schedule;
    if loan.Some? {
      AcceptKeepsNumbered(b, origins, loan.value);
      OriginsGrow(start, origins, loan.value, id);
      if 1 <= id <= |origins| {
        AcceptKeepsApart(b, origins, loan.value, id, OriginOf(start, origins, id), attempts);
      } else if id == |origins| + 1 {
        NewLoanIsApart(b, origins, loan.value);
      }
    }
  }

  lemma OriginsGrow(start: Bank, origins: seq<Loan>, loan: Loan, id: nat)
    requires |start.loans| <= |origins| && loan.id == |origins| + 1
    ensures 1 <= id <= |origins| ==> OriginOf(start, origins + [loan], id) == OriginOf(start, origins, id)
    ensures OriginOf(start, origins + [loan], loan.id) == Origin(Ledger(loan, []), Schedule(loan))
  {
    hide LedgerOf, Schedule;
  }

  /** A payment is for the loan of that number, if it exists and is the user's. */
  lemma PaymentOnNumbered(b: Bank, origins: seq<Loan>, c: Call)
    requires Numbered(b, origins) && c.Paying?
    ensures |b.loans| == |origins|
    ensures var id := c.q.loanId;
      Called(b, c) == if 1 <= id <= |b.loans| && origins[id - 1].userId == c.userId
                      then WithPayment(b, id - 1, Attempt(c.q, c.today)) else b
    ensures forall i: nat :: i < |b.loans| ==> b.loans[i].id == i + 1
  {
    hide WithPayment, FirstWith;
    FindNumbered(b, origins, c.q.loanId);
  }

  lemma PayingKeepsApart(b: Bank, origins: seq<Loan>, c: Call, id: nat, o: Origin, attempts: seq<Attempt>)
    requires Numbered(b, origins) && c.Paying? && 1 <= id <= |origins| && Apart(b, id, o, attempts)
    ensures Apart(Called(b, c), id, o, Tried(origins, attempts, c, id))
  {
    hide Numbered, Apart, WithPayment, Called;
    PaymentOnNumbered(b, origins, c);
    var paid, a := c.q.loanId, Attempt(c.q, c.today);
    if 1 <= paid <= |b.loans| && origins[paid - 1].userId == c.userId {
      if id == paid {
        OwnPaymentKeepsApart(b, a, id, o, attempts);
      } else {
        OtherPaymentKeepsApart(b, paid - 1, a, id, o, attempts);
      }
    }
  }

  lemma PayingKeepsNumbered(b: Bank, origins: seq<Loan>, c: Call)
    requires Numbered(b, origins) && c.Paying?
    ensures Numbered(Called(b, c), Grown(origins, c))
  {
    hide Numbered, WithPayment, Called;
    PaymentOnNumbered(b, origins, c);
    var paid := c.q.loanId;
    if 1 <= paid <= |b.loans| && origins[paid - 1].userId == c.userId {
      PaymentKeepsNumbered(b, origins, paid - 1, Attempt(c.q, c.today));
    }
  }

  lemma LastCall(start: Bank, calls: seq<Call>, id: nat)
    requires calls != []
    ensures var before, last := calls[..|calls| - 1], calls[|calls| - 1];
      && RunCalls(start, calls) == Called(RunCalls(start, before), last)
      && Accepted(start, calls) == Grown(Accepted(start, before), last)
      && AttemptsOn(start, calls, id) == Tried(Accepted(start, before), AttemptsOn(start, before, id), last, id)
      && (last.Accepting? ==> AttemptsOn(start, calls, id) == AttemptsOn(start, before, id))
      && (last.Paying? ==> Accepted(start, calls) == Accepted(start, before))
      && |start.loans| <= |Accepted(start, before)|
  {
    hide Called, NewLoan;
  }

  /** A bank that may already hold loans: they are numbered from 1, and no record names another. */
  ghost predicate WellNumbered(start: Bank) {
    Numbered(start, start.loans)
  }

  /**
   * From any such bank on: every loan keeps its number, an accepted loan gets a fresh one, and the
   * ledger of each loan is that of its own attempts, apart from all others.
   */
  lemma {:induction false} LoansAreApart(start: Bank, calls: seq<Call>, id: nat)
    requires WellNumbered(start)
    ensures Numbered(RunCalls(start, calls), Accepted(start, calls))
    ensures 1 <= id <= |Accepted(start, calls)| ==>
              Apart(RunCalls(start, calls), id, OriginOf(start, Accepted(start, calls), id), AttemptsOn(start, calls, id))
  {
    if calls == [] {
      StartIsApart(start, id);
    } else {
      hide *;
      LastCall(start, calls, id);
      var before, last := calls[..|calls| - 1], calls[|calls| - 1];
      LoansAreApart(start, before, id);
      var b, origins := RunCalls(start, before), Accepted(start, before);
      if last.Accepting? {
        if !(1 <= id <= |origins|) {
          NoAttemptsYet(start, before, id);
        }
        AcceptanceKeepsApart(start, b, origins, last, id, AttemptsOn(start, before, id));
      } else {
        PayingKeepsNumbered(b, origins, last);
        if 1 <= id <= |origins| {
          PayingKeepsApart(b, origins, last, id, OriginOf(start, origins, id), AttemptsOn(start, before, id));
        }
      }
    }
  }

  lemma StartIsApart(start: Bank, id: nat)
    requires WellNumbered(start)
    ensures Numbered(RunCalls(start, []), Accepted(start, []))
    ensures 1 <= id <= |Accepted(start, [])| ==>
              Apart(RunCalls(start, []), id, OriginOf(start, Accepted(start, []), id), AttemptsOn(start, [], id))
  {
    hide FindScheduled, LedgerOf;
  }

  lemma SameCount(b: Bank, origins: seq<Loan>)
    requires Numbered(b, origins)
    ensures |b.loans| == |origins|
  {
  }

  /**
   * However acceptances and payments on all loans interleave, the books of every loan balance: those
   * of an accepted loan, and those of a loan that was there if they balanced at the start.
   */
  lemma EveryLoanBalances(start: Bank, calls: seq<Call>, id: nat, loan: Loan)
    requires WellNumbered(start) && 1 <= id <= |Accepted(start, calls)|
    requires var o := OriginOf(start, Accepted(start, calls), id);
      && (if id <= |start.loans| then BooksBalance(loan, o.rows, o.first) else loan == Accepted(start, calls)[id - 1])
      && AllComplete(o.first, o.rows, AttemptsOn(start, calls, id))
    ensures |RunCalls(start, calls).loans| == |Accepted(start, calls)|
    ensures BooksBalance(loan, OriginOf(start, Accepted(start, calls), id).rows, LedgerOf(RunCalls(start, calls), id))
  {
    LoansAreApart(start, calls, id);
    var o := OriginOf(start, Accepted(start, calls), id);
    hide RunCalls, Accepted, AttemptsOn, AllComplete, Schedule, BooksBalance, OwnRows, LedgerOf, RunPayments;
    if id > |start.loans| {
      BooksStart(loan, o.rows);
    }
    EveryRunBalances(loan, o.first, o.rows, AttemptsOn(start, calls, id));
  }

  /** What payments never change. */
  ghost predicate SameTerms(a: Loan, b: Loan) {
    && a.id == b.id && a.userId == b.userId && a.accountId == b.accountId
    && a.originalAmount == b.originalAmount && a.interestRate == b.interestRate
    && a.termMonths == b.termMonths && a.monthlyPayment == b.monthlyPayment
    && a.originatedDate == b.originatedDate && a.maturityDate == b.maturityDate
  }

  lemma {:induction false} PaymentsKeepTerms(l: Ledger, schedules: seq<Scheduled>, attempts: seq<Attempt>)
    ensures SameTerms(RunPayments(l, schedules, attempts).loan, l.loan)
  {
    hide Record, FindScheduled, AddMonths;
    if attempts != [] {
      PaymentsKeepTerms(l, schedules, attempts[..|attempts| - 1]);
    }
  }

  /** The call that accepted a loan: it made the loan of this number, on the terms of its offer. */
  ghost predicate AcceptedBy(start: Bank, calls: seq<Call>, id: nat, loan: Loan, k: nat) {
    && k < |calls| && calls[k].Accepting? && |Accepted(start, calls[..k])| == id - 1
    && OnTerms(loan, calls[k].offer, calls[k].userId, calls[k].accountId, calls[k].today)
  }

  lemma {:induction false} AcceptedOnTerms(start: Bank, calls: seq<Call>, id: nat) returns (k: nat)
    requires |start.loans| < id <= |Accepted(start, calls)|
    ensures AcceptedBy(start, calls, id, Accepted(start, calls)[id - 1], k)
    ensures Untouched(Accepted(start, calls)[id - 1], calls[k].today)
  {
    hide NewLoan, OnTerms, Untouched;
    var n := |calls| - 1;
    var before, last := Accepted(start, calls[..n]), calls[n];
    if id <= |before| {
      k := AcceptedOnTerms(start, calls[..n], id);
      assert calls[..n][..k] == calls[..k];
    } else {
      k := n;
      NewLoanOnTerms(|before| + 1, last);
    }
  }

  /** After any run, an accepted loan has the terms of the offer it was accepted on, and its owner and account. */
  lemma LoansKeepTheirTerms(start: Bank, calls: seq<Call>, id: nat) returns (k: nat)
    requires WellNumbered(start) && |start.loans| < id <= |Accepted(start, calls)|
    ensures |RunCalls(start, calls).loans| == |Accepted(start, calls)|
    ensures AcceptedBy(start, calls, id, RunCalls(start, calls).loans[id - 1], k)
    ensures RunCalls(start, calls).loans[id - 1].id == id
  {
    k := AcceptedOnTerms(start, calls, id);
    LoansAreApart(start, calls, id);
    var o := OriginOf(start, Accepted(start, calls), id);
    PaymentsKeepTerms(o.first, o.rows, AttemptsOn(start, calls, id));
    hide RunCalls, Accepted, AttemptsOn, Schedule, OwnRows, PaymentsOf, RunPayments, Untouched;
  }

  /** Payment number `k` of an accepted loan finds row `k` of its schedule in the shared table, and none
      beyond it; one of a loan that was there finds what it would have found then. */
  lemma PaymentFindsItsRow(start: Bank, calls: seq<Call>, id: nat, k: nat)
    requires WellNumbered(start) && 1 <= id <= |Accepted(start, calls)|
    ensures var rows := Schedule(Accepted(start, calls)[id - 1]);
      FindScheduled(RunCalls(start, calls).schedules, id, k) ==
        if id <= |start.loans| then FindScheduled(start.schedules, id, k)
        else if 1 <= k <= |rows| then Some(rows[k - 1]) else None
  {
    LoansAreApart(start, calls, id);
    OwnRowFound(Accepted(start, calls)[id - 1], k);
    hide RunCalls, Accepted, AttemptsOn, Schedule, LedgerOf, RunPayments, FindScheduled;
  }

  /** So a regular payment on an accepted loan pays the interest of the balance function's row of the
      same number, rounded, and none beyond the schedule. */
  lemma RegularPaymentPaysInterestOnBalance(start: Bank, calls: seq<Call>, id: nat, i: nat)
    requires WellNumbered(start) && |start.loans| < id <= |Accepted(start, calls)| == |RunCalls(start, calls).loans|
    requires var loan := Accepted(start, calls)[id - 1];
      AllComplete(Ledger(loan, []), Schedule(loan), AttemptsOn(start, calls, id))
    requires i < |LedgerOf(RunCalls(start, calls), id).payments|
    ensures var loan, p := Accepted(start, calls)[id - 1], LedgerOf(RunCalls(start, calls), id).payments[i];
      && p.number == i + 1
      && (p.kind != "payoff" && p.kind != "extra_principal" ==>
           p.interest == if p.number <= |Schedule(loan)|
             then Round2(A.InterestOf(loan.originalAmount, A.MonthlyRate(loan.interestRate), loan.monthlyPayment, p.number))
             else 0.0)
  {
    var loan := Accepted(start, calls)[id - 1];
    assert OriginOf(start, Accepted(start, calls), id) == Origin(Ledger(loan, []), Schedule(loan));
    hide *;
    EveryLoanBalances(start, calls, id, loan);
    RecordPaysItsRow(loan, LedgerOf(RunCalls(start, calls), id), i);
  }

  lemma RecordPaysItsRow(loan: Loan, l: Ledger, i: nat)
    requires BooksBalance(loan, Schedule(loan), l) && i < |l.payments|
    ensures var p := l.payments[i];
      && p.number == i + 1
      && (p.kind != "payoff" && p.kind != "extra_principal" ==>
           p.interest == if p.number <= |Schedule(loan)|
             then Round2(A.InterestOf(loan.originalAmount, A.MonthlyRate(loan.interestRate), loan.monthlyPayment, p.number))
             else 0.0)
  {
    var p := l.payments[i];
    assert p.number == i + 1 && PaysDueInterest(Schedule(loan), loan.id, p);
    hide BooksBalance, Schedule, FindScheduled, Round2, A.InterestOf, A.PrincipalOf, A.Balance, A.MonthlyRate, Max0;
    OwnRowFound(loan, p.number);
    if p.number <= |Schedule(loan)| {
      RowInterest(loan, p.number);
    }
  }

  lemma RowInterest(loan: Loan, k: nat)
    requires 1 <= k <= |Schedule(loan)|
    ensures Schedule(loan)[k - 1].interest ==
            Round2(A.InterestOf(loan.originalAmount, A.MonthlyRate(loan.interestRate), loan.monthlyPayment, k))
  {
    StoredRowsAre(loan, A.Term(loan.termMonths));
    assert StoredAt(loan, k - 1, Schedule(loan)[k - 1]);
    hide StoredRows, Round2, A.InterestOf, A.PrincipalOf, A.Balance, A.MonthlyRate, Max0;
  }

  /**
   * A stored row in terms of the annual percentage: rounding aside, it charges a twelfth of it on what
   * the rows before leave, and takes the rest of the payment off that.
   */
  lemma StoredRowChargesAnnualRate(loan: Loan, k: nat, interest: real)
    requires k < |Schedule(loan)| && 1200.0 * interest == ScheduledBalance(loan, k) * loan.interestRate
    ensures ScheduledBalance(loan, 0) == loan.originalAmount
    ensures ScheduledBalance(loan, k + 1) == ScheduledBalance(loan, k) - (loan.monthlyPayment - interest)
    ensures var row := Schedule(loan)[k];
      && row.loanId == loan.id && row.number == k + 1 && row.amount == loan.monthlyPayment
      && row.interest == Round2(interest) && row.principal == Round2(loan.monthlyPayment - interest)
      && row.remaining == Round2(Max0(ScheduledBalance(loan, k + 1)))
      && row.cumulativeInterest == RowTimes(interest, k + 1)
      && row.cumulativePrincipal == RowTimes(loan.monthlyPayment - interest, k + 1)
  {
    hide *;
    ScheduledRow(loan, 0);
    ScheduledInterestIs(loan, k, interest);
    StoredRowIs(loan, k);
    ScheduledRow(loan, k + 1);
    RowFields(loan, k + 1, Schedule(loan)[k].date, loan.monthlyPayment - interest, interest, ScheduledBalance(loan, k + 1));
  }

  /**
   * A stored cumulative column is within half a cent of the row's amount times its number, and so of
   * the running total in row 1, at rate 0 and for a payment that only covers the interest.
   */
  lemma StoredCumulativeColumns(loan: Loan, k: nat)
    requires k < |Schedule(loan)|
    ensures var p, r, m, row := loan.originalAmount, A.MonthlyRate(loan.interestRate), loan.monthlyPayment, Schedule(loan)[k];
      && NearMultiple(row.cumulativeInterest, A.InterestOf(p, r, m, k + 1), k + 1)
      && NearMultiple(row.cumulativePrincipal, A.PrincipalOf(p, r, m, k + 1), k + 1)
      && (r > -1.0 && (k == 0 || r == 0.0 || m == p * r) ==>
            && NearMultiple(row.cumulativeInterest, A.TotalInterest(p, r, m, k + 1), 1)
            && NearMultiple(row.cumulativePrincipal, A.TotalPrincipal(p, r, m, k + 1), 1))
  {
    hide *;
    var p, r, m, row := loan.originalAmount, A.MonthlyRate(loan.interestRate), loan.monthlyPayment, Schedule(loan)[k];
    CumulativeOfRow(loan, k);
    RowTimesNear(A.InterestOf(p, r, m, k + 1), k + 1);
    RowTimesNear(A.PrincipalOf(p, r, m, k + 1), k + 1);
    if r > -1.0 && (k == 0 || r == 0.0 || m == p * r) {
      MultiplesAreTotals(p, r, m, k + 1, row.cumulativeInterest, row.cumulativePrincipal);
    }
  }

  /** Within half a cent of `k` times the amount. */
  ghost predicate NearMultiple(x: real, amount: real, k: nat) {
    -0.005 <= x - amount * k as real <= 0.005
  }

  lemma CumulativeOfRow(loan: Loan, k: nat)
    requires k < |Schedule(loan)|
    ensures var p, r, m := loan.originalAmount, A.MonthlyRate(loan.interestRate), loan.monthlyPayment;
      && Schedule(loan)[k].cumulativeInterest == RowTimes(A.InterestOf(p, r, m, k + 1), k + 1)
      && Schedule(loan)[k].cumulativePrincipal == RowTimes(A.PrincipalOf(p, r, m, k + 1), k + 1)
  {
    StoredRowIs(loan, k);
    hide Schedule, RowTimes, A.InterestOf, A.Balance, A.MonthlyRate, Round2;
  }

  lemma RowTimesNear(amount: real, k: nat)
    ensures NearMultiple(RowTimes(amount, k), amount, k)
  {
    Round2Faithful(amount * k as real, amount * k as real);
    hide Round2;
  }

  lemma MultiplesAreTotals(p: real, r: real, m: real, k: nat, interest: real, principal: real)
    requires k > 0 && r > -1.0 && (k == 1 || r == 0.0 || m == p * r)
    requires NearMultiple(interest, A.InterestOf(p, r, m, k), k) && NearMultiple(principal, A.PrincipalOf(p, r, m, k), k)
    ensures NearMultiple(interest, A.TotalInterest(p, r, m, k), 1) && NearMultiple(principal, A.TotalPrincipal(p, r, m, k), 1)
  {
    A.CumulativeColumnsExactIff(p, r, m, k);
    hide A.InterestOf, A.PrincipalOf, A.TotalInterest, A.TotalPrincipal;
  }

  lemma StoredRowIs(loan: Loan, k: nat)
    requires k < |Schedule(loan)|
    ensures Schedule(loan)[k] == ScheduleRow(loan, k + 1, Schedule(loan)[k].date, loan.monthlyPayment - ScheduledInterest(loan, k + 1),
                                             ScheduledInterest(loan, k + 1), ScheduledBalance(loan, k + 1))
  {
    StoredRowsAre(loan, A.Term(loan.termMonths));
    assert StoredAt(loan, k, Schedule(loan)[k]);
    hide StoredRows, Round2, A.MonthlyRate, A.Balance, A.InterestOf, Max0, Steps;
  }

  lemma ScheduledInterestIs(loan: Loan, k: nat, interest: real)
    requires 1200.0 * interest == ScheduledBalance(loan, k) * loan.interestRate
    ensures interest == ScheduledInterest(loan, k + 1)
  {
    A.InterestAtAnnualRate(ScheduledBalance(loan, k), loan.interestRate);
    hide A.MonthlyRate, A.Balance;
  }

  lemma RowFields(loan: Loan, k: nat, date: Date, principal: real, interest: real, remaining: real)
    ensures var row := ScheduleRow(loan, k, date, principal, interest, remaining);
      && row.loanId == loan.id && row.number == k && row.amount == loan.monthlyPayment
      && row.interest == Round2(interest) && row.principal == Round2(principal) && row.remaining == Round2(Max0(remaining))
      && row.cumulativeInterest == RowTimes(interest, k) && row.cumulativePrincipal == RowTimes(principal, k)
  {
  }

  /** Whatever its kind, the principal of a record is what its row asks for and the extra, unless it falls short. */
  lemma ExtraIsBeyondRow(now: Loan, q: Request, row: Option<Scheduled>, on: Day)
    ensures var p, due := Record(now, q, row, on), if row.Some? then row.value.principal else 0.0;
      && p.extraPrincipal >= 0.0
      && (p.principal >= due ==> p.principal == due + p.extraPrincipal)
      && (p.principal < due ==> p.extraPrincipal == 0.0)
  {
    hide PayoffInterest;
  }

  /** The extra principal that a regular payment records is, to the cent, what exceeds the monthly payment. */
  lemma ExtraPrincipalIsExcess(loan: Loan, now: Loan, q: Request, k: nat, on: Day, interest: real)
    requires k < |Schedule(loan)| && q.kind != "payoff" && q.kind != "extra_principal"
    requires 1200.0 * interest == ScheduledBalance(loan, k) * loan.interestRate
    ensures var p := Record(now, q, Some(Schedule(loan)[k]), on);
      -0.01 <= p.extraPrincipal - Max0(q.amount - loan.monthlyPayment) <= 0.01
  {
    StoredRowChargesAnnualRate(loan, k, interest);
    Round2Faithful(interest, interest);
    Round2Faithful(loan.monthlyPayment - interest, loan.monthlyPayment - interest);
    hide Schedule, ScheduledBalance, Round2, PayoffInterest;
  }

  // ---------------------------------------------------------------------------------------------
  // The ledger follows the balance function
  // ---------------------------------------------------------------------------------------------

  /** The first `n` payments are regular ones of the monthly amount. */
  ghost predicate RegularPayments(loan: Loan, ps: seq<Payment>, n: nat) {
    && n <= |ps|
    && forall i: nat :: i < n ==> ps[i].kind != "payoff" && ps[i].kind != "extra_principal" && ps[i].amount == loan.monthlyPayment
  }

  function ScheduledBalance(loan: Loan, n: nat): real {
    A.Balance(loan.originalAmount, A.MonthlyRate(loan.interestRate), loan.monthlyPayment, n)
  }

  function ScheduledInterest(loan: Loan, n: nat): real
    requires n > 0
  {
    A.InterestOf(loan.originalAmount, A.MonthlyRate(loan.interestRate), loan.monthlyPayment, n)
  }

  lemma ScheduledRow(loan: Loan, n: nat)
    ensures ScheduledBalance(loan, 0) == loan.originalAmount
    ensures n > 0 ==> ScheduledBalance(loan, n) == ScheduledBalance(loan, n - 1) - (loan.monthlyPayment - ScheduledInterest(loan, n))
  {
  }

  lemma OwedRow(loan: Loan, ps: seq<Payment>, n: nat)
    requires n <= |ps|
    ensures Owed(loan, ps, 0) == loan.originalAmount
    ensures n > 0 ==> Owed(loan, ps, n) == Owed(loan, ps, n - 1) - ps[n - 1].principal
  {
    assert n > 0 ==> ps[..n][..n - 1] == ps[..n - 1];
  }

  /** A regular record pays its amount less the rounded interest of its row. */
  lemma RegularRecord(loan: Loan, l: Ledger, i: nat)
    requires BooksBalance(loan, Schedule(loan), l) && i < |l.payments| && i < |Schedule(loan)|
    requires l.payments[i].kind != "payoff" && l.payments[i].kind != "extra_principal"
    ensures l.payments[i].principal == l.payments[i].amount - Round2(ScheduledInterest(loan, i + 1))
  {
    RecordPaysItsRow(loan, l, i);
    assert Splits(l.payments[i]);
    hide BooksBalance, Schedule, A.InterestOf, A.MonthlyRate, Round2;
  }

  /**
   * After `n` regular payments what is owed differs from the balance function by at most half a cent
   * per payment: only the interest of each row is rounded.
   */
  lemma {:induction false} LedgerFollowsBalance(loan: Loan, l: Ledger, n: nat)
    requires BooksBalance(loan, Schedule(loan), l) && n <= |Schedule(loan)| && RegularPayments(loan, l.payments, n)
    ensures -0.005 * n as real <= Owed(loan, l.payments, n) - ScheduledBalance(loan, n) <= 0.005 * n as real
  {
    hide BooksBalance, Schedule, Owed, ScheduledBalance, ScheduledInterest, Round2;
    ScheduledRow(loan, n);
    OwedRow(loan, l.payments, n);
    if n > 0 {
      LedgerFollowsBalance(loan, l, n - 1);
      RegularRecord(loan, l, n - 1);
      Round2Faithful(ScheduledInterest(loan, n), ScheduledInterest(loan, n));
    }
  }

  /** So the current balance of an active loan with `n` regular payments is within 0.005 * n of it. */
  lemma CurrentBalanceFollows(loan: Loan, l: Ledger)
    requires BooksBalance(loan, Schedule(loan), l) && l.loan.status == Active
    requires |l.payments| <= |Schedule(loan)| && RegularPayments(loan, l.payments, |l.payments|)
    ensures var n := |l.payments|;
      -0.005 * n as real <= l.loan.currentBalance - ScheduledBalance(loan, n) <= 0.005 * n as real
  {
    LedgerFollowsBalance(loan, l, |l.payments|);
    hide Schedule, Owed, ScheduledBalance, RecordsOk, CountersOk;
  }

  /**
   * At the term, with a monthly payment off the formula's by `d`, what is still owed is at most half a
   * cent per payment away from the future value of n payments of -d.
   */
  lemma OwedAtTerm(loan: Loan, l: Ledger, n: nat, exact: real, d: real)
    requires BooksBalance(loan, Schedule(loan), l) && n == |Schedule(loan)| && RegularPayments(loan, l.payments, n)
    requires A.MonthlyPayment(loan.originalAmount, loan.interestRate, n) == Success(exact) && loan.monthlyPayment == exact + d
    ensures var left := -d * A.Geometric(1.0 + A.MonthlyRate(loan.interestRate), n);
      left - 0.005 * n as real <= Owed(loan, l.payments, n) <= left + 0.005 * n as real
  {
    hide BooksBalance, Schedule, Owed, A.Geometric, A.Balance, A.MonthlyPayment, A.MonthlyRate, A.Matches, RegularPayments;
    LedgerFollowsBalance(loan, l, n);
    A.PaymentEquation(loan.originalAmount, loan.interestRate, n);
    A.BalanceOffBy(loan.originalAmount, A.MonthlyRate(loan.interestRate), exact, n, d);
  }

  // ---------------------------------------------------------------------------------------------
  // The loan manager
  // ---------------------------------------------------------------------------------------------

  lemma CalledPaying(b: Bank, q: Request, userId: int, today: Day)
    ensures var i, after := FirstWith(b.loans, LoanId, q.loanId), Called(b, Paying(q, userId, today));
      if i == |b.loans| || b.loans[i].userId != userId || b.loans[i].status != Active then after == b
      else
        var p := Entered(Ledger(b.loans[i], []), b.schedules, Attempt(q, today));
        after == Bank(b.loans[i := Updated(b.loans[i], p)], b.payments + [p], b.schedules)
  {
    hide Entered, Updated, FirstWith;
    var i := FirstWith(b.loans, LoanId, q.loanId);
    if i < |b.loans| && b.loans[i].userId == userId {
      assert b.payments + [] == b.payments;
      assert b.loans[i := b.loans[i]] == b.loans;
      var p := Entered(Ledger(b.loans[i], []), b.schedules, Attempt(q, today));
      assert [] + [p] == [p];
    }
  }

  class LoanManager {
    var offers: seq<Offer>
    var applications: seq<Application>
    var accounts: seq<LoanAccount>
    var loans: seq<Loan>
    var payments: seq<Payment>
    var schedules: seq<Scheduled>

    function View(): Bank
      reads this
    {
      Bank(loans, payments, schedules)
    }

    /** The stores may already hold loans. */
    constructor (offers: seq<Offer>, applications: seq<Application>, accounts: seq<LoanAccount>, stored: Bank)
      ensures this.offers == offers && this.applications == applications && this.accounts == accounts && View() == stored
    {
      this.offers, this.applications, this.accounts := offers, applications, accounts;
      loans, payments, schedules := stored.loans, stored.payments, stored.schedules;
    }

    /** Process a loan payment: the first loan with that id, if it is the user's and active. */
    method MakePayment(q: Request, userId: int, today: Day) returns (r: Result<Payment, LoanError>)
      modifies this`loans, this`payments
      ensures View() == Called(old(View()), Paying(q, userId, today))
      ensures var i := FirstWith(old(loans), LoanId, q.loanId);
        if i == |old(loans)| || old(loans)[i].userId != userId then r == Failure(NotFound)
        else if old(loans)[i].status != Active then r == Failure(NotActive)
        else if AddMonths(DateOf(Attempt(q, today)), 1).Failure? then r == Failure(BadDate)
        else r == Success(Entered(Ledger(old(loans)[i], []), schedules, Attempt(q, today)))
    {
      CalledPaying(View(), q, userId, today);
      hide PayoffInterest, FindScheduled, AddMonths, ValidDate, Max0, FirstWith, Called;
      var i := FirstWith(loans, LoanId, q.loanId);
      if i == |loans| || loans[i].userId != userId {
        return Failure(NotFound);
      }
      var loan := loans[i];
      if loan.status != Active {
        return Failure(NotActive);
      }
      var on := if q.date.Some? then q.date.value else today;
      var number := loan.paymentsMade + 1;
      var scheduled := FindScheduled(schedules, loan.id, number);
      var principal, interest := Allocate(loan, q, scheduled, on);
      var p := Payment(loan.id, number, q.amount, principal, interest,
                       Max0(principal - if scheduled.Some? then scheduled.value.principal else 0.0),
                       q.kind, on, loan.currentBalance - principal);
      ghost var attempt, before := Attempt(q, today), loan;
      assert p == Record(loan, q, scheduled, on);
      EnteredIs(Ledger(loan, []), schedules, attempt);
      hide Split, Record, Entered;
      payments := payments + [p];
      loan := loan.(currentBalance := p.remaining, paymentsMade := loan.paymentsMade + 1,
                    paymentsRemaining := if loan.paymentsRemaining - 1 > 0 then loan.paymentsRemaining - 1 else 0);
      loan := loan.(totalPaid := loan.totalPaid + q.amount, totalInterestPaid := loan.totalInterestPaid + interest);
      loan := loan.(lastPaymentDate := Some(on));
      loans := loans[i := loan];
      var next := AddMonths(on, 1);
      if next.Failure? {
        assert loan == Updated(before, p);
        return Failure(BadDate);
      }
      loan := loan.(nextPaymentDate := next.value);
      if loan.currentBalance <= 0.0 {
        loan := loan.(status := PaidOff, currentBalance := 0.0);
      }
      assert loan == Updated(before, p);
      loans := loans[i := loan];
      return Success(p);
    }

    static method Allocate(loan: Loan, q: Request, scheduled: Option<Scheduled>, on: Day) returns (principal: real, interest: real)
      ensures (principal, interest) == Split(loan, q, scheduled, on)
    {
      interest := if scheduled.Some? then scheduled.value.interest else 0.0;
      if q.kind == "payoff" {
        principal := loan.currentBalance;
        interest := PayoffInterest(loan, on);
      } else {
        principal := q.amount - interest;
        if q.kind == "extra_principal" {
          principal := q.amount;
          interest := 0.0;
        }
      }
    }

    /** Append one row per month of the term; a date outside the calendar stops it. */
    method GeneratePaymentSchedule(loan: Loan) returns (ok: bool)
      modifies this`schedules
      ensures ok <==> Steps(loan.nextPaymentDate, A.Term(loan.termMonths)).Success?
      ensures schedules == old(schedules) + Schedule(loan)
    {
      hide AddMonths, ScheduleRow, A.Balance, A.Accrued, A.MonthlyRate, A.InterestOf, A.PrincipalOf;
      ghost var p, m := loan.originalAmount, loan.monthlyPayment;
      var monthlyRate := A.MonthlyRate(loan.interestRate);
      var remainingBalance, paymentDate := loan.originalAmount, loan.nextPaymentDate;
      A.BalanceStart(p, monthlyRate, m);
      var i := 1;
      while i <= loan.termMonths
        invariant 1 <= i <= A.Term(loan.termMonths) + 1
        invariant schedules == old(schedules) + StoredRows(loan, i - 1)
        invariant remainingBalance == A.Balance(p, monthlyRate, m, i - 1)
        invariant Steps(loan.nextPaymentDate, i - 1) == Success(paymentDate)
      {
        var interest := A.Accrued(remainingBalance, monthlyRate);
        var principal := loan.monthlyPayment - interest;
        remainingBalance := remainingBalance - principal;
        LoopAmounts(p, monthlyRate, m, i, interest, principal, remainingBalance);
        schedules := schedules + [ScheduleRow(loan, i, paymentDate, principal, interest, remainingBalance)];
        assert StoredRows(loan, i) == StoredRows(loan, i - 1) + [Entry(loan, i, paymentDate)];
        var next := AddMonths(paymentDate, 1);
        if next.Failure? {
          A.StepsStayFailed(loan.nextPaymentDate, i, loan.termMonths);
          RowsStop(loan, i, loan.termMonths);
          return false;
        }
        paymentDate := next.value;
        i := i + 1;
      }
      return true;
    }

    /** Turn an offer into an active loan with its account and a stored schedule. */
    method AcceptOffer(offerId: int, userId: int, today: Day) returns (r: Result<Loan, LoanError>)
      modifies this`accounts, this`loans, this`schedules
      ensures var i := FirstWith(offers, OfferId, offerId);
        if i == |offers| then r == Failure(NotFound) && accounts == old(accounts) && View() == old(View())
        else
          var j := FirstWith(applications, ApplicationId, offers[i].applicationId);
          if j == |applications| then r == Failure(NoApplication) && accounts == old(accounts) && View() == old(View())
          else if applications[j].userId != userId then
            r == Failure(Unauthorized) && accounts == old(accounts) && View() == old(View())
          else
            var id := |old(accounts)| + 1;
            var c := Accepting(offers[i], userId, id, today);
            var loan := NewLoan(|old(loans)| + 1, c);
            && accounts == old(accounts) + [LoanAccount(id, userId, offers[i].lender, -offers[i].approvedAmount)]
            && View() == Called(old(View()), c)
            && (loan.Some? ==>
                  && loans == old(loans) + [loan.value] && Untouched(loan.value, today)
                  && OnTerms(loan.value, offers[i], userId, accounts[|accounts| - 1].id, today)
                  && loan.value.currentBalance == -accounts[|accounts| - 1].balance)
            && r == if loan.Some? && Steps(loan.value.nextPaymentDate, A.Term(loan.value.termMonths)).Success?
                    then Success(loan.value) else Failure(BadDate)
    {
      hide AddMonths, Schedule, Steps, FirstWith;
      var i := FirstWith(offers, OfferId, offerId);
      if i == |offers| {
        return Failure(NotFound);
      }
      var offer := offers[i];
      var j := FirstWith(applications, ApplicationId, offer.applicationId);
      if j == |applications| {
        return Failure(NoApplication);
      }
      if applications[j].userId != userId {
        return Failure(Unauthorized);
      }
      var account := LoanAccount(|accounts| + 1, userId, offer.lender, -offer.approvedAmount);
      accounts := accounts + [account];
      var next, maturity := AddMonths(today, 1), AddMonths(today, offer.termMonths);
      if next.Failure? || maturity.Failure? {
        return Failure(BadDate);
      }
      var loan := Originate(|loans| + 1, account.id, offer, userId, today, next.value, maturity.value);
      loans := loans + [loan];
      NewLoanOnTerms(loan.id, Accepting(offer, userId, account.id, today));
      hide OnTerms, Untouched;
      var ok := GeneratePaymentSchedule(loan);
      return if ok then Success(loan) else Failure(BadDate);
    }
  }
}
