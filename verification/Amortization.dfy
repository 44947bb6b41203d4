/** The annuity formula and the two schedule loops of the loan manager. */
module Amortization {
  import opened Prelude
  import opened Calendar
  import opened RealArithmetic

  /** 1 + q + ... + q^(n-1), the future value of `n` unit payments at growth factor q. */
  function Geometric(q: real, n: nat): real {
    if n == 0 then 0.0 else q * Geometric(q, n - 1) + 1.0
  }

  /** The unclamped balance after `i` rows: interest accrues at rate `r`, then `paid` is paid. */
  function Balance(p: real, r: real, paid: real, i: nat): real {
    if i == 0 then p
    else
      var b := Balance(p, r, paid, i - 1);
      b - (paid - b * r)
  }

  // ---------------------------------------------------------------------------------------------
  // Closed form
  // ---------------------------------------------------------------------------------------------

  lemma {:induction false} GeometricPositive(q: real, n: nat)
    requires q > 0.0
    ensures n > 0 ==> Geometric(q, n) >= 1.0
    ensures Geometric(q, n) >= 0.0
  {
    if n > 0 {
      GeometricPositive(q, n - 1);
      assert q * Geometric(q, n - 1) >= 0.0;
    }
  }

  lemma {:induction false} GeometricClosedForm(r: real, n: nat)
    ensures r * Geometric(1.0 + r, n) == Pow(1.0 + r, n) - 1.0
    ensures r == 0.0 ==> Geometric(1.0 + r, n) == n as real
  {
    if n > 0 {
      GeometricClosedForm(r, n - 1);
      var g := Geometric(1.0 + r, n - 1);
      assert r * ((1.0 + r) * g + 1.0) == (1.0 + r) * (r * g) + r;
    }
  }

  /** The balance in terms of growth factors: the debt grown, less the payments grown. */
  lemma {:induction false} BalanceClosedForm(p: real, r: real, paid: real, i: nat)
    ensures Balance(p, r, paid, i) == p * Pow(1.0 + r, i) - paid * Geometric(1.0 + r, i)
  {
    if i > 0 {
      BalanceClosedForm(p, r, paid, i - 1);
      var q := 1.0 + r;
      var x, g := Pow(q, i - 1), Geometric(q, i - 1);
      var b := p * x - paid * g;
      assert b - (paid - b * r) == q * b - paid;
      assert q * (p * x) == p * (q * x);
      assert q * (paid * g) == paid * (q * g);
      assert paid * (q * g + 1.0) == paid * (q * g) + paid;
      assert q * b == q * (p * x) - q * (paid * g);
    }
  }

  datatype MoneyError = ZeroDivision | BadDate

  function MonthlyRate(annualRate: real): real {
    annualRate / 100.0 / 12.0
  }

  function Annuity(principal: real, r: real, grown: real): real
    requires grown - 1.0 != 0.0
  {
    principal * (r * grown) / (grown - 1.0)
  }

  /** `b ** k`; 0 to a negative power divides by zero. */
  function PowInt(b: real, k: int): Option<real> {
    if k >= 0 then Some(Pow(b, k))
    else if Pow(b, -k) == 0.0 then None
    else Some(1.0 / Pow(b, -k))
  }

  /** `_calculate_monthly_payment`; where this fails the Python expression divides by zero. */
  function MonthlyPayment(principal: real, annualRate: real, term: int): Result<real, MoneyError> {
    if annualRate == 0.0 then
      if term == 0 then Failure(ZeroDivision) else Success(principal / term as real)
    else
      var r := MonthlyRate(annualRate);
      match PowInt(1.0 + r, term)
      case None => Failure(ZeroDivision)
      case Some(grown) => if grown - 1.0 == 0.0 then Failure(ZeroDivision) else Success(Annuity(principal, r, grown))
  }

  /** The payment whose future value is that of the debt. */
  ghost predicate Matches(p: real, r: real, m: real, n: nat) {
    m * Geometric(1.0 + r, n) == p * Pow(1.0 + r, n)
  }

  /** Where the formula fails: an empty term, and two rates that no lender offers. */
  predicate NoPayment(r: real, term: int) {
    term == 0 || (r == -2.0 && term % 2 == 0) || (r == -1.0 && term < 0)
  }

  lemma PaymentFailsIff(p: real, annualRate: real, term: int)
    ensures MonthlyPayment(p, annualRate, term).Failure? <==> NoPayment(MonthlyRate(annualRate), term)
  {
    var r := MonthlyRate(annualRate);
    assert r == 0.0 <==> annualRate == 0.0;
    hide Pow, MonthlyRate, Annuity;
    var n: nat := if term < 0 then -term else term;
    PowIsOneIff(1.0 + r, n);
    PowIsZeroIff(1.0 + r, n);
    assert term < 0 && Pow(1.0 + r, n) != 0.0 ==> (1.0 / Pow(1.0 + r, n) == 1.0 <==> Pow(1.0 + r, n) == 1.0);
  }

  /** Whenever the formula yields a payment, that payment grown over the term matches the debt grown over the term. */
  lemma PaymentEquation(p: real, annualRate: real, n: nat)
    ensures MonthlyPayment(p, annualRate, n).Failure? <==> NoPayment(MonthlyRate(annualRate), n)
    ensures MonthlyPayment(p, annualRate, n).Success? ==>
              n > 0 && Matches(p, MonthlyRate(annualRate), MonthlyPayment(p, annualRate, n).value, n)
  {
    PaymentFailsIff(p, annualRate, n);
    var r := MonthlyRate(annualRate);
    var x, g := Pow(1.0 + r, n), Geometric(1.0 + r, n);
    GeometricClosedForm(r, n);
    assert r == 0.0 <==> annualRate == 0.0;
    hide Pow, Geometric, MonthlyRate, Annuity;
    if MonthlyPayment(p, annualRate, n).Success? {
      if annualRate == 0.0 {
        PowOfOne(n);
      } else {
        AnnuityPays(p, r, x, g);
      }
    }
  }

  lemma AnnuityPays(p: real, r: real, x: real, g: real)
    requires r != 0.0 && r * g == x - 1.0 && x - 1.0 != 0.0
    ensures Annuity(p, r, x) * g == p * x
  {
    var m := Annuity(p, r, x);
    assert m * (x - 1.0) == p * (r * x);
    assert m * (r * g) == p * x * r;
    CancelRate(m, r, g, p * x);
  }

  lemma CancelRate(m: real, r: real, g: real, target: real)
    requires r != 0.0 && m * (r * g) == target * r
    ensures m * g == target
  {
    assert (m * g - target) * r == 0.0;
  }

  // ---------------------------------------------------------------------------------------------
  // The formula agrees with the loop
  // ---------------------------------------------------------------------------------------------

  function InterestOf(p: real, r: real, paid: real, row: nat): real
    requires row > 0
  {
    Balance(p, r, paid, row - 1) * r
  }

  function PrincipalOf(p: real, r: real, paid: real, row: nat): real
    requires row > 0
  {
    paid - InterestOf(p, r, paid, row)
  }

  /** The interest and the principal of rows 1..n, added up row by row. */
  function TotalInterest(p: real, r: real, paid: real, n: nat): real {
    if n == 0 then 0.0 else TotalInterest(p, r, paid, n - 1) + InterestOf(p, r, paid, n)
  }

  function TotalPrincipal(p: real, r: real, paid: real, n: nat): real {
    if n == 0 then 0.0 else TotalPrincipal(p, r, paid, n - 1) + PrincipalOf(p, r, paid, n)
  }

  lemma {:induction false} TotalsMatchBalance(p: real, r: real, paid: real, n: nat)
    ensures TotalPrincipal(p, r, paid, n) == p - Balance(p, r, paid, n)
    ensures TotalPrincipal(p, r, paid, n) + TotalInterest(p, r, paid, n) == n as real * paid
  {
    if n > 0 {
      TotalsMatchBalance(p, r, paid, n - 1);
      assert n as real * paid == (n - 1) as real * paid + paid;
    }
  }

  lemma {:induction false} BalancesCompose(p: real, r: real, paid: real, i: nat, j: nat)
    ensures Balance(Balance(p, r, paid, i), r, paid, j) == Balance(p, r, paid, i + j)
  {
    if j > 0 {
      BalancesCompose(p, r, paid, i, j - 1);
    }
  }

  lemma SignOfFactor(b: real, x: real, m: real, g: real)
    requires b * x == m * g && x > 0.0 && g > 0.0
    ensures b > 0.0 <==> m > 0.0
  {
    if m > 0.0 {
      MulPositive(m, g);
      assert b <= 0.0 ==> -b * x >= 0.0;
    }
    if b > 0.0 {
      MulPositive(b, x);
      assert m <= 0.0 ==> -m * g >= 0.0;
    }
  }

  lemma MatchingPaymentLeavesZero(p: real, r: real, m: real, n: nat)
    requires Matches(p, r, m, n)
    ensures Balance(p, r, m, n) == 0.0
  {
    BalanceClosedForm(p, r, m, n);
  }

  lemma BalanceBeforeZeroIsPositive(b: real, r: real, m: real, n: nat)
    requires Balance(b, r, m, n) == 0.0 && r > -1.0 && n > 0
    ensures b > 0.0 <==> m > 0.0
  {
    BalanceClosedForm(b, r, m, n);
    PowPositive(1.0 + r, n);
    GeometricPositive(1.0 + r, n);
    hide *;
    SignOfFactor(b, Pow(1.0 + r, n), m, Geometric(1.0 + r, n));
  }

  /**
   * With the payment of the formula the loop's balance is exactly zero at the term, and the
   * principal parts add up to the loan; at rates above -100% a month it is positive before the term.
   */
  lemma AnnuityPaysOffExactlyAtTerm(p: real, annualRate: real, n: nat)
    requires MonthlyPayment(p, annualRate, n).Success?
    ensures var r, m := MonthlyRate(annualRate), MonthlyPayment(p, annualRate, n).value;
      && Balance(p, r, m, n) == 0.0 && TotalPrincipal(p, r, m, n) == p
      && (p > 0.0 && r > -1.0 ==> m > 0.0 && forall i: nat :: i < n ==> Balance(p, r, m, i) > 0.0)
  {
    PaymentEquation(p, annualRate, n);
    hide MonthlyRate, MonthlyPayment, Balance, TotalPrincipal, Matches;
    var r := MonthlyRate(annualRate);
    var m := MonthlyPayment(p, annualRate, n).value;
    MatchingPaymentLeavesZero(p, r, m, n);
    TotalsMatchBalance(p, r, m, n);
    if p > 0.0 && r > -1.0 {
      PositiveBeforeTerm(p, r, m, n);
    }
  }

  lemma PositiveBeforeTerm(p: real, r: real, m: real, n: nat)
    requires p > 0.0 && r > -1.0 && n > 0 && Balance(p, r, m, n) == 0.0
    ensures m > 0.0 && forall i: nat :: i < n ==> Balance(p, r, m, i) > 0.0
  {
    hide Balance;
    BalanceBeforeZeroIsPositive(p, r, m, n);
    forall i: nat | i < n
      ensures Balance(p, r, m, i) > 0.0
    {
      BalancesCompose(p, r, m, i, n - i);
      BalanceBeforeZeroIsPositive(Balance(p, r, m, i), r, m, n - i);
    }
  }

  lemma BalanceOffBy(p: real, r: real, m: real, n: nat, d: real)
    requires Matches(p, r, m, n)
    ensures Balance(p, r, m + d, n) == -d * Geometric(1.0 + r, n)
  {
    BalanceClosedForm(p, r, m + d, n);
    hide Balance, Geometric, Pow;
    var g := Geometric(1.0 + r, n);
    assert (m + d) * g == m * g + d * g;
  }

  /** A payment off by `d` misses zero at the term by the future value of `n` payments of `d`. */
  lemma WrongPaymentMissesZero(p: real, annualRate: real, n: nat, d: real)
    requires MonthlyPayment(p, annualRate, n).Success?
    ensures var r := MonthlyRate(annualRate);
      && var b := Balance(p, r, MonthlyPayment(p, annualRate, n).value + d, n);
      && (r != 0.0 ==> b == -d * ((Pow(1.0 + r, n) - 1.0) / r))
      && (r == 0.0 ==> b == -d * n as real)
  {
    PaymentEquation(p, annualRate, n);
    hide MonthlyRate, MonthlyPayment, Geometric, Pow, Balance, Matches;
    var r := MonthlyRate(annualRate);
    BalanceOffBy(p, r, MonthlyPayment(p, annualRate, n).value, n, d);
    GeometricQuotient(r, n);
  }

  lemma GeometricQuotient(r: real, n: nat)
    ensures r != 0.0 ==> Geometric(1.0 + r, n) == (Pow(1.0 + r, n) - 1.0) / r
    ensures r == 0.0 ==> Geometric(1.0 + r, n) == n as real
  {
    GeometricClosedForm(r, n);
  }

  // ---------------------------------------------------------------------------------------------
  // Extra payments
  // ---------------------------------------------------------------------------------------------

  /** An extra `e` in every row lowers the balance by exactly the future value of the extras. */
  lemma ExtraLowersBalance(p: real, r: real, m: real, e: real, i: nat)
    ensures Balance(p, r, m + e, i) == Balance(p, r, m, i) - e * Geometric(1.0 + r, i)
  {
    BalanceClosedForm(p, r, m + e, i);
    BalanceClosedForm(p, r, m, i);
    hide *;
    var g := Geometric(1.0 + r, i);
    assert (m + e) * g == m * g + e * g;
  }

  /** The number of rows: the loop ends after the first row that leaves no balance, or at the term. */
  function RowCount(p: real, r: real, paid: real, term: nat, i: nat): (n: nat)
    requires i <= term
    ensures i <= n <= term
    decreases term - i
  {
    if i == term || (i > 0 && Balance(p, r, paid, i) <= 0.0) then i else RowCount(p, r, paid, term, i + 1)
  }

  /** It is the first row with nothing left, if there is one before the term. */
  lemma {:induction false} RowCountIsFirstPaidOff(p: real, r: real, paid: real, term: nat, i: nat)
    requires i <= term
    ensures var n := RowCount(p, r, paid, term, i);
      && (forall k: nat :: i <= k < n ==> k == 0 || Balance(p, r, paid, k) > 0.0)
      && (n < term ==> n > 0 && Balance(p, r, paid, n) <= 0.0)
    decreases term - i
  {
    if i < term && (i == 0 || Balance(p, r, paid, i) > 0.0) {
      RowCountIsFirstPaidOff(p, r, paid, term, i + 1);
    }
  }

  lemma {:induction false} SmallerBalancesCostLess(p: real, r: real, m: real, e: real, k: nat, n: nat)
    requires r >= 0.0 && k <= n
    requires forall i: nat :: i < n ==> Balance(p, r, m + e, i) <= Balance(p, r, m, i) && Balance(p, r, m, i) >= 0.0
    ensures TotalInterest(p, r, m + e, k) <= TotalInterest(p, r, m, n)
  {
    if n > 0 {
      var b := Balance(p, r, m, n - 1);
      var b' := Balance(p, r, m + e, n - 1);
      assert b * r >= 0.0;
      assert (b - b') * r >= 0.0;
      SmallerBalancesCostLess(p, r, m, e, if k < n then k else k - 1, n - 1);
    }
  }

  /**
   * A positive extra payment never lengthens the schedule, keeps every balance at or below the
   * plain one, costs no more interest in total (at rates that are not negative), and overshoots the
   * loan by less than one row's payment.
   */
  lemma ExtraPaymentsDominate(p: real, annualRate: real, n: nat, e: real)
    requires p > 0.0 && n > 0 && MonthlyRate(annualRate) > -1.0 && e > 0.0
    ensures var r := MonthlyRate(annualRate);
      && MonthlyPayment(p, annualRate, n).Success?
      && var m := MonthlyPayment(p, annualRate, n).value;
      && var rows := RowCount(p, r, m + e, n, 0);
      && RowCount(p, r, m, n, 0) == n && 0 < rows <= n
      && (forall i: nat :: 0 < i <= n ==> Balance(p, r, m + e, i) < Balance(p, r, m, i))
      && (r >= 0.0 ==> TotalInterest(p, r, m + e, rows) <= TotalInterest(p, r, m, n))
      && p <= TotalPrincipal(p, r, m + e, rows) < p + m + e
  {
    var r := MonthlyRate(annualRate);
    PaymentFailsIff(p, annualRate, n);
    AnnuityPaysOffExactlyAtTerm(p, annualRate, n);
    var m := MonthlyPayment(p, annualRate, n).value;
    var rows := RowCount(p, r, m + e, n, 0);
    RowCountIsFirstPaidOff(p, r, m, n, 0);
    RowCountIsFirstPaidOff(p, r, m + e, n, 0);
    forall i: nat | i <= n
      ensures Balance(p, r, m + e, i) <= Balance(p, r, m, i)
      ensures i > 0 ==> Balance(p, r, m + e, i) < Balance(p, r, m, i)
    {
      ExtraLowersBalance(p, r, m, e, i);
      GeometricPositive(1.0 + r, i);
      assert i > 0 ==> e * Geometric(1.0 + r, i) > 0.0;
    }
    if r >= 0.0 {
      SmallerBalancesCostLess(p, r, m, e, rows, n);
    }
    TotalsMatchBalance(p, r, m + e, rows);
    LastRowOvershoots(p, r, m + e, rows);
  }

  /** From a positive balance, one row cannot overshoot by more than what it pays. */
  lemma LastRowOvershoots(p: real, r: real, paid: real, i: nat)
    requires i > 0 && Balance(p, r, paid, i - 1) > 0.0 && r > -1.0
    ensures Balance(p, r, paid, i) > -paid
  {
    var b := Balance(p, r, paid, i - 1);
    MulPositive(b, 1.0 + r);
    assert b * (1.0 + r) == b + b * r;
  }

  // ---------------------------------------------------------------------------------------------
  // The "cumulative" columns of the stored schedule
  // ---------------------------------------------------------------------------------------------

  /** The principal part of row 1. */
  function FirstPrincipal(p: real, r: real, m: real): real {
    m - p * r
  }

  /** Principal parts form a geometric series. */
  lemma {:induction false} PrincipalGrows(p: real, r: real, m: real, row: nat)
    requires row > 0
    ensures PrincipalOf(p, r, m, row) == FirstPrincipal(p, r, m) * Pow(1.0 + r, row - 1)
  {
    if row > 1 {
      PrincipalGrows(p, r, m, row - 1);
      var x := PrincipalOf(p, r, m, row - 1);
      assert PrincipalOf(p, r, m, row) == x + x * r;
      var d := FirstPrincipal(p, r, m);
      assert d * ((1.0 + r) * Pow(1.0 + r, row - 2)) == (1.0 + r) * (d * Pow(1.0 + r, row - 2));
    }
  }

  lemma TotalPrincipalIsGeometric(p: real, r: real, m: real, n: nat)
    ensures TotalPrincipal(p, r, m, n) == FirstPrincipal(p, r, m) * Geometric(1.0 + r, n)
  {
    TotalsMatchBalance(p, r, m, n);
    BalanceClosedForm(p, r, m, n);
    GeometricClosedForm(r, n);
    hide Pow, Geometric, Balance, TotalPrincipal;
    var x, g := Pow(1.0 + r, n), Geometric(1.0 + r, n);
    assert p * x - p == p * (r * g);
    assert (m - p * r) * g == m * g - p * (r * g);
  }

  /** A geometric sum is as many times its last term only in the two flat cases. */
  lemma {:induction false} GeometricVersusLastTerm(q: real, n: nat)
    requires q > 0.0 && n > 0
    ensures q > 1.0 && n > 1 ==> Geometric(q, n) < n as real * Pow(q, n - 1)
    ensures q < 1.0 && n > 1 ==> Geometric(q, n) > n as real * Pow(q, n - 1)
    ensures q == 1.0 || n == 1 ==> Geometric(q, n) == n as real * Pow(q, n - 1)
  {
    if q == 1.0 {
      PowOfOne(n - 1);
      GeometricClosedForm(0.0, n);
    } else if n > 1 {
      GeometricVersusLastTerm(q, n - 1);
      PowPositive(q, n - 1);
      var k, g, x := (n - 1) as real, Geometric(q, n - 1), Pow(q, n - 2);
      assert Geometric(q, n) == q * g + 1.0 && Pow(q, n - 1) == q * x;
      assert n == 2 ==> g == k * x;
      hide Geometric, Pow;
      LastTermStep(q, g, x, k);
      assert n as real == k + 1.0;
    }
  }

  lemma LastTermStep(q: real, g: real, x: real, k: real)
    requires q > 0.0
    ensures g <= k * x && q * x > 1.0 ==> q * g + 1.0 < (k + 1.0) * (q * x)
    ensures g >= k * x && q * x < 1.0 ==> q * g + 1.0 > (k + 1.0) * (q * x)
  {
    ScaledComparison(q, g, k * x);
    var qg, kz, z := q * g, q * (k * x), q * x;
    assert (k + 1.0) * z == kz + z;
    if g <= k * x && z > 1.0 {
      assert qg <= kz;
      assert qg + 1.0 < kz + z;
    }
    if g >= k * x && z < 1.0 {
      assert qg >= kz;
      assert qg + 1.0 > kz + z;
    }
  }

  /**
   * `_generate_payment_schedule` stores row amount times row number as the cumulative amount.
   * Before rounding that is the true running total exactly in row 1, at rate 0, or when the
   * payment only covers the interest.
   */
  lemma CumulativeColumnsExactIff(p: real, r: real, m: real, row: nat)
    requires row > 0 && r > -1.0
    ensures InterestOf(p, r, m, row) * row as real == TotalInterest(p, r, m, row) <==> row == 1 || r == 0.0 || m == p * r
    ensures PrincipalOf(p, r, m, row) * row as real == TotalPrincipal(p, r, m, row) <==> row == 1 || r == 0.0 || m == p * r
  {
    hide *;
    PrincipalGrows(p, r, m, row);
    TotalPrincipalIsGeometric(p, r, m, row);
    TotalsMatchBalance(p, r, m, row);
    GeometricVersusLastTerm(1.0 + r, row);
    RowParts(p, r, m, row);
    ScaledGap(FirstPrincipal(p, r, m), Geometric(1.0 + r, row), row as real, Pow(1.0 + r, row - 1), m,
              PrincipalOf(p, r, m, row), TotalPrincipal(p, r, m, row), InterestOf(p, r, m, row), TotalInterest(p, r, m, row));
  }

  lemma RowParts(p: real, r: real, m: real, row: nat)
    requires row > 0
    ensures InterestOf(p, r, m, row) == m - PrincipalOf(p, r, m, row)
    ensures FirstPrincipal(p, r, m) == 0.0 <==> m == p * r
  {
  }

  lemma ScaledGap(d: real, g: real, k: real, x: real, m: real, part: real, parts: real, interest: real, interests: real)
    requires part == d * x && parts == d * g
    requires interest == m - part && parts + interests == k * m
    ensures part * k == parts <==> d == 0.0 || g == k * x
    ensures interest * k == interests <==> d == 0.0 || g == k * x
  {
    assert part * k == d * (k * x);
    assert (m - part) * k == k * m - d * (k * x);
    assert d * g - d * (k * x) == d * (g - k * x);
    ZeroProduct(d, g - k * x);
  }

  /** The interest of row 2 times 2 is 22, the interest paid by then 23. */
  lemma CumulativeColumnsCanDiffer()
    ensures InterestOf(1200.0, 0.01, 112.0, 2) * 2.0 == 22.0 && TotalInterest(1200.0, 0.01, 112.0, 2) == 23.0
    ensures PrincipalOf(1200.0, 0.01, 112.0, 2) * 2.0 == 202.0 && TotalPrincipal(1200.0, 0.01, 112.0, 2) == 201.0
  {
    assert Balance(1200.0, 0.01, 112.0, 1) == 1100.0;
    assert InterestOf(1200.0, 0.01, 112.0, 1) == 12.0;
    assert TotalInterest(1200.0, 0.01, 112.0, 1) == 12.0;
    assert TotalPrincipal(1200.0, 0.01, 112.0, 1) == 100.0;
  }

  // ---------------------------------------------------------------------------------------------
  // The amortization calculator
  // ---------------------------------------------------------------------------------------------

  datatype Request = Request(
    principal: real, interestRate: real, termMonths: int,
    extraPayment: Option<real>, extraFrequency: Option<string>, startDate: Option<Date>)
  {
    function Rate(): real {
      MonthlyRate(interestRate)
    }

    /** What is added to the principal of every row. */
    function Extra(): real {
      if extraPayment.Some? && extraPayment.value > 0.0
         && (extraFrequency.None? || extraFrequency.value == "" || extraFrequency.value == "monthly")
      then extraPayment.value
      else 0.0
    }

    function Start(today: Date): Date {
      if startDate.Some? then startDate.value else today
    }
  }

  datatype Row = Row(
    number: nat, date: Date, paymentAmount: real, principal: real, interest: real,
    remaining: real, cumulativeInterest: real, cumulativePrincipal: real)

  /** Month steps taken for row `k`: the date is not advanced for the row at the term. */
  function DateSteps(k: nat, term: nat): nat {
    if k < term then k else if term == 0 then 0 else term - 1
  }

  /** What a schedule depends on: `payment` is the formula's, `advertised` what each row shows as paid. */
  datatype Plan = Plan(principal: real, rate: real, payment: real, extra: real, advertised: real, start: Date, term: nat)

  /** The number of rows `range(1, term + 1)` asks for. */
  function Term(term: int): nat {
    if term < 0 then 0 else term
  }

  function PlanOf(q: Request, payment: real, today: Date): Plan {
    Plan(q.principal, q.Rate(), payment, q.Extra(), payment + (if q.extraPayment.Some? then q.extraPayment.value else 0.0),
         q.Start(today), Term(q.termMonths))
  }

  /** The running balance, interest and principal after `k` rows. */
  ghost predicate Totals(l: Plan, k: nat, balance: real, interest: real, principal: real) {
    var paid := l.payment + l.extra;
    && balance == Balance(l.principal, l.rate, paid, k)
    && interest == TotalInterest(l.principal, l.rate, paid, k)
    && principal == TotalPrincipal(l.principal, l.rate, paid, k)
  }

  /** Row `k` in terms of the balance function and the row-by-row totals. */
  ghost predicate IsRow(l: Plan, k: nat, row: Row) {
    var paid := l.payment + l.extra;
    && k > 0 && row.number == k
    && Success(row.date) == Steps(l.start, DateSteps(k, l.term))
    && row.paymentAmount == l.advertised
    && row.interest == InterestOf(l.principal, l.rate, paid, k)
    && row.principal == PrincipalOf(l.principal, l.rate, paid, k)
    && row.remaining == Max0(Balance(l.principal, l.rate, paid, k))
    && row.cumulativeInterest == TotalInterest(l.principal, l.rate, paid, k)
    && row.cumulativePrincipal == TotalPrincipal(l.principal, l.rate, paid, k)
  }

  lemma {:induction false} StepsStayFailed(d: Date, i: nat, j: nat)
    requires i <= j && Steps(d, i).Failure?
    ensures Steps(d, j).Failure?
  {
    if i < j {
      StepsStayFailed(d, i, j - 1);
    }
  }

  lemma BalanceStart(p: real, r: real, paid: real)
    ensures Balance(p, r, paid, 0) == p
  {
  }

  function Accrued(balance: real, rate: real): real {
    balance * rate
  }

  lemma StartTotals(l: Plan)
    ensures Totals(l, 0, l.principal, 0.0, 0.0)
  {
  }

  lemma NextTotals(l: Plan, k: nat, balance: real, interest: real, principal: real, row: Row)
    requires Totals(l, k, balance, interest, principal)
    requires row.number == k + 1 && Success(row.date) == Steps(l.start, DateSteps(k + 1, l.term))
    requires row.paymentAmount == l.advertised
    requires row.interest == Accrued(balance, l.rate) && row.principal == l.payment - row.interest + l.extra
    requires row.remaining == Max0(balance - row.principal)
    requires row.cumulativeInterest == interest + row.interest && row.cumulativePrincipal == principal + row.principal
    ensures Totals(l, k + 1, balance - row.principal, interest + row.interest, principal + row.principal)
    ensures IsRow(l, k + 1, row)
  {
  }

  lemma CountStep(p: real, r: real, paid: real, term: nat, i: nat)
    requires 0 < i <= term && (i == 1 || Balance(p, r, paid, i - 1) > 0.0)
    ensures RowCount(p, r, paid, term, i - 1) == RowCount(p, r, paid, term, i) >= i
    ensures Balance(p, r, paid, i) <= 0.0 || i == term ==> RowCount(p, r, paid, term, i) == i
  {
    hide Balance;
  }

  lemma FirstDate(start: Date, term: nat)
    ensures Steps(start, DateSteps(0, term)) == Success(start)
  {
  }

  lemma DatesStayFailed(start: Date, i: nat, j: nat, term: nat)
    requires i <= j <= term && Steps(start, DateSteps(i, term)).Failure?
    ensures Steps(start, DateSteps(j, term)).Failure?
  {
    StepsStayFailed(start, DateSteps(i, term), DateSteps(j, term));
  }

  lemma DateStep(start: Date, date: Date, i: nat, term: nat)
    requires 0 < i <= term && Steps(start, DateSteps(i - 1, term)) == Success(date)
    ensures Steps(start, DateSteps(i, term)) == if i < term then AddMonths(date, 1) else Success(date)
  {
    hide AddMonths;
  }

  /** The rows of a schedule, or a failure where a row date would leave the calendar. */
  ghost predicate IsSchedule(l: Plan, schedule: Result<seq<Row>, MoneyError>) {
    var count := RowCount(l.principal, l.rate, l.payment + l.extra, l.term, 0);
    if Steps(l.start, DateSteps(count, l.term)).Failure? then schedule == Failure(BadDate)
    else schedule.Success? && |schedule.value| == count && forall k: nat :: k < count ==> IsRow(l, k + 1, schedule.value[k])
  }

  /** Whether an extra payment is paid: a positive one, monthly or without a frequency. */
  predicate PaysExtra(q: Request) {
    q.extraPayment.Some? && q.extraPayment.value > 0.0 && (q.extraFrequency.None? || q.extraFrequency.value in {"", "monthly"})
  }

  /** What a row charges at an annual percentage and leaves, given what was left and the totals before it. */
  predicate RowCharges(annualRate: real, left: real, interest: real, principal: real, row: Row) {
    && 1200.0 * row.interest == left * annualRate
    && row.remaining == Max0(left - row.principal)
    && row.cumulativeInterest == interest + row.interest
    && row.cumulativePrincipal == principal + row.principal
  }

  predicate RowFollowsRow(annualRate: real, before: Row, row: Row) {
    before.remaining > 0.0 && RowCharges(annualRate, before.remaining, before.cumulativeInterest, before.cumulativePrincipal, row)
  }

  /**
   * A schedule read row by row, from the request alone: each row charges a twelfth of the annual
   * percentage on what the row before left, takes its principal off that, and adds to the totals; and
   * something is left before every row.
   */
  ghost predicate ChargesAnnualRate(q: Request, rows: seq<Row>) {
    && (rows != [] ==> RowCharges(q.interestRate, q.principal, 0.0, 0.0, rows[0]))
    && forall j: nat, k: nat :: j + 1 == k < |rows| ==> RowFollowsRow(q.interestRate, rows[j], rows[k])
  }

  /** Rows that pay the loan off by the payment and what is paid extra: in the whole term and exactly if nothing extra is paid. */
  ghost predicate PaysOff(q: Request, payment: real, rows: seq<Row>) {
    var n, paid := |rows|, if PaysExtra(q) then payment + q.extraPayment.value else payment;
    && 0 < n <= q.termMonths
    && payment > 0.0
    && (forall row <- rows :: row.principal + row.interest == paid)
    && rows[n - 1].remaining == 0.0
    && q.principal <= rows[n - 1].cumulativePrincipal < q.principal + paid
    && (!PaysExtra(q) ==> n == q.termMonths && rows[n - 1].cumulativePrincipal == q.principal)
  }

  lemma InterestAtAnnualRate(balance: real, annualRate: real)
    ensures 1200.0 * Accrued(balance, MonthlyRate(annualRate)) == balance * annualRate
  {
    assert 1200.0 * MonthlyRate(annualRate) == annualRate;
    hide MonthlyRate;
    var r := MonthlyRate(annualRate);
    assert 1200.0 * (balance * r) == balance * (1200.0 * r);
  }

  lemma RowFollows(l: Plan, annualRate: real, k: nat, row: Row, left: real, interest: real, principal: real)
    requires l.rate == MonthlyRate(annualRate)
    requires k > 0 && IsRow(l, k, row) && Totals(l, k - 1, left, interest, principal)
    ensures RowCharges(annualRate, left, interest, principal, row)
  {
    InterestAtAnnualRate(left, annualRate);
    var paid := l.payment + l.extra;
    assert row.interest == Accrued(left, l.rate);
    assert left - row.principal == Balance(l.principal, l.rate, paid, k);
    assert row.cumulativePrincipal == TotalPrincipal(l.principal, l.rate, paid, k - 1) + row.principal;
    hide MonthlyRate, Max0, Accrued;
  }

  lemma RowLeaves(l: Plan, k: nat, row: Row)
    requires IsRow(l, k, row) && Balance(l.principal, l.rate, l.payment + l.extra, k) > 0.0
    ensures row.remaining > 0.0 && Totals(l, k, row.remaining, row.cumulativeInterest, row.cumulativePrincipal)
  {
  }

  lemma RowsOfSchedule(l: Plan, schedule: Result<seq<Row>, MoneyError>)
    requires IsSchedule(l, schedule) && schedule.Success?
    ensures forall k: nat :: k < |schedule.value| ==> IsRow(l, k + 1, schedule.value[k])
    ensures var paid := l.payment + l.extra;
      forall k: nat :: 0 < k < |schedule.value| ==> Balance(l.principal, l.rate, paid, k) > 0.0
  {
    RowCountIsFirstPaidOff(l.principal, l.rate, l.payment + l.extra, l.term, 0);
    hide Balance, IsRow, RowCount;
  }

  lemma ScheduleChargesAnnualRate(q: Request, payment: real, today: Date, schedule: Result<seq<Row>, MoneyError>)
    requires IsSchedule(PlanOf(q, payment, today), schedule) && schedule.Success?
    ensures ChargesAnnualRate(q, schedule.value)
  {
    hide *;
    var l, rows := PlanOf(q, payment, today), schedule.value;
    PlanExtra(q, payment, today);
    RowsOfSchedule(l, schedule);
    if rows != [] {
      StartTotals(l);
      RowFollows(l, q.interestRate, 1, rows[0], q.principal, 0.0, 0.0);
    }
    forall j: nat, k: nat | j + 1 == k < |rows|
      ensures RowFollowsRow(q.interestRate, rows[j], rows[k])
    {
      RowLeaves(l, k, rows[j]);
      RowFollows(l, q.interestRate, k + 1, rows[k], rows[j].remaining, rows[j].cumulativeInterest, rows[j].cumulativePrincipal);
      FollowingRow(q.interestRate, rows[j], rows[k]);
    }
    Charged(q, rows);
  }

  lemma FollowingRow(annualRate: real, before: Row, row: Row)
    requires before.remaining > 0.0
    requires RowCharges(annualRate, before.remaining, before.cumulativeInterest, before.cumulativePrincipal, row)
    ensures RowFollowsRow(annualRate, before, row)
  {
  }

  lemma Charged(q: Request, rows: seq<Row>)
    requires rows != [] ==> RowCharges(q.interestRate, q.principal, 0.0, 0.0, rows[0])
    requires forall j: nat, k: nat :: j + 1 == k < |rows| ==> RowFollowsRow(q.interestRate, rows[j], rows[k])
    ensures ChargesAnnualRate(q, rows)
  {
  }

  lemma RateAboveMinusOne(annualRate: real)
    ensures annualRate > -1200.0 <==> MonthlyRate(annualRate) > -1.0
  {
  }

  lemma PlanExtra(q: Request, payment: real, today: Date)
    ensures var l := PlanOf(q, payment, today);
      && l.extra == (if PaysExtra(q) then q.extraPayment.value else 0.0) && l.extra >= 0.0
      && l.payment == payment && l.principal == q.principal && l.rate == MonthlyRate(q.interestRate) && l.term == Term(q.termMonths)
  {
  }

  /** Whenever a schedule succeeds at a rate above -100% a month, it pays the loan off. */
  lemma ScheduleCloses(q: Request, payment: real, today: Date, schedule: Result<seq<Row>, MoneyError>)
    requires MonthlyPayment(q.principal, q.interestRate, q.termMonths) == Success(payment)
    requires q.principal > 0.0 && q.interestRate > -1200.0 && q.termMonths > 0
    requires IsSchedule(PlanOf(q, payment, today), schedule) && schedule.Success?
    ensures PaysOff(q, payment, schedule.value)
  {
    var l, rows := PlanOf(q, payment, today), schedule.value;
    PlanExtra(q, payment, today);
    RateAboveMinusOne(q.interestRate);
    AnnuityPaysOffExactlyAtTerm(l.principal, q.interestRate, l.term);
    RowCountIsFirstPaidOff(l.principal, l.rate, l.payment + l.extra, l.term, 0);
    var n := |rows|;
    hide MonthlyPayment, MonthlyRate, PlanOf, TotalInterest;
    if l.extra > 0.0 {
      ExtraPaymentsDominate(l.principal, q.interestRate, l.term, l.extra);
    }
    TotalsMatchBalance(l.principal, l.rate, l.payment + l.extra, n);
    hide Balance, TotalPrincipal, RowCount;
    forall row <- rows
      ensures row.principal + row.interest == l.payment + l.extra
    {
      var k: nat :| k < n && rows[k] == row;
      assert IsRow(l, k + 1, row);
    }
    assert IsRow(l, n, rows[n - 1]);
  }

  method CalculateAmortization(q: Request, today: Date) returns (schedule: Result<seq<Row>, MoneyError>)
    ensures var payment := MonthlyPayment(q.principal, q.interestRate, q.termMonths);
      if payment.Failure? then schedule == Failure(ZeroDivision) else IsSchedule(PlanOf(q, payment.value, today), schedule)
    ensures schedule.Success? ==> ChargesAnnualRate(q, schedule.value)
    ensures schedule.Success? && q.principal > 0.0 && q.interestRate > -1200.0 && q.termMonths > 0 ==>
              exists payment :: PaysOff(q, payment, schedule.value)
  {
    var payment := MonthlyPayment(q.principal, q.interestRate, q.termMonths);
    if payment.Failure? {
      return Failure(ZeroDivision);
    }
    schedule := FillSchedule(PlanOf(q, payment.value, today));
    hide IsSchedule, PlanOf, MonthlyPayment, ChargesAnnualRate, PaysOff;
    if schedule.Success? {
      ScheduleChargesAnnualRate(q, payment.value, today, schedule);
      if q.principal > 0.0 && q.interestRate > -1200.0 && q.termMonths > 0 {
        ScheduleCloses(q, payment.value, today, schedule);
      }
    }
  }

  /** The loop of `calculate_amortization`. */
  method FillSchedule(l: Plan) returns (schedule: Result<seq<Row>, MoneyError>)
    ensures IsSchedule(l, schedule)
  {
    hide AddMonths, Steps, DateSteps, RowCount, Balance, IsRow, Totals, Accrued, Max0;
    ghost var paid := l.payment + l.extra;
    ghost var count := RowCount(l.principal, l.rate, paid, l.term, 0);
    var rows: seq<Row> := [];
    var remainingBalance, paymentDate := l.principal, l.start;
    var cumulativeInterest, cumulativePrincipal := 0.0, 0.0;
    StartTotals(l);
    FirstDate(l.start, l.term);
    var i := 1;
    while i <= l.term
      invariant 1 <= i <= l.term + 1 && |rows| == i - 1
      invariant RowCount(l.principal, l.rate, paid, l.term, i - 1) == count
      invariant Totals(l, i - 1, remainingBalance, cumulativeInterest, cumulativePrincipal)
      invariant Steps(l.start, DateSteps(i - 1, l.term)) == Success(paymentDate)
      invariant forall k: nat :: k < i - 1 ==> IsRow(l, k + 1, rows[k])
      invariant i > 1 ==> remainingBalance > 0.0
    {
      ghost var balance, interest0, principal0 := remainingBalance, cumulativeInterest, cumulativePrincipal;
      TotalsAreBalance(l, i - 1, balance, interest0, principal0);
      CountStep(l.principal, l.rate, paid, l.term, i);
      DateStep(l.start, paymentDate, i, l.term);
      var interest := Accrued(remainingBalance, l.rate);
      var principal := l.payment - interest + l.extra;
      remainingBalance := remainingBalance - principal;
      cumulativeInterest := cumulativeInterest + interest;
      cumulativePrincipal := cumulativePrincipal + principal;
      if i < l.term {
        var next := AddMonths(paymentDate, 1);
        if next.Failure? {
          DatesStayFailed(l.start, i, count, l.term);
          return Failure(BadDate);
        }
        paymentDate := next.value;
      }
      var row := Row(i, paymentDate, l.advertised, principal, interest, Max0(remainingBalance),
                     cumulativeInterest, cumulativePrincipal);
      NextTotals(l, i - 1, balance, interest0, principal0, row);
      TotalsAreBalance(l, i, remainingBalance, cumulativeInterest, cumulativePrincipal);
      rows := rows + [row];
      if remainingBalance <= 0.0 {
        return Success(rows);
      }
      i := i + 1;
    }
    return Success(rows);
  }

  lemma TotalsAreBalance(l: Plan, k: nat, balance: real, interest: real, principal: real)
    requires Totals(l, k, balance, interest, principal)
    ensures balance == Balance(l.principal, l.rate, l.payment + l.extra, k)
  {
  }

  /** The advertised payment of a row is what the row pays iff the extra payment is absent, zero,
      or positive and monthly. */
  lemma PaymentAmountIsPaidIff(q: Request, m: real, today: Date, k: nat, row: Row)
    requires IsRow(PlanOf(q, m, today), k, row)
    ensures row.paymentAmount == row.principal + row.interest <==>
              q.extraPayment.None? || q.extraPayment.value == 0.0
              || (q.extraPayment.value > 0.0 && (q.extraFrequency.None? || q.extraFrequency.value in {"", "monthly"}))
  {
  }

  /** Row dates strictly increase, except that the row at the term repeats the date before it. */
  lemma RowDatesIncreaseIff(q: Request, m: real, today: Date, i: nat, j: nat, a: Row, b: Row)
    requires ValidDate(q.Start(today)) && i < j <= q.termMonths
    requires IsRow(PlanOf(q, m, today), i, a) && IsRow(PlanOf(q, m, today), j, b)
    ensures Before(a.date, b.date) <==> !(i == q.termMonths - 1 && j == q.termMonths)
  {
    var x, y := DateSteps(i, q.termMonths), DateSteps(j, q.termMonths);
    if x < y {
      StepsIncrease(q.Start(today), x, y);
    }
  }

  lemma FebruaryDate()
    ensures Steps(Date(2024, 1, 31), 1) == Success(Date(2024, 2, 29))
  {
    assert AddMonths(Date(2024, 1, 31), 1) == Success(Date(2024, 2, 29));
  }

  /** A yearly extra payment of 50 is shown in every row and paid in none. */
  lemma YearlyExtraIsShownNotPaid(today: Date)
    ensures var q := Request(1200.0, 0.0, 12, Some(50.0), Some("yearly"), Some(Date(2024, 1, 31)));
      var row := Row(1, Date(2024, 2, 29), 150.0, 100.0, 0.0, 1100.0, 0.0, 100.0);
      IsRow(PlanOf(q, 100.0, today), 1, row) && row.paymentAmount == row.principal + row.interest + 50.0
  {
    var q := Request(1200.0, 0.0, 12, Some(50.0), Some("yearly"), Some(Date(2024, 1, 31)));
    assert q.Extra() == 0.0 && q.Rate() == 0.0;
    FlatRow(1200.0, 100.0);
    FebruaryDate();
    hide Steps;
  }

  /** Row 1 of a loan at rate 0. */
  lemma FlatRow(p: real, m: real)
    ensures Balance(p, 0.0, m, 1) == p - m && InterestOf(p, 0.0, m, 1) == 0.0 && PrincipalOf(p, 0.0, m, 1) == m
    ensures TotalInterest(p, 0.0, m, 1) == 0.0 && TotalPrincipal(p, 0.0, m, 1) == m
  {
  }

  lemma SecondFlatRow(p: real, m: real)
    ensures Balance(p, 0.0, m, 2) == p - m - m && InterestOf(p, 0.0, m, 2) == 0.0 && PrincipalOf(p, 0.0, m, 2) == m
    ensures TotalInterest(p, 0.0, m, 2) == 0.0 && TotalPrincipal(p, 0.0, m, 2) == m + m
  {
    FlatRow(p, m);
    assert InterestOf(p, 0.0, m, 2) == 0.0;
    assert PrincipalOf(p, 0.0, m, 2) == m;
    hide InterestOf, PrincipalOf;
  }

  /** Both rows of a loan over two months from 31 January 2024 carry 29 February. */
  lemma LastRowRepeatsDate(today: Date)
    ensures var l := Plan(200.0, 0.0, 100.0, 0.0, 100.0, Date(2024, 1, 31), 2);
      && PlanOf(Request(200.0, 0.0, 2, None, None, Some(Date(2024, 1, 31))), 100.0, today) == l
      && IsRow(l, 1, Row(1, Date(2024, 2, 29), 100.0, 100.0, 0.0, 100.0, 0.0, 100.0))
      && IsRow(l, 2, Row(2, Date(2024, 2, 29), 100.0, 100.0, 0.0, 0.0, 0.0, 200.0))
  {
    hide Balance, InterestOf, PrincipalOf, TotalInterest, TotalPrincipal;
    FlatRow(200.0, 100.0);
    SecondFlatRow(200.0, 100.0);
    FebruaryDate();
    hide Steps;
  }
}
