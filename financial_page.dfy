/**
 * The finance dashboard (pages/FinancialPage.tsx): the manager-only gate,
 * the realised and pending revenue, expenses and net profit, the six-month
 * chart, the lists it shows, and the two handlers that write to the
 * retainer tables: mark-as-paid and remove.
 */
module FinancialPage {
  import opened Wrappers
  import opened Lists
  import opened Dates
  import Roles
  import Text

  /** A row of `financial_recoveries`; dates are local calendar dates. */
  datatype Recovery = Recovery(
    id: string, clientName: string, status: string, totalRecovered: real,
    myCompanyAmount: real, createdAt: Civil)

  /** A row of `financial_retainers`. */
  datatype Retainer = Retainer(
    id: string, clientName: string, monthlyFee: real, active: Option<bool>,
    commission: Option<real>, startDate: Option<Civil>)

  /** A row of `financial_retainer_payments`. */
  datatype Payment = Payment(
    id: string, retainerId: Option<string>, dueDate: Civil, paymentDate: Option<Civil>,
    amount: Option<real>, status: Option<string>)

  /** A row of `financial_expenses`. */
  datatype Expense = Expense(id: string, amount: real, date: Civil)

  /** The page renders only for a role holding the finance permission: managers, whatever the case. */
  function CanView(role: Option<string>): (b: bool)
    ensures b <==> role.Some? && Text.Lower(role.value) == "manager"
  {
    if role.Some? then
      Roles.OnlyManagers(role.value, Roles.ViewFinancial);
      Roles.HasPermission(role, Roles.Allowed(Roles.ViewFinancial))
    else false
  }

  // -------------------------------------------------------------- revenue

  /** `commission_percent || 20`: a missing commission and a commission of 0 both read as 20. */
  function Commission(r: Retainer): (c: real)
    ensures r.commission.None? || r.commission == Some(0.0) ==> c == 20.0
    ensures r.commission.Some? && r.commission.value != 0.0 ==> c == r.commission.value
  {
    if r.commission.None? || r.commission.value == 0.0 then 20.0 else r.commission.value
  }

  /** `new Map(retainers.map(r => [r.id, r])).get(id)`: the last retainer with that id wins. */
  function FindRetainer(retainers: seq<Retainer>, id: Option<string>): (r: Option<Retainer>)
    ensures r.Some? ==> r.value in retainers && id == Some(r.value.id)
    ensures r.None? ==> id.None? || forall i :: 0 <= i < |retainers| ==> retainers[i].id != id.value
    ensures r.Some? ==>
      exists i :: 0 <= i < |retainers| && retainers[i] == r.value
                  && forall j :: i < j < |retainers| ==> retainers[j].id != id.value
  {
    if id.None? || retainers == [] then None
    else if retainers[|retainers| - 1].id == id.value then Some(retainers[|retainers| - 1])
    else
      var r := FindRetainer(retainers[..|retainers| - 1], id);
      assert r.Some? ==> r.value in retainers[..|retainers| - 1];
      r
  }

  /** A payment's share for the office: its amount times the retainer's commission, 0 for an unknown retainer. */
  function Share(retainers: seq<Retainer>): Payment -> real {
    (p: Payment) =>
      var r := FindRetainer(retainers, p.retainerId);
      if r.None? then 0.0 else p.amount.GetOr(0.0) * (Commission(r.value) / 100.0)
  }

  function RecoveryStatus(s: string): Recovery -> bool {
    (r: Recovery) => r.status == s
  }

  function PaymentPaid(p: Payment): bool {
    p.status == Some("paid")
  }

  function MyAmount(r: Recovery): real { r.myCompanyAmount }
  function Recovered(r: Recovery): real { r.totalRecovered }
  function ExpenseAmount(e: Expense): real { e.amount }

  /** No recorded amount or commission is negative. */
  predicate NonNegativeAmounts(recoveries: seq<Recovery>, retainers: seq<Retainer>, payments: seq<Payment>) {
    (forall r :: r in recoveries ==> r.myCompanyAmount >= 0.0)
    && (forall t :: t in retainers ==> t.commission.GetOr(0.0) >= 0.0)
    && (forall p :: p in payments ==> p.amount.GetOr(0.0) >= 0.0)
  }

  /**
   * Revenue already received: the office's part of paid recoveries plus its
   * share of paid retainer payments. It cannot be negative unless some
   * amount or commission is.
   */
  function RealizedRevenue(recoveries: seq<Recovery>, retainers: seq<Retainer>, payments: seq<Payment>): (revenue: real)
    ensures NonNegativeAmounts(recoveries, retainers, payments) ==> revenue >= 0.0
  {
    RevenueTermsNonNegative(recoveries, retainers, payments);
    Sum(Filter(recoveries, RecoveryStatus("paid")), MyAmount)
    + Sum(Filter(payments, PaymentPaid), Share(retainers))
  }

  lemma RevenueTermsNonNegative(recoveries: seq<Recovery>, retainers: seq<Retainer>, payments: seq<Payment>)
    ensures NonNegativeAmounts(recoveries, retainers, payments) ==>
      Sum(Filter(recoveries, RecoveryStatus("paid")), MyAmount) >= 0.0
      && Sum(Filter(payments, PaymentPaid), Share(retainers)) >= 0.0
  {
    if NonNegativeAmounts(recoveries, retainers, payments) {
      var paid := Filter(recoveries, RecoveryStatus("paid"));
      var settled := Filter(payments, PaymentPaid);
      FilterKeeps(recoveries, RecoveryStatus("paid"));
      FilterKeeps(payments, PaymentPaid);
      assert forall x :: x in paid ==> MyAmount(x) >= 0.0;
      SumNonNegative(paid, MyAmount);
      forall p | p in settled ensures Share(retainers)(p) >= 0.0 {
        var r := FindRetainer(retainers, p.retainerId);
        if r.Some? {
          assert Commission(r.value) >= 0.0;
          assert p.amount.GetOr(0.0) * (Commission(r.value) / 100.0) >= 0.0;
        }
      }
      SumNonNegative(settled, Share(retainers));
    }
  }

  datatype Metrics = Metrics(
    totalRevenue: real, netProfit: real, pendingAnalysisCount: nat, totalRecoveredVolume: real,
    totalExpenses: real, pendingRevenue: real, realizedRevenue: real)

  /** The dashboard's numbers. */
  function ComputeMetrics(recoveries: seq<Recovery>, retainers: seq<Retainer>, payments: seq<Payment>,
                          expenses: seq<Expense>): (m: Metrics)
    ensures m.totalRevenue == m.realizedRevenue == RealizedRevenue(recoveries, retainers, payments)
    ensures m.netProfit == m.realizedRevenue - m.totalExpenses
    ensures m.totalExpenses == Sum(expenses, ExpenseAmount)
    ensures m.pendingRevenue == Sum(Filter(recoveries, RecoveryStatus("restitution")), MyAmount)
    ensures m.pendingAnalysisCount == Count(recoveries, RecoveryStatus("analysis"))
    ensures m.totalRecoveredVolume == Sum(recoveries, Recovered)
  {
    var realized := RealizedRevenue(recoveries, retainers, payments);
    var spent := Sum(expenses, ExpenseAmount);
    Metrics(realized, realized - spent, Count(recoveries, RecoveryStatus("analysis")),
            Sum(recoveries, Recovered), spent,
            Sum(Filter(recoveries, RecoveryStatus("restitution")), MyAmount), realized)
  }

  /** A payment whose retainer is unknown adds nothing to the revenue. */
  lemma UnknownRetainerAddsNothing(recoveries: seq<Recovery>, retainers: seq<Retainer>, payments: seq<Payment>, p: Payment)
    requires FindRetainer(retainers, p.retainerId).None?
    ensures RealizedRevenue(recoveries, retainers, payments + [p]) == RealizedRevenue(recoveries, retainers, payments)
  {
    FilterAppend(payments, [p], PaymentPaid);
    SumAppend(Filter(payments, PaymentPaid), Filter([p], PaymentPaid), Share(retainers));
  }

  /** A recovery that is not paid adds nothing to the realised revenue. */
  lemma UnpaidRecoveryAddsNothing(recoveries: seq<Recovery>, retainers: seq<Retainer>, payments: seq<Payment>, r: Recovery)
    requires r.status != "paid"
    ensures RealizedRevenue(recoveries + [r], retainers, payments) == RealizedRevenue(recoveries, retainers, payments)
  {
    FilterAppend(recoveries, [r], RecoveryStatus("paid"));
    assert Filter([r], RecoveryStatus("paid")) == [];
    assert Filter(recoveries, RecoveryStatus("paid")) + [] == Filter(recoveries, RecoveryStatus("paid"));
  }

  /** A paid recovery adds exactly the office's part of it. */
  lemma PaidRecoveryAdds(recoveries: seq<Recovery>, retainers: seq<Retainer>, payments: seq<Payment>, r: Recovery)
    requires r.status == "paid"
    ensures RealizedRevenue(recoveries + [r], retainers, payments)
         == RealizedRevenue(recoveries, retainers, payments) + r.myCompanyAmount
  {
    FilterAppend(recoveries, [r], RecoveryStatus("paid"));
    assert Filter([r], RecoveryStatus("paid")) == [r];
    SumAppend(Filter(recoveries, RecoveryStatus("paid")), [r], MyAmount);
    assert Sum([r], MyAmount) == r.myCompanyAmount by {
      assert [r][1..] == [];
    }
  }

  /** A paid payment of a known retainer adds its amount times the retainer's commission. */
  lemma PaidPaymentAdds(recoveries: seq<Recovery>, retainers: seq<Retainer>, payments: seq<Payment>,
                        p: Payment, r: Retainer)
    requires PaymentPaid(p) && FindRetainer(retainers, p.retainerId) == Some(r)
    ensures RealizedRevenue(recoveries, retainers, payments + [p])
         == RealizedRevenue(recoveries, retainers, payments) + p.amount.GetOr(0.0) * (Commission(r) / 100.0)
  {
    var paid := Filter(payments, PaymentPaid);
    FilterAppend(payments, [p], PaymentPaid);
    assert Filter([p], PaymentPaid) == [p];
    SumAppend(paid, [p], Share(retainers));
    ShareOfKnown(retainers, p, r);
  }

  /** The share of one payment of a known retainer. */
  lemma ShareOfKnown(retainers: seq<Retainer>, p: Payment, r: Retainer)
    requires FindRetainer(retainers, p.retainerId) == Some(r)
    ensures Sum([p], Share(retainers)) == p.amount.GetOr(0.0) * (Commission(r) / 100.0)
  {
    assert [p][1..] == [];
  }

  /** A payment that is not paid adds nothing to the realised revenue. */
  lemma UnpaidPaymentAddsNothing(recoveries: seq<Recovery>, retainers: seq<Retainer>, payments: seq<Payment>, p: Payment)
    requires !PaymentPaid(p)
    ensures RealizedRevenue(recoveries, retainers, payments + [p]) == RealizedRevenue(recoveries, retainers, payments)
  {
    FilterAppend(payments, [p], PaymentPaid);
    assert Filter([p], PaymentPaid) == [];
    assert Filter(payments, PaymentPaid) + [] == Filter(payments, PaymentPaid);
  }

  /** Every expense lowers the net profit by its amount. */
  lemma ExpenseLowersProfit(recoveries: seq<Recovery>, retainers: seq<Retainer>, payments: seq<Payment>,
                            expenses: seq<Expense>, e: Expense)
    ensures ComputeMetrics(recoveries, retainers, payments, expenses + [e]).netProfit
         == ComputeMetrics(recoveries, retainers, payments, expenses).netProfit - e.amount
  {
    SumAppend(expenses, [e], ExpenseAmount);
  }

  // ---------------------------------------------------------------- chart

  /** `last6MonthsIndices`: the month indices of the five months before the current one, then the current one. */
  function LastSixMonths(current: int): (r: seq<int>)
    requires 0 <= current < 12
    ensures |r| == 6 && r[5] == current
    ensures forall i :: 0 <= i < 6 ==> 0 <= r[i] < 12
    ensures forall i :: 0 <= i < 5 ==> r[i + 1] == (r[i] + 1) % 12
  {
    seq(6, i requires 0 <= i < 6 => if current - 5 + i < 0 then current - 5 + i + 12 else current - 5 + i)
  }

  /** A month index after the current one belongs to the previous year. */
  function ChartYear(monthIdx: int, current: int, year: int): int {
    if monthIdx > current then year - 1 else year
  }

  /** The six (month, year) pairs are the six consecutive months ending with the current one. */
  lemma ChartWindow(current: int, year: int)
    requires 0 <= current < 12
    ensures forall i :: 0 <= i < 6 ==>
      ChartYear(LastSixMonths(current)[i], current, year) * 12 + LastSixMonths(current)[i]
        == year * 12 + current - 5 + i
  {
  }

  const MonthNames: seq<string> := ["Jan", "Fev", "Mar", "Abr", "Mai", "Jun", "Jul", "Ago", "Set", "Out", "Nov", "Dez"]

  datatype ChartPoint = ChartPoint(month: string, revenue: real, expense: real)

  predicate InMonth(c: Civil, month: int, year: int) {
    c.month == month && c.year == year
  }

  /** A retainer payment is dated by its payment date, or its due date when unpaid. */
  function PaymentDay(p: Payment): Civil {
    p.paymentDate.GetOr(p.dueDate)
  }

  function RecoveryIn(month: int, year: int): Recovery -> bool {
    (r: Recovery) => r.status == "paid" && InMonth(r.createdAt, month, year)
  }

  function PaymentIn(month: int, year: int): Payment -> bool {
    (p: Payment) => PaymentPaid(p) && InMonth(PaymentDay(p), month, year)
  }

  function ExpenseIn(month: int, year: int): Expense -> bool {
    (e: Expense) => InMonth(e.date, month, year)
  }

  /** One bar of the chart: paid revenue and expenses dated in that month. */
  function Point(recoveries: seq<Recovery>, retainers: seq<Retainer>, payments: seq<Payment>,
                 expenses: seq<Expense>, month: int, year: int): (pt: ChartPoint)
    requires 0 <= month < 12
    ensures pt.month == MonthNames[month]
    ensures pt.revenue == Sum(Filter(recoveries, RecoveryIn(month, year)), MyAmount)
                          + Sum(Filter(payments, PaymentIn(month, year)), Share(retainers))
    ensures pt.expense == Sum(Filter(expenses, ExpenseIn(month, year)), ExpenseAmount)
  {
    ChartPoint(MonthNames[month],
               Sum(Filter(recoveries, RecoveryIn(month, year)), MyAmount)
               + Sum(Filter(payments, PaymentIn(month, year)), Share(retainers)),
               Sum(Filter(expenses, ExpenseIn(month, year)), ExpenseAmount))
  }

  function Chart(recoveries: seq<Recovery>, retainers: seq<Retainer>, payments: seq<Payment>,
                 expenses: seq<Expense>, today: Civil): (c: seq<ChartPoint>)
    requires today.Valid()
    ensures |c| == 6 && c[5].month == MonthNames[today.month]
    ensures forall k :: 0 <= k < 6 ==>
      var m := LastSixMonths(today.month)[k];
      c[k] == Point(recoveries, retainers, payments, expenses, m, ChartYear(m, today.month, today.year))
  {
    var months := LastSixMonths(today.month);
    Map(months, (m: int) => if 0 <= m < 12 then Point(recoveries, retainers, payments, expenses, m,
                                                       ChartYear(m, today.month, today.year))
                            else ChartPoint("", 0.0, 0.0))
  }

  /** The recovery revenue of one bar only counts paid recoveries. */
  lemma RecoveryInIsPaid(recoveries: seq<Recovery>, month: int, year: int)
    ensures Filter(recoveries, RecoveryIn(month, year)) == Filter(Filter(recoveries, RecoveryStatus("paid")), RecoveryIn(month, year))
  {
    FilterTwice(recoveries, RecoveryStatus("paid"), RecoveryIn(month, year));
  }

  lemma {:induction false} FilterTwice<T>(xs: seq<T>, f: T -> bool, g: T -> bool)
    requires forall x :: g(x) ==> f(x)
    ensures Filter(xs, g) == Filter(Filter(xs, f), g)
  {
    if xs != [] {
      FilterTwice(xs[1..], f, g);
      var rest := Filter(xs[1..], f);
      if f(xs[0]) {
        assert Filter(xs, f) == [xs[0]] + rest;
        assert ([xs[0]] + rest)[1..] == rest;
      } else {
        assert Filter(xs, f) == [] + rest == rest;
      }
    }
  }

  // ---------------------------------------------------------------- lists

  /** The in-progress list: the restitution recoveries, then the ones in analysis. */
  function InProgress(recoveries: seq<Recovery>): (r: seq<Recovery>)
    ensures |r| == Count(recoveries, RecoveryStatus("restitution")) + Count(recoveries, RecoveryStatus("analysis"))
    ensures forall i :: 0 <= i < |r| ==> r[i] in recoveries && (r[i].status == "restitution" || r[i].status == "analysis")
    ensures forall i :: 0 <= i < |recoveries| && recoveries[i].status == "paid" ==> recoveries[i] !in r
    ensures forall i :: 0 <= i < |recoveries| && recoveries[i].status in {"restitution", "analysis"} ==> recoveries[i] in r
  {
    FilterKeeps(recoveries, RecoveryStatus("restitution"));
    FilterKeeps(recoveries, RecoveryStatus("analysis"));
    FilterComplete(recoveries, RecoveryStatus("restitution"));
    FilterComplete(recoveries, RecoveryStatus("analysis"));
    Filter(recoveries, RecoveryStatus("restitution")) + Filter(recoveries, RecoveryStatus("analysis"))
  }

  /**
   * The order of the in-progress list: all its restitution recoveries come
   * before all its analysis ones, and each group is in the order fetched.
   */
  lemma InProgressOrder(recoveries: seq<Recovery>)
    ensures var r := InProgress(recoveries);
      var k := Count(recoveries, RecoveryStatus("restitution"));
      k <= |r|
      && (forall i :: 0 <= i < k ==> r[i].status == "restitution")
      && (forall i :: k <= i < |r| ==> r[i].status == "analysis")
      && SubseqOf(r[..k], recoveries) && SubseqOf(r[k..], recoveries)
  {
    var a := Filter(recoveries, RecoveryStatus("restitution"));
    var b := Filter(recoveries, RecoveryStatus("analysis"));
    var r := InProgress(recoveries);
    assert r == a + b;
    FilterSubseq(recoveries, RecoveryStatus("restitution"));
    FilterSubseq(recoveries, RecoveryStatus("analysis"));
    assert r[..|a|] == a && r[|a|..] == b;
  }

  /** The active retainers: `active` set (a missing flag is not active). */
  function ActiveRetainers(retainers: seq<Retainer>): (r: seq<Retainer>)
    ensures forall i :: 0 <= i < |r| ==> r[i] in retainers && r[i].active == Some(true)
    ensures forall i :: 0 <= i < |retainers| && retainers[i].active == Some(true) ==> retainers[i] in r
  {
    FilterKeeps(retainers, (x: Retainer) => x.active == Some(true));
    FilterComplete(retainers, (x: Retainer) => x.active == Some(true));
    Filter(retainers, (x: Retainer) => x.active == Some(true))
  }

  /** `expenses.slice(0, 10)`. */
  function RecentExpenses(expenses: seq<Expense>): (r: seq<Expense>)
    ensures |r| <= 10 && |r| == if |expenses| < 10 then |expenses| else 10
    ensures forall i :: 0 <= i < |r| ==> r[i] == expenses[i]
  {
    if |expenses| <= 10 then expenses else expenses[..10]
  }

  // ------------------------------------------------------------- payments

  function DueIn(today: Civil): Payment -> bool {
    (p: Payment) => InMonth(p.dueDate, today.month, today.year)
  }

  /** `currentMonthPayments`: the payments due in the current month. */
  function MonthPayments(payments: seq<Payment>, today: Civil): (r: seq<Payment>)
    ensures forall i :: 0 <= i < |r| ==> r[i] in payments && InMonth(r[i].dueDate, today.month, today.year)
    ensures forall i :: 0 <= i < |payments| && InMonth(payments[i].dueDate, today.month, today.year) ==> payments[i] in r
  {
    FilterKeeps(payments, DueIn(today));
    FilterComplete(payments, DueIn(today));
    Filter(payments, DueIn(today))
  }

  /** `payments.find(p => p.retainer_id === id)`. */
  function FindPayment(payments: seq<Payment>, retainerId: string): (r: Option<Payment>)
    ensures r.Some? ==> r.value in payments && r.value.retainerId == Some(retainerId)
    ensures r.None? ==> forall i :: 0 <= i < |payments| ==> payments[i].retainerId != Some(retainerId)
    ensures r.Some? ==>
      exists i :: 0 <= i < |payments| && payments[i] == r.value
                  && forall j :: 0 <= j < i ==> payments[j].retainerId != Some(retainerId)
  {
    if payments == [] then None
    else if payments[0].retainerId == Some(retainerId) then Some(payments[0])
    else FindPayment(payments[1..], retainerId)
  }

  /** The retainer row shows as paid when its first payment this month is paid. */
  predicate PaidThisMonth(payments: seq<Payment>, today: Civil, retainerId: string) {
    var p := FindPayment(MonthPayments(payments, today), retainerId);
    p.Some? && PaymentPaid(p.value)
  }

  /** The day of month the retainer started on, or the 10th. */
  function PaymentDayOf(r: Retainer): (d: int)
    requires r.startDate.Some? ==> r.startDate.value.Valid()
    ensures 1 <= d <= 31
  {
    if r.startDate.Some? then r.startDate.value.day else 10
  }

  /**
   * `new Date(year, month, day)` as the handler writes it: a day past the end
   * of the month carries into the next month.
   */
  function DueDateAsWritten(today: Civil, day: int): (c: Civil)
    requires today.Valid() && 1 <= day <= 31
    ensures c.Valid()
    ensures DayNumber(c) == MakeDay(today.year, today.month, day)
  {
    NormalizeDay(today.year, today.month, day);
    Normalize(today.year, today.month, day)
  }

  /** A retainer started on the 30th, marked as paid in February 2025: the payment falls due on 2 March. */
  lemma DueDateAsWrittenLeavesMonth()
    ensures var today := Civil(2025, 1, 10);
      DueDateAsWritten(today, 30) == Civil(2025, 2, 2) && !InMonth(DueDateAsWritten(today, 30), today.month, today.year)
  {
    assert !IsLeap(2025);
    assert DaysInMonth(2025, 1) == 28;
    assert Normalize(2025, 1, 30) == Civil(2025, 2, 2);
  }

  /** The due date clamped to the current month, so that the payment is the month's payment. */
  function DueDate(today: Civil, day: int): (c: Civil)
    requires today.Valid() && 1 <= day <= 31
    ensures c.Valid() && InMonth(c, today.month, today.year)
    ensures day <= DaysInMonth(today.year, today.month) ==> c == DueDateAsWritten(today, day)
    ensures day > DaysInMonth(today.year, today.month) ==> c.day == DaysInMonth(today.year, today.month)
  {
    var n := DaysInMonth(today.year, today.month);
    assert today.year + today.month / 12 == today.year && today.month % 12 == today.month;
    Civil(today.year, today.month, if day <= n then day else n)
  }

  /** The payment of that id becomes paid today; its other fields and every other payment are kept. */
  function MarkPaid(id: string, today: Civil): (u: Payment -> Payment)
    ensures forall p :: u(p).id == p.id && u(p).retainerId == p.retainerId && u(p).dueDate == p.dueDate && u(p).amount == p.amount
    ensures forall p: Payment :: p.id == id ==> PaymentPaid(u(p)) && u(p).paymentDate == Some(today)
    ensures forall p: Payment :: p.id != id ==> u(p) == p
  {
    (p: Payment) => if p.id == id then p.(status := Some("paid"), paymentDate := Some(today)) else p
  }

  /**
   * The payments after marking `retainer` as paid on `today`, `newId` naming
   * an inserted payment. Only the month's payment is touched, or, when the
   * month has none for the retainer, one paid payment of its fee due this
   * month is added; nothing is removed.
   */
  function MarkedPayments(payments: seq<Payment>, retainer: Retainer, today: Civil, newId: string): (r: seq<Payment>)
    requires today.Valid() && (retainer.startDate.Some? ==> retainer.startDate.value.Valid())
    ensures |r| == |payments| + (if FindPayment(MonthPayments(payments, today), retainer.id).None? then 1 else 0)
    ensures forall i :: 0 <= i < |payments| ==>
      (r[i] == payments[i] || (r[i].id == payments[i].id && r[i].retainerId == payments[i].retainerId
                               && r[i].dueDate == payments[i].dueDate && r[i].amount == payments[i].amount))
    ensures |r| > |payments| ==>
      var p := r[|payments|];
      p.retainerId == Some(retainer.id) && PaymentPaid(p) && p.paymentDate == Some(today)
      && p.amount == Some(retainer.monthlyFee) && InMonth(p.dueDate, today.month, today.year)
  {
    var existing := FindPayment(MonthPayments(payments, today), retainer.id);
    if existing.Some? then Map(payments, MarkPaid(existing.value.id, today))
    else payments + [Payment(newId, Some(retainer.id), DueDate(today, PaymentDayOf(retainer)), Some(today),
                             Some(retainer.monthlyFee), Some("paid"))]
  }

  lemma {:induction false} FilterMapPreserved(xs: seq<Payment>, f: Payment -> bool, u: Payment -> Payment)
    requires forall p :: f(u(p)) == f(p)
    ensures Filter(Map(xs, u), f) == Map(Filter(xs, f), u)
  {
    if xs != [] {
      assert Map(xs, u)[1..] == Map(xs[1..], u);
      FilterMapPreserved(xs[1..], f, u);
      if f(xs[0]) {
        assert Map([xs[0]] + Filter(xs[1..], f), u) == [u(xs[0])] + Map(Filter(xs[1..], f), u);
      }
    }
  }

  lemma {:induction false} FindPaymentMap(xs: seq<Payment>, u: Payment -> Payment, rid: string)
    requires forall p :: u(p).retainerId == p.retainerId
    ensures FindPayment(xs, rid).Some? ==> FindPayment(Map(xs, u), rid) == Some(u(FindPayment(xs, rid).value))
  {
    if xs != [] {
      assert Map(xs, u)[1..] == Map(xs[1..], u);
      FindPaymentMap(xs[1..], u, rid);
    }
  }

  lemma {:induction false} FindPaymentAppend(xs: seq<Payment>, p: Payment, rid: string)
    requires FindPayment(xs, rid).None? && p.retainerId == Some(rid)
    ensures FindPayment(xs + [p], rid) == Some(p)
  {
    if xs != [] {
      assert (xs + [p])[1..] == xs[1..] + [p];
      FindPaymentAppend(xs[1..], p, rid);
    }
  }

  /** After marking a retainer as paid it shows as paid for the current month. */
  lemma MarkedIsPaid(payments: seq<Payment>, retainer: Retainer, today: Civil, newId: string)
    requires today.Valid() && (retainer.startDate.Some? ==> retainer.startDate.value.Valid())
    ensures PaidThisMonth(MarkedPayments(payments, retainer, today, newId), today, retainer.id)
  {
    var existing := FindPayment(MonthPayments(payments, today), retainer.id);
    if existing.Some? {
      MarkedExisting(payments, retainer.id, existing.value, today);
    } else {
      var p := Payment(newId, Some(retainer.id), DueDate(today, PaymentDayOf(retainer)), Some(today),
                       Some(retainer.monthlyFee), Some("paid"));
      MarkedInserted(payments, p, retainer.id, today);
    }
  }

  lemma MarkedExisting(payments: seq<Payment>, rid: string, e: Payment, today: Civil)
    requires FindPayment(MonthPayments(payments, today), rid) == Some(e)
    ensures PaidThisMonth(Map(payments, MarkPaid(e.id, today)), today, rid)
  {
    var u := MarkPaid(e.id, today);
    FilterMapPreserved(payments, DueIn(today), u);
    FindPaymentMap(MonthPayments(payments, today), u, rid);
  }

  lemma MarkedInserted(payments: seq<Payment>, p: Payment, rid: string, today: Civil)
    requires FindPayment(MonthPayments(payments, today), rid).None?
    requires p.retainerId == Some(rid) && PaymentPaid(p) && InMonth(p.dueDate, today.month, today.year)
    ensures PaidThisMonth(payments + [p], today, rid)
  {
    FilterAppend(payments, [p], DueIn(today));
    assert Filter([p], DueIn(today)) == [p];
    FindPaymentAppend(MonthPayments(payments, today), p, rid);
  }

  /** The database tables the page writes to. */
  class FinanceStore {
    var retainers: seq<Retainer>
    var payments: seq<Payment>

    constructor (retainers: seq<Retainer>, payments: seq<Payment>)
      ensures this.retainers == retainers && this.payments == payments
    {
      this.retainers := retainers;
      this.payments := payments;
    }

    /**
     * `handleMarkAsPaid`: the current month's payment of the retainer is set
     * to paid today; without one, a paid payment of the monthly fee is
     * inserted, due on the retainer's start day (the 10th by default).
     */
    method MarkAsPaid(retainer: Retainer, today: Civil, newId: string)
      requires today.Valid() && (retainer.startDate.Some? ==> retainer.startDate.value.Valid())
      modifies this
      ensures payments == MarkedPayments(old(payments), retainer, today, newId)
      ensures retainers == old(retainers)
    {
      var existing := FindPayment(MonthPayments(payments, today), retainer.id);
      if existing.Some? {
        payments := Map(payments, MarkPaid(existing.value.id, today));
      } else {
        var day := PaymentDayOf(retainer);
        payments := payments + [Payment(newId, Some(retainer.id), DueDate(today, day), Some(today),
                                        Some(retainer.monthlyFee), Some("paid"))];
      }
    }

    /** `handleDeleteRetainer` after confirmation: the retainer is only deactivated; its history stays. */
    method DeleteRetainer(id: string, confirmed: bool)
      modifies this
      ensures !confirmed ==> retainers == old(retainers)
      ensures |retainers| == |old(retainers)|
      ensures forall i :: 0 <= i < |retainers| ==>
        retainers[i] == (if confirmed && old(retainers)[i].id == id then old(retainers)[i].(active := Some(false)) else old(retainers)[i])
      ensures payments == old(payments)
    {
      if confirmed {
        retainers := Map(retainers, (r: Retainer) => if r.id == id then r.(active := Some(false)) else r);
      }
    }
  }

  /** A removed retainer leaves the active list; the others stay as they were. */
  lemma DeactivatedLeavesList(retainers: seq<Retainer>, id: string)
    ensures var after := Map(retainers, (r: Retainer) => if r.id == id then r.(active := Some(false)) else r);
      forall i :: 0 <= i < |ActiveRetainers(after)| ==> ActiveRetainers(after)[i].id != id
  {
  }
}
