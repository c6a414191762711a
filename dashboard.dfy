/**
 * The dashboard series (billing-ui `components/DashboardCharts.tsx`): the
 * window of the last `n` calendar months, the `YYYY-MM` bucket keys, the
 * accumulation of invoice and payment amounts into those buckets, and the
 * small `toNum`, `rgba` and `clamp` helpers.
 *
 * Dates are calendar months supplied by the caller: the current month is a
 * parameter and the parsing of date strings (`new Date(s)`) is a function
 * in the `Runtime` parameter, as is JavaScript's `Number(string)`.
 */
module Dashboard {
  import opened Text

  // ---------------------------------------------------------------------------
  // Calendar months

  /** A year with a JavaScript month number (0 = January ... 11 = December). */
  datatype YearMonth = YearMonth(year: int, month: int)

  type CalendarMonth = ym: YearMonth | 0 <= ym.month < 12 witness YearMonth(1970, 0)

  /** The number of months since January of year 0. */
  function MonthIndex(ym: YearMonth): int {
    ym.year * 12 + ym.month
  }

  /** The calendar month with a given month index. */
  function FromIndex(k: int): (ym: CalendarMonth)
    ensures MonthIndex(ym) == k
  {
    YearMonth(k / 12, k % 12)
  }

  /** Month indexes identify calendar months. */
  lemma MonthIndexInjective(a: CalendarMonth, b: CalendarMonth)
    requires MonthIndex(a) == MonthIndex(b)
    ensures a == b
  {
  }

  /** `new Date(y, m - i, 1)`: the month `i` months before `ym`, a negative month rolling back into earlier years. */
  function MonthsBefore(ym: CalendarMonth, i: int): (r: CalendarMonth)
    ensures MonthIndex(r) == MonthIndex(ym) - i
  {
    FromIndex(MonthIndex(ym) - i)
  }

  /** The calendar month after `ym`. */
  function NextMonth(ym: CalendarMonth): CalendarMonth {
    if ym.month == 11 then YearMonth(ym.year + 1, 0) else YearMonth(ym.year, ym.month + 1)
  }

  /** Going back zero months stays put, and going back one month less gives the next month. */
  lemma MonthsBeforeSteps(ym: CalendarMonth, i: int)
    ensures MonthsBefore(ym, 0) == ym
    ensures MonthsBefore(ym, i - 1) == NextMonth(MonthsBefore(ym, i))
  {
    MonthIndexInjective(MonthsBefore(ym, 0), ym);
    var p := MonthsBefore(ym, i);
    MonthIndexInjective(MonthsBefore(ym, i - 1), NextMonth(p));
  }

  // ---------------------------------------------------------------------------
  // Month keys

  /** `String(n).padStart(2, '0')` for `n` below 100. */
  function Pad2(n: nat): (r: string)
    requires n < 100
    ensures |r| == 2
  {
    if n < 10 then "0" + NatToString(n)
    else
      assert |NatToString(n / 10)| == 1;
      NatToString(n)
  }

  /** The two characters are digits that read back as `n`. */
  lemma Pad2Digits(n: nat)
    requires n < 100
    ensures AllDigits(Pad2(n)) && ParseNat(Pad2(n)) == n
  {
    if n < 10 {
      assert ParseNat("0") == 0;
      assert Pad2(n)[..1] == "0";
    } else {
      assert ParseNat(NatToString(n)[..1]) == n / 10;
    }
  }

  /** `ymKey`: the year, `-`, and the month number 01-12. */
  function Key(ym: CalendarMonth): string {
    IntToString(ym.year) + "-" + Pad2(ym.month + 1)
  }

  /** The key of an unparseable date: `getFullYear` and `getMonth` give NaN. */
  const NaNKey := "NaN-NaN"

  /** `ymKey(new Date(s))`, with `None` for an invalid date. */
  function KeyOf(d: Option<CalendarMonth>): string {
    if d.Some? then Key(d.value) else NaNKey
  }

  /** A key is the year's digits, `-`, and the two month digits. */
  lemma KeyParts(ym: CalendarMonth)
    ensures var k := Key(ym);
            && |k| >= 4 && k[|k| - 3] == '-'
            && k[..|k| - 3] == IntToString(ym.year)
            && k[|k| - 2..] == Pad2(ym.month + 1)
  {
    var k := Key(ym);
    assert k[..|k| - 3] == IntToString(ym.year);
    assert k[|k| - 2..] == Pad2(ym.month + 1);
  }

  /** A key reads back as its year (before the last `-`) and its month number 1-12 (the last two digits). */
  lemma KeyRoundTrip(ym: CalendarMonth)
    ensures var k := Key(ym);
            && |k| >= 4 && k[|k| - 3] == '-' && AllDigits(k[|k| - 2..])
            && ParseInt(k[..|k| - 3]) == ym.year
            && ParseNat(k[|k| - 2..]) == ym.month + 1
  {
    KeyParts(ym);
    Pad2Digits(ym.month + 1);
    IntToStringRoundTrip(ym.year);
  }

  /** Distinct months have distinct keys. */
  lemma KeyInjective(a: CalendarMonth, b: CalendarMonth)
    requires Key(a) == Key(b)
    ensures a == b
  {
    KeyParts(a);
    KeyParts(b);
    IntToStringInjective(a.year, b.year);
    assert Pad2(a.month + 1) == Pad2(b.month + 1);
    Pad2Digits(a.month + 1);
    Pad2Digits(b.month + 1);
  }

  /** No month has the key of an invalid date. */
  lemma NaNKeyIsNoMonth(ym: CalendarMonth)
    ensures Key(ym) != NaNKey
  {
    KeyRoundTrip(ym);
  }

  // ---------------------------------------------------------------------------
  // The window of months

  /** One bucket of the chart, for a month: its key, and as label the month number that `toLocaleString` names. */
  datatype Bucket = Bucket(month: CalendarMonth) {
    function key(): string {
      Key(month)
    }

    function labelMonth(): int {
      month.month
    }
  }

  /** The months of `getLastNMonths(n, base)`, oldest first. */
  function WindowMonths(n: int, base: CalendarMonth): (w: seq<CalendarMonth>)
    ensures |w| == if n <= 0 then 0 else n
  {
    if n <= 0 then [] else seq(n, j requires 0 <= j < n => MonthsBefore(base, n - 1 - j))
  }

  function Window(n: int, base: CalendarMonth): seq<Bucket> {
    var w := WindowMonths(n, base);
    seq(|w|, j requires 0 <= j < |w| => Bucket(w[j]))
  }

  /** `getLastNMonths`: push one bucket per month, from `n - 1` months back up to `base`. */
  method GetLastNMonths(n: int, base: CalendarMonth) returns (arr: seq<Bucket>)
    ensures arr == Window(n, base)
  {
    arr := [];
    var i := n - 1;
    while i >= 0
      invariant n <= 0 ==> i == n - 1 && arr == []
      invariant n > 0 ==> -1 <= i < n && |arr| == n - 1 - i
      invariant forall j :: 0 <= j < |arr| ==> arr[j] == Bucket(MonthsBefore(base, n - 1 - j))
      decreases i
    {
      var d := MonthsBefore(base, i);
      arr := arr + [Bucket(d)];
      i := i - 1;
    }
  }

  /** The window ends at `base` and runs through consecutive months, rolling over into the next year after December. */
  lemma WindowConsecutive(n: int, base: CalendarMonth)
    ensures n > 0 ==> WindowMonths(n, base)[n - 1] == base
    ensures forall j :: 0 <= j < n - 1 ==> WindowMonths(n, base)[j + 1] == NextMonth(WindowMonths(n, base)[j])
  {
    var w := WindowMonths(n, base);
    if n > 0 {
      MonthsBeforeSteps(base, 0);
    }
    forall j | 0 <= j < n - 1
      ensures w[j + 1] == NextMonth(w[j])
    {
      MonthsBeforeSteps(base, n - 1 - j);
    }
  }

  /** The buckets of a window have pairwise distinct keys. */
  lemma WindowKeysDistinct(n: int, base: CalendarMonth)
    ensures forall i, j :: 0 <= i < j < |Window(n, base)| ==> Window(n, base)[i].key() != Window(n, base)[j].key()
  {
    var w := WindowMonths(n, base);
    forall i, j | 0 <= i < j < |w|
      ensures Bucket(w[i]).key() != Bucket(w[j]).key()
    {
      assert MonthIndex(w[i]) < MonthIndex(w[j]) by {
        assert w[i] == MonthsBefore(base, n - 1 - i) && w[j] == MonthsBefore(base, n - 1 - j);
      }
      if Key(w[i]) == Key(w[j]) {
        KeyInjective(w[i], w[j]);
      }
    }
  }

  /** The key of an invalid date is in no window. */
  lemma NaNKeyOutsideWindow(n: int, base: CalendarMonth)
    ensures forall j :: 0 <= j < |Window(n, base)| ==> Window(n, base)[j].key() != NaNKey
  {
    var w := WindowMonths(n, base);
    forall j | 0 <= j < |w|
      ensures Key(w[j]) != NaNKey
    {
      NaNKeyIsNoMonth(w[j]);
    }
  }

  // ---------------------------------------------------------------------------
  // Numbers

  /** A JavaScript number: finite, or NaN or an infinity. */
  datatype Numeric = Finite(x: real) | NotFinite

  /** The JavaScript values an amount field can hold. */
  datatype JsValue = JsNumber(n: Numeric) | JsString(s: string) | JsBool(b: bool) | JsNull | JsUndefined

  /** What the model takes from the JavaScript runtime: date parsing and `Number(string)`. */
  datatype Runtime = Runtime(monthOf: string -> Option<CalendarMonth>, number: string -> Numeric)

  /** `Number(v)`, the string case deferred to the runtime. */
  function ToNumber(v: JsValue, rt: Runtime): Numeric {
    match v
    case JsNumber(n) => n
    case JsString(s) => rt.number(s)
    case JsBool(b) => Finite(if b then 1.0 else 0.0)
    case JsNull => Finite(0.0)
    case JsUndefined => NotFinite
  }

  /** `toNum`: the value as a number when that is finite, 0 otherwise. */
  function ToNum(v: JsValue, rt: Runtime): (r: real)
    ensures ToNumber(v, rt).Finite? ==> r == ToNumber(v, rt).x
    ensures ToNumber(v, rt).NotFinite? ==> r == 0.0
    ensures v.JsUndefined? || v.JsNull? || v == JsBool(false) ==> r == 0.0
  {
    match ToNumber(v, rt)
    case Finite(x) => x
    case NotFinite => 0.0
  }

  /** `Math.round` of a finite number: the nearest integer, halves rounded up. */
  function Round(x: real): (r: int)
    ensures r as real - 0.5 <= x < r as real + 0.5
  {
    (x + 0.5).Floor
  }

  lemma RoundMonotone(x: real, y: real)
    requires x <= y
    ensures Round(x) <= Round(y)
  {
  }

  // ---------------------------------------------------------------------------
  // Invoices and payments

  datatype Invoice = Invoice(invoiceDate: string, total: JsValue, status: Option<string>)

  /** A payment; date fields that are `None` are null or undefined. */
  datatype Payment = Payment(amount: JsValue, amountPaid: JsValue,
                             date: Option<string>, paidAt: Option<string>, createdAt: Option<string>)

  function InvoiceKey(iv: Invoice, rt: Runtime): string {
    KeyOf(rt.monthOf(iv.invoiceDate))
  }

  /** `(iv.status ?? '').toLowerCase() === 'paid'`. */
  predicate IsPaid(iv: Invoice) {
    LowerString(iv.status.GetOr("")) == "paid"
  }

  predicate Nullish(v: JsValue) {
    v.JsNull? || v.JsUndefined?
  }

  /** `p.amount ?? p.amount_paid ?? 0`. */
  function PaymentAmount(p: Payment): (v: JsValue)
    ensures !Nullish(p.amount) ==> v == p.amount
    ensures Nullish(p.amount) && !Nullish(p.amountPaid) ==> v == p.amountPaid
    ensures Nullish(p.amount) && Nullish(p.amountPaid) ==> v == JsNumber(Finite(0.0))
  {
    if !Nullish(p.amount) then p.amount
    else if !Nullish(p.amountPaid) then p.amountPaid
    else JsNumber(Finite(0.0))
  }

  predicate Truthy(s: Option<string>) {
    s.Some? && s.value != ""
  }

  /** `p.date || p.paid_at || p.created_at || ''`. */
  function PaymentDate(p: Payment): (d: string)
    ensures Truthy(p.date) ==> d == p.date.value
    ensures !Truthy(p.date) && Truthy(p.paidAt) ==> d == p.paidAt.value
    ensures !Truthy(p.date) && !Truthy(p.paidAt) && Truthy(p.createdAt) ==> d == p.createdAt.value
    ensures !Truthy(p.date) && !Truthy(p.paidAt) && !Truthy(p.createdAt) ==> d == ""
  {
    if Truthy(p.date) then p.date.value
    else if Truthy(p.paidAt) then p.paidAt.value
    else if Truthy(p.createdAt) then p.createdAt.value
    else ""
  }

  /** `s.slice(0, 10)`. */
  function Slice10(s: string): (r: string)
    ensures |r| == if |s| < 10 then |s| else 10
    ensures HasPrefix(s, r)
  {
    if |s| <= 10 then s else s[..10]
  }

  function PaymentKey(p: Payment, rt: Runtime): string {
    KeyOf(rt.monthOf(Slice10(PaymentDate(p))))
  }

  /** The sum of the totals of the invoices whose key is `key`. */
  function IssuedSum(invoices: seq<Invoice>, key: string, rt: Runtime): real {
    if invoices == [] then 0.0
    else
      var iv := invoices[|invoices| - 1];
      IssuedSum(invoices[..|invoices| - 1], key, rt) + (if InvoiceKey(iv, rt) == key then ToNum(iv.total, rt) else 0.0)
  }

  /** The sum of the totals of the paid invoices whose key is `key`. */
  function PaidSum(invoices: seq<Invoice>, key: string, rt: Runtime): real {
    if invoices == [] then 0.0
    else
      var iv := invoices[|invoices| - 1];
      PaidSum(invoices[..|invoices| - 1], key, rt) + (if InvoiceKey(iv, rt) == key && IsPaid(iv) then ToNum(iv.total, rt) else 0.0)
  }

  /** The sum of the amounts of the payments whose key is `key`. */
  function PaymentsSum(payments: seq<Payment>, key: string, rt: Runtime): real {
    if payments == [] then 0.0
    else
      var p := payments[|payments| - 1];
      PaymentsSum(payments[..|payments| - 1], key, rt) + (if PaymentKey(p, rt) == key then ToNum(PaymentAmount(p), rt) else 0.0)
  }

  /** With non-negative totals, the paid sum of a month lies between 0 and its issued sum. */
  lemma {:induction false} PaidAtMostIssued(invoices: seq<Invoice>, key: string, rt: Runtime)
    requires forall i :: 0 <= i < |invoices| ==> ToNum(invoices[i].total, rt) >= 0.0
    ensures 0.0 <= PaidSum(invoices, key, rt) <= IssuedSum(invoices, key, rt)
  {
    if invoices != [] {
      PaidAtMostIssued(invoices[..|invoices| - 1], key, rt);
    }
  }

  /** ... and so after rounding. */
  lemma RoundedPaidAtMostIssued(invoices: seq<Invoice>, key: string, rt: Runtime)
    requires forall i :: 0 <= i < |invoices| ==> ToNum(invoices[i].total, rt) >= 0.0
    ensures 0 <= Round(PaidSum(invoices, key, rt)) <= Round(IssuedSum(invoices, key, rt))
  {
    PaidAtMostIssued(invoices, key, rt);
    RoundMonotone(0.0, PaidSum(invoices, key, rt));
    RoundMonotone(PaidSum(invoices, key, rt), IssuedSum(invoices, key, rt));
  }

  /** An invoice of another month adds nothing to a month's sums. */
  lemma InvoiceOfOtherMonth(invoices: seq<Invoice>, iv: Invoice, key: string, rt: Runtime)
    requires InvoiceKey(iv, rt) != key
    ensures IssuedSum(invoices + [iv], key, rt) == IssuedSum(invoices, key, rt)
    ensures PaidSum(invoices + [iv], key, rt) == PaidSum(invoices, key, rt)
  {
    assert (invoices + [iv])[..|invoices|] == invoices;
  }

  /** A payment of another month adds nothing to a month's sum. */
  lemma PaymentOfOtherMonth(payments: seq<Payment>, p: Payment, key: string, rt: Runtime)
    requires PaymentKey(p, rt) != key
    ensures PaymentsSum(payments + [p], key, rt) == PaymentsSum(payments, key, rt)
  {
    assert (payments + [p])[..|payments|] == payments;
  }

  /** A payment of its own month adds its amount to that month's sum. */
  lemma PaymentOfTheMonth(payments: seq<Payment>, p: Payment, rt: Runtime)
    ensures PaymentsSum(payments + [p], PaymentKey(p, rt), rt) == PaymentsSum(payments, PaymentKey(p, rt), rt) + ToNum(PaymentAmount(p), rt)
  {
    assert (payments + [p])[..|payments|] == payments;
  }

  /** An invoice of the month adds its total to the issued sum, and to the paid sum when it is paid. */
  lemma InvoiceOfTheMonth(invoices: seq<Invoice>, iv: Invoice, key: string, rt: Runtime)
    requires InvoiceKey(iv, rt) == key
    ensures IssuedSum(invoices + [iv], key, rt) == IssuedSum(invoices, key, rt) + ToNum(iv.total, rt)
    ensures PaidSum(invoices + [iv], key, rt) == PaidSum(invoices, key, rt) + (if IsPaid(iv) then ToNum(iv.total, rt) else 0.0)
  {
    assert (invoices + [iv])[..|invoices|] == invoices;
  }

  // ---------------------------------------------------------------------------
  // The series

  datatype Series = Series(labels: seq<int>, paidAmt: seq<int>, issuedAmt: seq<int>, paymentsAmt: seq<int>)

  /** The running amounts of one bucket. */
  datatype Acc = Acc(paid: real, issued: real, payments: real)

  /** `Object.fromEntries(buckets.map(...))`: one zeroed accumulator per bucket key, and no other key. */
  method ZeroAccumulators(buckets: seq<Bucket>) returns (byKey: map<string, Acc>)
    ensures forall j :: 0 <= j < |buckets| ==> buckets[j].key() in byKey
    ensures forall k :: k in byKey ==> byKey[k] == Acc(0.0, 0.0, 0.0)
    ensures forall k :: k in byKey ==> exists j :: 0 <= j < |buckets| && buckets[j].key() == k
  {
    byKey := map[];
    var b := 0;
    while b < |buckets|
      invariant 0 <= b <= |buckets|
      invariant forall j :: 0 <= j < b ==> buckets[j].key() in byKey
      invariant forall k :: k in byKey ==> byKey[k] == Acc(0.0, 0.0, 0.0)
      invariant forall k :: k in byKey ==> exists j :: 0 <= j < b && buckets[j].key() == k
    {
      byKey := byKey[buckets[b].key() := Acc(0.0, 0.0, 0.0)];
      b := b + 1;
    }
  }

  /** One invoice added to its month's accumulator: the total goes to the issued amount, and to the paid amount when paid. */
  function AddInvoice(acc: Acc, iv: Invoice, rt: Runtime): (r: Acc)
    ensures r.payments == acc.payments
  {
    var total := ToNum(iv.total, rt);
    Acc(if IsPaid(iv) then acc.paid + total else acc.paid, acc.issued + total, acc.payments)
  }

  /** `out` holds, for every key of `base`, the invoice sums of `done` and the payments amount of `base`. */
  ghost predicate InvoicesAccumulated(out: map<string, Acc>, base: map<string, Acc>, done: seq<Invoice>, rt: Runtime) {
    && out.Keys == base.Keys
    && forall k :: k in out ==> out[k] == Acc(PaidSum(done, k, rt), IssuedSum(done, k, rt), base[k].payments)
  }

  /** An invoice of another month changes no month's sums: the accumulators stay right as they are. */
  lemma InvoiceStepSkipped(out: map<string, Acc>, base: map<string, Acc>, done: seq<Invoice>, iv: Invoice, rt: Runtime)
    requires InvoicesAccumulated(out, base, done, rt)
    requires InvoiceKey(iv, rt) !in out
    ensures InvoicesAccumulated(out, base, done + [iv], rt)
  {
    forall k | k in out
      ensures out[k] == Acc(PaidSum(done + [iv], k, rt), IssuedSum(done + [iv], k, rt), base[k].payments)
    {
      InvoiceOfOtherMonth(done, iv, k, rt);
    }
  }

  /** An invoice of a month with an accumulator is added there, and no other accumulator changes. */
  lemma InvoiceStepAdded(out: map<string, Acc>, base: map<string, Acc>, done: seq<Invoice>, iv: Invoice, rt: Runtime)
    requires InvoicesAccumulated(out, base, done, rt)
    requires InvoiceKey(iv, rt) in out
    ensures var key := InvoiceKey(iv, rt);
            InvoicesAccumulated(out[key := AddInvoice(out[key], iv, rt)], base, done + [iv], rt)
  {
    var key := InvoiceKey(iv, rt);
    var out' := out[key := AddInvoice(out[key], iv, rt)];
    forall k | k in out'
      ensures out'[k] == Acc(PaidSum(done + [iv], k, rt), IssuedSum(done + [iv], k, rt), base[k].payments)
    {
      if k == key {
        InvoiceOfTheMonth(done, iv, key, rt);
      } else {
        InvoiceOfOtherMonth(done, iv, k, rt);
      }
    }
  }

  /** One pass of the invoice loop: `continue` when the invoice's key has no accumulator, else add the invoice there. */
  method AddOneInvoice(out: map<string, Acc>, base: map<string, Acc>, done: seq<Invoice>, iv: Invoice, rt: Runtime)
    returns (out': map<string, Acc>)
    requires InvoicesAccumulated(out, base, done, rt)
    ensures InvoicesAccumulated(out', base, done + [iv], rt)
  {
    var key := InvoiceKey(iv, rt);
    if key in out {
      InvoiceStepAdded(out, base, done, iv, rt);
      out' := out[key := AddInvoice(out[key], iv, rt)];
    } else {
      InvoiceStepSkipped(out, base, done, iv, rt);
      out' := out;
    }
  }

  /**
   * The invoice loop of `makeSeries`: an invoice whose key has an
   * accumulator adds its total to the issued amount there, and to the paid
   * amount when it is paid; any other invoice is skipped.
   */
  method AddInvoices(byKey: map<string, Acc>, invoices: seq<Invoice>, rt: Runtime) returns (out: map<string, Acc>)
    requires forall k :: k in byKey ==> byKey[k].paid == 0.0 && byKey[k].issued == 0.0
    ensures out.Keys == byKey.Keys
    ensures forall k :: k in out ==>
              out[k] == Acc(PaidSum(invoices, k, rt), IssuedSum(invoices, k, rt), byKey[k].payments)
  {
    out := byKey;
    var i := 0;
    assert InvoicesAccumulated(out, byKey, invoices[..0], rt);
    while i < |invoices|
      invariant 0 <= i <= |invoices|
      invariant InvoicesAccumulated(out, byKey, invoices[..i], rt)
    {
      out := AddOneInvoice(out, byKey, invoices[..i], invoices[i], rt);
      assert invoices[..i + 1] == invoices[..i] + [invoices[i]];
      i := i + 1;
    }
    assert invoices[..|invoices|] == invoices;
  }

  /** `out` holds, for every key of `base`, its invoice amounts and the payments sum of `done`. */
  ghost predicate PaymentsAccumulated(out: map<string, Acc>, base: map<string, Acc>, done: seq<Payment>, rt: Runtime) {
    && out.Keys == base.Keys
    && forall k :: k in out ==> out[k] == base[k].(payments := PaymentsSum(done, k, rt))
  }

  /** A payment of another month changes no month's sum: the accumulators stay right as they are. */
  lemma PaymentStepSkipped(out: map<string, Acc>, base: map<string, Acc>, done: seq<Payment>, p: Payment, rt: Runtime)
    requires PaymentsAccumulated(out, base, done, rt)
    requires PaymentKey(p, rt) !in out
    ensures PaymentsAccumulated(out, base, done + [p], rt)
  {
    forall k | k in out
      ensures out[k] == base[k].(payments := PaymentsSum(done + [p], k, rt))
    {
      PaymentOfOtherMonth(done, p, k, rt);
    }
  }

  /** A payment of a month with an accumulator is added there, and no other accumulator changes. */
  lemma PaymentStepAdded(out: map<string, Acc>, base: map<string, Acc>, done: seq<Payment>, p: Payment, rt: Runtime)
    requires PaymentsAccumulated(out, base, done, rt)
    requires PaymentKey(p, rt) in out
    ensures var key := PaymentKey(p, rt);
            PaymentsAccumulated(out[key := out[key].(payments := out[key].payments + ToNum(PaymentAmount(p), rt))],
                                base, done + [p], rt)
  {
    var key := PaymentKey(p, rt);
    var out' := out[key := out[key].(payments := out[key].payments + ToNum(PaymentAmount(p), rt))];
    forall k | k in out'
      ensures out'[k] == base[k].(payments := PaymentsSum(done + [p], k, rt))
    {
      if k == key {
        PaymentOfTheMonth(done, p, rt);
      } else {
        PaymentOfOtherMonth(done, p, k, rt);
      }
    }
  }

  /** One pass of the payment loop: `continue` when the payment's key has no accumulator, else add its amount there. */
  method AddOnePayment(out: map<string, Acc>, base: map<string, Acc>, done: seq<Payment>, p: Payment, rt: Runtime)
    returns (out': map<string, Acc>)
    requires PaymentsAccumulated(out, base, done, rt)
    ensures PaymentsAccumulated(out', base, done + [p], rt)
  {
    var key := PaymentKey(p, rt);
    if key in out {
      PaymentStepAdded(out, base, done, p, rt);
      var acc := out[key];
      out' := out[key := acc.(payments := acc.payments + ToNum(PaymentAmount(p), rt))];
    } else {
      PaymentStepSkipped(out, base, done, p, rt);
      out' := out;
    }
  }

  /**
   * The payment loop of `makeSeries`: a payment whose key has an
   * accumulator adds its amount to the payments amount there; any other
   * payment is skipped.
   */
  method AddPayments(byKey: map<string, Acc>, payments: seq<Payment>, rt: Runtime) returns (out: map<string, Acc>)
    requires forall k :: k in byKey ==> byKey[k].payments == 0.0
    ensures out.Keys == byKey.Keys
    ensures forall k :: k in out ==> out[k] == byKey[k].(payments := PaymentsSum(payments, k, rt))
  {
    out := byKey;
    var q := 0;
    assert PaymentsAccumulated(out, byKey, payments[..0], rt);
    while q < |payments|
      invariant 0 <= q <= |payments|
      invariant PaymentsAccumulated(out, byKey, payments[..q], rt)
    {
      out := AddOnePayment(out, byKey, payments[..q], payments[q], rt);
      assert payments[..q + 1] == payments[..q] + [payments[q]];
      q := q + 1;
    }
    assert payments[..|payments|] == payments;
  }

  /**
   * `makeSeries` for the month `now`: the buckets of the last `n` months,
   * each with the rounded paid, issued and payment amounts of its month.
   */
  method MakeSeries(invoices: seq<Invoice>, payments: seq<Payment>, n: int, now: CalendarMonth, rt: Runtime)
    returns (s: Series)
    ensures var w := Window(n, now);
            && |s.labels| == |w| && |s.paidAmt| == |w| && |s.issuedAmt| == |w| && |s.paymentsAmt| == |w|
            && forall j :: 0 <= j < |w| ==>
                 && s.labels[j] == w[j].labelMonth()
                 && s.paidAmt[j] == Round(PaidSum(invoices, w[j].key(), rt))
                 && s.issuedAmt[j] == Round(IssuedSum(invoices, w[j].key(), rt))
                 && s.paymentsAmt[j] == Round(PaymentsSum(payments, w[j].key(), rt))
  {
    var buckets := GetLastNMonths(n, now);
    var byKey := ZeroAccumulators(buckets);
    byKey := AddInvoices(byKey, invoices, rt);
    byKey := AddPayments(byKey, payments, rt);
    s := ReadOut(buckets, byKey);
  }

  /** The `return` of `makeSeries`: each bucket's label and its rounded amounts, in bucket order. */
  function ReadOut(buckets: seq<Bucket>, byKey: map<string, Acc>): (s: Series)
    requires forall j :: 0 <= j < |buckets| ==> buckets[j].key() in byKey
    ensures |s.labels| == |buckets| && |s.paidAmt| == |buckets| && |s.issuedAmt| == |buckets| && |s.paymentsAmt| == |buckets|
    ensures forall j :: 0 <= j < |buckets| ==>
              && s.labels[j] == buckets[j].labelMonth()
              && s.paidAmt[j] == Round(byKey[buckets[j].key()].paid)
              && s.issuedAmt[j] == Round(byKey[buckets[j].key()].issued)
              && s.paymentsAmt[j] == Round(byKey[buckets[j].key()].payments)
  {
    Series(
      seq(|buckets|, j requires 0 <= j < |buckets| => buckets[j].labelMonth()),
      seq(|buckets|, j requires 0 <= j < |buckets| => Round(byKey[buckets[j].key()].paid)),
      seq(|buckets|, j requires 0 <= j < |buckets| => Round(byKey[buckets[j].key()].issued)),
      seq(|buckets|, j requires 0 <= j < |buckets| => Round(byKey[buckets[j].key()].payments)))
  }

  // ---------------------------------------------------------------------------
  // Colours

  function HexDigitValue(c: char): (v: int)
    ensures 0 <= v < 16 || v == -1
    ensures v == -1 <==> !('0' <= c <= '9' || 'a' <= c <= 'f' || 'A' <= c <= 'F')
    ensures '0' <= c <= '9' ==> v == c as int - '0' as int
    ensures 'a' <= c <= 'f' || 'A' <= c <= 'F' ==> v == 10 + (ToLower(c) as int - 'a' as int)
  {
    if '0' <= c <= '9' then c as int - '0' as int
    else if 'a' <= c <= 'f' then c as int - 'a' as int + 10
    else if 'A' <= c <= 'F' then c as int - 'A' as int + 10
    else -1
  }

  predicate IsHexDigit(c: char) {
    HexDigitValue(c) >= 0
  }

  /** The longest prefix of `s` made of hexadecimal digits. */
  function HexPrefix(s: string): (p: string)
    ensures HasPrefix(s, p)
    ensures forall i :: 0 <= i < |p| ==> IsHexDigit(p[i])
    ensures |p| < |s| ==> !IsHexDigit(s[|p|])
  {
    if s == [] || !IsHexDigit(s[0]) then [] else [s[0]] + HexPrefix(s[1..])
  }

  /** The value of a string of hexadecimal digits. */
  function HexValue(ds: string): (v: nat)
    requires forall i :: 0 <= i < |ds| ==> IsHexDigit(ds[i])
  {
    if ds == [] then 0
    else
      assert IsHexDigit(ds[|ds| - 1]);
      16 * HexValue(ds[..|ds| - 1]) + HexDigitValue(ds[|ds| - 1])
  }

  /**
   * `parseInt(s, 16)`: skip leading white space, then read the rest with
   * `ParseHexAfterSpace`; `None` stands for NaN.
   */
  function ParseHex(s: string): Option<int> {
    ParseHexAfterSpace(TrimStart(s, IsJsSpace))
  }

  /** An optional sign, an optional `0x`/`0X`, then the longest run of hexadecimal digits; `None` when there is none. */
  function ParseHexAfterSpace(t: string): Option<int> {
    var neg := t != [] && t[0] == '-';
    var t1 := if t != [] && (t[0] == '-' || t[0] == '+') then t[1..] else t;
    var t2 := if |t1| >= 2 && t1[0] == '0' && (t1[1] == 'x' || t1[1] == 'X') then t1[2..] else t1;
    var ds := HexPrefix(t2);
    if ds == [] then None else Some(if neg then -(HexValue(ds) as int) else HexValue(ds))
  }

  lemma HexDigitIsPlain(c: char)
    requires IsHexDigit(c)
    ensures !IsJsSpace(c) && c != '-' && c != '+' && c != 'x' && c != 'X'
  {
  }

  /** Two hexadecimal digits read as one byte. */
  lemma ParseHexPair(a: char, b: char)
    requires IsHexDigit(a) && IsHexDigit(b)
    ensures ParseHex([a, b]) == Some(16 * HexDigitValue(a) + HexDigitValue(b))
    ensures 0 <= 16 * HexDigitValue(a) + HexDigitValue(b) <= 255
  {
    var s := [a, b];
    HexDigitIsPlain(a);
    HexDigitIsPlain(b);
    TrimStartNonSpace(s, IsJsSpace);
    assert HexPrefix(s) == s by {
      assert s[1..] == [b];
      assert HexPrefix([b]) == [b];
    }
    assert HexValue(s) == 16 * HexDigitValue(a) + HexDigitValue(b) by {
      assert s[..1] == [a] && [a][..0] == [];
      assert HexValue([a]) == HexDigitValue(a);
    }
    assert ParseHexAfterSpace(s) == Some(HexValue(s));
  }

  /** `hex.replace('#', '')`: the first `#` removed. */
  function RemoveFirstHash(hex: string): (h: string)
    ensures '#' !in hex ==> h == hex
    ensures |hex| >= 1 && hex[0] == '#' ==> h == hex[1..]
  {
    var k := IndexOf(hex, '#');
    if k == -1 then hex else hex[..k] + hex[k + 1..]
  }

  /** The components `rgba` renders; `None` stands for NaN. */
  datatype Rgba = Rgba(r: Option<int>, g: Option<int>, b: Option<int>, alpha: real)

  /** `rgba(hex, a)`: three digits are each doubled, otherwise the digits are read in pairs. */
  function ToRgba(hex: string, a: real): Rgba {
    var h := RemoveFirstHash(hex);
    if |h| == 3 then
      Rgba(ParseHex([h[0], h[0]]), ParseHex([h[1], h[1]]), ParseHex([h[2], h[2]]), a)
    else
      Rgba(ParseHex(Slice(h, 0, 2)), ParseHex(Slice(h, 2, 4)), ParseHex(Slice(h, 4, 6)), a)
  }

  /** `s.slice(i, j)` for `0 <= i <= j`. */
  function Slice(s: string, i: nat, j: nat): (r: string)
    requires i <= j
    ensures j <= |s| ==> r == s[i..j]
    ensures i < |s| < j ==> r == s[i..]
    ensures i >= |s| ==> r == []
  {
    if i >= |s| then [] else if j >= |s| then s[i..] else s[i..j]
  }

  /** `#rgb` reads each digit doubled. */
  lemma ToRgbaShort(x: char, y: char, z: char, a: real)
    ensures ToRgba(['#', x, y, z], a) == Rgba(ParseHex([x, x]), ParseHex([y, y]), ParseHex([z, z]), a)
  {
    assert RemoveFirstHash(['#', x, y, z]) == [x, y, z];
  }

  /** `#rrggbb` reads the digits in pairs. */
  lemma ToRgbaLong(x1: char, x2: char, y1: char, y2: char, z1: char, z2: char, a: real)
    ensures ToRgba(['#', x1, x2, y1, y2, z1, z2], a) == Rgba(ParseHex([x1, x2]), ParseHex([y1, y2]), ParseHex([z1, z2]), a)
  {
    var h := [x1, x2, y1, y2, z1, z2];
    assert RemoveFirstHash(['#'] + h) == h;
    assert ['#'] + h == ['#', x1, x2, y1, y2, z1, z2];
    assert h[0..2] == [x1, x2] && h[2..4] == [y1, y2] && h[4..6] == [z1, z2];
  }

  /** `#rgb` gives each component as its digit read twice over, in 0..255. */
  lemma RgbaShortForm(x: char, y: char, z: char, a: real)
    requires IsHexDigit(x) && IsHexDigit(y) && IsHexDigit(z)
    ensures var c := ToRgba(['#', x, y, z], a);
            && c.r == Some(16 * HexDigitValue(x) + HexDigitValue(x))
            && c.g == Some(16 * HexDigitValue(y) + HexDigitValue(y))
            && c.b == Some(16 * HexDigitValue(z) + HexDigitValue(z))
            && 0 <= c.r.value <= 255 && 0 <= c.g.value <= 255 && 0 <= c.b.value <= 255
            && c.alpha == a
  {
    ToRgbaShort(x, y, z, a);
    ParseHexPair(x, x);
    ParseHexPair(y, y);
    ParseHexPair(z, z);
  }

  /** `#rrggbb` gives each component from its pair of digits, in 0..255. */
  lemma RgbaLongForm(x1: char, x2: char, y1: char, y2: char, z1: char, z2: char, a: real)
    requires IsHexDigit(x1) && IsHexDigit(x2) && IsHexDigit(y1) && IsHexDigit(y2) && IsHexDigit(z1) && IsHexDigit(z2)
    ensures var c := ToRgba(['#', x1, x2, y1, y2, z1, z2], a);
            && c.r == Some(16 * HexDigitValue(x1) + HexDigitValue(x2))
            && c.g == Some(16 * HexDigitValue(y1) + HexDigitValue(y2))
            && c.b == Some(16 * HexDigitValue(z1) + HexDigitValue(z2))
            && 0 <= c.r.value <= 255 && 0 <= c.g.value <= 255 && 0 <= c.b.value <= 255
            && c.alpha == a
  {
    ToRgbaLong(x1, x2, y1, y2, z1, z2, a);
    ParseHexPair(x1, x2);
    ParseHexPair(y1, y2);
    ParseHexPair(z1, z2);
  }

  // ---------------------------------------------------------------------------
  // Clamp

  /** `clamp(v, min, max)` = `Math.max(min, Math.min(v, max))`. */
  function Clamp(v: real, lo: real, hi: real): (r: real)
    ensures lo <= hi ==> lo <= r <= hi
    ensures lo <= v <= hi ==> r == v
    ensures lo > hi ==> r == lo
    ensures v < lo ==> r == lo
    ensures lo <= hi < v ==> r == hi
  {
    var m := if v < hi then v else hi;
    if lo > m then lo else m
  }
}
