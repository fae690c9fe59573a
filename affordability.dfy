/** The affordability tab: the price of a 70 m² flat and the years of
    saving it takes, and the loan simulator (total price, amount borrowed,
    fixed-rate monthly instalment, debt ratio and saving time). */
module Affordability {
  import opened Catalog

  /** The reference flat of the indicator charts, in m². */
  const FlatSurface: int := 70

  /** The monthly saving assumed by the indicator charts, in euros. */
  const ReferenceSaving: int := 2000

  /** The monthly income the debt ratio is taken against, in euros. */
  const ReferenceIncome: real := 2000.0

  /** Price of a 70 m² flat in the commune. */
  function FlatPrice(c: Commune): (euros: int)
  {
    c.price * FlatSurface
  }

  /** Rent of a 70 m² flat in the commune. */
  function FlatRent(c: Commune): (euros: real)
  {
    c.rent * FlatSurface as real
  }

  /** Years of saving 2000 € a month it takes to pay a 70 m² flat outright. */
  function SavingYears(c: Commune): (years: real)
  {
    FlatPrice(c) as real / (ReferenceSaving * 12) as real
  }

  /** The derived columns order the communes as the price per m² does, so a
      ranking on either of them is a ranking on price; and a year of the
      reference saving pays for exactly one year's worth of the flat price. */
  lemma FlatColumnsFollowPrice(a: Commune, b: Commune)
    ensures a.price <= b.price <==> FlatPrice(a) <= FlatPrice(b)
    ensures a.price <= b.price <==> SavingYears(a) <= SavingYears(b)
    ensures SavingYears(a) * 24000.0 == FlatPrice(a) as real
  {
  }

  // ---------------------------------------------------------------------
  // The loan simulator.

  /** `x` to the power `n`. */
  function Pow(x: real, n: nat): (p: real)
  {
    if n == 0 then 1.0 else x * Pow(x, n - 1)
  }

  /** Growth at a positive rate: `(1 + r)^n` exceeds 1 as soon as `n >= 1`. */
  lemma {:induction false} PowAboveOne(x: real, n: nat)
    requires x > 1.0
    ensures Pow(x, n) >= 1.0
    ensures n >= 1 ==> Pow(x, n) > 1.0
  {
    if n > 0 {
      PowAboveOne(x, n - 1);
      assert x * Pow(x, n - 1) >= x * 1.0;
    }
  }

  /** The failures of the simulator: a zero-month loan, where the source
      divides by zero, and a commune name that is not in the table, where
      the source's `iloc[0]` on an empty selection fails. */
  datatype LoanError = NoInstalments | UnknownCommune

  datatype Result<T> = Ok(value: T) | Err(error: LoanError)

  /** Total price of `surface` m² at the commune's price per m². */
  function TotalPrice(pricePerM2: int, surface: int): (total: int)
  {
    pricePerM2 * surface
  }

  /** The amount borrowed: the total price less the down payment, with no
      guard, so it is negative when the down payment exceeds the price. */
  function Principal(pricePerM2: int, surface: int, downPayment: int): (principal: int)
  {
    TotalPrice(pricePerM2, surface) - downPayment
  }

  lemma PrincipalSign(pricePerM2: int, surface: int, downPayment: int)
    ensures Principal(pricePerM2, surface, downPayment) < 0
       <==> downPayment > TotalPrice(pricePerM2, surface)
    ensures Principal(pricePerM2, surface, downPayment) + downPayment == pricePerM2 * surface
  {
  }

  /** The monthly rate of a yearly percentage. */
  function MonthlyRate(annualPercent: real): (r: real)
  {
    annualPercent / 100.0 / 12.0
  }

  /** A quotient of positives whose numerator exceeds its denominator
      exceeds one. */
  lemma QuotientAboveOne(a: real, b: real)
    requires 0.0 < b < a
    ensures a / b > 1.0
  {
    var q := a / b;
    assert (q - 1.0) * b == a - b;
  }

  lemma ScaleStrict(a: real, b: real, c: real)
    requires a > 0.0 && b > c
    ensures a * b > a * c
  {
    assert a * b - a * c == a * (b - c);
  }

  /** The annuity factor at monthly rate `r` for a compounded growth `g`. */
  function AnnuityFactor(r: real, g: real): (f: real)
    requires g > 1.0
  {
    r * (g / (g - 1.0))
  }

  lemma FactorAboveRate(r: real, g: real)
    requires r > 0.0 && g > 1.0
    ensures AnnuityFactor(r, g) > r
  {
    QuotientAboveOne(g, g - 1.0);
    ScaleStrict(r, g / (g - 1.0), 1.0);
  }

  /** What one euro borrowed costs per month over `n` months at monthly rate
      `r`: the annuity factor `r (1+r)^n / ((1+r)^n - 1)` for a positive
      rate, `1 / n` otherwise. At a positive rate it exceeds the rate
      itself: every instalment pays the month's interest and some capital. */
  function PaymentFactor(r: real, n: nat): (f: real)
    requires n >= 1
    ensures r <= 0.0 ==> f * n as real == 1.0
    ensures r > 0.0 ==> f > r
  {
    if r > 0.0 then
      PowAboveOne(1.0 + r, n);
      FactorAboveRate(r, Pow(1.0 + r, n));
      AnnuityFactor(r, Pow(1.0 + r, n))
    else 1.0 / n as real
  }

  /** The annuity formula for a loan of `principal` at monthly rate `r`,
      where `growth` is the compounded growth `(1+r)^n` over the term. */
  function Annuity(principal: real, r: real, growth: real): (payment: real)
    requires growth > 1.0
  {
    principal * r * growth / (growth - 1.0)
  }

  /** The monthly instalment of a fixed-rate loan of `principal` over `n`
      months at monthly rate `r`; at a rate of zero or below the source
      falls back to `principal / n`. Zero months fails, as the source's
      division by zero does. */
  function MonthlyPayment(principal: real, r: real, n: nat): (m: Result<real>)
    ensures m.Err? <==> n == 0
    ensures m.Ok? && r <= 0.0 ==> m.value * n as real == principal
  {
    if n == 0 then Err(NoInstalments)
    else if r > 0.0 then
      PowAboveOne(1.0 + r, n);
      Ok(Annuity(principal, r, Pow(1.0 + r, n)))
    else Ok(principal / n as real)
  }

  /** The annuity denominator `(1+r)^n - 1` is positive for a positive rate
      and at least one month, so the division in the instalment is defined. */
  lemma AnnuityDenominatorPositive(r: real, n: nat)
    requires r > 0.0 && n >= 1
    ensures Pow(1.0 + r, n) - 1.0 > 0.0
  {
    PowAboveOne(1.0 + r, n);
  }

  lemma AnnuityScales(p: real, r: real, g: real)
    requires g > 1.0
    ensures Annuity(p, r, g) == p * AnnuityFactor(r, g)
  {
  }

  lemma DivisionScales(p: real, k: real)
    requires k != 0.0
    ensures p / k == p * (1.0 / k)
  {
  }

  /** The instalment is the principal times the annuity factor. */
  lemma FactorForm(p: real, r: real, n: nat)
    requires n >= 1
    ensures MonthlyPayment(p, r, n).value == p * PaymentFactor(r, n)
  {
    if r > 0.0 {
      PowAboveOne(1.0 + r, n);
      AnnuityScales(p, r, Pow(1.0 + r, n));
    } else {
      DivisionScales(p, n as real);
      var f := PaymentFactor(r, n);
      assert f == 1.0 / n as real;
      assert p * f == p * (1.0 / n as real);
    }
  }

  /** The instalment is linear in the principal: borrowing `a p + q` costs
      `a` times the instalment of `p` plus that of `q`. */
  lemma PaymentIsLinear(p: real, q: real, a: real, r: real, n: nat)
    requires n >= 1
    ensures MonthlyPayment(a * p + q, r, n).value
         == a * MonthlyPayment(p, r, n).value + MonthlyPayment(q, r, n).value
  {
    FactorForm(p, r, n);
    FactorForm(q, r, n);
    FactorForm(a * p + q, r, n);
    Distribute(a, p, q, PaymentFactor(r, n));
  }

  lemma Distribute(a: real, p: real, q: real, f: real)
    ensures (a * p + q) * f == a * (p * f) + q * f
  {
  }

  /** At a positive rate each instalment of a positive loan exceeds the
      first month's interest. */
  lemma PaymentAboveInterest(principal: real, r: real, n: nat)
    requires principal > 0.0 && r > 0.0 && n >= 1
    ensures MonthlyPayment(principal, r, n).value > principal * r
  {
    FactorForm(principal, r, n);
    ScaleStrict(principal, PaymentFactor(r, n), r);
  }

  /** Compound growth outpaces its linear bound from below:
      `(1+r)^n - 1 < n r (1+r)^n` for a positive rate and `n >= 1`. */
  lemma {:induction false} GrowthBelowLinear(r: real, n: nat)
    requires r > 0.0 && n >= 1
    ensures Pow(1.0 + r, n) - 1.0 < n as real * r * Pow(1.0 + r, n)
  {
    if n == 1 {
      assert Pow(1.0 + r, n) == (1.0 + r) * Pow(1.0 + r, 0) == 1.0 + r;
      GrowthOneMonth(r, Pow(1.0 + r, n), n as real);
    } else {
      GrowthBelowLinear(r, n - 1);
      PowAboveOne(1.0 + r, n - 1);
      GrowthNextMonth(r, Pow(1.0 + r, n - 1), (n - 1) as real, Pow(1.0 + r, n), n as real);
    }
  }

  lemma GrowthOneMonth(r: real, g: real, k: real)
    requires r > 0.0 && g == 1.0 + r && k == 1.0
    ensures g - 1.0 < k * r * g
  {
    ScaleStrict(r, g, 1.0);
  }

  /** One more month: if `g - 1 < m r g` then, for `big = (1+r) g`,
      `big - 1 < (m+1) r big`. */
  lemma GrowthNextMonth(r: real, g: real, m: real, big: real, k: real)
    requires r > 0.0 && g >= 1.0 && g - 1.0 < m * r * g
    requires big == (1.0 + r) * g && k == m + 1.0
    ensures big - 1.0 < k * r * big
  {
    var x := 1.0 + r;
    // the hypothesis, scaled by x
    ScaleStrict(x, m * r * g, g - 1.0);
    assert x * (m * r * g) == m * r * big;
    assert x * (g - 1.0) == big - x;
    // one more month of interest on at least one euro
    assert big - 1.0 >= 0.0 by {
      assert big - 1.0 == (x - 1.0) * g + (g - 1.0);
      assert (x - 1.0) * g >= 0.0;
    }
    assert r * big - r == r * (big - 1.0) >= 0.0;
    assert k * r * big == m * r * big + r * big;
  }

  /** A positive loan repaid over `k` months at the annuity instalment
      costs more than the principal, when the growth `g` over the term
      stays below its linear bound `k r g`. */
  lemma AnnuityExceedsEvenSplit(p: real, r: real, g: real, k: real)
    requires p > 0.0 && r > 0.0 && g > 1.0 && g - 1.0 < k * r * g
    ensures Annuity(p, r, g) * k > p
  {
    QuotientAboveOne(k * r * g, g - 1.0);
    var q := (k * r * g) / (g - 1.0);
    assert Annuity(p, r, g) * k == p * q;
    ScaleStrict(p, q, 1.0);
  }

  /** With interest, the `n` instalments repay more than the principal:
      each one exceeds the interest-free instalment `principal / n`. */
  lemma InterestCostsSomething(principal: real, r: real, n: nat)
    requires principal > 0.0 && r > 0.0 && n >= 1
    ensures MonthlyPayment(principal, r, n).value * n as real > principal
  {
    PowAboveOne(1.0 + r, n);
    GrowthBelowLinear(r, n);
    AnnuityExceedsEvenSplit(principal, r, Pow(1.0 + r, n), n as real);
  }

  /** The debt ratio, in percent of the reference income. */
  function DebtRatio(payment: real): (percent: real)
  {
    payment / ReferenceIncome * 100.0
  }

  /** Years of saving `monthlySaving` a month it takes to gather the down
      payment. */
  function SavingDuration(downPayment: int, monthlySaving: int): (years: real)
    requires monthlySaving > 0
  {
    downPayment as real / monthlySaving as real / 12.0
  }

  /** The figures the loan simulator shows. */
  datatype Simulation = Simulation(
    totalPrice: int,
    principal: int,
    payment: real,
    debtRatio: real,
    savingDuration: real)

  /** The first row of the table named `name`. */
  function Lookup(cs: seq<Commune>, name: string): (r: Result<Commune>)
    ensures r.Err? <==> forall c :: c in cs ==> c.name != name
    ensures r.Err? ==> r.error == UnknownCommune
    ensures r.Ok? ==> exists i :: 0 <= i < |cs| && cs[i] == r.value && r.value.name == name
                                 && forall j :: 0 <= j < i ==> cs[j].name != name
  {
    if cs == [] then Err(UnknownCommune)
    else if cs[0].name == name then Ok(cs[0])
    else
      var r := Lookup(cs[1..], name);
      assert forall c :: c in cs ==> c == cs[0] || c in cs[1..];
      if r.Ok? then
        var i :| 0 <= i < |cs[1..]| && cs[1..][i] == r.value && r.value.name == name
                 && forall j :: 0 <= j < i ==> cs[1..][j].name != name;
        assert cs[i + 1] == r.value;
        assert forall j :: 0 <= j < i + 1 ==> cs[j].name != name by {
          forall j | 0 <= j < i + 1 ensures cs[j].name != name {
            if j > 0 { assert cs[j] == cs[1..][j - 1]; }
          }
        }
        r
      else r
  }

  /** The simulator for the commune named `name` in the table, a surface,
      a down payment, a monthly saving, a loan term in years and a yearly
      rate in percent. */
  function Simulate(cs: seq<Commune>, name: string, surface: int, downPayment: int,
                    monthlySaving: int, years: nat, annualPercent: real): (s: Result<Simulation>)
    requires monthlySaving > 0
    ensures s.Err? <==> years == 0 || Lookup(cs, name).Err?
    ensures s.Ok? ==>
      && s.value.totalPrice == Lookup(cs, name).value.price * surface
      && s.value.principal + downPayment == s.value.totalPrice
      && s.value.payment == MonthlyPayment(s.value.principal as real, MonthlyRate(annualPercent), years * 12).value
      && (annualPercent <= 0.0 ==> s.value.payment * (years * 12) as real == s.value.principal as real)
      && s.value.debtRatio * ReferenceIncome == s.value.payment * 100.0
      && s.value.savingDuration * 12.0 * monthlySaving as real == downPayment as real
  {
    match Lookup(cs, name)
    case Err(e) => Err(e)
    case Ok(c) =>
      var total := TotalPrice(c.price, surface);
      var principal := Principal(c.price, surface, downPayment);
      match MonthlyPayment(principal as real, MonthlyRate(annualPercent), years * 12)
      case Err(e) => Err(e)
      case Ok(payment) =>
        Ok(Simulation(total, principal, payment, DebtRatio(payment),
                      SavingDuration(downPayment, monthlySaving)))
  }

  /** At any positive rate the simulated loan costs interest: the
      instalments over the whole term repay more than the amount borrowed,
      and the instalment exceeds the first month's interest. */
  lemma SimulatedLoanCostsInterest(cs: seq<Commune>, name: string, surface: int, downPayment: int,
                                   monthlySaving: int, years: nat, annualPercent: real)
    requires monthlySaving > 0 && annualPercent > 0.0
    requires Simulate(cs, name, surface, downPayment, monthlySaving, years, annualPercent).Ok?
    requires Simulate(cs, name, surface, downPayment, monthlySaving, years, annualPercent).value.principal > 0
    ensures var s := Simulate(cs, name, surface, downPayment, monthlySaving, years, annualPercent).value;
      && s.payment * (years * 12) as real > s.principal as real
      && s.payment > s.principal as real * MonthlyRate(annualPercent)
  {
    var s := Simulate(cs, name, surface, downPayment, monthlySaving, years, annualPercent).value;
    InterestCostsSomething(s.principal as real, MonthlyRate(annualPercent), years * 12);
    PaymentAboveInterest(s.principal as real, MonthlyRate(annualPercent), years * 12);
  }

  /** The simulator's default inputs on Saint-Denis: a 70 m² flat at
      3200 €/m², 20000 € down, 1000 € saved a month, 20 years at 3 %. */
  lemma SaintDenisDefaults()
    ensures var s := Simulate(CommunesData(), "Saint-Denis", 70, 20000, 1000, 20, 3.0);
      && s.Ok?
      && s.value.totalPrice == 224000
      && s.value.principal == 204000
      && s.value.savingDuration * 3.0 == 5.0
  {
    assert Lookup(CommunesData(), "Saint-Denis") == Ok(SaintDenis());
  }
}
