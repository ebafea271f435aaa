/** The payroll withholding calculator behind `payroll.calculate`: progressive
    Dutch wage tax over a bracket table, the optional 30% ruling, capped social
    security, and net salary. Every jurisdiction other than "NL" withholds
    nothing. */
module Payroll {
  import opened Basics

  /** One row of a wage-tax table: from `threshold` (minor units, used exactly
      as stored) upwards income is taxed at `rate`. */
  datatype Bracket = Bracket(threshold: int, rate: real)

  datatype RuleType =
    | WageTax | SocialSecurity | ThirtyPercentRuling | Vat | CorporationTax | DoubleTaxationTreaty

  /** The parsed `ruleDetailsJson` of a tax rule, shaped by its rule type. A
      wage-tax payload without a `brackets` key is `WageTaxDetails([])`. */
  datatype RuleDetails =
    | WageTaxDetails(brackets: seq<Bracket>)
    | SocialSecurityDetails(employeeRate: real, employerRate: real, maxIncome: real)
    | ThirtyPercentRulingDetails(taxFreePercentage: real)
    | VatDetails
    | CorporationTaxDetails
    | DoubleTaxationTreatyDetails

  datatype TaxRule = TaxRule(validFrom: int, details: RuleDetails) {
    function Type(): RuleType {
      match details
      case WageTaxDetails(_) => WageTax
      case SocialSecurityDetails(_, _, _) => SocialSecurity
      case ThirtyPercentRulingDetails(_) => ThirtyPercentRuling
      case VatDetails => Vat
      case CorporationTaxDetails => CorporationTax
      case DoubleTaxationTreatyDetails => DoubleTaxationTreaty
    }
  }

  /** The integer record `payroll.calculate` stores, before the /100 conversion. */
  datatype Payslip = Payslip(grossSalary: int, wageTax: int, socialSecurity: int, netSalary: int)

  /** The figures `payroll.calculate` returns, in major units. */
  datatype PayrollResponse = PayrollResponse(grossSalary: real, wageTax: real, socialSecurity: real, netSalary: real)

  /** Each stored figure divided by 100; the net identity carries over. */
  function Respond(slip: Payslip): (r: PayrollResponse)
    ensures r.grossSalary * 100.0 == slip.grossSalary as real && r.wageTax * 100.0 == slip.wageTax as real
    ensures r.socialSecurity * 100.0 == slip.socialSecurity as real && r.netSalary * 100.0 == slip.netSalary as real
    ensures slip.netSalary == slip.grossSalary - slip.wageTax - slip.socialSecurity
            ==> r.netSalary == r.grossSalary - r.wageTax - r.socialSecurity
  {
    PayrollResponse(slip.grossSalary as real / 100.0, slip.wageTax as real / 100.0,
                    slip.socialSecurity as real / 100.0, slip.netSalary as real / 100.0)
  }

  // ---------------------------------------------------------------------------
  // Rule lookup

  /** `rules.find(r => r.ruleType === t)`: the first rule of type `t`. */
  function FindRule(rules: seq<TaxRule>, t: RuleType): (r: Option<TaxRule>)
    ensures r.None? <==> forall i :: 0 <= i < |rules| ==> rules[i].Type() != t
    ensures r.Some? ==> exists i :: 0 <= i < |rules| && rules[i] == r.value && rules[i].Type() == t
                                    && forall j :: 0 <= j < i ==> rules[j].Type() != t
  {
    if |rules| == 0 then None
    else if rules[0].Type() == t then Some(rules[0])
    else
      var r := FindRule(rules[1..], t);
      assert r.Some? ==> exists i :: 0 <= i < |rules[1..]| && rules[1..][i] == r.value && rules[1..][i].Type() == t
                                    && forall j :: 0 <= j < i ==> rules[1..][j].Type() != t;
      assert r.Some? ==> exists i :: 1 <= i < |rules| && rules[i] == r.value && rules[i].Type() == t
                                    && forall j :: 0 <= j < i ==> rules[j].Type() != t by {
        if r.Some? {
          var i :| 0 <= i < |rules[1..]| && rules[1..][i] == r.value && rules[1..][i].Type() == t
                   && forall j :: 0 <= j < i ==> rules[1..][j].Type() != t;
          assert forall j :: 0 <= j < i + 1 ==> rules[j].Type() != t by {
            forall j | 0 <= j < i + 1 ensures rules[j].Type() != t {
              if j > 0 { assert rules[j] == rules[1..][j - 1]; }
            }
          }
        }
      }
      r
  }

  /** The order the rule store returns active rules in: latest `validFrom` first. */
  ghost predicate NewestFirst(rules: seq<TaxRule>) {
    forall i, j :: 0 <= i < j < |rules| ==> rules[i].validFrom >= rules[j].validFrom
  }

  // ---------------------------------------------------------------------------
  // Progressive wage tax

  /** `brackets[i + 1]?.threshold || Infinity`: `None` stands for Infinity,
      which is what both a missing next bracket and a next threshold of 0 give. */
  function NextThreshold(brackets: seq<Bracket>, i: nat): (r: Option<int>)
    ensures r.None? <==> i + 1 >= |brackets| || brackets[i + 1].threshold == 0
    ensures r.Some? ==> r.value == brackets[i + 1].threshold && r.value != 0
  {
    if i + 1 < |brackets| && brackets[i + 1].threshold != 0 then Some(brackets[i + 1].threshold)
    else None
  }

  /** The part of `taxable` that falls into bracket `i`. */
  function BracketIncome(brackets: seq<Bracket>, i: nat, taxable: int): int
    requires i < |brackets|
  {
    var above := Max(taxable - brackets[i].threshold, 0);
    match NextThreshold(brackets, i)
    case None => above
    case Some(next) => Min(above, next - brackets[i].threshold)
  }

  function BracketTax(brackets: seq<Bracket>, i: nat, taxable: int): int
    requires i < |brackets|
  {
    Round(BracketIncome(brackets, i, taxable) as real * brackets[i].rate)
  }

  /** The tax of the first `n` brackets, as the loop has accumulated it after `n` rounds. */
  function WageTaxUpTo(brackets: seq<Bracket>, taxable: int, n: nat): int
    requires n <= |brackets|
  {
    if n == 0 then 0 else WageTaxUpTo(brackets, taxable, n - 1) + BracketTax(brackets, n - 1, taxable)
  }

  function ProgressiveTax(brackets: seq<Bracket>, taxable: int): int {
    WageTaxUpTo(brackets, taxable, |brackets|)
  }

  /** Thresholds ascending, as a wage-tax table is meant to be. */
  ghost predicate Ascending(brackets: seq<Bracket>) {
    forall i, j :: 0 <= i < j < |brackets| ==> brackets[i].threshold <= brackets[j].threshold
  }

  ghost predicate RatesNonNegative(brackets: seq<Bracket>) {
    forall i :: 0 <= i < |brackets| ==> 0.0 <= brackets[i].rate
  }

  // ---------------------------------------------------------------------------
  // The calculation as a whole

  /** Taxable income: under the 30% ruling, gross less `Math.round(gross * 0.30)`. */
  function TaxableIncome(grossSalary: int, thirtyPercentRuling: bool): (r: int)
    ensures !thirtyPercentRuling ==> r == grossSalary
    ensures thirtyPercentRuling ==>
      (grossSalary - r) as real - 0.5 <= grossSalary as real * 0.30 < (grossSalary - r) as real + 0.5
  {
    if thirtyPercentRuling then grossSalary - Round(grossSalary as real * 0.30) else grossSalary
  }

  function WageTaxFor(rules: seq<TaxRule>, grossSalary: int, thirtyPercentRuling: bool): int {
    match FindRule(rules, WageTax)
    case Some(TaxRule(_, WageTaxDetails(brackets))) =>
      ProgressiveTax(brackets, TaxableIncome(grossSalary, thirtyPercentRuling))
    case _ => 0
  }

  /** Gross salary capped at `maxIncome` (major units) converted to minor units. */
  function SocialSecurityBase(grossSalary: int, maxIncome: real): real {
    var cap := maxIncome * 100.0;
    if grossSalary as real <= cap then grossSalary as real else cap
  }

  function SocialSecurityFor(rules: seq<TaxRule>, grossSalary: int): int {
    match FindRule(rules, SocialSecurity)
    case Some(TaxRule(_, SocialSecurityDetails(employeeRate, employerRate, maxIncome))) =>
      Round(SocialSecurityBase(grossSalary, maxIncome) * (employeeRate + employerRate))
    case _ => 0
  }

  /** What `payroll.calculate` computes. `rules` are the active rules of the
      NL jurisdiction, newest first; they are empty when no NL jurisdiction
      is on record. */
  function PayrollOf(jurisdiction: string, grossSalary: int, thirtyPercentRuling: bool,
                     rules: seq<TaxRule>): Payslip
  {
    if jurisdiction != "NL" then Payslip(grossSalary, 0, 0, grossSalary)
    else
      var wageTax := WageTaxFor(rules, grossSalary, thirtyPercentRuling);
      var socialSecurity := SocialSecurityFor(rules, grossSalary);
      Payslip(grossSalary, wageTax, socialSecurity, grossSalary - wageTax - socialSecurity)
  }

  /** The bracket loop: each bracket's slice is taxed at its rate, rounded,
      and added to the running total. */
  method AccumulateWageTax(brackets: seq<Bracket>, taxableIncome: int) returns (wageTax: int)
    ensures wageTax == ProgressiveTax(brackets, taxableIncome)
  {
    wageTax := 0;
    for i := 0 to |brackets|
      invariant wageTax == WageTaxUpTo(brackets, taxableIncome, i)
    {
      var bracket := brackets[i];
      var nextThreshold := NextThreshold(brackets, i);
      var bracketIncome := Max(taxableIncome - bracket.threshold, 0);
      if nextThreshold.Some? {
        bracketIncome := Min(bracketIncome, nextThreshold.value - bracket.threshold);
      }
      assert Round(bracketIncome as real * bracket.rate) == BracketTax(brackets, i, taxableIncome) by {
        assert bracketIncome == BracketIncome(brackets, i, taxableIncome);
      }
      wageTax := wageTax + Round(bracketIncome as real * bracket.rate);
    }
  }

  /** The wage-tax block of the handler: the newest wage-tax rule's brackets
      applied to gross salary, less the tax-free 30% under the ruling. */
  method ComputeWageTax(rules: seq<TaxRule>, grossSalary: int, thirtyPercentRuling: bool)
    returns (wageTax: int)
    ensures wageTax == WageTaxFor(rules, grossSalary, thirtyPercentRuling)
  {
    wageTax := 0;
    var wageRule := FindRule(rules, WageTax);
    if wageRule.Some? && wageRule.value.details.WageTaxDetails? {
      var brackets := wageRule.value.details.brackets;
      var taxableIncome := grossSalary;
      if thirtyPercentRuling {
        var taxFree := Round(grossSalary as real * 0.30);
        taxableIncome := grossSalary - taxFree;
      }
      wageTax := AccumulateWageTax(brackets, taxableIncome);
    }
  }

  /** The social-security block of the handler: both rates applied to gross
      salary capped at the newest rule's maximum income. */
  method ComputeSocialSecurity(rules: seq<TaxRule>, grossSalary: int) returns (socialSecurity: int)
    ensures socialSecurity == SocialSecurityFor(rules, grossSalary)
  {
    socialSecurity := 0;
    var socialRule := FindRule(rules, SocialSecurity);
    if socialRule.Some? && socialRule.value.details.SocialSecurityDetails? {
      var details := socialRule.value.details;
      var maxIncome := details.maxIncome * 100.0;
      var taxableForSocial := if grossSalary as real <= maxIncome then grossSalary as real else maxIncome;
      socialSecurity := Round(taxableForSocial * (details.employeeRate + details.employerRate));
    }
  }

  /** The calculation step by step, as the request handler performs it. */
  method Calculate(jurisdiction: string, grossSalary: int, thirtyPercentRuling: bool,
                   rules: seq<TaxRule>) returns (slip: Payslip)
    ensures slip == PayrollOf(jurisdiction, grossSalary, thirtyPercentRuling, rules)
  {
    var wageTax := 0;
    var socialSecurity := 0;
    var netSalary := grossSalary;
    if jurisdiction == "NL" {
      wageTax := ComputeWageTax(rules, grossSalary, thirtyPercentRuling);
      socialSecurity := ComputeSocialSecurity(rules, grossSalary);
      netSalary := grossSalary - wageTax - socialSecurity;
    }
    slip := Payslip(grossSalary, wageTax, socialSecurity, netSalary);
  }

  // ---------------------------------------------------------------------------
  // Properties

  /** Outside the Netherlands nothing is withheld. */
  lemma NoWithholdingOutsideNL(jurisdiction: string, grossSalary: int, thirtyPercentRuling: bool,
                               rules: seq<TaxRule>)
    requires jurisdiction != "NL"
    ensures PayrollOf(jurisdiction, grossSalary, thirtyPercentRuling, rules)
            == Payslip(grossSalary, 0, 0, grossSalary)
  {
  }

  /** In the Netherlands, net is gross less both components, with no clamp at zero. */
  lemma NetIsGrossLessWithholding(grossSalary: int, thirtyPercentRuling: bool, rules: seq<TaxRule>)
    ensures var slip := PayrollOf("NL", grossSalary, thirtyPercentRuling, rules);
            slip.grossSalary == grossSalary
            && slip.netSalary == grossSalary - slip.wageTax - slip.socialSecurity
  {
  }

  /** Bounds of one bracket's slice: never negative, at most the bracket's
      width when the next threshold is above it, and unbounded (all income
      above the threshold) for the last bracket or a next threshold of 0. */
  lemma BracketIncomeBounds(brackets: seq<Bracket>, i: nat, taxable: int)
    requires i < |brackets|
    requires Ascending(brackets)
    ensures 0 <= BracketIncome(brackets, i, taxable)
    ensures NextThreshold(brackets, i).Some? ==>
              BracketIncome(brackets, i, taxable) <= brackets[i + 1].threshold - brackets[i].threshold
    ensures NextThreshold(brackets, i).None? ==>
              BracketIncome(brackets, i, taxable) == Max(taxable - brackets[i].threshold, 0)
    ensures (i + 1 == |brackets| || brackets[i + 1].threshold == 0) ==> NextThreshold(brackets, i).None?
  {
    assert i + 1 < |brackets| ==> brackets[i].threshold <= brackets[i + 1].threshold;
  }

  /** On any table, a bracket's slice is the income above its threshold, clamped
      to zero and, when a next threshold exists, to the distance up to it. */
  lemma BracketIncomeIsClamped(brackets: seq<Bracket>, i: nat, taxable: int)
    requires i < |brackets|
    ensures BracketIncome(brackets, i, taxable) <= Max(taxable - brackets[i].threshold, 0)
    ensures taxable <= brackets[i].threshold ==> BracketIncome(brackets, i, taxable) <= 0
    ensures NextThreshold(brackets, i).None? ==>
              BracketIncome(brackets, i, taxable) == Max(taxable - brackets[i].threshold, 0)
    ensures NextThreshold(brackets, i).Some? ==>
              BracketIncome(brackets, i, taxable) <= NextThreshold(brackets, i).value - brackets[i].threshold
  {
  }

  /** A bracket's tax is its slice times its rate, rounded to the nearest cent. */
  lemma BracketTaxIsRounded(brackets: seq<Bracket>, i: nat, taxable: int)
    requires i < |brackets|
    ensures var exact := BracketIncome(brackets, i, taxable) as real * brackets[i].rate;
            BracketTax(brackets, i, taxable) as real - 0.5 <= exact < BracketTax(brackets, i, taxable) as real + 0.5
  {
  }

  /** Income at or below a bracket's threshold contributes nothing from that bracket. */
  lemma NoTaxFromBracketAbove(brackets: seq<Bracket>, i: nat, taxable: int)
    requires i < |brackets|
    requires Ascending(brackets)
    requires taxable <= brackets[i].threshold
    ensures BracketIncome(brackets, i, taxable) == 0
    ensures BracketTax(brackets, i, taxable) == 0
  {
    assert i + 1 < |brackets| ==> brackets[i].threshold <= brackets[i + 1].threshold;
  }

  lemma BracketIncomeMonotone(brackets: seq<Bracket>, i: nat, x: int, y: int)
    requires i < |brackets|
    requires x <= y
    ensures BracketIncome(brackets, i, x) <= BracketIncome(brackets, i, y)
  {
  }

  lemma BracketTaxMonotone(brackets: seq<Bracket>, i: nat, x: int, y: int)
    requires i < |brackets|
    requires 0.0 <= brackets[i].rate
    requires x <= y
    ensures BracketTax(brackets, i, x) <= BracketTax(brackets, i, y)
  {
    var a, b := BracketIncome(brackets, i, x), BracketIncome(brackets, i, y);
    BracketIncomeMonotone(brackets, i, x, y);
    var r := brackets[i].rate;
    assert (b - a) as real * r >= 0.0;
    assert a as real * r <= b as real * r;
    RoundMonotone(a as real * r, b as real * r);
  }

  /** A sorted table with non-negative rates never yields negative tax. */
  lemma {:induction false} WageTaxNonNegative(brackets: seq<Bracket>, taxable: int, n: nat)
    requires n <= |brackets|
    requires Ascending(brackets) && RatesNonNegative(brackets)
    ensures 0 <= WageTaxUpTo(brackets, taxable, n)
  {
    if n > 0 {
      WageTaxNonNegative(brackets, taxable, n - 1);
      var s, rate := BracketIncome(brackets, n - 1, taxable), brackets[n - 1].rate;
      assert 0 <= s by { BracketIncomeBounds(brackets, n - 1, taxable); }
      assert 0.0 <= s as real * rate by { assert 0.0 <= rate; }
      assert 0 <= BracketTax(brackets, n - 1, taxable) by { RoundNonNegative(s as real * rate); }
    }
  }

  /** Without the ordering the handler gives negative tax: the first bracket's
      slice is clamped to the negative gap down to the next threshold. */
  lemma UnsortedTableCanTaxNegative()
    ensures !Ascending([Bracket(100, 0.5), Bracket(50, 0.5)])
    ensures ProgressiveTax([Bracket(100, 0.5), Bracket(50, 0.5)], 60) == -20
  {
    var brackets := [Bracket(100, 0.5), Bracket(50, 0.5)];
    assert brackets[0].threshold > brackets[1].threshold;
    assert BracketIncome(brackets, 0, 60) == -50;
    assert BracketIncome(brackets, 1, 60) == 10;
    assert BracketTax(brackets, 0, 60) == -25;
    assert BracketTax(brackets, 1, 60) == 5;
    assert WageTaxUpTo(brackets, 60, 1) == -25;
    assert WageTaxUpTo(brackets, 60, 2) == -20;
  }

  /** More taxable income never yields less wage tax. */
  lemma {:induction false} WageTaxMonotone(brackets: seq<Bracket>, x: int, y: int, n: nat)
    requires n <= |brackets|
    requires RatesNonNegative(brackets)
    requires x <= y
    ensures WageTaxUpTo(brackets, x, n) <= WageTaxUpTo(brackets, y, n)
  {
    if n > 0 {
      WageTaxMonotone(brackets, x, y, n - 1);
      BracketTaxMonotone(brackets, n - 1, x, y);
    }
  }

  /** The 30% ruling leaves taxable income between 0 and gross. */
  lemma RulingTaxableIncomeBounds(grossSalary: int)
    requires 0 <= grossSalary
    ensures 0 <= TaxableIncome(grossSalary, true) <= TaxableIncome(grossSalary, false) == grossSalary
  {
    RoundNonNegative(grossSalary as real * 0.30);
  }

  /** The 30% ruling never raises wage tax and never lowers net salary. */
  lemma RulingNeverRaisesWithholding(grossSalary: int, rules: seq<TaxRule>)
    requires 0 <= grossSalary
    requires forall i :: 0 <= i < |rules| && rules[i].details.WageTaxDetails? ==>
               RatesNonNegative(rules[i].details.brackets)
    ensures PayrollOf("NL", grossSalary, true, rules).wageTax <= PayrollOf("NL", grossSalary, false, rules).wageTax
    ensures PayrollOf("NL", grossSalary, true, rules).netSalary >= PayrollOf("NL", grossSalary, false, rules).netSalary
  {
    RulingTaxableIncomeBounds(grossSalary);
    match FindRule(rules, WageTax)
    case Some(TaxRule(_, WageTaxDetails(brackets))) =>
      WageTaxMonotone(brackets, TaxableIncome(grossSalary, true), grossSalary, |brackets|);
    case _ =>
  }

  /** Social security is drawn from gross salary, so the ruling does not change it,
      and its base never exceeds the cap `maxIncome * 100`. */
  lemma SocialSecurityIgnoresRuling(jurisdiction: string, grossSalary: int, rules: seq<TaxRule>)
    ensures PayrollOf(jurisdiction, grossSalary, true, rules).socialSecurity
            == PayrollOf(jurisdiction, grossSalary, false, rules).socialSecurity
  {
  }

  lemma SocialSecurityIsCapped(grossSalary: int, rules: seq<TaxRule>, employeeRate: real, employerRate: real,
                               maxIncome: real)
    requires FindRule(rules, SocialSecurity).Some?
    requires FindRule(rules, SocialSecurity).value.details == SocialSecurityDetails(employeeRate, employerRate, maxIncome)
    ensures SocialSecurityBase(grossSalary, maxIncome) <= maxIncome * 100.0
    ensures SocialSecurityBase(grossSalary, maxIncome) <= grossSalary as real
    ensures PayrollOf("NL", grossSalary, false, rules).socialSecurity
            == Round(SocialSecurityBase(grossSalary, maxIncome) * (employeeRate + employerRate))
  {
    var found := FindRule(rules, SocialSecurity).value;
    assert FindRule(rules, SocialSecurity)
           == Some(TaxRule(found.validFrom, SocialSecurityDetails(employeeRate, employerRate, maxIncome)));
    assert SocialSecurityFor(rules, grossSalary)
           == Round(SocialSecurityBase(grossSalary, maxIncome) * (employeeRate + employerRate));
  }

  /** A component whose rule is missing is zero. */
  lemma MissingRuleGivesZero(grossSalary: int, thirtyPercentRuling: bool, rules: seq<TaxRule>)
    ensures (forall i :: 0 <= i < |rules| ==> rules[i].Type() != WageTax) ==>
              PayrollOf("NL", grossSalary, thirtyPercentRuling, rules).wageTax == 0
    ensures (forall i :: 0 <= i < |rules| ==> rules[i].Type() != SocialSecurity) ==>
              PayrollOf("NL", grossSalary, thirtyPercentRuling, rules).socialSecurity == 0
  {
  }

  /** With the rule list newest first, the rule used is one with the latest `validFrom`. */
  lemma FoundRuleIsNewest(rules: seq<TaxRule>, t: RuleType)
    requires NewestFirst(rules)
    requires FindRule(rules, t).Some?
    ensures forall q :: q in rules && q.Type() == t ==> q.validFrom <= FindRule(rules, t).value.validFrom
  {
    var r := FindRule(rules, t).value;
    var i :| 0 <= i < |rules| && rules[i] == r && rules[i].Type() == t
             && forall j :: 0 <= j < i ==> rules[j].Type() != t;
    forall q | q in rules && q.Type() == t ensures q.validFrom <= r.validFrom {
      var k :| 0 <= k < |rules| && rules[k] == q;
      assert i <= k;
    }
  }

  /** `|| Infinity` reads a next threshold of 0 as no bound at all: in a sorted
      table whose second row also starts at 0, the first row taxes all income. */
  lemma ZeroNextThresholdIsUnbounded()
    ensures var brackets := [Bracket(0, 0.10), Bracket(0, 0.20)];
            Ascending(brackets) && ProgressiveTax(brackets, 1000) == 300
  {
    var brackets := [Bracket(0, 0.10), Bracket(0, 0.20)];
    assert NextThreshold(brackets, 0).None?;
    assert BracketTax(brackets, 0, 1000) == 100;
    assert WageTaxUpTo(brackets, 1000, 1) == 100;
    assert BracketTax(brackets, 1, 1000) == 200;
  }

  /** The rules seeded for the Netherlands. */
  function SeededRules(): seq<TaxRule> {
    [ TaxRule(20250101, WageTaxDetails([Bracket(0, 0.3710), Bracket(75518, 0.4950)])),
      TaxRule(20250101, SocialSecurityDetails(0.12, 0.20, 75864.0)),
      TaxRule(20250101, ThirtyPercentRulingDetails(0.30)),
      TaxRule(20250101, VatDetails) ]
  }

  lemma SeededRulesFound()
    ensures FindRule(SeededRules(), WageTax) == Some(SeededRules()[0])
    ensures FindRule(SeededRules(), SocialSecurity) == Some(SeededRules()[1])
  {
  }

  lemma SeededBrackets(taxable: int, low: int, high: int)
    requires taxable == 500000 || taxable == 350000
    requires low == 28017 && high == (if taxable == 500000 then 210119 else 135869)
    ensures ProgressiveTax([Bracket(0, 0.3710), Bracket(75518, 0.4950)], taxable) == low + high
  {
    var brackets := [Bracket(0, 0.3710), Bracket(75518, 0.4950)];
    assert NextThreshold(brackets, 0) == Some(75518);
    assert NextThreshold(brackets, 1) == None;
    assert BracketTax(brackets, 0, taxable) == low;
    assert BracketTax(brackets, 1, taxable) == high;
    assert WageTaxUpTo(brackets, taxable, 1) == low;
  }

  /** A gross salary of 500000 cents under the seeded rules: positive tax and
      social security, a net between 0 and gross, and under the ruling strictly
      lower wage tax and strictly higher net. */
  lemma SeededExample()
    ensures PayrollOf("NL", 500000, false, SeededRules()) == Payslip(500000, 238136, 160000, 101864)
    ensures PayrollOf("NL", 500000, true, SeededRules()) == Payslip(500000, 163886, 160000, 176114)
  {
    SeededRulesFound();
    assert TaxableIncome(500000, true) == 350000;
    SeededBrackets(500000, 28017, 210119);
    SeededBrackets(350000, 28017, 135869);
    assert WageTaxFor(SeededRules(), 500000, false) == 238136;
    assert WageTaxFor(SeededRules(), 500000, true) == 163886;
    assert SocialSecurityFor(SeededRules(), 500000) == 160000;
  }

  /** What the handler returns for the seeded rules and a gross salary of
      500000 cents: 5000.00 gross, positive wage tax and social security, a net
      between 0 and gross, and with the ruling less wage tax and more net. */
  lemma SeededResponse()
    ensures var plain := Respond(PayrollOf("NL", 500000, false, SeededRules()));
            var ruling := Respond(PayrollOf("NL", 500000, true, SeededRules()));
            && plain == PayrollResponse(5000.0, 2381.36, 1600.0, 1018.64)
            && ruling == PayrollResponse(5000.0, 1638.86, 1600.0, 1761.14)
            && 0.0 < plain.wageTax && 0.0 < plain.socialSecurity && 0.0 < plain.netSalary < plain.grossSalary
            && ruling.wageTax < plain.wageTax && ruling.netSalary > plain.netSalary
  {
    SeededExample();
  }
}
