/**
 * LocaPay billing arithmetic: how one shared electricity bill is split
 * across the tenants of a house in proportion to their metered consumption.
 *
 * Every computation here reads the roster it is given; in the application
 * that roster is the global list of tenants.
 */
module Billing {

  /** One rented room and its occupant. Readings are cumulative meter indexes in kWh. */
  datatype Tenant = Tenant(
    id: int,
    nom: string,
    prenom: string,
    chambre: string,
    loyer: int,
    kwhAncien: int,
    kwhNouveau: int)

  /** Consumption of one tenant: the difference of the two readings, clamped at zero. */
  function IndividualConsumption(t: Tenant): (c: nat)
    ensures c >= t.kwhNouveau - t.kwhAncien
    ensures c == 0 || c == t.kwhNouveau - t.kwhAncien
  {
    var consumption := t.kwhNouveau - t.kwhAncien;
    if consumption >= 0 then consumption else 0
  }

  /** Consumption of the whole house: the sum of the individual consumptions. */
  function TotalConsumption(roster: seq<Tenant>): (total: nat)
    ensures forall i | 0 <= i < |roster| :: IndividualConsumption(roster[i]) <= total
    ensures total == 0 <==> forall i | 0 <= i < |roster| :: IndividualConsumption(roster[i]) == 0
  {
    if |roster| == 0 then 0
    else
      var rest := TotalConsumption(roster[1..]);
      assert forall i | 1 <= i < |roster| :: roster[i] == roster[1..][i - 1];
      IndividualConsumption(roster[0]) + rest
  }

  /**
   * Math.round(num / den) for a positive denominator, computed exactly:
   * the integer nearest to num / den, a half rounded up.
   */
  function RoundHalfUp(num: int, den: int): (r: int)
    requires den > 0
    ensures 2 * num - den < 2 * (den * r) <= 2 * num + den
  {
    var q := (2 * num + den) / (2 * den);
    assert (2 * num + den) == 2 * den * q + (2 * num + den) % (2 * den);
    q
  }

  /** Electricity share of a tenant: the prorata of the bill, rounded; nothing when nothing was consumed. */
  function ElectricityShare(t: Tenant, roster: seq<Tenant>, totalBillAmount: int): (share: int)
    ensures TotalConsumption(roster) == 0 ==> share == 0
    ensures TotalConsumption(roster) > 0 ==>
      2 * (IndividualConsumption(t) * totalBillAmount) - TotalConsumption(roster)
        < 2 * (TotalConsumption(roster) * share)
        <= 2 * (IndividualConsumption(t) * totalBillAmount) + TotalConsumption(roster)
  {
    var totalConsumption := TotalConsumption(roster);
    var individualConsumption := IndividualConsumption(t);
    if totalConsumption == 0 then 0
    else RoundHalfUp(individualConsumption * totalBillAmount, totalConsumption)
  }

  /** Amount due by a tenant: rent plus electricity share. */
  function TotalToPay(t: Tenant, roster: seq<Tenant>, totalBillAmount: int): (due: int)
    ensures totalBillAmount >= 0 ==> due >= t.loyer
    ensures due > t.loyer <==>
      TotalConsumption(roster) > 0 && 2 * (IndividualConsumption(t) * totalBillAmount) >= TotalConsumption(roster)
  {
    var electricityShare := ElectricityShare(t, roster, totalBillAmount);
    ShareSign(t, roster, totalBillAmount);
    t.loyer + electricityShare
  }

  /** Consumption percentage of a tenant, rounded; zero when nothing was consumed. */
  function ConsumptionPercentage(t: Tenant, roster: seq<Tenant>): (p: int)
    ensures TotalConsumption(roster) == 0 ==> p == 0
    ensures TotalConsumption(roster) > 0 ==>
      2 * (IndividualConsumption(t) * 100) - TotalConsumption(roster)
        < 2 * (TotalConsumption(roster) * p)
        <= 2 * (IndividualConsumption(t) * 100) + TotalConsumption(roster)
  {
    var totalConsumption := TotalConsumption(roster);
    var individualConsumption := IndividualConsumption(t);
    if totalConsumption == 0 then 0
    else RoundHalfUp(individualConsumption * 100, totalConsumption)
  }

  /** validateKwhIndex: a pair of readings may be stored when neither is negative and they do not decrease. */
  function ValidateKwhIndex(newIndex: int, oldIndex: int): (ok: bool)
    ensures ok <==> 0 <= oldIndex <= newIndex
  {
    if newIndex < 0 || oldIndex < 0 then false
    else if newIndex < oldIndex then false
    else true
  }

  /** The standalone reading calculator: the consumption between two readings, 0 when they are rejected. */
  function CalculateKwh(kwhOld: real, kwhNew: real): (consumption: real)
    ensures consumption >= 0.0
    ensures kwhOld < 0.0 || kwhNew < 0.0 || kwhNew < kwhOld ==> consumption == 0.0
    ensures 0.0 <= kwhOld <= kwhNew ==> consumption == kwhNew - kwhOld
  {
    if kwhOld < 0.0 || kwhNew < 0.0 then 0.0
    else
      var consumption := kwhNew - kwhOld;
      if consumption >= 0.0 then consumption else 0.0
  }

  // ---------------------------------------------------------------------
  // Arithmetic helpers
  // ---------------------------------------------------------------------

  /** Multiplying by a positive factor keeps the order. */
  lemma MulLe(c: int, a: int, b: int)
    requires c > 0 && a <= b
    ensures c * a <= c * b
  {
    assert c * b - c * a == c * (b - a);
  }

  lemma Distrib(c: int, a: int, b: int)
    ensures c * (a + b) == c * a + c * b
  {
  }

  // ---------------------------------------------------------------------
  // Properties of the apportionment
  // ---------------------------------------------------------------------

  /** A rounded quotient stays between any integer bounds of the exact quotient. */
  lemma RoundHalfUpBetween(num: int, den: int, lo: int, hi: int)
    requires den > 0 && den * lo <= num <= den * hi
    ensures lo <= RoundHalfUp(num, den) <= hi
  {
    var r := RoundHalfUp(num, den);
    if r > hi {
      MulLe(den, hi + 1, r);
      Distrib(den, hi, 1);
      assert false;
    }
    if r < lo {
      MulLe(den, r + 1, lo);
      Distrib(den, r, 1);
      assert false;
    }
  }

  /** A tenant's share is positive exactly when twice its prorata of the bill reaches the total consumption. */
  lemma ShareSign(t: Tenant, roster: seq<Tenant>, totalBillAmount: int)
    ensures totalBillAmount >= 0 ==> ElectricityShare(t, roster, totalBillAmount) >= 0
    ensures ElectricityShare(t, roster, totalBillAmount) > 0 <==>
      TotalConsumption(roster) > 0 && 2 * (IndividualConsumption(t) * totalBillAmount) >= TotalConsumption(roster)
  {
    var total := TotalConsumption(roster);
    var share := ElectricityShare(t, roster, totalBillAmount);
    var ib := IndividualConsumption(t) * totalBillAmount;
    if total > 0 {
      if totalBillAmount >= 0 {
        if IndividualConsumption(t) > 0 {
          MulLe(IndividualConsumption(t), 0, totalBillAmount);
        }
        assert ib >= 0;
        if share < 0 {
          MulLe(total, share + 1, 0);
          Distrib(total, share, 1);
          assert false;
        }
      }
      if share > 0 {
        MulLe(total, 1, share);
      }
      if 2 * ib >= total && share <= 0 {
        MulLe(total, share, 0);
        assert false;
      }
    }
  }

  /** For a tenant of the roster and a non-negative bill, the share lies between 0 and the whole bill. */
  lemma ShareWithinBill(t: Tenant, roster: seq<Tenant>, totalBillAmount: int)
    requires t in roster && totalBillAmount >= 0
    ensures 0 <= ElectricityShare(t, roster, totalBillAmount) <= totalBillAmount
  {
    var total := TotalConsumption(roster);
    if total > 0 {
      var ind := IndividualConsumption(t);
      assert ind <= total;
      if totalBillAmount > 0 {
        MulLe(totalBillAmount, ind, total);
      }
      assert total * 0 <= ind * totalBillAmount <= total * totalBillAmount;
      RoundHalfUpBetween(ind * totalBillAmount, total, 0, totalBillAmount);
    }
  }

  /** For a tenant of the roster, the consumption percentage lies between 0 and 100. */
  lemma PercentageWithinRange(t: Tenant, roster: seq<Tenant>)
    requires t in roster
    ensures 0 <= ConsumptionPercentage(t, roster) <= 100
  {
    PercentageIsShareOfHundred(t, roster);
    ShareWithinBill(t, roster, 100);
  }

  /** The percentage is computed exactly like the share of a bill of 100. */
  lemma PercentageIsShareOfHundred(t: Tenant, roster: seq<Tenant>)
    ensures ConsumptionPercentage(t, roster) == ElectricityShare(t, roster, 100)
  {
  }

  /** Sum of the shares of some tenants, each computed against the whole roster. */
  function SumOfShares(part: seq<Tenant>, roster: seq<Tenant>, totalBillAmount: int): int
  {
    if |part| == 0 then 0
    else ElectricityShare(part[0], roster, totalBillAmount) + SumOfShares(part[1..], roster, totalBillAmount)
  }

  /** With a positive total, the shares of a non-empty group differ from their exact prorata by at most half a unit each. */
  lemma {:induction false} SumOfSharesNearProrata(part: seq<Tenant>, roster: seq<Tenant>, totalBillAmount: int)
    requires TotalConsumption(roster) > 0 && |part| > 0
    ensures 2 * (TotalConsumption(part) * totalBillAmount) - TotalConsumption(roster) * |part|
        < 2 * (TotalConsumption(roster) * SumOfShares(part, roster, totalBillAmount))
        <= 2 * (TotalConsumption(part) * totalBillAmount) + TotalConsumption(roster) * |part|
  {
    var total := TotalConsumption(roster);
    var share := ElectricityShare(part[0], roster, totalBillAmount);
    var ind := IndividualConsumption(part[0]);
    if |part| == 1 {
      assert part[1..] == [];
      assert TotalConsumption(part) == ind && SumOfShares(part, roster, totalBillAmount) == share;
    } else {
      SumOfSharesNearProrata(part[1..], roster, totalBillAmount);
      StepBound(total, totalBillAmount, share, ind,
        SumOfShares(part[1..], roster, totalBillAmount), TotalConsumption(part[1..]), |part| - 1);
    }
  }

  /** Adding one tenant's rounding error to a group's keeps the per-tenant half-unit bound. */
  lemma StepBound(total: int, bill: int, share: int, ind: int, rest: int, restTotal: int, m: int)
    requires 2 * (ind * bill) - total < 2 * (total * share) <= 2 * (ind * bill) + total
    requires 2 * (restTotal * bill) - total * m < 2 * (total * rest) <= 2 * (restTotal * bill) + total * m
    ensures 2 * ((ind + restTotal) * bill) - total * (m + 1)
          < 2 * (total * (share + rest))
          <= 2 * ((ind + restTotal) * bill) + total * (m + 1)
  {
    Distrib(total, share, rest);
    Distrib(total, m, 1);
    Distrib(bill, ind, restTotal);
    assert (ind + restTotal) * bill == bill * (ind + restTotal);
    assert ind * bill == bill * ind;
    assert restTotal * bill == bill * restTotal;
  }

  /**
   * Independent rounding makes the shares drift from the bill, by at most half
   * a currency unit per tenant: |sum of shares - bill| <= |roster| / 2.
   */
  lemma SharesSumNearBill(roster: seq<Tenant>, totalBillAmount: int)
    requires TotalConsumption(roster) > 0
    ensures -|roster| < 2 * (SumOfShares(roster, roster, totalBillAmount) - totalBillAmount) <= |roster|
  {
    var total := TotalConsumption(roster);
    SumOfSharesNearProrata(roster, roster, totalBillAmount);
    assert total * totalBillAmount == totalBillAmount * total;
    DriftBound(total, SumOfShares(roster, roster, totalBillAmount), totalBillAmount, |roster|);
  }

  /** Dividing the group bound by the total consumption. */
  lemma DriftBound(total: int, sum: int, bill: int, n: int)
    requires total > 0
    requires 2 * (total * bill) - total * n < 2 * (total * sum) <= 2 * (total * bill) + total * n
    ensures -n < 2 * (sum - bill) <= n
  {
    var drift := 2 * (sum - bill);
    Distrib(total, 2 * sum, -2 * bill);
    assert total * drift == 2 * (total * sum) - 2 * (total * bill);
    if drift > n {
      MulLe(total, n + 1, drift);
      Distrib(total, n, 1);
      assert false;
    }
    if drift <= -n {
      MulLe(total, drift, -n);
      assert false;
    }
  }

  /** When nothing was consumed, nobody pays any electricity, whatever the bill. */
  lemma {:induction false} NoConsumptionNoShares(part: seq<Tenant>, roster: seq<Tenant>, totalBillAmount: int)
    requires TotalConsumption(roster) == 0
    ensures SumOfShares(part, roster, totalBillAmount) == 0
  {
    if |part| > 0 {
      NoConsumptionNoShares(part[1..], roster, totalBillAmount);
    }
  }

  /** The percentages of the roster add up to 100, up to half a point of drift per tenant. */
  lemma PercentagesSumNearHundred(roster: seq<Tenant>)
    requires TotalConsumption(roster) > 0
    ensures -|roster| < 2 * (SumOfShares(roster, roster, 100) - 100) <= |roster|
    ensures forall t | t in roster :: ConsumptionPercentage(t, roster) == ElectricityShare(t, roster, 100)
  {
    SharesSumNearBill(roster, 100);
    forall t | t in roster
      ensures ConsumptionPercentage(t, roster) == ElectricityShare(t, roster, 100)
    {
      PercentageIsShareOfHundred(t, roster);
    }
  }

  /** The calculator accepts exactly the pairs the index validation accepts, and then agrees with the clamp. */
  lemma CalculatorAgreesWithValidation(t: Tenant)
    ensures CalculateKwh(t.kwhAncien as real, t.kwhNouveau as real)
      == if ValidateKwhIndex(t.kwhNouveau, t.kwhAncien) then IndividualConsumption(t) as real else 0.0
  {
  }

  /**
   * The first two tenants of the initial roster sharing a bill of 45000:
   * 125 and 130 kWh out of 255 give shares of 22059 and 22941 and
   * percentages of 49 and 51.
   */
  lemma TwoTenantScenario()
    ensures var a := Tenant(1, "Diallo", "Mamadou", "A-101", 150000, 120, 245);
      var b := Tenant(2, "Ndiaye", "Fatou", "A-102", 175000, 180, 310);
      var roster := [a, b];
      TotalConsumption(roster) == 255 &&
      ElectricityShare(a, roster, 45000) == 22059 && ElectricityShare(b, roster, 45000) == 22941 &&
      ConsumptionPercentage(a, roster) == 49 && ConsumptionPercentage(b, roster) == 51 &&
      TotalToPay(a, roster, 45000) == 172059
  {
    var a := Tenant(1, "Diallo", "Mamadou", "A-101", 150000, 120, 245);
    var b := Tenant(2, "Ndiaye", "Fatou", "A-102", 175000, 180, 310);
    assert [a, b][1..] == [b];
    assert [b][1..] == [];
  }
}
