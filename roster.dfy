/**
 * The LocaPay tenant roster and the operations that change it in place:
 * recording a pair of meter readings, adding a tenant, deleting a tenant.
 *
 * Each operation is specified by a function from the old roster to the
 * outcome and the new roster; the `Roster` class carries out the same steps
 * on its `tenants` field and is proved to agree with that function.
 */
module TenantRoster {
  import opened Billing

  /**
   * What updateTenantKwh reports: an unknown id (the JS returns undefined),
   * a negative reading or a decreasing pair (both return false, with
   * different alerts), or a committed update (true).
   */
  datatype KwhUpdate = NoSuchTenant | NegativeIndex | IndexDecreased | Updated

  /** What addNewTenant reports: a missing field or an occupied room (false, with different alerts), or the new id (true). */
  datatype AddResult = MissingFields | RoomOccupied | Added(id: int)

  /** The outcome of a reading update together with the roster it leaves. */
  datatype KwhStep = KwhStep(outcome: KwhUpdate, roster: seq<Tenant>)

  /** The outcome of an add together with the roster it leaves. */
  datatype AddStep = AddStep(outcome: AddResult, roster: seq<Tenant>)

  // ---------------------------------------------------------------------
  // Lookups over the roster
  // ---------------------------------------------------------------------

  /** Position of the first tenant with this id, as findIndex gives it; -1 when there is none. */
  function IndexOf(s: seq<Tenant>, id: int): (k: int)
    ensures -1 <= k < |s|
    ensures k >= 0 ==> s[k].id == id
    ensures forall j | 0 <= j < |s| && (k < 0 || j < k) :: s[j].id != id
  {
    if |s| == 0 then -1
    else if s[0].id == id then 0
    else
      var k := IndexOf(s[1..], id);
      assert forall j | 1 <= j < |s| :: s[j] == s[1..][j - 1];
      if k < 0 then -1 else k + 1
  }

  /** toLowerCase on one character: an ASCII capital becomes its small letter, anything else is kept. */
  function LowerChar(c: char): (l: char)
    ensures !('A' <= l <= 'Z')
    ensures 'A' <= c <= 'Z' ==> 'a' <= l <= 'z' && l as int - 'a' as int == c as int - 'A' as int
    ensures !('A' <= c <= 'Z') ==> l == c
  {
    if 'A' <= c <= 'Z' then (c as int - 'A' as int + 'a' as int) as char else c
  }

  /** toLowerCase, on the ASCII letters. */
  function ToLower(s: string): (r: string)
    ensures |r| == |s|
    ensures forall i | 0 <= i < |r| :: !('A' <= r[i] <= 'Z')
    ensures forall i | 0 <= i < |s| :: !('A' <= s[i] <= 'Z') ==> r[i] == s[i]
    ensures forall i | 0 <= i < |s| :: 'A' <= s[i] <= 'Z' ==> r[i] as int - 'a' as int == s[i] as int - 'A' as int
  {
    seq(|s|, i requires 0 <= i < |s| => LowerChar(s[i]))
  }

  /** Two room labels name the same room when they agree up to letter case. */
  predicate SameRoom(a: string, b: string): (same: bool)
    ensures same ==> |a| == |b|
    ensures a == b ==> same
  {
    ToLower(a) == ToLower(b)
  }

  /** Two labels name the same room exactly when they agree letter by letter up to case. */
  lemma SameRoomLetterByLetter(a: string, b: string)
    ensures SameRoom(a, b) <==> |a| == |b| && forall k | 0 <= k < |a| :: LowerChar(a[k]) == LowerChar(b[k])
  {
    assert forall k | 0 <= k < |a| :: ToLower(a)[k] == LowerChar(a[k]);
    assert forall k | 0 <= k < |b| :: ToLower(b)[k] == LowerChar(b[k]);
    if |a| == |b| && forall k | 0 <= k < |a| :: LowerChar(a[k]) == LowerChar(b[k]) {
      assert forall k | 0 <= k < |a| :: ToLower(a)[k] == ToLower(b)[k];
    }
  }

  /** Whether some tenant already occupies this room, compared case-insensitively. */
  predicate RoomTaken(s: seq<Tenant>, chambre: string): (taken: bool)
    ensures taken <==> exists t | t in s :: SameRoom(t.chambre, chambre)
    ensures taken ==> |s| > 0
  {
    exists i | 0 <= i < |s| :: SameRoom(s[i].chambre, chambre)
  }

  predicate UniqueIds(s: seq<Tenant>)
  {
    forall i, j | 0 <= i < j < |s| :: s[i].id != s[j].id
  }

  predicate UniqueRooms(s: seq<Tenant>)
  {
    forall i, j | 0 <= i < j < |s| :: !SameRoom(s[i].chambre, s[j].chambre)
  }

  predicate OrderedReadings(s: seq<Tenant>)
  {
    forall i | 0 <= i < |s| :: s[i].kwhAncien <= s[i].kwhNouveau
  }

  /** What every operation keeps: unique ids, unique rooms up to case, and readings that never decrease. */
  predicate ValidRoster(s: seq<Tenant>)
  {
    UniqueIds(s) && UniqueRooms(s) && OrderedReadings(s)
  }

  /** Math.max over the ids of a non-empty roster. */
  function MaxId(s: seq<Tenant>): (m: int)
    requires |s| > 0
    ensures exists i | 0 <= i < |s| :: s[i].id == m
    ensures forall i | 0 <= i < |s| :: s[i].id <= m
  {
    if |s| == 1 then s[0].id
    else
      var m := MaxId(s[1..]);
      assert forall j | 1 <= j < |s| :: s[j] == s[1..][j - 1];
      if s[0].id >= m then s[0].id else m
  }

  /** The id given to a new tenant: one more than the largest id, and 1 for an empty roster. */
  function NextId(s: seq<Tenant>): (id: int)
    ensures forall i | 0 <= i < |s| :: s[i].id < id
    ensures |s| == 0 ==> id == 1
    ensures |s| > 0 ==> exists i | 0 <= i < |s| :: s[i].id == id - 1
  {
    if |s| == 0 then 1 else MaxId(s) + 1
  }

  /** The required-field check of the add form: names and room non-empty, rent non-zero. */
  predicate RequiredFieldsPresent(nom: string, prenom: string, chambre: string, loyer: int): (ok: bool)
    ensures ok <==> |nom| > 0 && |prenom| > 0 && |chambre| > 0 && loyer != 0
    ensures nom != "" && prenom != "" && chambre != "" && loyer < 0 ==> ok
  {
    nom != "" && prenom != "" && chambre != "" && loyer != 0
  }

  // ---------------------------------------------------------------------
  // The three roster operations, as functions of the old roster
  // ---------------------------------------------------------------------

  /** updateTenantKwh: commit both readings of the tenant with this id, or change nothing. */
  function RecordKwh(s: seq<Tenant>, tenantId: int, newAncien: int, nouveau: int): (r: KwhStep)
    ensures |r.roster| == |s|
    ensures r.outcome == NoSuchTenant <==> forall j | 0 <= j < |s| :: s[j].id != tenantId
    ensures r.outcome == NegativeIndex <==> IndexOf(s, tenantId) >= 0 && (newAncien < 0 || nouveau < 0)
    ensures r.outcome == IndexDecreased <==> IndexOf(s, tenantId) >= 0 && 0 <= newAncien && 0 <= nouveau < newAncien
    ensures r.outcome != Updated ==> r.roster == s
    ensures r.outcome == Updated ==>
      var k := IndexOf(s, tenantId);
      0 <= r.roster[k].kwhAncien == newAncien <= r.roster[k].kwhNouveau == nouveau &&
      r.roster[k] == s[k].(kwhAncien := newAncien, kwhNouveau := nouveau) &&
      forall j | 0 <= j < |s| && j != k :: r.roster[j] == s[j]
    ensures ValidRoster(s) ==> ValidRoster(r.roster)
  {
    var k := IndexOf(s, tenantId);
    if k < 0 then KwhStep(NoSuchTenant, s)
    else if newAncien < 0 || nouveau < 0 then KwhStep(NegativeIndex, s)
    else if !ValidateKwhIndex(nouveau, newAncien) then KwhStep(IndexDecreased, s)
    else
      var s' := s[k := s[k].(kwhAncien := newAncien, kwhNouveau := nouveau)];
      assert forall i | 0 <= i < |s| :: s'[i].id == s[i].id && s'[i].chambre == s[i].chambre;
      KwhStep(Updated, s')
  }

  /** addNewTenant: append a validated tenant with a fresh id and zero consumption, or change nothing. */
  function AddTenant(s: seq<Tenant>, nom: string, prenom: string, chambre: string, loyer: int, kwhInitial: int)
    : (r: AddStep)
    ensures !RequiredFieldsPresent(nom, prenom, chambre, loyer) ==> r == AddStep(MissingFields, s)
    ensures RequiredFieldsPresent(nom, prenom, chambre, loyer) && RoomTaken(s, chambre) ==> r == AddStep(RoomOccupied, s)
    ensures RequiredFieldsPresent(nom, prenom, chambre, loyer) && !RoomTaken(s, chambre) ==>
      r.outcome == Added(NextId(s)) &&
      r.roster == s + [Tenant(NextId(s), nom, prenom, chambre, loyer, kwhInitial, kwhInitial)]
    ensures r.outcome.Added? ==>
      (forall i | 0 <= i < |s| :: s[i].id < r.outcome.id) &&
      IndividualConsumption(r.roster[|s|]) == 0 &&
      TotalConsumption(r.roster) == TotalConsumption(s)
    ensures ValidRoster(s) ==> ValidRoster(r.roster)
  {
    if !RequiredFieldsPresent(nom, prenom, chambre, loyer) then AddStep(MissingFields, s)
    else if RoomTaken(s, chambre) then AddStep(RoomOccupied, s)
    else
      var newTenant := Tenant(NextId(s), nom, prenom, chambre, loyer, kwhInitial, kwhInitial);
      TotalAppend(s, [newTenant]);
      assert TotalConsumption([newTenant]) == 0 by {
        assert [newTenant][1..] == [];
      }
      AddStep(Added(newTenant.id), s + [newTenant])
  }

  /** deleteTenant: when confirmed, remove the first tenant with this id and keep the others in order. */
  function RemoveTenant(s: seq<Tenant>, tenantId: int, confirmed: bool): (r: seq<Tenant>)
    ensures !confirmed || IndexOf(s, tenantId) < 0 ==> r == s
    ensures confirmed && IndexOf(s, tenantId) >= 0 ==>
      var k := IndexOf(s, tenantId);
      |r| == |s| - 1 &&
      (forall i | 0 <= i < k :: r[i] == s[i]) &&
      (forall i | k <= i < |r| :: r[i] == s[i + 1])
    ensures ValidRoster(s) ==> ValidRoster(r)
  {
    if !confirmed then s
    else
      var index := IndexOf(s, tenantId);
      if index > -1 then s[..index] + s[index + 1..] else s
  }

  // ---------------------------------------------------------------------
  // Lemmas
  // ---------------------------------------------------------------------

  /** The total consumption of two groups together is the sum of their totals. */
  lemma {:induction false} TotalAppend(a: seq<Tenant>, b: seq<Tenant>)
    ensures TotalConsumption(a + b) == TotalConsumption(a) + TotalConsumption(b)
  {
    if |a| > 0 {
      assert (a + b)[1..] == a[1..] + b;
      TotalAppend(a[1..], b);
    } else {
      assert a + b == b;
    }
  }

  /** Adding a tenant changes nobody's electricity share: the newcomer has consumed nothing yet. */
  lemma AddKeepsShares(s: seq<Tenant>, nom: string, prenom: string, chambre: string, loyer: int, kwhInitial: int,
                       t: Tenant, totalBillAmount: int)
    ensures var r := AddTenant(s, nom, prenom, chambre, loyer, kwhInitial).roster;
      ElectricityShare(t, r, totalBillAmount) == ElectricityShare(t, s, totalBillAmount) &&
      ConsumptionPercentage(t, r) == ConsumptionPercentage(t, s)
  {
  }

  /** With unique ids, a confirmed delete leaves exactly the tenants whose id differs. */
  lemma DeleteRemovesOnlyThatTenant(s: seq<Tenant>, tenantId: int)
    requires UniqueIds(s)
    ensures forall t :: t in RemoveTenant(s, tenantId, true) <==> t in s && t.id != tenantId
  {
  }

  // ---------------------------------------------------------------------
  // Ids as written: Math.max over an empty roster
  // ---------------------------------------------------------------------

  /** A JavaScript number as far as ids go: an integer, or -Infinity. */
  datatype ExtendedId = NegativeInfinity | Finite(value: int)

  /** The order of JavaScript numbers on ids: -Infinity is below every integer. */
  predicate NotAbove(x: ExtendedId, y: ExtendedId)
  {
    x == NegativeInfinity || (y.Finite? && x.value <= y.value)
  }

  /** The larger of two numbers, as Math.max compares them. */
  function Larger(a: ExtendedId, b: ExtendedId): (r: ExtendedId)
    ensures r == a || r == b
    ensures NotAbove(a, r) && NotAbove(b, r)
  {
    match (a, b)
    case (NegativeInfinity, _) => b
    case (_, NegativeInfinity) => a
    case (Finite(x), Finite(y)) => if x >= y then a else b
  }

  /** Math.max(...ids), which is -Infinity when given no argument. */
  function MathMax(ids: seq<ExtendedId>): (m: ExtendedId)
    ensures m == NegativeInfinity <==> forall i | 0 <= i < |ids| :: ids[i] == NegativeInfinity
    ensures forall i | 0 <= i < |ids| :: NotAbove(ids[i], m)
    ensures m == NegativeInfinity || m in ids
  {
    if |ids| == 0 then NegativeInfinity
    else
      assert forall j | 1 <= j < |ids| :: ids[j] == ids[1..][j - 1];
      Larger(ids[0], MathMax(ids[1..]))
  }

  /** The id the code computes, `Math.max(...ids) + 1`; -Infinity + 1 stays -Infinity. */
  function NewIdAsWritten(ids: seq<ExtendedId>): (r: ExtendedId)
    ensures r == NegativeInfinity <==> forall i | 0 <= i < |ids| :: ids[i] == NegativeInfinity
    ensures r.Finite? ==>
      Finite(r.value - 1) in ids && forall i | 0 <= i < |ids| && ids[i].Finite? :: ids[i].value < r.value
  {
    match MathMax(ids)
    case NegativeInfinity => NegativeInfinity
    case Finite(m) => Finite(m + 1)
  }

  /** `tenants.map(t => t.id)`: the ids in roster order, each a finite number. */
  function Ids(s: seq<Tenant>): (ids: seq<ExtendedId>)
    ensures |ids| == |s|
    ensures forall i | 0 <= i < |s| :: ids[i] == Finite(s[i].id)
  {
    seq(|s|, i requires 0 <= i < |s| => Finite(s[i].id))
  }

  /**
   * As written, the first tenant added to an empty roster gets the id
   * -Infinity, and so does the next one: the two ids collide.
   */
  lemma EmptyRosterIdsCollide()
    ensures NewIdAsWritten([]) == NegativeInfinity
    ensures NewIdAsWritten([NewIdAsWritten([])]) == NewIdAsWritten([])
  {
  }

  /**
   * On a non-empty roster the id as written is exactly NextId, which the model
   * uses everywhere: the contracts of MathMax and MaxId both pin their result
   * to the unique largest id, so no induction is needed.
   */
  lemma NewIdAsWrittenMatchesNextId(s: seq<Tenant>)
    requires |s| > 0
    ensures NewIdAsWritten(Ids(s)) == Finite(NextId(s))
    ensures MathMax(Ids(s)) == Finite(MaxId(s))
  {
  }

  /** The roster the application starts with. */
  function SeedTenants(): (s: seq<Tenant>)
    ensures |s| == 5
    ensures forall i | 0 <= i < |s| :: s[i].id == i + 1 && s[i].kwhAncien <= s[i].kwhNouveau
  {
    [ Tenant(1, "Diallo", "Mamadou", "A-101", 150000, 120, 245),
      Tenant(2, "Ndiaye", "Fatou", "A-102", 175000, 180, 310),
      Tenant(3, "Sarr", "Ousmane", "B-201", 200000, 200, 420),
      Tenant(4, "Touré", "Aminata", "B-202", 165000, 150, 280),
      Tenant(5, "Ba", "Moussa", "C-301", 185000, 220, 380) ]
  }

  /** Two labels that differ, up to case, at some position name different rooms. */
  lemma DifferentRooms(a: string, b: string, k: nat)
    requires k < |a| && k < |b| && LowerChar(a[k]) != LowerChar(b[k])
    ensures !SameRoom(a, b)
  {
    assert ToLower(a)[k] != ToLower(b)[k];
  }

  /** The initial roster satisfies the roster invariant; together its tenants consumed 765 kWh. */
  lemma SeedTenantsValid()
    ensures ValidRoster(SeedTenants())
    ensures TotalConsumption(SeedTenants()) == 765
  {
    var s := SeedTenants();
    SeedIds(s);
    SeedRooms(s);
    SeedTotal(s);
  }

  /** The room check ignores case: "a-101" is taken by the initial tenant of "A-101", while "A-103" is free. */
  lemma RoomCheckIgnoresCase()
    ensures RoomTaken(SeedTenants(), "a-101")
    ensures !RoomTaken(SeedTenants(), "A-103")
  {
    var s := SeedTenants();
    assert SameRoom(s[0].chambre, "a-101");
    forall i | 0 <= i < |s|
      ensures !SameRoom(s[i].chambre, "A-103")
    {
      if i < 2 {
        DifferentRooms(s[i].chambre, "A-103", 4);
      } else {
        DifferentRooms(s[i].chambre, "A-103", 0);
      }
    }
  }

  /** For every roster, whether a room is taken does not depend on the letter case of the label asked for. */
  lemma RoomTakenIgnoresCase(s: seq<Tenant>, chambre: string)
    ensures RoomTaken(s, chambre) == RoomTaken(s, ToLower(chambre))
  {
    assert ToLower(ToLower(chambre)) == ToLower(chambre);
  }

  lemma SeedIds(s: seq<Tenant>)
    requires s == SeedTenants()
    ensures UniqueIds(s) && OrderedReadings(s)
  {
    assert forall i | 0 <= i < |s| :: s[i].id == i + 1;
  }

  lemma SeedRooms(s: seq<Tenant>)
    requires s == SeedTenants()
    ensures UniqueRooms(s)
  {
    forall i, j | 0 <= i < j < |s|
      ensures !SameRoom(s[i].chambre, s[j].chambre)
    {
      if s[i].chambre[0] != s[j].chambre[0] {
        DifferentRooms(s[i].chambre, s[j].chambre, 0);
      } else {
        DifferentRooms(s[i].chambre, s[j].chambre, 4);
      }
    }
  }

  lemma SeedTotal(s: seq<Tenant>)
    requires s == SeedTenants()
    ensures TotalConsumption(s) == 765
  {
    assert TotalConsumption(s[4..]) == 160;
    assert TotalConsumption(s[3..]) == 290 by { assert s[3..][1..] == s[4..]; }
    assert TotalConsumption(s[2..]) == 510 by { assert s[2..][1..] == s[3..]; }
    assert TotalConsumption(s[1..]) == 640 by { assert s[1..][1..] == s[2..]; }
  }

  // ---------------------------------------------------------------------
  // The roster object
  // ---------------------------------------------------------------------

  /** The application's global tenant list, changed in place by the three operations. */
  class Roster {
    var tenants: seq<Tenant>

    ghost predicate Valid()
      reads this
    {
      ValidRoster(tenants)
    }

    /** The five tenants the application starts with. */
    constructor ()
      ensures Valid()
      ensures tenants == SeedTenants()
    {
      var seed := SeedTenants();
      SeedTenantsValid();
      tenants := seed;
    }

    /** findIndex: scan the roster for the first tenant with this id. */
    method FindIndex(tenantId: int) returns (index: int)
      ensures index == IndexOf(tenants, tenantId)
    {
      index := 0;
      while index < |tenants|
        invariant 0 <= index <= |tenants|
        invariant forall j | 0 <= j < index :: tenants[j].id != tenantId
      {
        if tenants[index].id == tenantId {
          return;
        }
        index := index + 1;
      }
      index := -1;
    }

    /** updateTenantKwh: validate both readings, then commit both or neither. */
    method UpdateTenantKwh(tenantId: int, newAncien: int, nouveau: int) returns (result: KwhUpdate)
      requires Valid()
      modifies this
      ensures Valid()
      ensures KwhStep(result, tenants) == RecordKwh(old(tenants), tenantId, newAncien, nouveau)
    {
      var index := FindIndex(tenantId);
      if index < 0 {
        return NoSuchTenant;
      }
      if newAncien < 0 || nouveau < 0 {
        return NegativeIndex;
      }
      if !ValidateKwhIndex(nouveau, newAncien) {
        return IndexDecreased;
      }
      tenants := tenants[index := tenants[index].(kwhAncien := newAncien, kwhNouveau := nouveau)];
      result := Updated;
    }

    /** addNewTenant: check the form, check the room, then push a tenant with a fresh id. */
    method AddNewTenant(nom: string, prenom: string, chambre: string, loyer: int, kwhInitial: int)
      returns (result: AddResult)
      requires Valid()
      modifies this
      ensures Valid()
      ensures AddStep(result, tenants) == AddTenant(old(tenants), nom, prenom, chambre, loyer, kwhInitial)
    {
      if !RequiredFieldsPresent(nom, prenom, chambre, loyer) {
        return MissingFields;
      }
      if RoomTaken(tenants, chambre) {
        return RoomOccupied;
      }
      var newId := NextId(tenants);
      tenants := tenants + [Tenant(newId, nom, prenom, chambre, loyer, kwhInitial, kwhInitial)];
      result := Added(newId);
    }

    /** deleteTenant: once confirmed, splice out the first tenant with this id. */
    method DeleteTenant(tenantId: int, confirmed: bool)
      requires Valid()
      modifies this
      ensures Valid()
      ensures tenants == RemoveTenant(old(tenants), tenantId, confirmed)
    {
      if !confirmed {
        return;
      }
      var index := FindIndex(tenantId);
      if index > -1 {
        tenants := tenants[..index] + tenants[index + 1..];
      }
    }
  }
}
