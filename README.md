# LocaPay apportionment engine in Dafny

LocaPay is a browser utility for shared housing (Togo, amounts in FCFA). It
keeps a roster of tenants with their rent and two electricity meter readings,
and splits one shared electricity bill across tenants in proportion to what
each consumed. This project models the computational core of `app.js`:

- **Billing** (`billing.dfy`, pure): individual consumption (readings
  difference clamped at 0), total consumption, electricity share
  (`Math.round(ind / total * bill)`, 0 when nothing was consumed), amount due
  (rent + share), consumption percentage, the reading validation
  `validateKwhIndex`, and the standalone reading calculator `calculateKwh`.
  `Math.round(x)` is `floor(x + 1/2)`; for `x = num / den` with `den > 0` it is
  computed exactly as `(2 * num + den) / (2 * den)` with floor division.
- **TenantRoster** (`roster.dfy`): the global `tenants` list as a class
  `Roster` whose field `tenants: seq<Tenant>` is changed in place by
  `UpdateTenantKwh`, `AddNewTenant` and `DeleteTenant`. Each method follows the
  steps of the JavaScript, except for the id given to a tenant added to an
  empty roster (see below). It is proved equal to a function of the old roster:
  `RecordKwh`, `AddTenant` or `RemoveTenant`. Those functions state commit-or-nothing, the frame, and
  preservation of the roster invariant `ValidRoster`. That invariant means unique ids,
  unique room labels up to letter case, and `kwhAncien <= kwhNouveau` for every tenant.

Where the behaviour described for the system and the code disagree, the model follows the code,
with one exception:

- On an empty roster, `AddTenant` and `Roster.AddNewTenant` give the new tenant id 1 through the
  corrected `NextId`. The code at app.js:519 computes `Math.max()` + 1, which is -Infinity. The
  code's behaviour is modelled separately by `NewIdAsWritten`, and "## Findings" records the bug.

- A rent is rejected only when it is 0 (`!loyer`). A negative rent passes and is stored.
- `addNewTenant` does not check the initial reading. A negative `kwhInitial` is stored in both
  reading fields. So readings are `int`, and the kept invariant is `kwhAncien <= kwhNouveau`,
  not non-negativity. Only readings committed by `updateTenantKwh` are known to be non-negative.
- Deleting an absent id, or deleting without confirmation, changes nothing and reports no error.
- There is no edit operation in the code, so none is modelled.
- The update and add operations return only `true`/`false`/`undefined`; the two kinds of
  `false` differ in the alert shown. `KwhUpdate` and `AddResult` keep that distinction; `KwhStep` and `AddStep` pair the outcome with the roster it leaves.

## Model

| member | source | states |
|---|---|---|
| `Billing.IndividualConsumption` | app.js:28-31 | consumption is never negative; it is `kwhNouveau - kwhAncien` when that is >= 0 and 0 otherwise |
| `Billing.TotalConsumption` | app.js:36-40 | the total is at least every tenant's consumption, and is 0 exactly when every tenant consumed nothing (so 0 for an empty roster) |
| `Billing.RoundHalfUp` | app.js:53 | the result is the integer nearest to `num / den`, a half rounded up: `num/den - 1/2 < r <= num/den + 1/2` |
| `Billing.ElectricityShare` | app.js:45-54 | 0 for any bill when the total consumption is 0; otherwise within half a unit of the exact prorata `ind * bill / total` |
| `Billing.TotalToPay` | app.js:59-62 | the amount due is at least the rent for a non-negative bill, and exceeds it exactly when `2 * ind * bill >= total > 0` |
| `Billing.ShareSign` | app.js:183-186 | the share is non-negative for a non-negative bill, and positive exactly when twice the prorata reaches the total, which is when the amount due is shown above the rent |
| `Billing.ConsumptionPercentage` | app.js:67-74 | 0 when nothing was consumed; otherwise within half a point of `100 * ind / total` |
| `Billing.ValidateKwhIndex` | app.js:79-93 | accepts a pair exactly when neither reading is negative and the new one is not below the old one |
| `Billing.CalculateKwh` | app.js:284-310 | never negative; 0 when a reading is negative or the new one is below the old; otherwise the difference |
| `Billing.RoundHalfUpBetween` | app.js:53 | rounding keeps any integer bounds of the exact quotient |
| `Billing.ShareWithinBill` | app.js:45-54 | for a tenant of the roster and a bill >= 0, the share lies in `[0, bill]` |
| `Billing.PercentageWithinRange` | app.js:67-74 | for a tenant of the roster the percentage lies in `[0, 100]` |
| `Billing.PercentageIsShareOfHundred` | app.js:67-74 | the percentage is the share of a bill of 100 |
| `Billing.SumOfSharesNearProrata` | app.js:45-54 | the shares of any non-empty group of tenants are within half a unit per tenant of the group's exact prorata |
| `Billing.SharesSumNearBill` | app.js:45-54 | per-tenant rounding makes the sum of the shares drift from the bill by at most `|roster| / 2` |
| `Billing.NoConsumptionNoShares` | app.js:49 | when nothing was consumed the shares add up to 0 whatever the bill |
| `Billing.PercentagesSumNearHundred` | app.js:67-74 | the percentages add up to 100 within half a point per tenant |
| `Billing.CalculatorAgreesWithValidation` | app.js:284-310 | the calculator gives the clamped consumption exactly on the pairs `validateKwhIndex` accepts, and 0 on the others |
| `Billing.TwoTenantScenario` | app.js:45-74 | the first two initial tenants sharing 45000: totals 255 kWh, shares 22059 and 22941, percentages 49 and 51, first amount due 172059 |
| `TenantRoster.IndexOf` | app.js:656 | the position of the first tenant with the id, or -1 exactly when no tenant has it |
| `TenantRoster.Roster.FindIndex` | app.js:656 | the loop returns the first position holding the id, or -1 |
| `TenantRoster.LowerChar` | app.js:512 | `toLowerCase` on one character never yields a capital; an ASCII capital becomes the matching small letter and every other character is kept |
| `TenantRoster.ToLower` | app.js:512 | a lowered label has the same length and contains no capital; each ASCII capital becomes the matching small letter, and every other character is kept |
| `TenantRoster.SameRoom` | app.js:512 | labels of different lengths never name the same room, and a label names its own room |
| `TenantRoster.SameRoomLetterByLetter` | app.js:512 | two labels name the same room exactly when they have the same length and agree at every position up to letter case |
| `TenantRoster.RoomTaken` | app.js:512 | a room is occupied exactly when some tenant of the roster has a label naming the same room up to case; never on an empty roster |
| `TenantRoster.RoomTakenIgnoresCase` | app.js:512 | for every roster and label, the room test gives the same answer for the label and for its lowered form |
| `TenantRoster.RoomCheckIgnoresCase` | app.js:512 | on the initial roster, `a-101` counts as occupied (by `A-101`) and `A-103` as free |
| `TenantRoster.RequiredFieldsPresent` | app.js:506 | the form passes exactly when name, first name and room are non-empty and the rent is not 0; a negative rent passes |
| `TenantRoster.MaxId` | app.js:519 | the result is one of the ids and no id exceeds it |
| `TenantRoster.NextId` | app.js:519 | the new id exceeds every id; it is the largest id plus one, or 1 on an empty roster |
| `TenantRoster.RecordKwh` | app.js:98-136 | an unknown id, a negative reading or a decreasing pair changes nothing and is reported as such; otherwise exactly that tenant's two readings are set, with `0 <= kwhAncien <= kwhNouveau`; the roster invariant is kept |
| `TenantRoster.AddTenant` | app.js:494-542 | a missing name, first name or room, or a zero rent, or a room taken up to case, changes nothing; otherwise one tenant is appended with a fresh id and both readings equal to the initial one, so its consumption and the change of total consumption are 0; the roster invariant is kept |
| `TenantRoster.RemoveTenant` | app.js:650-659 | without confirmation or with an absent id the roster is unchanged; otherwise the first tenant with the id is removed and the others keep their order; the roster invariant is kept |
| `TenantRoster.TotalAppend` | app.js:36-40 | the total consumption of two groups together is the sum of their totals |
| `TenantRoster.AddKeepsShares` | app.js:534-535 | adding a tenant changes no electricity share and no percentage |
| `TenantRoster.DeleteRemovesOnlyThatTenant` | app.js:655-659 | with unique ids, a confirmed delete keeps exactly the tenants whose id differs |
| `TenantRoster.Ids` | app.js:519 | `tenants.map(t => t.id)` has one finite entry per tenant, the tenant's id, in roster order |
| `TenantRoster.Larger` | app.js:519 | the larger of two numbers is one of them and neither is above it, -Infinity being below every integer |
| `TenantRoster.MathMax` | app.js:519 | `Math.max` gives -Infinity exactly when it has no finite argument; otherwise it gives one of its arguments, and no argument is above it |
| `TenantRoster.NewIdAsWritten` | app.js:519 | the id as written is -Infinity exactly when there is no finite id; otherwise it exceeds every id and is one more than one of them |
| `TenantRoster.EmptyRosterIdsCollide` | app.js:519 | as written, a tenant added to an empty roster gets the id -Infinity, and so does the next one |
| `TenantRoster.NewIdAsWrittenMatchesNextId` | app.js:519 | on a non-empty roster the id as written equals `NextId` |
| `TenantRoster.SeedTenants` | app.js:10-16 | the application starts with five tenants with ids 1 to 5 in order, each with an old reading not above the new one |
| `TenantRoster.SeedTenantsValid` | app.js:10-16 | the initial five tenants satisfy the roster invariant; together they consumed 765 kWh |
| `TenantRoster.Roster.constructor` | app.js:10-16 | the roster starts as the five initial tenants and satisfies the invariant |
| `TenantRoster.Roster.UpdateTenantKwh` | app.js:98-136 | outcome and new roster are those of `RecordKwh`; the invariant is kept |
| `TenantRoster.Roster.AddNewTenant` | app.js:494-542 | outcome and new roster are those of `AddTenant`; the invariant is kept |
| `TenantRoster.Roster.DeleteTenant` | app.js:650-659 | the new roster is that of `RemoveTenant`; the invariant is kept |

## Findings

| source | as written | input that shows it | evidently intended | confidence | as-written member | corrected member |
|---|---|---|---|---|---|---|
| app.js:519 | `Math.max(...tenants.map(t => t.id)) + 1` | an empty roster (after every tenant was deleted): `Math.max()` is -Infinity, so the new id is -Infinity, and a second add again gives -Infinity | the largest id defaulting to 0, plus 1, so the first id is 1 and ids stay unique | high; not executed | `TenantRoster.NewIdAsWritten`, `TenantRoster.EmptyRosterIdsCollide` | `TenantRoster.NextId` |

## Left out

- Rendering and DOM work: `updateTenantsTable`, `updateStats` (including its sum of rents), `updateCalculationResult`, `addTenantRowToTable`, `showAlert`, `searchTenant`, and the input-reset branches of `updateTenantKwh`. They only display values the model computes.
- `calculateAllTotals` and `calculateProrata`: they read the bill from the page and redraw. The bill is a parameter here.
- `formatNumber`, `getCurrentDate`, `getCurrentMonth`, `validateEmail`, `validatePhone`: these are library formatting, dates and regular expressions.
- Login and navigation, photo preview, Bootstrap modals, the `setTimeout` listener wiring, and `animations.js`: browser I/O, timers and visual effects.
- `confirm()` in `deleteTenant` is the boolean parameter `confirmed`.
- Lenient parsing (`parseInt(x) || 0`, `parseFloat(x) || 0`) and `trim()` at the form boundary. Operations take already parsed values.
- The `telephone`, `photo` and `lastPayment` fields of a new tenant: display data that no computation reads.
- TenantRoster.AddTenant: on an empty roster the new id is 1, from the corrected `NextId`, where app.js:519 computes -Infinity (see "## Findings"). The same holds for `Roster.AddNewTenant`.
- `toLowerCase` is modelled on ASCII letters only; other letters compare as written.
- `updateTenantKwh` mutates the object returned by `find`. The model replaces the element at that position in the roster sequence. The only other references to tenant objects, the input listeners of app.js:432-446, read only `id`, which no operation changes, so replacing the element has the same effect.
- Billing.ElectricityShare: computed in exact rational arithmetic with an integer bill. The code divides and multiplies in IEEE doubles with any decimal bill, so a quotient within rounding error of a half can round the other way.
- Billing.ConsumptionPercentage: computed exactly, with the same floating-point caveat as the share.
- Billing.CalculateKwh: readings are exact reals, not IEEE doubles.
- Readings, rents, sums and ids are IEEE doubles in the code; the model uses unbounded integers. It therefore assumes every integer value stays below 2^53: beyond that, for instance, `Math.max(...) + 1` stops producing a new id.
