# Solar power calculator and fetch de-duplication, modelled in Dafny

This project models the logic of a solar-installer website.

**The power calculator** (`PowerCalculator` component). A visitor builds a list of household appliances. Each appliance has watts, hours of use per day, an optional unit count and the hours of battery backup it needs. The list is edited in four ways:
- custom entries are validated and appended;
- entries are removed by position;
- preset tiles merge by name, adding one unit per click;
- a tile's "-" button acts on every entry with the tile's name: an entry with more than one unit loses one, and an entry with one unit or less, or with no count at all, is removed.

A tile can also override the backup hours of every entry with its name. The list can be saved as a named profile. "Calculate" turns the list and four parameters (sun hours, the global backup target, system efficiency and electricity price) into a system recommendation:
- daily energy;
- solar array size;
- battery size;
- inverter size in kW and kVA;
- daily, monthly and yearly cost.

The figures are stored as a row of the `stats` table, then shown.

**The gallery and testimonials sections.** Each fetches its rows, then keeps one row per id by passing the rows through an ECMAScript `Map` keyed by id (section 24.1 of ECMA-262).

Files:
- `wrappers.dfy`: `Option`.
- `appliances.dfy`: the `Appliance` record, the `|| default` coercion, the effective count, and every list transform of the editor as a pure function with its own lemmas. It also holds the `trim` applied to profile names.
- `sizing.dfy`: the three `reduce` folds and the sizing arithmetic over exact reals, the stored `stats` row, and fold algebra (additivity, linearity in a count, non-negativity).
- `edit_effects.dfy`: how each edit moves the sizing figures, and the worked single-appliance example.
- `calculator.dfy`: the component state as a class whose methods are the event handlers.
- `dedupe.dfy`: the `Map` (keys in insertion order and their current values), `Map.prototype.set`, the values read back, and the generic de-duplication with its properties.
- `gallery.dfy`, `testimonials.dfy`: the two rows types and the de-duplication applied to them.

Numbers are Dafny `real`, which is exact. The model therefore states the formulas' intended values, not IEEE-754 approximations. A count is `Option<int>`: `None` is the absent property.

The coercion `x || d` is `OrDefault`. Both zero and "no number" (an absent argument, or the NaN that `parseFloat` returns) give `d`.

The four parameter setters coerce their input with non-zero defaults. So the class invariant `Valid()` keeps sun hours, backup hours, efficiency and price non-zero. That is what makes the divisions in the sizing defined, and `Size` requires only that. `Valid()` also says that the draft carries no count and that every count in the list is absent or at least one (`EditorCounts`). Every list handler requires and keeps this, which is what the per-unit lemmas need.

A failed insert throws (project/src/PowerCalculator.tsx:209) into the catch block (245-255), which shows an error toast, so the results toast (222-243) is never reached. `CalculatePowerNeeds` returns `SaveFailed` in that case.

## Model

| member | source | states |
|---|---|---|
| Appliances.CatalogueWellFormed | project/src/PowerCalculator.tsx:20-29 | the quick-add catalogue has eight presets with distinct names and positive wattage |
| Appliances.EmptyDraftRefused | project/src/PowerCalculator.tsx:33-38 | the reset form ('', 0 W, 1 h, no count, 24 h backup, as at 110) is refused by the add guard |
| Appliances.Accepts | project/src/PowerCalculator.tsx:97 | the add guard: non-empty name, positive watts, hours and backup hours; its uses are stated by `Calculator.AddAppliance` and `EmptyDraftRefused` |
| Appliances.OrDefault | project/src/PowerCalculator.tsx:130 | a non-zero number is kept; zero or no number gives the fallback; a non-zero fallback makes the result non-zero |
| Appliances.EffCount | project/src/PowerCalculator.tsx:172-185 | count-or-one: an absent or zero count counts as one unit; any other count, negative ones included, is kept; so the result is never zero |
| Appliances.DropIndex | project/src/PowerCalculator.tsx:113-115 | position `index` is removed and the others keep their order; an index outside the list leaves it unchanged |
| Appliances.AddUnit | project/src/PowerCalculator.tsx:122 | one entry with (count or 1) + 1; its effect on the totals is stated by `Sizing.UnitStepUsage` and `Sizing.UnitStepBattery` |
| Appliances.PresetEntry | project/src/PowerCalculator.tsx:126-131 | the entry a new preset appends; its fields are stated by `AddCommon` and its energy by `EditEffects.AddNewPresetUsage` |
| Appliances.IncrementNamed | project/src/PowerCalculator.tsx:119-124 | same length; entries of other names unchanged; each entry of the name keeps its other fields and gets count = effective count + 1 |
| Appliances.AddCommon | project/src/PowerCalculator.tsx:117-133 | afterwards the name is present; a present name gives the list with every entry of that name incremented (same length); a new name appends (name, watts, 1 h, count 1, custom-or-global backup hours) after the untouched old list |
| Appliances.DeselectEntry | project/src/PowerCalculator.tsx:136-142 | one entry of the name loses a unit or, at one unit or none, is dropped; others are kept; stated by `DeselectDropsLastUnits` (the dropping half, counts absent or at most one), `DeselectDecrements` (the decrementing half), `DeselectAppend` (mixed lists) and `EditEffects.DeselectRemovesOneUnitEach` |
| Appliances.Deselect | project/src/PowerCalculator.tsx:135-144 | never lengthens the list; a name not in the list leaves it unchanged |
| Appliances.DeselectDropsLastUnits | project/src/PowerCalculator.tsx:135-144 | when no entry of the name has more than one unit (no count, or a count of one or less, whatever its other fields), deselecting removes every entry of the name and keeps the others in order |
| Appliances.DeselectDecrements | project/src/PowerCalculator.tsx:135-144 | when every entry of the name has more than one unit, deselecting gives the same list with one unit fewer on each entry of the name |
| Appliances.DeselectAppend | project/src/PowerCalculator.tsx:136-143 | the per-entry map-and-filter distributes over concatenation |
| Appliances.DeselectKeepsOthers | project/src/PowerCalculator.tsx:135-144 | the entries of every other name, with their order and fields, are exactly those before |
| Appliances.AddNewThenDeselect | project/src/PowerCalculator.tsx:117-144 | for a name not in the list, adding the preset and then deselecting it restores the list |
| Appliances.IncrementThenDeselect | project/src/PowerCalculator.tsx:117-144 | when each entry of the name has at least one unit, adding a unit and removing one restores the list |
| Appliances.AddCustomKeepsCounts | project/src/PowerCalculator.tsx:109 | appending a count-less draft keeps every count absent or at least one |
| Appliances.DropIndexKeepsCounts | project/src/PowerCalculator.tsx:113-115 | removing a position keeps every count absent or at least one |
| Appliances.AddCommonKeepsCounts | project/src/PowerCalculator.tsx:117-133 | a preset click (count 1, or count-or-one plus one) keeps every count absent or at least one |
| Appliances.DeselectKeepsCounts | project/src/PowerCalculator.tsx:135-144 | deselecting (which decrements only counts above one) keeps every count absent or at least one |
| Appliances.SetBackupHoursKeepsCounts | project/src/PowerCalculator.tsx:146-152 | a backup-hours override keeps every count absent or at least one |
| Appliances.SetBackupHours | project/src/PowerCalculator.tsx:146-152 | same length; entries of other names unchanged; entries of the name change only their backup hours |
| Appliances.LeadingSpace | project/src/PowerCalculator.tsx:340 | the count of leading characters that are whitespace, with the next character, if any, not whitespace |
| Appliances.TrailingSpace | project/src/PowerCalculator.tsx:340 | the count of trailing characters that are whitespace, with the character before them, if any, not whitespace |
| Appliances.TrimStart | project/src/PowerCalculator.tsx:340 | the result is a suffix of the input; it starts with a non-whitespace character; everything removed is whitespace |
| Appliances.TrimEnd | project/src/PowerCalculator.tsx:340 | the result is a prefix of the input; it ends with a non-whitespace character; everything removed is whitespace |
| Appliances.Trim | project/src/PowerCalculator.tsx:340 | the result is a contiguous slice of the input with only whitespace before and after it, and a non-empty result starts and ends with non-whitespace |
| Appliances.TrimEmptyIff | project/src/PowerCalculator.tsx:340-341 | a name trims to empty, and so is not saved, exactly when it is all whitespace |
| Sizing.Sum | project/src/PowerCalculator.tsx:172 | a `reduce` from 0 adding f of each entry; its algebra is `SumAppend`, `SumPointwise`, `SumUpdate` and `SumNonNegative` |
| Sizing.Energy | project/src/PowerCalculator.tsx:172 | watts × hours × (count or 1) of one entry; linear in the count by `RecountEnergy` |
| Sizing.BackupEnergy | project/src/PowerCalculator.tsx:179-181 | one entry's daily energy × backup hours / 24 / (efficiency × 1000); linear in the count by `RecountBackup` |
| Sizing.Load | project/src/PowerCalculator.tsx:185 | watts × (count or 1) of one entry, hours ignored (`EditEffects.SimultaneousIgnoresHours`) |
| Sizing.DailyUsage | project/src/PowerCalculator.tsx:172 | the daily-usage fold; additive by `UsageAdditive`, linear in each count by `RecountUsage` |
| Sizing.BatterySize | project/src/PowerCalculator.tsx:178-182 | the battery fold; additive by `UsageAdditive`, linear in each count by `RecountBattery` |
| Sizing.SimultaneousWatts | project/src/PowerCalculator.tsx:185 | the load fold; additive by `UsageAdditive` |
| Sizing.Max | project/src/PowerCalculator.tsx:186 | the result is at least both arguments and is one of them |
| Sizing.Size | project/src/PowerCalculator.tsx:172-194 | daily usage, battery size and simultaneous watts are the three folds of the list; daily cost = daily kWh × price; solar kW × sun hours × efficiency × 1000 = daily Wh; the inverter kW is at least both the 1.2-headroom load term and the 1.1-margin solar term, and equals one of them; kVA × 0.8 = kW; daily kWh × 1000 = daily Wh; monthly = 30 × daily cost; yearly = 365 × daily cost |
| Sizing.StatsRecord | project/src/PowerCalculator.tsx:199-207 | backup days × 24 = the global backup hours; the stored inverter size is the kW figure; the other fields are the computed figures and parameters |
| Sizing.SumAppend | project/src/PowerCalculator.tsx:172 | a `reduce` sum over a concatenation is the sum of the two parts |
| Sizing.UsageAdditive | project/src/PowerCalculator.tsx:172-185 | daily usage, battery size and simultaneous watts are each additive over list concatenation |
| Sizing.RecountEnergy | project/src/PowerCalculator.tsx:172 | re-counting one entry to k changes its daily energy by (k − effective count) one-unit energies |
| Sizing.RecountBackup | project/src/PowerCalculator.tsx:178-182 | re-counting one entry to k changes its battery share by (k − effective count) one-unit battery shares |
| Sizing.RecountUsage | project/src/PowerCalculator.tsx:172 | setting one entry's count to any non-zero k moves daily usage by (k − effective count) × that entry's one-unit energy, whatever the other entries |
| Sizing.RecountBattery | project/src/PowerCalculator.tsx:178-182 | setting one entry's count to any non-zero k moves battery size by (k − effective count) × that entry's one-unit battery share |
| Sizing.UnitStepUsage | project/src/PowerCalculator.tsx:172 | adding one unit to an entry whose count is absent or not negative raises daily usage by exactly that entry's one-unit energy |
| Sizing.UnitStepBattery | project/src/PowerCalculator.tsx:178-182 | adding one unit to an entry whose count is absent or not negative raises the battery size by exactly that entry's one-unit battery share |
| Sizing.SizingNonNegative | project/src/PowerCalculator.tsx:172-194 | with positive watts, hours and backup hours, non-negative counts, positive sun hours and efficiency and a non-negative price, every figure is non-negative |
| EditEffects.RemoveThenReAdd | project/src/PowerCalculator.tsx:113-115 | removing an entry and appending it again leaves daily usage, battery size and simultaneous watts unchanged |
| EditEffects.EditorCountsNotNegative | project/src/PowerCalculator.tsx:117-144 | every list the editor builds meets the per-unit lemmas' count condition |
| EditEffects.IncrementAddsOneUnitEach | project/src/PowerCalculator.tsx:119-124 | when every entry of the name has a count absent or not negative (as in every list the editor builds), adding a preset whose name is present raises daily usage by one unit's energy for each entry of that name |
| EditEffects.AddNewPresetUsage | project/src/PowerCalculator.tsx:126-131 | adding a new preset raises daily usage by its wattage (one unit for one hour) |
| EditEffects.DeselectRemovesOneUnitEach | project/src/PowerCalculator.tsx:135-144 | when every entry of the name has a count absent or not negative (as in every list the editor builds), deselecting lowers daily usage by one unit's energy for each entry of that name, whether it is decremented or dropped |
| EditEffects.BackupOverrideOnlyMovesBattery | project/src/PowerCalculator.tsx:146-152 | a backup-hours override changes only the battery size among all the sizing figures |
| EditEffects.OverrideKeepsTotals | project/src/PowerCalculator.tsx:146-152 | a backup-hours override leaves daily usage and simultaneous load unchanged |
| EditEffects.SimultaneousIgnoresHours | project/src/PowerCalculator.tsx:185 | the inverter's load term does not depend on any entry's hours |
| EditEffects.SingleApplianceExample | project/src/PowerCalculator.tsx:172-194 | 150 W for 10 h with a 24 h backup, 5 sun hours, efficiency 0.85 and 0.12 per kWh gives 1500 Wh, 6/17 kW solar, 30/17 kWh battery, 33/85 kW and 33/68 kVA inverter, and costs of 0.18, 5.4 and 65.7 |
| PowerCalculator.Calculator.constructor | project/src/PowerCalculator.tsx:32-45 | empty list and profiles, the empty draft, sun 5 h, backup 24 h, efficiency 0.85, price 0.12 |
| PowerCalculator.Calculator.SetDraft | project/src/PowerCalculator.tsx:444-465 | the form's edits replace the draft with one that has no count, as the form has no count field; the invariant is kept |
| PowerCalculator.Calculator.AddAppliance | project/src/PowerCalculator.tsx:96-111 | an empty name or non-positive watts, hours or backup hours changes nothing; otherwise the draft is appended unchanged and the draft resets to ('', 0, 1, 24) |
| PowerCalculator.Calculator.RemoveAppliance | project/src/PowerCalculator.tsx:113-115 | the list loses exactly that position; an index outside the list changes nothing |
| PowerCalculator.Calculator.AddCommonAppliance | project/src/PowerCalculator.tsx:117-133 | a present name increments every entry of that name; a new name appends (name, watts, 1 h, count 1, custom-or-global backup hours); daily usage rises by one unit's energy per entry of the name, or by the preset's wattage; the editor's counts are kept |
| PowerCalculator.Calculator.DeselectCommonAppliance | project/src/PowerCalculator.tsx:135-144 | the list becomes its deselection, and entries of other names are preserved in order; daily usage falls by one unit's energy per entry of the name; the editor's counts are kept |
| PowerCalculator.Calculator.UpdateApplianceBackupHours | project/src/PowerCalculator.tsx:146-152 | the list becomes the per-name backup override |
| PowerCalculator.Calculator.BackupHoursInput | project/src/PowerCalculator.tsx:406-409 | the parsed hours, or the global target when the parse gives nothing or zero, go to every entry of the tile's name, so those entries never get zero backup hours |
| PowerCalculator.Calculator.SetSunHours | project/src/PowerCalculator.tsx:549 | sun hours become the parsed value or 5, and stay non-zero |
| PowerCalculator.Calculator.SetBackupHoursTarget | project/src/PowerCalculator.tsx:560 | the global backup target becomes the parsed value or 24, and stays non-zero |
| PowerCalculator.Calculator.SetEfficiency | project/src/PowerCalculator.tsx:571 | efficiency becomes the parsed value or 0.85, and stays non-zero |
| PowerCalculator.Calculator.SetCostPerKwh | project/src/PowerCalculator.tsx:526 | the price becomes the parsed value or 0.12, and stays non-zero |
| PowerCalculator.Calculator.SaveProfile | project/src/PowerCalculator.tsx:338-350 | a name that trims to empty saves nothing; otherwise one profile is appended with the trimmed name and a snapshot of the list |
| PowerCalculator.Calculator.CalculatePowerNeeds | project/src/PowerCalculator.tsx:154-258 | an empty list is refused with nothing computed or stored; otherwise the stored row is built from the sizing of the list, and the results are shown exactly when the insert succeeds |
| Dedupe.DedupeById | project/src/components/Gallery.tsx:24-26 | `Array.from(new Map(rows.map(r => [r.id, r])).values())`, shared with project/src/components/Testimonials.tsx:24-26; its properties are the `Dedupe*` lemmas below |
| Dedupe.Set | project/src/components/Gallery.tsx:25 | the key maps to the new value and no other mapping changes; a present key keeps its place; a new key goes last; keys stay distinct and in step with the mapping |
| Dedupe.Build | project/src/components/Gallery.tsx:25 | the Map built from the rows is well formed |
| Dedupe.Values | project/src/components/Gallery.tsx:24-26 | the array has one value per key, in key order |
| Dedupe.FirstIndex | project/src/components/Gallery.tsx:24-26 | the position of the first occurrence of an id |
| Dedupe.LastWithIsLast | project/src/components/Gallery.tsx:25 | the reference "last row with this id" exists exactly when the id occurs, and no later row carries it |
| Dedupe.BuildHoldsLast | project/src/components/Gallery.tsx:25 | the Map holds exactly the input ids, each mapped to the last row carrying it |
| Dedupe.BuildFirstOrder | project/src/components/Gallery.tsx:25 | the Map's keys are ordered by first occurrence in the input |
| Dedupe.BuildSize | project/src/components/Gallery.tsx:24-26 | the Map has at most one key per row, exactly one when the ids are distinct, and then the keys are the ids in order |
| Dedupe.KeysStep | project/src/components/Gallery.tsx:25 | setting one more row leaves the keys as they were when its id was seen, and appends the id otherwise |
| Dedupe.LastWithDistinct | project/src/components/Gallery.tsx:25 | with distinct ids, the last row carrying a row's id is that row itself |
| Dedupe.DedupeUniqueIds | project/src/components/Gallery.tsx:24-26 | no two result rows share an id |
| Dedupe.DedupeCoversIds | project/src/components/Gallery.tsx:24-26 | an id occurs in the result exactly when it occurs in the input |
| Dedupe.DedupeLength | project/src/components/Gallery.tsx:24-26 | the result is no longer than the input, and equally long exactly when the input ids are distinct |
| Dedupe.DedupeKeepsLast | project/src/components/Gallery.tsx:25 | each result row is the last input row with its id |
| Dedupe.DedupeFirstOrder | project/src/components/Gallery.tsx:24-26 | result rows are ordered by the first occurrence of their ids in the input |
| Dedupe.DistinctUnchanged | project/src/components/Gallery.tsx:24-26 | input with distinct ids comes back unchanged |
| Dedupe.DedupeIdempotent | project/src/components/Gallery.tsx:24-26 | de-duplicating twice is de-duplicating once |
| Gallery.UniqueItems | project/src/components/Gallery.tsx:24-26 | gallery rows: unique ids, the same id set, no longer than the input (equal exactly when the ids are distinct), each the last row of its id, in first-occurrence order |
| Gallery.DistinctItemsKeepSortOrder | project/src/components/Gallery.tsx:15-26 | rows sorted by `order` with distinct ids come through unchanged, and so still sorted |
| Gallery.RepeatedIdCanBreakSortOrder | project/src/components/Gallery.tsx:15-26 | sorted rows with orders 1, 2, 3 whose first and last share an id come out with orders 3, 2, no longer sorted |
| Gallery.UniqueItemsIdempotent | project/src/components/Gallery.tsx:24-26 | de-duplicating the gallery rows twice is doing it once |
| Testimonials.UniqueTestimonials | project/src/components/Testimonials.tsx:24-26 | testimonials: unique ids, the same id set, no longer than the input, each the last row of its id, in first-occurrence order of the unsorted fetch |
| Testimonials.UniqueTestimonialsIdempotent | project/src/components/Testimonials.tsx:24-26 | distinct-id testimonials come through unchanged, and de-duplicating twice is doing it once |

## Left out

- The hosted-database calls are not modelled: the `stats` insert and the gallery and testimonials selects. The insert's outcome is the `insertFails` parameter of `CalculatePowerNeeds`. The fetched rows are the `data` parameter of the de-duplication. The error and loading state around the fetches is not modelled.
- The toasts, markup, dialogs, the `toFixed(2)` formatting of the results and the `console.error` logging are presentation and are not modelled.
- `isCalculating` and the disabled "Calculate" button are not modelled, because nothing else depends on them and the handler runs to completion in the model.
- The weather stub that sets sun hours to 5.5 when the dialog opens is a hard-coded mock and is left out. `SetSunHours` covers the same state change.
- The profile's id and timestamp come from the clock, and the typed name is read from the DOM. They are parameters of `SaveProfile`. Profile selection (`selectedProfile`) changes nothing the model computes and is left out.
- Parsing is not modelled. `parseInt` and `parseFloat` give `Option<real>` / `real` inputs: `None` stands for NaN. A parse that truncates a fraction (`parseInt` on the draft's numeric fields) is folded into the value passed to `SetDraft`.
- PowerCalculator.Calculator.SetDraft: the draft's per-field handlers (each replacing one field, with `|| 0` on the numbers) are one replacement of the whole draft.
- Numbers are exact reals, not IEEE-754 doubles. Rounding, `Infinity` and NaN are not modelled. In particular, NaN results of `Math.max` cannot arise.
- Appliances.EffCount: a count is an integer. A fractional or NaN count, which the form cannot produce, is not modelled.
- Appliances.Deselect: its own contract states only the length bound and the no-match case. What happens to the entries of the name is stated by `Appliances.DeselectDropsLastUnits` (entries with no count or at most one unit are removed), `Appliances.DeselectDecrements` (entries with more units lose one), `Appliances.DeselectAppend` (which combines the two over a mixed list) and `EditEffects.DeselectRemovesOneUnitEach`. The other entries are covered by `Appliances.DeselectKeepsOthers`.
- `ApplianceProfile` (project/src/types/calculator.ts:1-12) is borrowed as `Profile`. The other type declarations and project/src/App.tsx are not part of this model.
