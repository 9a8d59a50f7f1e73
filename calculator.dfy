/** The state of the PowerCalculator component
    (project/src/PowerCalculator.tsx:31-45) and its event handlers. Every
    handler replaces a piece of state with a value computed from the old
    one (`setAppliances`, `setNewAppliance`, `setProfiles`, the parameter
    setters); each is a method here that assigns the pure transform of
    appliances.dfy or a coerced input. */
module PowerCalculator {
  import opened Wrappers
  import opened Appliances
  import opened Sizing
  import opened EditEffects

  /** A named snapshot of the appliance list (project/src/types/calculator.ts:1-12). */
  datatype Profile = Profile(id: string, name: string, appliances: seq<Appliance>, createdAt: string)

  /** How one press of "Calculate" ends. */
  datatype CalcOutcome =
    | NoAppliances                               // validation toast; nothing computed, nothing inserted
    | SaveFailed(record: StatsRow)               // the insert was attempted and failed; error toast, no results
    | Shown(result: Sizing, record: StatsRow)    // inserted; success toast and the results toast

  class Calculator {
    var appliances: seq<Appliance>
    var draft: Appliance          // the custom-entry form (`newAppliance`)
    var sunHours: real
    var backupHours: real         // the global backup target
    var efficiency: real
    var costPerKwh: real
    var profiles: seq<Profile>

    /** The parameter inputs never hold zero: every setter falls back to a
        non-zero default. This is what keeps the sizing divisions defined.
        The draft never carries a count, and every count in the list is one
        the editor produces (absent, or at least one). */
    ghost predicate Valid()
      reads this
    {
      sunHours != 0.0 && backupHours != 0.0 && efficiency != 0.0 && costPerKwh != 0.0 &&
      draft.count.None? && EditorCounts(appliances)
    }

    function CurrentParams(): Params
      reads this
    {
      Params(sunHours, backupHours, efficiency, costPerKwh)
    }

    constructor ()
      ensures Valid()
      ensures appliances == [] && draft == EmptyDraft && profiles == []
      ensures sunHours == 5.0 && backupHours == 24.0 && efficiency == 0.85 && costPerKwh == 0.12
    {
      appliances := [];
      draft := EmptyDraft;
      sunHours, backupHours, efficiency, costPerKwh := 5.0, 24.0, 0.85, 0.12;
      profiles := [];
    }

    /** The custom-entry form's `onChange` handlers replace the draft. */
    method SetDraft(d: Appliance)
      requires Valid() && d.count.None?
      modifies this`draft
      ensures Valid() && draft == d
    {
      draft := d;
    }

    /** addAppliance: a refused draft changes nothing; an accepted one is
        appended as it is and the form is reset. */
    method AddAppliance()
      requires Valid()
      modifies this`appliances, this`draft
      ensures Valid()
      ensures Accepts(old(draft)) ==> appliances == old(appliances) + [old(draft)] && draft == EmptyDraft
      ensures !Accepts(old(draft)) ==> appliances == old(appliances) && draft == old(draft)
    {
      if !Accepts(draft) {
        return;
      }
      AddCustomKeepsCounts(appliances, draft);
      appliances := appliances + [draft];
      draft := EmptyDraft;
    }

    /** removeAppliance: drops position `index`; any other index changes nothing. */
    method RemoveAppliance(index: int)
      requires Valid()
      modifies this`appliances
      ensures Valid()
      ensures 0 <= index < |old(appliances)| ==> appliances == old(appliances)[..index] + old(appliances)[index + 1..]
      ensures !(0 <= index < |old(appliances)|) ==> appliances == old(appliances)
    {
      DropIndexKeepsCounts(appliances, index);
      appliances := DropIndex(appliances, index);
    }

    /** addCommonAppliance: merges into the entries of that name or appends
        a one-unit entry backing up for the custom or the global hours. */
    method AddCommonAppliance(p: Preset, customBackupHours: Option<real>)
      requires Valid()
      modifies this`appliances
      ensures Valid()
      ensures appliances == AddCommon(old(appliances), p, customBackupHours, backupHours)
      ensures HasName(old(appliances), p.name) ==> appliances == IncrementNamed(old(appliances), p.name)
      ensures !HasName(old(appliances), p.name) ==>
        appliances == old(appliances) + [Appliance(p.name, p.watts, 1.0, Some(1), OrDefault(customBackupHours, backupHours))]
      ensures HasName(old(appliances), p.name) ==>
        DailyUsage(appliances) == DailyUsage(old(appliances)) + Sum(old(appliances), NamedUnitEnergy(p.name))
      ensures !HasName(old(appliances), p.name) ==> DailyUsage(appliances) == DailyUsage(old(appliances)) + p.watts
    {
      AddCommonKeepsCounts(appliances, p, customBackupHours, backupHours);
      if HasName(appliances, p.name) {
        EditorCountsNotNegative(appliances, p.name);
        IncrementAddsOneUnitEach(appliances, p.name);
      } else {
        AddNewPresetUsage(appliances, p, customBackupHours, backupHours);
      }
      appliances := AddCommon(appliances, p, customBackupHours, backupHours);
    }

    /** deselectCommonAppliance */
    method DeselectCommonAppliance(name: string)
      requires Valid()
      modifies this`appliances
      ensures Valid()
      ensures appliances == Deselect(old(appliances), name)
      ensures Others(appliances, name) == Others(old(appliances), name)
      ensures DailyUsage(appliances) == DailyUsage(old(appliances)) - Sum(old(appliances), NamedUnitEnergy(name))
    {
      DeselectKeepsCounts(appliances, name);
      EditorCountsNotNegative(appliances, name);
      DeselectRemovesOneUnitEach(appliances, name);
      appliances := Deselect(appliances, name);
      DeselectKeepsOthers(old(appliances), name);
    }

    /** updateApplianceBackupHours */
    method UpdateApplianceBackupHours(name: string, hours: real)
      requires Valid()
      modifies this`appliances
      ensures Valid()
      ensures appliances == SetBackupHours(old(appliances), name, hours)
    {
      SetBackupHoursKeepsCounts(appliances, name, hours);
      appliances := SetBackupHours(appliances, name, hours);
    }

    /** A preset tile's backup-hours input: the parsed number, or the global
        backup target when the parse gives nothing or zero, is applied to
        every entry of the preset's name. */
    method BackupHoursInput(name: string, parsed: Option<real>)
      requires Valid()
      modifies this`appliances
      ensures Valid()
      ensures appliances == SetBackupHours(old(appliances), name, OrDefault(parsed, backupHours))
      ensures forall k :: 0 <= k < |appliances| && appliances[k].name == name ==> appliances[k].backupHours != 0.0
    {
      UpdateApplianceBackupHours(name, OrDefault(parsed, backupHours));
    }

    method SetSunHours(parsed: Option<real>)
      requires Valid()
      modifies this`sunHours
      ensures Valid() && sunHours == OrDefault(parsed, 5.0)
    {
      sunHours := OrDefault(parsed, 5.0);
    }

    method SetBackupHoursTarget(parsed: Option<real>)
      requires Valid()
      modifies this`backupHours
      ensures Valid() && backupHours == OrDefault(parsed, 24.0)
    {
      backupHours := OrDefault(parsed, 24.0);
    }

    method SetEfficiency(parsed: Option<real>)
      requires Valid()
      modifies this`efficiency
      ensures Valid() && efficiency == OrDefault(parsed, 0.85)
    {
      efficiency := OrDefault(parsed, 0.85);
    }

    method SetCostPerKwh(parsed: Option<real>)
      requires Valid()
      modifies this`costPerKwh
      ensures Valid() && costPerKwh == OrDefault(parsed, 0.12)
    {
      costPerKwh := OrDefault(parsed, 0.12);
    }

    /** The save-profile confirmation: the typed name is trimmed; a name that
        is empty after trimming saves nothing, any other appends a snapshot
        of the current list. The id and timestamp come from the clock. */
    method SaveProfile(typed: string, id: string, createdAt: string)
      modifies this`profiles
      ensures Trim(typed) == [] ==> profiles == old(profiles)
      ensures Trim(typed) != [] ==> profiles == old(profiles) + [Profile(id, Trim(typed), appliances, createdAt)]
    {
      var name := Trim(typed);
      if name != [] {
        profiles := profiles + [Profile(id, name, appliances, createdAt)];
      }
    }

    /** calculatePowerNeeds. An empty list is refused before anything is
        computed or inserted. Otherwise the figures are computed and the
        record inserted; `insertFails` is the insert's outcome. A failed
        insert throws into the catch block, so the results are not shown. */
    method CalculatePowerNeeds(insertFails: bool) returns (outcome: CalcOutcome)
      requires Valid()
      ensures outcome.NoAppliances? <==> appliances == []
      ensures outcome.Shown? <==> appliances != [] && !insertFails
      ensures outcome.SaveFailed? || outcome.Shown? ==>
        outcome.record == StatsRecord(Size(appliances, CurrentParams()), CurrentParams())
      ensures outcome.Shown? ==> outcome.result == Size(appliances, CurrentParams())
    {
      if |appliances| == 0 {
        return NoAppliances;
      }
      var p := CurrentParams();
      var result := Size(appliances, p);
      var record := StatsRecord(result, p);
      if insertFails {
        return SaveFailed(record);
      }
      return Shown(result, record);
    }
  }
}
