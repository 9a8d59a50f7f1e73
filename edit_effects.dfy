/** How each edit of the appliance list moves the sizing figures: the
    editor handlers of project/src/PowerCalculator.tsx:113-152 read through
    the folds of `calculatePowerNeeds` (172-185). */
module EditEffects {
  import opened Wrappers
  import opened Appliances
  import opened Sizing

  /** Per-unit daily energy of the entries with a given name, zero for the
      others. */
  function NamedUnitEnergy(name: string): Appliance -> real {
    (a: Appliance) => if a.name == name then UnitEnergy(a) else 0.0
  }

  /** The count of every entry with this name is absent or not negative. */
  predicate CountsNotNegative(s: seq<Appliance>, name: string) {
    forall k :: 0 <= k < |s| && s[k].name == name ==> s[k].count.None? || s[k].count.value >= 0
  }

  /** Every list the editor builds meets the per-unit lemmas' condition. */
  lemma EditorCountsNotNegative(s: seq<Appliance>, name: string)
    requires EditorCounts(s)
    ensures CountsNotNegative(s, name)
  {
  }

  /** Removing an entry and adding it again at the end gives back the same
      daily usage, battery size and simultaneous load. */
  lemma RemoveThenReAdd(s: seq<Appliance>, i: int, efficiency: real)
    requires 0 <= i < |s| && efficiency != 0.0
    ensures DailyUsage(DropIndex(s, i) + [s[i]]) == DailyUsage(s)
    ensures BatterySize(DropIndex(s, i) + [s[i]], efficiency) == BatterySize(s, efficiency)
    ensures SimultaneousWatts(DropIndex(s, i) + [s[i]]) == SimultaneousWatts(s)
  {
    SumMoveToEnd(s, i, Energy);
    SumMoveToEnd(s, i, BackupEnergyAt(efficiency));
    SumMoveToEnd(s, i, Load);
  }

  /** Moving one entry to the end does not change any fold. */
  lemma SumMoveToEnd(s: seq<Appliance>, i: int, f: Appliance -> real)
    requires 0 <= i < |s|
    ensures Sum(DropIndex(s, i) + [s[i]], f) == Sum(s, f)
  {
    SplitAt(s, i);
    SumRotate(s[..i], s[i], s[i + 1..], f);
  }

  /** A fold does not see where in the list one entry stands. */
  lemma SumRotate(a: seq<Appliance>, x: Appliance, b: seq<Appliance>, f: Appliance -> real)
    ensures Sum(a + (b + [x]), f) == Sum(a + ([x] + b), f)
  {
    SumAppend(a, [x] + b, f);
    SumAppend(a, b + [x], f);
    SumAppend([x], b, f);
    SumAppend(b, [x], f);
  }

  /** s around position i, before and after its entry is moved to the end.
      The three sequence identities are kept in separate lemmas: proved
      together in one context they are costly for the solver. */
  lemma SplitAt<T>(s: seq<T>, i: int)
    requires 0 <= i < |s|
    ensures s == s[..i] + ([s[i]] + s[i + 1..])
    ensures DropIndex(s, i) + [s[i]] == s[..i] + (s[i + 1..] + [s[i]])
  {
    Regroup(s[..i], s[i], s[i + 1..]);
    Rejoin(s, i);
    DropIndexAt(s, i);
  }

  lemma Rejoin<T>(s: seq<T>, i: int)
    requires 0 <= i < |s|
    ensures s == s[..i] + [s[i]] + s[i + 1..]
  {
  }

  lemma Regroup<T>(a: seq<T>, x: T, b: seq<T>)
    ensures (a + b) + [x] == a + (b + [x])
    ensures (a + [x]) + b == a + ([x] + b)
  {
  }

  lemma DropIndexAt<T>(s: seq<T>, i: int)
    requires 0 <= i < |s|
    ensures DropIndex(s, i) == s[..i] + s[i + 1..]
  {
  }

  /** Selecting a preset whose name is listed adds exactly one unit to every
      entry of that name: daily usage grows by their per-unit energy. */
  lemma IncrementAddsOneUnitEach(s: seq<Appliance>, name: string)
    requires CountsNotNegative(s, name)
    ensures DailyUsage(IncrementNamed(s, name)) == DailyUsage(s) + Sum(s, NamedUnitEnergy(name))
  {
    var r := IncrementNamed(s, name);
    forall k | 0 <= k < |r| ensures Energy(r[k]) == Energy(s[k]) + NamedUnitEnergy(name)(s[k]) {
      IncrementEntryEnergy(s[k], r[k], name);
    }
    SumPointwiseAdd(r, s, Energy, NamedUnitEnergy(name));
  }

  lemma IncrementEntryEnergy(a: Appliance, b: Appliance, name: string)
    requires a.name != name ==> b == a
    requires a.name == name ==> a.count.None? || a.count.value >= 0
    requires a.name == name ==> b == a.(count := Some(EffCount(a) + 1))
    ensures Energy(b) == Energy(a) + NamedUnitEnergy(name)(a)
  {
    if a.name == name {
      var c := EffCount(a) as real;
      EnergyByUnits(a);
      EnergyByUnits(b);
      assert EffCount(b) as real == c + 1.0;
      assert (c + 1.0) * UnitEnergy(a) == c * UnitEnergy(a) + UnitEnergy(a);
    }
  }

  /** Selecting a preset whose name is new adds one unit for one hour: daily
      usage grows by the preset's wattage. */
  lemma AddNewPresetUsage(s: seq<Appliance>, p: Preset, customBackupHours: Option<real>, globalBackupHours: real)
    requires !HasName(s, p.name)
    ensures DailyUsage(AddCommon(s, p, customBackupHours, globalBackupHours)) == DailyUsage(s) + p.watts
  {
    var e := PresetEntry(p, customBackupHours, globalBackupHours);
    SumAppend(s, [e], Energy);
    assert [e][..0] == [];
  }

  /** Deselecting a name takes exactly one unit away from every entry of
      that name (deleting those that had one): daily usage falls by their
      per-unit energy. */
  lemma {:induction false} DeselectRemovesOneUnitEach(s: seq<Appliance>, name: string)
    requires CountsNotNegative(s, name)
    ensures DailyUsage(Deselect(s, name)) == DailyUsage(s) - Sum(s, NamedUnitEnergy(name))
  {
    if s != [] {
      var a := s[0];
      assert CountsNotNegative(s[1..], name) by {
        forall k | 0 <= k < |s[1..]| && s[1..][k].name == name
          ensures s[1..][k].count.None? || s[1..][k].count.value >= 0
        {
          assert s[1..][k] == s[k + 1];
        }
      }
      DeselectRemovesOneUnitEach(s[1..], name);
      SumAppend(DeselectEntry(a, name), Deselect(s[1..], name), Energy);
      assert s == [a] + s[1..];
      SumCons(a, s[1..], Energy);
      SumCons(a, s[1..], NamedUnitEnergy(name));
      DeselectEntryEnergy(a, name);
    }
  }

  /** One entry loses one unit's energy when it carries the name. */
  lemma DeselectEntryEnergy(a: Appliance, name: string)
    requires a.name == name ==> a.count.None? || a.count.value >= 0
    ensures Sum(DeselectEntry(a, name), Energy) == Energy(a) - NamedUnitEnergy(name)(a)
  {
    var d := DeselectEntry(a, name);
    if d != [] {
      assert d == [d[0]];
      SumSingle(d[0], Energy);
    }
    if a.name == name {
      EnergyByUnits(a);
      if d != [] {
        var c := EffCount(a) as real;
        EnergyByUnits(d[0]);
        assert EffCount(d[0]) as real == c - 1.0;
        assert (c - 1.0) * UnitEnergy(a) == c * UnitEnergy(a) - UnitEnergy(a);
      }
    }
  }

  /** Overriding one name's backup hours leaves daily usage, solar size,
      simultaneous load, inverter and cost as they were: only the battery
      size can change. */
  lemma BackupOverrideOnlyMovesBattery(s: seq<Appliance>, name: string, hours: real, p: Params)
    requires p.sunHours != 0.0 && p.efficiency != 0.0
    ensures Size(SetBackupHours(s, name, hours), p) ==
            Size(s, p).(batterySize := BatterySize(SetBackupHours(s, name, hours), p.efficiency))
  {
    OverrideKeepsTotals(s, name, hours);
    SizeFromTotals(s, SetBackupHours(s, name, hours), p);
  }

  /** Backup hours enter neither the daily usage nor the simultaneous load. */
  lemma OverrideKeepsTotals(s: seq<Appliance>, name: string, hours: real)
    ensures DailyUsage(SetBackupHours(s, name, hours)) == DailyUsage(s)
    ensures SimultaneousWatts(SetBackupHours(s, name, hours)) == SimultaneousWatts(s)
  {
    var r := SetBackupHours(s, name, hours);
    forall k | 0 <= k < |r| ensures Energy(r[k]) == Energy(s[k]) && Load(r[k]) == Load(s[k]) {
      SameUseSameEnergy(r[k], s[k]);
    }
    SumPointwise(r, s, Energy);
    SumPointwise(r, s, Load);
  }

  lemma SameUseSameEnergy(a: Appliance, b: Appliance)
    requires a.watts == b.watts && a.hours == b.hours && a.count == b.count
    ensures Energy(a) == Energy(b) && Load(a) == Load(b)
  {
  }

  /** Apart from the battery, every figure depends on the list only through
      its daily usage and simultaneous load. */
  lemma SizeFromTotals(s: seq<Appliance>, t: seq<Appliance>, p: Params)
    requires p.sunHours != 0.0 && p.efficiency != 0.0
    requires DailyUsage(t) == DailyUsage(s) && SimultaneousWatts(t) == SimultaneousWatts(s)
    ensures Size(t, p) == Size(s, p).(batterySize := BatterySize(t, p.efficiency))
  {
  }

  /** The simultaneous load, and with it the inverter's first term, does not
      depend on the hours of use. */
  lemma SimultaneousIgnoresHours(s: seq<Appliance>, t: seq<Appliance>)
    requires |s| == |t|
    requires forall k :: 0 <= k < |s| ==> t[k] == s[k].(hours := t[k].hours)
    ensures SimultaneousWatts(t) == SimultaneousWatts(s)
  {
    forall k | 0 <= k < |s| ensures Load(t[k]) == Load(s[k]) {
      assert t[k].watts == s[k].watts && t[k].count == s[k].count;
    }
    SumPointwise(t, s, Load);
  }

  /** The worked example: one 150 W appliance used 10 hours a day with a
      24-hour backup window, 5 sun hours, efficiency 0.85, 0.12 per kWh. */
  lemma SingleApplianceExample()
    ensures var z := Size([Appliance("Refrigerator", 150.0, 10.0, Some(1), 24.0)], Params(5.0, 24.0, 0.85, 0.12));
      z.dailyUsage == 1500.0 && z.solarSize == 6.0 / 17.0 && z.batterySize == 30.0 / 17.0 &&
      z.totalSimultaneousWatts == 150.0 && z.inverterSizeKW == 33.0 / 85.0 &&
      z.inverterSizeKVA == 33.0 / 68.0 && z.dailyCost == 0.18 && z.monthlyCost == 5.4 && z.yearlyCost == 65.7
  {
    var a := Appliance("Refrigerator", 150.0, 10.0, Some(1), 24.0);
    var s := [a];
    SumSingle(a, Energy);
    SumSingle(a, Load);
    SumSingle(a, BackupEnergyAt(0.85));
    assert DailyUsage(s) == 1500.0;
    assert SimultaneousWatts(s) == 150.0;
    assert BatterySize(s, 0.85) == 30.0 / 17.0;
  }
}
