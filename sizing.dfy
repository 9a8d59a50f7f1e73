/** The sizing arithmetic of `calculatePowerNeeds`
    (project/src/PowerCalculator.tsx:172-207), over exact reals: three folds
    over the appliance list, then straight-line formulas. */
module Sizing {
  import opened Wrappers
  import opened Appliances

  /** The calculator's global inputs. */
  datatype Params = Params(sunHours: real, backupHours: real, efficiency: real, costPerKwh: real)

  /** Everything `calculatePowerNeeds` computes. */
  datatype Sizing = Sizing(
    dailyUsage: real,              // Wh per day
    solarSize: real,               // kW
    batterySize: real,             // kWh
    totalSimultaneousWatts: real,  // W
    inverterSizeKW: real,
    inverterSizeKVA: real,
    dailyKWh: real,
    dailyCost: real,
    monthlyCost: real,
    yearlyCost: real)

  /** The row inserted into the `stats` table. */
  datatype StatsRow = StatsRow(
    dailyUsage: real, sunHours: real, backupDays: real, efficiency: real,
    solarSize: real, batterySize: real, inverterSize: real)

  const InverterHeadroom: real := 1.2
  const SolarMargin: real := 1.1
  const PowerFactor: real := 0.8

  /** A `reduce` that adds f of each entry to a total starting at 0: a left fold. */
  function Sum(s: seq<Appliance>, f: Appliance -> real): real {
    if s == [] then 0.0 else Sum(s[..|s| - 1], f) + f(s[|s| - 1])
  }

  /** Daily energy of one entry in Wh: watts x hours x units. */
  function Energy(a: Appliance): real {
    a.watts * a.hours * (EffCount(a) as real)
  }

  /** Battery energy one entry needs in kWh: its daily energy scaled to its
      own backup window and corrected for efficiency. */
  function BackupEnergy(a: Appliance, efficiency: real): real
    requires efficiency != 0.0
  {
    Energy(a) * (a.backupHours / 24.0) / (efficiency * 1000.0)
  }

  /** The battery fold's step, for a fixed efficiency. */
  function BackupEnergyAt(efficiency: real): Appliance -> real
    requires efficiency != 0.0
  {
    (a: Appliance) => BackupEnergy(a, efficiency)
  }

  /** Simultaneous load of one entry in W: all units running, hours ignored. */
  function Load(a: Appliance): real {
    a.watts * (EffCount(a) as real)
  }

  function DailyUsage(s: seq<Appliance>): real { Sum(s, Energy) }

  function BatterySize(s: seq<Appliance>, efficiency: real): real
    requires efficiency != 0.0
  {
    Sum(s, BackupEnergyAt(efficiency))
  }

  function SimultaneousWatts(s: seq<Appliance>): real { Sum(s, Load) }

  /** `Math.max` on two numbers (no NaN arises from the formulas below). */
  function Max(x: real, y: real): (m: real)
    ensures m >= x && m >= y
    ensures m == x || m == y
  {
    if x >= y then x else y
  }

  /** The body of `calculatePowerNeeds` after the empty-list check. The two
      divisors are non-zero because the input fields fall back to their
      defaults when the typed value parses to zero. */
  function Size(s: seq<Appliance>, p: Params): (z: Sizing)
    requires p.sunHours != 0.0 && p.efficiency != 0.0
    ensures z.dailyUsage == DailyUsage(s) && z.batterySize == BatterySize(s, p.efficiency)
    ensures z.totalSimultaneousWatts == SimultaneousWatts(s)
    ensures z.dailyCost == z.dailyKWh * p.costPerKwh
    ensures z.solarSize * (p.sunHours * p.efficiency) * 1000.0 == z.dailyUsage
    ensures z.inverterSizeKW >= z.totalSimultaneousWatts * InverterHeadroom / 1000.0
    ensures z.inverterSizeKW >= z.solarSize * SolarMargin
    ensures z.inverterSizeKW == z.totalSimultaneousWatts * InverterHeadroom / 1000.0 ||
            z.inverterSizeKW == z.solarSize * SolarMargin
    ensures z.inverterSizeKVA * PowerFactor == z.inverterSizeKW
    ensures z.dailyKWh * 1000.0 == z.dailyUsage
    ensures z.monthlyCost == 30.0 * z.dailyCost && z.yearlyCost == 365.0 * z.dailyCost
  {
    var dailyUsage := DailyUsage(s);
    var sunFactor := p.sunHours * p.efficiency;
    assert sunFactor != 0.0;
    var solarSize := (dailyUsage / sunFactor) / 1000.0;
    assert solarSize * sunFactor == dailyUsage / 1000.0;
    var batterySize := BatterySize(s, p.efficiency);
    var totalSimultaneousWatts := SimultaneousWatts(s);
    var inverterSizeKW := Max((totalSimultaneousWatts * InverterHeadroom) / 1000.0, solarSize * SolarMargin);
    var inverterSizeKVA := inverterSizeKW / PowerFactor;
    var dailyKWh := dailyUsage / 1000.0;
    var dailyCost := dailyKWh * p.costPerKwh;
    Sizing(dailyUsage, solarSize, batterySize, totalSimultaneousWatts, inverterSizeKW, inverterSizeKVA,
           dailyKWh, dailyCost, dailyCost * 30.0, dailyCost * 365.0)
  }

  /** The record handed to the insert: the global backup hours as days and
      the inverter's kW figure. */
  function StatsRecord(z: Sizing, p: Params): (row: StatsRow)
    ensures row.backupDays * 24.0 == p.backupHours
    ensures row.inverterSize == z.inverterSizeKW && row.dailyUsage == z.dailyUsage
    ensures row.solarSize == z.solarSize && row.batterySize == z.batterySize
    ensures row.sunHours == p.sunHours && row.efficiency == p.efficiency
  {
    StatsRow(z.dailyUsage, p.sunHours, p.backupHours / 24.0, p.efficiency, z.solarSize, z.batterySize, z.inverterSizeKW)
  }

  // ---------------------------------------------------------------------
  // Properties of the folds
  // ---------------------------------------------------------------------

  /** Every fold is additive over list concatenation. */
  lemma {:induction false} SumAppend(a: seq<Appliance>, b: seq<Appliance>, f: Appliance -> real)
    ensures Sum(a + b, f) == Sum(a, f) + Sum(b, f)
  {
    if b == [] {
      assert a + b == a;
    } else {
      assert (a + b)[..|a + b| - 1] == a + b[..|b| - 1];
      SumAppend(a, b[..|b| - 1], f);
    }
  }

  lemma SumSingle(x: Appliance, f: Appliance -> real)
    ensures Sum([x], f) == f(x)
  {
    assert [x][..0] == [];
  }

  lemma SumCons(x: Appliance, s: seq<Appliance>, f: Appliance -> real)
    ensures Sum([x] + s, f) == f(x) + Sum(s, f)
  {
    SumAppend([x], s, f);
    SumSingle(x, f);
  }

  /** Two lists whose entries contribute the same amounts fold to the same
      total. */
  lemma {:induction false} SumPointwise(a: seq<Appliance>, b: seq<Appliance>, f: Appliance -> real)
    requires |a| == |b|
    requires forall k :: 0 <= k < |a| ==> f(a[k]) == f(b[k])
    ensures Sum(a, f) == Sum(b, f)
  {
    if a != [] {
      SumPointwise(a[..|a| - 1], b[..|b| - 1], f);
    }
  }

  /** A fold over non-negative contributions is non-negative. */
  lemma {:induction false} SumNonNegative(s: seq<Appliance>, f: Appliance -> real)
    requires forall k :: 0 <= k < |s| ==> f(s[k]) >= 0.0
    ensures Sum(s, f) >= 0.0
  {
    if s != [] {
      SumNonNegative(s[..|s| - 1], f);
    }
  }

  /** Replacing one entry changes a fold by the difference of the two
      contributions. */
  lemma SumUpdate(s: seq<Appliance>, i: int, x: Appliance, f: Appliance -> real)
    requires 0 <= i < |s|
    ensures Sum(s[i := x], f) == Sum(s, f) - f(s[i]) + f(x)
  {
    assert s == s[..i] + [s[i]] + s[i + 1..];
    assert s[i := x] == s[..i] + [x] + s[i + 1..];
    SumAppend(s[..i] + [s[i]], s[i + 1..], f);
    SumAppend(s[..i], [s[i]], f);
    SumAppend(s[..i] + [x], s[i + 1..], f);
    SumAppend(s[..i], [x], f);
    SumSingle(s[i], f);
    SumSingle(x, f);
  }

  /** When every entry of `a` contributes what the matching entry of `b`
      contributes under f plus what it contributes under g, the fold of `a`
      is the two folds of `b` added. */
  lemma {:induction false} SumPointwiseAdd(a: seq<Appliance>, b: seq<Appliance>, f: Appliance -> real, g: Appliance -> real)
    requires |a| == |b|
    requires forall k :: 0 <= k < |a| ==> f(a[k]) == f(b[k]) + g(b[k])
    ensures Sum(a, f) == Sum(b, f) + Sum(b, g)
  {
    if a != [] {
      SumPointwiseAdd(a[..|a| - 1], b[..|b| - 1], f, g);
    }
  }

  /** Daily usage and battery size are additive over concatenation. */
  lemma UsageAdditive(a: seq<Appliance>, b: seq<Appliance>, efficiency: real)
    requires efficiency != 0.0
    ensures DailyUsage(a + b) == DailyUsage(a) + DailyUsage(b)
    ensures BatterySize(a + b, efficiency) == BatterySize(a, efficiency) + BatterySize(b, efficiency)
    ensures SimultaneousWatts(a + b) == SimultaneousWatts(a) + SimultaneousWatts(b)
  {
    SumAppend(a, b, Energy);
    SumAppend(a, b, BackupEnergyAt(efficiency));
    SumAppend(a, b, Load);
  }

  /** Energy of one unit of an entry, in Wh per day. */
  function UnitEnergy(a: Appliance): real { a.watts * a.hours }

  /** Battery energy one unit of an entry needs, in kWh. */
  function UnitBackupEnergy(a: Appliance, efficiency: real): real
    requires efficiency != 0.0
  {
    UnitEnergy(a) * (a.backupHours / 24.0) / (efficiency * 1000.0)
  }

  /** An entry's daily energy is its units times its per-unit energy. */
  lemma EnergyByUnits(a: Appliance)
    ensures Energy(a) == (EffCount(a) as real) * UnitEnergy(a)
  {
  }

  /** Daily usage is linear in each entry's count: setting one entry's
      count to k (a non-zero count, so `|| 1` keeps it) moves daily usage by
      the change in that entry's units times its one-unit energy, whatever
      the other entries are. */
  lemma RecountUsage(s: seq<Appliance>, i: int, k: int)
    requires 0 <= i < |s| && k != 0
    ensures DailyUsage(s[i := s[i].(count := Some(k))]) ==
            DailyUsage(s) + ((k - EffCount(s[i])) as real) * UnitEnergy(s[i])
  {
    SumUpdate(s, i, s[i].(count := Some(k)), Energy);
    RecountEnergy(s[i], k);
  }

  /** The same for battery size, with the one-unit battery energy. */
  lemma RecountBattery(s: seq<Appliance>, i: int, k: int, efficiency: real)
    requires 0 <= i < |s| && k != 0 && efficiency != 0.0
    ensures BatterySize(s[i := s[i].(count := Some(k))], efficiency) ==
            BatterySize(s, efficiency) + ((k - EffCount(s[i])) as real) * UnitBackupEnergy(s[i], efficiency)
  {
    var b := s[i].(count := Some(k));
    RecountBackupAt(s[i], k, efficiency);
    SumShiftOne(s, i, b, BackupEnergyAt(efficiency), ((k - EffCount(s[i])) as real) * UnitBackupEnergy(s[i], efficiency));
  }

  /** RecountBackup, stated for the battery fold's step function. */
  lemma RecountBackupAt(a: Appliance, k: int, efficiency: real)
    requires k != 0 && efficiency != 0.0
    ensures BackupEnergyAt(efficiency)(a.(count := Some(k))) - BackupEnergyAt(efficiency)(a) ==
            ((k - EffCount(a)) as real) * UnitBackupEnergy(a, efficiency)
  {
    RecountBackup(a, k, efficiency);
  }

  /** Replacing one entry by one that contributes d more moves the fold by d. */
  lemma SumShiftOne(s: seq<Appliance>, i: int, x: Appliance, f: Appliance -> real, d: real)
    requires 0 <= i < |s| && f(x) - f(s[i]) == d
    ensures Sum(s[i := x], f) == Sum(s, f) + d
  {
    SumUpdate(s, i, x, f);
  }

  /** Adding one unit to an entry raises daily usage by exactly that entry's
      one-unit energy. */
  lemma UnitStepUsage(s: seq<Appliance>, i: int)
    requires 0 <= i < |s| && (s[i].count.None? || s[i].count.value >= 0)
    ensures DailyUsage(s[i := AddUnit(s[i])]) == DailyUsage(s) + UnitEnergy(s[i])
  {
    RecountUsage(s, i, EffCount(s[i]) + 1);
  }

  /** The same for battery size, with the one-unit battery energy. */
  lemma UnitStepBattery(s: seq<Appliance>, i: int, efficiency: real)
    requires 0 <= i < |s| && (s[i].count.None? || s[i].count.value >= 0) && efficiency != 0.0
    ensures BatterySize(s[i := AddUnit(s[i])], efficiency) ==
            BatterySize(s, efficiency) + UnitBackupEnergy(s[i], efficiency)
  {
    RecountBattery(s, i, EffCount(s[i]) + 1, efficiency);
  }

  /** Re-counting one entry to k moves its daily energy by the change in units. */
  lemma RecountEnergy(a: Appliance, k: int)
    requires k != 0
    ensures Energy(a.(count := Some(k))) - Energy(a) == ((k - EffCount(a)) as real) * UnitEnergy(a)
  {
    var u := UnitEnergy(a);
    assert Energy(a.(count := Some(k))) == u * (k as real);
    assert Energy(a) == u * (EffCount(a) as real);
  }

  /** Re-counting one entry to k moves its battery share by the change in units. */
  lemma RecountBackup(a: Appliance, k: int, efficiency: real)
    requires k != 0 && efficiency != 0.0
    ensures BackupEnergy(a.(count := Some(k)), efficiency) - BackupEnergy(a, efficiency) ==
            ((k - EffCount(a)) as real) * UnitBackupEnergy(a, efficiency)
  {
    var b := a.(count := Some(k));
    RecountEnergy(a, k);
    var w := (a.backupHours / 24.0) / (efficiency * 1000.0);
    BackupEnergyScales(a, efficiency);
    BackupEnergyScales(b, efficiency);
    assert UnitBackupEnergy(a, efficiency) == UnitEnergy(a) * w;
    assert BackupEnergy(b, efficiency) - BackupEnergy(a, efficiency) == (Energy(b) - Energy(a)) * w;
  }

  lemma BackupEnergyScales(a: Appliance, efficiency: real)
    requires efficiency != 0.0
    ensures BackupEnergy(a, efficiency) == Energy(a) * ((a.backupHours / 24.0) / (efficiency * 1000.0))
  {
  }

  /** The well-formedness the source's inputs give an entry: positive watts,
      hours and backup hours, and a count that is absent or not negative. */
  predicate Positive(a: Appliance) {
    a.watts > 0.0 && a.hours > 0.0 && a.backupHours > 0.0 && (a.count.None? || a.count.value >= 0)
  }

  /** With positive entries, sun hours and efficiency and a non-negative
      price, every figure is non-negative. */
  lemma SizingNonNegative(s: seq<Appliance>, p: Params)
    requires forall k :: 0 <= k < |s| ==> Positive(s[k])
    requires p.sunHours > 0.0 && p.efficiency > 0.0 && p.costPerKwh >= 0.0
    ensures var z := Size(s, p);
      z.dailyUsage >= 0.0 && z.solarSize >= 0.0 && z.batterySize >= 0.0 &&
      z.totalSimultaneousWatts >= 0.0 && z.inverterSizeKW >= 0.0 && z.inverterSizeKVA >= 0.0 &&
      z.dailyKWh >= 0.0 && z.dailyCost >= 0.0 && z.monthlyCost >= 0.0 && z.yearlyCost >= 0.0
  {
    forall k | 0 <= k < |s| ensures Energy(s[k]) >= 0.0 && Load(s[k]) >= 0.0
      && BackupEnergyAt(p.efficiency)(s[k]) >= 0.0
    {
      var a := s[k];
      var c := EffCount(a) as real;
      assert c >= 1.0;
      assert a.watts * a.hours > 0.0;
      assert a.watts * c > 0.0;
      assert Energy(a) > 0.0;
      assert a.backupHours / 24.0 > 0.0;
      assert Energy(a) * (a.backupHours / 24.0) > 0.0;
      assert p.efficiency * 1000.0 > 0.0;
    }
    SumNonNegative(s, Energy);
    SumNonNegative(s, Load);
    SumNonNegative(s, BackupEnergyAt(p.efficiency));
    var z := Size(s, p);
    assert p.sunHours * p.efficiency > 0.0;
    assert z.dailyUsage / (p.sunHours * p.efficiency) >= 0.0;
    assert z.dailyKWh * p.costPerKwh >= 0.0;
  }
}
