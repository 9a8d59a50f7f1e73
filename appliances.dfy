/** The appliance list of the power calculator and the list transforms its
    event handlers apply (project/src/PowerCalculator.tsx). Each handler in
    the component replaces the list with a `map`/`filter` of the old one;
    here each such expression is a pure function, and the class in
    calculator.dfy assigns its result. */
module Appliances {
  import opened Wrappers

  /** One entry of the list: `count` is absent for custom entries and set for
      quick-add presets. Numbers are exact reals. */
  datatype Appliance = Appliance(name: string, watts: real, hours: real, count: Option<int>, backupHours: real)

  /** A quick-add catalogue entry: a name and a wattage only. */
  datatype Preset = Preset(name: string, watts: real)

  /** The quick-add catalogue, in display order. */
  const CommonAppliances: seq<Preset> := [
    Preset("Refrigerator", 150.0),
    Preset("LED TV", 100.0),
    Preset("Air Conditioner (1.5 ton)", 1500.0),
    Preset("Ceiling Fan", 75.0),
    Preset("Microwave", 1000.0),
    Preset("Desktop Computer", 200.0),
    Preset("Washing Machine", 500.0),
    Preset("Water Heater", 3000.0)
  ]

  /** `x || fallback` on a number: zero, and no number at all (an absent
      argument, or NaN from `parseFloat`; here None), give the fallback. */
  function OrDefault(x: Option<real>, fallback: real): (v: real)
    ensures x.Some? && x.value != 0.0 ==> v == x.value
    ensures (x.None? || x.value == 0.0) ==> v == fallback
    ensures fallback != 0.0 ==> v != 0.0
  {
    if x.Some? && x.value != 0.0 then x.value else fallback
  }

  /** The custom-entry form after start-up and after every successful add. */
  const EmptyDraft := Appliance("", 0.0, 1.0, None, 24.0)

  /** `app.count || 1`: an absent count, and a count of zero, count as one unit. */
  function EffCount(a: Appliance): (c: int)
    ensures c != 0
    ensures a.count.None? || a.count.value == 0 ==> c == 1
    ensures a.count.Some? && a.count.value != 0 ==> c == a.count.value
  {
    if a.count.Some? && a.count.value != 0 then a.count.value else 1
  }

  /** The count is present and at least one, as for every preset entry. */
  predicate HasUnits(a: Appliance) {
    a.count.Some? && a.count.value >= 1
  }

  /** The counts the editor produces: absent on custom entries (the form
      never sets one), at least one on presets (they start at one, gain one
      per click, and lose one only from above one). */
  predicate EditorCounts(s: seq<Appliance>) {
    forall k :: 0 <= k < |s| ==> s[k].count.None? || s[k].count.value >= 1
  }

  /** The guard of the custom-entry form: a non-empty name (whitespace is
      accepted) and positive watts, hours and backup hours. */
  predicate Accepts(draft: Appliance) {
    draft.name != "" && draft.watts > 0.0 && draft.hours > 0.0 && draft.backupHours > 0.0
  }

  /** The quick-add catalogue has eight presets with distinct names, each
      drawing power: a tile's merge and deselect by name touch that tile's
      entries only. */
  lemma CatalogueWellFormed()
    ensures |CommonAppliances| == 8
    ensures forall i, j :: 0 <= i < j < |CommonAppliances| ==> CommonAppliances[i].name != CommonAppliances[j].name
    ensures forall i :: 0 <= i < |CommonAppliances| ==> CommonAppliances[i].watts > 0.0
  {
  }

  /** The reset form is a custom entry (no count, one hour a day, a full
      day of backup) that the guard refuses until a name and wattage are
      typed, so a successful add cannot be repeated unedited. */
  lemma EmptyDraftRefused()
    ensures !Accepts(EmptyDraft)
    ensures EmptyDraft.count.None? && EmptyDraft.hours == 1.0 && EmptyDraft.backupHours == 24.0
  {
  }

  // ---------------------------------------------------------------------
  // removeAppliance: a filter that keeps every position but one
  // ---------------------------------------------------------------------

  /** Keeps every position except `index`; the index travels down the list
      as the filter's running position does. */
  function DropIndex<T>(s: seq<T>, index: int): (r: seq<T>)
    ensures r == if 0 <= index < |s| then s[..index] + s[index + 1..] else s
  {
    if s == [] then []
    else
      var rest := DropIndex(s[1..], index - 1);
      if index == 0 then
        rest
      else
        assert 0 < index < |s| ==> [s[0]] + s[1..][..index - 1] == s[..index];
        [s[0]] + rest
  }

  // ---------------------------------------------------------------------
  // addCommonAppliance
  // ---------------------------------------------------------------------

  /** Some entry of the list carries the name (the lookup by name succeeds). */
  predicate HasName(s: seq<Appliance>, name: string) {
    exists k :: 0 <= k < |s| && s[k].name == name
  }

  /** The entry with one more unit than its effective count. */
  function AddUnit(a: Appliance): Appliance {
    a.(count := Some(EffCount(a) + 1))
  }

  /** The `map` branch of addCommonAppliance: every entry with the name gets
      one more unit, every other entry is kept as it is. */
  function IncrementNamed(s: seq<Appliance>, name: string): (r: seq<Appliance>)
    ensures |r| == |s|
    ensures forall k :: 0 <= k < |s| && s[k].name != name ==> r[k] == s[k]
    ensures forall k :: 0 <= k < |s| && s[k].name == name ==>
      r[k].name == name && r[k].watts == s[k].watts && r[k].hours == s[k].hours &&
      r[k].backupHours == s[k].backupHours && r[k].count == Some(EffCount(s[k]) + 1)
  {
    if s == [] then []
    else
      var rest := IncrementNamed(s[1..], name);
      var r := [if s[0].name == name then AddUnit(s[0]) else s[0]] + rest;
      assert forall k :: 1 <= k < |s| ==> r[k] == rest[k - 1] && s[k] == s[1..][k - 1];
      r
  }

  /** The entry a preset adds when its name is new: one unit for one hour a
      day, backing up for the custom hours when given and non-zero, otherwise
      for the global backup hours (`customBackupHours || backupHours`). */
  function PresetEntry(p: Preset, customBackupHours: Option<real>, globalBackupHours: real): Appliance {
    Appliance(p.name, p.watts, 1.0, Some(1), OrDefault(customBackupHours, globalBackupHours))
  }

  /** addCommonAppliance: merge by name into existing entries, or append. */
  function AddCommon(s: seq<Appliance>, p: Preset, customBackupHours: Option<real>, globalBackupHours: real): (r: seq<Appliance>)
    ensures HasName(r, p.name)
    ensures HasName(s, p.name) ==> |r| == |s|
    ensures !HasName(s, p.name) ==> |r| == |s| + 1 && r[..|s|] == s
    ensures HasName(s, p.name) ==> r == IncrementNamed(s, p.name)
    ensures !HasName(s, p.name) ==>
      r == s + [Appliance(p.name, p.watts, 1.0, Some(1), OrDefault(customBackupHours, globalBackupHours))]
  {
    if HasName(s, p.name) then
      var r := IncrementNamed(s, p.name);
      var k :| 0 <= k < |s| && s[k].name == p.name;
      assert r[k].name == p.name;
      r
    else
      var r := s + [PresetEntry(p, customBackupHours, globalBackupHours)];
      assert r[|s|].name == p.name;
      r
  }

  // ---------------------------------------------------------------------
  // deselectCommonAppliance: `map` to the decremented entry or `null`, then
  // `filter(Boolean)` drops the nulls
  // ---------------------------------------------------------------------

  /** What one entry becomes: one unit fewer when its count is above one,
      deleted when its count is absent or at most one, untouched when its
      name differs. */
  function DeselectEntry(a: Appliance, name: string): seq<Appliance> {
    if a.name == name && a.count.Some? && a.count.value != 0 && a.count.value > 1 then
      [a.(count := Some(a.count.value - 1))]
    else if a.name == name && (a.count.None? || a.count.value == 0 || a.count.value <= 1) then
      []
    else
      [a]
  }

  function Deselect(s: seq<Appliance>, name: string): (r: seq<Appliance>)
    ensures |r| <= |s|
    ensures !HasName(s, name) ==> r == s
  {
    if s == [] then []
    else
      assert !HasName(s, name) ==> !HasName(s[1..], name) && s[0].name != name by {
        if !HasName(s, name) {
          forall k | 0 <= k < |s[1..]| ensures s[1..][k].name != name { assert s[1..][k] == s[k + 1]; }
          assert s[0].name != name;
        }
      }
      DeselectEntry(s[0], name) + Deselect(s[1..], name)
  }

  lemma {:induction false} DeselectAppend(a: seq<Appliance>, b: seq<Appliance>, name: string)
    ensures Deselect(a + b, name) == Deselect(a, name) + Deselect(b, name)
  {
    if a == [] {
      assert a + b == b;
    } else {
      assert (a + b)[0] == a[0] && (a + b)[1..] == a[1..] + b;
      DeselectAppend(a[1..], b, name);
      var d, da, db := DeselectEntry(a[0], name), Deselect(a[1..], name), Deselect(b, name);
      assert d + (da + db) == (d + da) + db;
    }
  }

  /** The entries whose name differs from `name`, in order. */
  function Others(s: seq<Appliance>, name: string): seq<Appliance> {
    if s == [] then []
    else (if s[0].name != name then [s[0]] else []) + Others(s[1..], name)
  }

  /** Deselecting one name leaves every other entry, its fields and their
      relative order as they were. */
  lemma {:induction false} DeselectKeepsOthers(s: seq<Appliance>, name: string)
    ensures Others(Deselect(s, name), name) == Others(s, name)
  {
    if s != [] {
      DeselectKeepsOthers(s[1..], name);
      OthersAppend(DeselectEntry(s[0], name), Deselect(s[1..], name), name);
    }
  }

  lemma {:induction false} OthersAppend(a: seq<Appliance>, b: seq<Appliance>, name: string)
    ensures Others(a + b, name) == Others(a, name) + Others(b, name)
  {
    if a == [] {
      assert a + b == b;
    } else {
      assert (a + b)[1..] == a[1..] + b;
      OthersAppend(a[1..], b, name);
    }
  }

  /** Selecting a preset that is not in the list and deselecting it again
      gives back the original list. */
  lemma AddNewThenDeselect(s: seq<Appliance>, p: Preset, customBackupHours: Option<real>, globalBackupHours: real)
    requires !HasName(s, p.name)
    ensures Deselect(AddCommon(s, p, customBackupHours, globalBackupHours), p.name) == s
  {
    var e := PresetEntry(p, customBackupHours, globalBackupHours);
    DeselectAppend(s, [e], p.name);
    assert Deselect([e], p.name) == [];
  }

  /** Selecting a preset that is already in the list and deselecting it
      again gives back the original list, provided every entry of that name
      carries a count of at least one (an absent count would come back as an
      explicit count of one). */
  lemma {:induction false} IncrementThenDeselect(s: seq<Appliance>, name: string)
    requires forall k :: 0 <= k < |s| && s[k].name == name ==> HasUnits(s[k])
    ensures Deselect(IncrementNamed(s, name), name) == s
  {
    if s != [] {
      var r := IncrementNamed(s, name);
      assert r[1..] == IncrementNamed(s[1..], name);
      IncrementThenDeselect(s[1..], name);
      assert DeselectEntry(r[0], name) == [s[0]];
    }
  }

  /** When no entry of the name has more than one unit (a custom entry with
      no count, or a count of one or less), deselecting drops every entry of
      the name, whatever its other fields, and keeps the rest as they were. */
  lemma {:induction false} DeselectDropsLastUnits(s: seq<Appliance>, name: string)
    requires forall k :: 0 <= k < |s| && s[k].name == name ==> !(s[k].count.Some? && s[k].count.value > 1)
    ensures Deselect(s, name) == Others(s, name)
  {
    if s != [] {
      assert forall k :: 0 <= k < |s[1..]| ==> s[1..][k] == s[k + 1];
      DeselectDropsLastUnits(s[1..], name);
    }
  }

  /** One unit fewer for an entry of the name that has a count. */
  function Decrement(a: Appliance, name: string): Appliance {
    if a.name == name && a.count.Some? then a.(count := Some(a.count.value - 1)) else a
  }

  /** Every counted entry of the name with one unit fewer, every other entry
      as it is. */
  function DecrementNamed(s: seq<Appliance>, name: string): (r: seq<Appliance>)
    ensures |r| == |s|
    ensures forall k :: 0 <= k < |s| ==> r[k] == Decrement(s[k], name)
  {
    if s == [] then []
    else
      var rest := DecrementNamed(s[1..], name);
      var r := [Decrement(s[0], name)] + rest;
      assert forall k :: 1 <= k < |s| ==> r[k] == rest[k - 1] && s[k] == s[1..][k - 1];
      r
  }

  /** When every entry of the name has more than one unit, deselecting
      takes exactly one unit from each of them and keeps every entry in
      its place. */
  lemma {:induction false} DeselectDecrements(s: seq<Appliance>, name: string)
    requires forall k :: 0 <= k < |s| && s[k].name == name ==> s[k].count.Some? && s[k].count.value > 1
    ensures Deselect(s, name) == DecrementNamed(s, name)
  {
    if s != [] {
      assert forall k :: 0 <= k < |s[1..]| ==> s[1..][k] == s[k + 1];
      DeselectDecrements(s[1..], name);
      assert DecrementNamed(s, name)[1..] == DecrementNamed(s[1..], name);
    }
  }

  // ---------------------------------------------------------------------
  // Every editor handler keeps the counts the editor produces
  // ---------------------------------------------------------------------

  lemma AddCustomKeepsCounts(s: seq<Appliance>, draft: Appliance)
    requires EditorCounts(s) && draft.count.None?
    ensures EditorCounts(s + [draft])
  {
  }

  lemma DropIndexKeepsCounts(s: seq<Appliance>, index: int)
    requires EditorCounts(s)
    ensures EditorCounts(DropIndex(s, index))
  {
  }

  lemma AddCommonKeepsCounts(s: seq<Appliance>, p: Preset, customBackupHours: Option<real>, globalBackupHours: real)
    requires EditorCounts(s)
    ensures EditorCounts(AddCommon(s, p, customBackupHours, globalBackupHours))
  {
  }

  lemma {:induction false} DeselectKeepsCounts(s: seq<Appliance>, name: string)
    requires EditorCounts(s)
    ensures EditorCounts(Deselect(s, name))
  {
    if s != [] {
      assert EditorCounts(s[1..]) by {
        forall k | 0 <= k < |s[1..]| ensures s[1..][k].count.None? || s[1..][k].count.value >= 1 {
          assert s[1..][k] == s[k + 1];
        }
      }
      DeselectKeepsCounts(s[1..], name);
      var d, rest := DeselectEntry(s[0], name), Deselect(s[1..], name);
      var r: seq<Appliance> := d + rest;
      assert EditorCounts(d);
      forall k | 0 <= k < |r| ensures r[k].count.None? || r[k].count.value >= 1 {
        if k >= |d| {
          assert r[k] == rest[k - |d|];
        }
      }
    }
  }

  lemma SetBackupHoursKeepsCounts(s: seq<Appliance>, name: string, hours: real)
    requires EditorCounts(s)
    ensures EditorCounts(SetBackupHours(s, name, hours))
  {
  }

  // ---------------------------------------------------------------------
  // updateApplianceBackupHours
  // ---------------------------------------------------------------------

  /** updateApplianceBackupHours: every entry of the name gets the new backup hours. */
  function SetBackupHours(s: seq<Appliance>, name: string, hours: real): (r: seq<Appliance>)
    ensures |r| == |s|
    ensures forall k :: 0 <= k < |s| && s[k].name != name ==> r[k] == s[k]
    ensures forall k :: 0 <= k < |s| && s[k].name == name ==>
      r[k].name == name && r[k].watts == s[k].watts && r[k].hours == s[k].hours &&
      r[k].count == s[k].count && r[k].backupHours == hours
  {
    if s == [] then []
    else
      var rest := SetBackupHours(s[1..], name, hours);
      var r := [if s[0].name == name then s[0].(backupHours := hours) else s[0]] + rest;
      assert forall k :: 1 <= k < |s| ==> r[k] == rest[k - 1] && s[k] == s[1..][k - 1];
      r
  }

  // ---------------------------------------------------------------------
  // String.prototype.trim, for the profile name
  // ---------------------------------------------------------------------

  /** WhiteSpace and LineTerminator code points, which `trim` removes
      (section 22.1.3.32 of ECMA-262). */
  const JsWhitespace: set<char> := {
    '\t', '\n', '\U{000B}', '\U{000C}', '\r', ' ', '\U{00A0}', '\U{1680}',
    '\U{2000}', '\U{2001}', '\U{2002}', '\U{2003}', '\U{2004}', '\U{2005}',
    '\U{2006}', '\U{2007}', '\U{2008}', '\U{2009}', '\U{200A}',
    '\U{2028}', '\U{2029}', '\U{202F}', '\U{205F}', '\U{3000}', '\U{FEFF}'
  }

  predicate IsJsWhitespace(c: char) {
    c in JsWhitespace
  }

  /** How many characters at the front of s are whitespace. */
  function LeadingSpace(s: string): (n: nat)
    ensures n <= |s|
    ensures forall k :: 0 <= k < n ==> IsJsWhitespace(s[k])
    ensures n < |s| ==> !IsJsWhitespace(s[n])
  {
    if s != [] && IsJsWhitespace(s[0]) then
      var n := 1 + LeadingSpace(s[1..]);
      assert forall k :: 1 <= k < |s| ==> s[k] == s[1..][k - 1];
      n
    else 0
  }

  /** How many characters at the back of s are whitespace. */
  function TrailingSpace(s: string): (n: nat)
    ensures n <= |s|
    ensures forall k :: |s| - n <= k < |s| ==> IsJsWhitespace(s[k])
    ensures n < |s| ==> !IsJsWhitespace(s[|s| - n - 1])
  {
    if s != [] && IsJsWhitespace(s[|s| - 1]) then
      var n := 1 + TrailingSpace(s[..|s| - 1]);
      assert forall k :: 0 <= k < |s| - 1 ==> s[k] == s[..|s| - 1][k];
      n
    else 0
  }

  function TrimStart(s: string): (r: string)
    ensures |r| <= |s| && r == s[|s| - |r|..]
    ensures r != [] ==> !IsJsWhitespace(r[0])
    ensures forall k :: 0 <= k < |s| - |r| ==> IsJsWhitespace(s[k])
  {
    s[LeadingSpace(s)..]
  }

  function TrimEnd(s: string): (r: string)
    ensures |r| <= |s| && r == s[..|r|]
    ensures r != [] ==> !IsJsWhitespace(r[|r| - 1])
    ensures forall k :: |r| <= k < |s| ==> IsJsWhitespace(s[k])
  {
    s[..|s| - TrailingSpace(s)]
  }

  /** r is s[i..j], and everything outside [i, j) is whitespace. */
  predicate TrimmedSlice(s: string, r: string, i: int, j: int) {
    0 <= i <= j <= |s| && r == s[i..j] &&
    (forall k :: 0 <= k < i ==> IsJsWhitespace(s[k])) &&
    (forall k :: j <= k < |s| ==> IsJsWhitespace(s[k]))
  }

  lemma TrimEndOfStart(s: string)
    ensures var t := TrimStart(s);
      TrimmedSlice(s, TrimEnd(t), |s| - |t|, |s| - |t| + |TrimEnd(t)|)
  {
    var t := TrimStart(s);
    var r := TrimEnd(t);
    var i := |s| - |t|;
    assert t == s[i..] && r == t[..|r|];
    assert forall k :: i + |r| <= k < |s| ==> s[k] == t[k - i];
  }

  /** `value.trim()`: the input without leading and trailing whitespace. */
  function Trim(s: string): (r: string)
    ensures exists i, j :: TrimmedSlice(s, r, i, j)
    ensures r != [] ==> !IsJsWhitespace(r[0]) && !IsJsWhitespace(r[|r| - 1])
  {
    TrimEndOfStart(s);
    TrimEnd(TrimStart(s))
  }

  /** A profile name is refused exactly when the typed text is empty or all
      whitespace. */
  lemma TrimEmptyIff(s: string)
    ensures Trim(s) == [] <==> forall k :: 0 <= k < |s| ==> IsJsWhitespace(s[k])
  {
    var n := LeadingSpace(s);
    var t := TrimStart(s);
    assert forall k :: n <= k < |s| ==> s[k] == t[k - n];
  }
}
