/**
 Power profiles and their inheritance (hardware/power/Profiles.cpp and Profiles.h).

 A profile is a structure of fields, each with a `set` flag.  Loading one copies the whole structure of
 the profile it extends and then overlays its own XML, section by section.
 */
module PowerProfiles {
  import opened Options
  import opened CText

  datatype Cluster = Apollo | Atlas

  datatype Section =
    | Cpu | CpuCluster(c: Cluster) | Cores(c: Cluster) | Cpusets | Hmp | Threshold | SbThreshold
    | Gpu | Dvfs | Highspeed | Kernel | Ipa | Slow | InputBooster

  datatype Leaf =
    | Governor(c: Cluster) | GovernorData(c: Cluster) | FreqMin(c: Cluster) | FreqMax(c: Cluster) | FreqHispeed(c: Cluster) | FreqBoost(c: Cluster)
    | Core1(c: Cluster) | Core2(c: Cluster) | Core3(c: Cluster) | Core4(c: Cluster)
    | Defaults | Foreground | ForegroundBoost | Background | SystemBackground | TopApp
    | Boost | Semiboost | PowerMigration | ActiveDownMigration | AggressiveUpMigration
    | ThresholdDown | ThresholdUp | SbThresholdDown | SbThresholdUp
    | DvfsFreqMin | DvfsFreqMax | HighspeedFreq | HighspeedLoad
    | Pewq | ControlTemp | ModeToggle | TimerRate | Tail | Head

  /** Rows are copied when the document has them and left alone otherwise: they have no default and are never marked. */
  datatype Kind = Bool | Int | Uint | Str | Rows

  datatype Value = BoolValue(b: bool) | NumValue(n: int) | StrValue(s: string)

  /** The XML path, type, default text and enclosing sections of a leaf. */
  datatype LeafSpec = LeafSpec(path: string, kind: Kind, fallback: string, guards: seq<Section>)

  function ClusterPath(c: Cluster): string { if c.Apollo? then "cpu/apollo" else "cpu/atlas" }

  function TopFrequency(c: Cluster): string { if c.Apollo? then "1500000" else "2100000" }

  function SectionPath(s: Section): string {
    match s
    case Cpu => "cpu"
    case CpuCluster(c) => ClusterPath(c)
    case Cores(c) => ClusterPath(c) + "/cores"
    case Cpusets => "cpusets"
    case Hmp => "hmp"
    case Threshold => "hmp/threshold"
    case SbThreshold => "hmp/sb_threshold"
    case Gpu => "gpu"
    case Dvfs => "gpu/dvfs"
    case Highspeed => "gpu/highspeed"
    case Kernel => "kernel"
    case Ipa => "ipa"
    case Slow => "slow"
    case InputBooster => "input_booster"
  }

  predicate IsClusterLeaf(l: Leaf) {
    l.Governor? || l.FreqMin? || l.FreqMax? || l.FreqHispeed? || l.FreqBoost? || l.Core1? || l.Core2? || l.Core3? || l.Core4? ||
    l.GovernorData?
  }

  predicate IsCpusetsLeaf(l: Leaf) {
    l.Defaults? || l.Foreground? || l.ForegroundBoost? || l.Background? || l.SystemBackground? || l.TopApp?
  }

  predicate IsHmpLeaf(l: Leaf) {
    l.Boost? || l.Semiboost? || l.PowerMigration? || l.ActiveDownMigration? || l.AggressiveUpMigration? || l.ThresholdDown? || l.ThresholdUp? || l.SbThresholdDown? || l.SbThresholdUp?
  }

  predicate IsGpuLeaf(l: Leaf) { l.DvfsFreqMin? || l.DvfsFreqMax? || l.HighspeedFreq? || l.HighspeedLoad? }

  predicate IsOtherLeaf(l: Leaf) { l.Pewq? || l.ControlTemp? || l.ModeToggle? || l.TimerRate? || l.Tail? || l.Head? }

  function ClusterSpec(l: Leaf): LeafSpec
    requires IsClusterLeaf(l)
  {
    match l
    case Governor(c) => LeafSpec(ClusterPath(c) + "/governor", Str, "interactive", [Cpu, CpuCluster(c)])
    case GovernorData(c) => LeafSpec(ClusterPath(c) + "/governor_data", Rows, "", [Cpu, CpuCluster(c)])
    case FreqMin(c) => LeafSpec(ClusterPath(c) + "/freq_min", Uint, "200000", [Cpu, CpuCluster(c)])
    case FreqMax(c) => LeafSpec(ClusterPath(c) + "/freq_max", Uint, TopFrequency(c), [Cpu, CpuCluster(c)])
    case FreqHispeed(c) => LeafSpec(ClusterPath(c) + "/freq_hispeed", Uint, TopFrequency(c), [Cpu, CpuCluster(c)])
    case FreqBoost(c) => LeafSpec(ClusterPath(c) + "/freq_boost", Uint, "0", [Cpu, CpuCluster(c)])
    case Core1(c) => LeafSpec(ClusterPath(c) + "/cores/core1", Bool, "true", [Cpu, CpuCluster(c), Cores(c)])
    case Core2(c) => LeafSpec(ClusterPath(c) + "/cores/core2", Bool, "true", [Cpu, CpuCluster(c), Cores(c)])
    case Core3(c) => LeafSpec(ClusterPath(c) + "/cores/core3", Bool, "true", [Cpu, CpuCluster(c), Cores(c)])
    case Core4(c) => LeafSpec(ClusterPath(c) + "/cores/core4", Bool, "true", [Cpu, CpuCluster(c), Cores(c)])
  }

  function CpusetsSpec(l: Leaf): LeafSpec
    requires IsCpusetsLeaf(l)
  {
    match l
    case Defaults => LeafSpec("cpusets/default", Str, "0-7", [Cpusets])
    case Foreground => LeafSpec("cpusets/foreground", Str, "0-7", [Cpusets])
    case ForegroundBoost => LeafSpec("cpusets/foreground_boost", Str, "0-7", [Cpusets])
    case Background => LeafSpec("cpusets/background", Str, "0-7", [Cpusets])
    case SystemBackground => LeafSpec("cpusets/system_background", Str, "0-7", [Cpusets])
    case TopApp => LeafSpec("cpusets/top_app", Str, "0-7", [Cpusets])
  }

  function HmpSpec(l: Leaf): LeafSpec
    requires IsHmpLeaf(l)
  {
    match l
    case Boost => LeafSpec("hmp/boost", Bool, "false", [Hmp])
    case Semiboost => LeafSpec("hmp/semiboost", Bool, "false", [Hmp])
    case PowerMigration => LeafSpec("hmp/power_migration", Bool, "false", [Hmp])
    case ActiveDownMigration => LeafSpec("hmp/active_down_migration", Bool, "false", [Hmp])
    case AggressiveUpMigration => LeafSpec("hmp/aggressive_up_migration", Bool, "false", [Hmp])
    case ThresholdDown => LeafSpec("hmp/threshold/down", Uint, "214", [Hmp, Threshold])
    case ThresholdUp => LeafSpec("hmp/threshold/up", Uint, "479", [Hmp, Threshold])
    case SbThresholdDown => LeafSpec("hmp/sb_threshold/down", Uint, "150", [Hmp, SbThreshold])
    case SbThresholdUp => LeafSpec("hmp/sb_threshold/up", Uint, "100", [Hmp, SbThreshold])
  }

  function GpuSpec(l: Leaf): LeafSpec
    requires IsGpuLeaf(l)
  {
    match l
    case DvfsFreqMin => LeafSpec("gpu/dvfs/freq_min", Uint, "100", [Gpu, Dvfs])
    case DvfsFreqMax => LeafSpec("gpu/dvfs/freq_max", Uint, "772", [Gpu, Dvfs])
    case HighspeedFreq => LeafSpec("gpu/highspeed/freq", Uint, "772", [Gpu, Highspeed])
    case HighspeedLoad => LeafSpec("gpu/highspeed/load", Uint, "99", [Gpu, Highspeed])
  }

  function OtherSpec(l: Leaf): LeafSpec
    requires IsOtherLeaf(l)
  {
    match l
    case Pewq => LeafSpec("kernel/pewq", Bool, "false", [Kernel])
    case ControlTemp => LeafSpec("ipa/control_temp", Int, "65", [Ipa])
    case ModeToggle => LeafSpec("slow/mode_toggle", Bool, "false", [Slow])
    case TimerRate => LeafSpec("slow/timer_rate", Int, "0", [Slow])
    case Tail => LeafSpec("input_booster/tail", Str, "0 0 0 0 0 0", [InputBooster])
    case Head => LeafSpec("input_booster/head", Str, "0 0 0 0 0 0", [InputBooster])
  }

  function Spec(l: Leaf): LeafSpec {
    if IsClusterLeaf(l) then ClusterSpec(l)
    else if IsCpusetsLeaf(l) then CpusetsSpec(l)
    else if IsHmpLeaf(l) then HmpSpec(l)
    else if IsGpuLeaf(l) then GpuSpec(l)
    else OtherSpec(l)
  }

  /** The order in which the loader goes through the sections and the leaves. */
  const SECTIONS := [
    Cpu, CpuCluster(Apollo), Cores(Apollo), CpuCluster(Atlas), Cores(Atlas), Cpusets, Hmp, Threshold, SbThreshold,
    Gpu, Dvfs, Highspeed, Kernel, Ipa, Slow, InputBooster]

  function ClusterLeaves(c: Cluster): seq<Leaf> {
    [Governor(c), FreqMin(c), FreqMax(c), FreqHispeed(c), FreqBoost(c), Core1(c), Core2(c), Core3(c), Core4(c),
     GovernorData(c)]
  }

  const CPUSETS_LEAVES := [Defaults, Foreground, ForegroundBoost, Background, SystemBackground, TopApp]

  const HMP_LEAVES := [
    Boost, Semiboost, PowerMigration, ActiveDownMigration, AggressiveUpMigration,
    ThresholdDown, ThresholdUp, SbThresholdDown, SbThresholdUp]

  const OTHER_LEAVES := [
    DvfsFreqMin, DvfsFreqMax, HighspeedFreq, HighspeedLoad, Pewq, ControlTemp, ModeToggle, TimerRate, Tail, Head]

  const LEAVES := ClusterLeaves(Apollo) + (ClusterLeaves(Atlas) + (CPUSETS_LEAVES + (HMP_LEAVES + OTHER_LEAVES)))

  lemma EverySectionIsListed(s: Section)
    ensures s in SECTIONS
  {
    match s
    case Cpu => assert SECTIONS[0] == s;
    case CpuCluster(c) => assert SECTIONS[1] == CpuCluster(Apollo) && SECTIONS[3] == CpuCluster(Atlas); match c { case Apollo => case Atlas => }
    case Cores(c) => assert SECTIONS[2] == Cores(Apollo) && SECTIONS[4] == Cores(Atlas); match c { case Apollo => case Atlas => }
    case _ =>
  }

  lemma ClusterLeafIsListed(l: Leaf)
    requires IsClusterLeaf(l)
    ensures l in ClusterLeaves(l.c)
  {
    var ls := ClusterLeaves(l.c);
    assert l == ls[0] || l == ls[1] || l == ls[2] || l == ls[3] || l == ls[4] || l == ls[5] || l == ls[6] || l == ls[7] || l == ls[8] || l == ls[9];
  }

  lemma OtherLeafIsListed(l: Leaf)
    requires !IsClusterLeaf(l)
    ensures l in CPUSETS_LEAVES || l in HMP_LEAVES || l in OTHER_LEAVES
  {
    var a, b, c := CPUSETS_LEAVES, HMP_LEAVES, OTHER_LEAVES;
    assert l == a[0] || l == a[1] || l == a[2] || l == a[3] || l == a[4] || l == a[5] ||
      l == b[0] || l == b[1] || l == b[2] || l == b[3] || l == b[4] || l == b[5] || l == b[6] || l == b[7] || l == b[8] ||
      l == c[0] || l == c[1] || l == c[2] || l == c[3] || l == c[4] || l == c[5] || l == c[6] || l == c[7] || l == c[8] || l == c[9];
  }

  lemma {:induction false} InConcat(a: seq<Leaf>, b: seq<Leaf>, l: Leaf)
    ensures l in a + b <==> l in a || l in b
  {
  }

  /** The loader forgets no leaf. */
  lemma EveryLeafIsListed(l: Leaf)
    ensures l in LEAVES
  {
    hide ClusterLeaves, CPUSETS_LEAVES, HMP_LEAVES, OTHER_LEAVES;
    if IsClusterLeaf(l) {
      assert l.c == Apollo || l.c == Atlas;
      ClusterLeafIsListed(l);
    } else {
      OtherLeafIsListed(l);
    }
    InConcat(HMP_LEAVES, OTHER_LEAVES, l);
    InConcat(CPUSETS_LEAVES, HMP_LEAVES + OTHER_LEAVES, l);
    InConcat(ClusterLeaves(Atlas), CPUSETS_LEAVES + (HMP_LEAVES + OTHER_LEAVES), l);
    InConcat(ClusterLeaves(Apollo), ClusterLeaves(Atlas) + (CPUSETS_LEAVES + (HMP_LEAVES + OTHER_LEAVES)), l);
  }

  // -------------------------------------------------------------------------------------
  // Text to values.

  predicate ToBool(c: string) { c == "true" || c == "TRUE" || c == "1" }

  /** std::stoi: None where it throws. */
  function Stoi(c: string): Option<int> {
    var r := Strtol(c, 0, Lp64);
    if r.end == 0 || !IsInt32(r.value) then None else Some(r.value)
  }

  function Convert(kind: Kind, c: string): Option<Value> {
    match kind
    case Bool => Some(BoolValue(ToBool(c)))
    case Str => Some(StrValue(c))
    case Rows => Some(StrValue(c))
    case Int => (match Stoi(c) case None => None case Some(n) => Some(NumValue(n)))
    case Uint => (match Stoi(c) case None => None case Some(n) => Some(NumValue(if n < 0 then n + 0x1_0000_0000 else n)))
  }

  // -------------------------------------------------------------------------------------
  // The structure.

  datatype Field = Enabled | SectionEnabled(s: Section) | SectionPresent(s: Section) | LeafField(l: Leaf)

  /** A field and its `set` flag; value None stands for the zero the structure starts with. */
  datatype Cell = Cell(value: Option<Value>, isSet: bool)

  const BLANK := Cell(None, false)

  type Fields = map<Field, Cell>

  function Get(f: Fields, k: Field): Cell { if k in f then f[k] else BLANK }

  predicate IsOn(f: Fields, k: Field) { Get(f, k).value == Some(BoolValue(true)) }

  /**
   The elements below a profile's node that hold something, with their text, and the extends attribute.
   The text of a governor_data element stands for the rows of its children; its `set` flag is declared in
   Profiles.h and never written.
   */
  datatype Xml = Xml(nodes: map<string, string>, parent: Option<string>)

  /** The PROFILE_SET macros, and XML_GET_CPUGOV for Rows. */
  function Overlay(was: Cell, x: Xml, path: string, kind: Kind, fallback: string): Cell {
    if path in x.nodes then Cell(Convert(kind, x.nodes[path]), kind != Rows)
    else if !was.isSet && kind != Rows then was.(value := Convert(kind, fallback))
    else was
  }

  function SetEnabled(f: Fields, x: Xml): Fields {
    f[Enabled := Overlay(Get(f, Enabled), x, "enabled", Bool, "false")]
  }

  /** The PROFILE_INIT macros. */
  function InitSection(f: Fields, x: Xml, s: Section): Fields {
    if SectionPath(s) in x.nodes
    then f[SectionEnabled(s) := Overlay(Get(f, SectionEnabled(s)), x, SectionPath(s) + "/enabled", Bool, "false")]
          [SectionPresent(s) := Cell(None, true)]
    else f[SectionPresent(s) := BLANK]
  }

  function InitSections(f: Fields, x: Xml, ss: seq<Section>): Fields
    decreases |ss|
  {
    if ss == [] then f else InitSections(InitSection(f, x, ss[0]), x, ss[1..])
  }

  predicate Guarded(f: Fields, l: Leaf) { forall g :: g in Spec(l).guards ==> IsOn(f, SectionEnabled(g)) }

  function SetLeaf(f: Fields, x: Xml, l: Leaf): Fields {
    if Guarded(f, l)
    then f[LeafField(l) := Overlay(Get(f, LeafField(l)), x, Spec(l).path, Spec(l).kind, Spec(l).fallback)]
    else f
  }

  function SetLeaves(f: Fields, x: Xml, ls: seq<Leaf>): Fields
    decreases |ls|
  {
    if ls == [] then f else SetLeaves(SetLeaf(f, x, ls[0]), x, ls[1..])
  }

  const NAMES := ["screen_off", "power_save", "bias_power_save", "balanced", "bias_performance", "performance"]

  function IndexOf(names: seq<string>, name: string): (i: nat)
    ensures i <= |names|
  {
    if names == [] || names[0] == name then 0 else 1 + IndexOf(names[1..], name)
  }

  /** The index of the profile that x extends; an unknown name would be a null pointer. */
  function ParentOf(x: Xml): Option<nat> {
    match x.parent case None => None case Some(name) => Some(IndexOf(NAMES, name))
  }

  /** The structure of a profile when its own flags are set and no parent is copied yet. */
  function Own(f: Fields, x: Xml): Fields { InitSections(SetEnabled(f, x), x, SECTIONS) }

  /** What loading profile k starts the overlay of leaves from. */
  function Base(all: seq<Fields>, k: nat, x: Xml): Fields
    requires k < |all| == |NAMES|
  {
    var p := ParentOf(x);
    if p.Some? && p.value < |all| && p.value != k then all[p.value] else Own(all[k], x)
  }

  predicate ParentKnown(x: Xml) { x.parent.Some? ==> x.parent.value in NAMES }

  /**
   What the source neither crashes on nor throws for: in an enabled profile the parent has a known name,
   and the numbers in its enabled sections are numbers.
   */
  ghost predicate Loadable(all: seq<Fields>, k: nat, x: Xml)
    requires k < |all| == |NAMES|
  {
    IsOn(Own(all[k], x), Enabled) ==>
      && ParentKnown(x)
      && forall l :: Guarded(Base(all, k, x), l) && Spec(l).path in x.nodes ==> Convert(Spec(l).kind, x.nodes[Spec(l).path]).Some?
  }

  /** The structure of profile k after it is loaded. */
  function Loaded(all: seq<Fields>, k: nat, x: Xml): Fields
    requires k < |all| == |NAMES|
  {
    if IsOn(Own(all[k], x), Enabled) then SetLeaves(Base(all, k, x), x, LEAVES) else Own(all[k], x)
  }

  // -------------------------------------------------------------------------------------
  // The loader, in place.

  class SecPowerProfile {
    var cells: Fields

    constructor ()
      ensures cells == map[]
    {
      cells := map[];
    }

    method Set(k: Field, x: Xml, path: string, kind: Kind, fallback: string)
      modifies this
      ensures cells == old(cells)[k := Overlay(Get(old(cells), k), x, path, kind, fallback)]
    {
      var c := Get(cells, k);
      if path in x.nodes {
        c := Cell(Convert(kind, x.nodes[path]), kind != Rows);
      } else if !c.isSet && kind != Rows {
        c := c.(value := Convert(kind, fallback));
      }
      cells := cells[k := c];
    }

    method Init(x: Xml, s: Section)
      modifies this
      ensures cells == InitSection(old(cells), x, s)
    {
      if SectionPath(s) in x.nodes {
        Set(SectionEnabled(s), x, SectionPath(s) + "/enabled", Bool, "false");
        cells := cells[SectionPresent(s) := Cell(None, true)];
      } else {
        cells := cells[SectionPresent(s) := BLANK];
      }
    }

    method SetTop(x: Xml)
      modifies this
      ensures cells == SetEnabled(old(cells), x)
    {
      Set(Enabled, x, "enabled", Bool, "false");
    }

    method InitAll(x: Xml)
      modifies this
      ensures cells == InitSections(old(cells), x, SECTIONS)
    {
      hide InitSection, SECTIONS;
      var i := 0;
      while i < |SECTIONS|
        invariant 0 <= i <= |SECTIONS|
        invariant InitSections(cells, x, SECTIONS[i..]) == InitSections(old(cells), x, SECTIONS)
      {
        assert SECTIONS[i..][1..] == SECTIONS[i + 1..];
        Init(x, SECTIONS[i]);
        i := i + 1;
      }
    }

    /** A leaf is set only while every section around it is enabled. */
    method SetGuarded(x: Xml, l: Leaf)
      modifies this
      ensures cells == SetLeaf(old(cells), x, l)
    {
      hide Spec, Overlay;
      if forall g :: g in Spec(l).guards ==> IsOn(cells, SectionEnabled(g)) {
        Set(LeafField(l), x, Spec(l).path, Spec(l).kind, Spec(l).fallback);
      }
    }

    method SetAll(x: Xml)
      modifies this
      ensures cells == SetLeaves(old(cells), x, LEAVES)
    {
      hide SetLeaf, LEAVES;
      var i := 0;
      while i < |LEAVES|
        invariant 0 <= i <= |LEAVES|
        invariant SetLeaves(cells, x, LEAVES[i..]) == SetLeaves(old(cells), x, LEAVES)
      {
        assert LEAVES[i..][1..] == LEAVES[i + 1..];
        SetGuarded(x, LEAVES[i]);
        i := i + 1;
      }
    }
  }

  /** No two profiles are the same object. */
  ghost predicate Separate(profiles: seq<SecPowerProfile>) {
    forall i, j :: 0 <= i < j < |profiles| ==> profiles[i] != profiles[j]
  }

  /** The structures of all profiles, in the order of their loading. */
  ghost function Structures(profiles: seq<SecPowerProfile>): (r: seq<Fields>)
    reads profiles
    ensures |r| == |profiles|
  {
    seq(|profiles|, i requires 0 <= i < |profiles| reads profiles => profiles[i].cells)
  }

  method LoadProfile(profiles: seq<SecPowerProfile>, k: nat, x: Xml)
    requires k < |profiles| == |NAMES| && Separate(profiles) && Loadable(Structures(profiles), k, x)
    modifies profiles[k]
    ensures Structures(profiles) == old(Structures(profiles))[k := Loaded(old(Structures(profiles)), k, x)]
  {
    hide InitSections, SetLeaves, SetEnabled;
    ghost var before := Structures(profiles);
    var profile := profiles[k];
    profile.SetTop(x);
    profile.InitAll(x);
    if IsOn(profile.cells, Enabled) {
      if x.parent.Some? {
        ParentIsKnown(x);
        profile.cells := profiles[ParentOf(x).value].cells;
      }
      profile.SetAll(x);
    }
    assert forall i :: 0 <= i < |profiles| && i != k ==> profiles[i] != profile;
    assert Structures(profiles) == before[k := profile.cells];
  }

  lemma {:induction false} IndexFound(names: seq<string>, name: string)
    requires name in names
    ensures IndexOf(names, name) < |names|
  {
    if names[0] != name { IndexFound(names[1..], name); }
  }

  lemma ParentIsKnown(x: Xml)
    requires ParentKnown(x) && x.parent.Some?
    ensures ParentOf(x).value < |NAMES|
  {
    IndexFound(NAMES, x.parent.value);
  }
}
