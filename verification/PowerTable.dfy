/**
 What each path in the XML of a profile does, with the paths, types and defaults written out.
 */
module PowerTable {
  import opened Options
  import opened CText
  import opened PowerProfiles
  import opened PowerInheritance
  import opened PowerPaths

  // -------------------------------------------------------------------------------------
  // Texts.

  /** Numbers are read as std::stoi reads them, and thrown out beyond 32 bits; a negative uint wraps. */
  lemma ConvertReadsPrinted(n: int)
    ensures Convert(Int, PrintInt(n)) == if -2147483648 <= n <= 2147483647 then Some(NumValue(n)) else None
    ensures Convert(Uint, PrintInt(n)) ==
      if 0 <= n <= 2147483647 then Some(NumValue(n)) else if -2147483648 <= n < 0 then Some(NumValue(n + 4294967296)) else None
  {
    hide Strtol, PrintInt;
    assert [] + PrintInt(n) + [] == PrintInt(n);
    StrtolReadsAny([], n, [], Lp64);
  }

  lemma ConvertOtherTexts(c: string)
    ensures Convert(Bool, c) == Some(BoolValue(c == "true" || c == "TRUE" || c == "1"))
    ensures Convert(Str, c) == Some(StrValue(c))
  {
  }

  lemma PrintedSmall()
    ensures PrintInt(0) == "0" && PrintInt(65) == "65" && PrintInt(99) == "99"
    ensures PrintInt(100) == "100" && PrintInt(150) == "150" && PrintInt(214) == "214" && PrintInt(479) == "479" && PrintInt(772) == "772"
  {
    hide Decimal;
    PrintedDigits();
    DecimalStep(6, 5); DecimalStep(9, 9); DecimalStep(1, 0); DecimalStep(10, 0); DecimalStep(1, 5); DecimalStep(15, 0);
    DecimalStep(2, 1); DecimalStep(21, 4); DecimalStep(4, 7); DecimalStep(47, 9); DecimalStep(7, 7); DecimalStep(77, 2);
  }

  lemma PrintedDigits()
    ensures Decimal(0) == "0" && Decimal(1) == "1" && Decimal(2) == "2" && Decimal(4) == "4"
    ensures Decimal(6) == "6" && Decimal(7) == "7" && Decimal(9) == "9"
  {
  }

  lemma Hundredfold(n: nat)
    requires n > 0
    ensures Decimal(10 * n) == Decimal(n) + "0" && Decimal(100 * n) == Decimal(n) + "00"
  {
    hide Decimal;
    DecimalStep(n, 0);
    DecimalStep(10 * n, 0);
  }

  lemma PrintedLarge()
    ensures PrintInt(200000) == "200000" && PrintInt(1500000) == "1500000" && PrintInt(2100000) == "2100000"
  {
    hide Decimal;
    PrintedDigits();
    DecimalStep(1, 5); DecimalStep(2, 1);
    Hundredfold(2); Hundredfold(200); Hundredfold(20000);
    Hundredfold(15); Hundredfold(1500); Hundredfold(150000);
    Hundredfold(21); Hundredfold(2100); Hundredfold(210000);
  }

  lemma SmallDefaults()
    ensures Convert(Uint, "0") == Some(NumValue(0)) && Convert(Int, "0") == Some(NumValue(0)) && Convert(Int, "65") == Some(NumValue(65))
    ensures Convert(Uint, "99") == Some(NumValue(99)) && Convert(Uint, "100") == Some(NumValue(100))
    ensures Convert(Uint, "150") == Some(NumValue(150)) && Convert(Uint, "214") == Some(NumValue(214))
    ensures Convert(Uint, "479") == Some(NumValue(479)) && Convert(Uint, "772") == Some(NumValue(772))
  {
    hide PrintInt, Convert;
    PrintedSmall();
    ConvertReadsPrinted(0); ConvertReadsPrinted(65); ConvertReadsPrinted(99); ConvertReadsPrinted(100);
    ConvertReadsPrinted(150); ConvertReadsPrinted(214); ConvertReadsPrinted(479); ConvertReadsPrinted(772);
  }

  lemma LargeDefaults()
    ensures Convert(Uint, "200000") == Some(NumValue(200000))
    ensures Convert(Uint, "1500000") == Some(NumValue(1500000)) && Convert(Uint, "2100000") == Some(NumValue(2100000))
  {
    hide PrintInt, Convert;
    PrintedLarge();
    ConvertReadsPrinted(200000); ConvertReadsPrinted(1500000); ConvertReadsPrinted(2100000);
  }

  // -------------------------------------------------------------------------------------
  // A root profile with everything enabled.

  const SECTION_PATHS := [
    "cpu", "cpu/apollo", "cpu/apollo/cores", "cpu/atlas", "cpu/atlas/cores", "cpusets", "hmp", "hmp/threshold",
    "hmp/sb_threshold", "gpu", "gpu/dvfs", "gpu/highspeed", "kernel", "ipa", "slow", "input_booster"]

  predicate SwitchedOn(x: Xml, path: string) {
    path in x.nodes && path + "/enabled" in x.nodes && x.nodes[path + "/enabled"] == "true"
  }

  /** The profile extends nothing, and it and all its sections are enabled. */
  predicate AllOn(x: Xml) {
    && x.parent == None
    && "enabled" in x.nodes && x.nodes["enabled"] == "true"
    && forall i :: 0 <= i < |SECTION_PATHS| ==> SwitchedOn(x, SECTION_PATHS[i])
  }

  lemma SectionPathIsListed(s: Section)
    ensures SectionPath(s) in SECTION_PATHS
  {
    var p := SECTION_PATHS;
    match s
    case Cpu => assert SectionPath(s) == p[0];
    case CpuCluster(c) => assert SectionPath(CpuCluster(Apollo)) == p[1] && SectionPath(CpuCluster(Atlas)) == p[3]; match c { case Apollo => case Atlas => }
    case Cores(c) =>
      assert "cpu/apollo" + "/cores" == p[2] && "cpu/atlas" + "/cores" == p[4];
      match c { case Apollo => case Atlas => }
    case Cpusets => assert SectionPath(s) == p[5];
    case Hmp => assert SectionPath(s) == p[6];
    case Threshold => assert SectionPath(s) == p[7];
    case SbThreshold => assert SectionPath(s) == p[8];
    case Gpu => assert SectionPath(s) == p[9];
    case Dvfs => assert SectionPath(s) == p[10];
    case Highspeed => assert SectionPath(s) == p[11];
    case Kernel => assert SectionPath(s) == p[12];
    case Ipa => assert SectionPath(s) == p[13];
    case Slow => assert SectionPath(s) == p[14];
    case InputBooster => assert SectionPath(s) == p[15];
  }

  lemma AllOnIsActive(docs: seq<Xml>, k: nat, l: Leaf)
    requires k < |docs| && AllOn(docs[k])
    ensures OwnOn(docs[k]) && Parent(docs, k) == None && Active(docs, k, l)
  {
    hide SectionPath, SECTION_PATHS, Spec;
    forall g | g in Spec(l).guards
      ensures Flag(docs, k, g)
    {
      SectionPathIsListed(g);
    }
  }

  /** What the text at `path` does to the leaf: it is its value, marked; without it the leaf has the default, unmarked. */
  ghost predicate Reads(docs: seq<Xml>, k: nat, l: Leaf, path: string, kind: Kind, fallback: Value)
    requires k < |docs| == |NAMES|
  {
    Get(Table(docs, |NAMES|)[k], LeafField(l)) ==
      if path in docs[k].nodes then Cell(Convert(kind, docs[k].nodes[path]), true) else Cell(Some(fallback), false)
  }

  lemma LeafReads(docs: seq<Xml>, k: nat, l: Leaf, path: string, kind: Kind, fallback: Value)
    requires Documents(docs) && k < |NAMES| && AllOn(docs[k]) && !l.GovernorData?
    requires Spec(l).path == path && Spec(l).kind == kind && Convert(kind, Spec(l).fallback) == Some(fallback)
    ensures Reads(docs, k, l, path, kind, fallback)
  {
    hide Spec, Convert, Table, AllOn, Active, OwnOn;
    AllOnIsActive(docs, k, l);
    LeavesComeFromNearest(docs, k, l);
  }

  lemma ApolloGovernorLeaves(docs: seq<Xml>, k: nat)
    requires Documents(docs) && k < |NAMES| && AllOn(docs[k])
    ensures Reads(docs, k, Governor(Apollo), "cpu/apollo/governor", Str, StrValue("interactive"))
    ensures Reads(docs, k, FreqMin(Apollo), "cpu/apollo/freq_min", Uint, NumValue(200000))
    ensures Reads(docs, k, FreqBoost(Apollo), "cpu/apollo/freq_boost", Uint, NumValue(0))
  {
    hide Reads, AllOn, Documents, Convert, Table, NAMES, LEAVES, SECTIONS, SECTION_PATHS, SectionPath, Spec;
    SmallDefaults();
    LargeDefaults();
    ConvertOtherTexts("interactive");
    SpecByCluster(Governor(Apollo));
    LeafReads(docs, k, Governor(Apollo), "cpu/apollo/governor", Str, StrValue("interactive"));
    SpecByCluster(FreqMin(Apollo));
    LeafReads(docs, k, FreqMin(Apollo), "cpu/apollo/freq_min", Uint, NumValue(200000));
    SpecByCluster(FreqBoost(Apollo));
    LeafReads(docs, k, FreqBoost(Apollo), "cpu/apollo/freq_boost", Uint, NumValue(0));
  }

  lemma ApolloFrequencyLeaves(docs: seq<Xml>, k: nat)
    requires Documents(docs) && k < |NAMES| && AllOn(docs[k])
    ensures Reads(docs, k, FreqMax(Apollo), "cpu/apollo/freq_max", Uint, NumValue(1500000))
    ensures Reads(docs, k, FreqHispeed(Apollo), "cpu/apollo/freq_hispeed", Uint, NumValue(1500000))
  {
    hide Reads, AllOn, Documents, Convert, Table, NAMES, LEAVES, SECTIONS, SECTION_PATHS, SectionPath, Spec;
    LargeDefaults();
    SpecByCluster(FreqMax(Apollo));
    LeafReads(docs, k, FreqMax(Apollo), "cpu/apollo/freq_max", Uint, NumValue(1500000));
    SpecByCluster(FreqHispeed(Apollo));
    LeafReads(docs, k, FreqHispeed(Apollo), "cpu/apollo/freq_hispeed", Uint, NumValue(1500000));
  }

  lemma ApolloCorePaths()
    ensures ClusterPath(Apollo) + "/cores/core1" == "cpu/apollo/cores/core1" && ClusterPath(Apollo) + "/cores/core2" == "cpu/apollo/cores/core2"
    ensures ClusterPath(Apollo) + "/cores/core3" == "cpu/apollo/cores/core3" && ClusterPath(Apollo) + "/cores/core4" == "cpu/apollo/cores/core4"
  {
  }

  lemma ApolloCoreLeaves(docs: seq<Xml>, k: nat)
    requires Documents(docs) && k < |NAMES| && AllOn(docs[k])
    ensures Reads(docs, k, Core1(Apollo), "cpu/apollo/cores/core1", Bool, BoolValue(true))
    ensures Reads(docs, k, Core2(Apollo), "cpu/apollo/cores/core2", Bool, BoolValue(true))
    ensures Reads(docs, k, Core3(Apollo), "cpu/apollo/cores/core3", Bool, BoolValue(true))
    ensures Reads(docs, k, Core4(Apollo), "cpu/apollo/cores/core4", Bool, BoolValue(true))
  {
    hide Reads, AllOn, Documents, Convert, Table, NAMES, LEAVES, SECTIONS, SECTION_PATHS, SectionPath, Spec;
    ConvertOtherTexts("true");
    hide ClusterPath;
    ApolloCorePaths();
    SpecByCluster(Core1(Apollo));
    LeafReads(docs, k, Core1(Apollo), "cpu/apollo/cores/core1", Bool, BoolValue(true));
    SpecByCluster(Core2(Apollo));
    LeafReads(docs, k, Core2(Apollo), "cpu/apollo/cores/core2", Bool, BoolValue(true));
    SpecByCluster(Core3(Apollo));
    LeafReads(docs, k, Core3(Apollo), "cpu/apollo/cores/core3", Bool, BoolValue(true));
    SpecByCluster(Core4(Apollo));
    LeafReads(docs, k, Core4(Apollo), "cpu/apollo/cores/core4", Bool, BoolValue(true));
  }

  lemma AtlasGovernorLeaves(docs: seq<Xml>, k: nat)
    requires Documents(docs) && k < |NAMES| && AllOn(docs[k])
    ensures Reads(docs, k, Governor(Atlas), "cpu/atlas/governor", Str, StrValue("interactive"))
    ensures Reads(docs, k, FreqMin(Atlas), "cpu/atlas/freq_min", Uint, NumValue(200000))
    ensures Reads(docs, k, FreqBoost(Atlas), "cpu/atlas/freq_boost", Uint, NumValue(0))
  {
    hide Reads, AllOn, Documents, Convert, Table, NAMES, LEAVES, SECTIONS, SECTION_PATHS, SectionPath, Spec;
    SmallDefaults();
    LargeDefaults();
    ConvertOtherTexts("interactive");
    SpecByCluster(Governor(Atlas));
    LeafReads(docs, k, Governor(Atlas), "cpu/atlas/governor", Str, StrValue("interactive"));
    SpecByCluster(FreqMin(Atlas));
    LeafReads(docs, k, FreqMin(Atlas), "cpu/atlas/freq_min", Uint, NumValue(200000));
    SpecByCluster(FreqBoost(Atlas));
    LeafReads(docs, k, FreqBoost(Atlas), "cpu/atlas/freq_boost", Uint, NumValue(0));
  }

  lemma AtlasFrequencyLeaves(docs: seq<Xml>, k: nat)
    requires Documents(docs) && k < |NAMES| && AllOn(docs[k])
    ensures Reads(docs, k, FreqMax(Atlas), "cpu/atlas/freq_max", Uint, NumValue(2100000))
    ensures Reads(docs, k, FreqHispeed(Atlas), "cpu/atlas/freq_hispeed", Uint, NumValue(2100000))
  {
    hide Reads, AllOn, Documents, Convert, Table, NAMES, LEAVES, SECTIONS, SECTION_PATHS, SectionPath, Spec;
    LargeDefaults();
    SpecByCluster(FreqMax(Atlas));
    LeafReads(docs, k, FreqMax(Atlas), "cpu/atlas/freq_max", Uint, NumValue(2100000));
    SpecByCluster(FreqHispeed(Atlas));
    LeafReads(docs, k, FreqHispeed(Atlas), "cpu/atlas/freq_hispeed", Uint, NumValue(2100000));
  }

  lemma AtlasCorePaths()
    ensures ClusterPath(Atlas) + "/cores/core1" == "cpu/atlas/cores/core1" && ClusterPath(Atlas) + "/cores/core2" == "cpu/atlas/cores/core2"
    ensures ClusterPath(Atlas) + "/cores/core3" == "cpu/atlas/cores/core3" && ClusterPath(Atlas) + "/cores/core4" == "cpu/atlas/cores/core4"
  {
  }

  lemma AtlasCoreLeaves(docs: seq<Xml>, k: nat)
    requires Documents(docs) && k < |NAMES| && AllOn(docs[k])
    ensures Reads(docs, k, Core1(Atlas), "cpu/atlas/cores/core1", Bool, BoolValue(true))
    ensures Reads(docs, k, Core2(Atlas), "cpu/atlas/cores/core2", Bool, BoolValue(true))
    ensures Reads(docs, k, Core3(Atlas), "cpu/atlas/cores/core3", Bool, BoolValue(true))
    ensures Reads(docs, k, Core4(Atlas), "cpu/atlas/cores/core4", Bool, BoolValue(true))
  {
    hide Reads, AllOn, Documents, Convert, Table, NAMES, LEAVES, SECTIONS, SECTION_PATHS, SectionPath, Spec;
    ConvertOtherTexts("true");
    hide ClusterPath;
    AtlasCorePaths();
    SpecByCluster(Core1(Atlas));
    LeafReads(docs, k, Core1(Atlas), "cpu/atlas/cores/core1", Bool, BoolValue(true));
    SpecByCluster(Core2(Atlas));
    LeafReads(docs, k, Core2(Atlas), "cpu/atlas/cores/core2", Bool, BoolValue(true));
    SpecByCluster(Core3(Atlas));
    LeafReads(docs, k, Core3(Atlas), "cpu/atlas/cores/core3", Bool, BoolValue(true));
    SpecByCluster(Core4(Atlas));
    LeafReads(docs, k, Core4(Atlas), "cpu/atlas/cores/core4", Bool, BoolValue(true));
  }

  lemma CpusetsLeaves(docs: seq<Xml>, k: nat)
    requires Documents(docs) && k < |NAMES| && AllOn(docs[k])
    ensures Reads(docs, k, Defaults, "cpusets/default", Str, StrValue("0-7"))
    ensures Reads(docs, k, Foreground, "cpusets/foreground", Str, StrValue("0-7"))
    ensures Reads(docs, k, ForegroundBoost, "cpusets/foreground_boost", Str, StrValue("0-7"))
    ensures Reads(docs, k, Background, "cpusets/background", Str, StrValue("0-7"))
    ensures Reads(docs, k, SystemBackground, "cpusets/system_background", Str, StrValue("0-7"))
    ensures Reads(docs, k, TopApp, "cpusets/top_app", Str, StrValue("0-7"))
  {
    hide Reads, AllOn, Documents, Convert, Table, NAMES, LEAVES, SECTIONS, SECTION_PATHS, SectionPath, Spec;
    ConvertOtherTexts("0-7");
    SpecByCpusets(Defaults);
    LeafReads(docs, k, Defaults, "cpusets/default", Str, StrValue("0-7"));
    SpecByCpusets(Foreground);
    LeafReads(docs, k, Foreground, "cpusets/foreground", Str, StrValue("0-7"));
    SpecByCpusets(ForegroundBoost);
    LeafReads(docs, k, ForegroundBoost, "cpusets/foreground_boost", Str, StrValue("0-7"));
    SpecByCpusets(Background);
    LeafReads(docs, k, Background, "cpusets/background", Str, StrValue("0-7"));
    SpecByCpusets(SystemBackground);
    LeafReads(docs, k, SystemBackground, "cpusets/system_background", Str, StrValue("0-7"));
    SpecByCpusets(TopApp);
    LeafReads(docs, k, TopApp, "cpusets/top_app", Str, StrValue("0-7"));
  }

  lemma HmpLeaves(docs: seq<Xml>, k: nat)
    requires Documents(docs) && k < |NAMES| && AllOn(docs[k])
    ensures Reads(docs, k, Boost, "hmp/boost", Bool, BoolValue(false))
    ensures Reads(docs, k, Semiboost, "hmp/semiboost", Bool, BoolValue(false))
    ensures Reads(docs, k, PowerMigration, "hmp/power_migration", Bool, BoolValue(false))
    ensures Reads(docs, k, ActiveDownMigration, "hmp/active_down_migration", Bool, BoolValue(false))
    ensures Reads(docs, k, AggressiveUpMigration, "hmp/aggressive_up_migration", Bool, BoolValue(false))
  {
    hide Reads, AllOn, Documents, Convert, Table, NAMES, LEAVES, SECTIONS, SECTION_PATHS, SectionPath, Spec;
    ConvertOtherTexts("false");
    SpecByHmp(Boost);
    LeafReads(docs, k, Boost, "hmp/boost", Bool, BoolValue(false));
    SpecByHmp(Semiboost);
    LeafReads(docs, k, Semiboost, "hmp/semiboost", Bool, BoolValue(false));
    SpecByHmp(PowerMigration);
    LeafReads(docs, k, PowerMigration, "hmp/power_migration", Bool, BoolValue(false));
    SpecByHmp(ActiveDownMigration);
    LeafReads(docs, k, ActiveDownMigration, "hmp/active_down_migration", Bool, BoolValue(false));
    SpecByHmp(AggressiveUpMigration);
    LeafReads(docs, k, AggressiveUpMigration, "hmp/aggressive_up_migration", Bool, BoolValue(false));
  }

  lemma ThresholdLeaves(docs: seq<Xml>, k: nat)
    requires Documents(docs) && k < |NAMES| && AllOn(docs[k])
    ensures Reads(docs, k, ThresholdDown, "hmp/threshold/down", Uint, NumValue(214))
    ensures Reads(docs, k, ThresholdUp, "hmp/threshold/up", Uint, NumValue(479))
    ensures Reads(docs, k, SbThresholdDown, "hmp/sb_threshold/down", Uint, NumValue(150))
    ensures Reads(docs, k, SbThresholdUp, "hmp/sb_threshold/up", Uint, NumValue(100))
  {
    hide Reads, AllOn, Documents, Convert, Table, NAMES, LEAVES, SECTIONS, SECTION_PATHS, SectionPath, Spec;
    SmallDefaults();
    SpecByHmp(ThresholdDown);
    LeafReads(docs, k, ThresholdDown, "hmp/threshold/down", Uint, NumValue(214));
    SpecByHmp(ThresholdUp);
    LeafReads(docs, k, ThresholdUp, "hmp/threshold/up", Uint, NumValue(479));
    SpecByHmp(SbThresholdDown);
    LeafReads(docs, k, SbThresholdDown, "hmp/sb_threshold/down", Uint, NumValue(150));
    SpecByHmp(SbThresholdUp);
    LeafReads(docs, k, SbThresholdUp, "hmp/sb_threshold/up", Uint, NumValue(100));
  }

  lemma GpuLeaves(docs: seq<Xml>, k: nat)
    requires Documents(docs) && k < |NAMES| && AllOn(docs[k])
    ensures Reads(docs, k, DvfsFreqMin, "gpu/dvfs/freq_min", Uint, NumValue(100))
    ensures Reads(docs, k, DvfsFreqMax, "gpu/dvfs/freq_max", Uint, NumValue(772))
    ensures Reads(docs, k, HighspeedFreq, "gpu/highspeed/freq", Uint, NumValue(772))
    ensures Reads(docs, k, HighspeedLoad, "gpu/highspeed/load", Uint, NumValue(99))
  {
    hide Reads, AllOn, Documents, Convert, Table, NAMES, LEAVES, SECTIONS, SECTION_PATHS, SectionPath, Spec;
    SmallDefaults();
    SpecByGpu(DvfsFreqMin);
    LeafReads(docs, k, DvfsFreqMin, "gpu/dvfs/freq_min", Uint, NumValue(100));
    SpecByGpu(DvfsFreqMax);
    LeafReads(docs, k, DvfsFreqMax, "gpu/dvfs/freq_max", Uint, NumValue(772));
    SpecByGpu(HighspeedFreq);
    LeafReads(docs, k, HighspeedFreq, "gpu/highspeed/freq", Uint, NumValue(772));
    SpecByGpu(HighspeedLoad);
    LeafReads(docs, k, HighspeedLoad, "gpu/highspeed/load", Uint, NumValue(99));
  }

  lemma OtherLeaves(docs: seq<Xml>, k: nat)
    requires Documents(docs) && k < |NAMES| && AllOn(docs[k])
    ensures Reads(docs, k, Pewq, "kernel/pewq", Bool, BoolValue(false))
    ensures Reads(docs, k, ControlTemp, "ipa/control_temp", Int, NumValue(65))
    ensures Reads(docs, k, ModeToggle, "slow/mode_toggle", Bool, BoolValue(false))
    ensures Reads(docs, k, TimerRate, "slow/timer_rate", Int, NumValue(0))
  {
    hide Reads, AllOn, Documents, Convert, Table, NAMES, LEAVES, SECTIONS, SECTION_PATHS, SectionPath, Spec;
    SmallDefaults();
    ConvertOtherTexts("false");
    SpecByOther(Pewq);
    LeafReads(docs, k, Pewq, "kernel/pewq", Bool, BoolValue(false));
    SpecByOther(ControlTemp);
    LeafReads(docs, k, ControlTemp, "ipa/control_temp", Int, NumValue(65));
    SpecByOther(ModeToggle);
    LeafReads(docs, k, ModeToggle, "slow/mode_toggle", Bool, BoolValue(false));
    SpecByOther(TimerRate);
    LeafReads(docs, k, TimerRate, "slow/timer_rate", Int, NumValue(0));
  }

  lemma BoosterLeaves(docs: seq<Xml>, k: nat)
    requires Documents(docs) && k < |NAMES| && AllOn(docs[k])
    ensures Reads(docs, k, Tail, "input_booster/tail", Str, StrValue("0 0 0 0 0 0"))
    ensures Reads(docs, k, Head, "input_booster/head", Str, StrValue("0 0 0 0 0 0"))
  {
    hide Reads, AllOn, Documents, Convert, Table, NAMES, LEAVES, SECTIONS, SECTION_PATHS, SectionPath, Spec;
    ConvertOtherTexts("0 0 0 0 0 0");
    SpecByOther(Tail);
    LeafReads(docs, k, Tail, "input_booster/tail", Str, StrValue("0 0 0 0 0 0"));
    SpecByOther(Head);
    LeafReads(docs, k, Head, "input_booster/head", Str, StrValue("0 0 0 0 0 0"));
  }

  /** The governor's table is the document's, or empty; it is never marked. */
  lemma GovernorLeaves(docs: seq<Xml>, k: nat, c: Cluster)
    requires Documents(docs) && k < |NAMES| && AllOn(docs[k])
    ensures var path := if c == Apollo then "cpu/apollo/governor_data" else "cpu/atlas/governor_data";
      Get(Table(docs, |NAMES|)[k], LeafField(GovernorData(c)))
        == Cell(if path in docs[k].nodes then Some(StrValue(docs[k].nodes[path])) else None, false)
  {
    hide Table, AllOn, Convert, Active, OwnOn, SectionPath;
    AllOnIsActive(docs, k, GovernorData(c));
    LeavesComeFromNearest(docs, k, GovernorData(c));
    GovernorPaths(c);
  }

  lemma GovernorPaths(c: Cluster)
    ensures Spec(GovernorData(c)).path == if c == Apollo then "cpu/apollo/governor_data" else "cpu/atlas/governor_data"
  {
  }

  // -------------------------------------------------------------------------------------
  // Everything but the leaves.

  /** Any field that is no leaf is, in the end, what the root of the extends chain says by itself. */
  function RootCell(docs: seq<Xml>, k: nat, q: Field): Cell
    requires k < |docs|
  {
    match Parent(docs, k)
    case None => Get(Own(map[], docs[k]), q)
    case Some(j) => if j < k then RootCell(docs, j, q) else BLANK
  }

  lemma {:induction false} SetLeavesKeeps(f: Fields, x: Xml, ls: seq<Leaf>, q: Field)
    requires !q.LeafField?
    ensures Get(SetLeaves(f, x, ls), q) == Get(f, q)
    decreases |ls|
  {
    hide Spec, Overlay;
    if ls != [] { SetLeavesKeeps(SetLeaf(f, x, ls[0]), x, ls[1..], q); }
  }

  lemma LoadedKeeps(docs: seq<Xml>, k: nat, all: seq<Fields>, q: Field)
    requires Documents(docs) && k < |all| == |NAMES| && !q.LeafField?
    requires forall j :: k <= j < |all| ==> all[j] == map[]
    requires forall j :: 0 <= j < k ==> Get(all[j], q) == RootCell(docs, j, q)
    ensures Get(Loaded(all, k, docs[k]), q) == RootCell(docs, k, q)
  {
    hide SetLeaves, Own, LEAVES, OwnOn;
    OwnIsOn(docs[k]);
    if OwnOn(docs[k]) {
      if docs[k].parent.Some? { ParentIsKnown(docs[k]); }
      SetLeavesKeeps(Base(all, k, docs[k]), docs[k], LEAVES, q);
    }
  }

  lemma OwnIsOn(x: Xml)
    ensures IsOn(Own(map[], x), Enabled) <==> OwnOn(x)
  {
    OwnStructure(x, Cpu, Pewq);
  }

  lemma {:induction false} FieldsAreTheRoots(docs: seq<Xml>, n: nat, k: nat, q: Field)
    requires Documents(docs) && n <= |NAMES| && k < |NAMES| && !q.LeafField?
    ensures Get(Table(docs, n)[k], q) == if k < n then RootCell(docs, k, q) else BLANK
  {
    hide Loaded, RootCell, Documents;
    NoDocuments(docs);
    if n > 0 {
      var all := Table(docs, n - 1);
      forall j | 0 <= j < |NAMES|
        ensures Get(all[j], q) == if j < n - 1 then RootCell(docs, j, q) else BLANK
      {
        FieldsAreTheRoots(docs, n - 1, j, q);
      }
      TableConforms(docs, n - 1);
      LoadedKeeps(docs, n - 1, all, q);
    }
  }

  lemma NoDocuments(docs: seq<Xml>)
    requires Documents(docs)
    ensures |docs| == |NAMES|
  {
  }

  /** What a document says by itself about its sections: the flag with its mark, and whether the section is there. */
  lemma OwnFields(x: Xml, s: Section)
    ensures var f, path := Own(map[], x), SectionPath(s);
      && Get(f, SectionPresent(s)) == (if path in x.nodes then Cell(None, true) else BLANK)
      && Get(f, SectionEnabled(s)) ==
         (if path !in x.nodes then BLANK
          else if path + "/enabled" in x.nodes then Cell(Some(BoolValue(x.nodes[path + "/enabled"] in {"true", "TRUE", "1"})), true)
          else Cell(Some(BoolValue(false)), false))
      && Get(f, Enabled) ==
         (if "enabled" in x.nodes then Cell(Some(BoolValue(x.nodes["enabled"] in {"true", "TRUE", "1"})), true) else Cell(Some(BoolValue(false)), false))
  {
    hide InitSections, SectionPath, SECTIONS;
    var f := SetEnabled(map[], x);
    InitSectionsKeeps(f, x, SECTIONS, Enabled);
    InitSectionsEffect(f, x, SECTIONS, s);
    InitSectionsPresent(f, x, SECTIONS, s);
    EverySectionIsListed(s);
  }

  lemma {:induction false} InitSectionsPresent(f: Fields, x: Xml, ss: seq<Section>, s: Section)
    ensures Get(InitSections(f, x, ss), SectionPresent(s)) ==
      if s in ss then (if SectionPath(s) in x.nodes then Cell(None, true) else BLANK) else Get(f, SectionPresent(s))
    decreases |ss|
  {
    hide SectionPath;
    if ss != [] {
      InitSectionsPresent(InitSection(f, x, ss[0]), x, ss[1..], s);
      assert s in ss <==> s == ss[0] || s in ss[1..];
    }
  }

  /** The names a profile can extend, by their place in the order of loading. */
  lemma NamesInOrder(x: Xml)
    ensures x.parent == Some("screen_off") ==> ParentOf(x) == Some(0)
    ensures x.parent == Some("power_save") ==> ParentOf(x) == Some(1)
    ensures x.parent == Some("bias_power_save") ==> ParentOf(x) == Some(2)
    ensures x.parent == Some("balanced") ==> ParentOf(x) == Some(3)
    ensures x.parent == Some("bias_performance") ==> ParentOf(x) == Some(4)
    ensures x.parent == Some("performance") ==> ParentOf(x) == Some(5)
  {
    var n := NAMES;
    assert n[1..][1..] == n[2..] && n[2..][1..] == n[3..] && n[3..][1..] == n[4..] && n[4..][1..] == n[5..];
    assert |"power_save"| == 10 && |"screen_off"| == 10 && "power_save"[0] != "screen_off"[0];
    assert "balanced"[1] == 'a' && "bias_power_save"[1] == 'i' && "bias_performance"[6] == 'e' && "bias_power_save"[6] == 'o';
    if x.parent.Some? { NamesFrom(x.parent.value); }
  }

  lemma NamesFrom(name: string)
    ensures IndexOf(NAMES, name) ==
      if name == NAMES[0] then 0 else if name == NAMES[1] then 1 else if name == NAMES[2] then 2
      else if name == NAMES[3] then 3 else if name == NAMES[4] then 4 else if name == NAMES[5] then 5 else 6
  {
    hide NAMES;
    SixNames();
    IndexNext(NAMES, name, 0); IndexNext(NAMES, name, 1); IndexNext(NAMES, name, 2);
    IndexNext(NAMES, name, 3); IndexNext(NAMES, name, 4); IndexNext(NAMES, name, 5);
    assert NAMES[0..] == NAMES && NAMES[6..] == [];
  }

  lemma SixNames()
    ensures |NAMES| == 6
  {
  }

  lemma IndexNext(names: seq<string>, name: string, i: nat)
    requires i < |names|
    ensures IndexOf(names[i..], name) == if name == names[i] then 0 else 1 + IndexOf(names[i + 1..], name)
    ensures IndexOf([], name) == 0
  {
    assert names[i..][1..] == names[i + 1..];
  }
}
