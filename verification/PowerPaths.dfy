/** How the paths of the leaves and of the sections in a profile's XML belong together. */
module PowerPaths {
  import opened PowerProfiles

  predicate IsCpuSection(s: Section) { s.Cpu? || s.CpuCluster? || s.Cores? }

  predicate IsHmpSection(s: Section) { s.Hmp? || s.Threshold? || s.SbThreshold? }

  predicate IsGpuSection(s: Section) { s.Gpu? || s.Dvfs? || s.Highspeed? }

  /** Which family a path is of, by its first character and the one after "cpu". */
  datatype Family = CpuPath | CpusetsPath | HmpPath | GpuPath | OtherPath

  function FamilyOf(path: string): Family {
    if |path| < 4 then OtherPath
    else if path[0] == 'c' then if path[3] == '/' then CpuPath else CpusetsPath
    else if path[0] == 'h' then HmpPath
    else if path[0] == 'g' then GpuPath
    else OtherPath
  }

  function FamilyOfSection(s: Section): Family {
    if IsCpuSection(s) then CpuPath else if s.Cpusets? then CpusetsPath
    else if IsHmpSection(s) then HmpPath else if IsGpuSection(s) then GpuPath else OtherPath
  }

  function FamilyOfLeaf(l: Leaf): Family {
    if IsClusterLeaf(l) then CpuPath else if IsCpusetsLeaf(l) then CpusetsPath
    else if IsHmpLeaf(l) then HmpPath else if IsGpuLeaf(l) then GpuPath else OtherPath
  }

  lemma FamilyOfPrefix(a: string, b: string)
    requires |a| >= 4 && a <= b
    ensures FamilyOf(a) == FamilyOf(b)
  {
  }

  lemma SectionFamily(s: Section)
    ensures |SectionPath(s) + "/"| >= 4 && FamilyOf(SectionPath(s) + "/") == FamilyOfSection(s)
  {
  }

  /** What follows the cluster in a leaf's path. */
  function Suffix(l: Leaf): string
    requires IsClusterLeaf(l)
  {
    match l
    case Governor(_) => "/governor"
    case GovernorData(_) => "/governor_data"
    case FreqMin(_) => "/freq_min"
    case FreqMax(_) => "/freq_max"
    case FreqHispeed(_) => "/freq_hispeed"
    case FreqBoost(_) => "/freq_boost"
    case Core1(_) => "/cores/core1"
    case Core2(_) => "/cores/core2"
    case Core3(_) => "/cores/core3"
    case Core4(_) => "/cores/core4"
  }

  predicate IsCoreLeaf(l: Leaf) { l.Core1? || l.Core2? || l.Core3? || l.Core4? }

  lemma ClusterLeafPath(l: Leaf)
    requires IsClusterLeaf(l)
    ensures Spec(l).path == ClusterPath(l.c) + Suffix(l) && FamilyOf(Spec(l).path) == CpuPath
    ensures Spec(l).guards == [Cpu, CpuCluster(l.c)] + if IsCoreLeaf(l) then [Cores(l.c)] else []
  {
  }

  lemma SuffixOfCores(l: Leaf)
    requires IsClusterLeaf(l)
    ensures Suffix(l) != "" && Suffix(l)[0] == '/' && ("/cores/" <= Suffix(l) <==> IsCoreLeaf(l))
  {
    assert "/cores/" <= Suffix(l) ==> Suffix(l)[1] == 'c';
  }

  lemma PrefixOfConcat(c: string, t: string, u: string)
    ensures c + u <= c + t <==> u <= t
  {
    if u <= t { assert t == u + t[|u|..] && c + t == c + u + t[|u|..]; }
    if c + u <= c + t {
      assert forall i :: 0 <= i < |u| ==> (c + u)[|c| + i] == u[i] && (c + t)[|c| + i] == t[i];
    }
  }

  lemma ClusterEncloses(l: Leaf, s: Section)
    requires IsClusterLeaf(l) && IsCpuSection(s)
    ensures s in Spec(l).guards <==> SectionPath(s) + "/" <= Spec(l).path
  {
    hide Spec, Suffix;
    ClusterLeafPath(l);
    SuffixOfCores(l);
    var c, t := ClusterPath(l.c), Suffix(l);
    if s.Cpu? {
      assert SectionPath(s) + "/" == "cpu/" && (c + t)[..4] == c[..4] == "cpu/";
    } else if s.c == l.c {
      if s.CpuCluster? {
        PrefixOfConcat(c, t, "/");
        assert "/" <= t;
      } else {
        assert c + "/cores" + "/" == c + "/cores/";
        PrefixOfConcat(c, t, "/cores/");
      }
    } else {
      assert (c + t)[5] == c[5] && (SectionPath(s) + "/")[5] == ClusterPath(s.c)[5];
      assert c[5] != ClusterPath(s.c)[5];
    }
  }

  lemma CpusetsLeafPath(l: Leaf)
    requires IsCpusetsLeaf(l)
    ensures "cpusets/" <= Spec(l).path && FamilyOf(Spec(l).path) == CpusetsPath && Spec(l).guards == [Cpusets]
  {
  }

  lemma SpecByCluster(l: Leaf)
    requires IsClusterLeaf(l)
    ensures Spec(l) == ClusterSpec(l)
  {
    hide ClusterSpec, CpusetsSpec, HmpSpec, GpuSpec, OtherSpec;
  }

  lemma SpecByCpusets(l: Leaf)
    requires IsCpusetsLeaf(l)
    ensures Spec(l) == CpusetsSpec(l)
  {
    hide ClusterSpec, CpusetsSpec, HmpSpec, GpuSpec, OtherSpec;
  }

  lemma SpecByHmp(l: Leaf)
    requires IsHmpLeaf(l)
    ensures Spec(l) == HmpSpec(l)
  {
    hide ClusterSpec, CpusetsSpec, HmpSpec, GpuSpec, OtherSpec;
  }

  lemma HmpHead(l: Leaf)
    requires IsHmpLeaf(l)
    ensures var p := HmpSpec(l).path; |p| >= 4 && p[0] == 'h'
  {
  }

  lemma HmpGuards(l: Leaf)
    requires IsHmpLeaf(l)
    ensures var gs := HmpSpec(l).guards;
      && 1 <= |gs| <= 2 && FamilyOfSection(gs[0]) == HmpPath && (|gs| == 2 ==> FamilyOfSection(gs[1]) == HmpPath)
  {
  }

  lemma HmpFamily(l: Leaf)
    requires IsHmpLeaf(l)
    ensures FamilyOf(Spec(l).path) == HmpPath && forall s :: s in Spec(l).guards ==> FamilyOfSection(s) == HmpPath
  {
    hide Spec, HmpSpec, FamilyOfSection;
    SpecByHmp(l);
    HmpHead(l);
    HmpGuards(l);
    var gs := HmpSpec(l).guards;
    assert forall s :: s in gs ==> s == gs[0] || (|gs| == 2 && s == gs[1]);
  }

  lemma HmpGuarded(l: Leaf)
    requires IsHmpLeaf(l)
    ensures Hmp in HmpSpec(l).guards <==> true
  {
  }

  lemma HmpPrefix(l: Leaf)
    requires IsHmpLeaf(l)
    ensures "hmp/" <= HmpSpec(l).path <==> true
  {
    var p := HmpSpec(l).path;
    assert "hmp/" <= p ==> |p| >= 4 && p[0] == 'h';
  }

  lemma HmpEncloses(l: Leaf)
    requires IsHmpLeaf(l)
    ensures Hmp in Spec(l).guards <==> SectionPath(Hmp) + "/" <= Spec(l).path
  {
    hide Spec, HmpSpec;
    SpecByHmp(l);
    HmpGuarded(l);
    HmpPrefix(l);
    assert SectionPath(Hmp) + "/" == "hmp/";
  }

  lemma ThresholdGuarded(l: Leaf)
    requires IsHmpLeaf(l)
    ensures Threshold in HmpSpec(l).guards <==> l.ThresholdDown? || l.ThresholdUp?
  {
  }

  lemma ThresholdPrefix(l: Leaf)
    requires IsHmpLeaf(l)
    ensures "hmp/threshold/" <= HmpSpec(l).path <==> l.ThresholdDown? || l.ThresholdUp?
  {
    var p := HmpSpec(l).path;
    assert "hmp/threshold/" <= p ==> |p| >= 14 && p[4] == 't';
  }

  lemma ThresholdEncloses(l: Leaf)
    requires IsHmpLeaf(l)
    ensures Threshold in Spec(l).guards <==> SectionPath(Threshold) + "/" <= Spec(l).path
  {
    hide Spec, HmpSpec;
    SpecByHmp(l);
    ThresholdGuarded(l);
    ThresholdPrefix(l);
    assert SectionPath(Threshold) + "/" == "hmp/threshold/";
  }

  lemma SbThresholdGuarded(l: Leaf)
    requires IsHmpLeaf(l)
    ensures SbThreshold in HmpSpec(l).guards <==> l.SbThresholdDown? || l.SbThresholdUp?
  {
  }

  lemma SbThresholdPrefix(l: Leaf)
    requires IsHmpLeaf(l)
    ensures "hmp/sb_threshold/" <= HmpSpec(l).path <==> l.SbThresholdDown? || l.SbThresholdUp?
  {
    var p := HmpSpec(l).path;
    assert "hmp/sb_threshold/" <= p ==> |p| >= 17 && p[5] == 'b';
  }

  lemma SbThresholdEncloses(l: Leaf)
    requires IsHmpLeaf(l)
    ensures SbThreshold in Spec(l).guards <==> SectionPath(SbThreshold) + "/" <= Spec(l).path
  {
    hide Spec, HmpSpec;
    SpecByHmp(l);
    SbThresholdGuarded(l);
    SbThresholdPrefix(l);
    assert SectionPath(SbThreshold) + "/" == "hmp/sb_threshold/";
  }

  lemma SpecByGpu(l: Leaf)
    requires IsGpuLeaf(l)
    ensures Spec(l) == GpuSpec(l)
  {
    hide ClusterSpec, CpusetsSpec, HmpSpec, GpuSpec, OtherSpec;
  }

  lemma GpuHead(l: Leaf)
    requires IsGpuLeaf(l)
    ensures var p := GpuSpec(l).path; |p| >= 4 && p[0] == 'g'
  {
  }

  lemma GpuGuards(l: Leaf)
    requires IsGpuLeaf(l)
    ensures var gs := GpuSpec(l).guards;
      && 1 <= |gs| <= 2 && FamilyOfSection(gs[0]) == GpuPath && (|gs| == 2 ==> FamilyOfSection(gs[1]) == GpuPath)
  {
  }

  lemma GpuFamily(l: Leaf)
    requires IsGpuLeaf(l)
    ensures FamilyOf(Spec(l).path) == GpuPath && forall s :: s in Spec(l).guards ==> FamilyOfSection(s) == GpuPath
  {
    hide Spec, GpuSpec, FamilyOfSection;
    SpecByGpu(l);
    GpuHead(l);
    GpuGuards(l);
    var gs := GpuSpec(l).guards;
    assert forall s :: s in gs ==> s == gs[0] || (|gs| == 2 && s == gs[1]);
  }

  lemma GpuGuarded(l: Leaf)
    requires IsGpuLeaf(l)
    ensures Gpu in GpuSpec(l).guards <==> true
  {
  }

  lemma GpuPrefix(l: Leaf)
    requires IsGpuLeaf(l)
    ensures "gpu/" <= GpuSpec(l).path <==> true
  {
    var p := GpuSpec(l).path;
    assert "gpu/" <= p ==> |p| >= 4 && p[0] == 'g';
  }

  lemma GpuEncloses(l: Leaf)
    requires IsGpuLeaf(l)
    ensures Gpu in Spec(l).guards <==> SectionPath(Gpu) + "/" <= Spec(l).path
  {
    hide Spec, GpuSpec;
    SpecByGpu(l);
    GpuGuarded(l);
    GpuPrefix(l);
    assert SectionPath(Gpu) + "/" == "gpu/";
  }

  lemma DvfsGuarded(l: Leaf)
    requires IsGpuLeaf(l)
    ensures Dvfs in GpuSpec(l).guards <==> l.DvfsFreqMin? || l.DvfsFreqMax?
  {
  }

  lemma DvfsPrefix(l: Leaf)
    requires IsGpuLeaf(l)
    ensures "gpu/dvfs/" <= GpuSpec(l).path <==> l.DvfsFreqMin? || l.DvfsFreqMax?
  {
    var p := GpuSpec(l).path;
    assert "gpu/dvfs/" <= p ==> |p| >= 9 && p[4] == 'd';
  }

  lemma DvfsEncloses(l: Leaf)
    requires IsGpuLeaf(l)
    ensures Dvfs in Spec(l).guards <==> SectionPath(Dvfs) + "/" <= Spec(l).path
  {
    hide Spec, GpuSpec;
    SpecByGpu(l);
    DvfsGuarded(l);
    DvfsPrefix(l);
    assert SectionPath(Dvfs) + "/" == "gpu/dvfs/";
  }

  lemma HighspeedGuarded(l: Leaf)
    requires IsGpuLeaf(l)
    ensures Highspeed in GpuSpec(l).guards <==> l.HighspeedFreq? || l.HighspeedLoad?
  {
  }

  lemma HighspeedPrefix(l: Leaf)
    requires IsGpuLeaf(l)
    ensures "gpu/highspeed/" <= GpuSpec(l).path <==> l.HighspeedFreq? || l.HighspeedLoad?
  {
    var p := GpuSpec(l).path;
    assert "gpu/highspeed/" <= p ==> |p| >= 14 && p[4] == 'h';
  }

  lemma HighspeedEncloses(l: Leaf)
    requires IsGpuLeaf(l)
    ensures Highspeed in Spec(l).guards <==> SectionPath(Highspeed) + "/" <= Spec(l).path
  {
    hide Spec, GpuSpec;
    SpecByGpu(l);
    HighspeedGuarded(l);
    HighspeedPrefix(l);
    assert SectionPath(Highspeed) + "/" == "gpu/highspeed/";
  }

  lemma SpecByOther(l: Leaf)
    requires IsOtherLeaf(l)
    ensures Spec(l) == OtherSpec(l)
  {
    hide ClusterSpec, CpusetsSpec, HmpSpec, GpuSpec, OtherSpec;
  }

  lemma OtherHead(l: Leaf)
    requires IsOtherLeaf(l)
    ensures var p := OtherSpec(l).path; |p| >= 4 && (p[0] == 'k' || p[0] == 'i' || p[0] == 's')
  {
  }

  lemma OtherGuards(l: Leaf)
    requires IsOtherLeaf(l)
    ensures var gs := OtherSpec(l).guards; |gs| == 1 && FamilyOfSection(gs[0]) == OtherPath
  {
  }

  lemma OtherFamily(l: Leaf)
    requires IsOtherLeaf(l)
    ensures FamilyOf(Spec(l).path) == OtherPath && forall s :: s in Spec(l).guards ==> FamilyOfSection(s) == OtherPath
  {
    hide Spec, OtherSpec, FamilyOfSection;
    SpecByOther(l);
    OtherHead(l);
    OtherGuards(l);
    var gs := OtherSpec(l).guards;
    assert forall s :: s in gs ==> s == gs[0];
  }

  lemma KernelGuarded(l: Leaf)
    requires IsOtherLeaf(l)
    ensures Kernel in OtherSpec(l).guards <==> l.Pewq?
  {
  }

  lemma KernelPrefix(l: Leaf)
    requires IsOtherLeaf(l)
    ensures "kernel/" <= OtherSpec(l).path <==> l.Pewq?
  {
    var p := OtherSpec(l).path;
    assert "kernel/" <= p ==> |p| >= 7 && p[0] == 'k';
  }

  lemma KernelEncloses(l: Leaf)
    requires IsOtherLeaf(l)
    ensures Kernel in Spec(l).guards <==> SectionPath(Kernel) + "/" <= Spec(l).path
  {
    hide Spec, OtherSpec;
    SpecByOther(l);
    KernelGuarded(l);
    KernelPrefix(l);
    assert SectionPath(Kernel) + "/" == "kernel/";
  }

  lemma IpaGuarded(l: Leaf)
    requires IsOtherLeaf(l)
    ensures Ipa in OtherSpec(l).guards <==> l.ControlTemp?
  {
  }

  lemma IpaPrefix(l: Leaf)
    requires IsOtherLeaf(l)
    ensures "ipa/" <= OtherSpec(l).path <==> l.ControlTemp?
  {
    var p := OtherSpec(l).path;
    assert "ipa/" <= p ==> |p| >= 4 && p[1] == 'p';
  }

  lemma IpaEncloses(l: Leaf)
    requires IsOtherLeaf(l)
    ensures Ipa in Spec(l).guards <==> SectionPath(Ipa) + "/" <= Spec(l).path
  {
    hide Spec, OtherSpec;
    SpecByOther(l);
    IpaGuarded(l);
    IpaPrefix(l);
    assert SectionPath(Ipa) + "/" == "ipa/";
  }

  lemma SlowGuarded(l: Leaf)
    requires IsOtherLeaf(l)
    ensures Slow in OtherSpec(l).guards <==> l.ModeToggle? || l.TimerRate?
  {
  }

  lemma SlowPrefix(l: Leaf)
    requires IsOtherLeaf(l)
    ensures "slow/" <= OtherSpec(l).path <==> l.ModeToggle? || l.TimerRate?
  {
    var p := OtherSpec(l).path;
    assert "slow/" <= p ==> |p| >= 5 && p[0] == 's';
  }

  lemma SlowEncloses(l: Leaf)
    requires IsOtherLeaf(l)
    ensures Slow in Spec(l).guards <==> SectionPath(Slow) + "/" <= Spec(l).path
  {
    hide Spec, OtherSpec;
    SpecByOther(l);
    SlowGuarded(l);
    SlowPrefix(l);
    assert SectionPath(Slow) + "/" == "slow/";
  }

  lemma InputBoosterGuarded(l: Leaf)
    requires IsOtherLeaf(l)
    ensures InputBooster in OtherSpec(l).guards <==> l.Tail? || l.Head?
  {
  }

  lemma InputBoosterPrefix(l: Leaf)
    requires IsOtherLeaf(l)
    ensures "input_booster/" <= OtherSpec(l).path <==> l.Tail? || l.Head?
  {
    var p := OtherSpec(l).path;
    assert "input_booster/" <= p ==> |p| >= 14 && p[1] == 'n';
  }

  lemma InputBoosterEncloses(l: Leaf)
    requires IsOtherLeaf(l)
    ensures InputBooster in Spec(l).guards <==> SectionPath(InputBooster) + "/" <= Spec(l).path
  {
    hide Spec, OtherSpec;
    SpecByOther(l);
    InputBoosterGuarded(l);
    InputBoosterPrefix(l);
    assert SectionPath(InputBooster) + "/" == "input_booster/";
  }

  /** Each leaf's path and guards are of its family. */
  lemma LeafFamily(l: Leaf)
    ensures FamilyOf(Spec(l).path) == FamilyOfLeaf(l)
    ensures forall s :: s in Spec(l).guards ==> FamilyOfSection(s) == FamilyOfLeaf(l)
  {
    hide Spec, Suffix, FamilyOf;
    if IsClusterLeaf(l) { ClusterLeafPath(l); }
    else if IsCpusetsLeaf(l) { CpusetsLeafPath(l); }
    else if IsHmpLeaf(l) { HmpFamily(l); }
    else if IsGpuLeaf(l) { GpuFamily(l); }
    else { OtherFamily(l); }
  }

  /** A leaf lies in exactly the sections whose path, with a slash, its own path begins with. */
  lemma GuardsAreEnclosing(l: Leaf, s: Section)
    ensures s in Spec(l).guards <==> SectionPath(s) + "/" <= Spec(l).path
  {
    hide Spec, SectionPath, FamilyOf;
    LeafFamily(l);
    SectionFamily(s);
    if FamilyOfLeaf(l) != FamilyOfSection(s) {
      if SectionPath(s) + "/" <= Spec(l).path { FamilyOfPrefix(SectionPath(s) + "/", Spec(l).path); }
    } else if IsCpuSection(s) {
      ClusterEncloses(l, s);
    } else if s.Cpusets? {
      CpusetsLeafPath(l);
      CpusetsSection();
    } else {
      match s
      case Hmp => HmpEncloses(l);
      case Threshold => ThresholdEncloses(l);
      case SbThreshold => SbThresholdEncloses(l);
      case Gpu => GpuEncloses(l);
      case Dvfs => DvfsEncloses(l);
      case Highspeed => HighspeedEncloses(l);
      case Kernel => KernelEncloses(l);
      case Ipa => IpaEncloses(l);
      case Slow => SlowEncloses(l);
      case InputBooster => InputBoosterEncloses(l);
    }
  }

  lemma CpusetsSection()
    ensures SectionPath(Cpusets) + "/" == "cpusets/"
  {
  }

  lemma CpusetsDistinct(l: Leaf, m: Leaf)
    requires IsCpusetsLeaf(l) && IsCpusetsLeaf(m) && CpusetsSpec(l).path == CpusetsSpec(m).path
    ensures l == m
  {
    var p := CpusetsSpec(l).path;
    assert |p| > 8 && CpusetsSpec(m).path[8] == p[8];
  }

  lemma HmpDistinct(l: Leaf, m: Leaf)
    requires IsHmpLeaf(l) && IsHmpLeaf(m) && HmpSpec(l).path == HmpSpec(m).path
    ensures l == m
  {
    var p := HmpSpec(l).path;
    assert |p| > 5 && HmpSpec(m).path[4] == p[4] && HmpSpec(m).path[5] == p[5];
  }

  lemma GpuDistinct(l: Leaf, m: Leaf)
    requires IsGpuLeaf(l) && IsGpuLeaf(m) && GpuSpec(l).path == GpuSpec(m).path
    ensures l == m
  {
    var p := GpuSpec(l).path;
    assert |p| > 15 && GpuSpec(m).path[4] == p[4] && GpuSpec(m).path[14] == p[14] && GpuSpec(m).path[15] == p[15];
  }

  lemma OtherDistinct(l: Leaf, m: Leaf)
    requires IsOtherLeaf(l) && IsOtherLeaf(m) && OtherSpec(l).path == OtherSpec(m).path
    ensures l == m
  {
    var p := OtherSpec(l).path;
    assert |p| > 5 && OtherSpec(m).path[0] == p[0] && OtherSpec(m).path[1] == p[1];
    assert |p| > 14 ==> OtherSpec(m).path[14] == p[14];
  }

  lemma SuffixDistinct(l: Leaf, m: Leaf)
    requires IsClusterLeaf(l) && IsClusterLeaf(m) && Suffix(l) == Suffix(m) && l.c == m.c
    ensures l == m
  {
    var t, u := Suffix(l), Suffix(m);
    assert |t| > 7 && u[1] == t[1] && u[6] == t[6] && u[7] == t[7];
    assert |t| > 8 ==> u[8] == t[8];
    assert |t| > 11 ==> u[11] == t[11];
  }

  lemma ClusterDistinct(l: Leaf, m: Leaf)
    requires IsClusterLeaf(l) && IsClusterLeaf(m) && ClusterPath(l.c) + Suffix(l) == ClusterPath(m.c) + Suffix(m)
    ensures l == m
  {
    hide Suffix;
    var p, q := ClusterPath(l.c) + Suffix(l), ClusterPath(m.c) + Suffix(m);
    assert p[5] == ClusterPath(l.c)[5] && q[5] == ClusterPath(m.c)[5];
    assert l.c == m.c;
    assert Suffix(l) == p[|ClusterPath(l.c)|..] && Suffix(m) == q[|ClusterPath(m.c)|..];
    SuffixDistinct(l, m);
  }

  /** No two leaves are read from the same place. */
  lemma PathsAreDistinct(l: Leaf, m: Leaf)
    requires Spec(l).path == Spec(m).path
    ensures l == m
  {
    hide Spec, FamilyOf, Suffix, ClusterPath, CpusetsSpec, HmpSpec, GpuSpec, OtherSpec;
    LeafFamily(l);
    LeafFamily(m);
    if IsClusterLeaf(l) {
      ClusterLeafPath(l);
      ClusterLeafPath(m);
      ClusterDistinct(l, m);
    } else if IsCpusetsLeaf(l) {
      SpecByCpusets(l);
      SpecByCpusets(m);
      CpusetsDistinct(l, m);
    } else if IsHmpLeaf(l) {
      SpecByHmp(l);
      SpecByHmp(m);
      HmpDistinct(l, m);
    } else if IsGpuLeaf(l) {
      SpecByGpu(l);
      SpecByGpu(m);
      GpuDistinct(l, m);
    } else {
      SpecByOther(l);
      SpecByOther(m);
      OtherDistinct(l, m);
    }
  }
}
