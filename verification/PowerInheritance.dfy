/** What the loaded power profiles contain: each leaf comes from the nearest profile that writes it. */
module PowerInheritance {
  import opened Options
  import opened PowerProfiles

  function Blanks(n: nat): (r: seq<Fields>)
    ensures |r| == n && forall i :: 0 <= i < n ==> r[i] == map[]
  {
    seq(n, _ => map[])
  }

  /** The structures after the first n profiles are loaded. */
  function Table(docs: seq<Xml>, n: nat): (r: seq<Fields>)
    requires n <= |docs| == |NAMES|
    ensures |r| == |NAMES|
  {
    if n == 0 then Blanks(|NAMES|)
    else Table(docs, n - 1)[n - 1 := Loaded(Table(docs, n - 1), n - 1, docs[n - 1])]
  }

  // -------------------------------------------------------------------------------------
  // Reference: look values up along the chain of documents.

  /** The document says that the profile is enabled. */
  predicate OwnOn(x: Xml) { "enabled" in x.nodes && ToBool(x.nodes["enabled"]) }

  /** The document says that the section is enabled. */
  predicate OwnFlag(x: Xml, s: Section) {
    SectionPath(s) in x.nodes && SectionPath(s) + "/enabled" in x.nodes && ToBool(x.nodes[SectionPath(s) + "/enabled"])
  }

  /** The profile that an enabled profile extends; extending itself is extending nothing. */
  function Parent(docs: seq<Xml>, k: nat): Option<nat>
    requires k < |docs|
  {
    if OwnOn(docs[k]) && ParentOf(docs[k]) != Some(k) then ParentOf(docs[k]) else None
  }

  /** The flags of a profile are those of the root of its chain; below a profile loaded later there are none. */
  predicate On(docs: seq<Xml>, k: nat)
    requires k < |docs|
  {
    match Parent(docs, k)
    case None => OwnOn(docs[k])
    case Some(j) => j < k && On(docs, j)
  }

  predicate Flag(docs: seq<Xml>, k: nat, s: Section)
    requires k < |docs|
  {
    match Parent(docs, k)
    case None => OwnFlag(docs[k], s)
    case Some(j) => j < k && Flag(docs, j, s)
  }

  /** The text of a leaf in the nearest profile of the chain whose document has it. */
  function Nearest(docs: seq<Xml>, k: nat, l: Leaf): Option<string>
    requires k < |docs|
  {
    if !OwnOn(docs[k]) then None
    else if Spec(l).path in docs[k].nodes then Some(docs[k].nodes[Spec(l).path])
    else match Parent(docs, k)
      case None => None
      case Some(j) => if j < k then Nearest(docs, j, l) else None
  }

  predicate Active(docs: seq<Xml>, k: nat, l: Leaf)
    requires k < |docs|
  {
    OwnOn(docs[k]) && forall g :: g in Spec(l).guards ==> Flag(docs, k, g)
  }

  /**
   The documents of the profiles in the order of their loading: where a profile is enabled its parent is
   known, and the numbers of its active leaves are numbers.
   */
  ghost predicate Documents(docs: seq<Xml>) {
    && |docs| == |NAMES|
    && (forall k :: 0 <= k < |docs| && OwnOn(docs[k]) ==> ParentKnown(docs[k]))
    && (forall k, l :: 0 <= k < |docs| && Active(docs, k, l) && Spec(l).path in docs[k].nodes ==>
          Convert(Spec(l).kind, docs[k].nodes[Spec(l).path]).Some?)
  }

  function Expected(docs: seq<Xml>, k: nat, l: Leaf): Cell
    requires k < |docs|
  {
    if !Active(docs, k, l) then BLANK
    else match Nearest(docs, k, l)
      case Some(text) => Cell(Convert(Spec(l).kind, text), Spec(l).kind != Rows)
      case None => if Spec(l).kind == Rows then BLANK else Cell(Convert(Spec(l).kind, Spec(l).fallback), false)
  }

  /** The structure f is what the documents say about profile k. */
  ghost predicate Conforms(docs: seq<Xml>, k: nat, f: Fields)
    requires k < |docs|
  {
    && (IsOn(f, Enabled) <==> On(docs, k))
    && (forall s :: IsOn(f, SectionEnabled(s)) <==> Flag(docs, k, s))
    && (forall l :: Get(f, LeafField(l)) == Expected(docs, k, l))
  }

  // -------------------------------------------------------------------------------------
  // The two agree.

  function OwnCell(x: Xml, s: Section): Cell {
    if SectionPath(s) in x.nodes then Overlay(BLANK, x, SectionPath(s) + "/enabled", Bool, "false") else BLANK
  }

  lemma OwnCellIsFlag(x: Xml, s: Section)
    ensures OwnCell(x, s).value == Some(BoolValue(true)) <==> OwnFlag(x, s)
  {
  }

  lemma {:induction false} InitSectionsEffect(f: Fields, x: Xml, ss: seq<Section>, s: Section)
    requires Get(f, SectionEnabled(s)) == BLANK || Get(f, SectionEnabled(s)) == OwnCell(x, s)
    ensures Get(InitSections(f, x, ss), SectionEnabled(s)) == if s in ss then OwnCell(x, s) else Get(f, SectionEnabled(s))
    decreases |ss|
  {
    hide SectionPath, ToBool;
    if ss != [] {
      var f1 := InitSection(f, x, ss[0]);
      assert Get(f1, SectionEnabled(s)) == if s == ss[0] then OwnCell(x, s) else Get(f, SectionEnabled(s));
      InitSectionsEffect(f1, x, ss[1..], s);
      assert s in ss <==> s == ss[0] || s in ss[1..];
    }
  }

  lemma {:induction false} InitSectionsKeeps(f: Fields, x: Xml, ss: seq<Section>, k: Field)
    requires k.Enabled? || k.LeafField?
    ensures Get(InitSections(f, x, ss), k) == Get(f, k)
    decreases |ss|
  {
    hide SectionPath;
    if ss != [] { InitSectionsKeeps(InitSection(f, x, ss[0]), x, ss[1..], k); }
  }

  /** The structure of a profile before any parent is copied. */
  lemma OwnStructure(x: Xml, s: Section, l: Leaf)
    ensures var f := Own(map[], x);
      && (IsOn(f, Enabled) <==> OwnOn(x))
      && (IsOn(f, SectionEnabled(s)) <==> OwnFlag(x, s))
      && Get(f, LeafField(l)) == BLANK
  {
    hide InitSections, SECTIONS, OwnFlag, OwnCell;
    var f := SetEnabled(map[], x);
    InitSectionsKeeps(f, x, SECTIONS, Enabled);
    InitSectionsKeeps(f, x, SECTIONS, LeafField(l));
    InitSectionsEffect(f, x, SECTIONS, s);
    EverySectionIsListed(s);
    OwnCellIsFlag(x, s);
  }

  function OverlayLeaf(c: Cell, x: Xml, l: Leaf): Cell { Overlay(c, x, Spec(l).path, Spec(l).kind, Spec(l).fallback) }

  lemma OverlayTwice(c: Cell, x: Xml, l: Leaf)
    ensures OverlayLeaf(OverlayLeaf(c, x, l), x, l) == OverlayLeaf(c, x, l)
  {
  }

  /** Going through the leaves sets each guarded leaf and nothing else. */
  lemma {:induction false} SetLeavesEffect(f: Fields, x: Xml, ls: seq<Leaf>, l: Leaf)
    ensures var r := SetLeaves(f, x, ls);
      && Get(r, LeafField(l)) == (if l in ls && Guarded(f, l) then OverlayLeaf(Get(f, LeafField(l)), x, l) else Get(f, LeafField(l)))
      && Get(r, Enabled) == Get(f, Enabled)
      && (forall s :: Get(r, SectionEnabled(s)) == Get(f, SectionEnabled(s)))
    decreases |ls|
  {
    hide Spec, Overlay;
    if ls != [] {
      var f1 := SetLeaf(f, x, ls[0]);
      assert forall s :: Get(f1, SectionEnabled(s)) == Get(f, SectionEnabled(s));
      assert Guarded(f1, l) == Guarded(f, l);
      SetLeavesEffect(f1, x, ls[1..], l);
      assert l in ls <==> l == ls[0] || l in ls[1..];
      OverlayTwice(Get(f, LeafField(l)), x, l);
    }
  }

  lemma ClusterLeafIsGuarded(l: Leaf)
    requires IsClusterLeaf(l)
    ensures |Spec(l).guards| > 0
  {
    hide ClusterPath, TopFrequency;
  }

  lemma OtherLeafIsGuarded(l: Leaf)
    requires !IsClusterLeaf(l)
    ensures |Spec(l).guards| > 0
  {
    hide ClusterPath, TopFrequency;
  }

  lemma EveryLeafIsGuarded(l: Leaf)
    ensures |Spec(l).guards| > 0
  {
    hide Spec;
    if IsClusterLeaf(l) { ClusterLeafIsGuarded(l); } else { OtherLeafIsGuarded(l); }
  }

  /** The state of the table when profile k is about to be loaded. */
  ghost predicate LoadedBelow(docs: seq<Xml>, k: nat, all: seq<Fields>)
    requires k < |docs| == |NAMES| == |all|
  {
    && (forall j :: 0 <= j < k ==> Conforms(docs, j, all[j]))
    && (forall j :: k <= j < |all| ==> all[j] == map[])
  }

  /** The base has the flags of the chain, and the parent's leaves if there is a loaded parent. */
  lemma BaseFlags(docs: seq<Xml>, k: nat, all: seq<Fields>, s: Section, l: Leaf)
    requires Documents(docs) && k < |all| == |NAMES| && LoadedBelow(docs, k, all) && OwnOn(docs[k])
    ensures var b := Base(all, k, docs[k]);
      && (IsOn(b, Enabled) <==> On(docs, k))
      && (IsOn(b, SectionEnabled(s)) <==> Flag(docs, k, s))
      && Get(b, LeafField(l)) ==
         (match Parent(docs, k) case Some(j) => if j < k then Expected(docs, j, l) else BLANK case None => BLANK)
  {
    hide Expected, OwnFlag, InitSections, SetEnabled, SECTIONS, OwnOn;
    OwnStructure(docs[k], s, l);
    if docs[k].parent.Some? { ParentIsKnown(docs[k]); }
    var p := Parent(docs, k);
    if p.Some? && p.value < k { assert Conforms(docs, p.value, all[p.value]); }
  }

  lemma GuardsFollowFlags(docs: seq<Xml>, k: nat, all: seq<Fields>, l: Leaf)
    requires Documents(docs) && k < |all| == |NAMES| && LoadedBelow(docs, k, all) && OwnOn(docs[k])
    ensures Guarded(Base(all, k, docs[k]), l) <==> Active(docs, k, l)
  {
    hide Base, Flag, Spec, OwnOn;
    forall s
      ensures IsOn(Base(all, k, docs[k]), SectionEnabled(s)) <==> Flag(docs, k, s)
    {
      BaseFlags(docs, k, all, s, l);
    }
  }

  lemma ExpectedOverlay(docs: seq<Xml>, k: nat, l: Leaf)
    requires k < |docs| && OwnOn(docs[k])
    ensures var inherited := match Parent(docs, k) case Some(j) => (if j < k then Expected(docs, j, l) else BLANK) case None => BLANK;
      Expected(docs, k, l) == if Active(docs, k, l) then OverlayLeaf(inherited, docs[k], l) else inherited
  {
    hide Spec, Convert, OwnOn, OwnFlag;
    EveryLeafIsGuarded(l);
    var g := Spec(l).guards[0];
    assert g in Spec(l).guards;
    var p := Parent(docs, k);
    if p.Some? && p.value < k {
      assert forall s :: Flag(docs, k, s) == Flag(docs, p.value, s);
      assert Active(docs, p.value, l) <==> OwnOn(docs[p.value]) && Active(docs, k, l);
      var c := Expected(docs, p.value, l);
      if Active(docs, k, l) {
        if Spec(l).path in docs[k].nodes {
          assert Expected(docs, k, l) == OverlayLeaf(c, docs[k], l);
        } else {
          assert Nearest(docs, k, l) == Nearest(docs, p.value, l);
          assert !OwnOn(docs[p.value]) ==> Nearest(docs, p.value, l) == None;
          assert Expected(docs, k, l) == OverlayLeaf(c, docs[k], l);
        }
      } else {
        assert c == BLANK;
      }
    } else if p.Some? {
      assert !Flag(docs, k, g);
    }
  }

  lemma LoadedLeaf(docs: seq<Xml>, k: nat, all: seq<Fields>, l: Leaf)
    requires Documents(docs) && k < |all| == |NAMES| && LoadedBelow(docs, k, all)
    ensures Get(Loaded(all, k, docs[k]), LeafField(l)) == Expected(docs, k, l)
  {
    hide Spec, SetLeaves, InitSections, SetEnabled, SECTIONS, LEAVES, OwnOn, Flag, Guarded, OverlayLeaf;
    OwnStructure(docs[k], Cpu, l);
    if OwnOn(docs[k]) {
      BaseFlags(docs, k, all, Cpu, l);
      GuardsFollowFlags(docs, k, all, l);
      SetLeavesEffect(Base(all, k, docs[k]), docs[k], LEAVES, l);
      EveryLeafIsListed(l);
      ExpectedOverlay(docs, k, l);
    }
  }

  lemma LoadedFlags(docs: seq<Xml>, k: nat, all: seq<Fields>, s: Section)
    requires Documents(docs) && k < |all| == |NAMES| && LoadedBelow(docs, k, all)
    ensures IsOn(Loaded(all, k, docs[k]), Enabled) <==> On(docs, k)
    ensures IsOn(Loaded(all, k, docs[k]), SectionEnabled(s)) <==> Flag(docs, k, s)
  {
    hide SetLeaves, InitSections, SetEnabled, SECTIONS, LEAVES, OwnFlag;
    OwnStructure(docs[k], s, Pewq);
    if OwnOn(docs[k]) {
      BaseFlags(docs, k, all, s, Pewq);
      SetLeavesEffect(Base(all, k, docs[k]), docs[k], LEAVES, Pewq);
    }
  }

  lemma {:induction false} TableConforms(docs: seq<Xml>, n: nat)
    requires Documents(docs) && n <= |NAMES|
    ensures forall j :: 0 <= j < n ==> Conforms(docs, j, Table(docs, n)[j])
    ensures forall j :: n <= j < |NAMES| ==> Table(docs, n)[j] == map[]
  {
    hide Loaded, Expected, On, Flag;
    if n > 0 {
      TableConforms(docs, n - 1);
      var all := Table(docs, n - 1);
      forall l { LoadedLeaf(docs, n - 1, all, l); }
      forall s { LoadedFlags(docs, n - 1, all, s); }
      LoadedFlags(docs, n - 1, all, Cpu);
    }
  }

  /** When its turn comes, each document can be loaded. */
  lemma TableIsLoadable(docs: seq<Xml>, k: nat)
    requires Documents(docs) && k < |NAMES|
    ensures Loadable(Table(docs, k), k, docs[k])
  {
    hide Table, Spec, Base, Own, OwnOn, Active, Guarded, Conforms;
    var all := Table(docs, k);
    TableConforms(docs, k);
    OwnStructure(docs[k], Cpu, Pewq);
    if OwnOn(docs[k]) {
      forall l
        ensures Guarded(Base(all, k, docs[k]), l) <==> Active(docs, k, l)
      {
        GuardsFollowFlags(docs, k, all, l);
      }
    }
  }

  lemma TableNone(docs: seq<Xml>)
    requires |docs| == |NAMES|
    ensures Table(docs, 0) == Blanks(|NAMES|)
  {
  }

  lemma TableNext(docs: seq<Xml>, k: nat)
    requires k < |docs| == |NAMES|
    ensures Table(docs, k + 1) == Table(docs, k)[k := Loaded(Table(docs, k), k, docs[k])]
  {
    hide Loaded;
  }

  /** loadProfilesImpl: the six profiles one after the other, from structures that are all zero. */
  method LoadProfiles(profiles: seq<SecPowerProfile>, docs: seq<Xml>)
    requires |profiles| == |NAMES| && Separate(profiles) && Documents(docs) && |docs| == |NAMES|
    requires Structures(profiles) == Blanks(|NAMES|)
    modifies profiles
    ensures Structures(profiles) == Table(docs, |NAMES|)
  {
    hide Loaded, Loadable, Table, Documents, NAMES;
    TableNone(docs);
    var k := 0;
    while k < |NAMES|
      invariant 0 <= k <= |NAMES|
      invariant Structures(profiles) == Table(docs, k)
    {
      TableIsLoadable(docs, k);
      TableNext(docs, k);
      LoadProfile(profiles, k, docs[k]);
      k := k + 1;
    }
  }

  /**
   After all profiles are loaded: a leaf of an enabled profile whose sections are enabled holds the text
   of the nearest profile in the extends chain that has it, else the default, and its flag says which;
   a governor table holds the nearest one, else nothing, and its flag is never set; every other leaf is
   untouched.
   */
  lemma LeavesComeFromNearest(docs: seq<Xml>, k: nat, l: Leaf)
    requires Documents(docs) && k < |NAMES|
    ensures var c, nearest := Get(Table(docs, |NAMES|)[k], LeafField(l)), Nearest(docs, k, l);
      if !Active(docs, k, l) then c == BLANK
      else if l.GovernorData? then
        !c.isSet && c.value == match nearest case Some(text) => Some(StrValue(text)) case None => None
      else
        && (c.isSet <==> nearest.Some?)
        && c.value == Convert(Spec(l).kind, match nearest case Some(text) => text case None => Spec(l).fallback)
  {
    hide Spec, Convert, Table;
    TableConforms(docs, |NAMES|);
    assert Conforms(docs, k, Table(docs, |NAMES|)[k]);
    OnlyGovernorDataIsRows(l);
  }

  lemma OnlyGovernorDataIsRows(l: Leaf)
    ensures Spec(l).kind == Rows <==> l.GovernorData?
    ensures forall text :: Convert(Rows, text) == Some(StrValue(text))
  {
    hide ClusterPath, TopFrequency;
  }

  /** The last profile of the chain that starts at k and goes to parents loaded earlier. */
  function Root(docs: seq<Xml>, k: nat): (r: nat)
    requires k < |docs|
    ensures r <= k
  {
    match Parent(docs, k)
    case None => k
    case Some(j) => if j < k then Root(docs, j) else k
  }

  /**
   The flags a profile ends up with are its chain root's own, whatever the documents in between say
   about their sections; if the root extends a profile that is loaded later, all of them are off.
   */
  lemma {:induction false} FlagsAreTheRoots(docs: seq<Xml>, k: nat, s: Section)
    requires Documents(docs) && k < |NAMES|
    ensures var f, r := Table(docs, |NAMES|)[k], Root(docs, k);
      && (IsOn(f, SectionEnabled(s)) <==> Parent(docs, r) == None && OwnFlag(docs[r], s))
      && (IsOn(f, Enabled) <==> Parent(docs, r) == None && OwnOn(docs[r]))
  {
    hide Table, Expected, OwnFlag, OwnOn, ParentOf;
    TableConforms(docs, |NAMES|);
    assert Conforms(docs, k, Table(docs, |NAMES|)[k]);
    RootFlags(docs, k, s);
  }

  lemma {:induction false} RootFlags(docs: seq<Xml>, k: nat, s: Section)
    requires k < |docs|
    ensures var r := Root(docs, k);
      && (Flag(docs, k, s) <==> Parent(docs, r) == None && OwnFlag(docs[r], s))
      && (On(docs, k) <==> Parent(docs, r) == None && OwnOn(docs[r]))
    decreases k
  {
    hide OwnFlag;
    var p := Parent(docs, k);
    if p.Some? && p.value < k { RootFlags(docs, p.value, s); }
  }

  /** Extending a profile that is loaded later silently switches a profile off: no flag is on and no leaf is set. */
  lemma LaterParentSwitchesOff(docs: seq<Xml>, k: nat, s: Section, l: Leaf)
    requires Documents(docs) && k < |NAMES| && OwnOn(docs[k])
    requires ParentOf(docs[k]).Some? && ParentOf(docs[k]).value > k
    ensures var f := Table(docs, |NAMES|)[k];
      !IsOn(f, Enabled) && !IsOn(f, SectionEnabled(s)) && Get(f, LeafField(l)) == BLANK
  {
    hide Table, Spec;
    FlagsAreTheRoots(docs, k, s);
    LeavesComeFromNearest(docs, k, l);
    EveryLeafIsGuarded(l);
    assert Spec(l).guards[0] in Spec(l).guards;
  }
}
