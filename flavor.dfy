/**
 * The product-flavor configurator of the build logic. It registers the
 * "contentType" flavor dimension on an Android build extension and creates one
 * product flavor per Dashiki flavor (demo, then prod): each is put under its
 * dimension, handed to a caller-supplied customization block, and, only on an
 * application extension, given the flavor's application-id and version-name
 * suffixes where the flavor defines them.
 */
module Flavor {
  import opened Kotlin

  /** The axes along which variants differ; there is one, the content source. */
  datatype FlavorDimension = ContentType

  /** The Kotlin enum name of a dimension, used as the registered dimension name. */
  function DimensionName(d: FlavorDimension): string
  {
    match d
    case ContentType => "contentType"
  }

  /** The product flavors of the app, with their dimension and optional suffixes. */
  datatype DashikiFlavor = Demo | Prod {

    function Dimension(): FlavorDimension
    {
      ContentType
    }

    function ApplicationIdSuffix(): Option<string>
    {
      match this
      case Demo => Some(".demo")
      case Prod => None
    }

    function VersionNameSuffix(): Option<string>
    {
      match this
      case Demo => Some("-demo")
      case Prod => None
    }

    /** The Kotlin enum constant's `name`. */
    function EnumName(): string
    {
      match this
      case Demo => "DEMO"
      case Prod => "PROD"
    }
  }

  /** `DashikiFlavor.values()`, in declaration order. */
  const AllFlavors: seq<DashikiFlavor> := [Demo, Prod]

  /** The name a flavor is created under: its enum name, lower-cased. */
  function FlavorName(f: DashikiFlavor): string
  {
    Lowercase(f.EnumName())
  }

  /** The fields of a product flavor that the configurator reads and writes (`null` is `None`). */
  datatype ProductFlavor = ProductFlavor(
    dimension: Option<string>,
    applicationIdSuffix: Option<string>,
    versionNameSuffix: Option<string>)

  /** A product flavor as the build tool creates it, before any field is set. */
  const NewFlavor: ProductFlavor := ProductFlavor(None, None, None)

  /** The caller's customization block `ProductFlavor.(DashikiFlavor) -> Unit`, as a state transformer. */
  type Block = (ProductFlavor, DashikiFlavor) -> ProductFlavor

  /** The default block `{}`. */
  const DefaultBlock: Block := (p: ProductFlavor, f: DashikiFlavor) => p

  /** One observable action of the configurator on the product-flavor container. */
  datatype Step =
    | Created(name: string)
    | DimensionSet(name: string, dimension: string)
    | BlockRan(name: string, flavor: DashikiFlavor)
    | ApplicationIdSuffixSet(name: string, suffix: string)
    | VersionNameSuffixSet(name: string, suffix: string)
  {
    predicate IsSuffixWrite()
    {
      ApplicationIdSuffixSet? || VersionNameSuffixSet?
    }
  }

  /** How a run ends: every flavor configured, or the build tool refusing a name that already exists. */
  datatype Outcome = Configured | DuplicateFlavor(name: string)

  /** The container of product flavors together with the trace of what was done to it. */
  datatype Container = Container(flavors: map<string, ProductFlavor>, log: seq<Step>)

  // ---------------------------------------------------------------------------
  // What configuring one flavor does

  /** The flavor after `dimension = flavor.dimension.name` and the customization block. */
  function Customized(f: DashikiFlavor, block: Block): ProductFlavor
  {
    block(NewFlavor.(dimension := Some(DimensionName(f.Dimension()))), f)
  }

  /** The suffix writes, guarded by the application check and by each suffix being non-null. */
  function WithSuffixes(p: ProductFlavor, f: DashikiFlavor, isApplication: bool): ProductFlavor
  {
    if !isApplication then p
    else
      var p1 := if f.ApplicationIdSuffix().Some? then p.(applicationIdSuffix := f.ApplicationIdSuffix()) else p;
      if f.VersionNameSuffix().Some? then p1.(versionNameSuffix := f.VersionNameSuffix()) else p1
  }

  /** The product flavor that configuring `f` leaves in the container. */
  function Configure(f: DashikiFlavor, isApplication: bool, block: Block): ProductFlavor
  {
    WithSuffixes(Customized(f, block), f, isApplication)
  }

  function SuffixSteps(f: DashikiFlavor, isApplication: bool): seq<Step>
  {
    if !isApplication then []
    else
      (match f.ApplicationIdSuffix()
       case Some(s) => [ApplicationIdSuffixSet(FlavorName(f), s)]
       case None => []) +
      (match f.VersionNameSuffix()
       case Some(s) => [VersionNameSuffixSet(FlavorName(f), s)]
       case None => [])
  }

  /** The trace of configuring one flavor. */
  function FlavorSteps(f: DashikiFlavor, isApplication: bool): seq<Step>
  {
    var name := FlavorName(f);
    [Created(name), DimensionSet(name, DimensionName(f.Dimension())), BlockRan(name, f)]
      + SuffixSteps(f, isApplication)
  }

  /** `create(name) { ... }` for one flavor: refused when the name is taken. */
  function CreateOne(c: Container, f: DashikiFlavor, isApplication: bool, block: Block): (r: (Container, Outcome))
    ensures r.1.DuplicateFlavor? <==> FlavorName(f) in c.flavors
    ensures r.1.DuplicateFlavor? ==> r.0 == c && r.1.name == FlavorName(f)
    ensures c.log <= r.0.log
  {
    var name := FlavorName(f);
    if name in c.flavors then (c, DuplicateFlavor(name))
    else
      (Container(c.flavors[name := Configure(f, isApplication, block)], c.log + FlavorSteps(f, isApplication)),
       Configured)
  }

  /** The `forEach` over `fs`, stopping at the first refused name. */
  function CreateAll(fs: seq<DashikiFlavor>, c: Container, isApplication: bool, block: Block): (r: (Container, Outcome))
    ensures c.log <= r.0.log
  {
    if fs == [] then (c, Configured)
    else
      var r := CreateAll(fs[..|fs| - 1], c, isApplication, block);
      if r.1.DuplicateFlavor? then r else CreateOne(r.0, fs[|fs| - 1], isApplication, block)
  }

  // ---------------------------------------------------------------------------
  // Reference definitions of a complete run

  /** The flavors a complete run over `fs` adds. */
  function Built(fs: seq<DashikiFlavor>, isApplication: bool, block: Block): map<string, ProductFlavor>
  {
    if fs == [] then map[]
    else Built(fs[..|fs| - 1], isApplication, block)[FlavorName(fs[|fs| - 1]) := Configure(fs[|fs| - 1], isApplication, block)]
  }

  /** The trace of a complete run over `fs`. */
  function Steps(fs: seq<DashikiFlavor>, isApplication: bool): seq<Step>
  {
    if fs == [] then [] else Steps(fs[..|fs| - 1], isApplication) + FlavorSteps(fs[|fs| - 1], isApplication)
  }

  predicate DistinctNames(fs: seq<DashikiFlavor>)
  {
    forall i, j :: 0 <= i < j < |fs| ==> FlavorName(fs[i]) != FlavorName(fs[j])
  }

  /** The names of the `Created` steps of `log`, in order. */
  function CreatedNames(log: seq<Step>): seq<string>
  {
    if log == [] then []
    else CreatedNames(log[..|log| - 1]) + (if log[|log| - 1].Created? then [log[|log| - 1].name] else [])
  }

  /** The `BlockRan` steps of `log`, in order. */
  function BlockRuns(log: seq<Step>): seq<Step>
  {
    if log == [] then []
    else BlockRuns(log[..|log| - 1]) + (if log[|log| - 1].BlockRan? then [log[|log| - 1]] else [])
  }

  /** The flavor names, in the order of `fs`. */
  function NameList(fs: seq<DashikiFlavor>): seq<string>
  {
    if fs == [] then [] else NameList(fs[..|fs| - 1]) + [FlavorName(fs[|fs| - 1])]
  }

  /** One block run per flavor of `fs`, in order. */
  function BlockRunList(fs: seq<DashikiFlavor>): seq<Step>
  {
    if fs == [] then [] else BlockRunList(fs[..|fs| - 1]) + [BlockRan(FlavorName(fs[|fs| - 1]), fs[|fs| - 1])]
  }

  // ---------------------------------------------------------------------------
  // The extension object

  /** The Android build extension (`CommonExtension`) as far as the configurator touches it. */
  class BuildExtension {
    /** Whether this is an application extension (whose flavors are application flavors). */
    const isApplication: bool
    var flavorDimensions: seq<string>
    var productFlavors: map<string, ProductFlavor>
    /** What has been done to the product-flavor container, for specification. */
    ghost var log: seq<Step>

    constructor (isApplication: bool, flavorDimensions: seq<string>, productFlavors: map<string, ProductFlavor>)
      ensures this.isApplication == isApplication
      ensures this.flavorDimensions == flavorDimensions && this.productFlavors == productFlavors
      ensures log == []
    {
      this.isApplication := isApplication;
      this.flavorDimensions := flavorDimensions;
      this.productFlavors := productFlavors;
      log := [];
    }

    /** `configureFlavors(this, block)`. */
    method ConfigureFlavors(block: Block) returns (outcome: Outcome)
      modifies this
      ensures flavorDimensions == old(flavorDimensions) + [DimensionName(ContentType)]
      ensures (Container(productFlavors, log), outcome)
        == CreateAll(AllFlavors, Container(old(productFlavors), old(log)), isApplication, block)
      ensures "demo" !in old(productFlavors) && "prod" !in old(productFlavors) ==>
        outcome == Configured
        && productFlavors == old(productFlavors) + Built(AllFlavors, isApplication, block)
        && log == old(log) + Steps(AllFlavors, isApplication)
    {
      FreshRunCompletes(Container(productFlavors, log), isApplication, block);
      flavorDimensions := flavorDimensions + [DimensionName(ContentType)];
      ghost var start := Container(productFlavors, log);
      outcome := Configured;
      var i := 0;
      while i < |AllFlavors|
        invariant 0 <= i <= |AllFlavors|
        invariant flavorDimensions == old(flavorDimensions) + [DimensionName(ContentType)]
        invariant CreateAll(AllFlavors[..i], start, isApplication, block) == (Container(productFlavors, log), Configured)
        invariant outcome == Configured
      {
        CreateAllStep(AllFlavors, i, start, isApplication, block);
        outcome := Create(AllFlavors[i], block);
        if outcome.DuplicateFlavor? {
          StopsAtDuplicate(AllFlavors, i + 1, start, isApplication, block);
          return;
        }
        i := i + 1;
      }
      assert AllFlavors[..i] == AllFlavors;
    }

    /** `create(flavor.name.lowercase()) { ... }`: one flavor, configured in place. */
    method Create(flavor: DashikiFlavor, block: Block) returns (outcome: Outcome)
      modifies this`productFlavors, this`log
      ensures (Container(productFlavors, log), outcome)
        == CreateOne(Container(old(productFlavors), old(log)), flavor, isApplication, block)
    {
      var name := FlavorName(flavor);
      if name in productFlavors {
        return DuplicateFlavor(name);
      }
      var p := NewFlavor;
      log := log + [Created(name)];
      p := p.(dimension := Some(DimensionName(flavor.Dimension())));
      log := log + [DimensionSet(name, DimensionName(flavor.Dimension()))];
      p := block(p, flavor);
      log := log + [BlockRan(name, flavor)];
      if isApplication {
        match flavor.ApplicationIdSuffix() {
          case Some(s) =>
            p := p.(applicationIdSuffix := Some(s));
            log := log + [ApplicationIdSuffixSet(name, s)];
          case None =>
        }
        match flavor.VersionNameSuffix() {
          case Some(s) =>
            p := p.(versionNameSuffix := Some(s));
            log := log + [VersionNameSuffixSet(name, s)];
          case None =>
        }
      }
      assert p == Configure(flavor, isApplication, block);
      assert log == old(log) + FlavorSteps(flavor, isApplication);
      productFlavors := productFlavors[name := p];
      outcome := Configured;
    }
  }

  // ---------------------------------------------------------------------------
  // Lemmas about a run

  /** On a container without "demo" and "prod", the run over `values()` creates both. */
  lemma FreshRunCompletes(c: Container, isApplication: bool, block: Block)
    ensures "demo" !in c.flavors && "prod" !in c.flavors ==>
      CreateAll(AllFlavors, c, isApplication, block)
        == (Container(c.flavors + Built(AllFlavors, isApplication, block), c.log + Steps(AllFlavors, isApplication)), Configured)
  {
    if "demo" !in c.flavors && "prod" !in c.flavors {
      FlavorNames();
      AllFlavorsDistinct();
      CompleteRun(AllFlavors, c, isApplication, block);
    }
  }

  /** The `forEach` takes one more flavor at a time. */
  lemma CreateAllStep(fs: seq<DashikiFlavor>, k: nat, c: Container, isApplication: bool, block: Block)
    requires k < |fs|
    ensures CreateAll(fs[..k + 1], c, isApplication, block)
      == var r := CreateAll(fs[..k], c, isApplication, block);
         if r.1.DuplicateFlavor? then r else CreateOne(r.0, fs[k], isApplication, block)
  {
    assert fs[..k + 1][..k] == fs[..k];
  }

  /**
   * A run never removes or overwrites a flavor that was already there, adds
   * only flavors of `fs`, and a refusal names a flavor of `fs`.
   */
  lemma {:induction false} CreateAllKeepsExisting(fs: seq<DashikiFlavor>, c: Container, isApplication: bool, block: Block)
    ensures var r := CreateAll(fs, c, isApplication, block);
      forall n :: n in c.flavors ==> n in r.0.flavors && r.0.flavors[n] == c.flavors[n]
    ensures var r := CreateAll(fs, c, isApplication, block);
      forall n :: n in r.0.flavors && n !in c.flavors ==> exists k :: 0 <= k < |fs| && FlavorName(fs[k]) == n
    ensures var r := CreateAll(fs, c, isApplication, block);
      r.1.DuplicateFlavor? ==> exists k :: 0 <= k < |fs| && FlavorName(fs[k]) == r.1.name
  {
    if fs != [] {
      var init := fs[..|fs| - 1];
      CreateAllKeepsExisting(init, c, isApplication, block);
      var r := CreateAll(init, c, isApplication, block);
      forall k | 0 <= k < |init| ensures init[k] == fs[k] { }
      assert FlavorName(fs[|fs| - 1]) == FlavorName(fs[|fs| - 1]);
    }
  }

  /** Once a name has been refused, the rest of the flavors are not touched. */
  lemma {:induction false} StopsAtDuplicate(fs: seq<DashikiFlavor>, k: nat, c: Container, isApplication: bool, block: Block)
    requires k <= |fs|
    requires CreateAll(fs[..k], c, isApplication, block).1.DuplicateFlavor?
    ensures CreateAll(fs, c, isApplication, block) == CreateAll(fs[..k], c, isApplication, block)
    decreases |fs| - k
  {
    if k < |fs| {
      assert fs[..|fs| - 1][..k] == fs[..k];
      StopsAtDuplicate(fs[..|fs| - 1], k, c, isApplication, block);
    } else {
      assert fs[..k] == fs;
    }
  }

  /** The names `Built(fs)` uses are the names of `fs`. */
  lemma {:induction false} BuiltNames(fs: seq<DashikiFlavor>, isApplication: bool, block: Block)
    ensures forall n :: n in Built(fs, isApplication, block) <==> n in NameList(fs)
  {
    if fs != [] {
      BuiltNames(fs[..|fs| - 1], isApplication, block);
    }
  }

  /** The names in `NameList(fs)` are those of the flavors of `fs`. */
  lemma {:induction false} NameListAt(fs: seq<DashikiFlavor>)
    ensures |NameList(fs)| == |fs|
    ensures forall j :: 0 <= j < |fs| ==> NameList(fs)[j] == FlavorName(fs[j])
  {
    if fs != [] {
      var init := fs[..|fs| - 1];
      NameListAt(init);
      assert forall j :: 0 <= j < |init| ==> init[j] == fs[j];
    }
  }

  /**
   * A run over flavors with distinct names, none of them already in the
   * container, configures every flavor: the container gains exactly `Built(fs)`
   * and the trace grows by exactly `Steps(fs)`.
   */
  lemma {:induction false} CompleteRun(fs: seq<DashikiFlavor>, c: Container, isApplication: bool, block: Block)
    requires DistinctNames(fs)
    requires forall j :: 0 <= j < |fs| ==> FlavorName(fs[j]) !in c.flavors
    ensures CreateAll(fs, c, isApplication, block)
      == (Container(c.flavors + Built(fs, isApplication, block), c.log + Steps(fs, isApplication)), Configured)
  {
    if fs == [] {
      assert c.flavors + map[] == c.flavors;
      assert c.log + [] == c.log;
    } else {
      DistinctInit(fs);
      CompleteRun(fs[..|fs| - 1], c, isApplication, block);
      LastNameIsNew(fs, isApplication, block);
      assert FlavorName(fs[|fs| - 1]) !in c.flavors;
      CompleteRunLast(fs, c, isApplication, block);
    }
  }

  /** The inductive step of `CompleteRun`: the last flavor is added under its new name. */
  lemma {:induction false} CompleteRunLast(fs: seq<DashikiFlavor>, c: Container, isApplication: bool, block: Block)
    requires fs != []
    requires FlavorName(fs[|fs| - 1]) !in c.flavors
    requires FlavorName(fs[|fs| - 1]) !in Built(fs[..|fs| - 1], isApplication, block)
    requires CreateAll(fs[..|fs| - 1], c, isApplication, block)
      == (Container(c.flavors + Built(fs[..|fs| - 1], isApplication, block), c.log + Steps(fs[..|fs| - 1], isApplication)), Configured)
    ensures CreateAll(fs, c, isApplication, block)
      == (Container(c.flavors + Built(fs, isApplication, block), c.log + Steps(fs, isApplication)), Configured)
  {
    var init := fs[..|fs| - 1];
    var last := fs[|fs| - 1];
    var name := FlavorName(last);
    var before := Built(init, isApplication, block);
    var v := Configure(last, isApplication, block);
    var r := CreateAll(init, c, isApplication, block);
    assert name !in r.0.flavors;
    assert CreateAll(fs, c, isApplication, block)
      == (Container(r.0.flavors[name := v], r.0.log + FlavorSteps(last, isApplication)), Configured) by {
      CreateOneFresh(r.0, last, isApplication, block);
    }
    assert r.0.flavors[name := v] == c.flavors + Built(fs, isApplication, block) by {
      assert Built(fs, isApplication, block) == before[name := v];
      MapUpdateAfterUnion(c.flavors, before, name, v);
    }
    assert r.0.log + FlavorSteps(last, isApplication) == c.log + Steps(fs, isApplication) by {
      assert Steps(fs, isApplication) == Steps(init, isApplication) + FlavorSteps(last, isApplication);
    }
  }

  /** Creating a flavor under a name not yet taken adds it and its trace. */
  lemma CreateOneFresh(c: Container, f: DashikiFlavor, isApplication: bool, block: Block)
    requires FlavorName(f) !in c.flavors
    ensures CreateOne(c, f, isApplication, block)
      == (Container(c.flavors[FlavorName(f) := Configure(f, isApplication, block)], c.log + FlavorSteps(f, isApplication)), Configured)
  {
  }

  /** Updating a key after a union is updating it in the right-hand map. */
  lemma MapUpdateAfterUnion(m: map<string, ProductFlavor>, n: map<string, ProductFlavor>, k: string, v: ProductFlavor)
    ensures (m + n)[k := v] == m + n[k := v]
  {
  }

  /** Dropping the last flavor keeps the names distinct. */
  lemma DistinctInit(fs: seq<DashikiFlavor>)
    requires fs != [] && DistinctNames(fs)
    ensures DistinctNames(fs[..|fs| - 1])
  {
    var init := fs[..|fs| - 1];
    forall i, j | 0 <= i < j < |init| ensures FlavorName(init[i]) != FlavorName(init[j]) {
      assert init[i] == fs[i] && init[j] == fs[j];
    }
  }

  /** The last flavor's name is not among those built from the flavors before it. */
  lemma LastNameIsNew(fs: seq<DashikiFlavor>, isApplication: bool, block: Block)
    requires fs != [] && DistinctNames(fs)
    ensures FlavorName(fs[|fs| - 1]) !in Built(fs[..|fs| - 1], isApplication, block)
  {
    var init := fs[..|fs| - 1];
    var name := FlavorName(fs[|fs| - 1]);
    BuiltNames(init, isApplication, block);
    NameListAt(init);
  }

  /** Distinct flavors each keep their own configured state in `Built`. */
  lemma {:induction false} BuiltAt(fs: seq<DashikiFlavor>, isApplication: bool, block: Block, k: nat)
    requires DistinctNames(fs)
    requires k < |fs|
    ensures FlavorName(fs[k]) in Built(fs, isApplication, block)
    ensures Built(fs, isApplication, block)[FlavorName(fs[k])] == Configure(fs[k], isApplication, block)
  {
    if k < |fs| - 1 {
      var init := fs[..|fs| - 1];
      assert init[k] == fs[k];
      DistinctInit(fs);
      BuiltAt(init, isApplication, block, k);
    }
  }

  lemma {:induction false} CreatedNamesAppend(a: seq<Step>, b: seq<Step>)
    ensures CreatedNames(a + b) == CreatedNames(a) + CreatedNames(b)
    decreases |b|
  {
    if b == [] {
      assert a + b == a;
    } else {
      assert (a + b)[..|a + b| - 1] == a + b[..|b| - 1];
      CreatedNamesAppend(a, b[..|b| - 1]);
    }
  }

  lemma {:induction false} BlockRunsAppend(a: seq<Step>, b: seq<Step>)
    ensures BlockRuns(a + b) == BlockRuns(a) + BlockRuns(b)
    decreases |b|
  {
    if b == [] {
      assert a + b == a;
    } else {
      assert (a + b)[..|a + b| - 1] == a + b[..|b| - 1];
      BlockRunsAppend(a, b[..|b| - 1]);
    }
  }

  /** Suffix writes hold no creation and no block run. */
  lemma {:induction false} SuffixWritesOnly(log: seq<Step>)
    requires forall k :: 0 <= k < |log| ==> log[k].IsSuffixWrite()
    ensures CreatedNames(log) == [] && BlockRuns(log) == []
  {
    if log != [] {
      SuffixWritesOnly(log[..|log| - 1]);
    }
  }

  /** Configuring one flavor creates it once and runs the block on it once. */
  lemma OneStepEach(f: DashikiFlavor, isApplication: bool)
    ensures CreatedNames(FlavorSteps(f, isApplication)) == [FlavorName(f)]
    ensures BlockRuns(FlavorSteps(f, isApplication)) == [BlockRan(FlavorName(f), f)]
  {
    var name := FlavorName(f);
    var a, b, c := Created(name), DimensionSet(name, DimensionName(f.Dimension())), BlockRan(name, f);
    var tail := SuffixSteps(f, isApplication);
    assert FlavorSteps(f, isApplication) == [a] + [b] + [c] + tail;
    CreatedNamesAppend([a] + [b] + [c], tail);
    CreatedNamesAppend([a] + [b], [c]);
    CreatedNamesAppend([a], [b]);
    BlockRunsAppend([a] + [b] + [c], tail);
    BlockRunsAppend([a] + [b], [c]);
    BlockRunsAppend([a], [b]);
    SuffixWritesOnly(tail);
  }

  /** One creation per flavor, in the order of `fs`: for `values()`, "demo" then "prod". */
  lemma {:induction false} CreationOrder(fs: seq<DashikiFlavor>, isApplication: bool)
    ensures CreatedNames(Steps(fs, isApplication)) == NameList(fs)
  {
    if fs != [] {
      var init := fs[..|fs| - 1];
      var last := fs[|fs| - 1];
      CreationOrder(init, isApplication);
      CreatedNamesAppend(Steps(init, isApplication), FlavorSteps(last, isApplication));
      OneStepEach(last, isApplication);
    }
  }

  /** The customization block runs once per flavor, with that flavor, in the order of `fs`. */
  lemma {:induction false} BlockRunsOncePerFlavor(fs: seq<DashikiFlavor>, isApplication: bool)
    ensures BlockRuns(Steps(fs, isApplication)) == BlockRunList(fs)
  {
    if fs != [] {
      var init := fs[..|fs| - 1];
      var last := fs[|fs| - 1];
      BlockRunsOncePerFlavor(init, isApplication);
      BlockRunsAppend(Steps(init, isApplication), FlavorSteps(last, isApplication));
      OneStepEach(last, isApplication);
    }
  }

  /** On a library (non-application) extension, no suffix of any flavor is written. */
  lemma {:induction false} NoSuffixWritesOnLibrary(fs: seq<DashikiFlavor>, block: Block)
    ensures forall k :: 0 <= k < |Steps(fs, false)| ==> !Steps(fs, false)[k].IsSuffixWrite()
    ensures forall f :: Configure(f, false, block) == Customized(f, block)
  {
    if fs != [] {
      NoSuffixWritesOnLibrary(fs[..|fs| - 1], block);
    }
  }

  /** The shape of one flavor's trace: every step is about that flavor, the block runs third, suffixes come after. */
  lemma FlavorStepsShape(f: DashikiFlavor, isApplication: bool)
    ensures |FlavorSteps(f, isApplication)| >= 3
    ensures FlavorSteps(f, isApplication)[0] == Created(FlavorName(f))
    ensures FlavorSteps(f, isApplication)[1] == DimensionSet(FlavorName(f), DimensionName(ContentType))
    ensures FlavorSteps(f, isApplication)[2] == BlockRan(FlavorName(f), f)
    ensures forall m :: 0 <= m < |FlavorSteps(f, isApplication)| ==> FlavorSteps(f, isApplication)[m].name == FlavorName(f)
    ensures forall m :: 0 <= m < 3 ==> !FlavorSteps(f, isApplication)[m].IsSuffixWrite()
    ensures forall m :: 3 <= m < |FlavorSteps(f, isApplication)| ==> FlavorSteps(f, isApplication)[m].IsSuffixWrite()
  {
  }

  /**
   * Every suffix write in a trace is preceded by the block's run on the same
   * flavor: the block runs before any suffix is written.
   */
  lemma {:induction false} BlockBeforeSuffixes(fs: seq<DashikiFlavor>, isApplication: bool, k: nat)
    requires k < |Steps(fs, isApplication)| && Steps(fs, isApplication)[k].IsSuffixWrite()
    ensures exists j :: (0 <= j < k && Steps(fs, isApplication)[j].BlockRan?
      && Steps(fs, isApplication)[j].name == Steps(fs, isApplication)[k].name)
  {
    assert fs != [];
    var init := fs[..|fs| - 1];
    var last := fs[|fs| - 1];
    var before := Steps(init, isApplication);
    var own := FlavorSteps(last, isApplication);
    var steps := Steps(fs, isApplication);
    assert steps == before + own;
    if k < |before| {
      BlockBeforeSuffixes(init, isApplication, k);
      var j :| 0 <= j < k && before[j].BlockRan? && before[j].name == before[k].name;
      assert steps[j] == before[j];
    } else {
      FlavorStepsShape(last, isApplication);
      assert steps[k] == own[k - |before|];
      assert steps[|before| + 2] == own[2];
    }
  }

  /** The created names are "demo" and "prod". */
  lemma FlavorNames()
    ensures FlavorName(Demo) == "demo" && FlavorName(Prod) == "prod"
  {
  }

  /** Different Dashiki flavors are created under different names. */
  lemma FlavorNamesDistinct(f: DashikiFlavor, g: DashikiFlavor)
    ensures FlavorName(f) == FlavorName(g) <==> f == g
  {
    FlavorNames();
  }

  /** `values()` yields pairwise distinct names. */
  lemma AllFlavorsDistinct()
    ensures DistinctNames(AllFlavors)
  {
    FlavorNamesDistinct(Demo, Prod);
  }

  /** Every suffix write in a trace writes the suffix that a flavor of `fs` with that name defines. */
  lemma {:induction false} SuffixWriteSource(fs: seq<DashikiFlavor>, isApplication: bool, k: nat)
    requires k < |Steps(fs, isApplication)|
    ensures Steps(fs, isApplication)[k].ApplicationIdSuffixSet? ==>
      isApplication && exists g :: (g in fs && FlavorName(g) == Steps(fs, isApplication)[k].name
        && g.ApplicationIdSuffix() == Some(Steps(fs, isApplication)[k].suffix))
    ensures Steps(fs, isApplication)[k].VersionNameSuffixSet? ==>
      isApplication && exists g :: (g in fs && FlavorName(g) == Steps(fs, isApplication)[k].name
        && g.VersionNameSuffix() == Some(Steps(fs, isApplication)[k].suffix))
  {
    if fs != [] {
      var init := fs[..|fs| - 1];
      var last := fs[|fs| - 1];
      var before := Steps(init, isApplication);
      var steps := Steps(fs, isApplication);
      assert last in fs;
      if k < |before| {
        SuffixWriteSource(init, isApplication, k);
        assert steps[k] == before[k];
        assert forall g :: g in init ==> g in fs;
      } else {
        assert steps[k] == FlavorSteps(last, isApplication)[k - |before|];
      }
    }
  }

  /** A null suffix is never written: no step writes it under that flavor's name. */
  lemma NullSuffixNotWritten(fs: seq<DashikiFlavor>, isApplication: bool, f: DashikiFlavor, k: nat)
    requires k < |Steps(fs, isApplication)|
    requires Steps(fs, isApplication)[k].name == FlavorName(f)
    ensures f.ApplicationIdSuffix().None? ==> !Steps(fs, isApplication)[k].ApplicationIdSuffixSet?
    ensures f.VersionNameSuffix().None? ==> !Steps(fs, isApplication)[k].VersionNameSuffixSet?
  {
    SuffixWriteSource(fs, isApplication, k);
    forall g ensures FlavorName(g) == FlavorName(f) <==> g == f {
      FlavorNamesDistinct(f, g);
    }
  }

  /** Writing the suffixes a second time changes nothing. */
  lemma WithSuffixesIdempotent(p: ProductFlavor, f: DashikiFlavor, isApplication: bool)
    ensures WithSuffixes(WithSuffixes(p, f, isApplication), f, isApplication) == WithSuffixes(p, f, isApplication)
  {
  }

  /**
   * The fields a configured flavor ends with: the block's values, except that
   * on an application extension a non-null suffix of the flavor overrides them.
   */
  lemma ConfiguredFields(f: DashikiFlavor, isApplication: bool, block: Block)
    ensures Configure(f, isApplication, block).dimension == Customized(f, block).dimension
    ensures Configure(f, isApplication, block).applicationIdSuffix
      == if isApplication && f.ApplicationIdSuffix().Some? then f.ApplicationIdSuffix()
         else Customized(f, block).applicationIdSuffix
    ensures Configure(f, isApplication, block).versionNameSuffix
      == if isApplication && f.VersionNameSuffix().Some? then f.VersionNameSuffix()
         else Customized(f, block).versionNameSuffix
  {
  }

  /** The default block keeps the dimension, which is the registered "contentType". */
  lemma DefaultBlockDimension(f: DashikiFlavor, isApplication: bool)
    ensures Configure(f, isApplication, DefaultBlock).dimension == Some(DimensionName(ContentType))
    ensures Customized(f, DefaultBlock) == ProductFlavor(Some("contentType"), None, None)
  {
  }

  /**
   * The app's own run: on a fresh application extension with the default
   * block, "demo" gets ".demo" and "-demo", "prod" gets no suffix, both under "contentType".
   */
  lemma ApplicationScenario()
    ensures CreateAll(AllFlavors, Container(map[], []), true, DefaultBlock).1 == Configured
    ensures CreateAll(AllFlavors, Container(map[], []), true, DefaultBlock).0.flavors
      == map["demo" := ProductFlavor(Some("contentType"), Some(".demo"), Some("-demo")),
             "prod" := ProductFlavor(Some("contentType"), None, None)]
  {
    AllFlavorsDistinct();
    CompleteRun(AllFlavors, Container(map[], []), true, DefaultBlock);
    FlavorNames();
    assert AllFlavors[..1] == [Demo];
    assert Built(AllFlavors, true, DefaultBlock)
      == map["demo" := Configure(Demo, true, DefaultBlock), "prod" := Configure(Prod, true, DefaultBlock)];
  }

  /** The same run on a library extension writes no suffix at all. */
  lemma LibraryScenario()
    ensures CreateAll(AllFlavors, Container(map[], []), false, DefaultBlock).0.flavors
      == map["demo" := ProductFlavor(Some("contentType"), None, None),
             "prod" := ProductFlavor(Some("contentType"), None, None)]
  {
    AllFlavorsDistinct();
    CompleteRun(AllFlavors, Container(map[], []), false, DefaultBlock);
    FlavorNames();
    assert AllFlavors[..1] == [Demo];
    assert Built(AllFlavors, false, DefaultBlock)
      == map["demo" := Configure(Demo, false, DefaultBlock), "prod" := Configure(Prod, false, DefaultBlock)];
  }
}
