/**
 * Instrumented-test gating for library modules: before the variants are
 * built, each variant keeps its Android tests enabled only if the module has
 * a `src/androidTest` folder.
 */
module InstrumentedTests {

  /** The variant builder the build tool passes to `beforeVariants`. */
  class VariantBuilder {
    const name: string
    var enable: bool
    var enableAndroidTest: bool
    var enableUnitTest: bool

    constructor (name: string, enable: bool, enableAndroidTest: bool, enableUnitTest: bool)
      ensures this.name == name && this.enable == enable
      ensures this.enableAndroidTest == enableAndroidTest && this.enableUnitTest == enableUnitTest
    {
      this.name := name;
      this.enable := enable;
      this.enableAndroidTest := enableAndroidTest;
      this.enableUnitTest := enableUnitTest;
    }
  }

  /** The new `enableAndroidTest` of a variant, from its old one and whether the folder exists. */
  function Gated(enableAndroidTest: bool, androidTestFolderExists: bool): bool
  {
    enableAndroidTest && androidTestFolderExists
  }

  /**
   * The callback of `disableUnnecessaryAndroidTests`, run on one variant;
   * `androidTestFolderExists` is `projectDir.resolve("src/androidTest").exists()`.
   */
  method DisableUnnecessaryAndroidTests(variant: VariantBuilder, androidTestFolderExists: bool)
    modifies variant`enableAndroidTest
    ensures variant.enableAndroidTest == Gated(old(variant.enableAndroidTest), androidTestFolderExists)
  {
    variant.enableAndroidTest := variant.enableAndroidTest && androidTestFolderExists;
  }

  /**
   * `beforeVariants { ... }`: the build tool runs the callback once on every
   * variant. Each variant ends gated on its own old value; nothing else changes.
   */
  method BeforeVariants(variants: seq<VariantBuilder>, androidTestFolderExists: bool)
    modifies set k | 0 <= k < |variants| :: variants[k]
    ensures forall k :: 0 <= k < |variants| ==>
      variants[k].enableAndroidTest == Gated(old(variants[k].enableAndroidTest), androidTestFolderExists)
    ensures forall k :: 0 <= k < |variants| ==>
      variants[k].enable == old(variants[k].enable) && variants[k].enableUnitTest == old(variants[k].enableUnitTest)
  {
    var i := 0;
    while i < |variants|
      invariant 0 <= i <= |variants|
      invariant forall k :: 0 <= k < i ==>
        variants[k].enableAndroidTest == Gated(old(variants[k].enableAndroidTest), androidTestFolderExists)
      invariant forall k :: i <= k < |variants| ==>
        variants[k].enableAndroidTest == old(variants[k].enableAndroidTest)
        || variants[k].enableAndroidTest == Gated(old(variants[k].enableAndroidTest), androidTestFolderExists)
      invariant forall k :: 0 <= k < |variants| ==>
        variants[k].enable == old(variants[k].enable) && variants[k].enableUnitTest == old(variants[k].enableUnitTest)
    {
      DisableUnnecessaryAndroidTests(variants[i], androidTestFolderExists);
      i := i + 1;
    }
  }

  // ---------------------------------------------------------------------------
  // Properties of the gate

  /** A disabled variant is never enabled. */
  lemma NeverEnables(enableAndroidTest: bool, androidTestFolderExists: bool)
    ensures Gated(enableAndroidTest, androidTestFolderExists) ==> enableAndroidTest
  {
  }

  /** Without the folder, the tests are off; with it, the setting is left as it was. */
  lemma FolderDecides(enableAndroidTest: bool, androidTestFolderExists: bool)
    ensures !androidTestFolderExists ==> !Gated(enableAndroidTest, androidTestFolderExists)
    ensures androidTestFolderExists ==> Gated(enableAndroidTest, androidTestFolderExists) == enableAndroidTest
  {
  }

  /** Gating twice is gating once. */
  lemma GatedIdempotent(enableAndroidTest: bool, androidTestFolderExists: bool)
    ensures Gated(Gated(enableAndroidTest, androidTestFolderExists), androidTestFolderExists)
      == Gated(enableAndroidTest, androidTestFolderExists)
  {
  }
}
