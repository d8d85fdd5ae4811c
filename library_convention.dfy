/**
 * The Android library convention: the plugins it applies to a library module
 * and the defaults it writes into the module's library extension, the
 * resource prefix among them.
 */
module LibraryConvention {
  import opened Kotlin
  import ResourcePrefix
  import LintConvention

  /** `BuildLogicConstants.TARGET_SDK`. */
  const TargetSdk: int := 36

  const TestInstrumentationRunner: string := "androidx.test.runner.AndroidJUnitRunner"

  const KotlinAndroidPlugin: string := "org.jetbrains.kotlin.android"

  /** The library extension's settings that the convention writes; unset ones are `None`. */
  class LibraryExtension {
    var targetSdk: Option<int>
    var testInstrumentationRunner: Option<string>
    var animationsDisabled: bool
    var resourcePrefix: Option<string>

    constructor ()
      ensures targetSdk == None && testInstrumentationRunner == None
      ensures !animationsDisabled && resourcePrefix == None
    {
      targetSdk := None;
      testInstrumentationRunner := None;
      animationsDisabled := false;
      resourcePrefix := None;
    }

    /** The `extensions.configure<LibraryExtension> { ... }` block, for the project at `path`. */
    method Configure(path: string)
      modifies this
      ensures targetSdk == Some(TargetSdk)
      ensures testInstrumentationRunner == Some(TestInstrumentationRunner)
      ensures animationsDisabled
      ensures resourcePrefix == Some(ResourcePrefix.Prefix(path))
    {
      targetSdk := Some(TargetSdk);
      testInstrumentationRunner := Some(TestInstrumentationRunner);
      animationsDisabled := true;
      resourcePrefix := Some(ResourcePrefix.Prefix(path));
    }
  }

  /**
   * The plugins present when the lint convention runs: it is applied third,
   * after the Android library plugin and the Kotlin Android plugin.
   */
  function PluginsBeforeLint(plugins: set<string>): (r: set<string>)
    ensures LintConvention.LibraryPlugin in r && KotlinAndroidPlugin in r
    ensures plugins <= r && r - plugins <= {LintConvention.LibraryPlugin, KotlinAndroidPlugin}
  {
    plugins + {LintConvention.LibraryPlugin, KotlinAndroidPlugin}
  }

  /**
   * In a library module the lint convention therefore always takes the
   * library branch: it configures the library extension's lint block and
   * never applies the standalone lint plugin.
   */
  lemma LibraryModuleUsesLibraryLint(s: LintConvention.ProjectState)
    requires LintConvention.ApplicationPlugin !in s.plugins
    requires LintConvention.LintPlugin !in s.plugins
    ensures var t := s.(plugins := PluginsBeforeLint(s.plugins));
      LintConvention.Target(t.plugins) == LintConvention.LibraryLint
      && LintConvention.Apply(t).libraryLint == LintConvention.LintOptions(true, true)
      && LintConvention.LintPlugin !in LintConvention.Apply(t).plugins
  {
  }
}
