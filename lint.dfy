/**
 * The lint convention: it configures the lint block of whichever Android
 * extension the project has, the application one first, then the library one,
 * and otherwise applies the standalone lint plugin and configures its `Lint`
 * extension. Configuring turns on the XML report and dependency checking.
 */
module LintConvention {

  const ApplicationPlugin: string := "com.android.application"
  const LibraryPlugin: string := "com.android.library"
  const LintPlugin: string := "com.android.lint"

  /** The lint options the convention writes. */
  class Lint {
    var xmlReport: bool
    var checkDependencies: bool

    constructor (xmlReport: bool, checkDependencies: bool)
      ensures this.xmlReport == xmlReport && this.checkDependencies == checkDependencies
    {
      this.xmlReport := xmlReport;
      this.checkDependencies := checkDependencies;
    }

    /** `Lint.configure()`. */
    method Configure()
      modifies this
      ensures xmlReport && checkDependencies
    {
      xmlReport := true;
      checkDependencies := true;
    }
  }

  /** A snapshot of the lint options. */
  datatype LintOptions = LintOptions(xmlReport: bool, checkDependencies: bool)

  /** What `Lint.configure()` makes of some options. */
  function Configured(l: LintOptions): LintOptions
  {
    l.(xmlReport := true, checkDependencies := true)
  }

  /** The three branches of the `when`. */
  datatype LintTarget = ApplicationLint | LibraryLint | StandaloneLint

  /** The branch the `when` takes for a set of applied plugins. */
  function Target(plugins: set<string>): LintTarget
  {
    if ApplicationPlugin in plugins then ApplicationLint
    else if LibraryPlugin in plugins then LibraryLint
    else StandaloneLint
  }

  /** A snapshot of a project as the convention sees it. */
  datatype ProjectState = ProjectState(
    plugins: set<string>,
    applicationLint: LintOptions,
    libraryLint: LintOptions,
    standaloneLint: LintOptions)

  /** The project state after applying the convention. */
  function Apply(s: ProjectState): (r: ProjectState)
    ensures s.plugins <= r.plugins <= s.plugins + {LintPlugin}
  {
    match Target(s.plugins)
    case ApplicationLint => s.(applicationLint := Configured(s.applicationLint))
    case LibraryLint => s.(libraryLint := Configured(s.libraryLint))
    case StandaloneLint => s.(plugins := s.plugins + {LintPlugin}, standaloneLint := Configured(s.standaloneLint))
  }

  /**
   * A Gradle project: its applied plugins, and the lint blocks of the
   * application extension, the library extension and the standalone `Lint`
   * extension (three separate objects).
   */
  class Project {
    var plugins: set<string>
    const applicationLint: Lint
    const libraryLint: Lint
    const standaloneLint: Lint

    ghost predicate Valid()
    {
      applicationLint != libraryLint && applicationLint != standaloneLint && libraryLint != standaloneLint
    }

    ghost function State(): ProjectState
      reads this, applicationLint, libraryLint, standaloneLint
    {
      ProjectState(plugins,
        LintOptions(applicationLint.xmlReport, applicationLint.checkDependencies),
        LintOptions(libraryLint.xmlReport, libraryLint.checkDependencies),
        LintOptions(standaloneLint.xmlReport, standaloneLint.checkDependencies))
    }

    constructor (plugins: set<string>)
      ensures Valid() && this.plugins == plugins
      ensures fresh(applicationLint) && fresh(libraryLint) && fresh(standaloneLint)
      ensures State() == ProjectState(plugins, LintOptions(false, false), LintOptions(false, false), LintOptions(false, false))
    {
      this.plugins := plugins;
      applicationLint := new Lint(false, false);
      libraryLint := new Lint(false, false);
      standaloneLint := new Lint(false, false);
    }

    /** `AndroidLintConventionPlugin.apply(project)`. */
    method ApplyConvention()
      requires Valid()
      modifies this, applicationLint, libraryLint, standaloneLint
      ensures Valid()
      ensures State() == Apply(old(State()))
    {
      if ApplicationPlugin in plugins {
        applicationLint.Configure();
      } else if LibraryPlugin in plugins {
        libraryLint.Configure();
      } else {
        plugins := plugins + {LintPlugin};
        standaloneLint.Configure();
      }
    }
  }

  // ---------------------------------------------------------------------------
  // Properties

  /** Exactly one lint block is configured, and no other is touched. */
  lemma ExactlyOneBlockConfigured(s: ProjectState)
    ensures Apply(s).applicationLint == (if Target(s.plugins) == ApplicationLint then LintOptions(true, true) else s.applicationLint)
    ensures Apply(s).libraryLint == (if Target(s.plugins) == LibraryLint then LintOptions(true, true) else s.libraryLint)
    ensures Apply(s).standaloneLint == (if Target(s.plugins) == StandaloneLint then LintOptions(true, true) else s.standaloneLint)
  {
  }

  /** The application plugin wins, even when the library plugin is applied too. */
  lemma ApplicationFirst(plugins: set<string>)
    ensures ApplicationPlugin in plugins ==> Target(plugins) == ApplicationLint
    ensures Target(plugins) == LibraryLint <==> LibraryPlugin in plugins && ApplicationPlugin !in plugins
    ensures Target(plugins) == StandaloneLint <==> LibraryPlugin !in plugins && ApplicationPlugin !in plugins
  {
  }

  /** The standalone lint plugin is applied exactly when neither Android plugin is present. */
  lemma LintPluginOnlyWithoutAndroid(s: ProjectState)
    requires LintPlugin !in s.plugins
    ensures LintPlugin in Apply(s).plugins <==> ApplicationPlugin !in s.plugins && LibraryPlugin !in s.plugins
    ensures Apply(s).plugins - {LintPlugin} == s.plugins
  {
  }

  /** Configured options report XML and check dependencies, and configuring again changes nothing. */
  lemma ConfigureIdempotent(l: LintOptions)
    ensures Configured(l).xmlReport && Configured(l).checkDependencies
    ensures Configured(Configured(l)) == Configured(l)
  {
  }

  /** Applying the convention a second time gives the same state as applying it once. */
  lemma ApplyIdempotent(s: ProjectState)
    ensures Apply(Apply(s)) == Apply(s)
  {
    assert Target(Apply(s).plugins) == Target(s.plugins);
  }
}
