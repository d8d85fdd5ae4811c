# Dashiki build logic and theme, modelled in Dafny

Dashiki is an Android project built from Gradle convention plugins and a
Compose design system ("dds"). This project models the five parts that make
decisions:

- the product-flavor configurator `configureFlavors`;
- the resource prefix that the library convention derives from a module's Gradle path;
- the design-system theme `DashikiTheme`, which picks a colour scheme and writes the status bar;
- the lint convention, which picks the extension whose lint block it configures;
- the instrumented-test gate, which keeps a variant's Android tests only when the module has `src/androidTest`.

Files:

- `kotlin.dfy` holds the parts of Kotlin the code relies on: nullable values, the ASCII classes behind `\W`, and `lowercase()`.
- `flavor.dfy` models `Flavor.kt`. `BuildExtension` is a class with an imperative `ConfigureFlavors` loop. The loop is proved against the recursive functions `CreateAll`, `Built` and `Steps`.
- `resource_prefix.dfy` models the prefix as a pure function `Prefix = split / drop(1) / distinct / join / lowercase / + "_"`.
- `library_convention.dfy` holds the library extension's settings and the plugins the library convention applies before lint.
- `theme.dfy` has a pure `SelectColorScheme` and a `DashikiTheme` method that writes a `Window`.
- `lint.dfy` holds a `Project` class with three `Lint` objects. Its `ApplyConvention` method is proved against the function `Apply`.
- `instrumented_tests.dfy` has the per-variant callback on `VariantBuilder`, and the build tool's pass over all variants.

## Model

| member | source | states |
|---|---|---|
| Flavor.BuildExtension.ConfigureFlavors | buildLogic/convention/src/main/kotlin/util/Flavor.kt:70-98 | appends exactly "contentType" to the existing dimensions; the flavor map and trace are those of creating DEMO then PROD in order, stopping at an already taken name; when neither "demo" nor "prod" exists, the run succeeds and adds exactly `Built(values())` with trace `Steps(values())` |
| Flavor.BuildExtension.Create | buildLogic/convention/src/main/kotlin/util/Flavor.kt:79-94 | creating one flavor refuses a taken name and otherwise sets the dimension, runs the block, then writes the non-null suffixes on an application extension, matching `CreateOne` |
| Flavor.FlavorName | buildLogic/convention/src/main/kotlin/util/Flavor.kt:79 | the name `create` receives, `name.lowercase()`; `FlavorNames` gives "demo" and "prod", and `FlavorNamesDistinct` shows distinct values get distinct names |
| Flavor.Configure | buildLogic/convention/src/main/kotlin/util/Flavor.kt:80-93 | the flavor left by the `create` block: the dimension, then the block, then the non-null suffixes on an application (`Customized` is the dimension and the block, `WithSuffixes` the guarded suffix writes, `SuffixSteps` and `FlavorSteps` their trace); `ConfiguredFields` and `DefaultBlockDimension` state its fields |
| Flavor.CreateOne | buildLogic/convention/src/main/kotlin/util/Flavor.kt:79-94 | `create` refuses exactly a taken name, and then leaves the container as it was; the trace only grows; `CreateOneFresh` gives the result for a free name |
| Flavor.CreateOneFresh | buildLogic/convention/src/main/kotlin/util/Flavor.kt:79-94 | under a free name, the container gains the configured flavor and the flavor's trace |
| Flavor.CreateAll | buildLogic/convention/src/main/kotlin/util/Flavor.kt:77-96 | the `forEach` over the flavors, stopping at the first refusal; the trace only grows; `CreateAllKeepsExisting`, `CompleteRun` and `StopsAtDuplicate` state the rest |
| Flavor.CreateAllKeepsExisting | buildLogic/convention/src/main/kotlin/util/Flavor.kt:77-96 | a run never removes or overwrites an existing flavor, adds only flavors of the list, and a refusal names one of them |
| Flavor.FreshRunCompletes | buildLogic/convention/src/main/kotlin/util/Flavor.kt:77-96 | on a container without "demo" and "prod", the run over `values()` creates both and adds exactly `Built(values())` |
| Flavor.CreateAllStep | buildLogic/convention/src/main/kotlin/util/Flavor.kt:78-79 | the `forEach` handles one more flavor per step |
| Flavor.StopsAtDuplicate | buildLogic/convention/src/main/kotlin/util/Flavor.kt:78-79 | once `create` refuses a name, no later flavor is touched |
| Flavor.CompleteRun | buildLogic/convention/src/main/kotlin/util/Flavor.kt:77-96 | flavors with distinct fresh names are all created: the container gains exactly `Built(fs)` and the trace grows by `Steps(fs)` |
| Flavor.CompleteRunLast | buildLogic/convention/src/main/kotlin/util/Flavor.kt:78-79 | the inductive step of a complete run: the last flavor goes in under a name not used before |
| Flavor.BuiltNames | buildLogic/convention/src/main/kotlin/util/Flavor.kt:79 | a complete run creates flavors under exactly the lower-cased names of its flavors |
| Flavor.NameListAt | buildLogic/convention/src/main/kotlin/util/Flavor.kt:79 | the k-th created name is the lower-cased name of the k-th flavor |
| Flavor.DistinctInit | buildLogic/convention/src/main/kotlin/util/Flavor.kt:78 | a prefix of flavors with distinct names still has distinct names |
| Flavor.LastNameIsNew | buildLogic/convention/src/main/kotlin/util/Flavor.kt:79 | with distinct names, the last flavor's name is not among those created before it |
| Flavor.BuiltAt | buildLogic/convention/src/main/kotlin/util/Flavor.kt:79-94 | after a complete run, each flavor's entry is its own configured flavor |
| Flavor.CreatedNamesAppend | buildLogic/convention/src/main/kotlin/util/Flavor.kt:79 | the creations in consecutive traces are those of each trace, in order |
| Flavor.BlockRunsAppend | buildLogic/convention/src/main/kotlin/util/Flavor.kt:83 | the block runs in consecutive traces are those of each trace, in order |
| Flavor.SuffixWritesOnly | buildLogic/convention/src/main/kotlin/util/Flavor.kt:86-93 | suffix writes neither create a flavor nor run the block |
| Flavor.OneStepEach | buildLogic/convention/src/main/kotlin/util/Flavor.kt:79-83 | configuring one flavor creates it exactly once and runs the block on it exactly once |
| Flavor.CreationOrder | buildLogic/convention/src/main/kotlin/util/Flavor.kt:78-79 | one flavor is created per enum value, in declaration order, under its lower-cased name |
| Flavor.BlockRunsOncePerFlavor | buildLogic/convention/src/main/kotlin/util/Flavor.kt:83 | the customization block runs exactly once per flavor, with that flavor, in order |
| Flavor.NoSuffixWritesOnLibrary | buildLogic/convention/src/main/kotlin/util/Flavor.kt:86 | on a non-application extension, no suffix is written and each flavor is exactly what the block made of it |
| Flavor.FlavorStepsShape | buildLogic/convention/src/main/kotlin/util/Flavor.kt:79-93 | a flavor's trace is about that flavor only: step 0 creates it, step 1 sets its dimension to "contentType", step 2 runs the block, and every later step is a suffix write |
| Flavor.BlockBeforeSuffixes | buildLogic/convention/src/main/kotlin/util/Flavor.kt:83-92 | every suffix write is preceded by the block's run on the same flavor |
| Flavor.FlavorNames | buildLogic/convention/src/main/kotlin/util/Flavor.kt:42-54 | the created names are "demo" and "prod" |
| Flavor.FlavorNamesDistinct | buildLogic/convention/src/main/kotlin/util/Flavor.kt:29-55 | two enum values get the same name exactly when they are the same value |
| Flavor.AllFlavorsDistinct | buildLogic/convention/src/main/kotlin/util/Flavor.kt:29-55 | the names created from `values()` are pairwise distinct |
| Flavor.SuffixWriteSource | buildLogic/convention/src/main/kotlin/util/Flavor.kt:86-92 | every suffix write happens on an application extension and writes the non-null suffix of the flavor with that name |
| Flavor.NullSuffixNotWritten | buildLogic/convention/src/main/kotlin/util/Flavor.kt:87-92 | a flavor whose suffix is null never has that suffix written |
| Flavor.WithSuffixesIdempotent | buildLogic/convention/src/main/kotlin/util/Flavor.kt:86-93 | applying the suffix writes again leaves the flavor as it was after the first application |
| Flavor.ConfiguredFields | buildLogic/convention/src/main/kotlin/util/Flavor.kt:80-93 | a configured flavor keeps the block's dimension; each suffix is the flavor's own when the extension is an application and that suffix is non-null, otherwise whatever the block left |
| Flavor.DefaultBlockDimension | buildLogic/convention/src/main/kotlin/util/Flavor.kt:72-83 | the default block changes nothing, so the flavor's dimension is the registered "contentType" |
| Flavor.ApplicationScenario | buildLogic/convention/src/main/kotlin/util/Flavor.kt:42-92 | on a fresh application extension, "demo" gets ".demo" and "-demo", "prod" gets no suffix, and both are in "contentType" |
| Flavor.LibraryScenario | buildLogic/convention/src/main/kotlin/util/Flavor.kt:86 | on a fresh library extension neither flavor gets a suffix |
| Kotlin.LowerChar | buildLogic/convention/src/main/kotlin/library/AndroidLibraryConventionPlugin.kt:102 | lower-casing maps 'A'..'Z' to 'a'..'z', leaves other characters alone, and maps word characters to lower-case word characters |
| Kotlin.Lowercase | buildLogic/convention/src/main/kotlin/library/AndroidLibraryConventionPlugin.kt:102 | `lowercase()` keeps the length and leaves no upper-case letter; `LowercaseOfWords` and `LowercaseOfLowerWords` state its effect on word text |
| Kotlin.LowercaseOfWords | buildLogic/convention/src/main/kotlin/library/AndroidLibraryConventionPlugin.kt:102 | lower-cased word text is lower-case word text |
| Kotlin.LowercaseOfLowerWords | buildLogic/convention/src/main/kotlin/library/AndroidLibraryConventionPlugin.kt:102 | lower-casing leaves lower-case word text unchanged |
| ResourcePrefix.Split | buildLogic/convention/src/main/kotlin/library/AndroidLibraryConventionPlugin.kt:98 | a split always yields at least one piece, empty pieces included |
| ResourcePrefix.Join | buildLogic/convention/src/main/kotlin/library/AndroidLibraryConventionPlugin.kt:101 | `joinToString(separator)`; `JoinSplit` and `SplitJoin` relate it to the split both ways, `JoinOfWords` and `LowerWordsJoin` give its characters |
| ResourcePrefix.JoinPair | buildLogic/convention/src/main/kotlin/library/AndroidLibraryConventionPlugin.kt:101 | two pieces are joined as the first, the separator, then the second |
| ResourcePrefix.Distinct | buildLogic/convention/src/main/kotlin/library/AndroidLibraryConventionPlugin.kt:100 | `distinct()` never lengthens the list; `DistinctElements`, `DistinctHasNoDuplicates` and `DistinctKeepsFirstOccurrenceOrder` characterise it |
| ResourcePrefix.Prefix | buildLogic/convention/src/main/kotlin/library/AndroidLibraryConventionPlugin.kt:97-102 | the `resourcePrefix` chain; it always ends with '_'; `PrefixIsLowerWord`, `FirstPieceDropped` and `ColonPathPrefix` give the rest |
| ResourcePrefix.SplitPiecesAreWords | buildLogic/convention/src/main/kotlin/library/AndroidLibraryConventionPlugin.kt:98 | every piece of the split is made of word characters |
| ResourcePrefix.SplitCount | buildLogic/convention/src/main/kotlin/library/AndroidLibraryConventionPlugin.kt:98 | there is one more piece than there are non-word characters, so empty pieces are kept |
| ResourcePrefix.SplitOfWord | buildLogic/convention/src/main/kotlin/library/AndroidLibraryConventionPlugin.kt:98 | text without a separator is one piece |
| ResourcePrefix.JoinSplit | buildLogic/convention/src/main/kotlin/library/AndroidLibraryConventionPlugin.kt:98-101 | joining the split gives back the text with every non-word character replaced by the separator |
| ResourcePrefix.SplitJoin | buildLogic/convention/src/main/kotlin/library/AndroidLibraryConventionPlugin.kt:98-101 | word pieces joined with a non-word separator split back to the same pieces |
| ResourcePrefix.SplitWordThenSep | buildLogic/convention/src/main/kotlin/library/AndroidLibraryConventionPlugin.kt:98 | a word followed by a separator is split off as the first piece |
| ResourcePrefix.SplitAfterSep | buildLogic/convention/src/main/kotlin/library/AndroidLibraryConventionPlugin.kt:98 | a leading separator splits off an empty first piece |
| ResourcePrefix.SplitWordPrefix | buildLogic/convention/src/main/kotlin/library/AndroidLibraryConventionPlugin.kt:98 | word text before the first separator only lengthens the first piece |
| ResourcePrefix.JoinOfWords | buildLogic/convention/src/main/kotlin/library/AndroidLibraryConventionPlugin.kt:101 | word pieces joined with '_' give word text |
| ResourcePrefix.FirstIndex | buildLogic/convention/src/main/kotlin/library/AndroidLibraryConventionPlugin.kt:100 | the position of an element's first occurrence |
| ResourcePrefix.DistinctElements | buildLogic/convention/src/main/kotlin/library/AndroidLibraryConventionPlugin.kt:100 | `distinct()` keeps exactly the elements of its input |
| ResourcePrefix.DistinctHasNoDuplicates | buildLogic/convention/src/main/kotlin/library/AndroidLibraryConventionPlugin.kt:100 | `distinct()` holds each element once |
| ResourcePrefix.DistinctKeepsFirstOccurrenceOrder | buildLogic/convention/src/main/kotlin/library/AndroidLibraryConventionPlugin.kt:100 | `distinct()` lists elements in the order of their first occurrences |
| ResourcePrefix.FirstIndexOfPrefix | buildLogic/convention/src/main/kotlin/library/AndroidLibraryConventionPlugin.kt:100 | appending an element does not move earlier first occurrences |
| ResourcePrefix.DistinctOfDistinct | buildLogic/convention/src/main/kotlin/library/AndroidLibraryConventionPlugin.kt:100 | `distinct()` of a list without repetitions is that list |
| ResourcePrefix.PrefixIsLowerWord | buildLogic/convention/src/main/kotlin/library/AndroidLibraryConventionPlugin.kt:98-102 | the prefix holds only lower-case letters, digits and '_' |
| ResourcePrefix.FirstPieceDropped | buildLogic/convention/src/main/kotlin/library/AndroidLibraryConventionPlugin.kt:98-99 | the text before the first separator never reaches the prefix |
| ResourcePrefix.NoSeparatorGivesBarePrefix | buildLogic/convention/src/main/kotlin/library/AndroidLibraryConventionPlugin.kt:97-102 | a path without a separator gets the prefix "_" |
| ResourcePrefix.ColonPathPrefix | buildLogic/convention/src/main/kotlin/library/AndroidLibraryConventionPlugin.kt:97-102 | for ":seg1:seg2:...", the prefix is the distinct segments, joined with '_', lower-cased, then '_'; for the root ":" it is "_" |
| ResourcePrefix.RootPathSplit | buildLogic/convention/src/main/kotlin/library/AndroidLibraryConventionPlugin.kt:98 | the root path ":" splits into two empty pieces, since empty pieces are kept |
| ResourcePrefix.ColonPathSplit | buildLogic/convention/src/main/kotlin/library/AndroidLibraryConventionPlugin.kt:98 | ":seg1:...:segn" splits into the empty first piece followed by the segments |
| ResourcePrefix.ModulePathPrefix | buildLogic/convention/src/main/kotlin/library/AndroidLibraryConventionPlugin.kt:95-102 | a path of distinct lower-case segments gets the segments joined with '_' plus '_' |
| ResourcePrefix.LowerWordIsWord | buildLogic/convention/src/main/kotlin/library/AndroidLibraryConventionPlugin.kt:102 | lower-case word text is word text |
| ResourcePrefix.LowerWordsJoin | buildLogic/convention/src/main/kotlin/library/AndroidLibraryConventionPlugin.kt:101-102 | lower-case word pieces joined with '_' give lower-case word text |
| ResourcePrefix.CoreModuleExample | buildLogic/convention/src/main/kotlin/library/AndroidLibraryConventionPlugin.kt:95-102 | ":core:module1" gets "core_module1_" |
| ResourcePrefix.RepeatedPieceExample | buildLogic/convention/src/main/kotlin/library/AndroidLibraryConventionPlugin.kt:100-101 | ":a:a" gets "a_" |
| ResourcePrefix.CaseDifferingPiecesKept | buildLogic/convention/src/main/kotlin/library/AndroidLibraryConventionPlugin.kt:100-102 | repetitions are removed before lower-casing, so ":A:a" gets "a_a_" |
| LibraryConvention.LibraryExtension.Configure | buildLogic/convention/src/main/kotlin/library/AndroidLibraryConventionPlugin.kt:92-102 | the library extension gets target SDK 36, the AndroidJUnitRunner, disabled animations and the resource prefix of its path |
| LibraryConvention.PluginsBeforeLint | buildLogic/convention/src/main/kotlin/library/AndroidLibraryConventionPlugin.kt:84-86 | the library and Kotlin Android plugins are present when the lint convention is applied, and nothing else is added |
| LibraryConvention.LibraryModuleUsesLibraryLint | buildLogic/convention/src/main/kotlin/library/AndroidLibraryConventionPlugin.kt:84-86 | in a library module, the lint convention configures the library extension's lint and does not apply the standalone lint plugin |
| Theme.DashikiTheme | dds/src/main/java/com/tamzi/dds/Theme.kt:48-79 | the scheme given to MaterialTheme is the selected scheme; outside edit mode the status bar gets its primary colour and the light-status-bar flag equals `darkTheme`; in edit mode the window is unchanged |
| Theme.SelectColorScheme | dds/src/main/java/com/tamzi/dds/Theme.kt:54-62 | the `when`: the result is one of the two dynamic schemes or the two palettes; its first branch is `UsesDynamicColor`, line 55; the lemmas below say which |
| Theme.DashikiThemeWithDefaults | dds/src/main/java/com/tamzi/dds/Theme.kt:48-79 | called with its defaults, the theme uses the system dark-mode setting and dynamic colour, and writes the window as `DashikiTheme` does |
| Theme.DefaultsPreferDynamicColor | dds/src/main/java/com/tamzi/dds/Theme.kt:48-62 | with the defaults, SDK 31 and later always show the platform's dynamic scheme for the system mode; older levels show the Dashiki palette for it |
| Theme.DynamicSchemeWhenAvailable | dds/src/main/java/com/tamzi/dds/Theme.kt:55-58 | with dynamic colour at SDK 31 or later, the platform's dark or light scheme is chosen according to `darkTheme` |
| Theme.StaticPaletteOtherwise | dds/src/main/java/com/tamzi/dds/Theme.kt:60-61 | otherwise `darkTheme` selects the dark palette and its absence selects the light one |
| Theme.DynamicFlagIgnoredBelowS | dds/src/main/java/com/tamzi/dds/Theme.kt:55-61 | below SDK 31 `dynamicColor` does not affect the result |
| Theme.PaletteContents | dds/src/main/java/com/tamzi/dds/Theme.kt:20-29 | the dark palette is amber / blue / black, the light palette is purple / lime green / white, and they differ in every role |
| Theme.StaticPaletteFollowsMode | dds/src/main/java/com/tamzi/dds/Theme.kt:60-61 | without dynamic colour, the scheme is on the dark baseline, with amber primary, exactly when `darkTheme` holds |
| LintConvention.Lint.Configure | buildLogic/convention/src/main/kotlin/android/AndroidLintConventionPlugin.kt:83-86 | configuring turns on the XML report and dependency checking |
| LintConvention.Project.ApplyConvention | buildLogic/convention/src/main/kotlin/android/AndroidLintConventionPlugin.kt:65-80 | the project's plugins and lint blocks after the convention are `Apply` of those before it |
| LintConvention.Target | buildLogic/convention/src/main/kotlin/android/AndroidLintConventionPlugin.kt:67-78 | the branch the `when` takes; `ApplicationFirst` states the priority as if-and-only-ifs |
| LintConvention.Apply | buildLogic/convention/src/main/kotlin/android/AndroidLintConventionPlugin.kt:65-86 | the convention on a project snapshot, where `Configured` is what `Lint.configure` does to a block's options; it adds no plugin except possibly "com.android.lint" and removes none |
| LintConvention.ExactlyOneBlockConfigured | buildLogic/convention/src/main/kotlin/android/AndroidLintConventionPlugin.kt:67-78 | exactly the block of the branch taken is configured, and the other two are untouched |
| LintConvention.ApplicationFirst | buildLogic/convention/src/main/kotlin/android/AndroidLintConventionPlugin.kt:68-77 | the application plugin wins even when the library plugin is also present; the library branch exactly when only the library plugin is present; the standalone branch exactly when neither is present |
| LintConvention.LintPluginOnlyWithoutAndroid | buildLogic/convention/src/main/kotlin/android/AndroidLintConventionPlugin.kt:74-77 | "com.android.lint" is applied exactly when neither Android plugin is present, and no other plugin is added |
| LintConvention.ConfigureIdempotent | buildLogic/convention/src/main/kotlin/android/AndroidLintConventionPlugin.kt:83-86 | configured options have `xmlReport` and `checkDependencies` set, and configuring again changes nothing |
| LintConvention.ApplyIdempotent | buildLogic/convention/src/main/kotlin/android/AndroidLintConventionPlugin.kt:65-86 | applying the convention twice gives the same state as applying it once |
| InstrumentedTests.DisableUnnecessaryAndroidTests | buildLogic/convention/src/main/kotlin/util/AndroidInstrumentedTests.kt:59-64 | a variant's new `enableAndroidTest` is its old value AND whether `src/androidTest` exists; only that field may change |
| InstrumentedTests.BeforeVariants | buildLogic/convention/src/main/kotlin/util/AndroidInstrumentedTests.kt:61-64 | every variant is gated on its own old value, and its other fields are unchanged |
| InstrumentedTests.Gated | buildLogic/convention/src/main/kotlin/util/AndroidInstrumentedTests.kt:62-63 | the new `enableAndroidTest`; `NeverEnables`, `FolderDecides` and `GatedIdempotent` state its properties |
| InstrumentedTests.NeverEnables | buildLogic/convention/src/main/kotlin/util/AndroidInstrumentedTests.kt:62-63 | a variant whose Android tests were disabled is never enabled |
| InstrumentedTests.FolderDecides | buildLogic/convention/src/main/kotlin/util/AndroidInstrumentedTests.kt:62-63 | without the folder the tests are off; with it the setting stays as it was |
| InstrumentedTests.GatedIdempotent | buildLogic/convention/src/main/kotlin/util/AndroidInstrumentedTests.kt:62-63 | gating twice is the same as gating once |

## Left out

- Compose UI: the `content` slot and typography handed to `MaterialTheme` are not modelled; only the colour scheme is.
- Colours are opaque tokens. `toArgb()` is the identity on them, and roles other than primary, secondary and background are a `Baseline` tag. The `dashiki*` colour constants are not part of this model.
- `Build.VERSION.SDK_INT`, `isSystemInDarkTheme()`, the platform's dynamic colour extraction and `view.isInEditMode` are inputs.
- The existence of `src/androidTest` is a boolean input.
- Gradle and the Android Gradle Plugin are abstracted to the fields the code writes. Plugin application is adding an id to a set. `configure<...>` is a direct reference to the extension object.
- The "is this an application" check (`this@apply is ApplicationExtension && this is ApplicationProductFlavor`) is a single flag, `BuildExtension.isApplication`.
- `configureKotlinAndroid`, `configureJUnit5`, the dependencies block of the library convention, and the other plugins applied there are not modelled. They are delegations into code with no local decisions.
- Lint settings other than `xmlReport` and `checkDependencies` are not modelled; the convention writes no others.
- Kotlin.Lowercase: `String.lowercase()` is modelled as the ASCII mapping. The input is split on ASCII non-word characters, so this is exact for every piece that reaches it.
- ResourcePrefix.Split: `\W` is read without Unicode character classes, as in Java's default regex mode.
- Flavor.BuildExtension.ConfigureFlavors: the customization block is a pure function from the flavor and the enum value to the new flavor. A block that throws or touches other state is not modelled.
- Flavor.BuildExtension.ConfigureFlavors: a `create` on a taken name, which throws in Gradle, is an `Outcome` value. The run stops there, and the flavors created before it stay.
- InstrumentedTests.BeforeVariants: the build tool's own pass over the variants stands for `beforeVariants`. The order and selection of variants belong to the build tool.
- Theme.DashikiTheme: the `SideEffect` runs after composition; the model writes the window inside the call.
- Theme.DashikiTheme: the window is a parameter. The cast `view.context as Activity` is taken to succeed; a context that is not an Activity makes the cast throw, leaving both writes undone, and that path is not modelled.
