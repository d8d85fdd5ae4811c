/**
 * The design-system theme: `DashikiTheme` picks a colour scheme from the
 * dark-theme flag, the dynamic-colour flag and the platform's SDK level,
 * writes the status-bar colour and appearance into the window unless the view
 * is in edit mode, and hands the same scheme to Material.
 */
module Theme {

  /** Colours: the design system's named colours, and colours extracted by the platform. */
  datatype Color =
    | DashikiAmber | DashikiBlue | DashikiBlack
    | DashikiPurple | DashikiLimeGreenish | DashikiWhite
    | Extracted(id: nat)

  /** Which Material baseline provides the roles a scheme does not override. */
  datatype Baseline = DarkBaseline | LightBaseline | DynamicBaseline

  /** A colour scheme, as far as the theme sets it: three roles and the baseline for the rest. */
  datatype ColorScheme = ColorScheme(baseline: Baseline, primary: Color, secondary: Color, background: Color)

  /** `darkColorScheme(primary = dashikiAmber, secondary = dashikiBlue, background = dashikiBlack)`. */
  const DarkColorPalette: ColorScheme := ColorScheme(DarkBaseline, DashikiAmber, DashikiBlue, DashikiBlack)

  /** `lightColorScheme(primary = dashikiPurple, secondary = dashikiLimeGreenish, background = dashikiWhite)`. */
  const LightColorPalette: ColorScheme := ColorScheme(LightBaseline, DashikiPurple, DashikiLimeGreenish, DashikiWhite)

  /** `Build.VERSION_CODES.S`, Android 12, the first level with dynamic colour. */
  const S: int := 31

  /**
   * What the theme reads from the platform: the SDK level, the wallpaper-derived
   * schemes, and `isSystemInDarkTheme()`.
   */
  datatype Platform = Platform(sdkInt: int, dynamicDark: ColorScheme, dynamicLight: ColorScheme, isSystemInDarkTheme: bool)

  /** The default of `dynamicColor`. */
  const DefaultDynamicColor: bool := true

  predicate UsesDynamicColor(dynamicColor: bool, sdkInt: int)
  {
    dynamicColor && sdkInt >= S
  }

  /** The `when` that picks the scheme. */
  function SelectColorScheme(darkTheme: bool, dynamicColor: bool, platform: Platform): (r: ColorScheme)
    ensures r in {platform.dynamicDark, platform.dynamicLight, DarkColorPalette, LightColorPalette}
  {
    if UsesDynamicColor(dynamicColor, platform.sdkInt) then
      (if darkTheme then platform.dynamicDark else platform.dynamicLight)
    else if darkTheme then DarkColorPalette
    else LightColorPalette
  }

  /** The activity window the side effect writes to. */
  class Window {
    /** `window.statusBarColor`, the colour as `toArgb()` gives it. */
    var statusBarColor: Color
    /** `isAppearanceLightStatusBars` of the window's insets controller. */
    var isAppearanceLightStatusBars: bool

    constructor (statusBarColor: Color, isAppearanceLightStatusBars: bool)
      ensures this.statusBarColor == statusBarColor
      ensures this.isAppearanceLightStatusBars == isAppearanceLightStatusBars
    {
      this.statusBarColor := statusBarColor;
      this.isAppearanceLightStatusBars := isAppearanceLightStatusBars;
    }
  }

  /**
   * `DashikiTheme(darkTheme, dynamicColor) { ... }`: returns the scheme given
   * to `MaterialTheme`; outside edit mode, the window's status bar takes the
   * scheme's primary colour and its light appearance follows `darkTheme`.
   */
  method DashikiTheme(darkTheme: bool, dynamicColor: bool, platform: Platform, isInEditMode: bool, window: Window)
    returns (materialScheme: ColorScheme)
    modifies window
    ensures materialScheme == SelectColorScheme(darkTheme, dynamicColor, platform)
    ensures isInEditMode ==> unchanged(window)
    ensures !isInEditMode ==> window.statusBarColor == materialScheme.primary
    ensures !isInEditMode ==> window.isAppearanceLightStatusBars == darkTheme
  {
    var colorPalette := SelectColorScheme(darkTheme, dynamicColor, platform);
    if !isInEditMode {
      window.statusBarColor := colorPalette.primary;
      window.isAppearanceLightStatusBars := darkTheme;
    }
    materialScheme := colorPalette;
  }

  /**
   * `DashikiTheme { ... }` with both defaults, as the design system's screens
   * call it: `darkTheme` is the system setting and `dynamicColor` is on.
   */
  method DashikiThemeWithDefaults(platform: Platform, isInEditMode: bool, window: Window)
    returns (materialScheme: ColorScheme)
    modifies window
    ensures materialScheme == SelectColorScheme(platform.isSystemInDarkTheme, DefaultDynamicColor, platform)
    ensures isInEditMode ==> unchanged(window)
    ensures !isInEditMode ==> window.statusBarColor == materialScheme.primary
    ensures !isInEditMode ==> window.isAppearanceLightStatusBars == platform.isSystemInDarkTheme
  {
    materialScheme := DashikiTheme(platform.isSystemInDarkTheme, DefaultDynamicColor, platform, isInEditMode, window);
  }

  // ---------------------------------------------------------------------------
  // Properties of the choice

  /**
   * With the defaults, Android 12 and later always show the platform's
   * dynamic scheme for the system mode, never the Dashiki palettes; older
   * levels show the Dashiki palette for the system mode.
   */
  lemma DefaultsPreferDynamicColor(platform: Platform)
    ensures platform.sdkInt >= S ==>
      SelectColorScheme(platform.isSystemInDarkTheme, DefaultDynamicColor, platform)
        == if platform.isSystemInDarkTheme then platform.dynamicDark else platform.dynamicLight
    ensures platform.sdkInt < S ==>
      SelectColorScheme(platform.isSystemInDarkTheme, DefaultDynamicColor, platform)
        == if platform.isSystemInDarkTheme then DarkColorPalette else LightColorPalette
  {
  }

  /** With dynamic colour on Android 12 or later, the platform scheme for the requested mode is used. */
  lemma DynamicSchemeWhenAvailable(darkTheme: bool, dynamicColor: bool, platform: Platform)
    requires UsesDynamicColor(dynamicColor, platform.sdkInt)
    ensures SelectColorScheme(darkTheme, dynamicColor, platform)
      == if darkTheme then platform.dynamicDark else platform.dynamicLight
  {
  }

  /** Otherwise the design system's own palette is used: dark for the dark theme, light for the light one. */
  lemma StaticPaletteOtherwise(darkTheme: bool, dynamicColor: bool, platform: Platform)
    requires !UsesDynamicColor(dynamicColor, platform.sdkInt)
    ensures SelectColorScheme(darkTheme, dynamicColor, platform)
      == if darkTheme then DarkColorPalette else LightColorPalette
  {
  }

  /** Below Android 12 the dynamic-colour flag makes no difference. */
  lemma DynamicFlagIgnoredBelowS(darkTheme: bool, platform: Platform)
    requires platform.sdkInt < S
    ensures SelectColorScheme(darkTheme, true, platform) == SelectColorScheme(darkTheme, false, platform)
  {
  }

  /**
   * The dark palette is amber, blue and black on the dark baseline, the light
   * one purple, lime green and white on the light baseline: they differ in
   * every role they set.
   */
  lemma PaletteContents()
    ensures DarkColorPalette == ColorScheme(DarkBaseline, DashikiAmber, DashikiBlue, DashikiBlack)
    ensures LightColorPalette == ColorScheme(LightBaseline, DashikiPurple, DashikiLimeGreenish, DashikiWhite)
    ensures DarkColorPalette.primary != LightColorPalette.primary
    ensures DarkColorPalette.secondary != LightColorPalette.secondary
    ensures DarkColorPalette.background != LightColorPalette.background
  {
  }

  /**
   * Without dynamic colour the mode can be read back from the scheme: it is
   * built on the dark baseline exactly when the dark theme was asked for.
   */
  lemma StaticPaletteFollowsMode(darkTheme: bool, dynamicColor: bool, platform: Platform)
    requires !UsesDynamicColor(dynamicColor, platform.sdkInt)
    ensures SelectColorScheme(darkTheme, dynamicColor, platform).baseline == DarkBaseline <==> darkTheme
    ensures SelectColorScheme(darkTheme, dynamicColor, platform).primary == DashikiAmber <==> darkTheme
  {
  }
}
