/**
 * `ThemeManager`: the chosen theme, auto mode and the system preference,
 * the theme the page shows (its class on the root element, its custom
 * properties and the theme-colour meta value), and the CSS export. Storage
 * is a pair of fields; the media query is its `matches` value and the
 * change event a method; the controls' markup is left out.
 */
module Theme {
  import opened Wrappers
  import opened Strings
  import opened Seqs

  /** A theme's data as `Object.entries` lists it: `name` first, then the colours. */
  type ThemeData = seq<(string, string)>

  function Palette(name: string, primary: string, background: string, surface: string, text: string, textSecondary: string): ThemeData {
    [("name", name), ("primary", primary), ("background", background), ("surface", surface),
     ("text", text), ("textSecondary", textSecondary)]
  }

  /** The four built-in themes. */
  const BuiltInThemes: map<string, ThemeData> :=
    map["light" := LightTheme, "dark" := DarkTheme, "blue" := BlueTheme, "green" := GreenTheme]

  const LightTheme := Palette("Light", "#3b82f6", "#ffffff", "#f9fafb", "#111827", "#6b7280")
  const DarkTheme := Palette("Dark", "#60a5fa", "#111827", "#1f2937", "#f9fafb", "#d1d5db")
  const BlueTheme := Palette("Blue", "#1e40af", "#f0f9ff", "#e0f2fe", "#0c4a6e", "#0369a1")
  const GreenTheme := Palette("Green", "#059669", "#f0fdf4", "#dcfce7", "#064e3b", "#047857")

  /** `localStorage.getItem('theme') || 'light'`. */
  function InitialTheme(stored: Option<string>): string {
    if stored.Some? && stored.value != "" then stored.value else "light"
  }

  /** Auto mode is on only when `true` is stored. */
  function InitialAutoMode(stored: Option<string>): bool {
    stored == Some("true")
  }

  /** The media query's answer as a theme name. */
  function SystemTheme(prefersDark: bool): string {
    if prefersDark then "dark" else "light"
  }

  /** Without storage the theme is light and auto mode off; a stored auto flag reads back as written. */
  lemma InitialDefaults(b: bool)
    ensures InitialTheme(None) == "light" && !InitialAutoMode(None)
    ensures InitialAutoMode(Some(BoolText(b))) == b
    ensures InitialTheme(Some("")) == "light"
  {
  }

  /** The theme `applyTheme` shows: the system's in auto mode, the chosen one otherwise. */
  function EffectiveTheme(autoMode: bool, systemPreference: string, currentTheme: string): string {
    if autoMode then systemPreference else currentTheme
  }

  predicate IsBuiltInClass(c: string) {
    c == "light" || c == "dark" || c == "blue" || c == "green"
  }

  function NotBuiltInClass(): string -> bool {
    (c: string) => !IsBuiltInClass(c)
  }

  /** The root's classes after `applyTheme`: the four theme classes removed, then the theme's added unless present. */
  function WithThemeClass(classes: seq<string>, theme: string): seq<string> {
    var kept := Filter(classes, NotBuiltInClass());
    if theme in kept then kept else kept + [theme]
  }

  /** Afterwards the theme's class is there, it is the only built-in theme class, and every other class is kept. */
  lemma WithThemeClassMeans(classes: seq<string>, theme: string)
    ensures theme in WithThemeClass(classes, theme)
    ensures forall c :: IsBuiltInClass(c) ==> (c in WithThemeClass(classes, theme) <==> c == theme)
    ensures forall c :: !IsBuiltInClass(c) && c != theme ==> (c in WithThemeClass(classes, theme) <==> c in classes)
  {
    FilterMembers(classes, NotBuiltInClass());
  }

  /** Applying the same theme twice leaves the classes as applying it once. */
  lemma WithThemeClassIdempotent(classes: seq<string>, theme: string)
    ensures WithThemeClass(WithThemeClass(classes, theme), theme) == WithThemeClass(classes, theme)
  {
    var kept := Filter(classes, NotBuiltInClass());
    var once := WithThemeClass(classes, theme);
    FilterMembers(classes, NotBuiltInClass());
    FilterAll(kept, NotBuiltInClass());
    assert forall k :: 0 <= k < |kept| ==> NotBuiltInClass()(kept[k]) by {
      forall k | 0 <= k < |kept| ensures NotBuiltInClass()(kept[k]) { assert kept[k] in kept; }
    }
    if theme !in kept {
      FilterConcat(kept, [theme], NotBuiltInClass());
      if IsBuiltInClass(theme) {
        assert Filter([theme], NotBuiltInClass()) == [];
      } else {
        assert Filter([theme], NotBuiltInClass()) == [theme];
      }
    }
  }

  /** Like `classList.add`, the change never repeats a class: a list without repeats keeps none. */
  lemma WithThemeClassDistinct(classes: seq<string>, theme: string)
    requires Distinct(classes)
    ensures Distinct(WithThemeClass(classes, theme))
  {
    var kept := Filter(classes, NotBuiltInClass());
    FilterDistinct(classes, NotBuiltInClass());
    if theme !in kept {
      DistinctSnoc(kept, theme);
    }
  }

  // ---------------------------------------------------------------------
  // Custom properties

  function VarName(key: string): string {
    "--theme-" + key
  }

  /** The custom properties after setting `--theme-<key>` for each entry but `name`, in order. */
  function SetVars(vars: map<string, string>, entries: ThemeData): map<string, string>
    decreases |entries|
  {
    if |entries| == 0 then vars
    else
      var before := SetVars(vars, entries[..|entries| - 1]);
      var e := entries[|entries| - 1];
      if e.0 != "name" then before[VarName(e.0) := e.1] else before
  }

  /** Entry keys are distinct. */
  predicate DistinctKeys(entries: ThemeData) {
    forall i, j :: 0 <= i < j < |entries| ==> entries[i].0 != entries[j].0
  }

  /** Distinct keys give distinct property names. */
  lemma VarNameInjective(a: string, b: string)
    ensures VarName(a) == VarName(b) ==> a == b
  {
    if VarName(a) == VarName(b) {
      assert a == VarName(a)[8..] && b == VarName(b)[8..];
    }
  }

  /** Each non-`name` entry's property holds its value; a property no entry names keeps its old value. */
  lemma {:induction false} SetVarsMeans(vars: map<string, string>, entries: ThemeData, j: nat)
    requires DistinctKeys(entries) && j < |entries| && entries[j].0 != "name"
    ensures VarName(entries[j].0) in SetVars(vars, entries)
    ensures SetVars(vars, entries)[VarName(entries[j].0)] == entries[j].1
    decreases |entries|
  {
    var n := |entries| - 1;
    var before := entries[..n];
    if j < n {
      assert DistinctKeys(before) by {
        forall a, b | 0 <= a < b < |before| ensures before[a].0 != before[b].0 { assert before[a] == entries[a]; }
      }
      assert before[j] == entries[j];
      SetVarsMeans(vars, before, j);
      VarNameInjective(entries[n].0, entries[j].0);
    }
  }

  /** Properties that are not theme properties are untouched. */
  lemma {:induction false} SetVarsKeepsOthers(vars: map<string, string>, entries: ThemeData, name: string)
    requires forall k :: 0 <= k < |entries| ==> name != VarName(entries[k].0)
    ensures name in SetVars(vars, entries) <==> name in vars
    ensures name in vars ==> SetVars(vars, entries)[name] == vars[name]
    decreases |entries|
  {
    if |entries| > 0 {
      SetVarsKeepsOthers(vars, entries[..|entries| - 1], name);
    }
  }

  /** Setting a theme's properties merges that theme's own properties over the old ones. */
  lemma {:induction false} SetVarsMerges(vars: map<string, string>, entries: ThemeData)
    ensures SetVars(vars, entries) == vars + SetVars(map[], entries)
    decreases |entries|
  {
    if |entries| > 0 {
      var init := entries[..|entries| - 1];
      SetVarsMerges(vars, init);
      var e := entries[|entries| - 1];
      if e.0 != "name" {
        assert (vars + SetVars(map[], init))[VarName(e.0) := e.1] == vars + SetVars(map[], init)[VarName(e.0) := e.1];
      }
    }
  }

  /** Setting the same theme's properties twice is setting them once. */
  lemma SetVarsTwice(vars: map<string, string>, entries: ThemeData)
    ensures SetVars(SetVars(vars, entries), entries) == SetVars(vars, entries)
  {
    var own := SetVars(map[], entries);
    SetVarsMerges(vars, entries);
    SetVarsMerges(SetVars(vars, entries), entries);
    assert vars + own + own == vars + own;
  }

  // ---------------------------------------------------------------------
  // Export

  function IsVariable(): ((string, string)) -> bool {
    (e: (string, string)) => e.0 != "name"
  }

  /** One declaration of the export. */
  function Declaration(e: (string, string)): string {
    "  --theme-" + e.0 + ": " + e.1 + ";"
  }

  function Declarations(): ((string, string)) -> string {
    (e: (string, string)) => Declaration(e)
  }

  /** `exportThemeCSS` for a theme's data: its declarations one per line inside `:root { }`. */
  function ExportCss(data: ThemeData): string {
    ":root {\n" + Join(Map(Filter(data, IsVariable()), Declarations()), "\n") + "\n}"
  }

  /** The lines between `:root {` and `}` are exactly one declaration per non-`name` entry, in order, when no key or value holds a line break. */
  lemma ExportCssLines(data: ThemeData)
    requires LineFree(data)
    requires exists k :: 0 <= k < |data| && data[k].0 != "name"
    ensures var css := ExportCss(data);
      var decls := Map(Filter(data, IsVariable()), Declarations());
      |css| >= 10 && css[..8] == ":root {\n" && css[|css| - 2..] == "\n}"
      && Split(css[8..|css| - 2], '\n') == decls
      && |decls| == |Filter(data, IsVariable())|
  {
    var vs := Filter(data, IsVariable());
    var decls := Map(vs, Declarations());
    FilterMembers(data, IsVariable());
    var k :| 0 <= k < |data| && data[k].0 != "name";
    assert data[k] in vs;
    forall m | 0 <= m < |decls| ensures '\n' !in decls[m] {
      MapAt(vs, Declarations(), m);
      assert vs[m] in vs;
      var i :| 0 <= i < |data| && data[i] == vs[m];
      assert decls[m] == "  --theme-" + vs[m].0 + ": " + vs[m].1 + ";";
    }
    var body := Join(decls, "\n");
    var css := ExportCss(data);
    assert css == ":root {\n" + body + "\n}";
    assert css[8..|css| - 2] == body;
    SplitJoin(decls, '\n');
  }

  /** A palette's keys are distinct, `name` comes first, and the exported entries are its five colours in order. */
  lemma PaletteShape(n: string, primary: string, background: string, surface: string, text: string, textSecondary: string)
    ensures var data := Palette(n, primary, background, surface, text, textSecondary);
      DistinctKeys(data) && |data| == 6 && data[0].0 == "name" && Lookup(data, "primary") == Some(primary)
      && Filter(data, IsVariable()) == [("primary", primary), ("background", background), ("surface", surface),
        ("text", text), ("textSecondary", textSecondary)]
  {
    var data := Palette(n, primary, background, surface, text, textSecondary);
    var vs := data[1..];
    assert data == [data[0]] + vs;
    FilterConcat([data[0]], vs, IsVariable());
    FilterAll(vs, IsVariable());
  }

  /** No key or value of the data holds a line break. */
  predicate LineFree(data: ThemeData) {
    forall k :: 0 <= k < |data| ==> '\n' !in data[k].0 && '\n' !in data[k].1
  }

  /** A palette whose values hold no line break is line-free. */
  lemma PaletteLineFree(n: string, primary: string, background: string, surface: string, text: string, textSecondary: string)
    requires '\n' !in n && '\n' !in primary && '\n' !in background
    requires '\n' !in surface && '\n' !in text && '\n' !in textSecondary
    ensures LineFree(Palette(n, primary, background, surface, text, textSecondary))
  {
  }

  /** A well-formed theme: distinct keys, `name` first, no line break in a key or value. */
  predicate WellFormedTheme(data: ThemeData) {
    DistinctKeys(data) && |data| == 6 && data[0].0 == "name" && LineFree(data)
  }

  /** A palette built from line-free colours is a well-formed theme. */
  lemma PaletteWellFormed(name: string, primary: string, bg: string, surface: string, text: string, muted: string)
    requires '\n' !in name && '\n' !in primary && '\n' !in bg
    requires '\n' !in surface && '\n' !in text && '\n' !in muted
    ensures WellFormedTheme(Palette(name, primary, bg, surface, text, muted))
  {
    PaletteShape(name, primary, bg, surface, text, muted);
    PaletteLineFree(name, primary, bg, surface, text, muted);
  }

  /** Every built-in theme is well formed. */
  lemma BuiltInThemeShape(name: string)
    requires name in BuiltInThemes
    ensures WellFormedTheme(BuiltInThemes[name])
  {
    if name == "light" {
      PaletteWellFormed("Light", "#3b82f6", "#ffffff", "#f9fafb", "#111827", "#6b7280");
    } else if name == "dark" {
      PaletteWellFormed("Dark", "#60a5fa", "#111827", "#1f2937", "#f9fafb", "#d1d5db");
    } else if name == "blue" {
      PaletteWellFormed("Blue", "#1e40af", "#f0f9ff", "#e0f2fe", "#0c4a6e", "#0369a1");
    } else {
      PaletteWellFormed("Green", "#059669", "#f0fdf4", "#dcfce7", "#064e3b", "#047857");
    }
  }

  /** In a well-formed theme the exported entries are all but the first. */
  lemma VariablesAfterName(data: ThemeData)
    requires WellFormedTheme(data)
    ensures Filter(data, IsVariable()) == data[1..]
  {
    assert data == [data[0]] + data[1..];
    FilterConcat([data[0]], data[1..], IsVariable());
    forall k | 0 <= k < |data[1..]| ensures IsVariable()(data[1..][k]) {
      assert data[1..][k] == data[k + 1];
    }
    FilterAll(data[1..], IsVariable());
  }

  /** A built-in theme exports five lines, the declarations of its five colours in order. */
  lemma BuiltInExportLines(name: string)
    requires name in BuiltInThemes
    ensures var data := BuiltInThemes[name];
      var css := ExportCss(data);
      |css| >= 10 && Split(css[8..|css| - 2], '\n') == Map(data[1..], Declarations())
      && |data[1..]| == 5 && forall k :: 1 <= k < 6 ==> data[k].0 != "name"
  {
    var data := BuiltInThemes[name];
    BuiltInThemeShape(name);
    VariablesAfterName(data);
    assert data[1].0 != "name";
    ExportCssLines(data);
  }

  /** The theme-colour meta value `applyTheme` sets: the theme's `primary`, or the text `undefined` without one. */
  function MetaColorOf(data: ThemeData): Option<string> {
    Some(Lookup(data, "primary").GetOr("undefined"))
  }

  /** What `getCurrentTheme` reports; `data` is absent for an unregistered name. */
  datatype CurrentTheme = CurrentTheme(name: string, data: Option<ThemeData>, auto: bool, system: string)

  class ThemeManager {
    var currentTheme: string
    var systemPreference: string
    var autoMode: bool
    var themes: map<string, ThemeData>
    /** `localStorage['theme']` and `localStorage['autoMode']`. */
    var storedTheme: Option<string>
    var storedAutoMode: Option<string>
    /** The classes of `document.documentElement`, its custom properties and the theme-colour meta value. */
    var rootClasses: seq<string>
    var cssVars: map<string, string>
    var metaColor: Option<string>

    /** The constructor's fields, from storage and the media query; `init` then applies the theme. A DOM class list has no repeats. */
    constructor(storedTheme: Option<string>, storedAutoMode: Option<string>, prefersDark: bool, rootClasses: seq<string>)
      requires Distinct(rootClasses)
      ensures currentTheme == InitialTheme(storedTheme) && autoMode == InitialAutoMode(storedAutoMode)
      ensures systemPreference == SystemTheme(prefersDark) && themes == BuiltInThemes
      ensures this.storedTheme == storedTheme && this.storedAutoMode == storedAutoMode
      ensures this.rootClasses == rootClasses && cssVars == map[] && metaColor.None?
    {
      currentTheme := InitialTheme(storedTheme);
      systemPreference := SystemTheme(prefersDark);
      autoMode := InitialAutoMode(storedAutoMode);
      themes := BuiltInThemes;
      this.storedTheme := storedTheme;
      this.storedAutoMode := storedAutoMode;
      this.rootClasses := rootClasses;
      cssVars := map[];
      metaColor := None;
    }

    function Effective(): string
      reads this
    {
      EffectiveTheme(autoMode, systemPreference, currentTheme)
    }

    /**
     * `applyTheme`: the effective theme's class goes on the root; for a
     * registered theme its properties and meta colour follow. For an
     * unregistered one the source throws after the class change (`ok`
     * false), leaving properties and meta colour as they were.
     */
    method ApplyTheme() returns (ok: bool)
      modifies this`rootClasses, this`cssVars, this`metaColor
      ensures ok <==> Effective() in themes
      ensures rootClasses == WithThemeClass(old(rootClasses), Effective())
      ensures ok ==> cssVars == SetVars(old(cssVars), themes[Effective()])
      ensures ok ==> metaColor == MetaColorOf(themes[Effective()])
      ensures !ok ==> cssVars == old(cssVars) && metaColor == old(metaColor)
    {
      var theme := Effective();
      var kept := Filter(rootClasses, NotBuiltInClass());
      if theme !in kept {
        kept := kept + [theme];
      }
      rootClasses := kept;
      if theme !in themes {
        return false;
      }
      var data := themes[theme];
      var i := 0;
      while i < |data|
        invariant 0 <= i <= |data|
        invariant cssVars == SetVars(old(cssVars), data[..i])
        invariant rootClasses == WithThemeClass(old(rootClasses), theme)
      {
        assert data[..i + 1][..i] == data[..i];
        if data[i].0 != "name" {
          cssVars := cssVars[VarName(data[i].0) := data[i].1];
        }
        i := i + 1;
      }
      assert data[..|data|] == data;
      metaColor := MetaColorOf(data);
      return true;
    }

    /** `setTheme`: an unregistered name changes nothing; a registered one is chosen, auto mode ends, both are stored and the theme applied. */
    method SetTheme(theme: string)
      modifies this`currentTheme, this`autoMode, this`storedTheme, this`storedAutoMode, this`rootClasses, this`cssVars, this`metaColor
      ensures theme !in themes ==>
        currentTheme == old(currentTheme) && autoMode == old(autoMode) && storedTheme == old(storedTheme)
        && storedAutoMode == old(storedAutoMode) && rootClasses == old(rootClasses) && cssVars == old(cssVars)
        && metaColor == old(metaColor)
      ensures theme in themes ==>
        currentTheme == theme && !autoMode && storedTheme == Some(theme) && storedAutoMode == Some("false")
        && Effective() == theme && rootClasses == WithThemeClass(old(rootClasses), theme)
        && cssVars == SetVars(old(cssVars), themes[theme]) && metaColor == MetaColorOf(themes[theme])
    {
      if theme !in themes {
        return;
      }
      currentTheme := theme;
      autoMode := false;
      storedTheme := Some(theme);
      storedAutoMode := Some("false");
      var _ := ApplyTheme();
    }

    /** `toggleAutoMode`: the flag is set and stored, the chosen theme kept, and the theme applied. */
    method ToggleAutoMode(enabled: bool)
      modifies this`autoMode, this`storedAutoMode, this`rootClasses, this`cssVars, this`metaColor
      ensures autoMode == enabled && storedAutoMode == Some(BoolText(enabled))
      ensures currentTheme == old(currentTheme) && systemPreference == old(systemPreference)
      ensures rootClasses == WithThemeClass(old(rootClasses), Effective())
      ensures Effective() in themes ==>
        cssVars == SetVars(old(cssVars), themes[Effective()]) && metaColor == MetaColorOf(themes[Effective()])
      ensures Effective() !in themes ==> cssVars == old(cssVars) && metaColor == old(metaColor)
    {
      autoMode := enabled;
      storedAutoMode := Some(BoolText(enabled));
      var _ := ApplyTheme();
    }

    /** The media query's change event: the preference follows it, and only auto mode re-applies the theme. */
    method SystemPreferenceChanged(prefersDark: bool)
      modifies this`systemPreference, this`rootClasses, this`cssVars, this`metaColor
      ensures systemPreference == SystemTheme(prefersDark)
      ensures !autoMode ==> rootClasses == old(rootClasses) && cssVars == old(cssVars) && metaColor == old(metaColor)
      ensures autoMode ==> rootClasses == WithThemeClass(old(rootClasses), SystemTheme(prefersDark))
      ensures autoMode && SystemTheme(prefersDark) in themes ==>
        cssVars == SetVars(old(cssVars), themes[SystemTheme(prefersDark)])
        && metaColor == MetaColorOf(themes[SystemTheme(prefersDark)])
      ensures autoMode && SystemTheme(prefersDark) !in themes ==> cssVars == old(cssVars) && metaColor == old(metaColor)
    {
      systemPreference := SystemTheme(prefersDark);
      if autoMode {
        var _ := ApplyTheme();
      }
    }

    /**
     * `resetTheme`: light, auto mode off, both stored; light is applied
     * twice, which ends as applying it once.
     */
    method ResetTheme()
      requires "light" in themes
      modifies this`currentTheme, this`autoMode, this`storedTheme, this`storedAutoMode, this`rootClasses, this`cssVars, this`metaColor
      ensures currentTheme == "light" && !autoMode && storedTheme == Some("light") && storedAutoMode == Some("false")
      ensures Effective() == "light" && rootClasses == WithThemeClass(old(rootClasses), "light")
      ensures cssVars == SetVars(old(cssVars), themes["light"]) && metaColor == MetaColorOf(themes["light"])
    {
      ghost var light := themes["light"];
      SetTheme("light");
      ghost var classes, vars := rootClasses, cssVars;
      assert classes == WithThemeClass(old(rootClasses), "light") && vars == SetVars(old(cssVars), light);
      ToggleAutoMode(false);
      assert rootClasses == WithThemeClass(classes, "light") && cssVars == SetVars(vars, light);
      WithThemeClassIdempotent(old(rootClasses), "light");
      SetVarsTwice(old(cssVars), light);
    }

    /** `getCurrentTheme`: the chosen (not the effective) theme's name and data, auto mode and the system preference. */
    method GetCurrentTheme() returns (r: CurrentTheme)
      ensures r.name == currentTheme && r.auto == autoMode && r.system == systemPreference
      ensures r.data == (if currentTheme in themes then Some(themes[currentTheme]) else None)
    {
      var data := if currentTheme in themes then Some(themes[currentTheme]) else None;
      r := CurrentTheme(currentTheme, data, autoMode, systemPreference);
    }

    /** `exportThemeCSS`: the chosen theme's CSS — the chosen one even in auto mode; the source throws for an unregistered one. */
    method ExportThemeCss() returns (css: Option<string>)
      ensures currentTheme in themes ==> css == Some(ExportCss(themes[currentTheme]))
      ensures currentTheme !in themes ==> css.None?
    {
      var theme := GetCurrentTheme();
      if theme.data.None? {
        return None;
      }
      return Some(ExportCss(theme.data.value));
    }

    /**
     * `addCustomTheme`: registers one theme, replacing any theme of that
     * name, a built-in one included, and leaves every other registered
     * theme as it was.
     */
    method AddCustomTheme(name: string, data: ThemeData)
      modifies this`themes
      ensures themes == old(themes)[name := data]
      ensures name in themes && themes[name] == data
      ensures forall k :: k in old(themes) ==> k in themes
      ensures forall k :: k in old(themes) && k != name ==> themes[k] == old(themes)[k]
    {
      themes := themes[name := data];
    }
  }
}
