/**
 The client's settings record: the built-in defaults, how a saved record is
 merged over them on start-up (`loadSettings`), and the theme button's cycle
 (`toggleTheme`). Browser storage and JSON text are left out: a saved record
 reaches the model already parsed.
 */
module ClientSettings {
  import opened Options

  /** A JSON value as the settings record can hold it; arrays and objects are `Composite`. */
  datatype Value = Str(s: string) | Num(n: real) | Bool(b: bool) | Null | Composite

  /** A settings record: each key present at most once. */
  type Settings = map<string, Value>

  const Defaults: Settings := map[
    "theme" := Str("auto"),
    "fontSize" := Num(15.0),
    "temperature" := Num(0.7),
    "voiceEnabled" := Bool(false)
  ]

  /**
   `loadSettings`: with a saved record, every key it holds overrides the current
   value and every other current key is kept; without one nothing changes.
   */
  function LoadSettings(current: Settings, saved: Option<Settings>): (r: Settings)
    ensures saved.None? ==> r == current
    ensures saved.Some? ==> r.Keys == current.Keys + saved.value.Keys
    ensures saved.Some? ==> forall k :: k in saved.value ==> r[k] == saved.value[k]
    ensures saved.Some? ==> forall k :: k in current && k !in saved.value ==> r[k] == current[k]
  {
    match saved
    case None => current
    case Some(s) => current + s
  }

  /** A saved record that holds every current key is loaded back exactly as it was saved. */
  lemma LoadAfterSave(current: Settings, saved: Settings)
    requires current.Keys <= saved.Keys
    ensures LoadSettings(current, Some(saved)) == saved
  {
    var r := LoadSettings(current, Some(saved));
    assert r.Keys == saved.Keys;
  }

  /** Loading the same saved record a second time changes nothing more. */
  lemma LoadIdempotent(current: Settings, saved: Option<Settings>)
    ensures LoadSettings(LoadSettings(current, saved), saved) == LoadSettings(current, saved)
  {
    if saved.Some? {
      var once := LoadSettings(current, saved);
      var twice := LoadSettings(once, saved);
      assert twice.Keys == once.Keys;
    }
  }

  /** Whatever was saved, a loaded record still has every default key. */
  lemma LoadKeepsDefaultKeys(saved: Option<Settings>)
    ensures Defaults.Keys <= LoadSettings(Defaults, saved).Keys
  {
  }

  /* ---------------- theme ---------------- */

  const Themes: seq<string> := ["light", "dark", "auto"]

  /** `themes.indexOf(v)`: strict equality, so only a string value can be found; -1 when absent. */
  function ThemeIndex(v: Option<Value>): (i: int)
    ensures -1 <= i < |Themes|
    ensures i >= 0 ==> v == Some(Str(Themes[i]))
    ensures i == -1 <==> forall j :: 0 <= j < |Themes| ==> v != Some(Str(Themes[j]))
  {
    if v == Some(Str("light")) then 0
    else if v == Some(Str("dark")) then 1
    else if v == Some(Str("auto")) then 2
    else -1
  }

  /** The theme after a press of the theme button. */
  function NextTheme(v: Option<Value>): (t: string)
    ensures t in Themes
  {
    Themes[(ThemeIndex(v) + 1) % |Themes|]
  }

  /** The successor of each listed theme, and of anything else. */
  lemma NextThemeCycle(v: Option<Value>)
    ensures v == Some(Str("light")) ==> NextTheme(v) == "dark"
    ensures v == Some(Str("dark")) ==> NextTheme(v) == "auto"
    ensures v == Some(Str("auto")) ==> NextTheme(v) == "light"
    ensures ThemeIndex(v) == -1 ==> NextTheme(v) == "light"
  {
  }

  /** `toggleTheme`: only the theme key changes, and it becomes the next theme. */
  function ToggleTheme(s: Settings): (r: Settings)
    ensures r.Keys == s.Keys + {"theme"}
    ensures r["theme"] == Str(NextTheme(if "theme" in s then Some(s["theme"]) else None))
    ensures forall k :: k in s && k != "theme" ==> r[k] == s[k]
  {
    var current := if "theme" in s then Some(s["theme"]) else None;
    s["theme" := Str(NextTheme(current))]
  }

  /** From any listed theme, three presses come back to it. */
  lemma ToggleThreeTimes(s: Settings)
    requires "theme" in s && s["theme"] in [Str("light"), Str("dark"), Str("auto")]
    ensures ToggleTheme(ToggleTheme(ToggleTheme(s))) == s
  {
    var t1 := ToggleTheme(s);
    var t2 := ToggleTheme(t1);
    var t3 := ToggleTheme(t2);
    NextThemeCycle(Some(s["theme"]));
    NextThemeCycle(Some(t1["theme"]));
    NextThemeCycle(Some(t2["theme"]));
    assert t3.Keys == s.Keys;
  }

  /** An unknown or missing theme is replaced by `light`. */
  lemma ToggleUnknownTheme(s: Settings)
    requires "theme" !in s || s["theme"] !in [Str("light"), Str("dark"), Str("auto")]
    ensures ToggleTheme(s)["theme"] == Str("light")
  {
  }

  /* ---------------- truthiness ---------------- */

  /** JavaScript truthiness of a settings value (a missing key reads as `undefined`, which is falsy). */
  function Truthy(v: Option<Value>): (t: bool)
    ensures v == Some(Bool(true)) ==> t
    ensures v == None || v == Some(Null) || v == Some(Bool(false)) || v == Some(Str("")) || v == Some(Num(0.0)) ==> !t
  {
    match v
    case None => false
    case Some(Str(s)) => s != ""
    case Some(Num(n)) => n != 0.0
    case Some(Bool(b)) => b
    case Some(Null) => false
    case Some(Composite) => true
  }
}
