/** The application shell (App.tsx): the single active-tab slot and the page it
    routes to, the light/dark theme and its persistence, the `/` search
    shortcut, and the effects that mirror settings and state onto the document
    root, the body and `localStorage`. */
module App {
  import opened JsBuiltins

  /** A tab identifier: the known tabs plus any forward-compatible string. */
  type TabID = string

  datatype FontSize = Normal | Large

  /** The settings record the settings context hands to every component. */
  datatype Settings = Settings(
    reducedMotion: bool,
    highContrast: bool,
    fontSize: FontSize,
    rahBizzyTheme: bool,
    monochromeTheme: bool,
    stickyHeader: bool,
    searchSlashOpens: bool)

  datatype Theme = Light | Dark

  /** The string a theme is stored under in `localStorage`. */
  function ThemeName(t: Theme): string
  {
    match t
    case Light => "light"
    case Dark => "dark"
  }

  /** The theme chosen at mount from the stored value: only `"dark"` gives dark. */
  function InitialTheme(saved: Option<string>): (t: Theme)
    ensures t == Dark <==> saved == Some("dark")
  {
    if saved == Some("dark") then Dark else Light
  }

  /** Reading back a stored theme name gives the theme that was stored. */
  lemma ThemeRoundTrip(t: Theme)
    ensures InitialTheme(Some(ThemeName(t))) == t
  {
  }

  /** The theme button's update: light becomes dark and anything else light. */
  function Toggled(t: Theme): (r: Theme)
    ensures r != t
  {
    if t == Light then Dark else Light
  }

  /** Toggling twice restores the theme. */
  lemma ToggleInvolution(t: Theme)
    ensures Toggled(Toggled(t)) == t
  {
  }

  /** The document-root classes the settings effect owns. */
  const SettingsMarkers: set<string> :=
    {"reduced-motion", "high-contrast", "font-large", "rahbizzy-theme", "monochrome-theme"}

  /** The settings markers that the settings switch on. */
  function ActiveMarkers(s: Settings): set<string>
  {
    (if s.reducedMotion then {"reduced-motion"} else {})
    + (if s.highContrast then {"high-contrast"} else {})
    + (if s.fontSize == Large then {"font-large"} else {})
    + (if s.rahBizzyTheme then {"rahbizzy-theme"} else {})
    + (if s.monochromeTheme then {"monochrome-theme"} else {})
  }

  /** The root class set after the settings effect: every marker is present
      exactly when its setting holds, and every other class is left as it was. */
  function WithMarkers(classes: set<string>, s: Settings): (r: set<string>)
    ensures "reduced-motion" in r <==> s.reducedMotion
    ensures "high-contrast" in r <==> s.highContrast
    ensures "font-large" in r <==> s.fontSize == Large
    ensures "rahbizzy-theme" in r <==> s.rahBizzyTheme
    ensures "monochrome-theme" in r <==> s.monochromeTheme
    ensures forall c :: c !in SettingsMarkers ==> (c in r <==> c in classes)
  {
    classes - SettingsMarkers + ActiveMarkers(s)
  }

  /** `classList.toggle(name, on)`: add the class when `on`, remove it otherwise. */
  function Toggle(classes: set<string>, name: string, on: bool): set<string>
  {
    if on then classes + {name} else classes - {name}
  }

  /** The five add-or-remove steps of the settings effect, in source order, give `WithMarkers`. */
  lemma TogglesAreMarkers(classes: set<string>, s: Settings)
    ensures Toggle(Toggle(Toggle(Toggle(Toggle(classes,
              "reduced-motion", s.reducedMotion),
              "high-contrast", s.highContrast),
              "font-large", s.fontSize == Large),
              "rahbizzy-theme", s.rahBizzyTheme),
              "monochrome-theme", s.monochromeTheme)
            == WithMarkers(classes, s)
  {
    var steps := Toggle(Toggle(Toggle(Toggle(Toggle(classes,
              "reduced-motion", s.reducedMotion),
              "high-contrast", s.highContrast),
              "font-large", s.fontSize == Large),
              "rahbizzy-theme", s.rahBizzyTheme),
              "monochrome-theme", s.monochromeTheme);
    forall c ensures c in steps <==> c in WithMarkers(classes, s) {
    }
  }

  /** Applying the settings effect twice with the same settings is the same as once. */
  lemma MarkersIdempotent(classes: set<string>, s: Settings)
    ensures WithMarkers(WithMarkers(classes, s), s) == WithMarkers(classes, s)
  {
  }

  /** The element a key event is aimed at. */
  datatype Target = Target(tagName: string, isContentEditable: bool)

  datatype KeyEvent = KeyEvent(
    key: string, ctrlKey: bool, metaKey: bool, altKey: bool, shiftKey: bool, target: Target)

  /** A form field or an editable region: typing there must not open search. */
  predicate IsTextEntry(t: Target)
  {
    t.isContentEditable || t.tagName == "INPUT" || t.tagName == "TEXTAREA" || t.tagName == "SELECT"
  }

  /** The keys-down that the global shortcut turns into "open search". */
  function OpensSearch(s: Settings, e: KeyEvent): (opens: bool)
    ensures opens ==> e.key == "/" && s.searchSlashOpens
    ensures IsTextEntry(e.target) || e.ctrlKey || e.metaKey || e.altKey ==> !opens
  {
    s.searchSlashOpens && e.key == "/" && !e.ctrlKey && !e.metaKey && !e.altKey && !IsTextEntry(e.target)
  }

  /** `/` never opens search from a text field, with a modifier other than
      Shift, or with the feature switched off; Shift does not matter. */
  lemma ShortcutGuards(s: Settings, e: KeyEvent)
    ensures IsTextEntry(e.target) ==> !OpensSearch(s, e)
    ensures e.ctrlKey || e.metaKey || e.altKey ==> !OpensSearch(s, e)
    ensures !s.searchSlashOpens ==> !OpensSearch(s, e)
    ensures OpensSearch(s, e) == OpensSearch(s, e.(shiftKey := !e.shiftKey))
  {
  }

  /** What renders below the navigation bar. */
  datatype Page = LandingPage | TabPage(tabId: TabID)

  /** The page for a tab: the landing page on `home`, the generic tab page otherwise. */
  function Route(activeTab: TabID): (p: Page)
    ensures p == LandingPage <==> activeTab == "home"
    ensures p.TabPage? ==> p.tabId == activeTab
  {
    if activeTab == "home" then LandingPage else TabPage(activeTab)
  }

  /** The value `localStorage.getItem('theme')` returns: null exactly when
      nothing is stored under the key. */
  function StoredTheme(storage: map<string, string>): (saved: Option<string>)
    ensures saved.None? <==> "theme" !in storage
    ensures saved.Some? ==> storage["theme"] == saved.value
  {
    if "theme" in storage then Some(storage["theme"]) else None
  }

  /** What is written under the key is read back, and other keys do not matter. */
  lemma StoredThemeAfterWrite(storage: map<string, string>, v: string, key: string, w: string)
    ensures StoredTheme(storage["theme" := v]) == Some(v)
    ensures key != "theme" ==> StoredTheme(storage[key := w]) == StoredTheme(storage)
  {
  }

  /** The browser state the shell touches: `localStorage` and the class lists
      of `document.documentElement` and `document.body`. */
  class Browser {
    var storage: map<string, string>
    var rootClasses: set<string>
    var bodyClasses: set<string>

    constructor (storage: map<string, string>, rootClasses: set<string>, bodyClasses: set<string>)
      ensures this.storage == storage && this.rootClasses == rootClasses && this.bodyClasses == bodyClasses
    {
      this.storage := storage;
      this.rootClasses := rootClasses;
      this.bodyClasses := bodyClasses;
    }
  }

  /** The `AppContent` component's state; its effects act on `browser`. */
  class AppContent {
    var activeTab: TabID
    var isSearchOpen: bool
    var theme: Theme
    const browser: Browser

    constructor (browser: Browser)
      ensures activeTab == "home" && !isSearchOpen && theme == Light
      ensures this.browser == browser
    {
      activeTab := "home";
      isSearchOpen := false;
      theme := Light;
      this.browser := browser;
    }

    /** `setActiveTab`: replaces the tab unconditionally; nothing else changes. */
    method SetActiveTab(tabId: TabID)
      modifies this
      ensures activeTab == tabId
      ensures isSearchOpen == old(isSearchOpen) && theme == old(theme)
    {
      activeTab := tabId;
    }

    /** `onBack` of the generic tab page. */
    method OnBack()
      modifies this
      ensures activeTab == "home" && Route(activeTab) == LandingPage
      ensures isSearchOpen == old(isSearchOpen) && theme == old(theme)
    {
      SetActiveTab("home");
    }

    /** The mount effect: read the stored theme, set the theme and the root's
        `dark` class from it, and store `'light'` when the stored value is
        missing or empty. */
    method InitTheme()
      modifies this, browser
      ensures theme == InitialTheme(StoredTheme(old(browser.storage)))
      ensures browser.rootClasses == if theme == Dark then old(browser.rootClasses) + {"dark"}
                                     else old(browser.rootClasses) - {"dark"}
      ensures browser.storage == if StoredTheme(old(browser.storage)) in {None, Some("")}
                                 then old(browser.storage)["theme" := "light"]
                                 else old(browser.storage)
      ensures browser.bodyClasses == old(browser.bodyClasses)
      ensures activeTab == old(activeTab) && isSearchOpen == old(isSearchOpen)
    {
      var savedTheme := StoredTheme(browser.storage);
      if savedTheme == Some("dark") {
        theme := Dark;
        browser.rootClasses := browser.rootClasses + {"dark"};
      } else {
        theme := Light;
        browser.rootClasses := browser.rootClasses - {"dark"};
        if savedTheme == None || savedTheme == Some("") {
          browser.storage := browser.storage["theme" := "light"];
        }
      }
    }

    /** The theme effect: store the theme and put `dark` on the root exactly in dark mode. */
    method SyncTheme()
      modifies browser
      ensures StoredTheme(browser.storage) == Some(ThemeName(theme))
      ensures browser.storage == old(browser.storage)["theme" := ThemeName(theme)]
      ensures "dark" in browser.rootClasses <==> theme == Dark
      ensures forall c :: c != "dark" ==> (c in browser.rootClasses <==> c in old(browser.rootClasses))
      ensures browser.bodyClasses == old(browser.bodyClasses)
    {
      browser.storage := browser.storage["theme" := ThemeName(theme)];
      if theme == Dark {
        browser.rootClasses := browser.rootClasses + {"dark"};
      } else {
        browser.rootClasses := browser.rootClasses - {"dark"};
      }
    }

    /** The theme button. */
    method ToggleTheme()
      modifies this
      ensures theme == Toggled(old(theme))
      ensures activeTab == old(activeTab) && isSearchOpen == old(isSearchOpen)
    {
      theme := Toggled(theme);
    }

    /** The settings effect: one add-or-remove per marker class. */
    method ApplySettingsClasses(settings: Settings)
      modifies browser
      ensures browser.rootClasses == WithMarkers(old(browser.rootClasses), settings)
      ensures browser.storage == old(browser.storage) && browser.bodyClasses == old(browser.bodyClasses)
    {
      var root := browser.rootClasses;
      ghost var c0 := root;
      if settings.reducedMotion {
        root := root + {"reduced-motion"};
      } else {
        root := root - {"reduced-motion"};
      }
      ghost var c1 := root;
      if settings.highContrast {
        root := root + {"high-contrast"};
      } else {
        root := root - {"high-contrast"};
      }
      ghost var c2 := root;
      if settings.fontSize == Large {
        root := root + {"font-large"};
      } else {
        root := root - {"font-large"};
      }
      ghost var c3 := root;
      if settings.rahBizzyTheme {
        root := root + {"rahbizzy-theme"};
      } else {
        root := root - {"rahbizzy-theme"};
      }
      ghost var c4 := root;
      if settings.monochromeTheme {
        root := root + {"monochrome-theme"};
      } else {
        root := root - {"monochrome-theme"};
      }
      assert c1 == Toggle(c0, "reduced-motion", settings.reducedMotion);
      assert c2 == Toggle(c1, "high-contrast", settings.highContrast);
      assert c3 == Toggle(c2, "font-large", settings.fontSize == Large);
      assert c4 == Toggle(c3, "rahbizzy-theme", settings.rahBizzyTheme);
      assert root == Toggle(c4, "monochrome-theme", settings.monochromeTheme);
      TogglesAreMarkers(c0, settings);
      browser.rootClasses := root;
    }

    /** The keydown listener: returns whether it called `preventDefault`. */
    method HandleGlobalKeyDown(settings: Settings, e: KeyEvent) returns (defaultPrevented: bool)
      modifies this
      ensures defaultPrevented == OpensSearch(settings, e)
      ensures isSearchOpen == (old(isSearchOpen) || defaultPrevented)
      ensures activeTab == old(activeTab) && theme == old(theme)
    {
      defaultPrevented := false;
      if settings.searchSlashOpens && e.key == "/" && !e.ctrlKey && !e.metaKey && !e.altKey {
        var tagName := e.target.tagName;
        if !e.target.isContentEditable && tagName != "INPUT" && tagName != "TEXTAREA" && tagName != "SELECT" {
          defaultPrevented := true;
          isSearchOpen := true;
        }
      }
    }

    /** The hall-of-fame effect: the body carries `theme-hof` exactly on that tab. */
    method SyncHofMarker()
      modifies browser
      ensures "theme-hof" in browser.bodyClasses <==> activeTab == "hall-of-fame"
      ensures forall c :: c != "theme-hof" ==> (c in browser.bodyClasses <==> c in old(browser.bodyClasses))
      ensures browser.storage == old(browser.storage) && browser.rootClasses == old(browser.rootClasses)
    {
      browser.bodyClasses := browser.bodyClasses - {"theme-hof"};
      if activeTab == "hall-of-fame" {
        browser.bodyClasses := browser.bodyClasses + {"theme-hof"};
      }
    }

    /** Mounting: the initial state, then every effect once, in source order. */
    method Mount(settings: Settings)
      requires activeTab == "home" && theme == Light
      modifies this, browser
      ensures theme == Dark <==> StoredTheme(old(browser.storage)) == Some("dark")
      ensures StoredTheme(browser.storage) == Some(ThemeName(theme))
      ensures "dark" in browser.rootClasses <==> theme == Dark
      ensures WithMarkers(browser.rootClasses, settings) == browser.rootClasses
      ensures "theme-hof" !in browser.bodyClasses
      ensures activeTab == "home" && Route(activeTab) == LandingPage
      ensures isSearchOpen == old(isSearchOpen)
      ensures browser.storage == old(browser.storage)["theme" := ThemeName(theme)]
      ensures forall c :: c != "dark" && c !in SettingsMarkers ==>
        (c in browser.rootClasses <==> c in old(browser.rootClasses))
      ensures forall c :: c != "theme-hof" ==> (c in browser.bodyClasses <==> c in old(browser.bodyClasses))
    {
      InitTheme();
      SyncTheme();
      ApplySettingsClasses(settings);
      MarkersIdempotent(browser.rootClasses, settings);
      SyncHofMarker();
    }
  }
}
