/** The navigation bar (components/Navbar.tsx): which top-level tab is
    highlighted, what tab and logo clicks do, the mobile menu, and the list of
    particles a logo burst adds and later removes. */
module Navigation {
  import opened JsBuiltins
  import opened App

  /** The six tabs the bar shows, in order. */
  const TopLevelTabs: seq<TabID> := ["home", "standings", "schedule", "stats", "legacy", "more"]

  /** Child tabs and the top-level tab that is highlighted for them. */
  const ParentMap: map<TabID, TabID> := map[
    "partner-hub" := "more",
    "rules" := "more",
    "hall-of-fame" := "legacy",
    "league-history" := "legacy",
    "records" := "more",
    "credits" := "more",
    "unknown" := "more"
  ]

  /** The top-level tab highlighted for `tabId`: its table entry, or itself. */
  function ParentTab(tabId: TabID): (parent: TabID)
    ensures tabId in ParentMap ==> parent in TopLevelTabs && parent != tabId
    ensures tabId !in ParentMap ==> parent == tabId
  {
    if tabId in ParentMap then ParentMap[tabId] else tabId
  }

  /** The table, entry by entry. */
  lemma ParentTabTable()
    ensures ParentTab("partner-hub") == "more" && ParentTab("rules") == "more"
    ensures ParentTab("records") == "more" && ParentTab("credits") == "more"
    ensures ParentTab("unknown") == "more"
    ensures ParentTab("hall-of-fame") == "legacy" && ParentTab("league-history") == "legacy"
  {
  }

  /** Every id outside the table, `home` and arbitrary strings included, is its
      own parent; every id inside it has a top-level parent; so looking up a
      parent twice changes nothing. */
  lemma ParentTabFallback(tabId: TabID)
    ensures tabId !in ParentMap ==> ParentTab(tabId) == tabId
    ensures tabId in ParentMap ==> ParentTab(tabId) in TopLevelTabs
    ensures ParentTab(ParentTab(tabId)) == ParentTab(tabId)
  {
  }

  /** `isTabActive`: the top-level tab `tabName` is highlighted. A top-level
      tab that is itself active highlights itself only; a child tab
      highlights its parent only. */
  function IsTabActive(activeTab: TabID, tabName: TabID): (active: bool)
    ensures activeTab in TopLevelTabs ==> (active <==> tabName == activeTab)
    ensures activeTab in ParentMap ==> (active <==> tabName == ParentMap[activeTab])
    ensures activeTab !in TopLevelTabs && activeTab !in ParentMap ==> (active ==> tabName !in TopLevelTabs)
  {
    ParentTab(activeTab) == tabName
  }

  /** At most one top-level tab is highlighted: the parent of the active tab
      when that is a top-level tab, and none otherwise. */
  lemma AtMostOneHighlighted(activeTab: TabID, i: nat, j: nat)
    requires i < |TopLevelTabs| && j < |TopLevelTabs|
    requires IsTabActive(activeTab, TopLevelTabs[i]) && IsTabActive(activeTab, TopLevelTabs[j])
    ensures i == j
  {
  }

  /** The set of highlighted top-level tabs: exactly the parent for a
      top-level tab or a child in the table, and none for any other id. */
  function Highlighted(activeTab: TabID): (h: set<TabID>)
    ensures activeTab in TopLevelTabs || activeTab in ParentMap ==> h == {ParentTab(activeTab)}
    ensures activeTab !in TopLevelTabs && activeTab !in ParentMap ==> h == {}
  {
    var h := set t | t in TopLevelTabs && IsTabActive(activeTab, t);
    assert activeTab !in TopLevelTabs && activeTab !in ParentMap ==> forall t :: t !in h;
    h
  }

  /** The number of particles in a burst, `20 + Math.floor(Math.random() * 11)`,
      where `r` stands for the floored draw. */
  function BurstCount(r: nat): (count: nat)
    requires r <= 10
    ensures 20 <= count <= 30
  {
    20 + r
  }

  /** The random red/grey/white split of the default palette. */
  datatype Shade = Red | Grey | White

  /** Particle colours: gold `#D4AF37`, blue `#3B82F6`, or a shade of the
      default palette (`#D60A07`, `#E4E4E7`, `#FFFFFF`). */
  datatype Colour = Gold | Blue | Default(shade: Shade)

  /** The colour choice of one particle, given the random shade it would get. */
  function ParticleColour(isHOF: bool, rahBizzyTheme: bool, shade: Shade): (c: Colour)
    ensures c == Gold <==> isHOF
    ensures c == Blue <==> !isHOF && rahBizzyTheme
    ensures c.Default? ==> c.shade == shade
  {
    if isHOF then Gold else if rahBizzyTheme then Blue else Default(shade)
  }

  /** Gold on the hall of fame and otherwise blue under the RahBizzy theme,
      whatever the random draws; the random shade only matters outside both. */
  lemma ColourIgnoresDraws(isHOF: bool, rahBizzyTheme: bool, s1: Shade, s2: Shade)
    ensures isHOF ==> ParticleColour(isHOF, rahBizzyTheme, s1) == Gold
    ensures !isHOF && rahBizzyTheme ==> ParticleColour(isHOF, rahBizzyTheme, s1) == Blue
    ensures isHOF || rahBizzyTheme ==> ParticleColour(isHOF, rahBizzyTheme, s1) == ParticleColour(isHOF, rahBizzyTheme, s2)
  {
  }

  /** The particles of `prev` that are not in `batch`, in order: the filter the
      removal callback applies, comparing by identity. */
  function Remaining<T(==)>(prev: seq<T>, batch: seq<T>): (r: seq<T>)
    ensures |r| <= |prev|
  {
    if prev == [] then []
    else (if prev[0] in batch then [] else [prev[0]]) + Remaining(prev[1..], batch)
  }

  /** The filter keeps exactly the elements of `prev` that are not in `batch`. */
  lemma {:induction false} RemainingMembers<T>(prev: seq<T>, batch: seq<T>)
    ensures forall x :: x in Remaining(prev, batch) <==> x in prev && x !in batch
    decreases |prev|
  {
    if prev != [] {
      RemainingMembers(prev[1..], batch);
      RemainingCons(prev[0], prev[1..], batch);
      assert prev == [prev[0]] + prev[1..];
    }
  }

  /** Filtering distributes over concatenation. */
  lemma {:induction false} RemainingAppend<T>(a: seq<T>, b: seq<T>, batch: seq<T>)
    ensures Remaining(a + b, batch) == Remaining(a, batch) + Remaining(b, batch)
    decreases |a|
  {
    if a != [] {
      var t := a[1..];
      var h := if a[0] in batch then [] else [a[0]];
      calc {
        Remaining(a + b, batch);
        == { assert a + b == [a[0]] + (t + b); RemainingCons(a[0], t + b, batch); }
        h + Remaining(t + b, batch);
        == { RemainingAppend(t, b, batch); }
        h + (Remaining(t, batch) + Remaining(b, batch));
        == { assert a == [a[0]] + t; RemainingCons(a[0], t, batch); }
        Remaining(a, batch) + Remaining(b, batch);
      }
    } else {
      assert a + b == b;
    }
  }

  /** Filtering a list with a first element decides that element, then filters the rest. */
  lemma RemainingCons<T>(x: T, s: seq<T>, batch: seq<T>)
    ensures Remaining([x] + s, batch) == (if x in batch then [] else [x]) + Remaining(s, batch)
  {
    assert ([x] + s)[0] == x && ([x] + s)[1..] == s;
  }

  /** Filtering out a batch keeps a list that shares nothing with it unchanged. */
  lemma {:induction false} RemainingDisjoint<T>(s: seq<T>, batch: seq<T>)
    requires forall x :: x in s ==> x !in batch
    ensures Remaining(s, batch) == s
    decreases |s|
  {
    if s != [] {
      RemainingDisjoint(s[1..], batch);
      assert s == [s[0]] + s[1..];
    }
  }

  /** The removal callback of a burst deletes exactly that burst's particles:
      the particles before it and those of later bursts stay, in order. */
  lemma ExpireLeavesOthers<T>(before: seq<T>, batch: seq<T>, after: seq<T>)
    requires forall x :: x in before ==> x !in batch
    requires forall x :: x in after ==> x !in batch
    ensures Remaining(before + batch + after, batch) == before + after
  {
    var front := before + batch;
    RemainingAppend(front, after, batch);
    RemainingAppend(before, batch, batch);
    RemainingDisjoint(before, batch);
    RemainingDisjoint(after, batch);
    RemainingCovered(batch, batch);
    assert Remaining(front, batch) == before;
  }

  /** Filtering out a batch from a list made only of its members leaves nothing. */
  lemma {:induction false} RemainingCovered<T>(s: seq<T>, batch: seq<T>)
    requires forall x :: x in s ==> x in batch
    ensures Remaining(s, batch) == []
    decreases |s|
  {
    if s != [] {
      RemainingCovered(s[1..], batch);
    }
  }

  /** One particle of a burst. Its geometry is left out; removal compares
      particles by identity, as `includes` does. */
  class Particle {
    const id: int
    const colour: Colour

    constructor (id: int, colour: Colour)
      ensures this.id == id && this.colour == colour
    {
      this.id := id;
      this.colour := colour;
    }
  }

  /** The `Navbar` component's own state. The active tab and its setter are
      the `AppContent` passed to each method. */
  class Navbar {
    var isMenuOpen: bool
    var isPopping: bool
    var particles: seq<Particle>

    constructor ()
      ensures !isMenuOpen && !isPopping && particles == []
    {
      isMenuOpen := false;
      isPopping := false;
      particles := [];
    }

    /** The mobile menu button. */
    method ToggleMenu()
      modifies this
      ensures isMenuOpen == !old(isMenuOpen)
      ensures isPopping == old(isPopping) && particles == old(particles)
    {
      isMenuOpen := !isMenuOpen;
    }

    /** `handleTabClick`: switch tab and close the mobile menu. */
    method HandleTabClick(app: AppContent, tabId: TabID)
      modifies this, app
      ensures app.activeTab == tabId && !isMenuOpen
      ensures app.isSearchOpen == old(app.isSearchOpen) && app.theme == old(app.theme)
      ensures isPopping == old(isPopping) && particles == old(particles)
    {
      app.SetActiveTab(tabId);
      isMenuOpen := false;
    }

    /** `triggerBurst`: start the pop and append a batch of `BurstCount(r)` new
        particles after the existing ones. `clock(i)` is the `Date.now()` read
        while particle `i` is made and `shadeOf(i)` the random shade it would
        get. Returns the batch that the delayed removal will filter out. */
    method TriggerBurst(app: AppContent, settings: Settings, r: nat, clock: nat -> int, shadeOf: nat -> Shade)
      returns (batch: seq<Particle>)
      requires r <= 10
      modifies this
      ensures isPopping && isMenuOpen == old(isMenuOpen)
      ensures |batch| == BurstCount(r)
      ensures particles == old(particles) + batch
      ensures forall k :: 0 <= k < |batch| ==>
        fresh(batch[k]) && batch[k].id == clock(k) + k
        && batch[k].colour == ParticleColour(app.activeTab == "hall-of-fame", settings.rahBizzyTheme, shadeOf(k))
      ensures forall j, k :: 0 <= j < k < |batch| ==> batch[j] != batch[k]
    {
      isPopping := true;
      var isHOF := app.activeTab == "hall-of-fame";
      var count := BurstCount(r);
      batch := [];
      var i := 0;
      while i < count
        invariant i <= count && |batch| == i
        invariant forall k :: 0 <= k < i ==>
          fresh(batch[k]) && batch[k].id == clock(k) + k
          && batch[k].colour == ParticleColour(isHOF, settings.rahBizzyTheme, shadeOf(k))
        invariant forall j, k :: 0 <= j < k < i ==> batch[j] != batch[k]
        invariant isPopping && isMenuOpen == old(isMenuOpen) && particles == old(particles)
      {
        var p := new Particle(clock(i) + i, ParticleColour(isHOF, settings.rahBizzyTheme, shadeOf(i)));
        batch := batch + [p];
        i := i + 1;
      }
      particles := particles + batch;
    }

    /** The 150 ms timer of a burst. */
    method EndPop()
      modifies this
      ensures !isPopping
      ensures isMenuOpen == old(isMenuOpen) && particles == old(particles)
    {
      isPopping := false;
    }

    /** The 1250 ms timer of a burst: remove that burst's particles. */
    method ExpireBatch(batch: seq<Particle>)
      modifies this
      ensures particles == Remaining(old(particles), batch)
      ensures isMenuOpen == old(isMenuOpen) && isPopping == old(isPopping)
    {
      particles := Remaining(particles, batch);
    }

    /** `handleLogoClick`: a burst on `home`, otherwise a tab click on `home`.
        A burst from the logo is never gold, since it only happens on `home`. */
    method HandleLogoClick(app: AppContent, settings: Settings, r: nat, clock: nat -> int, shadeOf: nat -> Shade)
      returns (batch: seq<Particle>)
      requires r <= 10
      modifies this, app
      ensures app.activeTab == "home"
      ensures old(app.activeTab) == "home" ==>
        && |batch| == BurstCount(r)
        && particles == old(particles) + batch
        && isPopping && isMenuOpen == old(isMenuOpen)
        && (forall k :: 0 <= k < |batch| ==>
              fresh(batch[k]) && batch[k].id == clock(k) + k
              && batch[k].colour == ParticleColour(false, settings.rahBizzyTheme, shadeOf(k))
              && batch[k].colour != Gold)
        && (forall j, k :: 0 <= j < k < |batch| ==> batch[j] != batch[k])
      ensures old(app.activeTab) != "home" ==>
        batch == [] && particles == old(particles) && !isMenuOpen && isPopping == old(isPopping)
      ensures app.isSearchOpen == old(app.isSearchOpen) && app.theme == old(app.theme)
    {
      if app.activeTab == "home" {
        batch := TriggerBurst(app, settings, r, clock, shadeOf);
      } else {
        HandleTabClick(app, "home");
        batch := [];
      }
    }

    /** A logo burst followed by its own removal callback, with no other
        change to the particles in between, leaves the particles as they were. */
    method LogoBurstExpires(app: AppContent, settings: Settings, r: nat, clock: nat -> int, shadeOf: nat -> Shade)
      requires r <= 10 && app.activeTab == "home"
      modifies this, app
      ensures particles == old(particles)
      ensures app.activeTab == "home"
    {
      var batch := HandleLogoClick(app, settings, r, clock, shadeOf);
      ExpireLeavesOthers(old(particles), batch, []);
      assert old(particles) + batch + [] == particles;
      ExpireBatch(batch);
    }

    /** Two bursts whose lifetimes overlap: when the first one's removal fires,
        exactly the second batch is left behind the earlier particles. */
    method OverlappingBursts(app: AppContent, settings: Settings, r1: nat, r2: nat, clock1: nat -> int, clock2: nat -> int, shadeOf: nat -> Shade)
      returns (second: seq<Particle>)
      requires r1 <= 10 && r2 <= 10
      modifies this
      ensures particles == old(particles) + second && |second| == BurstCount(r2)
    {
      var first := TriggerBurst(app, settings, r1, clock1, shadeOf);
      second := TriggerBurst(app, settings, r2, clock2, shadeOf);
      ExpireLeavesOthers(old(particles), first, second);
      ExpireBatch(first);
    }
  }
}
