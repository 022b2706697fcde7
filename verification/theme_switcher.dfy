/**
 * The theme switcher: configuration checks that throw, the button content
 * choice, and an object that keeps the page's theme class, the stored
 * `siteTheme` entry and the `onThemeChange` calls in step.
 */
module Theming {
  import opened Wrappers
  import opened Js

  /** One configured theme; the optional fields are `undefined` or a string
      (`labelText` is the source's `label`, a reserved word here). */
  datatype Theme = Theme(name: string, labelText: Option<string>, icon: Option<string>, materialIcon: Option<string>)

  /** The errors `validate` throws. */
  datatype ConfigError =
    | TooFewThemes
    | EmptyThemeName
    | IconAndMaterialIcon(theme: string)
    | LabelAndMaterialIcon(theme: string)
    | TooFewPreferredThemes
    | UnknownPreferredTheme(theme: string)

  /** What `validate` does: whether it printed the "more than two preferred
      themes" warning, and the error it threw, if any. */
  datatype Validation = Validation(warned: bool, error: Option<ConfigError>)

  /** A theme the per-theme checks accept. */
  predicate WellFormed(t: Theme) {
    t.name != "" && !(Truthy(t.icon) && Truthy(t.materialIcon)) && !(Truthy(t.labelText) && Truthy(t.materialIcon))
  }

  predicate HasTheme(themes: seq<Theme>, name: string) {
    exists i :: 0 <= i < |themes| && themes[i].name == name
  }

  predicate DistinctNames(themes: seq<Theme>) {
    forall i, j :: 0 <= i < j < |themes| ==> themes[i].name != themes[j].name
  }

  /** The configuration `validate` accepts. */
  predicate ConfigOk(themes: seq<Theme>, preferred: seq<string>) {
    && |themes| >= 2
    && (forall i :: 0 <= i < |themes| ==> WellFormed(themes[i]))
    && |preferred| >= 2
    && (forall k :: 0 <= k < |preferred| ==> HasTheme(themes, preferred[k]))
  }

  /** The body of the `forEach` over themes, for one theme. */
  function ThemeError(t: Theme): (r: Option<ConfigError>)
    ensures r.None? <==> WellFormed(t)
    ensures t.name == "" ==> r == Some(EmptyThemeName)
  {
    if t.name == "" then Some(EmptyThemeName)
    else if Truthy(t.icon) && Truthy(t.materialIcon) then Some(IconAndMaterialIcon(t.name))
    else if Truthy(t.labelText) && Truthy(t.materialIcon) then Some(LabelAndMaterialIcon(t.name))
    else None
  }

  /** The error of the first theme the `forEach` throws on. */
  function FirstThemeError(themes: seq<Theme>): (r: Option<ConfigError>)
    ensures r.None? <==> forall i :: 0 <= i < |themes| ==> WellFormed(themes[i])
    ensures r.Some? ==> exists i :: 0 <= i < |themes| && ThemeError(themes[i]) == r &&
                          forall j :: 0 <= j < i ==> WellFormed(themes[j])
  {
    if |themes| == 0 then None
    else if ThemeError(themes[0]).Some? then ThemeError(themes[0])
    else
      var r := FirstThemeError(themes[1..]);
      assert forall i :: 1 <= i < |themes| ==> themes[i] == themes[1..][i - 1];
      if r.Some? then
        var i :| 0 <= i < |themes[1..]| && ThemeError(themes[1..][i]) == r &&
                 forall j :: 0 <= j < i ==> WellFormed(themes[1..][j]);
        assert ThemeError(themes[i + 1]) == r;
        r
      else r
  }

  /** `themes.find(t => t.name === name)` / `findIndex`: the first index. */
  function IndexOfName(themes: seq<Theme>, name: string): (r: Option<nat>)
    ensures r.None? <==> !HasTheme(themes, name)
    ensures r.Some? ==> r.value < |themes| && themes[r.value].name == name &&
                        forall j :: 0 <= j < r.value ==> themes[j].name != name
  {
    if |themes| == 0 then None
    else if themes[0].name == name then Some(0)
    else
      var r := IndexOfName(themes[1..], name);
      assert forall i :: 1 <= i < |themes| ==> themes[i] == themes[1..][i - 1];
      if r.Some? then Some(r.value + 1) else None
  }

  /** The first preferred theme that names no configured theme. */
  function FirstUnknownPreferred(themes: seq<Theme>, preferred: seq<string>): (r: Option<string>)
    ensures r.None? <==> forall k :: 0 <= k < |preferred| ==> HasTheme(themes, preferred[k])
    ensures r.Some? ==> exists k :: 0 <= k < |preferred| && preferred[k] == r.value &&
                          !HasTheme(themes, r.value) &&
                          forall j :: 0 <= j < k ==> HasTheme(themes, preferred[j])
  {
    if |preferred| == 0 then None
    else if IndexOfName(themes, preferred[0]).None? then Some(preferred[0])
    else
      var r := FirstUnknownPreferred(themes, preferred[1..]);
      assert forall k :: 1 <= k < |preferred| ==> preferred[k] == preferred[1..][k - 1];
      if r.Some? then
        var k :| 0 <= k < |preferred[1..]| && preferred[1..][k] == r.value &&
                 !HasTheme(themes, r.value) &&
                 forall j :: 0 <= j < k ==> HasTheme(themes, preferred[1..][j]);
        assert preferred[k + 1] == r.value;
        r
      else r
  }

  /** `validate`: the checks in the source's order; the first failing one throws. */
  function Validate(themes: seq<Theme>, preferred: seq<string>): (v: Validation)
    ensures v.error.None? <==> ConfigOk(themes, preferred)
    ensures |themes| < 2 ==> v.error == Some(TooFewThemes)
    ensures |themes| >= 2 && v.error.Some? && v.error.value.UnknownPreferredTheme? ==>
              !HasTheme(themes, v.error.value.theme)
    ensures v.warned <==>
              |themes| >= 2 && (forall i :: 0 <= i < |themes| ==> WellFormed(themes[i])) && |preferred| > 2
  {
    if |themes| < 2 then Validation(false, Some(TooFewThemes))
    else
      match FirstThemeError(themes)
      case Some(e) => Validation(false, Some(e))
      case None =>
        if |preferred| < 2 then Validation(false, Some(TooFewPreferredThemes))
        else
          var warned := |preferred| > 2;
          match FirstUnknownPreferred(themes, preferred)
          case Some(p) => Validation(warned, Some(UnknownPreferredTheme(p)))
          case None => Validation(warned, None)
  }

  /** A theme with both an `icon` and a `materialIcon` is refused, whichever
      position it holds, and so is one with both a `label` and a `materialIcon`. */
  lemma {:induction false} ValidateRejectsConflicts(themes: seq<Theme>, preferred: seq<string>, i: nat)
    requires i < |themes|
    requires Truthy(themes[i].materialIcon) && (Truthy(themes[i].icon) || Truthy(themes[i].labelText))
    ensures Validate(themes, preferred).error.Some?
  {
    assert !WellFormed(themes[i]);
  }

  /** The content `updateButton` puts in the button for a theme. */
  function ButtonContent(t: Theme): (html: string)
    ensures Truthy(t.materialIcon) && !(Truthy(t.labelText) && Truthy(t.icon)) ==> html == t.materialIcon.value
    ensures !Truthy(t.materialIcon) && !Truthy(t.labelText) ==> html == "Theme Switcher"
  {
    if Truthy(t.labelText) && Truthy(t.icon) then "<img src=\"" + t.icon.value + "\" alt=\"" + t.labelText.value + "\" />"
    else if Truthy(t.materialIcon) then t.materialIcon.value
    else if Truthy(t.labelText) then t.labelText.value
    else "Theme Switcher"
  }

  /** For a theme that passed `validate`, a `materialIcon` is always what the
      button shows, since it excludes both a label and an icon. */
  lemma WellFormedMaterialIconShown(t: Theme)
    requires WellFormed(t) && Truthy(t.materialIcon)
    ensures ButtonContent(t) == t.materialIcon.value
  {
  }

  /** What one click turns the theme `current` into: the next configured theme,
      cyclically, after the first one named `current`; nothing if none is. */
  function Advance(themes: seq<Theme>, current: string): (next: string)
    ensures !HasTheme(themes, current) ==> next == current
    ensures HasTheme(themes, current) ==> HasTheme(themes, next)
  {
    match IndexOfName(themes, current)
    case None => current
    case Some(i) => themes[(i + 1) % |themes|].name
  }

  /** The theme after `k` clicks. */
  function AdvanceN(themes: seq<Theme>, current: string, k: nat): string
    decreases k
  {
    if k == 0 then current else AdvanceN(themes, Advance(themes, current), k - 1)
  }

  /** Where `(index + 1) % length` lands for an index in range. */
  lemma NextIndex(i: nat, n: nat)
    requires i < n
    ensures (i + 1) % n == if i + 1 < n then i + 1 else 0
  {
    if i + 1 < n {
      assert (i + 1) / n == 0;
    } else {
      assert (i + 1) / n == 1;
    }
  }

  /** With distinct names, a click from the `i`-th theme moves to the next
      one, and from the last one back to the first. */
  lemma {:induction false} AdvanceAt(themes: seq<Theme>, i: nat)
    requires DistinctNames(themes) && i < |themes|
    ensures Advance(themes, themes[i].name) == themes[if i + 1 < |themes| then i + 1 else 0].name
  {
    assert IndexOfName(themes, themes[i].name) == Some(i);
    NextIndex(i, |themes|);
  }

  /** `a + b` clicks are `a` clicks followed by `b` clicks. */
  lemma {:induction false} AdvanceNAdd(themes: seq<Theme>, current: string, a: nat, b: nat)
    ensures AdvanceN(themes, current, a + b) == AdvanceN(themes, AdvanceN(themes, current, a), b)
    decreases a
  {
    if a > 0 {
      AdvanceNAdd(themes, Advance(themes, current), a - 1, b);
    }
  }

  lemma AdvanceNOne(themes: seq<Theme>, current: string)
    ensures AdvanceN(themes, current, 1) == Advance(themes, current)
  {
  }

  /** With distinct names, `k` clicks from the `i`-th theme reach the
      `(i + k)`-th one as long as no wrap-around happens. */
  lemma {:induction false} AdvanceNForward(themes: seq<Theme>, i: nat, k: nat)
    requires DistinctNames(themes) && i + k < |themes|
    ensures AdvanceN(themes, themes[i].name, k) == themes[i + k].name
    decreases k
  {
    if k > 0 {
      AdvanceAt(themes, i);
      AdvanceNForward(themes, i + 1, k - 1);
    }
  }

  /** With distinct names, clicking as many times as there are themes brings
      the theme back to where it started. */
  lemma {:induction false} ClickCycleReturns(themes: seq<Theme>, current: string)
    requires DistinctNames(themes) && HasTheme(themes, current)
    ensures AdvanceN(themes, current, |themes|) == current
  {
    var i :| 0 <= i < |themes| && themes[i].name == current;
    CycleFromIndex(themes, i);
  }

  /** The cycle from the `i`-th theme: to the last one, round to the first,
      and on to the `i`-th again. */
  lemma {:induction false} CycleFromIndex(themes: seq<Theme>, i: nat)
    requires DistinctNames(themes) && i < |themes|
    ensures AdvanceN(themes, themes[i].name, |themes|) == themes[i].name
  {
    var n := |themes|;
    var a, b := n - 1 - i, 1 + i;
    var current, last, first := themes[i].name, themes[n - 1].name, themes[0].name;
    AdvanceNForward(themes, i, a);
    assert AdvanceN(themes, current, a) == last;
    AdvanceAt(themes, n - 1);
    AdvanceNOne(themes, last);
    assert AdvanceN(themes, last, 1) == first;
    AdvanceNForward(themes, 0, i);
    AdvanceNAdd(themes, last, 1, i);
    assert AdvanceN(themes, last, b) == current;
    AdvanceNAdd(themes, current, a, b);
    assert a + b == n;
  }

  /** Four themes in which the name "light" occurs twice. */
  const DuplicateThemes: seq<Theme> :=
    [Theme("light", None, None, None), Theme("dark", None, None, None),
     Theme("light", None, None, None), Theme("blue", None, None, None)]

  /** `validate` does not require distinct names, and `findIndex` stops at the
      first match: with `DuplicateThemes`, clicking from light or dark only
      ever alternates between the two, so blue is never reached. */
  lemma {:induction false} DuplicateNameHidesLaterThemes(current: string, k: nat)
    requires current == "light" || current == "dark"
    ensures AdvanceN(DuplicateThemes, current, k) != "blue"
    ensures AdvanceN(DuplicateThemes, current, k) == "light" || AdvanceN(DuplicateThemes, current, k) == "dark"
    decreases k
  {
    if k > 0 {
      assert IndexOfName(DuplicateThemes, "light") == Some(0);
      assert IndexOfName(DuplicateThemes, "dark") == Some(1);
      var next := Advance(DuplicateThemes, current);
      assert next == (if current == "light" then "dark" else "light");
      DuplicateNameHidesLaterThemes(next, k - 1);
    }
  }

  /** A name repeated at index `j` after its first occurrence at `i`: a click
      from it always continues after the first occurrence, never after the
      repeat, so the theme at `j + 1` is reached that way only if it carries
      the same name as the theme at `i + 1`. */
  lemma RepeatContinuesAfterFirst(themes: seq<Theme>, i: nat, j: nat)
    requires i < j < |themes| && themes[i].name == themes[j].name
    requires forall k :: 0 <= k < i ==> themes[k].name != themes[i].name
    ensures Advance(themes, themes[j].name) == themes[(i + 1) % |themes|].name
  {
    var r := IndexOfName(themes, themes[j].name);
    assert r.Some?;
    assert r.value == i;
  }

  /** The configuration shipped with the site (materialIcon only) is accepted. */
  lemma ShippedConfigAccepted()
    ensures Validate([Theme("light", None, None, Some("light_mode")), Theme("dark", None, None, Some("dark_mode"))],
                     ["light", "dark"]) == Validation(false, None)
  {
    var themes := [Theme("light", None, None, Some("light_mode")), Theme("dark", None, None, Some("dark_mode"))];
    assert themes[0].name == "light" && themes[1].name == "dark";
  }

  /**
   * The switcher object. The configuration is fixed at construction; the
   * mutable fields stand for the page state the source touches:
   * `document.documentElement.className`, the `siteTheme` entry of
   * localStorage, the button's innerHTML, and the sequence of arguments
   * `onThemeChange` has been called with.
   */
  class ThemeSwitcher {
    const themes: seq<Theme>
    const preferredThemes: seq<string>
    const hasButton: bool
    var className: string
    var storedTheme: Option<string>
    var buttonHtml: string
    var notified: seq<string>

    ghost predicate Valid() {
      ConfigOk(themes, preferredThemes)
    }

    /** The constructor, once `validate` has passed; `Create` models the throw. */
    constructor (themes: seq<Theme>, preferredThemes: seq<string>, hasButton: bool,
                 className: string, storedTheme: Option<string>, buttonHtml: string)
      requires Validate(themes, preferredThemes).error.None?
      ensures Valid()
      ensures this.themes == themes && this.preferredThemes == preferredThemes && this.hasButton == hasButton
      ensures this.className == className && this.storedTheme == storedTheme
      ensures this.buttonHtml == buttonHtml && notified == []
    {
      this.themes := themes;
      this.preferredThemes := preferredThemes;
      this.hasButton := hasButton;
      this.className := className;
      this.storedTheme := storedTheme;
      this.buttonHtml := buttonHtml;
      notified := [];
    }

    /** `new ThemeSwitcher(...)`: throws the error `validate` throws. */
    static method Create(themes: seq<Theme>, preferredThemes: seq<string>, hasButton: bool,
                         className: string, storedTheme: Option<string>, buttonHtml: string)
      returns (r: Result<ThemeSwitcher, ConfigError>)
      ensures r.Failure? <==> !ConfigOk(themes, preferredThemes)
      ensures r.Failure? ==> Some(r.error) == Validate(themes, preferredThemes).error
      ensures r.Success? ==> fresh(r.value) && r.value.Valid() && r.value.themes == themes &&
                             r.value.preferredThemes == preferredThemes && r.value.hasButton == hasButton &&
                             r.value.className == className && r.value.storedTheme == storedTheme &&
                             r.value.buttonHtml == buttonHtml && r.value.notified == []
    {
      var v := Validate(themes, preferredThemes);
      if v.error.Some? {
        return Failure(v.error.value);
      }
      var s := new ThemeSwitcher(themes, preferredThemes, hasButton, className, storedTheme, buttonHtml);
      return Success(s);
    }

    /** `setTheme`: only a configured name takes effect. */
    method SetTheme(theme: string)
      modifies this`className, this`storedTheme, this`notified
      ensures HasTheme(themes, theme) ==>
                className == theme && storedTheme == Some(theme) && notified == old(notified) + [theme]
      ensures !HasTheme(themes, theme) ==>
                className == old(className) && storedTheme == old(storedTheme) && notified == old(notified)
    {
      if IndexOfName(themes, theme).Some? {
        className := theme;
        storedTheme := Some(theme);
        notified := notified + [theme];
      }
    }

    /** `preferredTheme`: the second preferred theme when the dark scheme
        matches, the first otherwise; always a configured theme. */
    function PreferredTheme(prefersDark: bool): (t: string)
      requires Valid()
      ensures t == preferredThemes[if prefersDark then 1 else 0]
      ensures HasTheme(themes, t)
    {
      if prefersDark then preferredThemes[1] else preferredThemes[0]
    }

    /** `updateButton`: show the current theme, if the button exists and the
        current class names a configured theme. */
    method UpdateButton()
      modifies this`buttonHtml
      ensures buttonHtml == match IndexOfName(themes, className)
                            case Some(i) => if hasButton then ButtonContent(themes[i]) else old(buttonHtml)
                            case None => old(buttonHtml)
    {
      if hasButton {
        var i := IndexOfName(themes, className);
        if i.Some? {
          buttonHtml := ButtonContent(themes[i.value]);
        }
      }
    }

    /** `init` (without the listener registration, which `Click` models):
        the stored theme when it is truthy, otherwise the preferred one. */
    method Init(prefersDark: bool)
      requires Valid()
      modifies this`className, this`storedTheme, this`notified, this`buttonHtml
      ensures var chosen := if Truthy(old(storedTheme)) then old(storedTheme).value else PreferredTheme(prefersDark);
              && (HasTheme(themes, chosen) ==>
                    className == chosen && storedTheme == Some(chosen) && notified == old(notified) + [chosen])
              && (!HasTheme(themes, chosen) ==>
                    className == old(className) && storedTheme == old(storedTheme) && notified == old(notified))
      ensures !Truthy(old(storedTheme)) ==> className == PreferredTheme(prefersDark)
      ensures buttonHtml == match IndexOfName(themes, className)
                            case Some(i) => if hasButton then ButtonContent(themes[i]) else old(buttonHtml)
                            case None => old(buttonHtml)
    {
      var theme := storedTheme;
      if Truthy(theme) {
        SetTheme(theme.value);
      } else {
        SetTheme(PreferredTheme(prefersDark));
      }
      UpdateButton();
    }

    /** The click listener `init` registers on the button. */
    method Click()
      requires hasButton
      modifies this`className, this`storedTheme, this`notified, this`buttonHtml
      ensures className == Advance(themes, old(className))
      ensures HasTheme(themes, old(className)) ==>
                storedTheme == Some(className) && notified == old(notified) + [className] &&
                buttonHtml == ButtonContent(themes[IndexOfName(themes, className).value])
      ensures !HasTheme(themes, old(className)) ==>
                storedTheme == old(storedTheme) && notified == old(notified) && buttonHtml == old(buttonHtml)
    {
      var index := IndexOfName(themes, className);
      if index.Some? {
        SetTheme(themes[(index.value + 1) % |themes|].name);
        UpdateButton();
      }
    }
  }
}
