/**
 * The localized router class of router.ts: argument checks, language
 * resolution from the stored preference or the browser's languages, the
 * language-prefixed `pushState`, and the application of a language file to
 * the elements carrying `data-lang-id`.
 */
module LangRouter {
  import opened Wrappers
  import opened Js

  datatype Route = Route(route: string, component: string, script: Option<bool>)
  datatype Language = Language(language: string, image: string)

  /** One entry of a language file. */
  datatype LangEntry = LangEntry(content: Option<string>, ariaLabel: Option<string>)

  /** An element selected by `[data-lang-id]`: its attribute value, its
      innerHTML and its `aria-label` attribute. */
  datatype LangElement = LangElement(langId: string, innerHtml: string, ariaLabel: Option<string>)

  /** The errors the constructor throws. */
  datatype RouterError =
    | RootElementIdRequired
    | RoutesRequired
    | DefaultRouteRequired
    | RouterLinksRequired
    | DefaultLanguageRequired
    | LanguageSwitcherClassRequired

  /** The constructor's checks, in order: the first failing one is thrown.
      An array is always truthy, so `languages` counts as given whenever it
      is not `undefined`, even when empty. */
  function CheckArguments(rootElementId: string, routes: Option<seq<Route>>, defaultRoute: string,
                          routerLinkClass: string, languages: Option<seq<Language>>,
                          defaultLanguage: Option<string>, languageSwitcherClass: Option<string>): (r: Option<RouterError>)
    ensures r.None? <==>
      rootElementId != "" && routes.Some? && defaultRoute != "" && routerLinkClass != "" &&
      (languages.Some? ==> Truthy(defaultLanguage) && Truthy(languageSwitcherClass))
    ensures rootElementId == "" ==> r == Some(RootElementIdRequired)
    ensures r == Some(DefaultLanguageRequired) ==> languages.Some? && !Truthy(defaultLanguage)
    ensures r == Some(LanguageSwitcherClassRequired) ==> languages.Some? && !Truthy(languageSwitcherClass)
  {
    if rootElementId == "" then Some(RootElementIdRequired)
    else if routes.None? then Some(RoutesRequired)
    else if defaultRoute == "" then Some(DefaultRouteRequired)
    else if routerLinkClass == "" then Some(RouterLinksRequired)
    else if languages.Some? && !Truthy(defaultLanguage) then Some(DefaultLanguageRequired)
    else if languages.Some? && !Truthy(languageSwitcherClass) then Some(LanguageSwitcherClassRequired)
    else None
  }

  /** `code.split("-")[0]`: everything before the first hyphen, which for a
      language tag is its primary language subtag (section 2.2.1 of RFC 5646). */
  function PrimarySubtag(tag: string): (code: string)
    ensures code <= tag
    ensures forall k :: 0 <= k < |code| ==> code[k] != '-'
    ensures |code| < |tag| ==> tag[|code|] == '-'
  {
    if |tag| == 0 || tag[0] == '-' then ""
    else [tag[0]] + PrimarySubtag(tag[1..])
  }

  predicate Supported(languages: seq<Language>, code: string) {
    exists j :: 0 <= j < |languages| && languages[j].language == code
  }

  /** The language `_getPreferredLanguage` settles on: the primary subtag of
      the earliest browser language that some configured language equals.
      Browser order decides, not configuration order. */
  function FirstMatch(languages: seq<Language>, browserLanguages: seq<string>): (r: Option<string>)
    ensures r.None? <==> forall i :: 0 <= i < |browserLanguages| ==> !Supported(languages, PrimarySubtag(browserLanguages[i]))
    ensures r.Some? ==> Supported(languages, r.value)
    ensures r.Some? ==>
              exists i :: 0 <= i < |browserLanguages| && PrimarySubtag(browserLanguages[i]) == r.value &&
                forall h :: 0 <= h < i ==> !Supported(languages, PrimarySubtag(browserLanguages[h]))
  {
    if |browserLanguages| == 0 then None
    else if Supported(languages, PrimarySubtag(browserLanguages[0])) then Some(PrimarySubtag(browserLanguages[0]))
    else
      var b := browserLanguages;
      var r := FirstMatch(languages, b[1..]);
      assert forall i :: 1 <= i < |b| ==> b[i] == b[1..][i - 1];
      if r.Some? then
        var i :| 0 <= i < |b[1..]| && PrimarySubtag(b[1..][i]) == r.value &&
                 forall h :: 0 <= h < i ==> !Supported(languages, PrimarySubtag(b[1..][h]));
        assert PrimarySubtag(b[i + 1]) == r.value;
        r
      else r
  }

  /** `_getPreferredLanguage`: the nested search over the browser's languages
      and, for each, the configured ones. */
  method GetPreferredLanguage(languages: Option<seq<Language>>, browserLanguages: seq<string>) returns (r: Option<string>)
    ensures languages.None? ==> r.None?
    ensures languages.Some? ==> r == FirstMatch(languages.value, browserLanguages)
  {
    if languages.Some? {
      var langs := languages.value;
      var i := 0;
      while i < |browserLanguages|
        invariant 0 <= i <= |browserLanguages|
        invariant FirstMatch(langs, browserLanguages) == FirstMatch(langs, browserLanguages[i..])
      {
        var languageCode := PrimarySubtag(browserLanguages[i]);
        var j := 0;
        while j < |langs|
          invariant 0 <= j <= |langs|
          invariant forall k :: 0 <= k < j ==> langs[k].language != languageCode
        {
          if languageCode == langs[j].language {
            return Some(langs[j].language);
          }
          j := j + 1;
        }
        assert browserLanguages[i..][1..] == browserLanguages[i + 1..];
        i := i + 1;
      }
    }
    return None;
  }

  /** The current language the constructor settles on before `_setLanguage`:
      `undefined` without languages; otherwise the browser match when nothing
      is stored, else `stored || defaultLanguage`. */
  function ResolvedLanguage(languages: Option<seq<Language>>, defaultLanguage: Option<string>,
                            stored: Option<string>, browserLanguages: seq<string>): (r: Option<string>)
    ensures languages.None? ==> r.None?
    ensures languages.Some? && Truthy(stored) ==> r == stored
    ensures languages.Some? && !Truthy(stored) ==>
              (r.None? <==> forall i :: 0 <= i < |browserLanguages| ==> !Supported(languages.value, PrimarySubtag(browserLanguages[i])))
    ensures languages.Some? && !Truthy(stored) && r.Some? ==> Supported(languages.value, r.value)
  {
    if languages.None? then None
    else if !Truthy(stored) then FirstMatch(languages.value, browserLanguages)
    else Or(stored, defaultLanguage)
  }

  /** A truthy stored preference always wins, so the `|| defaultLanguage`
      fallback of the second branch never applies; and with nothing stored and
      no matching browser language, the language stays `undefined` rather than
      falling back to the default. */
  lemma ResolvedLanguageCases(languages: seq<Language>, defaultLanguage: Option<string>,
                              stored: Option<string>, browserLanguages: seq<string>)
    ensures Truthy(stored) ==> ResolvedLanguage(Some(languages), defaultLanguage, stored, browserLanguages) == stored
    ensures !Truthy(stored) && (forall i :: 0 <= i < |browserLanguages| ==> !Supported(languages, PrimarySubtag(browserLanguages[i]))) ==>
              ResolvedLanguage(Some(languages), defaultLanguage, stored, browserLanguages).None?
  {
  }

  /** Browser order wins: when the first browser language matches the second
      configured language and the second matches the first, the first browser
      language is chosen. */
  lemma BrowserOrderWins(languages: seq<Language>, browserLanguages: seq<string>)
    requires |languages| >= 2 && |browserLanguages| >= 2
    requires PrimarySubtag(browserLanguages[0]) == languages[1].language
    requires PrimarySubtag(browserLanguages[1]) == languages[0].language
    ensures FirstMatch(languages, browserLanguages) == Some(languages[1].language)
  {
    assert Supported(languages, PrimarySubtag(browserLanguages[0]));
  }

  /** `"/" + language + route` with JavaScript's string conversion of
      `undefined`. */
  function PrefixedUrl(language: Option<string>, route: string): (url: string)
    ensures |url| >= 1 + |route| && url[0] == '/'
    ensures url[|url| - |route|..] == route
    ensures url[1..|url| - |route|] == match language case Some(l) => l case None => "undefined"
  {
    "/" + (match language case Some(l) => l case None => "undefined") + route
  }

  /** An element once its language entry has been applied: content only when
      the entry has truthy `content`, `aria-label` only when it has truthy
      `ariaLabel`. */
  function ApplyEntry(e: LangElement, entry: LangEntry): (e': LangElement)
    ensures e'.langId == e.langId
    ensures e'.innerHtml == if Truthy(entry.content) then entry.content.value else e.innerHtml
    ensures e'.ariaLabel == if Truthy(entry.ariaLabel) then entry.ariaLabel else e.ariaLabel
  {
    var withContent := if Truthy(entry.content) then e.(innerHtml := entry.content.value) else e;
    if Truthy(entry.ariaLabel) then withContent.(ariaLabel := entry.ariaLabel) else withContent
  }

  /** What the `forEach` body does to one element: an empty `data-lang-id`
      is skipped. */
  function Translate(e: LangElement, file: map<string, LangEntry>): (e': LangElement)
    requires e.langId != "" ==> e.langId in file
    ensures e'.langId == e.langId
    ensures e.langId == "" ==> e' == e
    ensures e.langId != "" && Truthy(file[e.langId].content) ==> e'.innerHtml == file[e.langId].content.value
    ensures e.langId != "" && Truthy(file[e.langId].ariaLabel) ==> e'.ariaLabel == file[e.langId].ariaLabel
    ensures e.langId != "" && !Truthy(file[e.langId].content) ==> e'.innerHtml == e.innerHtml
    ensures e.langId != "" && !Truthy(file[e.langId].ariaLabel) ==> e'.ariaLabel == e.ariaLabel
  {
    if e.langId == "" then e else ApplyEntry(e, file[e.langId])
  }

  /** Translating an element twice with the same file is translating it once. */
  lemma TranslateIdempotent(e: LangElement, file: map<string, LangEntry>)
    requires e.langId != "" ==> e.langId in file
    ensures Translate(Translate(e, file), file) == Translate(e, file)
  {
  }

  /** An element whose key has no entry: reading `.content` of `undefined`
      throws a TypeError there. */
  predicate Missing(e: LangElement, file: map<string, LangEntry>) {
    e.langId != "" && e.langId !in file
  }

  /** The index of the first element whose key is missing, or the length. */
  function FirstMissing(elements: seq<LangElement>, file: map<string, LangEntry>): (stop: nat)
    ensures stop <= |elements|
    ensures forall k :: 0 <= k < stop ==> !Missing(elements[k], file)
    ensures stop < |elements| ==> Missing(elements[stop], file)
  {
    if |elements| == 0 then 0
    else if Missing(elements[0], file) then 0
    else
      var rest := FirstMissing(elements[1..], file);
      assert forall k :: 1 <= k < |elements| ==> elements[k] == elements[1..][k - 1];
      1 + rest
  }

  /**
   * The router object. Configuration fields are fixed at construction; the
   * mutable ones are the router's own state plus the browser state it
   * touches: the `siteLanguage` entry of localStorage, the URLs pushed onto
   * the history, and `window.location.pathname`.
   */
  class Router {
    const rootElementId: string
    const routes: seq<Route>
    const defaultRoute: string
    const routerLinkClass: string
    const languages: Option<seq<Language>>
    const defaultLanguage: Option<string>
    const languageSwitcherClass: Option<string>
    var currentRoute: string
    var currentLanguage: Option<string>
    var languageFile: Option<map<string, LangEntry>>
    var storedLanguage: Option<string>
    var history: seq<string>
    var pathname: string

    /** The state the constructor leaves: the configuration as given (the
        language fields only with languages), no language file yet, the
        current route the page's path, the resolved language current, and,
        when that language is truthy, stored and its prefixed URL pushed. */
    ghost predicate Built(rootElementId: string, routes: Option<seq<Route>>, defaultRoute: string,
                          routerLinkClass: string, languages: Option<seq<Language>>,
                          defaultLanguage: Option<string>, languageSwitcherClass: Option<string>,
                          pathname: string, stored: Option<string>, browserLanguages: seq<string>, history: seq<string>)
      reads this
    {
      && this.rootElementId == rootElementId && this.routerLinkClass == routerLinkClass
      && routes.Some? && this.routes == routes.value && this.defaultRoute == defaultRoute
      && this.languages == languages
      && this.defaultLanguage == (if languages.Some? then defaultLanguage else None)
      && this.languageSwitcherClass == (if languages.Some? then languageSwitcherClass else None)
      && languageFile.None?
      && var lang := ResolvedLanguage(languages, defaultLanguage, stored, browserLanguages);
         && currentLanguage == lang
         && currentRoute == pathname
         && (Truthy(lang) ==>
               storedLanguage == lang && this.history == history + [PrefixedUrl(lang, pathname)] &&
               this.pathname == PrefixedUrl(lang, pathname))
         && (!Truthy(lang) ==>
               storedLanguage == stored && this.history == history && this.pathname == pathname)
    }

    /** The constructor after its checks have passed (`Create` models the
        throw). `pathname`, `stored` and `browserLanguages` are
        `window.location.pathname`, localStorage's `siteLanguage` and
        `navigator.languages`. The language file arrives later, see
        `LanguageFileLoaded`. */
    constructor (rootElementId: string, routes: Option<seq<Route>>, defaultRoute: string,
                 routerLinkClass: string, languages: Option<seq<Language>>,
                 defaultLanguage: Option<string>, languageSwitcherClass: Option<string>,
                 pathname: string, stored: Option<string>, browserLanguages: seq<string>, history: seq<string>)
      requires CheckArguments(rootElementId, routes, defaultRoute, routerLinkClass,
                              languages, defaultLanguage, languageSwitcherClass).None?
      ensures Built(rootElementId, routes, defaultRoute, routerLinkClass, languages, defaultLanguage,
                    languageSwitcherClass, pathname, stored, browserLanguages, history)
    {
      this.rootElementId := rootElementId;
      this.routes := routes.value;
      this.defaultRoute := defaultRoute;
      this.routerLinkClass := routerLinkClass;
      if languages.Some? && Truthy(defaultLanguage) && Truthy(languageSwitcherClass) {
        this.languages := languages;
        this.defaultLanguage := defaultLanguage;
        this.languageSwitcherClass := languageSwitcherClass;
        currentLanguage := defaultLanguage;
      } else {
        this.languages := None;
        this.defaultLanguage := None;
        this.languageSwitcherClass := None;
        currentLanguage := None;
      }
      currentRoute := pathname;
      languageFile := None;
      storedLanguage := stored;
      this.history := history;
      this.pathname := pathname;
      new;
      if this.languages.Some? && !Truthy(storedLanguage) {
        currentLanguage := GetPreferredLanguage(this.languages, browserLanguages);
      } else if this.languages.Some? && Truthy(storedLanguage) {
        currentLanguage := Or(storedLanguage, this.defaultLanguage);
      }
      if Truthy(currentLanguage) {
        SetLanguage(currentLanguage.value);
      }
    }

    /** `new Router(...)`: throws the first failing check. */
    static method Create(rootElementId: string, routes: Option<seq<Route>>, defaultRoute: string,
                         routerLinkClass: string, languages: Option<seq<Language>>,
                         defaultLanguage: Option<string>, languageSwitcherClass: Option<string>,
                         pathname: string, stored: Option<string>, browserLanguages: seq<string>, history: seq<string>)
      returns (r: Result<Router, RouterError>)
      ensures r.Failure? ==> Some(r.error) == CheckArguments(rootElementId, routes, defaultRoute, routerLinkClass,
                                                             languages, defaultLanguage, languageSwitcherClass)
      ensures r.Success? <==> CheckArguments(rootElementId, routes, defaultRoute, routerLinkClass,
                                             languages, defaultLanguage, languageSwitcherClass).None?
      ensures r.Success? ==> fresh(r.value)
      ensures r.Success? ==>
                r.value.Built(rootElementId, routes, defaultRoute, routerLinkClass, languages, defaultLanguage,
                              languageSwitcherClass, pathname, stored, browserLanguages, history)
    {
      var err := CheckArguments(rootElementId, routes, defaultRoute, routerLinkClass,
                                languages, defaultLanguage, languageSwitcherClass);
      if err.Some? {
        return Failure(err.value);
      }
      var router := new Router(rootElementId, routes, defaultRoute, routerLinkClass, languages,
                               defaultLanguage, languageSwitcherClass, pathname, stored, browserLanguages, history);
      return Success(router);
    }

    /** `_setLanguage`, up to its first `await`: with languages configured,
        store the language, make it current and re-navigate to the current
        path under the new prefix. */
    method SetLanguage(language: string)
      modifies this`storedLanguage, this`currentLanguage, this`history, this`pathname, this`currentRoute
      ensures languages.Some? ==>
        && storedLanguage == Some(language) && currentLanguage == Some(language)
        && history == old(history) + [PrefixedUrl(Some(language), old(pathname))]
        && pathname == PrefixedUrl(Some(language), old(pathname))
        && currentRoute == old(pathname)
      ensures languages.None? ==>
        && storedLanguage == old(storedLanguage) && currentLanguage == old(currentLanguage)
        && history == old(history) && pathname == old(pathname) && currentRoute == old(currentRoute)
    {
      if languages.Some? {
        storedLanguage := Some(language);
        currentLanguage := Some(language);
        NavigateTo(pathname);
      }
    }

    /** The continuation of `_setLanguage` once the language file's JSON has
        been fetched and parsed. */
    method LanguageFileLoaded(file: map<string, LangEntry>)
      modifies this`languageFile
      ensures languageFile == Some(file)
    {
      languageFile := Some(file);
    }

    /** `_navigateTo`: push the language-prefixed URL, remember the bare route. */
    method NavigateTo(route: string)
      modifies this`history, this`pathname, this`currentRoute
      ensures history == old(history) + [PrefixedUrl(currentLanguage, route)]
      ensures pathname == PrefixedUrl(currentLanguage, route)
      ensures currentRoute == route
    {
      var url := PrefixedUrl(currentLanguage, route);
      history := history + [url];
      pathname := url;
      currentRoute := route;
    }

    /** `_setupLanguage` over the elements carrying `data-lang-id`, in
        document order. Without a language file nothing happens. Otherwise
        each element is translated until one whose key the file lacks, where
        the TypeError stops the loop (`threw`); elements after it keep their
        state. */
    method SetupLanguage(elements: array<LangElement>) returns (threw: bool)
      modifies elements
      ensures languageFile.None? ==> !threw && elements[..] == old(elements[..])
      ensures languageFile.Some? ==>
        var stop := FirstMissing(old(elements[..]), languageFile.value);
        && (threw <==> stop < elements.Length)
        && (forall k :: 0 <= k < stop ==> elements[k] == Translate(old(elements[k]), languageFile.value))
        && (forall k :: stop <= k < elements.Length ==> elements[k] == old(elements[k]))
    {
      threw := false;
      if languageFile.Some? {
        var file := languageFile.value;
        ghost var stop := FirstMissing(elements[..], file);
        var i := 0;
        while i < elements.Length
          invariant 0 <= i <= stop
          invariant forall k :: 0 <= k < i ==> elements[k] == Translate(old(elements[k]), file)
          invariant forall k :: i <= k < elements.Length ==> elements[k] == old(elements[k])
        {
          var e := elements[i];
          if e.langId != "" {
            if e.langId !in file {
              threw := true;
              return;
            }
            elements[i] := ApplyEntry(e, file[e.langId]);
          }
          i := i + 1;
        }
      }
    }
  }

  /** The router the script constructs for the site: its arguments pass. */
  lemma ShippedArgumentsAccepted()
    ensures CheckArguments("root", Some([Route("/home", "home/home", None)]), "/home", "routerLink",
                           Some([Language("da", "da.svg"), Language("en", "en.svg")]),
                           Some("da"), Some("languageSwitcher")).None?
  {
  }
}
