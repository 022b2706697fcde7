# Wishlist app: validators, theme switcher, routers, API guard chains, form checks

This project models, in Dafny, the parts of the wishlist web application that
make decisions rather than move data:

- the two copies of the input validators (server `Validate.number/name/date`,
  browser `Validate.id/name/date`) as predicates over JavaScript values, with
  `Number()` and `Date.parse` left uninterpreted (module `Js`, `Runtime`);
- the theme switcher: the configuration check that throws, the button-content
  choice, and a `ThemeSwitcher` class whose fields are the page state it
  changes (the root element's class, the stored `siteTheme`, the button's
  content, the `onThemeChange` calls);
- the localized router of `router.ts` as a class: its argument checks, the
  resolution of the current language from the stored preference or the
  browser's languages (primary subtag before the first `-`), the
  language-prefixed `pushState`, and the application of a language file to the
  `data-lang-id` elements;
- the simple router of `router.js` as a class: exact-name route lookup with no
  default fallback, `navigate`, and nav-link clicks;
- the `/ping` and `/wishlists` handlers of the API server as decision
  functions over the outcomes of the database calls (`None` for `undefined`),
  recording which calls were made and the one reply sent, plus `sendResponse`;
- the `validateForm` loops of the wishlist and wish forms, as methods over an
  array of labels.

Verify all files together with `dafny verify *.dfy`.

Where the design description and the code disagree, the model follows the code:

- `router.js` does not fall back to the default route when no route name
  matches; it fetches nothing (`BasicRouter.ShippedDefaultRendersNothing`
  shows that the shipped default `"home"` matches none of the shipped names).
- `router.ts` does not fall back to the default language when nothing is
  stored and no browser language matches: the current language stays
  `undefined` (`LangRouter.ResolvedLanguageCases`). It does not read a
  language from the URL either. The `|| this._defaultLanguage` at
  router.ts:98 can never apply, because that branch already requires the
  stored value to be truthy.
- A failed existence check (`undefined`) in `api/src/index.ts` gives 404, not
  500, because the handler negates it (`Api.UndefinedExistsIsNotFound`).
- The browser's `id` accepts the empty string whenever `Number("")` is not NaN
  (it is 0 in JavaScript), while the server's `number` rejects it
  (`ClientValidate.IdDriftsFromNumber`).
- `validate` in the theme switcher does not require distinct theme names. A
  click from a repeated name always continues after its first occurrence,
  never after the repeat (`Theming.RepeatContinuesAfterFirst`); with the
  themes light, dark, light, blue, clicks from light or dark therefore never
  reach blue (`Theming.DuplicateNameHidesLaterThemes`). The return-after-n-clicks
  property holds only for distinct names (`Theming.ClickCycleReturns`).
- `assets/ts/wish.ts` calls `validate.number` and `validate.link`, which the
  browser's `Validate` class does not define. The model takes these two
  checks as parameters of `WishForm.ValidateForm`.

## Model

| member | source | states |
|---|---|---|
| Js.TypeOf | api/src/validate.ts:14-16 | `typeof` is "string" exactly for strings and "number" exactly for numbers |
| Js.Or | router.ts:98 | `a \|\| b` on optional strings is one of its operands, is truthy iff either operand is, and keeps a truthy left operand |
| Js.TestMetaChars | api/src/validate.ts:58 | the regex test is true iff some character is one of `' " ; < >` |
| ServerValidate.Number | api/src/validate.ts:12-36 | true for every number; false for "" and every non-string non-number; for a non-empty string, true iff `Number(v)` is not NaN |
| ServerValidate.Name | api/src/validate.ts:44-65 | true iff the value is a non-empty string with none of `' " ; < >`; false for any non-string |
| ServerValidate.Date | api/src/validate.ts:73-100 | true iff `name` holds and `Date.parse` is not NaN; so it implies `name` and is false when the parse is NaN |
| ClientValidate.Id | assets/ts/validate.ts:12-27 | true for every number; for a string, true iff `Number(v)` is not NaN (no empty-string guard); false otherwise |
| ClientValidate.Name | assets/ts/validate.ts:35-56 | true iff the value is a non-empty string with none of `' " ; < >` |
| ClientValidate.Date | assets/ts/validate.ts:64-91 | implies `name`; false when `Date.parse` is NaN |
| ClientValidate.SameNameAndDate | assets/ts/validate.ts:35-91 | the client `name` and `date` agree with the server's on every value |
| ClientValidate.IdDriftsFromNumber | assets/ts/validate.ts:20-23 | the server `number` implies the client `id`; they differ exactly on "" when `Number("")` is not NaN |
| Theming.ThemeError | assets/ts/themeSwitcher.ts:95-108 | a theme raises no error iff its name is non-empty and it does not combine `materialIcon` with `icon` or with `label` |
| Theming.FirstThemeError | assets/ts/themeSwitcher.ts:95-108 | no error iff every theme is well formed; an error is that of the first ill-formed theme |
| Theming.IndexOfName | assets/ts/themeSwitcher.ts:137 | `findIndex` (and `find` at line 51) by name: the first index with that name, or none iff no theme has it |
| Theming.FirstUnknownPreferred | assets/ts/themeSwitcher.ts:116-120 | none iff every preferred theme names a configured theme; otherwise the first that does not |
| Theming.Validate | assets/ts/themeSwitcher.ts:91-121 | throws nothing iff there are at least two themes, all well formed, at least two preferred themes, all configured; fewer than two themes throws that error; more than two preferred themes only warns |
| Theming.ValidateRejectsConflicts | assets/ts/themeSwitcher.ts:99-107 | a theme with `materialIcon` and either `icon` or `label`, at any position, makes `validate` throw |
| Theming.ButtonContent | assets/ts/themeSwitcher.ts:76-84 | a `materialIcon` is shown unless both `label` and `icon` are set; with none of `materialIcon` and `label`, the text "Theme Switcher" |
| Theming.WellFormedMaterialIconShown | assets/ts/themeSwitcher.ts:76-84 | for a theme that passed `validate`, a `materialIcon` is exactly what the button shows |
| Theming.Advance | assets/ts/themeSwitcher.ts:136-141 | a click leaves an unconfigured current theme alone and moves a configured one to a configured one |
| Theming.AdvanceNAdd | assets/ts/themeSwitcher.ts:136-141 | `a + b` clicks are `a` clicks followed by `b` clicks |
| Theming.AdvanceNForward | assets/ts/themeSwitcher.ts:137-139 | with distinct names, `k` clicks from theme `i` reach theme `i + k` when no wrap-around happens |
| Theming.CycleFromIndex | assets/ts/themeSwitcher.ts:137-139 | with distinct names, `n` clicks from theme `i` come back to theme `i` |
| Theming.ClickCycleReturns | assets/ts/themeSwitcher.ts:136-141 | with distinct names, `n` clicks from any configured theme return to it |
| Theming.RepeatContinuesAfterFirst | assets/ts/themeSwitcher.ts:137-139 | a click from a name repeated at `j` after its first occurrence at `i` moves to the theme after `i`, whatever follows `j` |
| Theming.DuplicateNameHidesLaterThemes | assets/ts/themeSwitcher.ts:137-139 | with themes light, dark, light, blue, no number of clicks from light or dark reaches blue |
| Theming.ShippedConfigAccepted | assets/ts/main.ts:3-16 | the site's materialIcon-only configuration passes `validate` without a warning |
| Theming.ThemeSwitcher.constructor | assets/ts/themeSwitcher.ts:21-35 | a validated configuration is stored and the page state is taken as found |
| Theming.ThemeSwitcher.Create | assets/ts/themeSwitcher.ts:21-35 | construction throws iff the configuration is rejected, with `validate`'s error; on success every argument is stored and nothing has been notified |
| Theming.ThemeSwitcher.SetTheme | assets/ts/themeSwitcher.ts:50-56 | a configured name becomes the class and the stored theme and is passed to `onThemeChange` once; any other name changes nothing |
| Theming.ThemeSwitcher.PreferredTheme | assets/ts/themeSwitcher.ts:60-66 | the second preferred theme when dark is preferred, else the first; always a configured theme |
| Theming.ThemeSwitcher.UpdateButton | assets/ts/themeSwitcher.ts:70-87 | the button shows the content of the current theme when the button exists and the class names a configured theme; otherwise unchanged |
| Theming.ThemeSwitcher.Init | assets/ts/themeSwitcher.ts:125-132 | the stored theme is applied when truthy, otherwise the preferred one (which always takes effect); then the button is updated |
| Theming.ThemeSwitcher.Click | assets/ts/themeSwitcher.ts:135-142 | the class becomes `Advance` of the old class; the new theme is stored and notified when the old one was configured, else nothing changes |
| LangRouter.CheckArguments | router.ts:64-81 | no error iff root id, routes, default route and link class are truthy and, when languages are given, the default language and switcher class are too |
| LangRouter.PrimarySubtag | router.ts:117 | the result is the prefix of the tag before its first `-` |
| LangRouter.FirstMatch | router.ts:112-126 | none iff no browser language's primary subtag is configured; otherwise a configured code equal to the subtag of the earliest browser language that matches |
| LangRouter.GetPreferredLanguage | router.ts:112-126 | the nested loop returns `FirstMatch`, and `undefined` without languages |
| LangRouter.ResolvedLanguage | router.ts:95-98 | `undefined` without languages; a truthy stored language is taken as is; otherwise `undefined` iff no browser language matches, and a configured language when one does |
| LangRouter.ResolvedLanguageCases | router.ts:95-99 | a truthy stored language always wins; with nothing stored and no match the language stays `undefined` |
| LangRouter.BrowserOrderWins | router.ts:116-123 | browser order beats configuration order |
| LangRouter.PrefixedUrl | router.ts:168 | the URL is `/`, then the language ("undefined" when there is none), then the route, and the route and language can be read back from it |
| LangRouter.ApplyEntry | router.ts:153-158 | content is set only for a truthy `content`, `aria-label` only for a truthy `ariaLabel` |
| LangRouter.Translate | router.ts:150-158 | an element with an empty key is untouched; otherwise its content and `aria-label` become the entry's when truthy and stay as they were when not; the key never changes |
| LangRouter.TranslateIdempotent | router.ts:150-158 | translating an element a second time with the same file changes nothing |
| LangRouter.FirstMissing | router.ts:150-153 | the first element whose non-empty key the language file lacks, or the length |
| LangRouter.ShippedArgumentsAccepted | router.ts:173-184 | the router the script builds passes the constructor checks |
| LangRouter.Router.constructor | router.ts:83-104 | every configuration argument is stored, the language fields only with languages; no language file; the current route is the page path; the current language is the resolved one; when truthy it is stored and its prefixed URL pushed and made the path, otherwise storage, history and path are as found |
| LangRouter.Router.Create | router.ts:64-81 | construction throws iff a check fails, with the first failing check's error; on success the new router is in exactly the state the constructor promises |
| LangRouter.Router.SetLanguage | router.ts:130-135 | with languages: store the language, make it current, push the current path under its prefix; without: nothing |
| LangRouter.Router.LanguageFileLoaded | router.ts:137-138 | the fetched file becomes the language file |
| LangRouter.Router.NavigateTo | router.ts:167-170 | pushes exactly `"/" + currentLanguage + route` and sets the current route to the bare route |
| LangRouter.Router.SetupLanguage | router.ts:146-163 | without a file nothing changes; otherwise elements are translated in order up to the first missing key, where it throws, and later ones are untouched |
| BasicRouter.FindRoute | router.js:22 | the first route whose name equals the current route, or none iff no name does |
| BasicRouter.FragmentUrl | router.js:24 | the URL is `/components/`, then the route's component, then `.html`, and the component can be read back from it |
| BasicRouter.RenderFetches | router.js:21-30 | a render fetches one fragment, of the first matching route, or nothing when no name matches |
| BasicRouter.ShippedDefaultRendersNothing | router.js:49-56 | with the shipped table, the default `"home"` fetches nothing, while `"/home"` fetches its fragment |
| BasicRouter.Router.constructor | router.js:3-11 | the current route starts as the default route and the first render runs |
| BasicRouter.Router.Navigate | router.js:14-18 | the current route becomes exactly `route`, which is pushed, then rendered |
| BasicRouter.Router.Render | router.js:21-30 | appends the fragment URL of the matching route, or nothing |
| BasicRouter.Router.FragmentArrived | router.js:24-28 | the fetched HTML replaces the root's content |
| BasicRouter.Router.ClickNavLink | router.js:35-40 | a truthy `href` is navigated to; a missing or empty one causes no navigation |
| Api.SendResponse | api/src/index.ts:328-343 | the HTTP status is the envelope's status; `data` is a key of the body iff it is not `undefined` |
| Api.Ping | api/src/index.ts:66-73 | 200 with "Pong!" and no data |
| Api.GetWishlists | api/src/index.ts:79-101 | 500 iff `getAll` yields `undefined`, otherwise 200 with that data |
| Api.GetWishlist | api/src/index.ts:107-154 | follows the guard chain: 400 with no call, 404 after the existence check only, 500 or 200 with data after `get` |
| Api.PostWishlist | api/src/index.ts:160-197 | 400 with no call unless both name and date validate; 500 on an `undefined` create result; else 201 with it |
| Api.PutWishlist | api/src/index.ts:203-256 | the guard chain with id, name and date all validated before any call |
| Api.DeleteWishlist | api/src/index.ts:262-312 | the guard chain with `delete` as the operation |
| Api.IdProtocolOrder | api/src/index.ts:107-154 | under the guard chain the status tells how far it got: 400 iff invalid iff no call; the operation runs only after a `true` existence check; data only with success |
| Api.UndefinedExistsIsNotFound | api/src/index.ts:123-131 | an `undefined` existence check yields 404 and no further call |
| Api.CreateProtocolOrder | api/src/index.ts:166-196 | for `POST`: 400 iff invalid iff no call, 500 iff the create result is `undefined`, else 201 |
| FormLabels.Marked | assets/ts/wishlist.ts:346-396 | a label gets the `error` class iff it earned a message, and that message (or an empty one); its input is unchanged (the same updates at assets/ts/wish.ts:373-432) |
| WishlistForm.Verdict | assets/ts/wishlist.ts:346-398 | a required empty input earns the required message and skips the type check; date and name types earn their messages on failure; other types only the required check |
| WishlistForm.EmptyOptionalDateFails | assets/ts/wishlist.ts:363-373 | an empty, optional date input still fails, since `date` rejects "" |
| WishlistForm.ValidateForm | assets/ts/wishlist.ts:327-403 | returns true iff every label passes; every label gets the error class and message of its own verdict, and a passing one ends with no class and an empty message |
| WishForm.Verdict | assets/ts/wish.ts:373-435 | the required check first; name, price and link types earn their messages on failure; other types only the required check |
| WishForm.ValidateForm | assets/ts/wish.ts:354-440 | returns the conjunction over all labels; each label is marked with its own verdict |

## Left out

- `Number()`, `isNaN` and `Date.parse` are not modelled: the model takes `isNaN(Number(s))` and `isNaN(Date.parse(s))` as uninterpreted functions (`Js.Runtime`), so no concrete string such as "42" is proved valid or invalid.
- The browser `validate.number` and `validate.link` that `wish.ts` calls do not exist in `assets/ts/validate.ts`; they are parameters of `WishForm.ValidateForm`, and the TypeError their absence causes at run time is not modelled.
- Browser and environment state (`localStorage`, `navigator.languages`, `matchMedia`, `history.pushState`, `window.location`, the DOM) are fields or parameters of the classes; `getTheme` is the `className` field itself.
- Asynchronous completion is not ordered: a fragment or language-file fetch is a separate method (`FragmentArrived`, `LanguageFileLoaded`) that may be called at any time; the network, `console.log` and the logging `.then` are left out. `console.warn` in the theme check is the `warned` flag.
- Event-listener registration (`DOMContentLoaded`, the button and nav-link `click` listeners) is not modelled; the listeners themselves are the methods `Init`, `Click` and `ClickNavLink`.
- Every label is assumed to contain an input and an `.errorMessage` element; the TypeError of a label without them is not modelled.
- The default arguments of the `ThemeSwitcher` constructor (button id "theme-switcher", the two labelled light and dark themes, the preferred themes light and dark, and a no-op `onThemeChange`) are not modelled: the model's constructor always takes its configuration explicitly, and the button id only decides `hasButton`.
- `LangRouter.Router.SetupLanguage` treats the `[data-lang-id]` elements as independent records in one array. When an element's `innerHTML` is replaced, the elements nested inside it are detached from the page but stay in the static list the loop walks; the model shows them as translated and does not capture that they are no longer displayed.
- `LangRouter.Router.SetupLanguage` looks keys up in a plain map, so keys that a JavaScript object inherits from its prototype are not modelled, and every entry is taken to be an object.
- The ids passed to the database are the raw path parameters; the `Number()` conversion of `wishlistId` is not modelled.
- The `Api` classes, `createList`, `openForm`, `closeForm`, the page scripts, the MariaDB connector and the `Wishlist`/`Wish` SQL wrappers are network, DOM or database plumbing; only their results enter the model, as the `Option` outcomes the handlers receive. The wish endpoints are not wired in `api/src/index.ts`, so they are not modelled.
- Express setup, middleware, environment loading and `app.listen` are configuration.
