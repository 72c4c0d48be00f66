/**
 * Locale handling of src/context/localeContext.js and the page-asset naming of
 * src/util/localizedPageAssets.js.  A path carries a locale when it is `/en`
 * or `/es`, alone or followed by `/`.  A missing string (undefined or null) is
 * the empty string, which is falsy like them.
 */
module LocaleContext {
  import opened Wrappers
  import opened Strings

  const SupportedLocales: seq<string> := ["en", "es"]
  const DefaultLocale: string := "en"

  /** `isValidLocale`: membership in the supported locales, which are exactly `en` and `es`. */
  function IsValidLocale(locale: string): (r: bool)
    ensures r <==> locale == "en" || locale == "es"
  {
    locale in SupportedLocales
  }

  /** The match of `^/(en|es)(/|$)`: the locale it captures, if the path starts with one. */
  function LocalePrefix(path: string): (r: Option<string>)
    ensures r.Some? <==> |path| >= 3 && path[0] == '/' && IsValidLocale(path[1..3]) && (|path| == 3 || path[3] == '/')
    ensures r.Some? ==> r.value == path[1..3]
  {
    if |path| >= 3 && path[0] == '/' && IsValidLocale(path[1..3]) && (|path| == 3 || path[3] == '/') then Some(path[1..3])
    else None
  }

  /** `getLocaleFromPath`: the locale prefix of the path, else the default. */
  function LocaleFromPath(path: string): (r: string)
    ensures IsValidLocale(r)
    ensures LocalePrefix(path).Some? ==> r == LocalePrefix(path).value
    ensures LocalePrefix(path).None? ==> r == DefaultLocale
  {
    if path == "" then DefaultLocale
    else LocalePrefix(path).GetOr(DefaultLocale)
  }

  /** A locale code must be followed by `/` or the end: `/esx` is not Spanish. */
  lemma LongerSegmentIsNotALocale()
    ensures LocaleFromPath("/esx") == "en"
    ensures LocaleFromPath("/es/s") == "es"
  {
    assert "/esx"[3] == 'x';
    assert "/es/s"[1..3] == "es";
  }

  /**
   * `getBrowserLocale`: the language code of `navigator.language` (or
   * `userLanguage`) when supported; the default when there is no navigator.
   */
  function BrowserLocale(hasNavigator: bool, language: string): (r: string)
    ensures IsValidLocale(r)
    ensures hasNavigator && IsValidLocale(BeforeFirst(language, '-')) ==> r == BeforeFirst(language, '-')
    ensures !hasNavigator || !IsValidLocale(BeforeFirst(language, '-')) ==> r == DefaultLocale
  {
    if !hasNavigator then DefaultLocale
    else
      var code := BeforeFirst(language, '-');
      if IsValidLocale(code) then code else DefaultLocale
  }

  /**
   * `replaceLocaleInPath`: the root becomes `/new`, a locale prefix is
   * replaced, any other path is prefixed.  The current locale argument is not
   * used.
   */
  function ReplaceLocaleInPath(path: string, currentLocale: string, newLocale: string): (r: string)
    ensures |r| > |newLocale| && r[0] == '/' && r[1..|newLocale| + 1] == newLocale
    ensures LocalePrefix(path).None? && path != "/" ==> r[|newLocale| + 1..] == path
  {
    if path == "" || path == "/" then "/" + newLocale
    else if LocalePrefix(path).Some? then "/" + newLocale + path[3..]
    else "/" + newLocale + path
  }

  /** `removeLocaleFromPath`: one locale prefix stripped; an empty result is `/`. */
  function RemoveLocaleFromPath(path: string): (r: string)
    ensures r != ""
    ensures LocalePrefix(path).None? && path != "" ==> r == path
    ensures LocalePrefix(path).Some? ==> r == (if |path| == 3 then "/" else path[3..])
  {
    if path == "" then "/"
    else
      var stripped := if LocalePrefix(path).Some? then path[3..] else path;
      if stripped == "" then "/" else stripped
  }

  /**
   * `addLocaleToPath`: a path that already has a locale prefix is kept; the
   * root and the empty path become `/locale`; any other path is prefixed.
   */
  function AddLocaleToPath(path: string, locale: string): (r: string)
    ensures LocalePrefix(path).Some? ==> r == path
    ensures path == "" || path == "/" ==> r == "/" + locale
    ensures path != "" && path != "/" && LocalePrefix(path).None? ==> r == "/" + locale + path
  {
    if path == "" then "/" + locale
    else if LocalePrefix(path).Some? then path
    else if path == "/" then "/" + locale
    else "/" + locale + path
  }

  /** A path that is empty or absolute. */
  predicate IsPathLike(path: string) {
    path == "" || path[0] == '/'
  }

  lemma PrefixedPath(locale: string, rest: string)
    requires IsValidLocale(locale) && (rest == "" || rest[0] == '/')
    ensures LocalePrefix("/" + locale + rest) == Some(locale)
    ensures ("/" + locale + rest)[3..] == rest
  {
    assert ("/" + locale + rest)[1..3] == locale;
  }

  /** After switching to a supported locale, the path reads as that locale. */
  lemma ReplaceThenReadGivesNewLocale(path: string, currentLocale: string, newLocale: string)
    requires IsValidLocale(newLocale) && IsPathLike(path)
    ensures LocaleFromPath(ReplaceLocaleInPath(path, currentLocale, newLocale)) == newLocale
  {
    if path == "" || path == "/" {
      PrefixedPath(newLocale, "");
      assert "/" + newLocale + "" == "/" + newLocale;
    } else if LocalePrefix(path).Some? {
      PrefixedPath(newLocale, path[3..]);
    } else {
      PrefixedPath(newLocale, path);
    }
  }

  /** Switching locale keeps the rest of the path. */
  lemma ReplaceKeepsRestOfPath(path: string, currentLocale: string, newLocale: string)
    requires IsValidLocale(newLocale) && IsPathLike(path)
    ensures RemoveLocaleFromPath(ReplaceLocaleInPath(path, currentLocale, newLocale)) == RemoveLocaleFromPath(path)
  {
    if path == "" || path == "/" {
      PrefixedPath(newLocale, "");
      assert "/" + newLocale + "" == "/" + newLocale;
    } else if LocalePrefix(path).Some? {
      PrefixedPath(newLocale, path[3..]);
    } else {
      PrefixedPath(newLocale, path);
    }
  }

  /** Adding a locale to an unprefixed absolute path and removing it gives the path back. */
  lemma RemoveUndoesAdd(path: string, locale: string)
    requires IsValidLocale(locale) && path != "" && path[0] == '/' && LocalePrefix(path).None?
    ensures RemoveLocaleFromPath(AddLocaleToPath(path, locale)) == path
  {
    if path == "/" {
      PrefixedPath(locale, "");
      assert "/" + locale + "" == "/" + locale;
    } else {
      PrefixedPath(locale, path);
    }
  }

  /** After adding a supported locale, the path reads as that locale unless it already had one. */
  lemma {:induction false} AddThenReadGivesLocale(path: string, locale: string)
    requires IsValidLocale(locale) && IsPathLike(path)
    ensures LocalePrefix(path).None? ==> LocaleFromPath(AddLocaleToPath(path, locale)) == locale
    ensures LocalePrefix(path).Some? ==> LocaleFromPath(AddLocaleToPath(path, locale)) == LocaleFromPath(path)
  {
    if path == "" || path == "/" {
      PrefixedPath(locale, "");
      assert "/" + locale + "" == "/" + locale;
    } else if LocalePrefix(path).None? {
      PrefixedPath(locale, path);
    }
  }

  /** Adding a supported locale twice is adding it once. */
  lemma AddLocaleIsIdempotent(path: string, locale: string)
    requires IsValidLocale(locale) && IsPathLike(path)
    ensures AddLocaleToPath(AddLocaleToPath(path, locale), locale) == AddLocaleToPath(path, locale)
  {
    if path == "" || path == "/" {
      PrefixedPath(locale, "");
      assert "/" + locale + "" == "/" + locale;
    } else if LocalePrefix(path).None? {
      PrefixedPath(locale, path);
    }
  }

  // ---------------------------------------------------------------------------
  // Locale injection into route parameters
  // ---------------------------------------------------------------------------

  /** A route of the table, as far as the injection looks at it. */
  datatype Route = Route(name: string, path: string)

  /** Path parameters; "" is a falsy value. */
  type Params = map<string, string>

  /** `getCurrentLocale`: the locale of `window.location.pathname`, or the default without a window. */
  function CurrentLocale(windowPath: Option<string>): (r: string)
    ensures IsValidLocale(r)
  {
    if windowPath.Some? then LocaleFromPath(windowPath.value) else DefaultLocale
  }

  /** `routes.find(r => r.name === name)` */
  function FindRoute(routes: seq<Route>, name: string): (r: Option<Route>)
    ensures r.Some? ==> r.value in routes && r.value.name == name
    ensures r.Some? ==> exists k :: 0 <= k < |routes| && routes[k] == r.value && forall j :: 0 <= j < k ==> routes[j].name != name
    ensures r.None? ==> forall k :: 0 <= k < |routes| ==> routes[k].name != name
  {
    if |routes| == 0 then None
    else if routes[0].name == name then Some(routes[0])
    else
      var rest := FindRoute(routes[1..], name);
      if rest.Some? then
        var k :| 0 <= k < |routes[1..]| && routes[1..][k] == rest.value && forall j :: 0 <= j < k ==> routes[1..][j].name != name;
        assert routes[k + 1] == rest.value && forall j :: 0 <= j < k + 1 ==> routes[j].name != name;
        rest
      else rest
  }

  predicate RouteHasLocale(routes: seq<Route>, name: string) {
    var route := FindRoute(routes, name);
    route.Some? && Contains(route.value.path, ":locale")
  }

  predicate HasTruthyLocale(params: Params) {
    "locale" in params && params["locale"] != ""
  }

  /**
   * The parameters `pathByRouteName` and `createResourceLocatorString` pass
   * on, as written: `{ locale: currentLocale, ...params }` when the route has
   * `:locale` and the params lack a truthy locale.  The spread lets a falsy
   * `locale` already in the params overwrite the injected one.
   */
  function LocaleParamsAsWritten(routes: seq<Route>, name: string, params: Params, windowPath: Option<string>): (r: Params)
    ensures forall k :: k in params ==> k in r && r[k] == params[k]
    ensures forall k :: k in r ==> k in params || k == "locale"
    ensures RouteHasLocale(routes, name) && "locale" !in params ==> "locale" in r && r["locale"] == CurrentLocale(windowPath)
    ensures !RouteHasLocale(routes, name) || HasTruthyLocale(params) ==> r == params
  {
    if RouteHasLocale(routes, name) && !HasTruthyLocale(params) then
      map[ "locale" := CurrentLocale(windowPath)] + params
    else params
  }

  /** The injection as evidently intended: the current locale replaces a missing or falsy one. */
  function LocaleParams(routes: seq<Route>, name: string, params: Params, windowPath: Option<string>): (r: Params)
    ensures RouteHasLocale(routes, name) ==> HasTruthyLocale(r)
    ensures RouteHasLocale(routes, name) && !HasTruthyLocale(params) ==> r["locale"] == CurrentLocale(windowPath)
    ensures forall k :: k in params && k != "locale" ==> k in r && r[k] == params[k]
    ensures forall k :: k in r ==> k in params || k == "locale"
    ensures !RouteHasLocale(routes, name) || HasTruthyLocale(params) ==> r == params
  {
    if RouteHasLocale(routes, name) && !HasTruthyLocale(params) then params["locale" := CurrentLocale(windowPath)]
    else params
  }

  /** Where the params carry no `locale` key at all, the code as written injects as intended. */
  lemma AsWrittenAgreesWithoutLocaleKey(routes: seq<Route>, name: string, params: Params, windowPath: Option<string>)
    requires "locale" !in params
    ensures LocaleParamsAsWritten(routes, name, params, windowPath) == LocaleParams(routes, name, params, windowPath)
  {
    if RouteHasLocale(routes, name) {
      var w := map[ "locale" := CurrentLocale(windowPath)] + params;
      var c := params["locale" := CurrentLocale(windowPath)];
      assert forall k :: k in w <==> k in c;
      assert forall k :: k in w ==> w[k] == c[k];
    }
  }

  /**
   * An explicit empty `locale` survives the spread: the route is filled with
   * an empty locale instead of the current one.
   */
  lemma FalsyLocaleParamOverridesInjection(windowPath: Option<string>)
    ensures var routes := [Route("SearchPage", "/:locale/s")];
            var params := map[ "locale" := ""];
            RouteHasLocale(routes, "SearchPage") &&
            LocaleParamsAsWritten(routes, "SearchPage", params, windowPath)["locale"] == "" &&
            LocaleParams(routes, "SearchPage", params, windowPath)["locale"] == CurrentLocale(windowPath)
  {
    var path := "/:locale/s";
    assert OccursAt(path, ":locale", 1);
  }

  // ---------------------------------------------------------------------------
  // Page assets
  // ---------------------------------------------------------------------------

  /** `localizedSlug`: Spanish locales (base language `es`) read the `-es` page. */
  function LocalizedSlug(slug: string, locale: string): (r: string)
    ensures BeforeFirst(locale, '-') == "es" ==> r == slug + "-es"
    ensures BeforeFirst(locale, '-') != "es" ==> r == slug
  {
    if BeforeFirst(locale, '-') == "es" then slug + "-es" else slug
  }

  lemma SpanishVariantsShareThePage(slug: string)
    ensures LocalizedSlug(slug, "es") == slug + "-es"
    ensures LocalizedSlug(slug, "es-MX") == slug + "-es"
    ensures LocalizedSlug(slug, "ES") == slug
    ensures LocalizedSlug(slug, "en") == slug && LocalizedSlug(slug, "") == slug
  {
    assert BeforeFirst("es-MX", '-') == "es" by {
      assert "es-MX"[2] == '-';
      assert BeforeFirst("es-MX", '-') <= "es-MX";
    }
    assert BeforeFirst("ES", '-') != "es" by {
      var b := BeforeFirst("ES", '-');
      if |b| >= 1 { assert b[0] == 'E'; }
    }
    assert BeforeFirst("en", '-') != "es" by {
      var b := BeforeFirst("en", '-');
      if |b| >= 2 { assert b[1] == 'n'; }
    }
  }

  /** `pageAssetPath` */
  function PageAssetPath(slug: string): (r: string)
    ensures StartsWith(r, "content/pages/") && EndsWith(r, ".json")
    ensures |r| == |slug| + 19 && r[14..|r| - 5] == slug
  {
    "content/pages/" + slug + ".json"
  }

  /** Distinct slugs name distinct assets. */
  lemma PageAssetPathIsInjective(s1: string, s2: string)
    requires PageAssetPath(s1) == PageAssetPath(s2)
    ensures s1 == s2
  {
    assert s1 == PageAssetPath(s1)[14..|PageAssetPath(s1)| - 5];
  }
}
