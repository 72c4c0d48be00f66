/**
 * The route table of src/routing/routeConfiguration.js: paths, names,
 * authentication flags and the component (or redirect) each route renders.
 * Loaders, initial-value setters and extra props are not modelled.  Routes are
 * matched in table order, so order is part of the table's meaning.
 */
module RouteConfiguration {
  import opened Wrappers
  import opened Strings
  import LocaleContext

  /** What a route renders. */
  datatype Component =
    | Page(page: string)
    | Redirect(target: string, params: map<string, string>)
    /** A redirect to the same `id` on another route. */
    | RedirectKeepingId(target: string)
    /** The root redirect to the landing page in the browser's or the default locale. */
    | LocaleRedirect

  datatype RouteEntry = RouteEntry(path: string, name: string, auth: bool, authPage: Option<string>, component: Component)

  /** `layoutConfig.searchPage?.variantType` and `layoutConfig.listingPage?.variantType`; "" when missing. */
  datatype LayoutConfig = LayoutConfig(searchVariant: string, listingVariant: string)

  const DraftId: string := "00000000-0000-0000-0000-000000000000"
  const DraftSlug: string := "draft"

  /** `withLocale` */
  function WithLocale(path: string): (r: string)
    ensures StartsWith(r, "/:locale")
    ensures path == "/" ==> r == "/:locale"
    ensures path != "/" ==> r[|"/:locale"|..] == path
  {
    if path == "/" then "/:locale" else "/:locale" + path
  }

  /** Distinct paths other than the root get distinct localized paths. */
  lemma WithLocaleIsInjective(p: string, q: string)
    requires p != "/" && q != "/" && WithLocale(p) == WithLocale(q)
    ensures p == q
  {
    assert p == WithLocale(p)[|"/:locale"|..];
  }

  function SearchPageComponent(layout: LayoutConfig): Component {
    Page(if layout.searchVariant == "map" then "SearchPageWithMap" else "SearchPageWithGrid")
  }

  function ListingPageComponent(layout: LayoutConfig): Component {
    Page(if layout.listingVariant == "carousel" then "ListingPageCarousel" else "ListingPageCoverPhoto")
  }

  function Open(path: string, name: string, component: Component): RouteEntry {
    RouteEntry(path, name, false, None, component)
  }

  function Authed(path: string, name: string, component: Component): RouteEntry {
    RouteEntry(path, name, true, None, component)
  }

  function LoginGated(path: string, name: string, component: Component): RouteEntry {
    RouteEntry(path, name, true, Some("LoginPage"), component)
  }

  const RouteCount: nat := 56

  /** The routes matched before any localized one. */
  const UnprefixedCount: nat := 9

  /** Entry `k` of the routes placed ahead of the localized ones. */
  function UnprefixedRouteAt(k: nat): RouteEntry
    requires k < UnprefixedCount
  {
    match k
      case 0 => Open("/", "LocaleRedirect", LocaleRedirect)
      case 1 => Open("/p/terms-of-service-es", "LegacyTermsOfServiceEsRedirect", Redirect("TermsOfServicePage", map["locale" := "es"]))
      case 2 => Open("/p/terms-of-service", "LegacyTermsOfServiceEnRedirect", Redirect("TermsOfServicePage", map["locale" := "en"]))
      case 3 => Open("/p/privacy-policy-es", "LegacyPrivacyPolicyEsRedirect", Redirect("PrivacyPolicyPage", map["locale" := "es"]))
      case 4 => Open("/p/privacy-policy", "LegacyPrivacyPolicyEnRedirect", Redirect("PrivacyPolicyPage", map["locale" := "en"]))
      case 5 => Open("/p/:pageId", "CMSPageLegacy", Page("CMSPage"))
      case 6 => Open("/reset-password", "PasswordResetPage", Page("PasswordResetPage"))
      case 7 => LoginGated("/verify-email", "EmailVerificationPage", Page("EmailVerificationPage"))
      case _ => Open("/preview", "PreviewResolverPage", Page("PreviewResolverPage"))
  }

  /** Entry `k` of the localized routes, before `withLocale` is applied to its path. */
  function LocalizedRouteAt(layout: LayoutConfig, isPrivate: bool, k: nat): RouteEntry
    requires k < RouteCount - UnprefixedCount
  {
    match k
      case 0 => Open("/", "LandingPage", Page("LandingPage"))
      case 1 => Open("/p/:pageId", "CMSPage", Page("CMSPage"))
      case 2 => RouteEntry("/s", "SearchPage", isPrivate, None, SearchPageComponent(layout))
      case 3 => RouteEntry("/s/:listingType", "SearchPageWithListingType", isPrivate, None, SearchPageComponent(layout))
      case 4 => Open("/l", "ListingBasePage", Redirect("LandingPage", map[]))
      case 5 => RouteEntry("/l/:slug/:id", "ListingPage", isPrivate, None, ListingPageComponent(layout))
      case 6 => Authed("/l/:slug/:id/make-offer", "MakeOfferPage", Page("MakeOfferPage"))
      case 7 => Authed("/l/:slug/:id/request-quote", "RequestQuotePage", Page("RequestQuotePage"))
      case 8 => Authed("/l/:slug/:id/checkout", "CheckoutPage", Page("CheckoutPage"))
      case 9 => LoginGated("/l/:slug/:id/:variant", "ListingPageVariant", ListingPageComponent(layout))
      case 10 => Authed("/l/new", "NewListingPage", Redirect("EditListingPage", map["slug" := DraftSlug, "id" := DraftId, "type" := "new", "tab" := "details"]))
      case 11 => Authed("/l/:slug/:id/:type/:tab", "EditListingPage", Page("EditListingPage"))
      case 12 => Authed("/l/:slug/:id/:type/:tab/:returnURLType", "EditListingStripeOnboardingPage", Page("EditListingPage"))
      case 13 => RouteEntry("/l/:id", "ListingPageCanonical", isPrivate, None, ListingPageComponent(layout))
      case 14 => Open("/u", "ProfileBasePage", Redirect("LandingPage", map[]))
      case 15 => RouteEntry("/u/:id", "ProfilePage", isPrivate, None, Page("ProfilePage"))
      case 16 => Authed("/u/:id/:variant", "ProfilePageVariant", Page("ProfilePage"))
      case 17 => LoginGated("/profile-settings", "ProfileSettingsPage", Page("ProfileSettingsPage"))
      case 18 => Open("/login", "LoginPage", Page("AuthenticationPage"))
      case 19 => Open("/signup", "SignupPage", Page("AuthenticationPage"))
      case 20 => Open("/signup/:userType", "SignupForUserTypePage", Page("AuthenticationPage"))
      case 21 => Open("/confirm", "ConfirmPage", Page("AuthenticationPage"))
      case 22 => Open("/recover-password", "PasswordRecoveryPage", Page("PasswordRecoveryPage"))
      case 23 => LoginGated("/inbox", "InboxBasePage", Redirect("InboxPage", map["tab" := "sales"]))
      case 24 => LoginGated("/inbox/:tab", "InboxPage", Page("InboxPage"))
      case 25 => LoginGated("/order/:id", "OrderDetailsPage", Page("TransactionPage"))
      case 26 => LoginGated("/order/:id/details", "OrderDetailsPageRedirect", RedirectKeepingId("OrderDetailsPage"))
      case 27 => LoginGated("/sale/:id", "SaleDetailsPage", Page("TransactionPage"))
      case 28 => LoginGated("/sale/:id/details", "SaleDetailsPageRedirect", RedirectKeepingId("SaleDetailsPage"))
      case 29 => LoginGated("/listings", "ManageListingsPage", Page("ManageListingsPage"))
      case 30 => LoginGated("/rented", "ManageRentedListingsPage", Page("ManageRentedListingsPage"))
      case 31 => LoginGated("/account", "AccountSettingsPage", Redirect("ContactDetailsPage", map[]))
      case 32 => LoginGated("/account/contact-details", "ContactDetailsPage", Page("ContactDetailsPage"))
      case 33 => LoginGated("/account/change-password", "PasswordChangePage", Page("PasswordChangePage"))
      case 34 => LoginGated("/account/payments", "StripePayoutPage", Page("StripePayoutPage"))
      case 35 => LoginGated("/account/payments/:returnURLType", "StripePayoutOnboardingPage", Page("StripePayoutPage"))
      case 36 => LoginGated("/account/payment-methods", "PaymentMethodsPage", Page("PaymentMethodsPage"))
      case 37 => LoginGated("/account/manage", "ManageAccountPage", Page("ManageAccountPage"))
      case 38 => Open("/terms-of-service", "TermsOfServicePage", Page("TermsOfServicePage"))
      case 39 => Open("/privacy-policy", "PrivacyPolicyPage", Page("PrivacyPolicyPage"))
      case 40 => RouteEntry("/styleguide", "Styleguide", isPrivate, None, Page("StyleguidePage"))
      case 41 => RouteEntry("/styleguide/g/:group", "StyleguideGroup", isPrivate, None, Page("StyleguidePage"))
      case 42 => RouteEntry("/styleguide/c/:component", "StyleguideComponent", isPrivate, None, Page("StyleguidePage"))
      case 43 => RouteEntry("/styleguide/c/:component/:example", "StyleguideComponentExample", isPrivate, None, Page("StyleguidePage"))
      case 44 => RouteEntry("/styleguide/c/:component/:example/raw", "StyleguideComponentExampleRaw", isPrivate, None, Page("StyleguidePage"))
      case 45 => Open("/no-:missingAccessRight", "NoAccessPage", Page("NoAccessPage"))
      case _ => Open("/notfound", "NotFoundPage", Page("NotFoundPage"))
  }

  /**
   * Entry `k` of the table returned by `routeConfiguration(layoutConfig,
   * accessControlConfig)`; `isPrivate` is
   * `accessControlConfig?.marketplace?.private === true`.
   */
  function RouteAt(layout: LayoutConfig, isPrivate: bool, k: nat): RouteEntry
    requires k < RouteCount
  {
    if k < UnprefixedCount then UnprefixedRouteAt(k)
    else
      var e := LocalizedRouteAt(layout, isPrivate, k - UnprefixedCount);
      e.(path := WithLocale(e.path))
  }

  /** `routeConfiguration(layoutConfig, accessControlConfig)`, in matching order. */
  function Routes(layout: LayoutConfig, isPrivate: bool): (r: seq<RouteEntry>)
    ensures |r| == RouteCount
    ensures forall k :: 0 <= k < RouteCount ==> r[k] == RouteAt(layout, isPrivate, k)
  {
    seq(RouteCount, k requires 0 <= k < RouteCount => RouteAt(layout, isPrivate, k))
  }

  /** The routes that spread `authForPrivateMarketplace`. */
  const PrivateGated: set<nat> := {11, 12, 14, 22, 24, 49, 50, 51, 52, 53}

  /**
   * The private-marketplace flag decides exactly the `auth` of the routes
   * spreading `authForPrivateMarketplace`; every other part of the table is
   * the same either way.
   */
  lemma PrivateFlagGatesOnlyTheSpreadRoutes(layout: LayoutConfig, k: nat)
    requires k < RouteCount
    ensures var open := RouteAt(layout, false, k);
            var closed := RouteAt(layout, true, k);
            closed == open.(auth := open.auth || k in PrivateGated)
    ensures k in PrivateGated ==> !RouteAt(layout, false, k).auth && RouteAt(layout, true, k).auth
  {
    if k < UnprefixedCount {
    } else if k < 20 {
    } else if k < 30 {
    } else if k < 40 {
    } else {
    }
  }

  /** The map variant of the search page is chosen iff the layout asks for `map`; likewise the carousel. */
  lemma VariantsFollowTheLayout(layout: LayoutConfig, isPrivate: bool)
    ensures RouteAt(layout, isPrivate, 11).component == RouteAt(layout, isPrivate, 12).component
            == Page(if layout.searchVariant == "map" then "SearchPageWithMap" else "SearchPageWithGrid")
    ensures RouteAt(layout, isPrivate, 14).component == RouteAt(layout, isPrivate, 18).component
            == RouteAt(layout, isPrivate, 22).component
            == Page(if layout.listingVariant == "carousel" then "ListingPageCarousel" else "ListingPageCoverPhoto")
  {
  }

  /**
   * The unprefixed endpoints the API calls come before the localized landing
   * route, which would otherwise take `/verify-email` for a locale.
   */
  lemma UnprefixedEndpointsComeFirst(layout: LayoutConfig, isPrivate: bool)
    ensures RouteAt(layout, isPrivate, 6).path == "/reset-password"
    ensures RouteAt(layout, isPrivate, 7).path == "/verify-email"
    ensures RouteAt(layout, isPrivate, 8).path == "/preview"
    ensures RouteAt(layout, isPrivate, 9) == Open("/:locale", "LandingPage", Page("LandingPage"))
  {
  }

  /** Exactly the first nine routes are outside the `/:locale` prefix. */
  lemma LocalizedFromTheLandingPageOn(layout: LayoutConfig, isPrivate: bool, k: nat)
    requires k < RouteCount
    ensures StartsWith(RouteAt(layout, isPrivate, k).path, "/:locale") <==> k >= 9
  {
    var p := RouteAt(layout, isPrivate, k).path;
    if k < 9 {
      assert |p| < 2 || p[1] != ':';
    }
  }

  /**
   * `/:locale/l/new` precedes `/:locale/l/:id`, and redirects to the draft
   * listing's details tab.
   */
  lemma NewListingBeforeCanonical(layout: LayoutConfig, isPrivate: bool)
    ensures RouteAt(layout, isPrivate, 19).path == "/:locale/l/new"
    ensures RouteAt(layout, isPrivate, 22).path == "/:locale/l/:id"
    ensures RouteAt(layout, isPrivate, 19).auth
    ensures RouteAt(layout, isPrivate, 19).component ==
            Redirect("EditListingPage", map["slug" := "draft", "id" := "00000000-0000-0000-0000-000000000000",
                                            "type" := "new", "tab" := "details"])
  {
  }

  /**
   * The legacy `/p/...` aliases precede `/p/:pageId`; the `-es` ones keep the
   * Spanish locale and the others the English one.
   */
  lemma LegacyAliasesBeforeCmsPage(layout: LayoutConfig, isPrivate: bool, k: nat)
    requires 1 <= k < 5
    ensures RouteAt(layout, isPrivate, 5).path == "/p/:pageId"
    ensures var r := RouteAt(layout, isPrivate, k);
            StartsWith(r.path, "/p/") && r.component.Redirect? &&
            r.component.params == map["locale" := if EndsWith(r.path, "-es") then "es" else "en"]
  {
    assert RouteAt(layout, isPrivate, k) == UnprefixedRouteAt(k);
    LegacyAlias(k);
  }

  /** A path whose first three characters are `/p/` starts with `/p/`. */
  lemma SlashPPrefix(p: string)
    requires |p| >= 3 && p[0] == '/' && p[1] == 'p' && p[2] == '/'
    ensures StartsWith(p, "/p/")
  {
    assert p[..3] == "/p/";
  }

  /** One legacy alias: a `/p/` path redirecting with the locale its suffix names. */
  lemma LegacyAlias(k: nat)
    requires 1 <= k < 5
    ensures var r := UnprefixedRouteAt(k);
            StartsWith(r.path, "/p/") && r.component.Redirect? &&
            r.component.params == map["locale" := if EndsWith(r.path, "-es") then "es" else "en"]
  {
    var p := UnprefixedRouteAt(k).path;
    if k == 1 {
      assert p == "/p/terms-of-service-es";
      SlashPPrefix(p);
      assert p[|p| - 3..] == "-es";
    } else if k == 2 {
      assert p == "/p/terms-of-service";
      SlashPPrefix(p);
      assert p[|p| - 1] == 'e';
    } else if k == 3 {
      assert p == "/p/privacy-policy-es";
      SlashPPrefix(p);
      assert p[|p| - 3..] == "-es";
    } else {
      assert p == "/p/privacy-policy";
      SlashPPrefix(p);
      assert p[|p| - 1] == 'y';
    }
  }

  /** The bare listing and profile paths send the visitor to the landing page. */
  lemma BasePagesRedirectToLanding(layout: LayoutConfig, isPrivate: bool)
    ensures RouteAt(layout, isPrivate, 13).path == "/:locale/l"
    ensures RouteAt(layout, isPrivate, 13).component == Redirect("LandingPage", map[])
    ensures RouteAt(layout, isPrivate, 23).path == "/:locale/u"
    ensures RouteAt(layout, isPrivate, 23).component == Redirect("LandingPage", map[])
  {
  }

  /** The table as the locale injection sees it: names and paths. */
  function LocaleRoutes(layout: LayoutConfig, isPrivate: bool): (r: seq<LocaleContext.Route>)
    ensures |r| == RouteCount
    ensures forall k :: 0 <= k < RouteCount ==>
              r[k] == LocaleContext.Route(RouteAt(layout, isPrivate, k).name, RouteAt(layout, isPrivate, k).path)
  {
    seq(RouteCount, k requires 0 <= k < RouteCount =>
      LocaleContext.Route(RouteAt(layout, isPrivate, k).name, RouteAt(layout, isPrivate, k).path))
  }

  /** Only the localized landing route is named `LandingPage`. */
  lemma LandingPageIsLocalized(layout: LayoutConfig, isPrivate: bool, k: nat)
    requires k < RouteCount && RouteAt(layout, isPrivate, k).name == "LandingPage"
    ensures Contains(RouteAt(layout, isPrivate, k).path, ":locale")
  {
    var p := RouteAt(layout, isPrivate, k).path;
    if k >= UnprefixedCount {
      assert OccursAt(p, ":locale", 1);
    }
  }

  /**
   * A redirect to the landing page without params (what `/:locale/l` and
   * `/:locale/u` render) is filled with the locale the visitor is browsing in.
   */
  lemma LandingRedirectKeepsTheCurrentLocale(layout: LayoutConfig, isPrivate: bool, windowPath: Option<string>)
    ensures LocaleContext.LocaleParams(LocaleRoutes(layout, isPrivate), "LandingPage", map[], windowPath)
            == map["locale" := LocaleContext.CurrentLocale(windowPath)]
  {
    LandingRouteHasLocale(layout, isPrivate);
  }

  /** The route the locale injection finds under `LandingPage` carries `:locale`. */
  lemma LandingRouteHasLocale(layout: LayoutConfig, isPrivate: bool)
    ensures LocaleContext.RouteHasLocale(LocaleRoutes(layout, isPrivate), "LandingPage")
  {
    var routes := LocaleRoutes(layout, isPrivate);
    var found := LocaleContext.FindRoute(routes, "LandingPage");
    assert routes[9].name == "LandingPage";
    assert found.Some?;
    var k :| 0 <= k < |routes| && routes[k] == found.value;
    LandingPageIsLocalized(layout, isPrivate, k);
  }

  /**
   * The root redirect: to the landing page in the browser's language when a
   * window exists and the language is supported, in English otherwise.
   */
  function LocaleRedirectTarget(hasWindow: bool, navigatorLanguage: string): (r: Component)
    ensures r.Redirect? && r.target == "LandingPage" && r.params.Keys == {"locale"}
    ensures LocaleContext.IsValidLocale(r.params["locale"])
    ensures hasWindow && LocaleContext.IsValidLocale(BeforeFirst(navigatorLanguage, '-')) ==>
              r.params["locale"] == BeforeFirst(navigatorLanguage, '-')
    ensures !hasWindow || !LocaleContext.IsValidLocale(BeforeFirst(navigatorLanguage, '-')) ==>
              r.params["locale"] == LocaleContext.DefaultLocale
  {
    Redirect("LandingPage", map["locale" := LocaleContext.BrowserLocale(hasWindow, navigatorLanguage)])
  }
}
