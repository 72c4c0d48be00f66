/**
 * Label lookup for listing fields (src/util/listingFieldI18n.js).  `intl` is
 * present or absent; when present, the label is the request made to
 * `intl.formatMessage`.
 */
module ListingFieldI18n {
  import opened Wrappers
  import opened Translations

  const HeightId: string := "ListingPage.detailDimensionsHeightCm"
  const WidthId: string := "ListingPage.detailDimensionsWidthCm"
  const FootTrafficId: string := "ListingPage.detailEstimatedVisibilityFootTraffic"
  const LightingId: string := "ListingPage.detailLightingVisibilityFeatures"
  const AllowedAdTypesId: string := "ListingPage.detailAllowedAdTypes"

  /** `LISTING_FIELD_LABEL_IDS_BY_KEY`: several spellings of a field key share one id. */
  const LabelIdsByKey: map<string, string> := map[
    "dimensionsHeightCm" := HeightId,
    "dimensions_height_cm" := HeightId,
    "dimensionsHeight" := HeightId,
    "dimensionsWidthCm" := WidthId,
    "dimensions_width_cm" := WidthId,
    "dimensionsWidth" := WidthId,
    "estimatedVisibilityFootTraffic" := FootTrafficId,
    "estimated_visibility_foot_traffic" := FootTrafficId,
    "visibilityFootTraffic" := FootTrafficId,
    "footTraffic" := FootTrafficId,
    "lightingVisibilityFeatures" := LightingId,
    "lighting_visibility_features" := LightingId,
    "allowedAdTypes" := AllowedAdTypesId,
    "allowed_ad_types" := AllowedAdTypesId
  ]

  /** `LISTING_FIELD_LABEL_IDS_BY_LABEL`: the English labels of the same fields. */
  const LabelIdsByLabel: map<string, string> := map[
    "Dimensions Height cm" := HeightId,
    "Dimensions Width cm" := WidthId,
    "Estimated Visibility / Foot Traffic" := FootTrafficId,
    "Lighting & Visibility Features" := LightingId,
    "Allowed Ad Types" := AllowedAdTypesId
  ]

  /** The id for a field: by key first, then by label. */
  function LabelId(key: string, fieldLabel: string): (r: Option<string>)
    ensures key in LabelIdsByKey ==> r == Some(LabelIdsByKey[key])
    ensures key !in LabelIdsByKey && fieldLabel in LabelIdsByLabel ==> r == Some(LabelIdsByLabel[fieldLabel])
    ensures key !in LabelIdsByKey && fieldLabel !in LabelIdsByLabel ==> r.None?
  {
    if key in LabelIdsByKey then Some(LabelIdsByKey[key])
    else if fieldLabel in LabelIdsByLabel then Some(LabelIdsByLabel[fieldLabel])
    else None
  }

  /** `getListingFieldLabel`: the translated label when there is an id and an `intl`, else the label as given. */
  function ListingFieldLabel(key: string, fieldLabel: string, hasIntl: bool): (r: Label)
    ensures r.Formatted? <==> hasIntl && LabelId(key, fieldLabel).Some?
    ensures r.Formatted? ==> r == Formatted(LabelId(key, fieldLabel).value, None)
    ensures r.Plain? ==> r.text == fieldLabel
  {
    var id := LabelId(key, fieldLabel);
    if id.Some? && hasIntl then Formatted(id.value, None) else Plain(fieldLabel)
  }

  /** Every key alias and the English label of a field resolve to the same message. */
  lemma AliasesShareOneId(fieldLabel: string)
    ensures ListingFieldLabel("dimensionsHeightCm", fieldLabel, true) == ListingFieldLabel("dimensions_height_cm", fieldLabel, true)
            == ListingFieldLabel("dimensionsHeight", fieldLabel, true) == ListingFieldLabel("", "Dimensions Height cm", true)
            == Formatted(HeightId, None)
    ensures ListingFieldLabel("footTraffic", fieldLabel, true) == ListingFieldLabel("visibilityFootTraffic", fieldLabel, true)
            == ListingFieldLabel("estimated_visibility_foot_traffic", fieldLabel, true) == Formatted(FootTrafficId, None)
  {
    assert "" !in LabelIdsByKey;
  }

  /** The key table is consulted before the label table. */
  lemma KeyTableWins()
    ensures ListingFieldLabel("dimensionsWidthCm", "Dimensions Height cm", true) == Formatted(WidthId, None)
  {
  }

  /** `isAllowedAdTypesField`: both spellings carry the ad-types label id. */
  function IsAllowedAdTypesField(key: string): (r: bool)
    ensures r <==> key in LabelIdsByKey && LabelIdsByKey[key] == AllowedAdTypesId
  {
    key == "allowedAdTypes" || key == "allowed_ad_types"
  }

  /** `isAllowedAdsField`: neither spelling has a label id, and no key is both kinds of field. */
  function IsAllowedAdsField(key: string): (r: bool)
    ensures r ==> key !in LabelIdsByKey && !IsAllowedAdTypesField(key)
  {
    key == "allowedAds" || key == "allowed_ads"
  }

  /** Both spellings of each field are recognised, and each as one kind of field only. */
  lemma BothSpellingsAreRecognised()
    ensures IsAllowedAdTypesField("allowedAdTypes") && IsAllowedAdTypesField("allowed_ad_types")
    ensures IsAllowedAdsField("allowedAds") && IsAllowedAdsField("allowed_ads")
    ensures !IsAllowedAdsField("allowedAdTypes") && !IsAllowedAdTypesField("allowedAds")
  {
  }

  /** `fallbackLabel || value` */
  function FallbackOr(fallbackLabel: string, value: string): (r: string)
    ensures fallbackLabel != "" ==> r == fallbackLabel
    ensures fallbackLabel == "" ==> r == value
  {
    if fallbackLabel != "" then fallbackLabel else value
  }

  /** The label of one allowed value under a message prefix. */
  function OptionLabel(prefix: string, value: string, fallbackLabel: string, hasIntl: bool): (r: Label)
    ensures !hasIntl ==> r == Plain(FallbackOr(fallbackLabel, value))
    ensures hasIntl ==> r.Formatted? && r.id == prefix + "." + value && r.defaultMessage == Some(FallbackOr(fallbackLabel, value))
  {
    if !hasIntl then Plain(FallbackOr(fallbackLabel, value))
    else Formatted(prefix + "." + value, Some(FallbackOr(fallbackLabel, value)))
  }

  /**
   * `getAllowedAdTypeLabel`: without `intl`, the fallback label or else the
   * value; with it, the message `Listing.allowedAdTypes.<value>` defaulting to
   * that same text.
   */
  function AllowedAdTypeLabel(value: string, fallbackLabel: string, hasIntl: bool): (r: Label)
    ensures !hasIntl ==> r.Plain? && r.text == (if fallbackLabel != "" then fallbackLabel else value)
    ensures hasIntl ==> r.Formatted? && r.id == "Listing.allowedAdTypes." + value &&
                        r.defaultMessage == Some(if fallbackLabel != "" then fallbackLabel else value)
  {
    OptionLabel("Listing.allowedAdTypes", value, fallbackLabel, hasIntl)
  }

  /** `getAllowedAdsLabel`: the same under the `Listing.allowedAds` prefix. */
  function AllowedAdsLabel(value: string, fallbackLabel: string, hasIntl: bool): (r: Label)
    ensures !hasIntl ==> r.Plain? && r.text == (if fallbackLabel != "" then fallbackLabel else value)
    ensures hasIntl ==> r.Formatted? && r.id == "Listing.allowedAds." + value &&
                        r.defaultMessage == Some(if fallbackLabel != "" then fallbackLabel else value)
  {
    OptionLabel("Listing.allowedAds", value, fallbackLabel, hasIntl)
  }

  /** Each value has its own message id, so distinct values never share a translation. */
  lemma OptionIdsAreDistinct(prefix: string, v1: string, v2: string, f1: string, f2: string)
    requires v1 != v2
    ensures OptionLabel(prefix, v1, f1, true).id != OptionLabel(prefix, v2, f2, true).id
  {
    var a := prefix + "." + v1;
    var b := prefix + "." + v2;
    assert a[|prefix| + 1..] == v1;
    assert b[|prefix| + 1..] == v2;
  }

  /** The ad-types and ads messages live under different prefixes. */
  lemma AdTypesAndAdsNeverCollide(v1: string, v2: string, f1: string, f2: string)
    ensures AllowedAdTypeLabel(v1, f1, true).id != AllowedAdsLabel(v2, f2, true).id
  {
    var a := "Listing.allowedAdTypes" + "." + v1;
    var b := "Listing.allowedAds" + "." + v2;
    assert a[..|"Listing.allowedAdTypes"|] == "Listing.allowedAdTypes";
    assert b[..|"Listing.allowedAds"|] == "Listing.allowedAds";
    assert a[17] != b[17];
  }
}
