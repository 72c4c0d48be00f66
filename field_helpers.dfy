/**
 * The prop pickers of the page builder's fields
 * (src/containers/PageBuilder/Field/Field.helpers.js): localized-string
 * resolution and the validators for colours, YouTube ids, aspect ratios,
 * custom appearance and Open Graph data.  The CMS data they receive is a
 * JSON-like value; `sanitizeUrl` is not part of this model, so URLs are
 * carried through as received.
 */
module FieldHelpers {
  import opened Wrappers
  import opened Strings
  import opened JsValues

  // ---------------------------------------------------------------------------
  // Trimming
  // ---------------------------------------------------------------------------

  /** The white space and line terminators `String.prototype.trim` removes. */
  predicate IsTrimmable(c: char) {
    var n := c as int;
    (9 <= n <= 13) || n == 32 || n == 0xA0 || n == 0x1680 || (0x2000 <= n <= 0x200A) ||
    n == 0x2028 || n == 0x2029 || n == 0x202F || n == 0x205F || n == 0x3000 || n == 0xFEFF
  }

  /** The first index at or after `i` that `trim` keeps, or |s|. */
  function FirstKept(s: string, i: nat): (a: nat)
    requires i <= |s|
    ensures i <= a <= |s|
    ensures forall j :: i <= j < a ==> IsTrimmable(s[j])
    ensures a < |s| ==> !IsTrimmable(s[a])
    decreases |s| - i
  {
    if i < |s| && IsTrimmable(s[i]) then FirstKept(s, i + 1) else i
  }

  /** One past the last index before `b`, and not before `a`, that `trim` keeps. */
  function EndKept(s: string, a: nat, b: nat): (e: nat)
    requires a <= b <= |s|
    ensures a <= e <= b
    ensures forall j :: e <= j < b ==> IsTrimmable(s[j])
    ensures e > a ==> !IsTrimmable(s[e - 1])
  {
    if b > a && IsTrimmable(s[b - 1]) then EndKept(s, a, b - 1) else b
  }

  /** `s.trim()`: the middle of `s` left once white space is stripped from both ends. */
  function Trim(s: string): (r: string)
    ensures exists a, b :: 0 <= a <= b <= |s| && r == s[a..b] &&
                           (forall i :: 0 <= i < a ==> IsTrimmable(s[i])) &&
                           (forall i :: b <= i < |s| ==> IsTrimmable(s[i]))
    ensures |r| > 0 ==> !IsTrimmable(r[0]) && !IsTrimmable(r[|r| - 1])
    ensures r == "" <==> forall i :: 0 <= i < |s| ==> IsTrimmable(s[i])
  {
    var a := FirstKept(s, 0);
    var b := EndKept(s, a, |s|);
    assert |s[a..b]| > 0 ==> s[a..b][0] == s[a] && s[a..b][b - a - 1] == s[b - 1];
    s[a..b]
  }

  /** `normalizeLocale`: the trimmed locale, or nothing for a non-string or a blank one. */
  function NormalizeLocale(locale: Option<string>): (r: Option<string>)
    ensures r.Some? ==> locale.Some? && r.value == Trim(locale.value) && r.value != ""
    ensures r.None? <==> locale.None? || forall i :: 0 <= i < |locale.value| ==> IsTrimmable(locale.value[i])
  {
    if locale.None? then None
    else
      var trimmed := Trim(locale.value);
      if |trimmed| > 0 then Some(trimmed) else None
  }

  // ---------------------------------------------------------------------------
  // Localized strings
  // ---------------------------------------------------------------------------

  /** A string the resolution may return: any string when `allowEmpty`, else a non-empty one. */
  predicate Acceptable(v: JsValue, allowEmpty: bool) {
    v.Str? && (allowEmpty || |v.s| > 0)
  }

  /**
   * The candidate keys, in order: the trimmed locale, its base language and
   * `en` when `value.en` is truthy, with falsy ones dropped.
   */
  function Candidates(value: JsValue, locale: Option<string>): (r: seq<string>)
    ensures forall i :: 0 <= i < |r| ==> r[i] != ""
    ensures var n := NormalizeLocale(locale);
            n.Some? ==> |r| >= 1 && r[0] == n.value
    ensures var n := NormalizeLocale(locale);
            n.Some? && BeforeFirst(n.value, '-') != "" ==> |r| >= 2 && r[1] == BeforeFirst(n.value, '-')
    ensures Truthy(Get(value, "en")) ==> |r| >= 1 && r[|r| - 1] == "en"
  {
    var normalized := NormalizeLocale(locale);
    var first := if normalized.Some? then [normalized.value] else [];
    var second := if normalized.Some? && BeforeFirst(normalized.value, '-') != "" then [BeforeFirst(normalized.value, '-')] else [];
    var third := if Truthy(Get(value, "en")) then ["en"] else [];
    first + second + third
  }

  /** No key is tried beyond the locale, its base language and a truthy `en`. */
  lemma CandidatesComeFromLocaleOrEnglish(value: JsValue, locale: Option<string>, k: string)
    requires k in Candidates(value, locale)
    ensures var n := NormalizeLocale(locale);
            (n.Some? && (k == n.value || k == BeforeFirst(n.value, '-'))) || (k == "en" && Truthy(Get(value, "en")))
  {
  }

  /** The first candidate key whose property is acceptable, tried in order. */
  function FirstAcceptableAt(value: JsValue, keys: seq<string>, allowEmpty: bool): (r: Option<string>)
    ensures r.Some? ==> exists i :: 0 <= i < |keys| && Get(value, keys[i]) == Str(r.value) &&
                          Acceptable(Get(value, keys[i]), allowEmpty) &&
                          forall j :: 0 <= j < i ==> !Acceptable(Get(value, keys[j]), allowEmpty)
    ensures r.None? <==> forall i :: 0 <= i < |keys| ==> !Acceptable(Get(value, keys[i]), allowEmpty)
  {
    if |keys| == 0 then None
    else if Acceptable(Get(value, keys[0]), allowEmpty) then
      assert 0 < |keys| && Get(value, keys[0]) == Str(Get(value, keys[0]).s);
      Some(Get(value, keys[0]).s)
    else
      var rest := FirstAcceptableAt(value, keys[1..], allowEmpty);
      assert forall j :: 0 < j < |keys| ==> keys[j] == keys[1..][j - 1];
      rest
  }

  /** `Object.values(value).find(...)`: the first acceptable property value. */
  function FirstAcceptableValue(entries: seq<(string, JsValue)>, allowEmpty: bool): (r: Option<string>)
    ensures r.Some? ==> exists i :: 0 <= i < |entries| && entries[i].1 == Str(r.value) &&
                          Acceptable(entries[i].1, allowEmpty) &&
                          forall j :: 0 <= j < i ==> !Acceptable(entries[j].1, allowEmpty)
    ensures r.None? <==> forall i :: 0 <= i < |entries| ==> !Acceptable(entries[i].1, allowEmpty)
  {
    if |entries| == 0 then None
    else if Acceptable(entries[0].1, allowEmpty) then
      assert entries[0].1 == Str(entries[0].1.s);
      Some(entries[0].1.s)
    else
      var rest := FirstAcceptableValue(entries[1..], allowEmpty);
      assert forall j :: 0 < j < |entries| ==> entries[j] == entries[1..][j - 1];
      rest
  }

  /**
   * `resolveLocalizedString(value, locale, allowEmpty)`: a string is its own
   * value; an object is looked up by the candidate keys and then by its
   * first acceptable value; anything else resolves to nothing.
   */
  function ResolveLocalizedString(value: JsValue, locale: Option<string>, allowEmpty: bool): (r: Option<string>)
    ensures value.Str? ==> r == (if allowEmpty || |value.s| > 0 then Some(value.s) else None)
    ensures !value.Str? && !value.Object? ==> r.None?
    ensures r.Some? ==> allowEmpty || r.value != ""
  {
    match value
      case Str(s) => if allowEmpty || |s| > 0 then Some(s) else None
      case Object(entries) =>
        var byKey := FirstAcceptableAt(value, Candidates(value, locale), allowEmpty);
        if byKey.Some? then byKey else FirstAcceptableValue(entries, allowEmpty)
      case _ => None
  }

  /**
   * An object resolves to one of its own acceptable values, and to nothing
   * exactly when it has none.
   */
  lemma ObjectResolvesToOneOfItsValues(entries: seq<(string, JsValue)>, locale: Option<string>, allowEmpty: bool)
    ensures var r := ResolveLocalizedString(Object(entries), locale, allowEmpty);
            (r.Some? ==> exists i :: 0 <= i < |entries| && entries[i].1 == Str(r.value) && Acceptable(entries[i].1, allowEmpty)) &&
            (r.None? <==> forall i :: 0 <= i < |entries| ==> !Acceptable(entries[i].1, allowEmpty))
  {
    var value := Object(entries);
    var keys := Candidates(value, locale);
    var byKey := FirstAcceptableAt(value, keys, allowEmpty);
    if byKey.Some? {
      var i :| 0 <= i < |keys| && Get(value, keys[i]) == Str(byKey.value) && Acceptable(Get(value, keys[i]), allowEmpty);
      assert Get(value, keys[i]) != Undefined;
      var j :| 0 <= j < |entries| && entries[j] == (keys[i], Get(value, keys[i]));
      assert entries[j].1 == Str(byKey.value);
    }
  }

  /**
   * When no candidate key holds an acceptable string, the object resolves to
   * its first acceptable value in property order.
   */
  lemma NoCandidateFallsBackToFirstValue(entries: seq<(string, JsValue)>, locale: Option<string>, allowEmpty: bool)
    requires forall k :: k in Candidates(Object(entries), locale) ==> !Acceptable(Get(Object(entries), k), allowEmpty)
    ensures ResolveLocalizedString(Object(entries), locale, allowEmpty) == FirstAcceptableValue(entries, allowEmpty)
  {
    var keys := Candidates(Object(entries), locale);
    assert forall i :: 0 <= i < |keys| ==> keys[i] in keys;
  }

  /** The trimmed locale's own entry wins whenever it is acceptable. */
  lemma ExactLocaleWins(entries: seq<(string, JsValue)>, locale: Option<string>, allowEmpty: bool)
    requires NormalizeLocale(locale).Some?
    requires Acceptable(Get(Object(entries), NormalizeLocale(locale).value), allowEmpty)
    ensures ResolveLocalizedString(Object(entries), locale, allowEmpty) ==
            Some(Get(Object(entries), NormalizeLocale(locale).value).s)
  {
  }

  /** Failing the exact locale, the base language's entry wins. */
  lemma BaseLanguageIsSecond(entries: seq<(string, JsValue)>, locale: Option<string>, allowEmpty: bool)
    requires NormalizeLocale(locale).Some?
    requires BeforeFirst(NormalizeLocale(locale).value, '-') != ""
    requires !Acceptable(Get(Object(entries), NormalizeLocale(locale).value), allowEmpty)
    requires Acceptable(Get(Object(entries), BeforeFirst(NormalizeLocale(locale).value, '-')), allowEmpty)
    ensures ResolveLocalizedString(Object(entries), locale, allowEmpty) ==
            Some(Get(Object(entries), BeforeFirst(NormalizeLocale(locale).value, '-')).s)
  {
    var value := Object(entries);
    var keys := Candidates(value, locale);
    assert FirstAcceptableAt(value, keys, allowEmpty) == FirstAcceptableAt(value, keys[1..], allowEmpty);
    assert keys[1..][0] == BeforeFirst(NormalizeLocale(locale).value, '-');
  }

  /** With neither the locale nor its base language acceptable, a non-empty English string wins. */
  lemma EnglishIsThird(entries: seq<(string, JsValue)>, locale: Option<string>, allowEmpty: bool)
    requires forall k :: k in Candidates(Object(entries), locale) && k != "en" ==> !Acceptable(Get(Object(entries), k), allowEmpty)
    requires Get(Object(entries), "en").Str? && Get(Object(entries), "en").s != ""
    ensures ResolveLocalizedString(Object(entries), locale, allowEmpty) == Some(Get(Object(entries), "en").s)
  {
    var value := Object(entries);
    var keys := Candidates(value, locale);
    assert keys[|keys| - 1] == "en";
    var r := FirstAcceptableAt(value, keys, allowEmpty);
    assert r.Some?;
    var i :| 0 <= i < |keys| && Get(value, keys[i]) == Str(r.value) && Acceptable(Get(value, keys[i]), allowEmpty);
    assert keys[i] in keys;
  }

  // ---------------------------------------------------------------------------
  // Content
  // ---------------------------------------------------------------------------

  /** The resolved, non-empty `data.content`, if any. */
  function ResolvedContent(data: JsValue, locale: Option<string>): (r: Option<string>)
    ensures r.Some? ==> r.value != ""
  {
    var content := ResolveLocalizedString(Get(data, "content"), locale, false);
    if content.Some? && |content.value| > 0 then content else None
  }

  /** `hasContent`: the length test is implied, since resolving without `allowEmpty` never gives "". */
  function HasContent(data: JsValue, locale: Option<string>): (r: bool)
    ensures r <==> ResolveLocalizedString(Get(data, "content"), locale, false).Some?
  {
    ResolvedContent(data, locale).Some?
  }

  /** `exposeContentAsChildren`: `{ children: content }` or `{}`. */
  function ExposeContentAsChildren(data: JsValue, locale: Option<string>): (r: map<string, string>)
    ensures r.Keys <= {"children"}
  {
    var content := ResolvedContent(data, locale);
    if content.Some? then map["children" := content.value] else map[]
  }

  /** `exposeContentString`: `{ content }` or `{}`. */
  function ExposeContentString(data: JsValue, locale: Option<string>): (r: map<string, string>)
    ensures r.Keys <= {"content"}
  {
    var content := ResolvedContent(data, locale);
    if content.Some? then map["content" := content.value] else map[]
  }

  /**
   * The two pickers expose the content exactly when `hasContent` holds, and
   * then they expose the same non-empty string, which is also what resolving
   * `data.content` gives.
   */
  lemma ContentExposedIffHasContent(data: JsValue, locale: Option<string>)
    ensures "children" in ExposeContentAsChildren(data, locale) <==> HasContent(data, locale)
    ensures "content" in ExposeContentString(data, locale) <==> HasContent(data, locale)
    ensures HasContent(data, locale) ==>
              var c := ExposeContentAsChildren(data, locale)["children"];
              c != "" && c == ExposeContentString(data, locale)["content"] &&
              ResolveLocalizedString(Get(data, "content"), locale, false) == Some(c)
    ensures !HasContent(data, locale) ==> ExposeContentAsChildren(data, locale) == map[] && ExposeContentString(data, locale) == map[]
  {
  }

  /** A plain string content is exposed exactly when it is not empty. */
  lemma StringContentIsExposedAsIs(data: JsValue, locale: Option<string>)
    requires Get(data, "content").Str?
    ensures HasContent(data, locale) <==> Get(data, "content").s != ""
    ensures HasContent(data, locale) ==> ExposeContentString(data, locale) == map["content" := Get(data, "content").s]
  {
  }

  // ---------------------------------------------------------------------------
  // Colours
  // ---------------------------------------------------------------------------

  predicate IsHexDigit(c: char) {
    ('0' <= c <= '9') || ('a' <= c <= 'f') || ('A' <= c <= 'F')
  }

  /**
   * The regular expression `([0-9a-f]{3}){1,2}$` (case-insensitive) on `t`,
   * having already matched `done` groups.
   */
  predicate HexGroupsMatch(t: string, done: nat)
    decreases |t|
  {
    if t == "" then done >= 1
    else done < 2 && |t| >= 3 && IsHexDigit(t[0]) && IsHexDigit(t[1]) && IsHexDigit(t[2]) &&
         HexGroupsMatch(t[3..], done + 1)
  }

  /** What the group matcher accepts: one or two groups in all, all hex digits. */
  lemma {:induction false} HexGroupsMeaning(t: string, done: nat)
    requires done <= 2
    ensures HexGroupsMatch(t, done) <==>
            |t| % 3 == 0 && 1 <= done + |t| / 3 <= 2 && forall i :: 0 <= i < |t| ==> IsHexDigit(t[i])
    decreases |t|
  {
    if t != "" && done < 2 && |t| >= 3 {
      HexGroupsMeaning(t[3..], done + 1);
      assert forall i :: 3 <= i < |t| ==> t[i] == t[3..][i - 3];
    }
  }

  /** `exposeColorValue`: a `#` followed by three or six hex digits, else nothing. */
  function ExposeColorValue(color: JsValue): (r: Option<string>)
    ensures r.Some? <==> color.Str? && (|color.s| == 4 || |color.s| == 7) && color.s[0] == '#' &&
                         forall i :: 1 <= i < |color.s| ==> IsHexDigit(color.s[i])
    ensures r.Some? ==> r.value == color.s
  {
    if color.Str? && |color.s| >= 1 && color.s[0] == '#' then
      HexGroupsMeaning(color.s[1..], 0);
      assert forall i :: 1 <= i < |color.s| ==> color.s[i] == color.s[1..][i - 1];
      if HexGroupsMatch(color.s[1..], 0) then Some(color.s) else None
    else None
  }

  // ---------------------------------------------------------------------------
  // YouTube
  // ---------------------------------------------------------------------------

  /** The characters of `[a-zA-Z0-9_-]`. */
  predicate IsVideoIdChar(c: char) {
    ('a' <= c <= 'z') || ('A' <= c <= 'Z') || ('0' <= c <= '9') || c == '_' || c == '-'
  }

  /** The characters `encodeURIComponent` leaves alone (section 19.2.6.5 of ECMA-262). */
  predicate IsUriUnreserved(c: char) {
    ('a' <= c <= 'z') || ('A' <= c <= 'Z') || ('0' <= c <= '9') ||
    c == '-' || c == '_' || c == '.' || c == '!' || c == '~' || c == '*' || c == '\'' || c == '(' || c == ')'
  }

  function HexDigitUpper(d: nat): (r: char)
    requires d < 16
    ensures IsHexDigit(r)
  {
    if d < 10 then ('0' as int + d) as char else ('A' as int + d - 10) as char
  }

  /** `%XX` for one byte. */
  function PercentByte(b: nat): (r: string)
    requires b < 256
    ensures |r| == 3 && r[0] == '%'
  {
    ['%', HexDigitUpper(b / 16), HexDigitUpper(b % 16)]
  }

  /** The UTF-8 bytes of one code point, percent-encoded. */
  function PercentUtf8(c: char): (r: string)
    ensures |r| > 0 && r[0] == '%'
  {
    var n := c as int;
    if n < 0x80 then PercentByte(n)
    else if n < 0x800 then PercentByte(0xC0 + n / 0x40) + PercentByte(0x80 + n % 0x40)
    else if n < 0x10000 then
      PercentByte(0xE0 + n / 0x1000) + PercentByte(0x80 + (n / 0x40) % 0x40) + PercentByte(0x80 + n % 0x40)
    else
      PercentByte(0xF0 + n / 0x40000) + PercentByte(0x80 + (n / 0x1000) % 0x40) +
      PercentByte(0x80 + (n / 0x40) % 0x40) + PercentByte(0x80 + n % 0x40)
  }

  /** `encodeURIComponent` on a string of code points. */
  function EncodeUriComponent(s: string): (r: string)
    ensures |r| >= |s|
  {
    if s == "" then ""
    else (if IsUriUnreserved(s[0]) then [s[0]] else PercentUtf8(s[0])) + EncodeUriComponent(s[1..])
  }

  /** Encoding changes exactly the strings with a reserved character. */
  lemma {:induction false} EncodeUriComponentIdentity(s: string)
    ensures EncodeUriComponent(s) == s <==> forall i :: 0 <= i < |s| ==> IsUriUnreserved(s[i])
  {
    if s != "" {
      EncodeUriComponentIdentity(s[1..]);
      assert forall i :: 1 <= i < |s| ==> s[i] == s[1..][i - 1];
      if !IsUriUnreserved(s[0]) {
        var e := PercentUtf8(s[0]);
        assert EncodeUriComponent(s)[0] == '%';
        if s[0] == '%' {
          // '%' is itself reserved, and it grows into at least three characters.
          assert |EncodeUriComponent(s)| >= 3 + |s| - 1;
        }
      }
    }
  }

  predicate IsDigit(c: char) {
    '0' <= c <= '9'
  }

  predicate AllDigits(s: string) {
    forall i :: 0 <= i < |s| ==> IsDigit(s[i])
  }

  /** The regular expression `^(\d+)\/(\d+)+$`. */
  function IsAspectRatio(s: string): (r: bool)
    ensures r <==> exists i :: 0 < i < |s| - 1 && s[i] == '/' && AllDigits(s[..i]) && AllDigits(s[i + 1..])
  {
    var n := BeforeFirst(s, '/');
    if 0 < |n| < |s| - 1 && AllDigits(n) && AllDigits(s[|n| + 1..]) then
      assert s[..|n|] == n;
      true
    else
      assert forall i :: 0 < i < |s| - 1 && s[i] == '/' && AllDigits(s[..i]) ==> i == |n| by {
        forall i | 0 < i < |s| - 1 && s[i] == '/' && AllDigits(s[..i]) ensures i == |n| {
          assert s[..i][|n|..] == s[|n|..i] || |n| >= i;
        }
      }
      false
  }

  datatype YoutubeProps = NoYoutubeProps | YoutubeProps(youtubeVideoId: string, aspectRatio: Option<string>)

  /** A video id the picker keeps: 1 to 11 characters of `[a-zA-Z0-9_-]`. */
  predicate IsVideoId(v: JsValue) {
    v.Str? && 0 < |v.s| < 12 && forall i :: 0 <= i < |v.s| ==> IsVideoIdChar(v.s[i])
  }

  /** `exposeYoutubeProps` */
  function ExposeYoutubeProps(youtubeVideoId: JsValue, aspectRatio: JsValue): (r: YoutubeProps)
    ensures r.YoutubeProps? <==> IsVideoId(youtubeVideoId)
    ensures r.YoutubeProps? ==> r.youtubeVideoId == youtubeVideoId.s
    ensures r.YoutubeProps? ==>
              (r.aspectRatio.Some? <==> aspectRatio.Str? && IsAspectRatio(aspectRatio.s)) &&
              (r.aspectRatio.Some? ==> r.aspectRatio.value == aspectRatio.s)
  {
    if IsVideoId(youtubeVideoId) then
      EncodeUriComponentIdentity(youtubeVideoId.s);
      var aspect := if aspectRatio.Str? && |aspectRatio.s| > 0 && IsAspectRatio(aspectRatio.s) then Some(aspectRatio.s) else None;
      YoutubeProps(EncodeUriComponent(youtubeVideoId.s), aspect)
    else NoYoutubeProps
  }

  // ---------------------------------------------------------------------------
  // Images, appearance and Open Graph data
  // ---------------------------------------------------------------------------

  /** An image variant with numeric dimensions; its URL is passed through as received. */
  datatype Variant = Variant(url: JsValue, width: real, height: real)

  datatype SanitizedImage = SanitizedImage(id: JsValue, imageType: JsValue, variants: seq<(string, Variant)>)

  predicate IsValidVariant(v: JsValue) {
    Get(v, "width").Number? && Get(v, "height").Number?
  }

  function ToVariant(v: JsValue): Variant
    requires IsValidVariant(v)
  {
    Variant(Get(v, "url"), Get(v, "width").n, Get(v, "height").n)
  }

  /** The `[key]: { url, width, height }` entry the `reduce` writes for a valid variant. */
  function Kept(entry: (string, JsValue)): (string, Variant)
    requires IsValidVariant(entry.1)
  {
    (entry.0, ToVariant(entry.1))
  }

  /** The `reduce` over the variants: the entries with numeric width and height, in order. */
  function ValidVariants(entries: seq<(string, JsValue)>): (r: seq<(string, Variant)>)
    ensures |r| <= |entries|
    ensures forall p :: p in entries && IsValidVariant(p.1) ==> Kept(p) in r
    ensures forall e :: e in r ==> exists p :: p in entries && IsValidVariant(p.1) && e == Kept(p)
  {
    if entries == [] then []
    else
      var rest := ValidVariants(entries[1..]);
      assert forall p :: p in entries <==> p == entries[0] || p in entries[1..];
      if IsValidVariant(entries[0].1) then [Kept(entries[0])] + rest else rest
  }

  /** `Object.entries(image?.attributes?.variants || {})` */
  function VariantEntries(image: JsValue): seq<(string, JsValue)> {
    ObjectEntries(Get(Get(image, "attributes"), "variants"))
  }

  /** `getValidSanitizedImage`: the image with its valid variants, if it has any. */
  function ValidSanitizedImage(image: JsValue): (r: Option<SanitizedImage>)
    ensures r.Some? <==> exists i :: 0 <= i < |VariantEntries(image)| && IsValidVariant(VariantEntries(image)[i].1)
    ensures r.Some? ==> r.value.id == Get(image, "id") && r.value.imageType == Get(image, "type") &&
                        r.value.variants == ValidVariants(VariantEntries(image))
    ensures Get(Get(image, "attributes"), "variants").Str? ==> r.None?
  {
    var valid := ValidVariants(VariantEntries(image));
    assert valid != [] ==> valid[0] in valid;
    if valid != [] then Some(SanitizedImage(Get(image, "id"), Get(image, "type"), valid)) else None
  }

  /** An array of variants is read like an object keyed by the indices: `[{width: 1, height: 1}]` gives variant `"0"`. */
  lemma ArrayVariantsAreKeyedByIndex(w: real, h: real)
    ensures var variant := Object([("width", Number(w)), ("height", Number(h))]);
            var image := Object([("attributes", Object([("variants", Array([variant]))]))]);
            ValidSanitizedImage(image) == Some(SanitizedImage(Undefined, Undefined, [("0", Variant(Undefined, w, h))]))
  {
    var variant := Object([("width", Number(w)), ("height", Number(h))]);
    var image := Object([("attributes", Object([("variants", Array([variant]))]))]);
    assert VariantEntries(image) == [(DecimalString(0), variant)];
    assert DecimalString(0) == "0";
    assert Get(variant, "width") == Number(w);
    assert "width"[0] != "height"[0];
    assert variant.entries[0].0 != "height";
    assert Lookup(variant.entries, "height") == Lookup(variant.entries[1..], "height");
    assert variant.entries[1..] == [("height", Number(h))];
    assert Get(variant, "height") == Number(h);
    assert Get(variant, "url") == Undefined;
    assert VariantEntries(image)[1..] == [];
    assert ValidVariants(VariantEntries(image)) == [("0", ToVariant(variant))];
  }

  /** A background image of another type than `imageAsset` voids the appearance. */
  predicate IsForeignImage(image: JsValue) {
    var t := Get(image, "type");
    Truthy(t) && t != Str("imageAsset")
  }

  datatype ImageOverlay = ImageOverlay(preset: string, color: Option<string>, opacity: real)

  /** The picked appearance; every part is absent from the props when `None`. */
  datatype Appearance = Appearance(
    backgroundImage: Option<SanitizedImage>,
    alt: Option<JsValue>,
    backgroundColor: Option<string>,
    backgroundImageOverlay: Option<ImageOverlay>,
    textColor: Option<string>)

  /** The props object `{}` */
  const NoAppearance := Appearance(None, None, None, None, None)

  /** `exposeCustomAppearanceProps` */
  function ExposeCustomAppearanceProps(backgroundImage: JsValue, backgroundImageOverlay: JsValue, backgroundColor: JsValue,
                                       textColor: JsValue, alt: JsValue, locale: Option<string>): (r: Appearance)
    ensures IsForeignImage(backgroundImage) ==> r == NoAppearance
    ensures !IsForeignImage(backgroundImage) ==>
              r.backgroundImage == ValidSanitizedImage(backgroundImage) &&
              (r.alt.Some? <==> r.backgroundImage.Some?) &&
              r.backgroundColor == ExposeColorValue(backgroundColor)
    ensures r.textColor.Some? <==> !IsForeignImage(backgroundImage) && (textColor == Str("light") || textColor == Str("dark"))
    ensures r.textColor.Some? ==> textColor == Str(r.textColor.value)
    ensures r.backgroundImageOverlay.Some? <==>
              !IsForeignImage(backgroundImage) && Get(backgroundImageOverlay, "preset").Str? &&
              Get(backgroundImageOverlay, "preset") != Str("none")
    ensures r.backgroundImageOverlay.Some? ==>
              var o := r.backgroundImageOverlay.value;
              Str(o.preset) == Get(backgroundImageOverlay, "preset") &&
              o.color == ExposeColorValue(Get(backgroundImageOverlay, "color")) &&
              o.opacity == (if Get(backgroundImageOverlay, "opacity").Number? then Get(backgroundImageOverlay, "opacity").n else 1.0)
  {
    if IsForeignImage(backgroundImage) then NoAppearance
    else
      var image := ValidSanitizedImage(backgroundImage);
      var localizedAlt := ResolveLocalizedString(alt, locale, false);
      var altMaybe := if image.None? then None
                      else if localizedAlt.Some? && localizedAlt.value != "" then Some(Str(localizedAlt.value))
                      else Some(alt);
      var preset := Get(backgroundImageOverlay, "preset");
      var opacity := Get(backgroundImageOverlay, "opacity");
      var overlay := if preset.Str? && preset != Str("none") then
                       Some(ImageOverlay(preset.s, ExposeColorValue(Get(backgroundImageOverlay, "color")),
                                         if opacity.Number? then opacity.n else 1.0))
                     else None;
      var text := if textColor == Str("light") || textColor == Str("dark") then Some(textColor.s) else None;
      Appearance(image, altMaybe, ExposeColorValue(backgroundColor), overlay, text)
  }

  /** The background image's alt text is its localized text when there is one, the raw value otherwise. */
  lemma AppearanceAltIsLocalized(backgroundImage: JsValue, backgroundImageOverlay: JsValue, backgroundColor: JsValue,
                                 textColor: JsValue, alt: JsValue, locale: Option<string>)
    requires !IsForeignImage(backgroundImage) && ValidSanitizedImage(backgroundImage).Some?
    ensures var r := ExposeCustomAppearanceProps(backgroundImage, backgroundImageOverlay, backgroundColor, textColor, alt, locale);
            var l := ResolveLocalizedString(alt, locale, false);
            r.alt == Some(if l.Some? then Str(l.value) else alt)
  {
  }

  datatype OpenGraphData = OpenGraphData(
    title: Option<string>,
    description: Option<string>,
    images1200: Option<seq<Variant>>,
    images600: Option<seq<Variant>>)

  /** A non-empty string, else nothing (`null`). */
  function NonEmptyString(v: JsValue): (r: Option<string>)
    ensures r.Some? <==> v.Str? && v.s != ""
    ensures r.Some? ==> v == Str(r.value)
  {
    if v.Str? && v.s != "" then Some(v.s) else None
  }

  /** The variant kept under `key`, as a one-image list. */
  function SocialImages(image: Option<SanitizedImage>, key: string): (r: Option<seq<Variant>>)
    ensures r.Some? ==> image.Some? && |r.value| == 1 && (key, r.value[0]) in image.value.variants
    ensures r.None? <==> image.None? || forall i :: 0 <= i < |image.value.variants| ==> image.value.variants[i].0 != key
  {
    if image.None? then None
    else FindVariant(image.value.variants, key)
  }

  /** The first variant named `key`, as a one-image list. */
  function FindVariant(variants: seq<(string, Variant)>, key: string): (r: Option<seq<Variant>>)
    ensures r.Some? ==> |r.value| == 1 && (key, r.value[0]) in variants
    ensures r.None? <==> forall i :: 0 <= i < |variants| ==> variants[i].0 != key
  {
    if variants == [] then None
    else if variants[0].0 == key then Some([variants[0].1])
    else
      assert forall i :: 1 <= i < |variants| ==> variants[i] == variants[1..][i - 1];
      FindVariant(variants[1..], key)
  }

  /**
   * `exposeOpenGraphData`: `None` is the `{}` returned for an image of a
   * foreign type.
   */
  function ExposeOpenGraphData(data: JsValue): (r: Option<OpenGraphData>)
    ensures r.None? <==> IsForeignImage(Get(data, "image"))
    ensures r.Some? ==> r.value.title == NonEmptyString(Get(data, "title")) &&
                        r.value.description == NonEmptyString(Get(data, "description"))
    ensures r.Some? && r.value.images1200.Some? ==>
              var img := ValidSanitizedImage(Get(data, "image"));
              img.Some? && |r.value.images1200.value| == 1 && ("social1200", r.value.images1200.value[0]) in img.value.variants
    ensures r.Some? && r.value.images600.Some? ==>
              var img := ValidSanitizedImage(Get(data, "image"));
              img.Some? && |r.value.images600.value| == 1 && ("social600", r.value.images600.value[0]) in img.value.variants
    ensures r.Some? ==> r.value.images1200 == SocialImages(ValidSanitizedImage(Get(data, "image")), "social1200") &&
                        r.value.images600 == SocialImages(ValidSanitizedImage(Get(data, "image")), "social600")
  {
    var image := Get(data, "image");
    if IsForeignImage(image) then None
    else
      var sanitized := ValidSanitizedImage(image);
      Some(OpenGraphData(NonEmptyString(Get(data, "title")), NonEmptyString(Get(data, "description")),
                         SocialImages(sanitized, "social1200"), SocialImages(sanitized, "social600")))
  }
}
