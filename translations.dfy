/**
 * The message tables of src/translations/index.js and the shape of a request
 * to `intl.formatMessage`.  The contents of en.json and es.json are not part
 * of this model: the two tables are parameters.
 */
module Translations {
  import opened Wrappers
  import opened LocaleContext

  type Messages = map<string, string>

  /**
   * A label as the source produces it: a plain string, or the message id
   * (and default message) handed to `intl.formatMessage`, whose lookup is
   * outside this model.
   */
  datatype Label = Plain(text: string) | Formatted(id: string, defaultMessage: Option<string>)

  /** The bundled tables. */
  datatype Tables = Tables(en: Messages, es: Messages)

  /**
   * `getMessages`: English with the hosted translations on top for `en` (and
   * for any unsupported locale); English with Spanish on top for `es`, the
   * hosted translations being English-only.
   */
  function GetMessages(t: Tables, locale: string, hosted: Messages): (r: Messages)
    ensures locale != "es" ==> r.Keys == t.en.Keys + hosted.Keys
    ensures locale != "es" ==> forall k :: k in r ==> r[k] == (if k in hosted then hosted[k] else t.en[k])
    ensures locale == "es" ==> r.Keys == t.en.Keys + t.es.Keys
    ensures locale == "es" ==> forall k :: k in r ==> r[k] == (if k in t.es then t.es[k] else t.en[k])
  {
    var validLocale := if IsValidLocale(locale) then locale else DefaultLocale;
    var localeMessages := if validLocale == "es" then t.es else t.en;
    if validLocale == DefaultLocale then t.en + localeMessages + hosted
    else t.en + localeMessages
  }

  /** An unsupported locale reads the English messages. */
  lemma UnsupportedLocaleIsEnglish(t: Tables, locale: string, hosted: Messages)
    requires !IsValidLocale(locale)
    ensures GetMessages(t, locale, hosted) == GetMessages(t, "en", hosted)
  {
  }

  /** Every English key is present in every locale's messages. */
  lemma EnglishIsTheFallback(t: Tables, locale: string, hosted: Messages, key: string)
    requires key in t.en
    ensures key in GetMessages(t, locale, hosted)
  {
  }

  /** `getRawMessages`: the locale's own table, empty for an unknown locale. */
  function RawMessages(t: Tables, locale: string): (r: Messages)
    ensures locale == "en" ==> r == t.en
    ensures locale == "es" ==> r == t.es
    ensures !IsValidLocale(locale) ==> r == map[]
  {
    if locale == "en" then t.en else if locale == "es" then t.es else map[]
  }

  /** `hasTranslation`: the locale is known and its own table has the key. */
  function HasTranslation(t: Tables, locale: string, key: string): (r: bool)
    ensures r <==> IsValidLocale(locale) && key in RawMessages(t, locale)
  {
    if locale == "en" then key in t.en else if locale == "es" then key in t.es else false
  }

  /** `getAvailableLocales` */
  function AvailableLocales(): (r: seq<string>)
    ensures r == ["en", "es"]
    ensures forall l :: l in r <==> IsValidLocale(l)
  {
    SupportedLocales
  }
}
