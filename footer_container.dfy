/**
 * The footer section built by `FooterComponent`
 * (src/containers/FooterContainer/FooterContainer.js): Spanish blocks for a
 * Spanish locale when there are any, the other blocks otherwise.  Rendering
 * through the section builder is not modelled.
 */
module FooterContainer {
  import opened Wrappers
  import opened Strings
  import opened JsValues

  /** The locale's language, lower-cased, is `es`; a missing locale is "". */
  function IsSpanishLocale(locale: string): (r: bool)
    ensures var lang := BeforeFirst(locale, '-');
            r <==> |lang| == 2 && (lang[0] == 'e' || lang[0] == 'E') && (lang[1] == 's' || lang[1] == 'S')
  {
    ToLower(BeforeFirst(locale, '-')) == "es"
  }

  /** A block whose `blockId`, lower-cased, ends with `-es`. */
  function IsSpanishBlock(block: JsValue): (r: bool)
    ensures var id := Get(block, "blockId");
            r <==> id.Str? && |id.s| >= 3 && id.s[|id.s| - 3] == '-' &&
                   (id.s[|id.s| - 2] == 'e' || id.s[|id.s| - 2] == 'E') && (id.s[|id.s| - 1] == 's' || id.s[|id.s| - 1] == 'S')
  {
    var id := Get(block, "blockId");
    id.Str? && EndsWith(ToLower(id.s), "-es")
  }

  /** `blocks.filter(isSpanishBlock)` */
  function SpanishBlocks(blocks: seq<JsValue>): (r: seq<JsValue>)
    ensures |r| <= |blocks|
    ensures forall b :: b in r <==> b in blocks && IsSpanishBlock(b)
  {
    if blocks == [] then []
    else
      var rest := SpanishBlocks(blocks[1..]);
      assert forall b :: b in blocks <==> b == blocks[0] || b in blocks[1..];
      if IsSpanishBlock(blocks[0]) then [blocks[0]] + rest else rest
  }

  /** `blocks.filter(b => !isSpanishBlock(b))` */
  function DefaultBlocks(blocks: seq<JsValue>): (r: seq<JsValue>)
    ensures |r| <= |blocks|
    ensures forall b :: b in r <==> b in blocks && !IsSpanishBlock(b)
  {
    if blocks == [] then []
    else
      var rest := DefaultBlocks(blocks[1..]);
      assert forall b :: b in blocks <==> b == blocks[0] || b in blocks[1..];
      if IsSpanishBlock(blocks[0]) then rest else [blocks[0]] + rest
  }

  /** The Spanish filter keeps the original order: it distributes over concatenation. */
  lemma {:induction false} SpanishFilterKeepsOrder(a: seq<JsValue>, b: seq<JsValue>)
    ensures SpanishBlocks(a + b) == SpanishBlocks(a) + SpanishBlocks(b)
  {
    if a == [] {
      assert a + b == b;
    } else {
      assert (a + b)[0] == a[0];
      assert (a + b)[1..] == a[1..] + b;
      SpanishFilterKeepsOrder(a[1..], b);
    }
  }

  /** So does the default filter. */
  lemma {:induction false} DefaultFilterKeepsOrder(a: seq<JsValue>, b: seq<JsValue>)
    ensures DefaultBlocks(a + b) == DefaultBlocks(a) + DefaultBlocks(b)
  {
    if a == [] {
      assert a + b == b;
    } else {
      assert (a + b)[0] == a[0];
      assert (a + b)[1..] == a[1..] + b;
      DefaultFilterKeepsOrder(a[1..], b);
    }
  }

  /** Every block lands in exactly one of the two filters. */
  lemma {:induction false} FiltersPartition(blocks: seq<JsValue>)
    ensures |SpanishBlocks(blocks)| + |DefaultBlocks(blocks)| == |blocks|
    ensures SpanishBlocks(blocks) == [] ==> DefaultBlocks(blocks) == blocks
  {
    if blocks != [] {
      FiltersPartition(blocks[1..]);
    }
  }

  /** `filteredBlocks` */
  function SelectBlocks(locale: string, blocks: seq<JsValue>): (r: seq<JsValue>)
    ensures !IsSpanishLocale(locale) ==> r == DefaultBlocks(blocks)
    ensures IsSpanishLocale(locale) && SpanishBlocks(blocks) != [] ==> r == SpanishBlocks(blocks)
    ensures IsSpanishLocale(locale) && SpanishBlocks(blocks) == [] ==> r == blocks
  {
    FiltersPartition(blocks);
    if IsSpanishLocale(locale) && |SpanishBlocks(blocks)| > 0 then SpanishBlocks(blocks) else DefaultBlocks(blocks)
  }

  /** A Spanish reader never gets an empty footer when the asset has blocks. */
  lemma SpanishFooterIsNeverEmptied(locale: string, blocks: seq<JsValue>)
    requires IsSpanishLocale(locale) && blocks != []
    ensures SelectBlocks(locale, blocks) != []
  {
  }

  /** Every selected block is in the reader's language, or the language-neutral fallback. */
  lemma SelectedBlocksMatchTheLanguage(locale: string, blocks: seq<JsValue>, b: JsValue)
    requires b in SelectBlocks(locale, blocks)
    ensures b in blocks
    ensures !IsSpanishLocale(locale) ==> !IsSpanishBlock(b)
    ensures IsSpanishLocale(locale) && !IsSpanishBlock(b) ==> forall c :: c in blocks ==> !IsSpanishBlock(c)
  {
  }

  /** The locale is Spanish whatever the region or the case of the language. */
  lemma SpanishLocales()
    ensures IsSpanishLocale("es") && IsSpanishLocale("es-MX") && IsSpanishLocale("ES")
    ensures !IsSpanishLocale("en") && !IsSpanishLocale("") && !IsSpanishLocale("esp")
  {
    assert ToLower("ES") == "es";
    assert BeforeFirst("es-MX", '-') == "es";
  }

  /** The section handed to the section builder. */
  datatype FooterSection = FooterSection(entries: seq<(string, JsValue)>, blocks: seq<JsValue>)

  /** The keys the footer section sets over the asset's own. */
  const SectionKeys: seq<string> := ["sectionId", "sectionType", "linkLogoToExternalSite", "blocks"]

  /** The entries spread over the asset. */
  function SectionOverrides(logoLink: JsValue, blocks: seq<JsValue>): (r: seq<(string, JsValue)>)
    ensures Keys(r) == SectionKeys
    ensures Lookup(r, "sectionId") == Str("footer") && Lookup(r, "sectionType") == Str("footer")
    ensures Lookup(r, "linkLogoToExternalSite") == logoLink && Lookup(r, "blocks") == Array(blocks)
  {
    var r := [("sectionId", Str("footer")), ("sectionType", Str("footer")),
              ("linkLogoToExternalSite", logoLink), ("blocks", Array(blocks))];
    assert Lookup(r[3..], "blocks") == Array(blocks);
    assert Lookup(r[2..], "blocks") == Array(blocks);
    assert Lookup(r[1..], "blocks") == Array(blocks);
    assert Lookup(r[2..], "linkLogoToExternalSite") == logoLink;
    assert Lookup(r[1..], "linkLogoToExternalSite") == logoLink;
    r
  }

  /** The asset's `blocks` when it is an array, no blocks otherwise. */
  function AssetBlocks(footer: seq<(string, JsValue)>): seq<JsValue> {
    var raw := Lookup(footer, "blocks");
    if raw.Array? then raw.items else []
  }

  /**
   * `FooterComponent`: nothing for a missing or empty footer asset; otherwise
   * the asset with `sectionId` and `sectionType` set to `footer`, the topbar's
   * logo link and the selected blocks.  A missing locale is "".
   */
  function Footer(footer: seq<(string, JsValue)>, logoLink: JsValue, locale: string): (r: Option<FooterSection>)
    ensures r.None? <==> footer == []
    ensures r.Some? ==> r.value.blocks == SelectBlocks(locale, AssetBlocks(footer))
    ensures r.Some? ==>
              Lookup(r.value.entries, "sectionId") == Str("footer") && Lookup(r.value.entries, "sectionType") == Str("footer") &&
              Lookup(r.value.entries, "linkLogoToExternalSite") == logoLink &&
              Lookup(r.value.entries, "blocks") == Array(r.value.blocks)
    ensures r.Some? ==> forall k :: k !in SectionKeys ==> Lookup(r.value.entries, k) == Lookup(footer, k)
  {
    if footer == [] then None
    else
      var blocks := SelectBlocks(locale, AssetBlocks(footer));
      var overrides := SectionOverrides(logoLink, blocks);
      var s := Spread(footer, overrides);
      assert SectionKeys[0] == "sectionId" && SectionKeys[1] == "sectionType";
      assert SectionKeys[2] == "linkLogoToExternalSite" && SectionKeys[3] == "blocks";
      assert Lookup(s, "sectionId") == Lookup(overrides, "sectionId");
      assert Lookup(s, "sectionType") == Lookup(overrides, "sectionType");
      assert Lookup(s, "linkLogoToExternalSite") == Lookup(overrides, "linkLogoToExternalSite");
      assert Lookup(s, "blocks") == Lookup(overrides, "blocks");
      Some(FooterSection(s, blocks))
  }
}
