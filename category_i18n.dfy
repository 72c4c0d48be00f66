/**
 * Category label lookup (src/util/categoryI18n.js): the request made to
 * `intl.formatMessage` for a category or subcategory, or the plain name.
 */
module CategoryI18n {
  import opened Wrappers
  import opened Translations

  const CategoryPrefix: string := "Listing.category"
  const SubcategoryPrefix: string := "Listing.subcategory"

  /**
   * `getCategoryLabel`: without an id the name; otherwise the message
   * `Listing.category.<id>` (level 1 or none) or `Listing.subcategory.<id>`
   * (deeper levels), defaulting to the name.  A missing level is 0.
   */
  function CategoryLabel(id: string, name: string, level: int, hasIntl: bool): (r: Label)
    ensures id == "" || !hasIntl ==> r == Plain(name)
    ensures id != "" && hasIntl && level > 1 ==> r == Formatted(SubcategoryPrefix + "." + id, Some(name))
    ensures id != "" && hasIntl && level <= 1 ==> r == Formatted(CategoryPrefix + "." + id, Some(name))
  {
    if id == "" then Plain(name)
    else
      var prefix := if level > 1 then SubcategoryPrefix else CategoryPrefix;
      if hasIntl then Formatted(prefix + "." + id, Some(name)) else Plain(name)
  }

  /** A category and a subcategory never ask for the same message. */
  lemma CategoryLevelsNeverCollide(id1: string, id2: string, name1: string, name2: string)
    requires id1 != "" && id2 != ""
    ensures CategoryLabel(id1, name1, 1, true).id != CategoryLabel(id2, name2, 2, true).id
  {
    var a := CategoryPrefix + "." + id1;
    var b := SubcategoryPrefix + "." + id2;
    assert a[..|CategoryPrefix|] == CategoryPrefix;
    assert b[..|SubcategoryPrefix|] == SubcategoryPrefix;
    assert a[8] != b[8];
  }
}
