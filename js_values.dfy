/** JavaScript values and the object operations the source relies on. */
module JsValues {

  /**
   * A JavaScript value as the source reads it from configuration, CMS assets
   * and API payloads.  An object is its own
   * enumerable properties in property order, with distinct keys.
   */
  datatype JsValue =
    | Undefined
    | Null
    | Bool(b: bool)
    | Number(n: real)
    | Str(s: string)
    | Array(items: seq<JsValue>)
    | Object(entries: seq<(string, JsValue)>)

  /** JavaScript truthiness (NaN is not modelled). */
  predicate Truthy(v: JsValue) {
    match v
      case Undefined => false
      case Null => false
      case Bool(b) => b
      case Number(n) => n != 0.0
      case Str(s) => s != ""
      case Array(_) => true
      case Object(_) => true
  }

  /** The value stored under `key` among an object's properties, `undefined` when there is none. */
  function Lookup(entries: seq<(string, JsValue)>, key: string): (r: JsValue)
    ensures r != Undefined ==> exists i :: 0 <= i < |entries| && entries[i] == (key, r)
    ensures (forall i :: 0 <= i < |entries| ==> entries[i].0 != key) ==> r == Undefined
  {
    if |entries| == 0 then Undefined
    else if entries[0].0 == key then entries[0].1
    else
      var rest := Lookup(entries[1..], key);
      assert rest != Undefined ==> entries[1..][0..] == entries[1..];
      assert forall i :: 0 <= i < |entries| - 1 ==> entries[1..][i] == entries[i + 1];
      rest
  }

  /** `v?.[key]`: the property of an object, `undefined` for anything else or a missing key. */
  function Get(v: JsValue, key: string): (r: JsValue)
    ensures !v.Object? ==> r == Undefined
    ensures v.Object? && r != Undefined ==> exists i :: 0 <= i < |v.entries| && v.entries[i] == (key, r)
    ensures v.Object? && (forall i :: 0 <= i < |v.entries| ==> v.entries[i].0 != key) ==> r == Undefined
  {
    if v.Object? then Lookup(v.entries, key) else Undefined
  }


  /** The keys of an object's properties, in order. */
  function Keys(entries: seq<(string, JsValue)>): (r: seq<string>)
    ensures |r| == |entries|
    ensures forall i :: 0 <= i < |entries| ==> r[i] == entries[i].0
  {
    if entries == [] then [] else [entries[0].0] + Keys(entries[1..])
  }

  /**
   * `{ ...base, ...overrides }`: a key of `base` keeps its place and takes the
   * overriding value; the other overriding keys follow in their order.
   */
  function Spread(base: seq<(string, JsValue)>, overrides: seq<(string, JsValue)>): (r: seq<(string, JsValue)>)
    ensures forall k :: Lookup(r, k) == if k in Keys(overrides) then Lookup(overrides, k) else Lookup(base, k)
  {
    var r := Overwrite(base, overrides) + Unlisted(overrides, Keys(base));
    assert forall k :: Lookup(r, k) == if k in Keys(overrides) then Lookup(overrides, k) else Lookup(base, k) by {
      forall k ensures Lookup(r, k) == if k in Keys(overrides) then Lookup(overrides, k) else Lookup(base, k) {
        SpreadLookupAt(base, overrides, k);
      }
    }
    r
  }

  /** `base` with each value replaced by the overriding one where the key is overridden. */
  function Overwrite(base: seq<(string, JsValue)>, overrides: seq<(string, JsValue)>): (r: seq<(string, JsValue)>)
    ensures Keys(r) == Keys(base)
    ensures forall k :: Lookup(r, k) == (if k in Keys(base) then (if k in Keys(overrides) then Lookup(overrides, k) else Lookup(base, k)) else Undefined)
  {
    if base == [] then []
    else
      var k := base[0].0;
      var v := if k in Keys(overrides) then Lookup(overrides, k) else base[0].1;
      var rest := Overwrite(base[1..], overrides);
      assert Keys(base) == [k] + Keys(base[1..]);
      assert Keys([(k, v)] + rest) == [k] + Keys(rest);
      [(k, v)] + rest
  }

  /** The entries whose key is not among `keys`. */
  function Unlisted(entries: seq<(string, JsValue)>, keys: seq<string>): (r: seq<(string, JsValue)>)
    ensures forall k :: k in Keys(r) <==> k in Keys(entries) && k !in keys
    ensures forall k :: k !in keys ==> Lookup(r, k) == Lookup(entries, k)
  {
    if entries == [] then []
    else
      var rest := Unlisted(entries[1..], keys);
      assert Keys(entries) == [entries[0].0] + Keys(entries[1..]);
      if entries[0].0 in keys then rest
      else
        assert Keys([entries[0]] + rest) == [entries[0].0] + Keys(rest);
        [entries[0]] + rest
  }

  lemma {:induction false} LookupAppend(a: seq<(string, JsValue)>, b: seq<(string, JsValue)>, k: string)
    ensures Lookup(a + b, k) == (if k in Keys(a) then Lookup(a, k) else Lookup(b, k))
  {
    if a == [] {
      assert a + b == b;
    } else {
      assert (a + b)[0] == a[0];
      assert (a + b)[1..] == a[1..] + b;
      assert Keys(a) == [a[0].0] + Keys(a[1..]);
      LookupAppend(a[1..], b, k);
    }
  }

  lemma SpreadLookupAt(base: seq<(string, JsValue)>, overrides: seq<(string, JsValue)>, k: string)
    ensures var r := Overwrite(base, overrides) + Unlisted(overrides, Keys(base));
            Lookup(r, k) == (if k in Keys(overrides) then Lookup(overrides, k) else Lookup(base, k))
  {
    var kept := Overwrite(base, overrides);
    var added := Unlisted(overrides, Keys(base));
    LookupAppend(kept, added, k);
    if k !in Keys(base) && k !in Keys(overrides) {
      LookupMissing(base, k);
      LookupMissing(added, k);
    }
  }

  lemma LookupMissing(entries: seq<(string, JsValue)>, k: string)
    requires k !in Keys(entries)
    ensures Lookup(entries, k) == Undefined
  {
    assert forall i :: 0 <= i < |entries| ==> entries[i].0 != k by {
      forall i | 0 <= i < |entries| ensures entries[i].0 != k {
        assert Keys(entries)[i] == entries[i].0;
      }
    }
  }
  /** The decimal digit for `d`. */
  function DigitChar(d: nat): (r: char)
    requires d < 10
    ensures '0' <= r <= '9' && r as int - '0' as int == d
  {
    ('0' as int + d) as char
  }

  /** `String(n)` for a non-negative integer: its decimal digits, without leading zeros. */
  function DecimalString(n: nat): (r: string)
    ensures 1 <= |r|
    ensures forall i :: 0 <= i < |r| ==> '0' <= r[i] <= '9'
    ensures r[|r| - 1] == DigitChar(n % 10)
    ensures |r| > 1 ==> r[0] != '0'
    decreases n
  {
    if n < 10 then [DigitChar(n)] else DecimalString(n / 10) + [DigitChar(n % 10)]
  }

  /** Different indices are different property keys. */
  lemma {:induction false} DecimalStringIsInjective(m: nat, n: nat)
    requires DecimalString(m) == DecimalString(n)
    ensures m == n
    decreases m + n
  {
    var s := DecimalString(m);
    if m >= 10 && n >= 10 {
      assert DecimalString(m / 10) == s[..|s| - 1] == DecimalString(n / 10);
      DecimalStringIsInjective(m / 10, n / 10);
    }
  }

  /**
   * `Object.entries(v || {})`: an object's properties; an array's elements and
   * a string's characters under their decimal indices; nothing for any other
   * value.
   */
  function ObjectEntries(v: JsValue): (r: seq<(string, JsValue)>)
    ensures v.Object? ==> r == v.entries
    ensures v.Array? ==> |r| == |v.items| && forall i :: 0 <= i < |r| ==> r[i] == (DecimalString(i), v.items[i])
    ensures v.Str? ==> |r| == |v.s| && forall i :: 0 <= i < |r| ==> r[i] == (DecimalString(i), Str([v.s[i]]))
    ensures !v.Object? && !v.Array? && !v.Str? ==> r == []
  {
    match v
      case Object(entries) => entries
      case Array(items) => seq(|items|, i requires 0 <= i < |items| => (DecimalString(i), items[i]))
      case Str(s) => seq(|s|, i requires 0 <= i < |s| => (DecimalString(i), Str([s[i]])))
      case _ => []
  }
}
