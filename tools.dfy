/**
  utils/common/tools.py: `find_value`, a recursive key search over JSON-like data,
  and `adjust_decimal_places`, decimal quantization to the precision of a reference value.
 */
module Tools {

  // ---------------------------------------------------------------------------
  // find_value

  /**
    JSON-like data. `JNull` is Python's `None`; a dict keeps its entries in iteration
    (insertion) order.
   */
  datatype Json =
    | JNull
    | JBool(b: bool)
    | JNum(n: int)
    | JStr(s: string)
    | JList(items: seq<Json>)
    | JDict(entries: seq<Entry>)

  datatype Entry = Entry(key: string, value: Json)

  predicate HasKey(entries: seq<Entry>, key: string)
  {
    exists i :: 0 <= i < |entries| && entries[i].key == key
  }

  /** `data[key]`: the value stored under `key` (the first entry, should a key repeat). */
  function Lookup(entries: seq<Entry>, key: string): (v: Json)
    requires HasKey(entries, key)
    ensures exists i :: 0 <= i < |entries| && entries[i].key == key && entries[i].value == v
    decreases |entries|
  {
    if entries[0].key == key then entries[0].value
    else
      assert HasKey(entries[1..], key) by {
        var i :| 0 <= i < |entries| && entries[i].key == key;
        assert entries[1..][i - 1].key == key;
      }
      Lookup(entries[1..], key)
  }

  /** `v` is the value under some occurrence of `key` anywhere in `data`. */
  ghost predicate Occurs(data: Json, key: string, v: Json)
    decreases data
  {
    match data
    case JDict(entries) =>
      exists i :: 0 <= i < |entries| && (
        (entries[i].key == key && entries[i].value == v) || Occurs(entries[i].value, key, v))
    case JList(items) =>
      exists i :: 0 <= i < |items| && Occurs(items[i], key, v)
    case _ => false
  }

  /**
    find_value(data, key): a direct key of a dict wins outright; otherwise the dict's values,
    or a list's items, are searched in order and the first result that is not None is returned.
    A scalar yields None, and any non-None result is the value of an occurrence of `key`.
   */
  function FindValue(data: Json, key: string): (r: Json)
    ensures data.JDict? && HasKey(data.entries, key) ==> r == Lookup(data.entries, key)
    ensures data.JDict? && !HasKey(data.entries, key) ==> r == FindInValues(data.entries, key)
    ensures data.JList? ==> r == FindInItems(data.items, key)
    ensures !data.JDict? && !data.JList? ==> r == JNull
    ensures r != JNull ==> Occurs(data, key, r)
    decreases data, 1
  {
    match data
    case JDict(entries) =>
      if HasKey(entries, key) then Lookup(entries, key) else FindInValues(entries, key)
    case JList(items) => FindInItems(items, key)
    case _ => JNull
  }

  /** The loop over `data.items()` in find_value: the first non-None recursive result. */
  function FindInValues(entries: seq<Entry>, key: string): (r: Json)
    ensures r == JNull <==> forall i :: 0 <= i < |entries| ==> FindValue(entries[i].value, key) == JNull
    ensures r != JNull ==> exists i :: 0 <= i < |entries| && r == FindValue(entries[i].value, key) &&
                             forall j :: 0 <= j < i ==> FindValue(entries[j].value, key) == JNull
    ensures r != JNull ==> exists i :: 0 <= i < |entries| && Occurs(entries[i].value, key, r)
    decreases entries, 0
  {
    if |entries| == 0 then JNull
    else
      var first := FindValue(entries[0].value, key);
      if first != JNull then first
      else
        var rest := FindInValues(entries[1..], key);
        assert forall i :: 1 <= i < |entries| ==> entries[i] == entries[1..][i - 1];
        rest
  }

  /** The loop over a list in find_value: the first non-None recursive result. */
  function FindInItems(items: seq<Json>, key: string): (r: Json)
    ensures r == JNull <==> forall i :: 0 <= i < |items| ==> FindValue(items[i], key) == JNull
    ensures r != JNull ==> exists i :: 0 <= i < |items| && r == FindValue(items[i], key) &&
                             forall j :: 0 <= j < i ==> FindValue(items[j], key) == JNull
    ensures r != JNull ==> exists i :: 0 <= i < |items| && Occurs(items[i], key, r)
    decreases items, 0
  {
    if |items| == 0 then JNull
    else
      var first := FindValue(items[0], key);
      if first != JNull then first
      else
        var rest := FindInItems(items[1..], key);
        assert forall i :: 1 <= i < |items| ==> items[i] == items[1..][i - 1];
        rest
  }

  /** If no occurrence of `key` anywhere carries a non-None value, find_value returns None. */
  lemma NoOccurrenceMeansNone(data: Json, key: string)
    requires forall v :: v != JNull ==> !Occurs(data, key, v)
    ensures FindValue(data, key) == JNull
  {
  }

  // ---------------------------------------------------------------------------
  // adjust_decimal_places

  /** A finite Python `Decimal`: the number `coefficient * 10^exponent`. */
  datatype Decimal = Decimal(coefficient: int, exponent: int)

  function Pow10(n: nat): (r: nat)
    ensures r >= 1
    ensures n >= 1 ==> r % 2 == 0
  {
    if n == 0 then 1 else 10 * Pow10(n - 1)
  }

  function Abs(x: int): nat
  {
    if x < 0 then -x else x
  }

  /** The coefficient of `d` written at exponent `e` (no larger than `d`'s own exponent). */
  function ScaledTo(d: Decimal, e: int): int
    requires e <= d.exponent
  {
    d.coefficient * Pow10(d.exponent - e)
  }

  /**
    Integer division of `c` by the positive even `unit`, rounded to nearest with ties away
    from zero (Python's ROUND_HALF_UP). Twice the rounding error is at most `unit`.
   */
  function RoundHalfUp(c: int, unit: nat): (q: int)
    requires unit >= 2 && unit % 2 == 0
    ensures 2 * Abs(q * unit - c) <= unit
    ensures 2 * Abs(q * unit - c) == unit ==> Abs(q * unit) > Abs(c)
  {
    if c >= 0 then
      var q := (c + unit / 2) / unit;
      DivBounds(c + unit / 2, unit);
      q
    else
      var q := (-c + unit / 2) / unit;
      DivBounds(-c + unit / 2, unit);
      -q
  }

  lemma DivBounds(a: nat, b: nat)
    requires b > 0
    ensures (a / b) * b <= a < (a / b) * b + b
  {
  }

  /** `value.quantize(Decimal('0.1') ** places, rounding=ROUND_HALF_UP)`. */
  function Quantize(value: Decimal, places: nat): (r: Decimal)
    ensures r.exponent == -(places as int)
    ensures RoundedCorrectly(value, r)
  {
    var target := -(places as int);
    if value.exponent >= target then
      Decimal(ScaledTo(value, target), target)
    else
      var unit := Pow10(target - value.exponent);
      var q := RoundHalfUp(value.coefficient, unit);
      assert ScaledTo(Decimal(q, target), value.exponent) == q * unit;
      Decimal(q, target)
  }

  /**
    `r` is `value` rounded to `r`'s exponent: exact when `value` has no more digits than that,
    otherwise off by at most half a unit in the last place, with ties rounded away from zero.
   */
  ghost predicate RoundedCorrectly(value: Decimal, r: Decimal)
  {
    if value.exponent >= r.exponent then
      ScaledTo(r, r.exponent) == ScaledTo(value, r.exponent)
    else
      var unit := Pow10(r.exponent - value.exponent);
      var diff := Abs(ScaledTo(r, value.exponent) - value.coefficient);
      2 * diff <= unit && (2 * diff == unit ==> Abs(ScaledTo(r, value.exponent)) > Abs(value.coefficient))
  }

  /**
    adjust_decimal_places(value, reference): `value` quantized to `abs(exponent)` decimal
    places of `reference`, rounding half away from zero.
   */
  function AdjustDecimalPlaces(value: Decimal, reference: Decimal): (r: Decimal)
    ensures r.exponent == -(Abs(reference.exponent) as int)
    ensures RoundedCorrectly(value, r)
  {
    Quantize(value, Abs(reference.exponent))
  }
}
