/**
 * JSON documents as Python's `json` module decodes them, and the few Python
 * operations the backend applies to them: `dict.get`, iteration in a `for`
 * loop, and `str(n)` for the answer keys of a quiz submission.
 */
module JsonValues {
  import opened Wrappers

  /**
   * A decoded JSON value. Numbers are exact rationals standing in for Python's
   * int and float; an object is a map from keys to values (the insertion order
   * of a Python dict is not modelled).
   */
  datatype Json =
    | JNull
    | JBool(b: bool)
    | JNum(n: real)
    | JStr(s: string)
    | JArr(items: seq<Json>)
    | JObj(fields: map<string, Json>)

  /** Python's `d.get(key)`: the value stored under `key`, or None (JSON null) when it is absent. */
  function Get(fields: map<string, Json>, key: string): Json {
    if key in fields then fields[key] else JNull
  }

  /**
   * The elements a Python `for` loop over `j` hands to a loop body that
   * subscripts them or calls `.get` on them, as every such loop here does.
   * A list yields its items. Iterating a dict yields its keys and iterating a
   * string yields one-character strings; neither supports the loop body, so
   * only an empty dict or an empty string gets through (with no iterations).
   * Iterating null, a boolean or a number raises TypeError. None stands for
   * "the loop raises".
   */
  function Rows(j: Json): (r: Option<seq<Json>>)
    ensures j.JArr? ==> r == Some(j.items)
    ensures r.Some? && !j.JArr? ==> r.value == []
  {
    match j
    case JArr(items) => Some(items)
    case JObj(fields) => if |fields| == 0 then Some([]) else None
    case JStr(s) => if |s| == 0 then Some([]) else None
    case _ => None
  }

  /** The decimal digit for `d`. */
  function Digit(d: nat): (c: char)
    requires d < 10
    ensures '0' <= c <= '9' && (c as int) - ('0' as int) == d
  {
    ('0' as int + d) as char
  }

  predicate AllDigits(s: string) {
    forall i :: 0 <= i < |s| ==> '0' <= s[i] <= '9'
  }

  /** Python's `str(n)` for a non-negative int: its decimal digits, no leading zeros. */
  function DecimalString(n: nat): (s: string)
    ensures |s| >= 1 && AllDigits(s)
    ensures |s| > 1 ==> s[0] != '0'
    decreases n
  {
    if n < 10 then [Digit(n)] else DecimalString(n / 10) + [Digit(n % 10)]
  }

  /** Python's `int(s)` for a string of decimal digits. */
  function DecimalValue(s: string): nat
    requires AllDigits(s)
  {
    if |s| == 0 then 0
    else 10 * DecimalValue(s[..|s| - 1]) + ((s[|s| - 1] as int) - ('0' as int))
  }

  /** `int(str(n)) == n`. */
  lemma {:induction false} DecimalRoundTrip(n: nat)
    ensures DecimalValue(DecimalString(n)) == n
    decreases n
  {
    var s := DecimalString(n);
    if n >= 10 {
      DecimalRoundTrip(n / 10);
      assert s[..|s| - 1] == DecimalString(n / 10);
    }
  }

  /** Distinct indices have distinct keys, so each question of a quiz reads its own answer. */
  lemma DecimalStringInjective(m: nat, n: nat)
    ensures DecimalString(m) == DecimalString(n) ==> m == n
  {
    DecimalRoundTrip(m);
    DecimalRoundTrip(n);
  }
}
