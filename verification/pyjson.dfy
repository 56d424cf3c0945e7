/**
 * The dynamically typed values the backend passes around: decoded JSON,
 * ORM column values and keyword arguments, together with the handful of
 * Python built-ins the modelled code applies to them (truthiness,
 * `dict.get`, `str()`, `int()`, `str.lower`, `str.startswith`,
 * `str.split`).
 */
module PyJson {
  import opened Wrappers

  /** A Python value. `Uuid` stands for a `uuid.UUID`, which is always truthy. */
  datatype Value =
    | Null
    | Bool(b: bool)
    | Int(i: int)
    | Str(s: string)
    | Arr(items: seq<Value>)
    | Obj(fields: map<string, Value>)
    | Uuid(u: nat)

  /** Python truthiness: `bool(v)`. */
  predicate Truthy(v: Value) {
    match v
    case Null => false
    case Bool(b) => b
    case Int(i) => i != 0
    case Str(s) => |s| > 0
    case Arr(a) => |a| > 0
    case Obj(m) => |m| > 0
    case Uuid(_) => true
  }

  /** `d.get(key, default)` on a dict. */
  function Get(m: map<string, Value>, key: string, default: Value): (r: Value)
    ensures key in m ==> r == m[key]
    ensures key !in m ==> r == default
  {
    if key in m then m[key] else default
  }

  /**
   * `v.get(key, default)` on a value of unknown type: `None` stands for the
   * AttributeError a non-dict raises.
   */
  function GetOn(v: Value, key: string, default: Value): (r: Option<Value>)
    ensures r.Some? <==> v.Obj?
    ensures v.Obj? ==> r == Some(Get(v.fields, key, default))
  {
    if v.Obj? then Some(Get(v.fields, key, default)) else None
  }

  /**
   * `for item in v`: a list yields its elements, a string its characters
   * and a dict its keys; anything else raises TypeError. A dict here keeps
   * no insertion order, so each of its keys stands as the item `Str("")`;
   * the loops that iterate a value only ever ask whether an item is a dict.
   */
  function Iterate(v: Value): (r: Option<seq<Value>>)
    ensures r.Some? <==> v.Arr? || v.Str? || v.Obj?
    ensures v.Arr? ==> r == Some(v.items)
    ensures v.Str? ==> r.Some? && |r.value| == |v.s| && forall i :: 0 <= i < |v.s| ==> r.value[i] == Str([v.s[i]])
    ensures v.Obj? ==> r.Some? && |r.value| == |v.fields| && forall i :: 0 <= i < |r.value| ==> r.value[i].Str?
    ensures r.Some? && !v.Arr? && |r.value| > 0 ==> r.value[0].Str?
  {
    match v
    case Arr(items) => Some(items)
    case Str(s) => Some(seq(|s|, i requires 0 <= i < |s| => Str([s[i]])))
    case Obj(fields) => Some(seq(|fields|, _ => Str("")))
    case _ => None
  }

  /** `len(v)` is defined: a string, a list or a dict; anything else raises TypeError. */
  predicate Sized(v: Value) {
    v.Str? || v.Arr? || v.Obj?
  }

  /** `isinstance(v, dict) and v.get("type") == "FeatureCollection"`. */
  predicate IsFeatureCollection(v: Value) {
    v.Obj? && Get(v.fields, "type", Null) == Str("FeatureCollection")
  }

  // ---------------------------------------------------------------------
  // Decimal text

  function DigitChar(d: nat): (c: char)
    requires d < 10
    ensures '0' <= c <= '9'
  {
    "0123456789"[d]
  }

  predicate IsDigit(c: char) {
    '0' <= c <= '9'
  }

  predicate AllDigits(s: string) {
    forall i :: 0 <= i < |s| ==> IsDigit(s[i])
  }

  /** The decimal text of a natural number, with no leading zeros. */
  function NatToString(n: nat): (r: string)
    ensures |r| > 0 && AllDigits(r)
    ensures |r| > 1 ==> r[0] != '0'
    decreases n
  {
    if n < 10 then [DigitChar(n)] else NatToString(n / 10) + [DigitChar(n % 10)]
  }

  /** `str(i)` for a Python int. */
  function IntToString(i: int): (r: string)
    ensures |r| > 0
    ensures i >= 0 ==> AllDigits(r)
    ensures i < 0 ==> r[0] == '-' && AllDigits(r[1..])
  {
    if i < 0 then "-" + NatToString(-i) else NatToString(i)
  }

  /** The value of a non-empty run of decimal digits. */
  function DigitsValue(s: string): (n: nat)
    requires AllDigits(s)
  {
    if |s| == 0 then 0 else 10 * DigitsValue(s[..|s| - 1]) + ((s[|s| - 1] as int) - ('0' as int))
  }

  /**
   * `int(s)` on text: an optional sign followed by at least one ASCII digit;
   * anything else raises ValueError, modelled as `None`.
   */
  function ParseInt(s: string): (r: Option<int>)
    ensures r.Some? ==> |s| > 0
    ensures |s| > 0 && AllDigits(s) ==> r == Some(DigitsValue(s))
  {
    if |s| == 0 then None
    else if s[0] == '-' || s[0] == '+' then
      var rest := s[1..];
      if |rest| > 0 && AllDigits(rest) then
        var v: int := DigitsValue(rest);
        Some(if s[0] == '-' then -v else v)
      else None
    else if AllDigits(s) then Some(DigitsValue(s))
    else None
  }

  lemma {:induction false} DigitsValueOfNatToString(n: nat)
    ensures DigitsValue(NatToString(n)) == n
    decreases n
  {
    if n >= 10 {
      var r := NatToString(n);
      var p := NatToString(n / 10);
      assert r == p + [DigitChar(n % 10)];
      assert r[..|r| - 1] == p;
      DigitsValueOfNatToString(n / 10);
    }
  }

  /** `int(str(i)) == i` for every Python int. */
  lemma ParseIntOfIntToString(i: int)
    ensures ParseInt(IntToString(i)) == Some(i)
  {
    if i < 0 {
      assert IntToString(i) == "-" + NatToString(-i);
      ParseIntOfMinus(-i);
    } else {
      assert IntToString(i) == NatToString(i);
      ParseIntOfNat(i);
    }
  }

  /** The text of a natural number reads back as that number. */
  lemma ParseIntOfNat(n: nat)
    ensures ParseInt(NatToString(n)) == Some(n)
  {
    DigitsValueOfNatToString(n);
  }

  /** A minus sign before the text of a natural number reads back as its negation. */
  lemma ParseIntOfMinus(n: nat)
    ensures ParseInt("-" + NatToString(n)) == Some(-(n as int))
  {
    var t := NatToString(n);
    var r := "-" + t;
    assert r[0] == '-' && r[1..] == t;
    DigitsValueOfNatToString(n);
  }

  /**
   * `str(v)`, which is also what an f-string substitutes. The text of a UUID,
   * a list or a dict is a stand-in (see the README).
   */
  function Show(v: Value): (r: string)
    ensures v.Str? ==> r == v.s
    ensures v.Int? ==> r == IntToString(v.i)
    ensures v == Null ==> r == "None"
  {
    match v
    case Null => "None"
    case Bool(b) => if b then "True" else "False"
    case Int(i) => IntToString(i)
    case Str(s) => s
    case Uuid(u) => "uuid-" + NatToString(u)
    case Arr(_) => "[...]"
    case Obj(_) => "{...}"
  }

  // ---------------------------------------------------------------------
  // String helpers

  /** `str.lower()` restricted to ASCII letters. */
  function Lower(s: string): (r: string)
    ensures |r| == |s|
    ensures forall i :: 0 <= i < |s| && !('A' <= s[i] <= 'Z') ==> r[i] == s[i]
  {
    if |s| == 0 then ""
    else
      var c := s[0];
      [if 'A' <= c <= 'Z' then (c as int + 32) as char else c] + Lower(s[1..])
  }

  /** `str.upper()` restricted to ASCII letters. */
  function Upper(s: string): (r: string)
    ensures |r| == |s|
    ensures forall i :: 0 <= i < |s| && !('a' <= s[i] <= 'z') ==> r[i] == s[i]
  {
    if |s| == 0 then ""
    else
      var c := s[0];
      [if 'a' <= c <= 'z' then (c as int - 32) as char else c] + Upper(s[1..])
  }

  predicate StartsWith(s: string, prefix: string) {
    |prefix| <= |s| && s[..|prefix|] == prefix
  }

  /** Python's `sub in s` on strings. */
  predicate ContainsSub(s: string, sub: string)
    decreases |s|
  {
    StartsWith(s, sub) || (|s| > 0 && ContainsSub(s[1..], sub))
  }

  /** The index of the first occurrence of `c` in `s`. */
  function IndexOf(s: string, c: char): (r: Option<nat>)
    ensures r.None? <==> c !in s
    ensures r.Some? ==> r.value < |s| && s[r.value] == c && c !in s[..r.value]
  {
    if |s| == 0 then None
    else if s[0] == c then Some(0)
    else match IndexOf(s[1..], c)
      case None => None
      case Some(k) =>
        assert s[1..][..k] == s[1..k + 1];
        assert s[..k + 1] == [s[0]] + s[1..k + 1];
        Some(k + 1)
  }

  /** `s.split(c)` for a one-character separator. */
  function Split(s: string, c: char): (r: seq<string>)
    ensures |r| >= 1
    ensures c !in s ==> r == [s]
    decreases |s|
  {
    match IndexOf(s, c)
    case None => [s]
    case Some(k) => [s[..k]] + Split(s[k + 1..], c)
  }

  /** `s.split(c, 1)`: the text before and after the first `c`. */
  function SplitFirst(s: string, c: char): (r: Option<(string, string)>)
    ensures r.None? <==> c !in s
    ensures r.Some? ==> r.value.0 + [c] + r.value.1 == s && c !in r.value.0
  {
    match IndexOf(s, c)
    case None => None
    case Some(k) =>
      assert s[..k] + [c] + s[k + 1..] == s;
      Some((s[..k], s[k + 1..]))
  }

  /** Splitting text, a dot and more text on its first dot gives back the two parts when the first part has no dot. */
  lemma SplitAtFirstDot(head: string, tail: string)
    requires '.' !in head
    ensures SplitFirst(head + ['.'] + tail, '.') == Some((head, tail))
  {
    var s := head + ['.'] + tail;
    assert s[|head|] == '.';
    assert s[..|head|] == head;
    assert s[|head| + 1..] == tail;
  }

  /** The second piece of `Split` exists exactly when the separator occurs. */
  lemma SplitHasSecondPiece(s: string, c: char)
    ensures |Split(s, c)| >= 2 <==> c in s
  {
  }

  /** Splitting on a separator never yields a piece that contains it. */
  lemma {:induction false} SplitPiecesAreSeparatorFree(s: string, c: char)
    ensures forall k :: 0 <= k < |Split(s, c)| ==> c !in Split(s, c)[k]
    decreases |s|
  {
    match IndexOf(s, c)
    case None =>
    case Some(k) =>
      SplitPiecesAreSeparatorFree(s[k + 1..], c);
  }
}
