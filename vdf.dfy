/** The values the scanner reads out of a decoded VDF (Valve KeyValues) file,
    and the few JavaScript coercions index.js applies to them: property
    access and optional chaining, `Object.keys`, truthiness, template-literal
    stringification and the number conversion done by the `&` operator. */
module Vdf {

  datatype Option<+T> = None | Some(value: T)

  /** A decoded VDF node: a text leaf, or an object whose own properties are
      listed in JavaScript's enumeration order (the order `Object.keys`
      returns them). `None` of an `Option<Value>` stands for
      JavaScript's `undefined`. */
  datatype Value = Text(text: string) | Object(entries: seq<(string, Value)>)

  /** A decoded object lists every own property once. */
  predicate DistinctKeys(entries: seq<(string, Value)>) {
    forall i, j :: 0 <= i < j < |entries| ==> entries[i].0 != entries[j].0
  }

  /** The value stored under `key`, found by a front-to-back search. */
  function Lookup(entries: seq<(string, Value)>, key: string): (r: Option<Value>)
    ensures r.Some? <==> exists i :: 0 <= i < |entries| && entries[i].0 == key
    ensures r.Some? ==> exists i :: 0 <= i < |entries| && entries[i] == (key, r.value)
  {
    if entries == [] then None
    else if entries[0].0 == key then Some(entries[0].1)
    else
      var r := Lookup(entries[1..], key);
      assert forall i :: 0 <= i < |entries| - 1 ==> entries[1..][i] == entries[i + 1];
      r
  }

  /** `v[key]` (equivalently `v.key`): a property of an object; none of the
      keys the scanner reads is a property of a string. */
  function Get(v: Value, key: string): Option<Value> {
    match v
    case Text(_) => None
    case Object(entries) => Lookup(entries, key)
  }

  /** `v?.key`: optional chaining, `undefined` when `v` is. */
  function Chain(v: Option<Value>, key: string): Option<Value> {
    match v
    case None => None
    case Some(x) => Get(x, key)
  }

  /** `Object.keys(v).length`: the properties of an object, the character
      indices of a string. */
  function KeyCount(v: Value): nat {
    match v
    case Text(s) => |s|
    case Object(entries) => |entries|
  }

  /** `v[Object.keys(v)[i]]`: for a string, its i-th character. */
  function Member(v: Value, i: nat): Option<Value>
    requires i < KeyCount(v)
  {
    match v
    case Text(s) => Some(Text([s[i]]))
    case Object(entries) => Lookup(entries, entries[i].0)
  }

  /** With distinct keys, the i-th key leads back to the i-th entry. */
  lemma {:induction false} MemberOfObject(entries: seq<(string, Value)>, i: nat)
    requires DistinctKeys(entries) && i < |entries|
    ensures Member(Object(entries), i) == Some(entries[i].1)
  {
    LookupDistinct(entries, i);
  }

  lemma {:induction false} LookupDistinct(entries: seq<(string, Value)>, i: nat)
    requires DistinctKeys(entries) && i < |entries|
    ensures Lookup(entries, entries[i].0) == Some(entries[i].1)
  {
    if i > 0 {
      assert entries[0].0 != entries[i].0;
      assert entries[1..][i - 1] == entries[i];
      LookupDistinct(entries[1..], i - 1);
    }
  }

  /** `!!v`: `undefined` and the empty string are falsy, other strings and
      every object are truthy. */
  predicate Truthy(v: Option<Value>) {
    match v
    case None => false
    case Some(Text(s)) => s != ""
    case Some(Object(_)) => true
  }

  /** `${v}` inside a template literal. */
  function TemplateText(v: Option<Value>): string {
    match v
    case None => "undefined"
    case Some(Text(s)) => s
    case Some(Object(_)) => "[object Object]"
  }

  predicate IsDigit(c: char) {
    '0' <= c <= '9'
  }

  predicate IsDecimal(s: string) {
    |s| > 0 && forall i :: 0 <= i < |s| ==> IsDigit(s[i])
  }

  /** The value of a string of decimal digits. */
  function DecimalValue(s: string): nat
    requires forall i :: 0 <= i < |s| ==> IsDigit(s[i])
  {
    if s == [] then 0
    else
      assert IsDigit(s[|s| - 1]);
      10 * DecimalValue(s[..|s| - 1]) + (s[|s| - 1] as int - '0' as int)
  }

  /** The number `v ?? 0` becomes as an operand of `&`, for a decimal
      numeral; `undefined` and an object give 0, and every other text is
      taken as 0 here. */
  function NumberOf(v: Option<Value>): nat {
    match v
    case Some(Text(s)) => if IsDecimal(s) then DecimalValue(s) else 0
    case _ => 0
  }

  /** Bitwise and of two naturals, bit by bit from the lowest. */
  function BitAnd(a: nat, b: nat): nat
    decreases a
  {
    if a == 0 || b == 0 then 0
    else 2 * BitAnd(a / 2, b / 2) + (if a % 2 == 1 && b % 2 == 1 then 1 else 0)
  }

  const TWO_TO_32: nat := 0x1_0000_0000

  /** `x & mask` on a non-negative JavaScript number: ToInt32 keeps the low
      32 bits, then the bits are combined. */
  function JsAnd(x: nat, mask: nat): nat {
    BitAnd(x % TWO_TO_32, mask)
  }

  /** Masking with 4 keeps exactly bit 2 of the operand, whatever its width. */
  lemma {:induction false} JsAndFour(x: nat)
    ensures JsAnd(x, 4) == if (x / 4) % 2 == 1 then 4 else 0
  {
    var m := x % TWO_TO_32;
    BitAndFour(m);
    LowBitsKeepBitTwo(x);
  }

  lemma {:induction false} BitAndFour(m: nat)
    ensures BitAnd(m, 4) == 4 * ((m / 4) % 2)
  {
    if m / 2 == 0 {
      assert m / 4 == 0;
    } else {
      assert m / 2 / 2 == m / 4;
      if m / 4 == 0 {
        assert BitAnd(m / 2, 2) == 2 * BitAnd(m / 4, 1);
      } else {
        assert BitAnd(m / 4, 1) == 2 * BitAnd(m / 8, 0) + m / 4 % 2;
        assert BitAnd(m / 2, 2) == 2 * BitAnd(m / 4, 1);
      }
    }
  }

  lemma LowBitsKeepBitTwo(x: nat)
    ensures (x % TWO_TO_32) / 4 % 2 == (x / 4) % 2
  {
    var q, r := x / 0x1_0000_0000, x % 0x1_0000_0000;
    var u := q * 0x2000_0000;
    assert x == 8 * u + r;
    assert x / 4 == 2 * u + r / 4;
  }
}
