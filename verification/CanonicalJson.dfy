/**
 * Canonical JSON text: object keys sorted, no white space, strings escaped as JSON.stringify
 * does. Two values print equally iff they are equal up to the order of object keys, so a digest
 * of the text decides whether two payloads are the same.
 *
 * Text is a sequence of UTF-16 code units; `Num` carries the text of its number.
 */
module CanonicalJson {

  import opened TextOrder

  datatype Json =
    | Null
    | Bool(b: bool)
    | Num(text: Text)
    | Str(s: Text)
    | Arr(items: seq<Json>)
    | Obj(fields: seq<Field>)

  datatype Field = Field(key: Text, value: Json)

  // ---------------------------------------------------------------------------------------
  // Well-formed values and equality up to key order
  // ---------------------------------------------------------------------------------------

  /** Digits, sign, point and exponent: the characters of a JSON number (RFC 8259, section 6). */
  predicate IsNumberUnit(u: Unit) {
    (0x30 <= u <= 0x39) || u in {0x2B, 0x2D, 0x2E, 0x45, 0x65}
  }

  predicate IsNumberText(t: Text) {
    t != [] && (forall i :: 0 <= i < |t| ==> IsNumberUnit(t[i])) && t[0] !in {0x2B, 0x2E, 0x45, 0x65}
  }

  predicate UniqueKeys(fields: seq<Field>) {
    forall i, j :: 0 <= i < j < |fields| ==> fields[i].key != fields[j].key
  }

  predicate WellFormed(v: Json) {
    match v
    case Num(t) => IsNumberText(t)
    case Arr(items) => forall i :: 0 <= i < |items| ==> WellFormed(items[i])
    case Obj(fields) => UniqueKeys(fields) && forall i :: 0 <= i < |fields| ==> WellFormed(fields[i].value)
    case _ => true
  }

  function Keys(fields: seq<Field>): (r: seq<Text>)
    ensures |r| == |fields| && forall i :: 0 <= i < |fields| ==> r[i] == fields[i].key
  {
    if fields == [] then [] else [fields[0].key] + Keys(fields[1..])
  }

  /** The value under a key, as a property access reads it. */
  function Lookup(fields: seq<Field>, key: Text): (v: Json)
    requires key in Keys(fields)
    ensures exists i :: 0 <= i < |fields| && fields[i] == Field(key, v)
  {
    if fields[0].key == key then
      assert fields[0] == Field(key, fields[0].value);
      fields[0].value
    else
      assert Keys(fields) == [fields[0].key] + Keys(fields[1..]);
      Lookup(fields[1..], key)
  }

  /** Equality of JSON values; the fields of an object have no order. */
  ghost predicate Same(a: Json, b: Json) {
    match a
    case Arr(xs) =>
      b.Arr? && |xs| == |b.items| && forall i :: 0 <= i < |xs| ==> Same(xs[i], b.items[i])
    case Obj(fs) =>
      && b.Obj?
      && (forall k :: k in Keys(fs) <==> k in Keys(b.fields))
      && forall i :: 0 <= i < |fs| ==>
           fs[i].key in Keys(b.fields) && Same(fs[i].value, Lookup(b.fields, fs[i].key))
    case _ => a == b
  }

  // ---------------------------------------------------------------------------------------
  // Printing
  // ---------------------------------------------------------------------------------------

  const QUOTE: Unit := 0x22
  const BACKSLASH: Unit := 0x5C
  const COMMA: Unit := 0x2C
  const COLON: Unit := 0x3A

  predicate IsHigh(u: Unit) { 0xD800 <= u <= 0xDBFF }

  predicate IsLow(u: Unit) { 0xDC00 <= u <= 0xDFFF }

  /** A surrogate without its partner. */
  predicate IsLone(s: Text, i: nat)
    requires i < |s|
  {
    || (IsHigh(s[i]) && !(i + 1 < |s| && IsLow(s[i + 1])))
    || (IsLow(s[i]) && !(i > 0 && IsHigh(s[i - 1])))
  }

  function HexDigit(d: int): Unit
    requires 0 <= d < 16
  {
    if d < 10 then 0x30 + d else 0x61 + d - 10
  }

  function HexPair(b: int): (r: Text)
    requires 0 <= b < 256
    ensures |r| == 2
  {
    [HexDigit(b / 16), HexDigit(b % 16)]
  }

  /** A unicode escape of four lower-case hex digits. */
  function Hex(u: Unit): Text { [BACKSLASH, 0x75] + HexPair(u / 256) + HexPair(u % 256) }

  function Escape(u: Unit, lone: bool): Text {
    if u == QUOTE || u == BACKSLASH then [BACKSLASH, u]
    else if u == 0x08 then [BACKSLASH, 0x62]
    else if u == 0x09 then [BACKSLASH, 0x74]
    else if u == 0x0A then [BACKSLASH, 0x6E]
    else if u == 0x0C then [BACKSLASH, 0x66]
    else if u == 0x0D then [BACKSLASH, 0x72]
    else if u < 0x20 || lone then Hex(u)
    else [u]
  }

  function Body(s: Text, i: nat): Text
    requires i <= |s|
    decreases |s| - i
  {
    if i == |s| then [] else Escape(s[i], IsLone(s, i)) + Body(s, i + 1)
  }

  function Quote(s: Text): Text { [QUOTE] + Body(s, 0) + [QUOTE] }

  /** The fields under the given keys, in the order of the keys. */
  function Arrange(fields: seq<Field>, keys: seq<Text>): (r: seq<Field>)
    requires forall k :: k in keys ==> k in Keys(fields)
    ensures |r| == |keys|
    ensures forall i :: 0 <= i < |keys| ==> r[i] == Field(keys[i], Lookup(fields, keys[i]))
  {
    if keys == [] then [] else
      assert keys[0] in keys && forall k :: k in keys[1..] ==> k in keys;
      [Field(keys[0], Lookup(fields, keys[0]))] + Arrange(fields, keys[1..])
  }

  /** Sort the keys of every object. */
  function Canon(v: Json): Json {
    match v
    case Arr(items) => Arr(CanonItems(items))
    case Obj(fields) =>
      var values := CanonFields(fields);
      Obj(Arrange(values, Sort(Keys(values))))
    case _ => v
  }

  function CanonItems(items: seq<Json>): (r: seq<Json>)
    ensures |r| == |items| && forall i :: 0 <= i < |items| ==> r[i] == Canon(items[i])
  {
    if items == [] then [] else [Canon(items[0])] + CanonItems(items[1..])
  }

  function CanonFields(fields: seq<Field>): (r: seq<Field>)
    ensures |r| == |fields|
    ensures forall i :: 0 <= i < |fields| ==> r[i] == Field(fields[i].key, Canon(fields[i].value))
  {
    if fields == [] then [] else [Field(fields[0].key, Canon(fields[0].value))] + CanonFields(fields[1..])
  }

  function Print(v: Json): Text {
    match v
    case Null => [0x6E, 0x75, 0x6C, 0x6C]
    case Bool(b) => if b then [0x74, 0x72, 0x75, 0x65] else [0x66, 0x61, 0x6C, 0x73, 0x65]
    case Num(text) => text
    case Str(s) => Quote(s)
    case Arr(items) => [0x5B] + PrintItems(items)
    case Obj(fields) => [0x7B] + PrintFields(fields)
  }

  /** The items separated by commas, with the closing bracket. */
  function PrintItems(items: seq<Json>): Text
    decreases items, 1
  {
    if items == [] then [0x5D] else Print(items[0]) + ItemsTail(items)
  }

  /** What follows the first item of a list. */
  function ItemsTail(items: seq<Json>): Text
    requires items != []
    decreases items, 0
  {
    if |items| == 1 then [0x5D] else [COMMA] + PrintItems(items[1..])
  }

  function PrintFields(fields: seq<Field>): Text
    decreases fields, 1
  {
    if fields == [] then [0x7D] else Quote(fields[0].key) + ([COLON] + (Print(fields[0].value) + FieldsTail(fields)))
  }

  function FieldsTail(fields: seq<Field>): Text
    requires fields != []
    decreases fields, 0
  {
    if |fields| == 1 then [0x7D] else [COMMA] + PrintFields(fields[1..])
  }

  /** The deterministic text that is hashed and stored. */
  function CanonicalText(v: Json): Text { Print(Canon(v)) }

  // ---------------------------------------------------------------------------------------
  // Unique decoding
  // ---------------------------------------------------------------------------------------

  lemma {:induction false} SplitAt(a: Text, x: Text, b: Text, y: Text)
    requires a + x == b + y && |a| == |b|
    ensures a == b && x == y
  {
    assert a == (a + x)[..|a|] && b == (b + y)[..|b|];
    assert x == (a + x)[|a|..] && y == (b + y)[|b|..];
  }

  lemma {:induction false} Assoc(a: Text, b: Text, c: Text)
    ensures a + b + c == a + (b + c)
  {
  }

  lemma {:induction false} HexPairIsInjective(a: int, b: int)
    requires 0 <= a < 256 && 0 <= b < 256 && HexPair(a) == HexPair(b)
    ensures a == b
  {
    assert HexPair(a)[0] == HexPair(b)[0] && HexPair(a)[1] == HexPair(b)[1];
  }

  lemma {:induction false} HexIsInjective(u: Unit, v: Unit)
    requires Hex(u) == Hex(v)
    ensures u == v
  {
    hide HexPair;
    assert HexPair(u / 256) == Hex(u)[2..4] && HexPair(u % 256) == Hex(u)[4..6];
    assert HexPair(v / 256) == Hex(v)[2..4] && HexPair(v % 256) == Hex(v)[4..6];
    HexPairIsInjective(u / 256, v / 256);
    HexPairIsInjective(u % 256, v % 256);
  }

  lemma {:induction false} EscapeDecodes(u: Unit, f: bool, v: Unit, g: bool, x: Text, y: Text)
    requires Escape(u, f) + x == Escape(v, g) + y
    ensures u == v && x == y
  {
    var a, b := Escape(u, f), Escape(v, g);
    assert (a + x)[0] == a[0] && (b + y)[0] == b[0];
    if |a| > 1 && |b| > 1 {
      assert (a + x)[1] == a[1] && (b + y)[1] == b[1];
    }
    assert |a| == |b|;
    SplitAt(a, x, b, y);
    if |a| == 6 {
      HexIsInjective(u, v);
    }
  }

  /** A string body ends at the first quote that is not escaped. */
  lemma {:induction false} BodyStart(s: Text, i: nat, x: Text)
    requires i <= |s|
    ensures (Body(s, i) + [QUOTE] + x)[0] == QUOTE <==> i == |s|
    ensures i == |s| ==> Body(s, i) + [QUOTE] + x == [QUOTE] + x
    ensures i < |s| ==>
      Body(s, i) + [QUOTE] + x == Escape(s[i], IsLone(s, i)) + (Body(s, i + 1) + [QUOTE] + x)
  {
    if i < |s| {
      var e := Escape(s[i], IsLone(s, i));
      assert Body(s, i) + [QUOTE] + x == e + (Body(s, i + 1) + [QUOTE] + x);
      assert (e + (Body(s, i + 1) + [QUOTE] + x))[0] == e[0];
    }
  }

  lemma {:induction false} BodyDecodes(s: Text, i: nat, t: Text, j: nat, x: Text, y: Text)
    requires i <= |s| && j <= |t|
    requires Body(s, i) + [QUOTE] + x == Body(t, j) + [QUOTE] + y
    ensures s[i..] == t[j..] && x == y
    decreases |s| - i
  {
    hide Body, Escape;
    BodyStart(s, i, x);
    BodyStart(t, j, y);
    assert i == |s| <==> j == |t|;
    if i == |s| {
      SplitAt([QUOTE], x, [QUOTE], y);
    } else {
      EscapeDecodes(s[i], IsLone(s, i), t[j], IsLone(t, j), Body(s, i + 1) + [QUOTE] + x, Body(t, j + 1) + [QUOTE] + y);
      BodyDecodes(s, i + 1, t, j + 1, x, y);
      assert s[i..] == [s[i]] + s[i + 1..] && t[j..] == [t[j]] + t[j + 1..];
    }
  }

  lemma {:induction false} QuoteDecodes(s: Text, t: Text, x: Text, y: Text)
    requires Quote(s) + x == Quote(t) + y
    ensures s == t && x == y
  {
    hide Body;
    assert Quote(s) + x == [QUOTE] + (Body(s, 0) + [QUOTE] + x);
    assert Quote(t) + y == [QUOTE] + (Body(t, 0) + [QUOTE] + y);
    SplitAt([QUOTE], Body(s, 0) + [QUOTE] + x, [QUOTE], Body(t, 0) + [QUOTE] + y);
    BodyDecodes(s, 0, t, 0, x, y);
    assert s[0..] == s && t[0..] == t;
  }

  /** What may follow a value: anything a number does not swallow. */
  predicate Ends(x: Text) { x == [] || !IsNumberUnit(x[0]) }

  lemma {:induction false} NumberGoesOn(s: Text, t: Text, x: Text, y: Text)
    requires IsNumberText(t) && s + x == t + y && |s| < |t|
    ensures !Ends(x)
  {
    assert (s + x)[|s|] == x[0] && (t + y)[|s|] == t[|s|];
  }

  lemma {:induction false} NumberDecodes(s: Text, t: Text, x: Text, y: Text)
    requires IsNumberText(s) && IsNumberText(t) && Ends(x) && Ends(y) && s + x == t + y
    ensures s == t && x == y
  {
    hide Ends, IsNumberText;
    if |s| < |t| {
      NumberGoesOn(s, t, x, y);
    } else if |t| < |s| {
      NumberGoesOn(t, s, y, x);
    }
    SplitAt(s, x, t, y);
  }

  datatype Kind = KNull | KTrue | KFalse | KNumber | KString | KArray | KObject

  function KindOf(v: Json): Kind {
    match v
    case Null => KNull
    case Bool(b) => if b then KTrue else KFalse
    case Num(_) => KNumber
    case Str(_) => KString
    case Arr(_) => KArray
    case Obj(_) => KObject
  }

  predicate Starts(u: Unit, k: Kind) {
    match k
    case KNull => u == 0x6E
    case KTrue => u == 0x74
    case KFalse => u == 0x66
    case KNumber => IsNumberUnit(u)
    case KString => u == QUOTE
    case KArray => u == 0x5B
    case KObject => u == 0x7B
  }

  /** The first unit of a printed value tells its kind. */
  lemma {:induction false} FirstUnit(v: Json, x: Text)
    requires WellFormed(v)
    ensures |Print(v)| > 0 && Starts((Print(v) + x)[0], KindOf(v))
    ensures (Print(v) + x)[0] !in {0x5D, 0x7D, COMMA}
  {
    assert (Print(v) + x)[0] == Print(v)[0];
  }

  lemma {:induction false} StartsDecides(u: Unit, j: Kind, k: Kind)
    requires Starts(u, j) && Starts(u, k)
    ensures j == k
  {
  }

  lemma {:induction false} PrintArr(items: seq<Json>, x: Text)
    ensures Print(Arr(items)) + x == [0x5B] + (PrintItems(items) + x)
  {
    hide PrintItems;
    assert Print(Arr(items)) == [0x5B] + PrintItems(items);
  }

  lemma {:induction false} PrintObj(fields: seq<Field>, x: Text)
    ensures Print(Obj(fields)) + x == [0x7B] + (PrintFields(fields) + x)
  {
    hide PrintFields;
    assert Print(Obj(fields)) == [0x7B] + PrintFields(fields);
  }

  lemma {:induction false} ScalarDecodes(a: Json, b: Json, x: Text, y: Text)
    requires WellFormed(a) && WellFormed(b) && Ends(x) && Ends(y)
    requires Print(a) + x == Print(b) + y
    requires KindOf(a) == KindOf(b) && !a.Arr? && !a.Obj?
    ensures a == b && x == y
  {
    hide Quote, Ends, IsNumberText;
    match a
    case Null => SplitAt(Print(a), x, Print(b), y);
    case Bool(_) => SplitAt(Print(a), x, Print(b), y);
    case Num(s) => NumberDecodes(s, b.text, x, y);
    case Str(s) => QuoteDecodes(s, b.s, x, y);
  }

  lemma {:induction false} Decodes(a: Json, b: Json, x: Text, y: Text)
    requires WellFormed(a) && WellFormed(b) && Ends(x) && Ends(y)
    requires Print(a) + x == Print(b) + y
    ensures a == b && x == y
    decreases a, 1
  {
    hide Print, PrintItems, PrintFields, Ends, Starts;
    FirstUnit(a, x);
    FirstUnit(b, y);
    StartsDecides((Print(a) + x)[0], KindOf(a), KindOf(b));
    match a
    case Arr(items) =>
      PrintArr(items, x);
      PrintArr(b.items, y);
      SplitAt([0x5B], PrintItems(items) + x, [0x5B], PrintItems(b.items) + y);
      ItemsDecode(items, b.items, x, y);
    case Obj(fields) =>
      PrintObj(fields, x);
      PrintObj(b.fields, y);
      SplitAt([0x7B], PrintFields(fields) + x, [0x7B], PrintFields(b.fields) + y);
      FieldsDecode(fields, b.fields, x, y);
    case _ => ScalarDecodes(a, b, x, y);
  }

  lemma {:induction false} ItemsHead(items: seq<Json>, x: Text)
    requires items != []
    ensures PrintItems(items) + x == Print(items[0]) + (ItemsTail(items) + x)
  {
    hide Print, ItemsTail;
    Assoc(Print(items[0]), ItemsTail(items), x);
  }

  lemma {:induction false} ItemsTailStart(items: seq<Json>, x: Text)
    requires items != []
    ensures Ends(ItemsTail(items) + x)
    ensures |items| == 1 ==> ItemsTail(items) + x == [0x5D] + x
    ensures |items| > 1 ==> ItemsTail(items) + x == [COMMA] + (PrintItems(items[1..]) + x)
  {
    hide PrintItems;
    if |items| > 1 {
      Assoc([COMMA], PrintItems(items[1..]), x);
    }
    assert (ItemsTail(items) + x)[0] in {0x5D, COMMA};
  }

  lemma {:induction false} TailsMatch(m: nat, n: nat, close: Unit, p: Text, q: Text, x: Text, y: Text)
    requires close != COMMA && p == q
    requires (m == 1 && p == [close] + x) || (m > 1 && p == [COMMA] + x)
    requires (n == 1 && q == [close] + y) || (n > 1 && q == [COMMA] + y)
    ensures x == y && (m == 1 <==> n == 1)
  {
    assert p[0] == q[0];
    assert p[1..] == x && q[1..] == y;
  }

  lemma {:induction false} ItemsDecode(xs: seq<Json>, ys: seq<Json>, x: Text, y: Text)
    requires forall i :: 0 <= i < |xs| ==> WellFormed(xs[i])
    requires forall i :: 0 <= i < |ys| ==> WellFormed(ys[i])
    requires PrintItems(xs) + x == PrintItems(ys) + y
    ensures xs == ys && x == y
    decreases xs, 0
  {
    hide Print, WellFormed, PrintItems, Ends, ItemsTail;
    ItemsStart(xs, x);
    ItemsStart(ys, y);
    if xs == [] {
      SplitAt([0x5D], x, [0x5D], y);
    } else {
      ItemsHead(xs, x);
      ItemsHead(ys, y);
      ItemsTailStart(xs, x);
      ItemsTailStart(ys, y);
      var p, q := ItemsTail(xs) + x, ItemsTail(ys) + y;
      Decodes(xs[0], ys[0], p, q);
      TailsMatch(|xs|, |ys|, 0x5D, p, q, if |xs| == 1 then x else PrintItems(xs[1..]) + x,
                 if |ys| == 1 then y else PrintItems(ys[1..]) + y);
      if |xs| > 1 {
        ItemsDecode(xs[1..], ys[1..], x, y);
      }
      assert xs == [xs[0]] + xs[1..] && ys == [ys[0]] + ys[1..];
    }
  }

  lemma {:induction false} ItemsStart(items: seq<Json>, x: Text)
    requires forall i :: 0 <= i < |items| ==> WellFormed(items[i])
    ensures |PrintItems(items) + x| > 0
    ensures (PrintItems(items) + x)[0] == 0x5D <==> items == []
    ensures items == [] ==> PrintItems(items) + x == [0x5D] + x
  {
    hide Print, WellFormed;
    if items != [] {
      FirstUnit(items[0], ItemsTail(items) + x);
      ItemsHead(items, x);
    }
  }

  lemma {:induction false} FieldsHead(fields: seq<Field>, x: Text)
    requires fields != []
    ensures PrintFields(fields) + x
         == Quote(fields[0].key) + ([COLON] + (Print(fields[0].value) + (FieldsTail(fields) + x)))
  {
    hide Print, Quote, FieldsTail;
    var k, v, t := Quote(fields[0].key), Print(fields[0].value), FieldsTail(fields);
    Assoc(v, t, x);
    Assoc([COLON], v + t, x);
    Assoc(k, [COLON] + (v + t), x);
  }

  lemma {:induction false} FieldsTailStart(fields: seq<Field>, x: Text)
    requires fields != []
    ensures Ends(FieldsTail(fields) + x)
    ensures |fields| == 1 ==> FieldsTail(fields) + x == [0x7D] + x
    ensures |fields| > 1 ==> FieldsTail(fields) + x == [COMMA] + (PrintFields(fields[1..]) + x)
  {
    hide PrintFields;
    if |fields| > 1 {
      Assoc([COMMA], PrintFields(fields[1..]), x);
    }
    assert (FieldsTail(fields) + x)[0] in {0x7D, COMMA};
  }

  lemma {:induction false} FieldsStart(fields: seq<Field>, x: Text)
    ensures |PrintFields(fields) + x| > 0
    ensures (PrintFields(fields) + x)[0] == 0x7D <==> fields == []
    ensures fields == [] ==> PrintFields(fields) + x == [0x7D] + x
  {
    hide Print;
    if fields != [] {
      FieldsHead(fields, x);
      assert Quote(fields[0].key)[0] == QUOTE;
    }
  }

  lemma {:induction false} FieldsDecode(fs: seq<Field>, gs: seq<Field>, x: Text, y: Text)
    requires forall i :: 0 <= i < |fs| ==> WellFormed(fs[i].value)
    requires forall i :: 0 <= i < |gs| ==> WellFormed(gs[i].value)
    requires PrintFields(fs) + x == PrintFields(gs) + y
    ensures fs == gs && x == y
    decreases fs, 0
  {
    hide Print, WellFormed, Quote, PrintFields, Ends, FieldsTail;
    FieldsStart(fs, x);
    FieldsStart(gs, y);
    if fs == [] {
      SplitAt([0x7D], x, [0x7D], y);
    } else {
      FieldsHead(fs, x);
      FieldsHead(gs, y);
      FieldsTailStart(fs, x);
      FieldsTailStart(gs, y);
      var p, q := FieldsTail(fs) + x, FieldsTail(gs) + y;
      QuoteDecodes(fs[0].key, gs[0].key, [COLON] + (Print(fs[0].value) + p), [COLON] + (Print(gs[0].value) + q));
      SplitAt([COLON], Print(fs[0].value) + p, [COLON], Print(gs[0].value) + q);
      Decodes(fs[0].value, gs[0].value, p, q);
      TailsMatch(|fs|, |gs|, 0x7D, p, q, if |fs| == 1 then x else PrintFields(fs[1..]) + x,
                 if |gs| == 1 then y else PrintFields(gs[1..]) + y);
      if |fs| > 1 {
        FieldsDecode(fs[1..], gs[1..], x, y);
      }
      assert fs == [fs[0]] + fs[1..] && gs == [gs[0]] + gs[1..];
    }
  }

  /** Printing in stored order is injective. */
  lemma {:induction false} PrintIsInjective(a: Json, b: Json)
    requires WellFormed(a) && WellFormed(b) && Print(a) == Print(b)
    ensures a == b
  {
    assert Print(a) + [] == Print(a) && Print(b) + [] == Print(b);
    Decodes(a, b, [], []);
  }

  // ---------------------------------------------------------------------------------------
  // Canonical values
  // ---------------------------------------------------------------------------------------

  lemma {:induction false} KeysOfCanon(fields: seq<Field>)
    ensures Keys(CanonFields(fields)) == Keys(fields)
  {
    var a, b := Keys(CanonFields(fields)), Keys(fields);
    assert forall i :: 0 <= i < |a| ==> a[i] == b[i];
  }

  lemma {:induction false} UniqueKeysAreDistinct(fields: seq<Field>)
    requires UniqueKeys(fields)
    ensures Distinct(Keys(fields))
  {
  }

  lemma {:induction false} LookupFinds(fields: seq<Field>, i: nat)
    requires UniqueKeys(fields) && i < |fields|
    ensures fields[i].key in Keys(fields) && Lookup(fields, fields[i].key) == fields[i].value
  {
    assert Keys(fields)[i] == fields[i].key;
    var v := Lookup(fields, fields[i].key);
    var j :| 0 <= j < |fields| && fields[j] == Field(fields[i].key, v);
  }

  lemma {:induction false} LookupInCanon(fields: seq<Field>, key: Text)
    requires UniqueKeys(fields) && key in Keys(fields)
    ensures key in Keys(CanonFields(fields)) && Lookup(CanonFields(fields), key) == Canon(Lookup(fields, key))
  {
    hide Canon;
    KeysOfCanon(fields);
    var values := CanonFields(fields);
    var i :| 0 <= i < |fields| && fields[i] == Field(key, Lookup(fields, key));
    assert values[i] == Field(key, Canon(fields[i].value));
    assert UniqueKeys(values);
    LookupFinds(values, i);
  }

  function SortedKeys(fields: seq<Field>): seq<Text> { Sort(Keys(fields)) }

  /** The canonical object lists the sorted keys, each with its canonical value. */
  lemma {:induction false} CanonObject(fields: seq<Field>)
    requires UniqueKeys(fields)
    ensures Canon(Obj(fields)).Obj?
    ensures var r, keys := Canon(Obj(fields)).fields, SortedKeys(fields);
      && |r| == |keys|
      && (forall k :: k in keys <==> k in Keys(fields))
      && forall i :: 0 <= i < |keys| ==> keys[i] in keys && r[i] == Field(keys[i], Canon(Lookup(fields, keys[i])))
  {
    var values, keys := CanonFields(fields), SortedKeys(fields);
    KeysOfCanon(fields);
    assert Canon(Obj(fields)).fields == Arrange(values, keys);
    forall i | 0 <= i < |keys| ensures Lookup(values, keys[i]) == Canon(Lookup(fields, keys[i])) {
      assert keys[i] in keys;
      LookupInCanon(fields, keys[i]);
    }
  }

  lemma {:induction false} CanonKeysAscend(fields: seq<Field>)
    requires UniqueKeys(fields)
    ensures Ascending(SortedKeys(fields))
  {
    UniqueKeysAreDistinct(fields);
    SortAscends(Keys(fields));
  }

  lemma {:induction false} CanonIsWellFormed(v: Json)
    requires WellFormed(v)
    ensures WellFormed(Canon(v))
  {
    match v
    case Arr(items) =>
      forall i | 0 <= i < |items| ensures WellFormed(CanonItems(items)[i]) {
        CanonIsWellFormed(items[i]);
      }
    case Obj(fields) => CanonObjectIsWellFormed(fields, v);
    case _ =>
  }

  lemma {:induction false} CanonObjectIsWellFormed(fields: seq<Field>, v: Json)
    requires v == Obj(fields) && WellFormed(v)
    ensures WellFormed(Canon(v))
    decreases v, 0
  {
    hide Canon, Lookup, Keys, SortedKeys, Ascending, Less;
    CanonObject(fields);
    CanonKeysAscend(fields);
    var r, keys := Canon(v).fields, SortedKeys(fields);
    AscendingIsDistinct(keys);
    forall i | 0 <= i < |r| ensures WellFormed(r[i].value) {
      assert keys[i] in keys;
      var j :| 0 <= j < |fields| && fields[j] == Field(keys[i], Lookup(fields, keys[i]));
      CanonIsWellFormed(fields[j].value);
    }
  }

  lemma {:induction false} SortedKeysAreTheKeys(fields: seq<Field>)
    ensures forall k :: k in SortedKeys(fields) <==> k in Keys(fields)
  {
  }

  lemma {:induction false} SameKeysSortAlike(fs: seq<Field>, gs: seq<Field>)
    requires UniqueKeys(fs) && UniqueKeys(gs)
    ensures (forall k :: k in Keys(fs) <==> k in Keys(gs)) <==> SortedKeys(fs) == SortedKeys(gs)
  {
    hide Keys, Ascending, SortedKeys;
    CanonKeysAscend(fs);
    CanonKeysAscend(gs);
    SortedKeysAreTheKeys(fs);
    SortedKeysAreTheKeys(gs);
    if forall k :: k in Keys(fs) <==> k in Keys(gs) {
      AscendingIsUnique(SortedKeys(fs), SortedKeys(gs));
    } else {
      var k :| (k in Keys(fs)) != (k in Keys(gs));
      assert (k in SortedKeys(fs)) != (k in SortedKeys(gs));
    }
  }

  /** Canonical objects are equal iff they have the same keys and equal canonical values under them. */
  lemma {:induction false} CanonObjectsAgree(fs: seq<Field>, gs: seq<Field>)
    requires UniqueKeys(fs) && UniqueKeys(gs)
    ensures Canon(Obj(fs)) == Canon(Obj(gs)) <==>
            && (forall k :: k in Keys(fs) <==> k in Keys(gs))
            && forall k :: k in Keys(fs) && k in Keys(gs) ==> Canon(Lookup(fs, k)) == Canon(Lookup(gs, k))
  {
    hide Canon, Keys, Lookup, SortedKeys;
    CanonObject(fs);
    CanonObject(gs);
    SameKeysSortAlike(fs, gs);
    var p, q := Canon(Obj(fs)).fields, Canon(Obj(gs)).fields;
    var j, k := SortedKeys(fs), SortedKeys(gs);
    if p == q {
      assert forall i :: 0 <= i < |j| ==> p[i].key == j[i] && q[i].key == k[i];
      assert j == k;
      forall t | t in Keys(fs) && t in Keys(gs) ensures Canon(Lookup(fs, t)) == Canon(Lookup(gs, t)) {
        assert t in j;
        var i :| 0 <= i < |j| && j[i] == t;
        assert p[i] == q[i];
      }
    }
  }

  /** Values have the same canonical form iff they are equal up to key order. */
  lemma {:induction false} CanonDecidesSame(a: Json, b: Json)
    requires WellFormed(a) && WellFormed(b)
    ensures Canon(a) == Canon(b) <==> Same(a, b)
    decreases a, 1
  {
    if a.Arr? && b.Arr? && |a.items| == |b.items| {
      forall i | 0 <= i < |a.items| ensures Canon(a.items[i]) == Canon(b.items[i]) <==> Same(a.items[i], b.items[i]) {
        CanonDecidesSame(a.items[i], b.items[i]);
      }
      assert Canon(a) == Canon(b) <==> CanonItems(a.items) == CanonItems(b.items);
    } else if a.Obj? && b.Obj? {
      ObjectsDecideSame(a, b);
    }
  }

  lemma {:induction false} ObjectsDecideSame(a: Json, b: Json)
    requires WellFormed(a) && WellFormed(b) && a.Obj? && b.Obj?
    ensures Canon(a) == Canon(b) <==> Same(a, b)
    decreases a, 0
  {
    hide Canon, Keys, Lookup;
    var fs, gs := a.fields, b.fields;
    CanonObjectsAgree(fs, gs);
    forall i | 0 <= i < |fs|
      ensures fs[i].key in Keys(fs) && Lookup(fs, fs[i].key) == fs[i].value
      ensures fs[i].key in Keys(gs) ==>
        (Canon(fs[i].value) == Canon(Lookup(gs, fs[i].key)) <==> Same(fs[i].value, Lookup(gs, fs[i].key)))
    {
      LookupFinds(fs, i);
      if fs[i].key in Keys(gs) {
        var j :| 0 <= j < |gs| && gs[j] == Field(fs[i].key, Lookup(gs, fs[i].key));
        assert WellFormed(gs[j].value);
        CanonDecidesSame(fs[i].value, gs[j].value);
      }
    }
    forall k | k in Keys(fs) ensures exists i :: 0 <= i < |fs| && fs[i] == Field(k, Lookup(fs, k)) {
      var i :| 0 <= i < |fs| && fs[i] == Field(k, Lookup(fs, k));
    }
  }

  /** The canonical texts of two values are equal iff the values are equal up to key order. */
  lemma {:induction false} CanonicalTextDecidesSame(a: Json, b: Json)
    requires WellFormed(a) && WellFormed(b)
    ensures CanonicalText(a) == CanonicalText(b) <==> Same(a, b)
  {
    hide Canon, Print, Same;
    CanonDecidesSame(a, b);
    CanonIsWellFormed(a);
    CanonIsWellFormed(b);
    if CanonicalText(a) == CanonicalText(b) {
      PrintIsInjective(Canon(a), Canon(b));
    }
  }

  // ---------------------------------------------------------------------------------------
  // The text can be encoded
  // ---------------------------------------------------------------------------------------

  /** No surrogate without its partner, so encoding the text as UTF-8 loses nothing. */
  predicate Paired(t: Text) {
    forall i :: 0 <= i < |t| ==> !IsLone(t, i)
  }

  predicate NoSurrogates(t: Text) {
    forall i :: 0 <= i < |t| ==> !IsHigh(t[i]) && !IsLow(t[i])
  }

  lemma {:induction false} PlainIsPaired(t: Text)
    requires NoSurrogates(t)
    ensures Paired(t)
  {
  }

  lemma {:induction false} PairedConcat(a: Text, b: Text)
    requires Paired(a) && Paired(b)
    ensures Paired(a + b)
  {
    var t := a + b;
    forall i | 0 <= i < |t| ensures !IsLone(t, i) {
      if i < |a| {
        assert !IsLone(a, i);
      } else {
        assert !IsLone(b, i - |a|);
      }
    }
  }

  lemma {:induction false} EscapeIsPaired(u: Unit, lone: bool)
    requires lone || (!IsHigh(u) && !IsLow(u))
    ensures Paired(Escape(u, lone))
  {
    assert NoSurrogates(Escape(u, lone));
    PlainIsPaired(Escape(u, lone));
  }

  lemma {:induction false} SurrogateIsKept(u: Unit)
    requires IsHigh(u) || IsLow(u)
    ensures Escape(u, false) == [u]
  {
  }

  lemma {:induction false} PairIsPaired(high: Unit, low: Unit)
    requires IsHigh(high) && IsLow(low)
    ensures Paired([high, low])
  {
  }

  lemma {:induction false} PairIsKept(s: Text, i: nat)
    requires i + 1 < |s| && IsHigh(s[i]) && IsLow(s[i + 1])
    ensures Body(s, i) == [s[i], s[i + 1]] + Body(s, i + 2)
  {
    hide Escape;
    SurrogateIsKept(s[i]);
    SurrogateIsKept(s[i + 1]);
    assert !IsLone(s, i) && !IsLone(s, i + 1);
    var rest := Body(s, i + 2);
    assert Body(s, i + 1) == [s[i + 1]] + rest;
    Assoc([s[i]], [s[i + 1]], rest);
  }

  /** A body that does not start in the middle of a pair is paired. */
  lemma {:induction false} BodyIsPaired(s: Text, i: nat)
    requires i <= |s| && !(0 < i < |s| && IsHigh(s[i - 1]) && IsLow(s[i]))
    ensures Paired(Body(s, i))
    decreases |s| - i
  {
    hide Escape, Paired;
    if i == |s| {
      PlainIsPaired([]);
    } else if i + 1 < |s| && IsHigh(s[i]) && IsLow(s[i + 1]) {
      PairIsKept(s, i);
      PairIsPaired(s[i], s[i + 1]);
      BodyIsPaired(s, i + 2);
      PairedConcat([s[i], s[i + 1]], Body(s, i + 2));
    } else {
      EscapeIsPaired(s[i], IsLone(s, i));
      BodyIsPaired(s, i + 1);
      PairedConcat(Escape(s[i], IsLone(s, i)), Body(s, i + 1));
    }
  }

  lemma {:induction false} WrappedIsPaired(a: Text, t: Text, b: Text)
    requires NoSurrogates(a) && Paired(t) && NoSurrogates(b)
    ensures Paired(a + t + b)
  {
    hide Paired, NoSurrogates;
    PlainIsPaired(a);
    PlainIsPaired(b);
    PairedConcat(a, t);
    PairedConcat(a + t, b);
  }

  lemma {:induction false} QuoteIsPaired(s: Text)
    ensures Paired(Quote(s))
  {
    hide Paired;
    BodyIsPaired(s, 0);
    WrappedIsPaired([QUOTE], Body(s, 0), [QUOTE]);
  }

  /** Printed values consist of characters: every surrogate has its partner. */
  lemma {:induction false} PrintIsPaired(v: Json)
    requires WellFormed(v)
    ensures Paired(Print(v))
    decreases v, 2
  {
    match v
    case Str(s) => QuoteIsPaired(s);
    case Arr(items) =>
      ItemsArePaired(items);
      PlainIsPaired([0x5B]);
      PairedConcat([0x5B], PrintItems(items));
    case Obj(fields) =>
      FieldsArePaired(fields);
      PlainIsPaired([0x7B]);
      PairedConcat([0x7B], PrintFields(fields));
    case _ => PlainIsPaired(Print(v));
  }

  lemma {:induction false} ItemsArePaired(items: seq<Json>)
    requires forall i :: 0 <= i < |items| ==> WellFormed(items[i])
    ensures Paired(PrintItems(items))
    decreases items, 1
  {
    hide Paired, Print, WellFormed;
    PlainIsPaired([0x5D]);
    if items != [] {
      PrintIsPaired(items[0]);
      if |items| > 1 {
        ItemsArePaired(items[1..]);
        PlainIsPaired([COMMA]);
        PairedConcat([COMMA], PrintItems(items[1..]));
      }
      PairedConcat(Print(items[0]), ItemsTail(items));
    }
  }

  lemma {:induction false} FieldsArePaired(fields: seq<Field>)
    requires forall i :: 0 <= i < |fields| ==> WellFormed(fields[i].value)
    ensures Paired(PrintFields(fields))
    decreases fields, 1
  {
    hide Paired, Print, WellFormed, Quote;
    PlainIsPaired([0x7D]);
    if fields != [] {
      QuoteIsPaired(fields[0].key);
      PrintIsPaired(fields[0].value);
      if |fields| > 1 {
        FieldsArePaired(fields[1..]);
        PlainIsPaired([COMMA]);
        PairedConcat([COMMA], PrintFields(fields[1..]));
      }
      PairedConcat(Print(fields[0].value), FieldsTail(fields));
      PlainIsPaired([COLON]);
      PairedConcat([COLON], Print(fields[0].value) + FieldsTail(fields));
      PairedConcat(Quote(fields[0].key), [COLON] + (Print(fields[0].value) + FieldsTail(fields)));
    }
  }

  /** The canonical text is hashed as UTF-8 without loss: it never holds half of a pair. */
  lemma {:induction false} CanonicalTextIsPaired(v: Json)
    requires WellFormed(v)
    ensures Paired(CanonicalText(v))
  {
    hide Canon, Print, Paired;
    CanonIsWellFormed(v);
    PrintIsPaired(Canon(v));
  }
}
