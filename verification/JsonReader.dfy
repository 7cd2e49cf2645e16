/**
 * A reader of JSON text after the grammar of RFC 8259, and the round trip: it reads every printed
 * value back, up to the last unit. It knows nothing of the printer.
 */
module JsonReader {
  import opened Basics
  import opened TextOrder
  import opened CanonicalJson

  // ---------------------------------------------------------------------------------------
  // Strings (section 7 of RFC 8259)
  // ---------------------------------------------------------------------------------------

  function HexValue(u: Unit): Option<int> {
    if 0x30 <= u <= 0x39 then Some(u - 0x30)
    else if 0x41 <= u <= 0x46 then Some(u - 0x41 + 10)
    else if 0x61 <= u <= 0x66 then Some(u - 0x61 + 10)
    else None
  }

  function ReadHex(t: Text): (r: Option<Unit>)
    requires |t| == 4
  {
    var a, b, c, d := HexValue(t[0]), HexValue(t[1]), HexValue(t[2]), HexValue(t[3]);
    if a.Some? && b.Some? && c.Some? && d.Some?
    then Some(a.value * 4096 + b.value * 256 + c.value * 16 + d.value) else None
  }

  /** The unit that a short escape stands for. */
  function ReadShort(u: Unit): Option<Unit> {
    if u == 0x22 || u == 0x5C || u == 0x2F then Some(u)
    else if u == 0x62 then Some(8)
    else if u == 0x66 then Some(12)
    else if u == 0x6E then Some(10)
    else if u == 0x72 then Some(13)
    else if u == 0x74 then Some(9)
    else None
  }

  /** One unit of a string, escaped or not, and what follows it. */
  function ReadUnit(t: Text): (r: Option<(Unit, Text)>)
    requires t != []
    ensures r.Some? ==> |r.value.1| < |t|
  {
    if t[0] != 0x5C then (if t[0] < 0x20 then None else Some((t[0], t[1..])))
    else if |t| >= 2 && ReadShort(t[1]).Some? then Some((ReadShort(t[1]).value, t[2..]))
    else if |t| >= 6 && t[1] == 0x75 && ReadHex(t[2..6]).Some? then Some((ReadHex(t[2..6]).value, t[6..]))
    else None
  }

  /** The rest of a string up to its closing quote. */
  function ReadString(t: Text): (r: Option<(Text, Text)>)
    ensures r.Some? ==> |r.value.1| < |t|
    decreases |t|
  {
    if t == [] then None
    else if t[0] == 0x22 then Some(([], t[1..]))
    else match ReadUnit(t)
      case None => None
      case Some((u, rest)) =>
        match ReadString(rest)
        case None => None
        case Some((s, after)) => Some(([u] + s, after))
  }

  // ---------------------------------------------------------------------------------------
  // Values
  // ---------------------------------------------------------------------------------------

  function NumberRun(t: Text): (n: nat)
    ensures n <= |t|
  {
    if t == [] || !IsNumberUnit(t[0]) then 0 else 1 + NumberRun(t[1..])
  }

  function ReadScalar(t: Text): (r: Option<(Json, Text)>)
    requires t != []
    ensures r.Some? ==> |r.value.1| < |t|
  {
    if t[0] == 0x22 then
      (match ReadString(t[1..]) case None => None case Some((s, rest)) => Some((Str(s), rest)))
    else if |t| >= 4 && t[..4] == [0x6E, 0x75, 0x6C, 0x6C] then Some((Null, t[4..]))
    else if |t| >= 4 && t[..4] == [0x74, 0x72, 0x75, 0x65] then Some((Bool(true), t[4..]))
    else if |t| >= 5 && t[..5] == [0x66, 0x61, 0x6C, 0x73, 0x65] then Some((Bool(false), t[5..]))
    else
      var n := NumberRun(t);
      if IsNumberText(t[..n]) then Some((Num(t[..n]), t[n..])) else None
  }

  function ReadValue(t: Text): (r: Option<(Json, Text)>)
    ensures r.Some? ==> |r.value.1| < |t|
    decreases |t|, 0
  {
    if t == [] then None
    else if t[0] == 0x5B then
      (if |t| > 1 && t[1] == 0x5D then Some((Arr([]), t[2..]))
       else match ReadItems(t[1..])
         case None => None
         case Some((items, rest)) => Some((Arr(items), rest)))
    else if t[0] == 0x7B then
      (if |t| > 1 && t[1] == 0x7D then Some((Obj([]), t[2..]))
       else match ReadFields(t[1..])
         case None => None
         case Some((fields, rest)) => Some((Obj(fields), rest)))
    else ReadScalar(t)
  }

  /** At least one value, separated by commas, up to the closing bracket. */
  function ReadItems(t: Text): (r: Option<(seq<Json>, Text)>)
    ensures r.Some? ==> |r.value.1| < |t|
    decreases |t|, 1
  {
    match ReadValue(t)
    case None => None
    case Some((v, rest)) =>
      if rest == [] then None
      else if rest[0] == 0x5D then Some(([v], rest[1..]))
      else if rest[0] != 0x2C then None
      else match ReadItems(rest[1..])
        case None => None
        case Some((items, after)) => Some(([v] + items, after))
  }

  /** A quoted key and a colon. */
  function ReadKey(t: Text): (r: Option<(Text, Text)>)
    ensures r.Some? ==> |r.value.1| < |t|
  {
    if t == [] || t[0] != 0x22 then None
    else match ReadString(t[1..])
      case None => None
      case Some((key, rest)) => if rest == [] || rest[0] != 0x3A then None else Some((key, rest[1..]))
  }

  function ReadFields(t: Text): (r: Option<(seq<Field>, Text)>)
    ensures r.Some? ==> |r.value.1| < |t|
    decreases |t|, 1
  {
    match ReadKey(t)
    case None => None
    case Some((key, value)) =>
      match ReadValue(value)
      case None => None
      case Some((v, rest)) =>
        if rest == [] then None
        else if rest[0] == 0x7D then Some(([Field(key, v)], rest[1..]))
        else if rest[0] != 0x2C then None
        else match ReadFields(rest[1..])
          case None => None
          case Some((fields, after)) => Some(([Field(key, v)] + fields, after))
  }

  // ---------------------------------------------------------------------------------------
  // Round trip
  // ---------------------------------------------------------------------------------------

  lemma {:induction false} ReadsHexPair(b: int)
    requires 0 <= b < 256
    ensures HexValue(HexPair(b)[0]) == Some(b / 16) && HexValue(HexPair(b)[1]) == Some(b % 16)
  {
  }

  lemma {:induction false} ReadsHex(u: Unit)
    ensures |Hex(u)| == 6 && ReadHex(Hex(u)[2..6]) == Some(u)
  {
    hide HexPair, HexValue;
    ReadsHexPair(u / 256);
    ReadsHexPair(u % 256);
    var t := Hex(u)[2..6];
    assert t[0] == HexPair(u / 256)[0] && t[1] == HexPair(u / 256)[1];
    assert t[2] == HexPair(u % 256)[0] && t[3] == HexPair(u % 256)[1];
    Digits(u);
  }

  lemma {:induction false} Digits(u: Unit)
    ensures u / 256 / 16 * 4096 + u / 256 % 16 * 256 + u % 256 / 16 * 16 + u % 256 % 16 == u
  {
  }

  lemma {:induction false} ReadsUnit(u: Unit, lone: bool, x: Text)
    ensures ReadUnit(Escape(u, lone) + x) == Some((u, x))
    ensures (Escape(u, lone) + x)[0] != 0x22
  {
    hide Hex, ReadHex;
    var e := Escape(u, lone);
    var t := e + x;
    ReadsHex(u);
    assert t[0] == e[0] && t[|e|..] == x;
    if |e| > 1 { assert t[1] == e[1]; }
    if |e| == 6 {
      HexStart(u);
      assert t[2..6] == e[2..6];
    }
  }

  lemma {:induction false} HexStart(u: Unit)
    ensures |Hex(u)| == 6 && Hex(u)[0] == 0x5C && Hex(u)[1] == 0x75
  {
  }

  lemma {:induction false} ReadsBody(s: Text, i: nat, x: Text)
    requires i <= |s|
    ensures ReadString(Body(s, i) + [QUOTE] + x) == Some((s[i..], x))
    decreases |s| - i
  {
    hide Body, Escape, ReadUnit;
    BodyStart(s, i, x);
    if i < |s| {
      ReadsUnit(s[i], IsLone(s, i), Body(s, i + 1) + [QUOTE] + x);
      ReadsBody(s, i + 1, x);
      assert s[i..] == [s[i]] + s[i + 1..];
    } else {
      assert ([QUOTE] + x)[1..] == x && s[i..] == [];
    }
  }

  /** Every text, whatever it holds, is read back from its quoted form. */
  lemma {:induction false} ReadsQuoted(s: Text, x: Text)
    ensures Quote(s) != [] && (Quote(s) + x)[0] == 0x22 && ReadString((Quote(s) + x)[1..]) == Some((s, x))
  {
    hide Body, ReadString;
    assert Quote(s) + x == [QUOTE] + (Body(s, 0) + [QUOTE] + x);
    assert (Quote(s) + x)[1..] == Body(s, 0) + [QUOTE] + x;
    ReadsBody(s, 0, x);
    assert s[0..] == s;
  }

  lemma {:induction false} ReadsNumber(t: Text, n: nat, x: Text)
    requires n <= |t| && (forall i :: n <= i < |t| ==> IsNumberUnit(t[i])) && Ends(x)
    ensures NumberRun(t[n..] + x) == |t| - n
    decreases |t| - n
  {
    hide IsNumberUnit;
    if n < |t| {
      ReadsNumber(t, n + 1, x);
      assert (t[n..] + x)[0] == t[n] && (t[n..] + x)[1..] == t[n + 1..] + x;
    } else {
      assert t[n..] + x == x;
    }
  }

  lemma {:induction false} ReadsScalar(v: Json, x: Text)
    requires WellFormed(v) && Ends(x) && !v.Arr? && !v.Obj?
    ensures Print(v) != [] && ReadScalar(Print(v) + x) == Some((v, x))
    ensures (Print(v) + x)[0] !in {0x5B, 0x7B}
  {
    hide Quote, ReadString, NumberRun, Ends;
    var t := Print(v) + x;
    assert t[|Print(v)|..] == x && t[..|Print(v)|] == Print(v);
    match v
    case Null =>
    case Bool(_) =>
    case Num(text) =>
      assert t[0] == text[0];
      ReadsNumber(text, 0, x);
      assert text[0..] == text;
      NotALiteral(text, x);
    case Str(s) =>
      ReadsQuoted(s, x);
  }

  lemma {:induction false} NotALiteral(text: Text, x: Text)
    requires IsNumberText(text)
    ensures (text + x)[0] !in {0x22, 0x5B, 0x7B}
    ensures forall n :: 0 < n <= |text + x| ==> (text + x)[..n][0] !in {0x6E, 0x74, 0x66}
  {
    assert (text + x)[0] == text[0];
  }

  /** Reading a printed value gives it back, with whatever follows left over. */
  lemma {:induction false} ReadsPrinted(v: Json, x: Text)
    requires WellFormed(v) && Ends(x)
    ensures ReadValue(Print(v) + x) == Some((v, x))
    decreases v, 1
  {
    hide Print, PrintItems, PrintFields, Ends, ReadItems, ReadFields, ReadScalar;
    match v
    case Arr(items) =>
      PrintArr(items, x);
      ItemsStart(items, x);
      var t := [0x5B] + (PrintItems(items) + x);
      assert t[1..] == PrintItems(items) + x && t[1] == (PrintItems(items) + x)[0];
      if items != [] { ReadsItems(items, x); } else { assert t[2..] == x; }
    case Obj(fields) =>
      PrintObj(fields, x);
      FieldsStart(fields, x);
      var t := [0x7B] + (PrintFields(fields) + x);
      assert t[1..] == PrintFields(fields) + x && t[1] == (PrintFields(fields) + x)[0];
      if fields != [] { ReadsFields(fields, x); } else { assert t[2..] == x; }
    case _ =>
      ReadsScalar(v, x);
  }

  lemma {:induction false} ReadsItems(items: seq<Json>, x: Text)
    requires items != [] && forall i :: 0 <= i < |items| ==> WellFormed(items[i])
    ensures ReadItems(PrintItems(items) + x) == Some((items, x))
    decreases items, 0
  {
    hide Print, WellFormed, PrintItems, Ends, ItemsTail, ReadValue;
    ItemsHead(items, x);
    ItemsTailStart(items, x);
    var rest := ItemsTail(items) + x;
    ReadsPrinted(items[0], rest);
    if |items| > 1 {
      ReadsItems(items[1..], x);
      assert rest[1..] == PrintItems(items[1..]) + x;
      assert items == [items[0]] + items[1..];
    } else {
      assert rest[1..] == x && items == [items[0]];
    }
  }

  lemma {:induction false} ReadsKey(key: Text, x: Text)
    ensures ReadKey(Quote(key) + ([COLON] + x)) == Some((key, x))
  {
    hide Quote, ReadString;
    ReadsQuoted(key, [COLON] + x);
    assert ([COLON] + x)[1..] == x;
  }

  lemma {:induction false} ReadsFields(fields: seq<Field>, x: Text)
    requires fields != [] && forall i :: 0 <= i < |fields| ==> WellFormed(fields[i].value)
    ensures ReadFields(PrintFields(fields) + x) == Some((fields, x))
    decreases fields, 0
  {
    hide Print, WellFormed, Quote, PrintFields, Ends, FieldsTail, ReadValue, ReadKey;
    FieldsHead(fields, x);
    FieldsTailStart(fields, x);
    var rest := FieldsTail(fields) + x;
    ReadsKey(fields[0].key, Print(fields[0].value) + rest);
    ReadsPrinted(fields[0].value, rest);
    assert fields[0] == Field(fields[0].key, fields[0].value);
    if |fields| > 1 {
      ReadsFields(fields[1..], x);
      assert rest[1..] == PrintFields(fields[1..]) + x;
      assert fields == [fields[0]] + fields[1..];
    } else {
      assert rest[1..] == x && fields == [fields[0]];
    }
  }

  /** The canonical text is read back as the value with its keys sorted, which is the value up to key order. */
  lemma {:induction false} CanonicalTextRoundTrip(v: Json)
    requires WellFormed(v)
    ensures ReadValue(CanonicalText(v)) == Some((Canon(v), []))
    ensures Same(v, Canon(v))
  {
    hide Canon, Print, ReadValue, WellFormed, Same;
    CanonIsWellFormed(v);
    ReadsPrinted(Canon(v), []);
    assert Print(Canon(v)) + [] == Print(Canon(v));
    CanonIsSame(v);
  }

  lemma {:induction false} CanonIsSame(v: Json)
    requires WellFormed(v)
    ensures Same(v, Canon(v))
  {
    hide Canon, WellFormed, Same;
    CanonIsWellFormed(v);
    CanonDecidesSame(v, Canon(v));
    CanonIsStable(v);
  }

  /** Sorting sorted keys changes nothing. */
  lemma {:induction false} CanonIsStable(v: Json)
    requires WellFormed(v)
    ensures Canon(Canon(v)) == Canon(v)
    decreases v, 1
  {
    match v
    case Arr(items) =>
      forall i | 0 <= i < |items| ensures Canon(Canon(items[i])) == Canon(items[i]) {
        CanonIsStable(items[i]);
      }
      assert CanonItems(CanonItems(items)) == CanonItems(items);
    case Obj(fields) => CanonObjectIsStable(fields, v);
    case _ =>
  }

  lemma {:induction false} CanonObjectIsStable(fields: seq<Field>, v: Json)
    requires v == Obj(fields) && WellFormed(v)
    ensures Canon(Canon(v)) == Canon(v)
    decreases v, 0
  {
    hide Canon, Lookup, Keys, SortedKeys, Ascending, Less;
    CanonObject(fields);
    CanonKeysAscend(fields);
    var r, keys := Canon(v).fields, SortedKeys(fields);
    assert Canon(v) == Obj(r);
    AscendingIsDistinct(keys);
    CanonObject(r);
    assert Keys(r) == keys;
    SortIsIdentityOnAscending(keys);
    SortedKeysOf(r);
    forall i | 0 <= i < |r| ensures Canon(Lookup(r, keys[i])) == r[i].value {
      assert keys[i] in keys;
      LookupFinds(r, i);
      var j :| 0 <= j < |fields| && fields[j] == Field(keys[i], Lookup(fields, keys[i]));
      CanonIsStable(fields[j].value);
    }
    assert Canon(Canon(v)).fields == r;
  }

  lemma {:induction false} SortedKeysOf(fields: seq<Field>)
    ensures SortedKeys(fields) == Sort(Keys(fields))
  {
  }

  // ---------------------------------------------------------------------------------------
  // Only what must be escaped is escaped
  // ---------------------------------------------------------------------------------------

  predicate IsHalf(u: Unit, half: int) { u / 0x400 == half }

  /** A high half not followed by a low one, or a low one not preceded by a high one. */
  predicate Unpaired(s: Text, i: nat)
    requires i < |s|
  {
    || (IsHalf(s[i], 54) && (i + 1 == |s| || !IsHalf(s[i + 1], 55)))
    || (IsHalf(s[i], 55) && (i == 0 || !IsHalf(s[i - 1], 54)))
  }

  /** Which form a unit of a string takes: itself, two units, or six. */
  lemma {:induction false} EscapesAreNeeded(s: Text, i: nat)
    requires i < |s|
    ensures var e := Escape(s[i], IsLone(s, i));
      if s[i] in {8, 9, 10, 12, 13, 0x22, 0x5C} then |e| == 2
      else if s[i] < 0x20 || Unpaired(s, i) then |e| == 6 && forall k :: 2 <= k < 6 ==> !(0x41 <= e[k] <= 0x46)
      else e == [s[i]]
  {
  }
}
