/**
 * Canonical JSON printing. Text is a sequence of UTF-16 code units, as in
 * ECMA-262; an object is a map from its keys.
 */
module CanonicalJson {
  import opened Wrappers

  type Unit = u: nat | u < 0x1_0000
  type Text = seq<Unit>

  /** A finite number stands as the text Number::toString gives it (section 6.1.6.1.20 of ECMA-262). */
  type NumberText = t: Text | IsNumberText(t) witness [0x30]

  datatype Json =
    | Null
    | Bool(value: bool)
    | Num(text: NumberText)
    | NonFinite(negative: bool)   // what JSON.parse makes of 1e999
    | Str(units: Text)
    | Arr(items: seq<Json>)
    | Obj(fields: map<Text, Json>)

  const QUOTE: Unit := 0x22
  const COMMA: Unit := 0x2c
  const COLON: Unit := 0x3a
  const BACKSLASH: Unit := 0x5c
  const OPEN_BRACKET: Unit := 0x5b
  const CLOSE_BRACKET: Unit := 0x5d
  const OPEN_BRACE: Unit := 0x7b
  const CLOSE_BRACE: Unit := 0x7d
  const NULL_TEXT: Text := [0x6e, 0x75, 0x6c, 0x6c]
  const TRUE_TEXT: Text := [0x74, 0x72, 0x75, 0x65]
  const FALSE_TEXT: Text := [0x66, 0x61, 0x6c, 0x73, 0x65]

  /** Digits, plus, minus, point and e. */
  predicate IsNumberUnit(u: Unit) { 0x30 <= u <= 0x39 || u in {0x2b, 0x2d, 0x2e, 0x65} }

  predicate IsNumberText(t: Text) { t != [] && forall i :: 0 <= i < |t| ==> IsNumberUnit(t[i]) }

  // ----- Strings: QuoteJSONString, section 25.5.2.3 of ECMA-262 --------

  function Hex(d: nat): Unit
    requires d < 16
  {
    if d < 10 then 0x30 + d else 0x57 + d
  }

  function UnicodeEscape(u: Unit): Text {
    [BACKSLASH, 0x75, Hex(u / 0x1000), Hex(u / 0x100 % 16), Hex(u / 16 % 16), Hex(u % 16)]
  }

  predicate Leading(u: Unit) { 0xd800 <= u <= 0xdbff }
  predicate Trailing(u: Unit) { 0xdc00 <= u <= 0xdfff }

  predicate StartsPair(s: Text) { |s| >= 2 && Leading(s[0]) && Trailing(s[1]) }

  function EscapeUnit(u: Unit): Text {
    if u == 0x08 then [BACKSLASH, 0x62]
    else if u == 0x09 then [BACKSLASH, 0x74]
    else if u == 0x0a then [BACKSLASH, 0x6e]
    else if u == 0x0c then [BACKSLASH, 0x66]
    else if u == 0x0d then [BACKSLASH, 0x72]
    else if u == QUOTE || u == BACKSLASH then [BACKSLASH, u]
    else if u < 0x20 || Leading(u) || Trailing(u) then UnicodeEscape(u)
    else [u]
  }

  /** A surrogate pair stands for itself; a lone surrogate is escaped. */
  function Escape(s: Text): Text {
    if s == [] then []
    else if StartsPair(s) then s[..2] + Escape(s[2..])
    else EscapeUnit(s[0]) + Escape(s[1..])
  }

  function Quote(s: Text): Text { [QUOTE] + Escape(s) + [QUOTE] }

  // ----- Keys, in the default order of Array.prototype.sort ------------

  predicate AtMost(a: Text, b: Text) {
    a == [] || (b != [] && (a[0] < b[0] || (a[0] == b[0] && AtMost(a[1..], b[1..]))))
  }

  lemma {:induction false} OrderIsTotal(a: Text, b: Text)
    ensures AtMost(a, b) || AtMost(b, a)
    ensures AtMost(a, b) && AtMost(b, a) ==> a == b
  {
    if a != [] && b != [] && a[0] == b[0] {
      OrderIsTotal(a[1..], b[1..]);
      assert a == [a[0]] + a[1..] && b == [b[0]] + b[1..];
    }
  }

  lemma {:induction false} OrderIsTransitive(a: Text, b: Text, c: Text)
    requires AtMost(a, b) && AtMost(b, c)
    ensures AtMost(a, c)
  {
    if a != [] && a[0] == b[0] && b[0] == c[0] { OrderIsTransitive(a[1..], b[1..], c[1..]); }
  }

  /** The order of code units: a beginning comes first, and else the smaller unit where the two first differ. */
  lemma {:induction false} OrderByFirstDifference(a: Text, b: Text)
    ensures AtMost(a, b) <==> a <= b || exists i :: SmallerAt(a, b, i)
  {
    if a != [] && b != [] {
      if a[0] == b[0] {
        var x, y := a[1..], b[1..];
        OrderByFirstDifference(x, y);
        assert a == [a[0]] + x && b == [b[0]] + y;
        assert a <= b <==> x <= y;
        if i :| SmallerAt(x, y, i) { assert a[..i + 1] == [a[0]] + x[..i]; assert SmallerAt(a, b, i + 1); }
        if i :| SmallerAt(a, b, i) { assert x[..i - 1] == a[..i][1..]; assert SmallerAt(x, y, i - 1); }
      } else {
        assert AtMost(a, b) ==> SmallerAt(a, b, 0);
        assert forall i :: 0 < i <= |a| ==> a[..i][0] == a[0];
        assert forall i :: 0 < i <= |b| ==> b[..i][0] == b[0];
      }
    }
  }

  predicate SmallerAt(a: Text, b: Text, i: int) {
    0 <= i < |a| && i < |b| && a[..i] == b[..i] && a[i] < b[i]
  }

  predicate IsLeast(k: Text, keys: set<Text>) { k in keys && forall j :: j in keys ==> AtMost(k, j) }

  lemma {:induction false} LeastExists(keys: set<Text>)
    requires keys != {}
    ensures exists k :: IsLeast(k, keys)
  {
    var x :| x in keys;
    OrderIsTotal(x, x);
    if keys == {x} { assert IsLeast(x, keys); }
    else {
      LeastExists(keys - {x});
      var m :| IsLeast(m, keys - {x});
      OrderIsTotal(x, m);
      var k := if AtMost(x, m) then x else m;
      forall j | j in keys ensures AtMost(k, j) {
        if j != x && k == x { OrderIsTransitive(x, m, j); }
      }
      assert IsLeast(k, keys);
    }
  }

  function Least(keys: set<Text>): (k: Text)
    requires keys != {}
    ensures IsLeast(k, keys)
  {
    LeastExists(keys);
    assert forall a, b :: IsLeast(a, keys) && IsLeast(b, keys) ==> a == b by {
      forall a, b | IsLeast(a, keys) && IsLeast(b, keys) ensures a == b { OrderIsTotal(a, b); }
    }
    var k :| k in keys && IsLeast(k, keys);
    k
  }

  function SortedKeys(keys: set<Text>): (sorted: seq<Text>)
    ensures forall k :: k in sorted <==> k in keys
    decreases |keys|
  {
    if keys == {} then [] else [Least(keys)] + SortedKeys(keys - {Least(keys)})
  }

  predicate Ascend(s: seq<Text>) { forall i, j :: 0 <= i < j < |s| ==> AtMost(s[i], s[j]) && s[i] != s[j] }

  lemma {:induction false} KeysAreSorted(keys: set<Text>)
    ensures Ascend(SortedKeys(keys))
    decreases |keys|
  {
    if keys != {} {
      var least := Least(keys);
      var rest := keys - {least};
      KeysAreSorted(rest);
      var s := SortedKeys(rest);
      forall j | 0 <= j < |s| ensures AtMost(least, s[j]) && s[j] != least { assert s[j] in rest; }
      LeastGoesFirst(least, s);
    }
  }

  lemma LeastGoesFirst(least: Text, s: seq<Text>)
    requires Ascend(s) && forall j :: 0 <= j < |s| ==> AtMost(least, s[j]) && s[j] != least
    ensures Ascend([least] + s)
  {
  }

  // ----- Printing --------------------------------------------------------

  function Print(j: Json): Text
    decreases j, 1, 0, 0
  {
    match j
    case Null => NULL_TEXT
    case Bool(b) => if b then TRUE_TEXT else FALSE_TEXT
    case Num(t) => t
    case NonFinite(_) => NULL_TEXT
    case Str(s) => Quote(s)
    case Arr(items) => [OPEN_BRACKET] + PrintItems(items) + [CLOSE_BRACKET]
    case Obj(fields) => [OPEN_BRACE] + PrintFields(j, SortedKeys(fields.Keys)) + [CLOSE_BRACE]
  }

  function PrintItems(items: seq<Json>): Text
    decreases items, 0, 0, 1
  {
    if items == [] then [] else Print(items[0]) + MoreItems(items[1..])
  }

  function MoreItems(items: seq<Json>): Text
    decreases items, 0, 0, 2
  {
    if items == [] then [] else [COMMA] + PrintItems(items)
  }

  function PrintFields(j: Json, keys: seq<Text>): Text
    requires j.Obj? && forall k :: k in keys ==> k in j.fields
    decreases j, 0, |keys|, 1
  {
    if keys == [] then [] else Quote(keys[0]) + [COLON] + Print(j.fields[keys[0]]) + MoreFields(j, keys[1..])
  }

  function MoreFields(j: Json, keys: seq<Text>): Text
    requires j.Obj? && forall k :: k in keys ==> k in j.fields
    decreases j, 0, |keys|, 2
  {
    if keys == [] then [] else [COMMA] + PrintFields(j, keys)
  }

  /** What the printing cannot tell apart: a number that is not finite is printed as null. */
  function Nulled(j: Json): Json {
    match j
    case NonFinite(_) => Null
    case Arr(items) => Arr(seq(|items|, i requires 0 <= i < |items| => Nulled(items[i])))
    case Obj(fields) => Obj(map k | k in fields :: Nulled(fields[k]))
    case _ => j
  }

  // ----- Strings print uniquely ------------------------------------------

  /** The units the next character of a string prints as, and how many units of the string it is. */
  function First(s: Text): (Text, nat)
    requires s != []
  {
    if StartsPair(s) then (s[..2], 2) else (EscapeUnit(s[0]), 1)
  }

  lemma EscapeUnitIsUnique(u: Unit, v: Unit, x: Text, y: Text)
    requires EscapeUnit(u) + x == EscapeUnit(v) + y
    ensures u == v && x == y
  {
    var left, right := EscapeUnit(u) + x, EscapeUnit(v) + y;
    assert left[0] == right[0];
    if left[0] == BACKSLASH {
      assert left[1] == right[1];
      if left[1] == 0x75 {
        assert left[2] == right[2] && left[3] == right[3] && left[4] == right[4] && left[5] == right[5];
        HexDigitsAreUnique(u, v);
      }
    }
    assert x == left[|EscapeUnit(u)|..] && y == right[|EscapeUnit(v)|..];
  }

  lemma HexDigitsAreUnique(u: Unit, v: Unit)
    requires Hex(u / 0x1000) == Hex(v / 0x1000) && Hex(u / 0x100 % 16) == Hex(v / 0x100 % 16)
    requires Hex(u / 16 % 16) == Hex(v / 16 % 16) && Hex(u % 16) == Hex(v % 16)
    ensures u == v
  {
    FromDigits(u);
    FromDigits(v);
  }

  lemma FromDigits(u: Unit)
    ensures u == u / 0x1000 * 0x1000 + u / 0x100 % 16 * 0x100 + u / 16 % 16 * 16 + u % 16
  {
    assert u / 0x100 == u / 0x1000 * 16 + u / 0x100 % 16;
    assert u / 16 == u / 0x100 * 16 + u / 16 % 16;
  }

  /** No character prints as a bare quote or as half of a pair. */
  lemma FirstIsUnique(s: Text, t: Text, x: Text, y: Text)
    requires s != [] && t != [] && First(s).0 + x == First(t).0 + y
    ensures First(s).1 == First(t).1 && s[..First(s).1] == t[..First(t).1] && x == y
  {
    var left, right := First(s).0 + x, First(t).0 + y;
    assert left[0] == right[0];
    if StartsPair(s) && StartsPair(t) {
      assert left[1] == right[1];
      assert x == left[2..] && y == right[2..];
    } else if !StartsPair(s) && !StartsPair(t) {
      EscapeUnitIsUnique(s[0], t[0], x, y);
    }
  }

  lemma EscapeUnfolds(s: Text, rest: Text)
    requires s != []
    ensures Escape(s) + rest == First(s).0 + (Escape(s[First(s).1..]) + rest)
    ensures (Escape(s) + rest)[0] != QUOTE
  {
  }

  lemma {:induction false} QuotedTextEndsOnce(s: Text, t: Text, x: Text, y: Text)
    requires Escape(s) + ([QUOTE] + x) == Escape(t) + ([QUOTE] + y)
    ensures s == t && x == y
    decreases |s|
  {
    var left, right := [QUOTE] + x, [QUOTE] + y;
    if s != [] { EscapeUnfolds(s, left); }
    if t != [] { EscapeUnfolds(t, right); }
    if s == [] && t == [] {
      assert Escape(s) + left == left && Escape(t) + right == right;
      assert x == left[1..] && y == right[1..];
    } else if s != [] && t != [] {
      var n := First(s).1;
      FirstIsUnique(s, t, Escape(s[n..]) + left, Escape(t[First(t).1..]) + right);
      QuotedTextEndsOnce(s[n..], t[n..], x, y);
      assert s == s[..n] + s[n..] && t == t[..n] + t[n..];
    }
  }

  lemma QuoteIsUnique(s: Text, t: Text, x: Text, y: Text)
    requires Quote(s) + x == Quote(t) + y
    ensures s == t && x == y
  {
    assert Quote(s) + x == [QUOTE] + (Escape(s) + ([QUOTE] + x));
    assert Quote(t) + y == [QUOTE] + (Escape(t) + ([QUOTE] + y));
    assert (Quote(s) + x)[1..] == Escape(s) + ([QUOTE] + x);
    assert (Quote(t) + y)[1..] == Escape(t) + ([QUOTE] + y);
    QuotedTextEndsOnce(s, t, x, y);
  }

  // ----- Strings read back -----------------------------------------------

  /** A hexadecimal digit in either case. */
  function HexValue(u: Unit): Option<nat> {
    if 0x30 <= u <= 0x39 then Some(u - 0x30)
    else if 0x41 <= u <= 0x46 then Some(u - 0x41 + 10)
    else if 0x61 <= u <= 0x66 then Some(u - 0x61 + 10)
    else None
  }

  function HexUnit(t: Text): Option<Unit>
    requires |t| == 4
  {
    var a, b, c, d := HexValue(t[0]), HexValue(t[1]), HexValue(t[2]), HexValue(t[3]);
    if a.None? || b.None? || c.None? || d.None? then None
    else
      var value: nat := a.value * 0x1000 + b.value * 0x100 + c.value * 0x10 + d.value;
      if value < 0x1_0000 then Some(value) else None
  }

  /** The escapes of a string of JSON (section 7 of RFC 8259) other than that by hexadecimal digits. */
  function ShortEscape(u: Unit): Option<Unit> {
    match u
    case 0x22 => Some(0x22)   // "
    case 0x5c => Some(0x5c)   // \
    case 0x2f => Some(0x2f)   // /
    case 0x62 => Some(0x08)   // b
    case 0x66 => Some(0x0c)   // f
    case 0x6e => Some(0x0a)   // n
    case 0x72 => Some(0x0d)   // r
    case 0x74 => Some(0x09)   // t
    case _ => None
  }

  /** What stands between the quotes of a string of JSON, read by the grammar of RFC 8259. */
  function ReadString(t: Text): Option<Text> {
    if t == [] then Some([])
    else if t[0] < 0x20 || t[0] == QUOTE then None
    else if t[0] != BACKSLASH then Prepend(t[0], ReadString(t[1..]))
    else if |t| < 2 then None
    else if ShortEscape(t[1]).Some? then Prepend(ShortEscape(t[1]).value, ReadString(t[2..]))
    else if t[1] == 0x75 && |t| >= 6 && HexUnit(t[2..6]).Some? then Prepend(HexUnit(t[2..6]).value, ReadString(t[6..]))
    else None
  }

  function Prepend(u: Unit, rest: Option<Text>): Option<Text> { if rest.Some? then Some([u] + rest.value) else None }

  lemma HexDigitReadsBack(d: nat)
    requires d < 16
    ensures HexValue(Hex(d)) == Some(d)
  {
  }

  lemma HexReadsBack(u: Unit)
    ensures HexUnit(UnicodeEscape(u)[2..6]) == Some(u)
  {
    FromDigits(u);
    HexDigitReadsBack(u / 0x1000);
    HexDigitReadsBack(u / 0x100 % 16);
    HexDigitReadsBack(u / 16 % 16);
    HexDigitReadsBack(u % 16);
    var t := UnicodeEscape(u);
    assert t[2..6] == [Hex(u / 0x1000), Hex(u / 0x100 % 16), Hex(u / 16 % 16), Hex(u % 16)];
  }

  lemma UnitReadsBack(u: Unit, rest: Text)
    ensures ReadString(EscapeUnit(u) + rest) == Prepend(u, ReadString(rest))
  {
    var e := EscapeUnit(u);
    var t := e + rest;
    assert t[|e|..] == rest;
    if |e| == 6 {
      HexReadsBack(u);
      assert t[2..6] == UnicodeEscape(u)[2..6];
    }
  }

  /** What is printed of a string reads back, by the grammar of JSON, as that string. */
  lemma QuotedReadsBack(s: Text)
    ensures |Quote(s)| >= 2 && Quote(s)[0] == QUOTE && Quote(s)[|Quote(s)| - 1] == QUOTE
    ensures ReadString(Quote(s)[1..|Quote(s)| - 1]) == Some(s)
  {
    assert Quote(s)[1..|Quote(s)| - 1] == Escape(s);
    EscapedReadsBack(s);
  }

  lemma {:induction false} EscapedReadsBack(s: Text)
    ensures ReadString(Escape(s)) == Some(s)
    decreases |s|
  {
    if s != [] {
      if StartsPair(s) {
        EscapedReadsBack(s[2..]);
        PairReadsBack(s[0], s[1], Escape(s[2..]));
        assert s[..2] == [s[0], s[1]] && s == [s[0]] + ([s[1]] + s[2..]);
      } else {
        EscapedReadsBack(s[1..]);
        UnitReadsBack(s[0], Escape(s[1..]));
        assert s == [s[0]] + s[1..];
      }
    }
  }

  lemma PairReadsBack(u: Unit, v: Unit, rest: Text)
    requires Leading(u) && Trailing(v)
    ensures ReadString([u, v] + rest) == Prepend(u, Prepend(v, ReadString(rest)))
  {
    var t := [u, v] + rest;
    assert t[1..] == [v] + rest && t[1..][1..] == rest;
  }

  // ----- Values print uniquely -------------------------------------------

  /** What may follow a value: nothing, or something that cannot continue a number. */
  predicate Ends(rest: Text) { rest == [] || !IsNumberUnit(rest[0]) }

  /** A number is read up to the first unit that no number has. */
  lemma NumberIsUnique(a: NumberText, b: NumberText, x: Text, y: Text)
    requires a + x == b + y && Ends(x) && Ends(y)
    ensures a == b && x == y
  {
    var whole := a + x;
    assert forall i :: 0 <= i < |a| ==> IsNumberUnit(whole[i]) by {
      forall i | 0 <= i < |a| ensures IsNumberUnit(whole[i]) { assert whole[i] == a[i]; }
    }
    assert forall i :: 0 <= i < |b| ==> IsNumberUnit(whole[i]) by {
      forall i | 0 <= i < |b| ensures IsNumberUnit(whole[i]) { assert whole[i] == (b + y)[i] == b[i]; }
    }
    assert |a| < |whole| ==> whole[|a|] == x[0];
    assert |b| < |whole| ==> whole[|b|] == (b + y)[|b|] == y[0];
    assert |a| == |b|;
    assert a == whole[..|a|] && b == whole[..|b|];
    assert x == whole[|a|..] && y == whole[|b|..];
  }

  lemma HeadOf(j: Json, x: Text)
    ensures Print(j) != [] && (Print(j) + x)[0] == Print(j)[0]
    ensures match j
            case Null => Print(j)[0] == 0x6e
            case NonFinite(_) => Print(j)[0] == 0x6e
            case Bool(b) => Print(j)[0] == if b then 0x74 else 0x66
            case Num(_) => IsNumberUnit(Print(j)[0])
            case Str(_) => Print(j)[0] == QUOTE
            case Arr(_) => Print(j)[0] == OPEN_BRACKET
            case Obj(_) => Print(j)[0] == OPEN_BRACE
  {
  }

  lemma SameKind(a: Json, b: Json, x: Text, y: Text)
    requires Print(a) + x == Print(b) + y
    ensures (a.Num? <==> b.Num?) && (a.Str? <==> b.Str?) && (a.Arr? <==> b.Arr?) && (a.Obj? <==> b.Obj?)
    ensures !a.Num? && !a.Str? && !a.Arr? && !a.Obj? ==> Print(a) == Print(b) && Nulled(a) == Nulled(b)
  {
    HeadOf(a, x);
    HeadOf(b, y);
  }

  lemma {:induction false} PrintIsUnique(a: Json, b: Json, x: Text, y: Text)
    requires Print(a) + x == Print(b) + y && Ends(x) && Ends(y)
    ensures Nulled(a) == Nulled(b) && x == y
    decreases a, 2, 0
  {
    SameKind(a, b, x, y);
    match a
    case Num(s) => NumberIsUnique(s, b.text, x, y);
    case Str(s) => QuoteIsUnique(s, b.units, x, y);
    case Arr(items) => ArrayIsUnique(a, b, x, y);
    case Obj(fields) => ObjectIsUnique(a, b, x, y);
    case _ => assert x == (Print(a) + x)[|Print(a)|..] && y == (Print(b) + y)[|Print(b)|..];
  }

  lemma {:induction false} ArrayIsUnique(a: Json, b: Json, x: Text, y: Text)
    requires a.Arr? && b.Arr? && Print(a) + x == Print(b) + y
    ensures Nulled(a) == Nulled(b) && x == y
    decreases a, 1, 0
  {
    Unwrap(PrintItems(a.items), x, PrintItems(b.items), y, OPEN_BRACKET, CLOSE_BRACKET);
    ItemsAreUnique(a.items, b.items, x, y);
  }

  lemma {:induction false} ObjectIsUnique(a: Json, b: Json, x: Text, y: Text)
    requires a.Obj? && b.Obj? && Print(a) + x == Print(b) + y
    ensures Nulled(a) == Nulled(b) && x == y
    decreases a, 1, 0
  {
    var ks, ls := SortedKeys(a.fields.Keys), SortedKeys(b.fields.Keys);
    Unwrap(PrintFields(a, ks), x, PrintFields(b, ls), y, OPEN_BRACE, CLOSE_BRACE);
    FieldsAreUnique(a, b, ks, ls, x, y);
    assert a.fields.Keys == b.fields.Keys by {
      forall k ensures k in a.fields.Keys <==> k in b.fields.Keys { assert k in ks <==> k in ls; }
    }
    forall k | k in a.fields ensures Nulled(a.fields[k]) == Nulled(b.fields[k]) { assert k in ks; }
  }

  lemma Unwrap(a: Text, x: Text, b: Text, y: Text, open: Unit, close: Unit)
    requires [open] + a + [close] + x == [open] + b + [close] + y
    ensures a + ([close] + x) == b + ([close] + y)
  {
    assert [open] + a + [close] + x == [open] + (a + ([close] + x));
    assert [open] + b + [close] + y == [open] + (b + ([close] + y));
    assert ([open] + (a + ([close] + x)))[1..] == a + ([close] + x);
    assert ([open] + (b + ([close] + y)))[1..] == b + ([close] + y);
  }

  lemma Strip(a: Text, x: Text, b: Text, y: Text, head: Unit)
    requires [head] + a + x == [head] + b + y
    ensures a + x == b + y
  {
    assert ([head] + a + x)[1..] == a + x && ([head] + b + y)[1..] == b + y;
  }

  lemma ItemsHead(items: seq<Json>, rest: Text)
    requires rest != [] && rest[0] == CLOSE_BRACKET
    ensures items == [] ==> PrintItems(items) + rest == rest
    ensures items != [] ==> (PrintItems(items) + rest)[0] != CLOSE_BRACKET
  {
    if items != [] {
      HeadOf(items[0], MoreItems(items[1..]) + rest);
      assert PrintItems(items) + rest == Print(items[0]) + (MoreItems(items[1..]) + rest);
    }
  }

  lemma FieldsHead(j: Json, keys: seq<Text>, rest: Text)
    requires j.Obj? && (forall k :: k in keys ==> k in j.fields) && rest != [] && rest[0] == CLOSE_BRACE
    ensures keys == [] ==> PrintFields(j, keys) + rest == rest
    ensures keys != [] ==> (PrintFields(j, keys) + rest)[0] == QUOTE
  {
  }

  lemma {:induction false} ItemsAreUnique(a: seq<Json>, b: seq<Json>, x: Text, y: Text)
    requires PrintItems(a) + ([CLOSE_BRACKET] + x) == PrintItems(b) + ([CLOSE_BRACKET] + y)
    ensures |a| == |b| && x == y && forall i :: 0 <= i < |a| ==> Nulled(a[i]) == Nulled(b[i])
    decreases a, 0, 0
  {
    var left, right := [CLOSE_BRACKET] + x, [CLOSE_BRACKET] + y;
    ItemsHead(a, left);
    ItemsHead(b, right);
    if a == [] && b == [] {
      assert x == left[1..] && y == right[1..];
    } else if a != [] && b != [] {
      var p, q := MoreItems(a[1..]) + left, MoreItems(b[1..]) + right;
      assert PrintItems(a) + left == Print(a[0]) + p;
      assert PrintItems(b) + right == Print(b[0]) + q;
      assert Ends(p) && Ends(q);
      PrintIsUnique(a[0], b[0], p, q);
      assert p[0] == q[0];
      if |a| > 1 && |b| > 1 {
        Strip(PrintItems(a[1..]), left, PrintItems(b[1..]), right, COMMA);
        ItemsAreUnique(a[1..], b[1..], x, y);
        forall i | 0 <= i < |a| ensures Nulled(a[i]) == Nulled(b[i]) {
          if i > 0 { assert a[i] == a[1..][i - 1] && b[i] == b[1..][i - 1]; }
        }
      } else {
        assert |a| == 1 && |b| == 1;
        assert p == left && q == right;
        assert x == left[1..] && y == right[1..];
      }
    }
  }

  lemma {:induction false} FieldsAreUnique(a: Json, b: Json, ks: seq<Text>, ls: seq<Text>, x: Text, y: Text)
    requires a.Obj? && b.Obj? && (forall k :: k in ks ==> k in a.fields) && (forall k :: k in ls ==> k in b.fields)
    requires PrintFields(a, ks) + ([CLOSE_BRACE] + x) == PrintFields(b, ls) + ([CLOSE_BRACE] + y)
    ensures ks == ls && x == y && forall k :: k in ks ==> Nulled(a.fields[k]) == Nulled(b.fields[k])
    decreases a, 0, |ks|
  {
    var left, right := [CLOSE_BRACE] + x, [CLOSE_BRACE] + y;
    FieldsHead(a, ks, left);
    FieldsHead(b, ls, right);
    if ks == [] && ls == [] {
      assert x == left[1..] && y == right[1..];
    } else if ks != [] && ls != [] {
      var p, q := MoreFields(a, ks[1..]) + left, MoreFields(b, ls[1..]) + right;
      FieldUnfolds(a, ks, left);
      FieldUnfolds(b, ls, right);
      KeyIsUnique(ks[0], Print(a.fields[ks[0]]) + p, ls[0], Print(b.fields[ls[0]]) + q);
      assert Ends(p) && Ends(q);
      PrintIsUnique(a.fields[ks[0]], b.fields[ls[0]], p, q);
      assert p[0] == q[0];
      if |ks| > 1 && |ls| > 1 {
        Strip(PrintFields(a, ks[1..]), left, PrintFields(b, ls[1..]), right, COMMA);
        FieldsAreUnique(a, b, ks[1..], ls[1..], x, y);
      } else {
        assert |ks| == 1 && |ls| == 1;
        assert p == left && q == right;
        assert x == left[1..] && y == right[1..];
      }
      assert ks == [ks[0]] + ks[1..] && ls == [ls[0]] + ls[1..];
    }
  }

  lemma FieldUnfolds(j: Json, keys: seq<Text>, rest: Text)
    requires j.Obj? && (forall k :: k in keys ==> k in j.fields) && keys != []
    ensures PrintFields(j, keys) + rest == Quote(keys[0]) +
            ([COLON] + (Print(j.fields[keys[0]]) + (MoreFields(j, keys[1..]) + rest)))
  {
  }

  lemma KeyIsUnique(k: Text, x: Text, l: Text, y: Text)
    requires Quote(k) + ([COLON] + x) == Quote(l) + ([COLON] + y)
    ensures k == l && x == y
  {
    QuoteIsUnique(k, l, [COLON] + x, [COLON] + y);
    assert ([COLON] + x)[1..] == x && ([COLON] + y)[1..] == y;
  }

  lemma {:induction false} NulledPrintsTheSame(j: Json)
    ensures Print(Nulled(j)) == Print(j)
    decreases j, 1, 0
  {
    match j
    case Arr(items) => NulledItemsPrintTheSame(items);
    case Obj(fields) =>
      assert Nulled(j).fields.Keys == fields.Keys;
      NulledFieldsPrintTheSame(j, SortedKeys(fields.Keys));
    case _ =>
  }

  lemma {:induction false} NulledItemsPrintTheSame(items: seq<Json>)
    ensures PrintItems(Nulled(Arr(items)).items) == PrintItems(items)
    decreases items, 0, 0
  {
    if items != [] {
      NulledPrintsTheSame(items[0]);
      NulledItemsPrintTheSame(items[1..]);
      assert Nulled(Arr(items)).items[1..] == Nulled(Arr(items[1..])).items;
    }
  }

  lemma {:induction false} NulledFieldsPrintTheSame(j: Json, keys: seq<Text>)
    requires j.Obj? && forall k :: k in keys ==> k in j.fields
    ensures PrintFields(Nulled(j), keys) == PrintFields(j, keys)
    decreases j, 0, |keys|
  {
    if keys != [] {
      NulledPrintsTheSame(j.fields[keys[0]]);
      NulledFieldsPrintTheSame(j, keys[1..]);
    }
  }

  /**
   * Two values print the same text exactly when they are the same value, key
   * order aside, once every number that is not finite is read as null.
   */
  lemma SameTextIffSameValue(a: Json, b: Json)
    ensures Print(a) == Print(b) <==> Nulled(a) == Nulled(b)
  {
    if Print(a) == Print(b) {
      assert Print(a) + [] == Print(b) + [];
      PrintIsUnique(a, b, [], []);
    }
    if Nulled(a) == Nulled(b) {
      NulledPrintsTheSame(a);
      NulledPrintsTheSame(b);
    }
  }

  predicate Finite(j: Json) {
    match j
    case NonFinite(_) => false
    case Arr(items) => forall i :: 0 <= i < |items| ==> Finite(items[i])
    case Obj(fields) => forall k :: k in fields ==> Finite(fields[k])
    case _ => true
  }

  lemma {:induction false} FiniteIsKept(j: Json)
    ensures Finite(j) <==> Nulled(j) == j
  {
    match j
    case Arr(items) =>
      forall i | 0 <= i < |items| ensures Finite(items[i]) <==> Nulled(items[i]) == items[i] { FiniteIsKept(items[i]); }
      if Nulled(j) == j {
        forall i | 0 <= i < |items| ensures Finite(items[i]) { assert Nulled(j).items[i] == Nulled(items[i]); }
      }
    case Obj(fields) =>
      forall k | k in fields ensures Finite(fields[k]) <==> Nulled(fields[k]) == fields[k] { FiniteIsKept(fields[k]); }
      if Nulled(j) == j {
        forall k | k in fields ensures Finite(fields[k]) { assert Nulled(j).fields[k] == Nulled(fields[k]); }
      }
    case _ =>
  }

  /**
   * Among values without such numbers nothing else prints the text of `a`
   * exactly when `a` is one of them: Infinity prints what null prints.
   */
  lemma InjectiveIffFinite(a: Json)
    ensures Finite(a) <==> forall b :: Finite(b) && Print(a) == Print(b) ==> a == b
  {
    FiniteIsKept(a);
    forall b ensures Print(a) == Print(b) <==> Nulled(a) == Nulled(b) { SameTextIffSameValue(a, b); }
    NulledIsFinite(a);
    FiniteIsKept(Nulled(a));
    if Finite(a) {
      forall b | Finite(b) && Print(a) == Print(b) ensures a == b { FiniteIsKept(b); }
    } else {
      assert Print(a) == Print(Nulled(a)) && Nulled(a) != a;
    }
  }

  lemma {:induction false} NulledIsFinite(j: Json)
    ensures Finite(Nulled(j))
  {
    match j
    case Arr(items) => forall i | 0 <= i < |items| ensures Finite(Nulled(items[i])) { NulledIsFinite(items[i]); }
    case Obj(fields) => forall k | k in fields ensures Finite(Nulled(fields[k])) { NulledIsFinite(fields[k]); }
    case _ =>
  }
}
