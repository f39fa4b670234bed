/**
 * Base64 and its URL-safe form without padding (sections 4 and 5 of RFC
 * 4648), with the lenient decoder the code relies on.
 */
module Base64 {
  import opened Wrappers
  import opened Text

  type Byte = b: nat | b < 256
  type Sextet = d: nat | d < 64

  function Digit(d: Sextet): char {
    if d < 26 then (0x41 + d) as char
    else if d < 52 then (0x61 + (d - 26)) as char
    else if d < 62 then (0x30 + (d - 52)) as char
    else if d == 62 then '+' else '/'
  }

  /** What the decoder reads a character as: it knows both alphabets and passes over anything else. */
  function DigitValue(c: char): Option<Sextet> {
    var code := c as int;
    if 'A' <= c <= 'Z' then Some(code - 0x41)
    else if 'a' <= c <= 'z' then Some(code - 0x61 + 26)
    else if '0' <= c <= '9' then Some(code - 0x30 + 52)
    else if c == '+' || c == '-' then Some(62)
    else if c == '/' || c == '_' then Some(63)
    else None
  }

  // ----- Base64, section 4 of RFC 4648 -----------------------------------

  function Encode64(bytes: seq<Byte>): string {
    if bytes == [] then ""
    else
      var a := bytes[0];
      if |bytes| == 1 then [Digit(a / 4), Digit(a % 4 * 16), '=', '=']
      else
        var b := bytes[1];
        if |bytes| == 2 then [Digit(a / 4), Digit(a % 4 * 16 + b / 16), Digit(b % 16 * 4), '=']
        else
          var c := bytes[2];
          [Digit(a / 4), Digit(a % 4 * 16 + b / 16), Digit(b % 16 * 4 + c / 64), Digit(c % 64)] + Encode64(bytes[3..])
  }

  /** The digits up to the first '='. */
  function Digits(text: string): seq<Sextet> {
    if text == "" || text[0] == '=' then []
    else
      var d := DigitValue(text[0]);
      if d.Some? then [d.value] + Digits(text[1..]) else Digits(text[1..])
  }

  /** A last group of two or three digits holds one or two bytes; a single digit holds none. */
  function Group(digits: seq<Sextet>): seq<Byte> {
    if |digits| < 2 then []
    else
      var d0: int, d1: int := digits[0], digits[1];
      var first := d0 * 4 + d1 / 16;
      if |digits| == 2 then [first]
      else
        var d2: int := digits[2];
        var second := d1 % 16 * 16 + d2 / 4;
        if |digits| == 3 then [first, second]
        else
          var d3: int := digits[3];
          [first, second, d2 % 4 * 64 + d3] + Group(digits[4..])
  }

  function Decode64(text: string): seq<Byte> { Group(Digits(text)) }

  // ----- The URL-safe form -----------------------------------------------

  function Replace(text: string, from: char, to: char): (r: string)
    ensures |r| == |text|
  {
    if text == "" then "" else [if text[0] == from then to else text[0]] + Replace(text[1..], from, to)
  }

  function StripPadding(text: string): string {
    if text != "" && text[|text| - 1] == '=' then StripPadding(text[..|text| - 1]) else text
  }

  function Repeat(c: char, n: nat): (r: string)
    ensures |r| == n
  {
    if n == 0 then "" else [c] + Repeat(c, n - 1)
  }

  function EncodeUrl(bytes: seq<Byte>): string {
    StripPadding(Replace(Replace(Encode64(bytes), '+', '-'), '/', '_'))
  }

  function Repad(encoded: string): string {
    var normalized := Replace(Replace(Trim(encoded), '-', '+'), '_', '/');
    normalized + Repeat('=', (4 - |normalized| % 4) % 4)
  }

  function DecodeUrl(encoded: string): seq<Byte> { Decode64(Repad(encoded)) }

  predicate IsUrlChar(c: char) { 'A' <= c <= 'Z' || 'a' <= c <= 'z' || '0' <= c <= '9' || c == '-' || c == '_' }

  lemma ReplaceAt(text: string, from: char, to: char, i: nat)
    requires i < |text|
    ensures Replace(text, from, to)[i] == if text[i] == from then to else text[i]
  {
    if i > 0 { ReplaceAt(text[1..], from, to, i - 1); }
  }

  predicate IsDigitChar(c: char) { DigitValue(c).Some? && c != '-' && c != '_' }

  /** How many digits come before the padding. */
  function BareLength(bytes: seq<Byte>): nat { |bytes| / 3 * 4 + if |bytes| % 3 == 0 then 0 else |bytes| % 3 + 1 }

  /** Whole groups of four: digits first, then at most two signs of padding. */
  predicate Shaped(t: string, n: nat) {
    && |t| % 4 == 0 && n <= |t| <= n + 2
    && (forall i :: 0 <= i < n ==> IsDigitChar(t[i]))
    && (forall i :: n <= i < |t| ==> t[i] == '=')
  }

  lemma ShapedFour(group: string, t: string, n: nat)
    requires Shaped(t, n) && |group| == 4 && forall i :: 0 <= i < 4 ==> IsDigitChar(group[i])
    ensures Shaped(group + t, n + 4)
  {
  }

  lemma DigitsAreDigitChars()
    ensures forall d: Sextet :: IsDigitChar(Digit(d))
  {
  }

  lemma {:induction false} EncodedShape(bytes: seq<Byte>)
    ensures Shaped(Encode64(bytes), BareLength(bytes))
  {
    DigitsAreDigitChars();
    if |bytes| >= 3 {
      EncodedShape(bytes[3..]);
      var t := Encode64(bytes);
      assert t == t[..4] + Encode64(bytes[3..]);
      ShapedFour(t[..4], Encode64(bytes[3..]), BareLength(bytes[3..]));
      assert |bytes| / 3 == |bytes[3..]| / 3 + 1;
    }
  }

  lemma {:induction false} StripKeepsDigits(text: string, n: nat)
    requires n <= |text| && (n > 0 ==> text[n - 1] != '=') && forall i :: n <= i < |text| ==> text[i] == '='
    ensures StripPadding(text) == text[..n]
  {
    if n < |text| {
      StripKeepsDigits(text[..|text| - 1], n);
      assert text[..|text| - 1][..n] == text[..n];
    } else {
      assert text[..n] == text;
    }
  }

  /** The encoding is the digits of the base64 text, the two special ones replaced. */
  lemma EncodedChars(bytes: seq<Byte>)
    ensures var u, t := EncodeUrl(bytes), Encode64(bytes);
            && |u| == BareLength(bytes) <= |t|
            && forall i :: 0 <= i < |u| ==> u[i] == if t[i] == '+' then '-' else if t[i] == '/' then '_' else t[i]
  {
    EncodedShape(bytes);
    var t := Encode64(bytes);
    var r := Replace(Replace(t, '+', '-'), '/', '_');
    forall i | 0 <= i < |t| ensures r[i] == if t[i] == '+' then '-' else if t[i] == '/' then '_' else t[i] {
      ReplaceAt(t, '+', '-', i);
      ReplaceAt(Replace(t, '+', '-'), '/', '_', i);
    }
    StripKeepsDigits(r, BareLength(bytes));
  }

  /** The text of a cursor needs no escaping in a URL, and no trimming. */
  lemma EncodingIsUrlSafe(bytes: seq<Byte>)
    ensures forall i :: 0 <= i < |EncodeUrl(bytes)| ==> IsUrlChar(EncodeUrl(bytes)[i])
  {
    EncodedShape(bytes);
    EncodedChars(bytes);
  }

  lemma {:induction false} AllPadding(n: nat, i: nat)
    requires i < n
    ensures Repeat('=', n)[i] == '='
  {
    if i > 0 { AllPadding(n - 1, i - 1); }
  }

  /** The decoder puts the two special digits back. */
  lemma ReplaceRestores(bytes: seq<Byte>)
    ensures BareLength(bytes) <= |Encode64(bytes)|
    ensures Replace(Replace(EncodeUrl(bytes), '-', '+'), '_', '/') == Encode64(bytes)[..BareLength(bytes)]
  {
    var u, t := EncodeUrl(bytes), Encode64(bytes);
    EncodedShape(bytes);
    EncodedChars(bytes);
    forall i | 0 <= i < |u| ensures Replace(Replace(u, '-', '+'), '_', '/')[i] == t[i] {
      ReplaceAt(u, '-', '+', i);
      ReplaceAt(Replace(u, '-', '+'), '_', '/', i);
    }
  }

  lemma UrlTextNeedsNoTrim(text: string)
    requires forall i :: 0 <= i < |text| ==> IsUrlChar(text[i])
    ensures Trim(text) == text
  {
    TrimIsIdentity(text);
  }

  /** The decoder's replacement and re-padding give back the base64 text itself. */
  lemma RepadRestores(bytes: seq<Byte>)
    ensures Repad(EncodeUrl(bytes)) == Encode64(bytes)
  {
    EncodedShape(bytes);
    EncodedChars(bytes);
    EncodingIsUrlSafe(bytes);
    UrlTextNeedsNoTrim(EncodeUrl(bytes));
    ReplaceRestores(bytes);
    PaddingRestores(Encode64(bytes), BareLength(bytes));
  }

  lemma PaddingRestores(t: string, n: nat)
    requires Shaped(t, n)
    ensures t[..n] + Repeat('=', (4 - n % 4) % 4) == t
  {
    var padding := (4 - n % 4) % 4;
    assert |t| == n + padding;
    forall i | n <= i < |t| ensures Repeat('=', padding)[i - n] == t[i] { AllPadding(padding, i - n); }
  }

  lemma DigitsFrom(d: Sextet, rest: string)
    ensures Digits([Digit(d)] + rest) == [d] + Digits(rest)
  {
    assert ([Digit(d)] + rest)[1..] == rest;
  }

  lemma DigitsOfFour(d0: Sextet, d1: Sextet, d2: Sextet, d3: Sextet, rest: string)
    ensures Digits([Digit(d0), Digit(d1), Digit(d2), Digit(d3)] + rest) == [d0, d1, d2, d3] + Digits(rest)
  {
    var t3 := [Digit(d3)] + rest;
    var t2 := [Digit(d2)] + t3;
    var t1 := [Digit(d1)] + t2;
    assert [Digit(d0)] + t1 == [Digit(d0), Digit(d1), Digit(d2), Digit(d3)] + rest;
    DigitsFrom(d3, rest);
    DigitsFrom(d2, t3);
    DigitsFrom(d1, t2);
    DigitsFrom(d0, t1);
    assert [d0] + ([d1] + ([d2] + ([d3] + Digits(rest)))) == [d0, d1, d2, d3] + Digits(rest);
  }

  lemma LastDigits(d0: Sextet, d1: Sextet, d2: Sextet)
    ensures Digits([Digit(d0), Digit(d1), '=', '=']) == [d0, d1]
    ensures Digits([Digit(d0), Digit(d1), Digit(d2), '=']) == [d0, d1, d2]
  {
    assert [Digit(d0), Digit(d1), '=', '='] == [Digit(d0)] + ([Digit(d1)] + ['=', '=']);
    DigitsFrom(d0, [Digit(d1)] + ['=', '=']);
    DigitsFrom(d1, ['=', '=']);
    assert [Digit(d0), Digit(d1), Digit(d2), '='] == [Digit(d0)] + ([Digit(d1)] + ([Digit(d2)] + ['=']));
    DigitsFrom(d0, [Digit(d1)] + ([Digit(d2)] + ['=']));
    DigitsFrom(d1, [Digit(d2)] + ['=']);
    DigitsFrom(d2, ['=']);
  }

  lemma EncodeUnfolds(a: Byte, b: Byte, c: Byte, rest: seq<Byte>)
    ensures Encode64([a, b, c] + rest) ==
            [Digit(a / 4), Digit(a % 4 * 16 + b / 16), Digit(b % 16 * 4 + c / 64), Digit(c % 64)] + Encode64(rest)
  {
    assert ([a, b, c] + rest)[3..] == rest;
  }

  lemma GroupOfThree(a: Byte, b: Byte, c: Byte, rest: seq<Byte>)
    ensures Decode64(Encode64([a, b, c] + rest)) == [a, b, c] + Decode64(Encode64(rest))
  {
    var d0: Sextet, d1: Sextet, d2: Sextet, d3: Sextet := a / 4, a % 4 * 16 + b / 16, b % 16 * 4 + c / 64, c % 64;
    EncodeUnfolds(a, b, c, rest);
    DigitsOfFour(d0, d1, d2, d3, Encode64(rest));
    GroupUnfolds(d0, d1, d2, d3, Digits(Encode64(rest)));
    BytesOfFour(a, b, c);
  }

  lemma BytesOfFour(a: Byte, b: Byte, c: Byte)
    ensures var d0: int, d1: int, d2: int, d3: int := a / 4, a % 4 * 16 + b / 16, b % 16 * 4 + c / 64, c % 64;
            d0 * 4 + d1 / 16 == a && d1 % 16 * 16 + d2 / 4 == b && d2 % 4 * 64 + d3 == c
  {
  }

  lemma GroupUnfolds(d0: Sextet, d1: Sextet, d2: Sextet, d3: Sextet, rest: seq<Sextet>)
    ensures var e0: int, e1: int, e2: int, e3: int := d0, d1, d2, d3;
            Group([d0, d1, d2, d3] + rest) == [e0 * 4 + e1 / 16, e1 % 16 * 16 + e2 / 4, e2 % 4 * 64 + e3] + Group(rest)
  {
    assert ([d0, d1, d2, d3] + rest)[4..] == rest;
  }

  lemma {:induction false} Decode64Inverts(bytes: seq<Byte>)
    ensures Decode64(Encode64(bytes)) == bytes
  {
    if |bytes| >= 3 {
      GroupOfThree(bytes[0], bytes[1], bytes[2], bytes[3..]);
      Decode64Inverts(bytes[3..]);
      assert bytes == [bytes[0], bytes[1], bytes[2]] + bytes[3..];
    } else if |bytes| == 2 {
      LastDigits(bytes[0] / 4, bytes[0] % 4 * 16 + bytes[1] / 16, bytes[1] % 16 * 4);
    } else if |bytes| == 1 {
      LastDigits(bytes[0] / 4, bytes[0] % 4 * 16, 0);
    }
  }

  /** For every byte string, with whatever length and whatever padding. */
  lemma DecodeInvertsEncode(bytes: seq<Byte>)
    ensures DecodeUrl(EncodeUrl(bytes)) == bytes
  {
    RepadRestores(bytes);
    Decode64Inverts(bytes);
  }

  lemma {:induction false} SameDigits(a: string, b: string)
    requires |a| == |b|
    requires forall i :: 0 <= i < |a| ==> DigitValue(a[i]) == DigitValue(b[i]) && (a[i] == '=' <==> b[i] == '=')
    ensures Digits(a) == Digits(b)
  {
    if a != "" { SameDigits(a[1..], b[1..]); }
  }

  lemma {:induction false} DigitsBeforePadding(t: string, n: nat)
    requires Shaped(t, n)
    ensures Digits(t) == Digits(t[..n])
  {
    DigitsStop(t, n);
  }

  lemma {:induction false} DigitsStop(t: string, n: nat)
    requires n <= |t| && (forall i :: 0 <= i < n ==> IsDigitChar(t[i])) && (n < |t| ==> t[n] == '=')
    ensures Digits(t) == Digits(t[..n])
  {
    if n > 0 {
      DigitsStop(t[1..], n - 1);
      assert t[..n][1..] == t[1..][..n - 1];
    }
  }

  /** The URL-safe text decodes as it is: the decoder knows both alphabets and needs no padding. */
  lemma UnpaddedDecodes(bytes: seq<Byte>)
    ensures Decode64(EncodeUrl(bytes)) == bytes
  {
    var u, t := EncodeUrl(bytes), Encode64(bytes);
    EncodedShape(bytes);
    EncodedChars(bytes);
    DigitsBeforePadding(t, BareLength(bytes));
    SameDigits(u, t[..BareLength(bytes)]);
    Decode64Inverts(bytes);
  }

  // ----- The text by the standard's table --------------------------------

  /** Table 1 of RFC 4648: the capitals, the small letters, the ten figures, plus and slash. */
  predicate InTable(d: Sextet, c: char) {
    && ('A' <= c <= 'Z' || 'a' <= c <= 'z' || '0' <= c <= '9' || c == '+' || c == '/')
    && ('A' <= c <= 'Z' ==> d == c as int - 'A' as int)
    && ('a' <= c <= 'z' ==> d == 26 + c as int - 'a' as int)
    && ('0' <= c <= '9' ==> d == 52 + c as int - '0' as int)
    && (c == '+' ==> d == 62) && (c == '/' ==> d == 63)
  }

  lemma DigitsAreInTable(d: Sextet)
    ensures InTable(d, Digit(d))
  {
  }

  function SumOf(d0: int, d1: int, d2: int, d3: int): int { 262144 * d0 + 4096 * d1 + 64 * d2 + d3 }

  /** Four characters of the table that stand for a number of 24 bits, the highest six first. */
  ghost predicate Spells(text: string, value: int) {
    && |text| == 4
    && exists d0: Sextet, d1: Sextet, d2: Sextet, d3: Sextet ::
         && InTable(d0, text[0]) && InTable(d1, text[1]) && InTable(d2, text[2]) && InTable(d3, text[3])
         && SumOf(d0, d1, d2, d3) == value
  }

  lemma FourDigitsSpell(d0: Sextet, d1: Sextet, d2: Sextet, d3: Sextet)
    ensures Spells([Digit(d0), Digit(d1), Digit(d2), Digit(d3)], SumOf(d0, d1, d2, d3))
  {
    var text := [Digit(d0), Digit(d1), Digit(d2), Digit(d3)];
    assert InTable(d0, text[0]) && InTable(d1, text[1]) && InTable(d2, text[2]) && InTable(d3, text[3]);
  }

  /**
   * The encoding of section 4 of RFC 4648: each three bytes in turn, as one
   * number of 24 bits; a last group of one or two bytes as the leading
   * characters of what zero bytes after it would give.
   */
  lemma EncodesByTheTable(a: Byte, b: Byte, c: Byte, rest: seq<Byte>)
    ensures var text := Encode64([a, b, c] + rest);
            |text| >= 4 && Spells(text[..4], 65536 * a + 256 * b + c) && text[4..] == Encode64(rest)
    ensures exists text :: Spells(text, 65536 * a + 256 * b) && Encode64([a, b]) == text[..3] + "="
    ensures exists text :: Spells(text, 65536 * a) && Encode64([a]) == text[..2] + "=="
  {
    WholeGroupSpells(a, b, c, rest);
    PairSpells(a, b);
    SingleSpells(a);
  }

  lemma WholeGroupSpells(a: Byte, b: Byte, c: Byte, rest: seq<Byte>)
    ensures var text := Encode64([a, b, c] + rest);
            |text| >= 4 && Spells(text[..4], 65536 * a + 256 * b + c) && text[4..] == Encode64(rest)
  {
    var d0: Sextet, d1: Sextet, d2: Sextet, d3: Sextet := a / 4, a % 4 * 16 + b / 16, b % 16 * 4 + c / 64, c % 64;
    EncodeUnfolds(a, b, c, rest);
    FourDigitsSpell(d0, d1, d2, d3);
    assert SumOf(d0, d1, d2, d3) == 65536 * a + 256 * b + c;
    var text := [Digit(d0), Digit(d1), Digit(d2), Digit(d3)];
    assert (text + Encode64(rest))[..4] == text && (text + Encode64(rest))[4..] == Encode64(rest);
  }

  lemma PairSpells(a: Byte, b: Byte)
    ensures exists text :: Spells(text, 65536 * a + 256 * b) && Encode64([a, b]) == text[..3] + "="
  {
    var d0: Sextet, d1: Sextet, d2: Sextet := a / 4, a % 4 * 16 + b / 16, b % 16 * 4;
    FourDigitsSpell(d0, d1, d2, 0);
    assert SumOf(d0, d1, d2, 0) == 65536 * a + 256 * b;
    var text := [Digit(d0), Digit(d1), Digit(d2), Digit(0)];
    assert Encode64([a, b]) == text[..3] + "=";
  }

  lemma SingleSpells(a: Byte)
    ensures exists text :: Spells(text, 65536 * a) && Encode64([a]) == text[..2] + "=="
  {
    var d0: Sextet, d1: Sextet := a / 4, a % 4 * 16;
    FourDigitsSpell(d0, d1, 0, 0);
    assert SumOf(d0, d1, 0, 0) == 65536 * a;
    var text := [Digit(d0), Digit(d1), Digit(0), Digit(0)];
    assert Encode64([a]) == text[..2] + "==";
  }
}
