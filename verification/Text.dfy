/** String helpers with the meaning they have in ECMAScript. */
module Text {
  /** WhiteSpace and LineTerminator of ECMA-262, which `trim` removes. */
  predicate IsSpace(c: char) {
    || c in {'\t', '\n', '\r', ' '} || c in {'\U{B}', '\U{C}', '\U{A0}', '\U{1680}', '\U{2028}', '\U{2029}'}
    || '\U{2000}' <= c <= '\U{200A}' || c in {'\U{202F}', '\U{205F}', '\U{3000}', '\U{FEFF}'}
  }

  function TrimLeft(s: string): string { if s != "" && IsSpace(s[0]) then TrimLeft(s[1..]) else s }

  function TrimRight(s: string): string { if s != "" && IsSpace(s[|s| - 1]) then TrimRight(s[..|s| - 1]) else s }

  function Trim(s: string): string { TrimRight(TrimLeft(s)) }

  lemma {:induction false} TrimRightKeepsFirst(s: string)
    requires s != "" && !IsSpace(s[0])
    ensures TrimRight(s) != "" && TrimRight(s)[0] == s[0]
  {
    if IsSpace(s[|s| - 1]) {
      TrimRightKeepsFirst(s[..|s| - 1]);
    }
  }

  lemma {:induction false} TrimRightEnds(s: string)
    ensures TrimRight(s) != "" ==> !IsSpace(TrimRight(s)[|TrimRight(s)| - 1])
  {
    if s != "" && IsSpace(s[|s| - 1]) { TrimRightEnds(s[..|s| - 1]); }
  }

  lemma {:induction false} TrimLeftStarts(s: string)
    ensures TrimLeft(s) != "" ==> !IsSpace(TrimLeft(s)[0])
  {
    if s != "" && IsSpace(s[0]) { TrimLeftStarts(s[1..]); }
  }

  predicate AllSpaces(s: string) { forall i :: 0 <= i < |s| ==> IsSpace(s[i]) }

  predicate Unspaced(s: string) { s != "" ==> !IsSpace(s[0]) && !IsSpace(s[|s| - 1]) }

  lemma {:induction false} TrimLeftDrops(s: string) returns (n: nat)
    ensures n <= |s| && TrimLeft(s) == s[n..] && AllSpaces(s[..n])
  {
    n := 0;
    if s != "" && IsSpace(s[0]) {
      var k := TrimLeftDrops(s[1..]);
      n := k + 1;
      assert forall i :: 0 < i < n ==> s[i] == s[1..][..k][i - 1];
    }
  }

  lemma {:induction false} TrimRightDrops(s: string) returns (n: nat)
    ensures n <= |s| && TrimRight(s) == s[..n] && AllSpaces(s[n..])
  {
    n := |s|;
    if s != "" && IsSpace(s[|s| - 1]) {
      n := TrimRightDrops(s[..|s| - 1]);
      assert forall i :: n <= i < |s| - 1 ==> s[i] == s[..|s| - 1][n..][i - n];
    }
  }

  /** Trimming drops the spaces at both ends and nothing else. */
  lemma TrimDropsSpaces(s: string) returns (left: string, right: string)
    ensures s == left + Trim(s) + right && AllSpaces(left) && AllSpaces(right) && Unspaced(Trim(s))
  {
    var n := TrimLeftDrops(s);
    var m := TrimRightDrops(TrimLeft(s));
    left, right := s[..n], TrimLeft(s)[m..];
    TrimLeftStarts(s);
    TrimRightEnds(TrimLeft(s));
    if TrimLeft(s) != "" { TrimRightKeepsFirst(TrimLeft(s)); }
  }

  lemma BlankIffAllSpaces(s: string)
    ensures Trim(s) == "" <==> AllSpaces(s)
  {
    var left, right := TrimDropsSpaces(s);
    assert Trim(s) != "" ==> s[|left|] == Trim(s)[0];
  }

  /** Only one text without spaces around it is left of a string when its outer spaces go. */
  lemma TrimIsUnique(left: string, middle: string, right: string)
    requires AllSpaces(left) && AllSpaces(right) && Unspaced(middle)
    ensures Trim(left + middle + right) == middle
  {
    var s := left + middle + right;
    if middle == "" {
      BlankIffAllSpaces(s);
    } else {
      var before, after := TrimDropsSpaces(s);
      var t := Trim(s);
      assert s[|left|] == middle[0] && s[|left| + |middle| - 1] == middle[|middle| - 1];
      assert !AllSpaces(s);
      BlankIffAllSpaces(s);
      assert s[|before|] == t[0] && s[|before| + |t| - 1] == t[|t| - 1];
      assert |before| == |left| by { FirstUnspaced(s, before, left); }
      assert |after| == |right| by { LastUnspaced(s, after, right); }
      assert t == s[|left|..|left| + |middle|] == middle;
    }
  }

  lemma FirstUnspaced(s: string, a: string, b: string)
    requires |a| < |s| && |b| < |s| && a == s[..|a|] && b == s[..|b|] && AllSpaces(a) && AllSpaces(b)
    requires !IsSpace(s[|a|]) && !IsSpace(s[|b|])
    ensures |a| == |b|
  {
    forall i | 0 <= i < |a| ensures IsSpace(s[i]) { assert a[i] == s[i]; }
    forall i | 0 <= i < |b| ensures IsSpace(s[i]) { assert b[i] == s[i]; }
  }

  lemma LastUnspaced(s: string, a: string, b: string)
    requires |a| < |s| && |b| < |s| && a == s[|s| - |a|..] && b == s[|s| - |b|..] && AllSpaces(a) && AllSpaces(b)
    requires !IsSpace(s[|s| - |a| - 1]) && !IsSpace(s[|s| - |b| - 1])
    ensures |a| == |b|
  {
    forall i | |s| - |a| <= i < |s| ensures IsSpace(s[i]) { assert a[i - (|s| - |a|)] == s[i]; }
    forall i | |s| - |b| <= i < |s| ensures IsSpace(s[i]) { assert b[i - (|s| - |b|)] == s[i]; }
  }

  /** Trimming twice is trimming once. */
  lemma TrimIsIdempotent(s: string)
    ensures Trim(Trim(s)) == Trim(s)
  {
    TrimLeftStarts(s);
    if TrimLeft(s) != "" {
      TrimRightKeepsFirst(TrimLeft(s));
      TrimRightEnds(TrimLeft(s));
    }
  }

  /** A string with no space at either end is its own trim. */
  lemma TrimIsIdentity(s: string)
    requires Unspaced(s)
    ensures Trim(s) == s
  {
  }
}
