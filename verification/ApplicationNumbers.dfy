/** The text of application numbers (CODE-YEAR-00001) and the LIKE pattern they are counted with. */
module ApplicationNumbers {
  import opened Wrappers
  import opened Numerals

  /** The festival code validator: /^[A-Z0-9_]+$/. */
  predicate ValidCode(code: string) {
    |code| > 0 && forall i :: 0 <= i < |code| ==> CodeChar(code[i])
  }

  predicate CodeChar(c: char) { 'A' <= c <= 'Z' || IsDigit(c) || c == '_' }

  function Format(code: string, year: nat, sequence: nat): string {
    code + "-" + Decimal(year) + "-" + PadStart(Decimal(sequence), 5)
  }

  /** The position of the first dash, or |s| when there is none. */
  function FirstDash(s: string): (k: nat)
    ensures k <= |s| && (forall i :: 0 <= i < k ==> s[i] != '-')
    ensures k < |s| ==> s[k] == '-'
  {
    if s == [] || s[0] == '-' then 0 else 1 + FirstDash(s[1..])
  }

  datatype NumberParts = NumberParts(code: string, year: nat, sequence: nat)

  /** Reads an application number back: code up to the first dash, year up to the second, sequence after it. */
  function Parse(s: string): Option<NumberParts> {
    var d1 := FirstDash(s);
    if d1 == |s| then None else
    var rest := s[d1 + 1..];
    var d2 := FirstDash(rest);
    if d2 == |rest| then None else
    var year, sequence := rest[..d2], rest[d2 + 1..];
    if !AllDigits(year) || !AllDigits(sequence) then None
    else Some(NumberParts(s[..d1], Value(year), Value(sequence)))
  }

  lemma FirstDashOf(head: string, tail: string)
    requires forall i :: 0 <= i < |head| ==> head[i] != '-'
    ensures FirstDash(head + "-" + tail) == |head|
    ensures (head + "-" + tail)[..|head|] == head && (head + "-" + tail)[|head| + 1..] == tail
  {
    var s := head + "-" + tail;
    assert s[|head|] == '-';
    assert forall i :: 0 <= i < |head| ==> s[i] == head[i];
  }

  /** Every number parses back to the code, year and sequence it was made from. */
  lemma ParseFormat(code: string, year: nat, sequence: nat)
    requires ValidCode(code)
    ensures Parse(Format(code, year, sequence)) == Some(NumberParts(code, year, sequence))
  {
    var y, q := Decimal(year), PadStart(Decimal(sequence), 5);
    var s := Format(code, year, sequence);
    assert s == code + "-" + (y + "-" + q);
    FirstDashOf(code, y + "-" + q);
    FirstDashOf(y, q);
    ValueOfDecimal(year);
    PaddedRoundTrip(sequence, 5);
  }

  lemma FormatInjective(c1: string, y1: nat, n1: nat, c2: string, y2: nat, n2: nat)
    requires ValidCode(c1) && ValidCode(c2)
    requires Format(c1, y1, n1) == Format(c2, y2, n2)
    ensures c1 == c2 && y1 == y2 && n1 == n2
  {
    ParseFormat(c1, y1, n1);
    ParseFormat(c2, y2, n2);
  }

  /** CODE-YEAR- and then the sequence in decimal digits: as many as it takes, and never fewer than five. */
  lemma FormatShape(code: string, year: nat, n: nat) returns (digits: string)
    ensures Format(code, year, n) == code + ("-" + (Decimal(year) + ("-" + digits)))
    ensures AllDigits(digits) && Value(digits) == n
    ensures |digits| >= 5 && (n < 100000 ==> |digits| == 5)
  {
    digits := PadStart(Decimal(n), 5);
    PaddedRoundTrip(n, 5);
    if n < 100000 {
      assert Power10(5) == 100000 by { assert Power10(2) == 100 && Power10(4) == 10000; }
      FewDigits(n, 5);
    }
  }

  // ---- LIKE ----

  /** SQL LIKE without escapes: '%' stands for any text, '_' for any one character. */
  predicate Like(pattern: string, s: string)
    decreases |pattern| + |s|
  {
    if pattern == [] then s == []
    else if pattern[0] == '%' then Like(pattern[1..], s) || (s != [] && Like(pattern, s[1..]))
    else s != [] && (pattern[0] == '_' || pattern[0] == s[0]) && Like(pattern[1..], s[1..])
  }

  /** The pattern submit counts with: CODE-YEAR-%. */
  function Prefix(code: string, year: nat): string { code + "-" + Decimal(year) + "-" }

  function Pattern(code: string, year: nat): string { Prefix(code, year) + "%" }

  /** Position by position, with '_' in the first text standing for anything. */
  predicate Wild(p: string, s: string) {
    |p| == |s| && forall i :: 0 <= i < |p| ==> p[i] == '_' || p[i] == s[i]
  }

  lemma {:induction false} PercentMatchesAll(s: string)
    ensures Like("%", s)
  {
    if s == [] {
      assert "%"[1..] == "";
    } else {
      PercentMatchesAll(s[1..]);
    }
  }

  lemma {:induction false} LikePrefix(p: string, s: string)
    requires '%' !in p
    ensures Like(p + "%", s) <==> |p| <= |s| && Wild(p, s[..|p|])
  {
    if p == [] {
      assert p + "%" == "%" && s[..0] == [];
      PercentMatchesAll(s);
    } else if s != [] {
      assert (p + "%")[1..] == p[1..] + "%";
      LikePrefix(p[1..], s[1..]);
      if |p| <= |s| {
        assert s[..|p|][1..] == s[1..][..|p| - 1];
        WildStep(p, s[..|p|]);
      }
    }
  }

  lemma WildStep(p: string, s: string)
    requires p != [] && |p| == |s|
    ensures Wild(p, s) <==> (p[0] == '_' || p[0] == s[0]) && Wild(p[1..], s[1..])
  {
    if (p[0] == '_' || p[0] == s[0]) && Wild(p[1..], s[1..]) {
      forall i | 0 <= i < |p| ensures p[i] == '_' || p[i] == s[i] {
        if i > 0 { assert p[i] == p[1..][i - 1] && s[i] == s[1..][i - 1]; }
      }
    }
  }

  /** A number has exactly two dashes. */
  lemma DashesOf(code: string, year: nat, sequence: nat, i: nat)
    requires ValidCode(code) && i < |Format(code, year, sequence)|
    ensures Format(code, year, sequence)[i] == '-' <==> i == |code| || i == |code| + 1 + |Decimal(year)|
  {
    PaddedRoundTrip(sequence, 5);
    var s := Format(code, year, sequence);
    var y := |code| + 1 + |Decimal(year)|;
    assert s[|code|] == '-' && s[y] == '-';
    if i < |code| {
      assert s[i] == code[i];
    } else if |code| < i < y {
      assert s[i] == Decimal(year)[i - |code| - 1];
    } else if y < i {
      assert s[i] == PadStart(Decimal(sequence), 5)[i - y - 1];
    }
  }

  /** Reading a prefix against a number aligns both of their dashes, so code and year line up. */
  lemma PrefixAligns(code: string, year: nat, c: string, y: nat, n: nat)
    requires ValidCode(code) && ValidCode(c)
    requires |Prefix(code, year)| <= |Format(c, y, n)|
      && Wild(Prefix(code, year), Format(c, y, n)[..|Prefix(code, year)|])
    ensures |c| == |code| && |Decimal(y)| == |Decimal(year)|
  {
    var p, s := Prefix(code, year), Format(c, y, n);
    var k1, k2 := |code|, |code| + 1 + |Decimal(year)|;
    assert p[k1] == '-' && p[k2] == '-';
    assert s[..|p|][k1] == s[k1] && s[..|p|][k2] == s[k2];
    DashesOf(c, y, n, k1);
    DashesOf(c, y, n, k2);
  }

  lemma WildPrefix(code: string, year: nat, c: string, y: nat)
    requires |c| == |code| && |Decimal(y)| == |Decimal(year)|
    requires AllDigits(Decimal(year))
    ensures Wild(Prefix(code, year), Prefix(c, y)) <==> year == y && Wild(code, c)
  {
    var p, q := Prefix(code, year), Prefix(c, y);
    assert forall i :: 0 <= i < |code| ==> p[i] == code[i] && q[i] == c[i];
    if Wild(p, q) {
      forall i | 0 <= i < |Decimal(year)| ensures Decimal(year)[i] == Decimal(y)[i] {
        var k := |code| + 1 + i;
        assert p[k] == Decimal(year)[i] && q[k] == Decimal(y)[i];
      }
      assert Decimal(year) == Decimal(y);
      ValueOfDecimal(year);
      ValueOfDecimal(y);
    }
  }

  /**
   * What the count really counts: numbers of the same year whose code fits
   * the counted code read with '_' as a wildcard.
   */
  lemma LikeMeans(code: string, year: nat, c: string, y: nat, n: nat)
    requires ValidCode(code) && ValidCode(c)
    ensures Like(Pattern(code, year), Format(c, y, n)) <==> year == y && Wild(code, c)
  {
    var p, q, s := Prefix(code, year), Prefix(c, y), Format(c, y, n);
    assert '%' !in p;
    LikePrefix(p, s);
    assert s == q + PadStart(Decimal(n), 5);
    if |p| <= |s| && Wild(p, s[..|p|]) {
      PrefixAligns(code, year, c, y, n);
    }
    if |c| == |code| && |Decimal(y)| == |Decimal(year)| {
      assert s[..|p|] == q;
      WildPrefix(code, year, c, y);
    }
  }

  /** Without '_' in the code the pattern picks out exactly this code and year; with it, never fewer. */
  lemma LikeExact(code: string, year: nat, c: string, y: nat, n: nat)
    requires ValidCode(code) && ValidCode(c)
    ensures code == c && year == y ==> Like(Pattern(code, year), Format(c, y, n))
    ensures '_' !in code ==> (Like(Pattern(code, year), Format(c, y, n)) <==> code == c && year == y)
  {
    LikeMeans(code, year, c, y, n);
  }
}
