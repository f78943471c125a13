/**
 * The text the flow key is computed from: decimal numbers, as Python's
 * str() renders an int, and fields joined by a separator character.
 * The point of this module is that such a rendering can be read back,
 * so distinct fields give distinct text.
 */
module Text {

  predicate IsDigit(c: char) {
    '0' <= c <= '9'
  }

  predicate AllDigits(s: string) {
    forall i :: 0 <= i < |s| ==> IsDigit(s[i])
  }

  function DigitChar(d: nat): (c: char)
    requires d < 10
    ensures IsDigit(c)
  {
    ('0' as int + d) as char
  }

  function DigitValue(c: char): (d: nat)
    requires IsDigit(c)
    ensures d < 10
  {
    c as int - '0' as int
  }

  /** The decimal rendering of `n`: at least one digit, no leading zero. */
  function DecimalText(n: nat): (s: string)
    ensures |s| > 0 && AllDigits(s)
    ensures |s| > 1 ==> s[0] != '0'
    decreases n
  {
    if n < 10 then [DigitChar(n)] else DecimalText(n / 10) + [DigitChar(n % 10)]
  }

  /** The number a string of digits denotes. */
  function DecimalValue(s: string): nat
    requires AllDigits(s)
  {
    if s == [] then 0 else 10 * DecimalValue(s[..|s| - 1]) + DigitValue(s[|s| - 1])
  }

  lemma {:induction false} DecimalRoundTrip(n: nat)
    ensures DecimalValue(DecimalText(n)) == n
    decreases n
  {
    if n >= 10 {
      var s := DecimalText(n / 10);
      DecimalRoundTrip(n / 10);
      assert (s + [DigitChar(n % 10)])[..|s|] == s;
    }
  }

  lemma DecimalTextInjective(a: nat, b: nat)
    ensures DecimalText(a) == DecimalText(b) <==> a == b
  {
    if DecimalText(a) == DecimalText(b) {
      DecimalRoundTrip(a);
      DecimalRoundTrip(b);
    }
  }

  /** The number of characters in all of `fields` together. */
  function TotalLength(fields: seq<string>): nat
    decreases |fields|
  {
    if fields == [] then 0 else |fields[0]| + TotalLength(fields[1..])
  }

  /** `fields` with one `sep` between neighbours: the first field comes first, and only the separators are added. */
  function Join(fields: seq<string>, sep: char): (s: string)
    requires |fields| > 0
    ensures fields[0] <= s
    ensures |s| == TotalLength(fields) + |fields| - 1
    decreases |fields|
  {
    if |fields| == 1 then fields[0] else fields[0] + [sep] + Join(fields[1..], sep)
  }

  /** A character that is neither the separator nor in any field is not in the joined text. */
  lemma {:induction false} JoinAvoids(fields: seq<string>, sep: char, c: char)
    requires |fields| > 0 && c != sep
    requires forall i :: 0 <= i < |fields| ==> c !in fields[i]
    ensures c !in Join(fields, sep)
    decreases |fields|
  {
    if |fields| > 1 {
      JoinAvoids(fields[1..], sep, c);
      assert c !in fields[0];
    }
  }

  /** Text cut at its first separator: the part before it and the rest are determined. */
  lemma SplitAtSeparator(x: string, y: string, x': string, y': string, sep: char)
    requires sep !in x && sep !in x'
    requires x + [sep] + y == x' + [sep] + y'
    ensures x == x' && y == y'
  {
    var s := x + [sep] + y;
    var s' := x' + [sep] + y';
    assert s[|x|] == sep;
    assert s'[|x'|] == sep;
    assert forall i :: 0 <= i < |x| ==> s[i] != sep by {
      forall i | 0 <= i < |x| ensures s[i] != sep { assert s[i] == x[i]; }
    }
    assert forall i :: 0 <= i < |x'| ==> s'[i] != sep by {
      forall i | 0 <= i < |x'| ensures s'[i] != sep { assert s'[i] == x'[i]; }
    }
    assert |x| == |x'|;
    assert x == s[..|x|] && x' == s'[..|x'|];
    assert y == s[|x| + 1..] && y' == s'[|x'| + 1..];
  }

  /** Joining separator-free fields is injective for a fixed number of fields. */
  lemma {:induction false} JoinInjective(f: seq<string>, g: seq<string>, sep: char)
    requires 0 < |f| == |g|
    requires forall i :: 0 <= i < |f| ==> sep !in f[i]
    requires forall i :: 0 <= i < |g| ==> sep !in g[i]
    ensures Join(f, sep) == Join(g, sep) <==> f == g
    decreases |f|
  {
    if Join(f, sep) == Join(g, sep) && |f| > 1 {
      assert sep !in f[0] && sep !in g[0];
      SplitAtSeparator(f[0], Join(f[1..], sep), g[0], Join(g[1..], sep), sep);
      JoinInjective(f[1..], g[1..], sep);
      assert f == [f[0]] + f[1..];
      assert g == [g[0]] + g[1..];
    }
  }
}
