/**
 * The string helpers the core relies on: Guava's Strings.padEnd and Joiner,
 * Java's String.replace(char, char), and decimal rendering of counts.
 */
module Text {

  /** Strings.padEnd: `s` followed by as many `c` as it takes to reach `minLength`. */
  function PadEnd(s: string, minLength: int, c: char): (r: string)
    ensures |r| == if |s| >= minLength then |s| else minLength
    ensures r[..|s|] == s
    ensures forall i :: |s| <= i < |r| ==> r[i] == c
  {
    if |s| >= minLength then s else s + seq(minLength - |s|, _ => c)
  }

  /** A field padded to `width` sits between `prefix` and `rest` at fixed columns. */
  lemma PaddedField(prefix: string, field: string, width: nat, rest: string)
    requires |field| <= width
    ensures var r := prefix + PadEnd(field, width, ' ') + rest;
      && |r| == |prefix| + width + |rest|
      && r[..|prefix|] == prefix
      && r[|prefix|..|prefix| + |field|] == field
      && (forall i :: |prefix| + |field| <= i < |prefix| + width ==> r[i] == ' ')
      && r[|prefix| + width..] == rest
  {
    var p := PadEnd(field, width, ' ');
    var r := prefix + p + rest;
    assert r[|prefix|..|prefix| + width] == p;
    assert p[..|field|] == field;
  }

  /** String.replace(from, to): every `from` becomes `to`, every other character stays. */
  function Replace(s: string, from: char, to: char): (r: string)
    ensures |r| == |s|
    ensures forall i :: 0 <= i < |s| ==> r[i] == if s[i] == from then to else s[i]
  {
    if s == [] then [] else [if s[0] == from then to else s[0]] + Replace(s[1..], from, to)
  }

  /** The fields of `s` between occurrences of `sep` (there is always at least one). */
  function SplitOn(s: string, sep: char): (r: seq<string>)
    ensures |r| >= 1
  {
    if s == [] then [""]
    else
      var rest := SplitOn(s[1..], sep);
      if s[0] == sep then [""] + rest else [[s[0]] + rest[0]] + rest[1..]
  }

  /** Joiner.on(sep).join(parts). */
  function Join(parts: seq<string>, sep: char): string
  {
    if parts == [] then ""
    else if |parts| == 1 then parts[0]
    else parts[0] + [sep] + Join(parts[1..], sep)
  }

  lemma {:induction false} SplitOnField(w: string, sep: char)
    requires sep !in w
    ensures SplitOn(w, sep) == [w]
  {
    if w != [] {
      SplitOnField(w[1..], sep);
      assert [w[0]] + w[1..] == w;
    }
  }

  lemma {:induction false} SplitOnFieldThen(w: string, sep: char, rest: string)
    requires sep !in w
    ensures SplitOn(w + [sep] + rest, sep) == [w] + SplitOn(rest, sep)
  {
    if w == [] {
      assert w + [sep] + rest == [sep] + rest;
    } else {
      assert (w + [sep] + rest)[1..] == w[1..] + [sep] + rest;
      SplitOnFieldThen(w[1..], sep, rest);
      assert [w[0]] + w[1..] == w;
    }
  }

  /** Joining and splitting again on the same separator gives the parts back. */
  lemma {:induction false} SplitJoin(parts: seq<string>, sep: char)
    requires |parts| >= 1
    requires forall i :: 0 <= i < |parts| ==> sep !in parts[i]
    ensures SplitOn(Join(parts, sep), sep) == parts
  {
    if |parts| == 1 {
      SplitOnField(parts[0], sep);
    } else {
      SplitJoin(parts[1..], sep);
      SplitOnFieldThen(parts[0], sep, Join(parts[1..], sep));
    }
  }

  predicate IsDigit(c: char) { '0' <= c <= '9' }

  function DigitChar(d: nat): (c: char)
    requires d < 10
  {
    (48 + d) as char
  }

  /** Java's decimal rendering of a non-negative int (`"" + n`, `%d`). */
  function NatToString(n: nat): (r: string)
    ensures |r| >= 1
    ensures forall i :: 0 <= i < |r| ==> IsDigit(r[i])
  {
    if n < 10 then [DigitChar(n)] else NatToString(n / 10) + [DigitChar(n % 10)]
  }

  /** The number a string of decimal digits denotes. */
  function DigitsValue(s: string): nat
    requires forall i :: 0 <= i < |s| ==> IsDigit(s[i])
  {
    if s == [] then 0
    else
      assert IsDigit(s[|s| - 1]);
      10 * DigitsValue(s[..|s| - 1]) + (s[|s| - 1] as int - 48)
  }

  /** Reading back the decimal rendering gives the number. */
  lemma {:induction false} NatToStringRoundTrip(n: nat)
    ensures DigitsValue(NatToString(n)) == n
  {
    var r := NatToString(n);
    if n >= 10 {
      NatToStringRoundTrip(n / 10);
      assert r[..|r| - 1] == NatToString(n / 10);
    }
  }
}
