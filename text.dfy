/**
 * Text helpers shared by the registry and the scanner.
 *
 * A Go string is modelled as the sequence of its code points (runes). For
 * well-formed UTF-8, Go's byte-wise string comparison orders strings exactly
 * as the code-point order `Le` below does, and `rlen` (utf8.RuneCount) is `|s|`.
 */
module Text {

  /** Lexicographic order on strings (what Go's `<` and sort.Strings use). */
  predicate Le(a: string, b: string)
    decreases |a|
  {
    |a| == 0 || (|b| > 0 && (a[0] < b[0] || (a[0] == b[0] && Le(a[1..], b[1..]))))
  }

  lemma {:induction false} LeTotal(a: string, b: string)
    ensures Le(a, b) || Le(b, a)
    decreases |a|
  {
    if |a| > 0 && |b| > 0 && a[0] == b[0] {
      LeTotal(a[1..], b[1..]);
    }
  }

  lemma {:induction false} LeTransitive(a: string, b: string, c: string)
    requires Le(a, b) && Le(b, c)
    ensures Le(a, c)
    decreases |a|
  {
    if |a| > 0 && a[0] == b[0] && b[0] == c[0] {
      LeTransitive(a[1..], b[1..], c[1..]);
    }
  }

  lemma {:induction false} LeAntisymmetric(a: string, b: string)
    requires Le(a, b) && Le(b, a)
    ensures a == b
    decreases |a|
  {
    if |a| > 0 {
      LeAntisymmetric(a[1..], b[1..]);
    }
  }

  /**
   * The display form of a flag name in messages: `-x` for a name of at most
   * one rune, `--name` otherwise.
   */
  function FlagWithMinus(name: string): (r: string)
    ensures |name| > 1 <==> |r| == |name| + 2
    ensures |name| <= 1 <==> |r| == |name| + 1
    ensures r[|r| - |name|..] == name
    ensures forall k :: 0 <= k < |r| - |name| ==> r[k] == '-'
  {
    if |name| > 1 then "--" + name else "-" + name
  }

}
