/** The string operations the scanner relies on: `str.split`, `split(c)[0]`,
    and left-aligned padding as done by `'{:<{num}}'.format(...)`. */
module Text {

  predicate IsDigit(c: char) {
    '0' <= c <= '9'
  }

  predicate AllDigits(s: string) {
    forall i :: 0 <= i < |s| ==> IsDigit(s[i])
  }

  /** Position of the first occurrence of `c` in `s`. */
  function IndexOf<T(==)>(s: seq<T>, c: T): (i: nat)
    requires c in s
    ensures i < |s| && s[i] == c
    ensures c !in s[..i]
  {
    if s[0] == c then 0
    else
      var j := IndexOf(s[1..], c);
      assert s[..j + 1] == [s[0]] + s[1..][..j];
      j + 1
  }

  /** The pieces glued back together with the separator `c` between them. */
  function Join(parts: seq<string>, c: char): string
    requires |parts| > 0
  {
    if |parts| == 1 then parts[0] else parts[0] + [c] + Join(parts[1..], c)
  }

  /** Python's `s.split(c)` for a one-character separator. */
  function Split(s: string, c: char): (parts: seq<string>)
    ensures |parts| > 0
    ensures Join(parts, c) == s
    ensures forall k :: 0 <= k < |parts| ==> c !in parts[k]
    decreases |s|
  {
    if c !in s then [s]
    else
      var i := IndexOf(s, c);
      var rest := Split(s[i + 1..], c);
      assert ([s[..i]] + rest)[1..] == rest;
      assert s == s[..i] + [c] + s[i + 1..];
      [s[..i]] + rest
  }

  /** The first occurrence of `c` is the one with no `c` before it. */
  lemma IndexOfAt<T>(s: seq<T>, c: T, i: nat)
    requires i < |s| && s[i] == c && c !in s[..i]
    ensures IndexOf(s, c) == i
  {
  }

  /** A join of two or more pieces is the first piece, `c`, and the join of the rest. */
  lemma JoinFirstPiece(parts: seq<string>, c: char)
    requires |parts| > 1 && c !in parts[0]
    ensures var s := Join(parts, c);
            && IndexOf(s, c) == |parts[0]|
            && s[..|parts[0]|] == parts[0]
            && s[|parts[0]| + 1..] == Join(parts[1..], c)
  {
    var s := Join(parts, c);
    var n := |parts[0]|;
    assert s == parts[0] + [c] + Join(parts[1..], c);
    assert s[..n] == parts[0];
    assert s[n + 1..] == Join(parts[1..], c);
    IndexOfAt(s, c, n);
  }

  /** Splitting undoes joining, whenever no piece holds the separator. */
  lemma {:induction false} SplitJoin(parts: seq<string>, c: char)
    requires |parts| > 0
    requires forall k :: 0 <= k < |parts| ==> c !in parts[k]
    ensures Split(Join(parts, c), c) == parts
  {
    if |parts| > 1 {
      var s := Join(parts, c);
      var rest := parts[1..];
      JoinFirstPiece(parts, c);
      SplitJoin(rest, c);
      assert Split(s, c) == [parts[0]] + Split(Join(rest, c), c);
      assert parts == [parts[0]] + rest;
    }
  }

  /** Python's `s.split(c)[0]`: the text before the first `c`, or all of `s`. */
  function FirstField(s: string, c: char): (r: string)
    ensures |r| <= |s| && r == s[..|r|]
    ensures c !in r
    ensures |r| < |s| ==> s[|r|] == c
    ensures c !in s ==> r == s
  {
    Split(s, c)[0]
  }

  /** `k` blanks, none when `k` is not positive. */
  function Spaces(k: int): (r: string)
    ensures |r| == if k > 0 then k else 0
    ensures forall i :: 0 <= i < |r| ==> r[i] == ' '
  {
    if k <= 0 then "" else [' '] + Spaces(k - 1)
  }

  /** `'{:<{n}}'.format(s)`: `s` followed by blanks up to width `n`; never truncates. */
  function PadRight(s: string, n: int): (r: string)
    ensures |r| == if n > |s| then n else |s|
    ensures r[..|s|] == s
    ensures forall i :: |s| <= i < |r| ==> r[i] == ' '
  {
    s + Spaces(n - |s|)
  }
}
