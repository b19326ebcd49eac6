/**
 * The string operations the normalisers rely on, modelled on Python's `str`:
 * ordering, ASCII lower-casing, `replace` and `join`.
 */
module Text {

  /** Python's `a <= b` on `str`: lexicographic comparison of code points. */
  predicate StrLe(a: string, b: string)
  {
    |a| == 0 || (|b| > 0 && (a[0] < b[0] || (a[0] == b[0] && StrLe(a[1..], b[1..]))))
  }

  lemma {:induction false} StrLeTotal(a: string, b: string)
    ensures StrLe(a, b) || StrLe(b, a)
  {
    if |a| > 0 && |b| > 0 && a[0] == b[0] {
      StrLeTotal(a[1..], b[1..]);
    }
  }

  lemma {:induction false} StrLeAntisymmetric(a: string, b: string)
    requires StrLe(a, b) && StrLe(b, a)
    ensures a == b
  {
    if |a| > 0 && |b| > 0 {
      StrLeAntisymmetric(a[1..], b[1..]);
      assert a == [a[0]] + a[1..] && b == [b[0]] + b[1..];
    }
  }

  lemma {:induction false} StrLeTransitive(a: string, b: string, c: string)
    requires StrLe(a, b) && StrLe(b, c)
    ensures StrLe(a, c)
  {
    if |a| > 0 && |b| > 0 && |c| > 0 && a[0] == b[0] == c[0] {
      StrLeTransitive(a[1..], b[1..], c[1..]);
    }
  }

  /** Python's `str.lower()` restricted to ASCII letters. */
  function LowerChar(c: char): char
  {
    if 'A' <= c <= 'Z' then (c as int - 'A' as int + 'a' as int) as char else c
  }

  function Lower(s: string): (r: string)
    ensures |r| == |s|
    ensures forall i :: 0 <= i < |s| ==> r[i] == LowerChar(s[i])
  {
    seq(|s|, i requires 0 <= i < |s| => LowerChar(s[i]))
  }

  /** Python's `s.replace(old, new)` for a one-character `old` and a one-character `new`. */
  function ReplaceChar(s: string, target: char, replacement: char): (r: string)
    ensures |r| == |s|
    ensures target != replacement ==> target !in r
    ensures forall i :: 0 <= i < |s| ==> r[i] == (if s[i] == target then replacement else s[i])
  {
    seq(|s|, i requires 0 <= i < |s| => if s[i] == target then replacement else s[i])
  }

  /** Python's `s.replace(old, new)` for a one-character `old` and any `new`. */
  function ReplaceWith(s: string, target: char, replacement: string): (r: string)
    requires target !in replacement
    ensures target !in r
    ensures target !in s ==> r == s
    ensures |s| == 1 ==> r == if s[0] == target then replacement else s
  {
    if |s| == 0 then ""
    else
      assert s == [s[0]] + s[1..];
      (if s[0] == target then replacement else [s[0]]) + ReplaceWith(s[1..], target, replacement)
  }

  /** With a one-character replacement, the two forms of `replace` agree. */
  lemma {:induction false} ReplaceCharIsReplaceWith(s: string, target: char, replacement: char)
    requires target != replacement
    ensures ReplaceChar(s, target, replacement) == ReplaceWith(s, target, [replacement])
  {
    if |s| > 0 {
      ReplaceCharIsReplaceWith(s[1..], target, replacement);
      assert ReplaceChar(s, target, replacement)
          == [ReplaceChar(s, target, replacement)[0]] + ReplaceChar(s[1..], target, replacement);
    }
  }

  /** `replace` works piece by piece: replacing in a concatenation concatenates the replaced pieces. */
  lemma {:induction false} ReplaceWithAppend(a: string, b: string, target: char, replacement: string)
    requires target !in replacement
    ensures ReplaceWith(a + b, target, replacement) == ReplaceWith(a, target, replacement) + ReplaceWith(b, target, replacement)
  {
    if |a| == 0 {
      assert a + b == b;
    } else {
      assert (a + b)[1..] == a[1..] + b;
      ReplaceWithAppend(a[1..], b, target, replacement);
    }
  }

  /** Python's `sep.join(parts)`. */
  function Join(parts: seq<string>, sep: string): string
  {
    if |parts| == 0 then ""
    else if |parts| == 1 then parts[0]
    else parts[0] + sep + Join(parts[1..], sep)
  }
}
