/** String helpers shared by the renderings: Python's `sep.join`, `str.split`,
    `"-" * n`, the `in` test on strings, and integer formatting. */
module Strings {

  /** `sep.join(parts)` */
  function Join(sep: string, parts: seq<string>): string
    decreases |parts|
  {
    if |parts| == 0 then ""
    else if |parts| == 1 then parts[0]
    else parts[0] + sep + Join(sep, parts[1..])
  }

  /** `s.split(c)` for a one-character separator: the pieces between separators,
      so the empty string splits into one empty piece. */
  function Split(s: string, c: char): (r: seq<string>)
    ensures |r| >= 1
    decreases |s|
  {
    if |s| == 0 then [""]
    else if s[0] == c then [""] + Split(s[1..], c)
    else
      var rest := Split(s[1..], c);
      [[s[0]] + rest[0]] + rest[1..]
  }

  /** `c * n` for a one-character string `c`. */
  function Repeat(c: char, n: nat): (r: string)
    ensures |r| == n
    ensures forall i :: 0 <= i < n ==> r[i] == c
  {
    if n == 0 then "" else Repeat(c, n - 1) + [c]
  }

  /** The two header lines both human-readable renderings start with:
      the type name, then a rule of `-` exactly as long. */
  function Banner(title: string): seq<string>
  {
    [title, Repeat('-', |title|)]
  }

  /** `t in s` on strings: `t` occurs as a contiguous block of `s`. */
  ghost predicate IsInfix(t: string, s: string)
  {
    exists k :: OccursAt(t, s, k)
  }

  /** `t` occurs in `s` starting at position `k`. */
  ghost predicate OccursAt(t: string, s: string, k: int)
  {
    0 <= k && k + |t| <= |s| && s[k..k + |t|] == t
  }

  /** No piece contains the separator. */
  ghost predicate NoneContains(parts: seq<string>, c: char)
  {
    forall i :: 0 <= i < |parts| ==> c !in parts[i]
  }

  function DigitChar(d: nat): char
    requires d < 10
  {
    "0123456789"[d]
  }

  /** `str(n)` for a non-negative integer. */
  function NatToString(n: nat): string
    decreases n
  {
    if n < 10 then [DigitChar(n)] else NatToString(n / 10) + [DigitChar(n % 10)]
  }

  /** `str(i)` for an integer. */
  function IntToString(i: int): string
  {
    if i < 0 then "-" + NatToString(-i) else NatToString(i)
  }

  lemma InfixSelf(t: string)
    ensures IsInfix(t, t)
  {
    assert t[0..|t|] == t;
    assert OccursAt(t, t, 0);
  }

  lemma InfixInConcat(t: string, a: string, b: string)
    requires IsInfix(t, a) || IsInfix(t, b)
    ensures IsInfix(t, a + b)
  {
    if IsInfix(t, a) {
      var k :| OccursAt(t, a, k);
      assert (a + b)[k..k + |t|] == a[k..k + |t|];
      assert OccursAt(t, a + b, k);
    } else {
      var k :| OccursAt(t, b, k);
      assert (a + b)[|a| + k..|a| + k + |t|] == b[k..k + |t|];
      assert OccursAt(t, a + b, |a| + k);
    }
  }

  /** Every piece of a join occurs in the joined string. */
  lemma {:induction false} JoinHasPart(sep: string, parts: seq<string>, i: nat)
    requires i < |parts|
    ensures IsInfix(parts[i], Join(sep, parts))
  {
    if |parts| == 1 {
      InfixSelf(parts[0]);
    } else if i == 0 {
      InfixSelf(parts[0]);
      InfixInConcat(parts[0], parts[0], sep);
      InfixInConcat(parts[0], parts[0] + sep, Join(sep, parts[1..]));
    } else {
      JoinHasPart(sep, parts[1..], i - 1);
      InfixInConcat(parts[i], parts[0] + sep, Join(sep, parts[1..]));
    }
  }

  /** A join is empty only when every piece is. */
  lemma {:induction false} JoinNonEmpty(sep: string, parts: seq<string>, i: nat)
    requires i < |parts| && parts[i] != ""
    ensures Join(sep, parts) != ""
  {
    if |parts| > 1 && i > 0 {
      JoinNonEmpty(sep, parts[1..], i - 1);
    }
  }

  lemma {:induction false} SplitPiece(a: string, c: char)
    requires c !in a
    ensures Split(a, c) == [a]
    decreases |a|
  {
    if |a| > 0 {
      SplitPiece(a[1..], c);
      assert [a[0]] + a[1..] == a;
    }
  }

  lemma {:induction false} SplitAtSeparator(a: string, c: char, rest: string)
    requires c !in a
    ensures Split(a + [c] + rest, c) == [a] + Split(rest, c)
    decreases |a|
  {
    var s := a + [c] + rest;
    if |a| == 0 {
      assert s[1..] == rest;
    } else {
      assert s[1..] == a[1..] + [c] + rest;
      SplitAtSeparator(a[1..], c, rest);
      assert [a[0]] + a[1..] == a;
    }
  }

  /** Splitting a join on its one-character separator gives back the pieces,
      when none of them contains the separator. */
  lemma {:induction false} SplitJoin(parts: seq<string>, c: char)
    requires |parts| >= 1 && NoneContains(parts, c)
    ensures Split(Join([c], parts), c) == parts
    decreases |parts|
  {
    if |parts| == 1 {
      SplitPiece(parts[0], c);
    } else {
      assert NoneContains(parts[1..], c) by {
        forall i | 0 <= i < |parts[1..]| ensures c !in parts[1..][i] {
          assert parts[1..][i] == parts[i + 1];
        }
      }
      SplitJoin(parts[1..], c);
      SplitAtSeparator(parts[0], c, Join([c], parts[1..]));
      assert [parts[0]] + parts[1..] == parts;
    }
  }

  /** A rendering built from a banner starts with the title, a line break and
      the rule. */
  lemma BannerPrefix(title: string, rest: seq<string>)
    ensures title + "\n" + Repeat('-', |title|) <= Join("\n", Banner(title) + rest)
  {
    var parts := Banner(title) + rest;
    var rule := Repeat('-', |title|);
    assert parts[1..] == [rule] + rest;
    if rest == [] {
      assert Join("\n", parts[1..]) == rule;
    } else {
      assert ([rule] + rest)[1..] == rest;
      assert Join("\n", parts[1..]) == rule + "\n" + Join("\n", rest);
    }
  }
}
