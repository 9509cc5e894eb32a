/**
 Column names of a worksheet: the loop of `_column_letter` is a bijection between 1, 2, 3, ... and A, B, ..., Z,
 AA, ...
 */
module XlsxColumns {
  import opened Options

  const ASCII_UPPERCASE := "ABCDEFGHIJKLMNOPQRSTUVWXYZ"

  predicate IsName(s: string) {
    forall i | 0 <= i < |s| :: 'A' <= s[i] <= 'Z'
  }

  function Letter(d: nat): char
    requires d < 26
  {
    'A' + d as char
  }

  function Digit(c: char): nat
    requires 'A' <= c <= 'Z'
  {
    (c - 'A') as nat
  }

  /** The number a name stands for: digits 1 to 26, most significant first. */
  function Decode(s: string): nat
    requires IsName(s)
  {
    if s == "" then 0 else 26 * Decode(s[..|s| - 1]) + Digit(s[|s| - 1]) + 1
  }

  function Name(n: nat): (s: string)
    ensures IsName(s) && (n > 0 ==> s != "")
    decreases n
  {
    if n == 0 then "" else Name((n - 1) / 26) + [Letter((n - 1) % 26)]
  }

  function Reversed(s: string): string {
    if s == "" then "" else Reversed(s[1..]) + [s[0]]
  }

  lemma {:induction false} ReversedSnoc(s: string, c: char)
    ensures Reversed(s + [c]) == [c] + Reversed(s)
  {
    if s == "" {
      assert s + [c] == [c];
    } else {
      assert (s + [c])[1..] == s[1..] + [c];
      ReversedSnoc(s[1..], c);
    }
  }

  lemma LettersInOrder(d: nat)
    requires d < 26
    ensures ASCII_UPPERCASE[d] == Letter(d)
  {
  }

  /** `_column_letter`: `None` is the ValueError for an index below one. */
  method ColumnLetter(index: int) returns (name: Option<string>)
    ensures name.None? <==> index < 1
    ensures index >= 1 ==> name == Some(Name(index))
  {
    if index < 1 {
      return None;
    }
    var result := "";
    var current := index;
    assert Reversed(result) == "";
    while current > 0
      invariant current >= 0
      invariant Name(current) + Reversed(result) == Name(index)
      decreases current
    {
      var remainder := (current - 1) % 26;
      LettersInOrder(remainder);
      ReversedSnoc(result, Letter(remainder));
      assert Name(current) + Reversed(result) == Name((current - 1) / 26) + ([Letter(remainder)] + Reversed(result));
      current := (current - 1) / 26;
      result := result + [ASCII_UPPERCASE[remainder]];
    }
    assert Name(current) + Reversed(result) == Reversed(result);
    name := Some(Reversed(result));
  }

  // ---- bijection ----

  /** Decoding inverts naming. */
  lemma {:induction false} DecodeOfName(n: nat)
    ensures Decode(Name(n)) == n
  {
    if n > 0 {
      var shorter := Name((n - 1) / 26);
      assert Name(n)[..|Name(n)| - 1] == shorter;
      DecodeOfName((n - 1) / 26);
    }
  }

  /** Naming inverts decoding: every name is produced by the number it decodes to, and by no other. */
  lemma {:induction false} NameOfDecode(s: string)
    requires IsName(s)
    ensures Name(Decode(s)) == s
    ensures s != "" <==> Decode(s) >= 1
  {
    if s != "" {
      var front, d := s[..|s| - 1], Digit(s[|s| - 1]);
      NameOfDecode(front);
      assert (Decode(s) - 1) / 26 == Decode(front) && (Decode(s) - 1) % 26 == d;
      assert s == front + [Letter(d)];
    }
  }

  /** Every non-empty string over A-Z is the name of exactly one column. */
  lemma ExactlyOneColumnPerName(s: string)
    requires IsName(s) && s != ""
    ensures Decode(s) >= 1 && Name(Decode(s)) == s
    ensures forall n: nat | Name(n) == s :: n == Decode(s)
  {
    NameOfDecode(s);
    forall n: nat | Name(n) == s
      ensures n == Decode(s)
    {
      DecodeOfName(n);
    }
  }

  // ---- order ----

  /** Shorter names first; of two names of one length the first letter that differs decides. */
  predicate ShortlexLess(a: string, b: string) {
    |a| < |b| || (|a| == |b| && exists k :: 0 <= k < |a| && a[k] < b[k] && a[..k] == b[..k])
  }

  /** The same order of names of one length, by their last letters. */
  predicate AlphabeticallyLess(a: string, b: string)
    requires |a| == |b|
  {
    && a != ""
    && (|| AlphabeticallyLess(a[..|a| - 1], b[..|b| - 1])
        || (a[..|a| - 1] == b[..|b| - 1] && a[|a| - 1] < b[|b| - 1]))
  }

  lemma {:induction false} AlphabeticallyLessIsLexicographic(a: string, b: string)
    requires |a| == |b|
    ensures AlphabeticallyLess(a, b) <==> exists k :: 0 <= k < |a| && a[k] < b[k] && a[..k] == b[..k]
  {
    if a != "" {
      var n := |a| - 1;
      AlphabeticallyLessIsLexicographic(a[..n], b[..n]);
      if AlphabeticallyLess(a[..n], b[..n]) {
        var k :| 0 <= k < n && a[..n][k] < b[..n][k] && a[..n][..k] == b[..n][..k];
        assert a[..n][..k] == a[..k] && b[..n][..k] == b[..k];
      }
      if k :| 0 <= k < |a| && a[k] < b[k] && a[..k] == b[..k] {
        if k < n {
          assert a[..n][..k] == a[..k] && b[..n][..k] == b[..k];
          assert a[..n][k] < b[..n][k];
        }
      }
    }
  }

  lemma {:induction false} LongerNameIsLarger(a: string, b: string)
    requires IsName(a) && IsName(b) && |a| < |b|
    ensures Decode(a) < Decode(b)
  {
    if a != "" {
      LongerNameIsLarger(a[..|a| - 1], b[..|b| - 1]);
    }
  }

  lemma {:induction false} OrderOfEqualLength(a: string, b: string)
    requires IsName(a) && IsName(b) && |a| == |b|
    ensures AlphabeticallyLess(a, b) <==> Decode(a) < Decode(b)
    ensures a == b <==> Decode(a) == Decode(b)
  {
    if a != "" {
      OrderOfEqualLength(a[..|a| - 1], b[..|b| - 1]);
      assert a == a[..|a| - 1] + [a[|a| - 1]] && b == b[..|b| - 1] + [b[|b| - 1]];
    }
  }

  /** Names grow in shortlex order with the column number, and only so. */
  lemma {:induction false} NamesGrowWithIndex(m: nat, n: nat)
    ensures m < n <==> ShortlexLess(Name(m), Name(n))
  {
    DecodeOfName(m);
    DecodeOfName(n);
    var a, b := Name(m), Name(n);
    if |a| < |b| {
      LongerNameIsLarger(a, b);
    } else if |b| < |a| {
      LongerNameIsLarger(b, a);
    } else {
      OrderOfEqualLength(a, b);
      AlphabeticallyLessIsLexicographic(a, b);
    }
  }
}
