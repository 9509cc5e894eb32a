/**
 Text as the services clean it: `strip`, the empty text as absent, length limits, and the digits of
 an INN. White space and digits are those of ASCII.
 */
module Text {
  import opened Options

  predicate IsSpace(c: char) {
    c == ' ' || c == '\t' || c == '\n' || c == '\r'
  }

  function StripLeft(s: string): string {
    if s != "" && IsSpace(s[0]) then StripLeft(s[1..]) else s
  }

  function StripRight(s: string): string {
    if s != "" && IsSpace(s[|s| - 1]) then StripRight(s[..|s| - 1]) else s
  }

  function Strip(s: string): string {
    StripRight(StripLeft(s))
  }

  predicate Stripped(s: string) {
    s != "" ==> !IsSpace(s[0]) && !IsSpace(s[|s| - 1])
  }

  lemma {:induction false} StripLeftClean(s: string)
    ensures StripLeft(s) != "" ==> !IsSpace(StripLeft(s)[0])
  {
    if s != "" && IsSpace(s[0]) {
      StripLeftClean(s[1..]);
    }
  }

  lemma {:induction false} StripRightClean(s: string)
    ensures StripRight(s) != "" ==> !IsSpace(StripRight(s)[|StripRight(s)| - 1])
    ensures StripRight(s) != "" ==> s != "" && StripRight(s)[0] == s[0]
  {
    if s != "" && IsSpace(s[|s| - 1]) {
      StripRightClean(s[..|s| - 1]);
    }
  }

  lemma StripIsStripped(s: string)
    ensures Stripped(Strip(s))
  {
    StripLeftClean(s);
    StripRightClean(StripLeft(s));
  }

  lemma StripIdempotent(s: string)
    ensures Strip(Strip(s)) == Strip(s)
  {
    StripIsStripped(s);
  }

  /** What is taken off is white space at either end, and none is left there. */
  lemma StripTakesSpaces(s: string) returns (before: string, after: string)
    ensures s == before + Strip(s) + after
    ensures forall c | c in before + after :: c in {' ', '\t', '\n', '\r'}
    ensures Strip(s) != "" ==> Strip(s)[0] !in {' ', '\t', '\n', '\r'}
    ensures Strip(s) != "" ==> Strip(s)[|Strip(s)| - 1] !in {' ', '\t', '\n', '\r'}
  {
    before := LeftSpaces(s);
    after := RightSpaces(StripLeft(s));
    StripIsStripped(s);
    Associative(before, Strip(s), after);
  }

  lemma Associative(a: string, b: string, c: string)
    ensures a + (b + c) == a + b + c
  {
  }

  lemma {:induction false} LeftSpaces(s: string) returns (spaces: string)
    ensures s == spaces + StripLeft(s) && forall c | c in spaces :: c in {' ', '\t', '\n', '\r'}
  {
    spaces := "";
    if s != "" && IsSpace(s[0]) {
      spaces := LeftSpaces(s[1..]);
      spaces := [s[0]] + spaces;
    }
  }

  lemma {:induction false} RightSpaces(s: string) returns (spaces: string)
    ensures s == StripRight(s) + spaces && forall c | c in spaces :: c in {' ', '\t', '\n', '\r'}
  {
    spaces := "";
    if s != "" && IsSpace(s[|s| - 1]) {
      spaces := RightSpaces(s[..|s| - 1]);
      spaces := spaces + [s[|s| - 1]];
    }
  }

  /** `_normalize_text` */
  function Normalize(value: Option<string>): Option<string> {
    var prepared := Strip(value.GetOr(""));
    if prepared == "" then None else Some(prepared)
  }

  /** A text that is already what normalisation makes of it. */
  predicate Clean(value: Option<string>) {
    Normalize(value) == value
  }

  lemma NormalizeIsClean(value: Option<string>)
    ensures Clean(Normalize(value))
  {
    StripIdempotent(value.GetOr(""));
  }

  predicate FitsLimit(value: Option<string>, limit: nat) {
    Normalize(value).Some? ==> |Normalize(value).value| <= limit
  }

  function Digits(s: string): string {
    if s == "" then "" else (if '0' <= s[0] <= '9' then [s[0]] else "") + Digits(s[1..])
  }

  /** Ten digits and nothing else. */
  predicate IsInn(s: string) {
    |s| == 10 && forall i | 0 <= i < |s| :: '0' <= s[i] <= '9'
  }

  const QUERY_MAX_LENGTH := 300

  /** `normalize_inn`: `None` is its validation error. */
  function NormalizeInn(value: string): Option<string> {
    if |value| > QUERY_MAX_LENGTH then None
    else if |Digits(value)| == 10 then Some(Digits(value))
    else None
  }

  lemma {:induction false} DigitsAreDigits(s: string)
    ensures forall i | 0 <= i < |Digits(s)| :: '0' <= Digits(s)[i] <= '9'
  {
    if s != "" {
      DigitsAreDigits(s[1..]);
    }
  }

  lemma {:induction false} DigitsOfDigits(s: string)
    requires forall i | 0 <= i < |s| :: '0' <= s[i] <= '9'
    ensures Digits(s) == s
  {
    if s != "" {
      DigitsOfDigits(s[1..]);
      assert s == [s[0]] + s[1..];
    }
  }

  /** Each character by itself decides whether it is kept: a digit is, and nothing else. */
  lemma {:induction false} DigitsAreKept(a: string, b: string, c: char)
    ensures Digits(a + b) == Digits(a) + Digits(b)
    ensures Digits([c]) == if '0' <= c <= '9' then [c] else ""
  {
    assert [c][1..] == "";
    if a == "" {
      assert a + b == b;
    } else {
      assert (a + b)[1..] == a[1..] + b;
      DigitsAreKept(a[1..], b, c);
    }
  }

  /** What normalisation accepts is an INN, and an INN is its own normal form. */
  lemma NormalizeInnIsInn(value: string)
    ensures NormalizeInn(value).Some? ==> IsInn(NormalizeInn(value).value)
    ensures IsInn(value) ==> NormalizeInn(value) == Some(value)
  {
    DigitsAreDigits(value);
    if IsInn(value) {
      DigitsOfDigits(value);
    }
  }

  lemma InnIsStripped(s: string)
    requires IsInn(s)
    ensures Stripped(s) && Strip(s) == s
  {
  }
}
