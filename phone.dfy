/** Number formatting for manual sends (server.js:169-181): strip every
    character other than a digit or `@`, append `@c.us` when no `@` is left,
    then accept only `^\d+@c\.us$`. */
module PhoneNumber {

  /** `\d` in a JavaScript regular expression: ASCII digits only. */
  predicate IsDigit(c: char)
  {
    '0' <= c <= '9'
  }

  /** The characters `/[^\d@]/g` does not remove. */
  predicate Kept(c: char)
  {
    IsDigit(c) || c == '@'
  }

  /** The suffix of a direct (one-to-one) chat address. */
  const DirectSuffix := "@c.us"

  /** `s.replace(/[^\d@]/g, '')`: the kept characters of `s`, in order. */
  function Strip(s: string): (r: string)
    ensures |r| <= |s|
    ensures forall c :: c in r ==> Kept(c)
    ensures forall c :: c in s && Kept(c) ==> c in r
  {
    if s == [] then []
    else
      assert s == s[..|s| - 1] + [s[|s| - 1]];
      Strip(s[..|s| - 1]) + (if Kept(s[|s| - 1]) then [s[|s| - 1]] else [])
  }

  /** The digits of `s`, in order. */
  function Digits(s: string): (r: string)
    ensures forall c :: c in r ==> IsDigit(c)
    ensures |r| > 0 <==> exists c :: c in s && IsDigit(c)
  {
    if s == [] then []
    else
      assert s == s[..|s| - 1] + [s[|s| - 1]];
      Digits(s[..|s| - 1]) + (if IsDigit(s[|s| - 1]) then [s[|s| - 1]] else [])
  }

  /** The number server.js hands to `client.sendMessage`, before validation. */
  function Normalize(raw: string): string
  {
    var stripped := Strip(raw);
    if '@' in stripped then stripped else stripped + DirectSuffix
  }

  /** `/^\d+@c\.us$/`: one or more digits followed by the direct suffix. */
  predicate IsDirectAddress(s: string)
  {
    |s| > |DirectSuffix|
    && s[|s| - |DirectSuffix|..] == DirectSuffix
    && forall i :: 0 <= i < |s| - |DirectSuffix| ==> IsDigit(s[i])
  }

  /** server.js:169-177 step by step: copy, strip character by character,
      append the suffix when there is no `@`. */
  method Format(to: string) returns (formatted: string)
    ensures formatted == Normalize(to)
  {
    var kept := "";
    var i := 0;
    while i < |to|
      invariant 0 <= i <= |to|
      invariant kept == Strip(to[..i])
    {
      assert to[..i + 1][..i] == to[..i];
      if Kept(to[i]) {
        kept := kept + [to[i]];
      }
      i := i + 1;
    }
    assert to[..|to|] == to;
    formatted := kept;
    if '@' !in formatted {
      formatted := formatted + DirectSuffix;
    }
  }

  /** Without an `@` in the input, stripping keeps exactly the digits. */
  lemma {:induction false} StripWithoutAt(s: string)
    requires '@' !in s
    ensures Strip(s) == Digits(s)
  {
    if s != [] {
      assert s == s[..|s| - 1] + [s[|s| - 1]];
      assert '@' !in s[..|s| - 1];
      StripWithoutAt(s[..|s| - 1]);
    }
  }

  /** Stripping drops no digit and no `@`: each occurs in the result exactly
      as often as in the input. */
  lemma {:induction false} StripCounts(s: string)
    ensures forall c :: Kept(c) ==> multiset(Strip(s))[c] == multiset(s)[c]
  {
    if s != [] {
      var init, last := s[..|s| - 1], s[|s| - 1];
      assert s == init + [last];
      StripCounts(init);
      assert Strip(s) == Strip(init) + (if Kept(last) then [last] else []);
    }
  }

  /** Stripping is a filter: applied to a concatenation it strips each part. */
  lemma {:induction false} StripAppend(a: string, b: string)
    ensures Strip(a + b) == Strip(a) + Strip(b)
    decreases |b|
  {
    if b == [] {
      assert a + b == a;
    } else {
      var b' := b[..|b| - 1];
      assert (a + b)[..|a + b| - 1] == a + b';
      StripAppend(a, b');
    }
  }

  /** The normalised number is valid exactly when the raw input has no `@`
      and at least one digit, and then it is those digits followed by
      `@c.us`. */
  lemma {:induction false} NormalizeValidIff(raw: string)
    ensures IsDirectAddress(Normalize(raw)) <==> '@' !in raw && exists c :: c in raw && IsDigit(c)
    ensures IsDirectAddress(Normalize(raw)) ==> Normalize(raw) == Digits(raw) + DirectSuffix
  {
    var stripped := Strip(raw);
    var n := Normalize(raw);
    if '@' in raw {
      assert '@' in stripped;
      assert n == stripped;
      if |n| > |DirectSuffix| {
        assert n[|n| - 4] in stripped;
        assert n[|n| - |DirectSuffix|..][1] == n[|n| - 4];
      }
    } else {
      StripWithoutAt(raw);
      assert '@' !in stripped;
      assert n == Digits(raw) + DirectSuffix;
      assert n[|n| - |DirectSuffix|..] == DirectSuffix;
      forall i | 0 <= i < |n| - |DirectSuffix|
        ensures IsDigit(n[i])
      {
        assert n[i] == Digits(raw)[i];
      }
    }
  }

  /** A string made of kept characters only is left as it is. */
  lemma {:induction false} StripAllKept(s: string)
    requires forall c :: c in s ==> Kept(c)
    ensures Strip(s) == s
  {
    if s != [] {
      assert s == s[..|s| - 1] + [s[|s| - 1]];
      StripAllKept(s[..|s| - 1]);
    }
  }

  /** A string without any kept character is removed entirely. */
  lemma {:induction false} StripNoneKept(s: string)
    requires forall c :: c in s ==> !Kept(c)
    ensures Strip(s) == []
  {
    if s != [] {
      assert s == s[..|s| - 1] + [s[|s| - 1]];
      StripNoneKept(s[..|s| - 1]);
    }
  }

  /** Kept characters followed by dropped ones strip to the kept part. */
  lemma StripKeptThenDropped(a: string, b: string)
    requires forall c :: c in a ==> Kept(c)
    requires forall c :: c in b ==> !Kept(c)
    ensures Strip(a + b) == a
  {
    StripAllKept(a);
    StripNoneKept(b);
    StripAppend(a, b);
  }

  /** An address already in `digits@c.us` form loses its `c`, `.`, `u`,
      `s` to the strip step, keeps its `@`, gets no suffix and is rejected:
      `123@c.us` becomes `123@`. */
  lemma SuffixedNumberRejected(digits: string)
    requires |digits| > 0 && forall c :: c in digits ==> IsDigit(c)
    ensures Normalize(digits + DirectSuffix) == digits + "@"
    ensures !IsDirectAddress(Normalize(digits + DirectSuffix))
  {
    var kept := digits + "@";
    assert digits + DirectSuffix == kept + "c.us";
    StripKeptThenDropped(kept, "c.us");
    assert kept[|kept| - 1] == '@';
  }
}
