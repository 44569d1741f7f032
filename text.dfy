/** String helpers the bots rely on: ASCII lower-casing (the part of
    JavaScript's `toLowerCase` the commands can observe) and substring search
    (JavaScript's `String.prototype.includes`). */
module Text {

  /** Lower-cases one character; only `A`-`Z` are folded. */
  function LowerChar(c: char): char
  {
    if 'A' <= c <= 'Z' then (c as int + 32) as char else c
  }

  /** `s.toLowerCase()`, restricted to ASCII letters. */
  function Lower(s: string): string
  {
    seq(|s|, i requires 0 <= i < |s| => LowerChar(s[i]))
  }

  /** `s.includes(sub)`: does `sub` occur in `s` starting at some position?
      Written as the scan JavaScript performs, from the left. */
  predicate Includes(s: string, sub: string)
    decreases |s|
  {
    if |s| < |sub| then false
    else s[..|sub|] == sub || Includes(s[1..], sub)
  }

  /** The declarative meaning of `includes`: an occurrence at index `i`. */
  ghost predicate OccursAt(s: string, sub: string, i: int)
  {
    0 <= i && i + |sub| <= |s| && s[i..i + |sub|] == sub
  }

  /** The scan finds an occurrence exactly when there is one. */
  lemma {:induction false} IncludesIff(s: string, sub: string)
    ensures Includes(s, sub) <==> exists i :: OccursAt(s, sub, i)
    decreases |s|
  {
    if |s| < |sub| {
    } else if s[..|sub|] == sub {
      assert OccursAt(s, sub, 0);
    } else {
      IncludesIff(s[1..], sub);
      if Includes(s[1..], sub) {
        var j :| OccursAt(s[1..], sub, j);
        assert s[j + 1..j + 1 + |sub|] == s[1..][j..j + |sub|];
        assert OccursAt(s, sub, j + 1);
      }
      forall i | OccursAt(s, sub, i)
        ensures OccursAt(s[1..], sub, i - 1)
      {
        assert i != 0;
        assert s[1..][i - 1..i - 1 + |sub|] == s[i..i + |sub|];
      }
    }
  }

  /** A witness position is enough to show `includes` holds. */
  lemma IncludesAt(s: string, sub: string, i: int)
    requires OccursAt(s, sub, i)
    ensures Includes(s, sub)
  {
    IncludesIff(s, sub);
  }

  /** A non-empty pattern whose first character never appears in `s`
      cannot occur in `s`. */
  lemma NotIncludesWithoutFirst(s: string, sub: string)
    requires |sub| > 0 && sub[0] !in s
    ensures !Includes(s, sub)
  {
    IncludesIff(s, sub);
    forall i | 0 <= i && i + |sub| <= |s|
      ensures !OccursAt(s, sub, i)
    {
      assert s[i..i + |sub|][0] == s[i] && s[i] in s;
    }
  }

  /** Lower-casing a string with no `h` or `H` gives a string with no `h`. */
  lemma LowerWithoutH(s: string)
    requires 'h' !in s && 'H' !in s
    ensures 'h' !in Lower(s)
  {
    forall i | 0 <= i < |s|
      ensures Lower(s)[i] != 'h'
    {
      assert s[i] in s;
    }
  }
}
