/**
 * The e-mail pattern `^[^\s@]+@[^\s@]+\.[^\s@]+$` that both the form and the
 * server route test addresses against. `MatchesPattern` reads the pattern
 * piece by piece (three runs of "plain" characters separated by `@` and
 * `.`); `WellShaped` describes the same language by the properties a person
 * would check; `PatternIffShape` proves the two agree on every string.
 */
module EmailPattern {
  import opened Strings

  /** A character of the class `[^\s@]`. */
  predicate Plain(c: char) {
    c != '@' && !IsWhitespace(c)
  }

  /** A string made of `[^\s@]` characters only. */
  predicate AllPlain(s: string) {
    forall k :: 0 <= k < |s| ==> Plain(s[k])
  }

  /** The pattern matches `s` with its `@` at index `at` and the `.` that
      starts its last run at index `dot`: `s[..at]`, `s[at+1..dot]` and
      `s[dot+1..]` are each a non-empty run of plain characters. */
  predicate MatchesAt(s: string, at: int, dot: int) {
    && 0 < at && at + 1 < dot && dot + 1 < |s|
    && s[at] == '@' && s[dot] == '.'
    && AllPlain(s[..at]) && AllPlain(s[at + 1..dot]) && AllPlain(s[dot + 1..])
  }

  /** `/^[^\s@]+@[^\s@]+\.[^\s@]+$/.test(s)`: some choice of the `@` and of
      the `.` makes all three runs fit. */
  predicate MatchesPattern(s: string) {
    exists at, dot | 0 <= at < |s| && 0 <= dot < |s| :: MatchesAt(s, at, dot)
  }

  /** The domain has a `.` that is neither its first nor its last character. */
  predicate InnerDot(domain: string) {
    exists q :: 0 < q < |domain| - 1 && domain[q] == '.'
  }

  /** `s` has its only `@` at index `at`, after a non-empty local part, and
      the domain after it has an inner `.`. */
  predicate SplitsAt(s: string, at: int) {
    && 0 < at < |s| && s[at] == '@'
    && (forall k :: 0 <= k < |s| && k != at ==> s[k] != '@')
    && InnerDot(s[at + 1..])
  }

  /** The address as a reader would describe it: no whitespace at all,
      exactly one `@`, a non-empty local part, and a `.` inside the domain
      that is neither its first nor its last character. */
  predicate WellShaped(s: string) {
    && (forall k :: 0 <= k < |s| ==> !IsWhitespace(s[k]))
    && exists at | 0 <= at < |s| :: SplitsAt(s, at)
  }

  /** The pattern accepts exactly the well-shaped addresses. */
  lemma PatternIffShape(s: string)
    ensures MatchesPattern(s) <==> WellShaped(s)
  {
    if MatchesPattern(s) {
      var at, dot :| 0 <= at < |s| && 0 <= dot < |s| && MatchesAt(s, at, dot);
      MatchEnsuresShape(s, at, dot);
    }
    if WellShaped(s) {
      var at :| 0 <= at < |s| && SplitsAt(s, at);
      var q :| 0 < q < |s[at + 1..]| - 1 && s[at + 1..][q] == '.';
      ShapeEnsuresMatch(s, at, at + 1 + q);
    }
  }

  /** One way round: a match yields the shape, with the `@` at the same place. */
  lemma MatchEnsuresShape(s: string, at: int, dot: int)
    requires MatchesAt(s, at, dot)
    ensures WellShaped(s) && SplitsAt(s, at)
  {
    forall k | 0 <= k < |s| && k != at
      ensures Plain(s[k]) || k == dot
    {
      if k < at {
        assert s[..at][k] == s[k];
      } else if k < dot {
        assert s[at + 1..dot][k - at - 1] == s[k];
      } else if k > dot {
        assert s[dot + 1..][k - dot - 1] == s[k];
      }
    }
    var domain := s[at + 1..];
    assert domain[dot - at - 1] == '.';
    assert InnerDot(domain);
    assert SplitsAt(s, at);
  }

  /** The other way round: the only `@` and any inner `.` of the domain
      split the address into three plain runs. */
  lemma ShapeEnsuresMatch(s: string, at: int, dot: int)
    requires forall k :: 0 <= k < |s| ==> !IsWhitespace(s[k])
    requires SplitsAt(s, at)
    requires at + 1 < dot < |s| - 1 && s[dot] == '.'
    ensures MatchesAt(s, at, dot) && MatchesPattern(s)
  {
    assert AllPlain(s[..at]) by {
      forall k | 0 <= k < at ensures Plain(s[..at][k]) {
        assert s[..at][k] == s[k];
      }
    }
    var domain, last := s[at + 1..dot], s[dot + 1..];
    assert AllPlain(domain) by {
      forall k | 0 <= k < |domain| ensures Plain(domain[k]) {
        assert domain[k] == s[at + 1 + k];
      }
    }
    assert AllPlain(last) by {
      forall k | 0 <= k < |last| ensures Plain(last[k]) {
        assert last[k] == s[dot + 1 + k];
      }
    }
    assert MatchesAt(s, at, dot);
  }

  /** A blank string never matches: the pattern needs an `@`. */
  lemma BlankNeverMatches(s: string)
    requires Blank(s)
    ensures !MatchesPattern(s)
  {
  }
}
