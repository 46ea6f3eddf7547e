/** The email check of the order endpoint: the regular expression
    `^[^\s@]+@[^\s@]+\.[^\s@]+$`, a deliberately simple pattern (it is not the
    addr-spec grammar of RFC 5322). */
module Email {
  import opened Text

  /** A member of the class `[^\s@]`. */
  predicate PlainChar(c: char) {
    !IsSpace(c) && c != '@'
  }

  /** The pattern `[^\s@]+`: a non-empty run of plain characters. */
  predicate Run(s: string) {
    |s| > 0 && forall k | 0 <= k < |s| :: PlainChar(s[k])
  }

  /** `s` is run, `@` at `i`, run, `.` at `j`, run. */
  predicate SplitsAt(s: string, i: int, j: int) {
    && 0 < i < j < |s|
    && s[i] == '@' && s[j] == '.'
    && Run(s[..i]) && Run(s[i + 1..j]) && Run(s[j + 1..])
  }

  /** The language of the regular expression: some split of `s` matches it. The
      anchors `^` and `$` (without the multiline flag) tie the match to the whole string. */
  predicate MatchesPattern(s: string) {
    exists i, j | 0 < i < j < |s| :: SplitsAt(s, i, j)
  }

  /** `i` is the only position of `@` in `s`. */
  predicate OnlyAt(s: string, i: int) {
    forall k | 0 <= k < |s| && s[k] == '@' :: k == i
  }

  /** `d` has a `.` that is neither its first nor its last character. */
  predicate InteriorDot(d: string) {
    exists j | 0 < j < |d| - 1 :: d[j] == '.'
  }

  /** The shape of an accepted address, stated without the regular expression: no
      whitespace anywhere, exactly one `@` and not in first position, and a domain part
      with an interior `.`. */
  predicate WellShaped(s: string) {
    && NoSpace(s)
    && exists i | 0 < i < |s| :: s[i] == '@' && OnlyAt(s, i) && InteriorDot(s[i + 1..])
  }

  /** The regular expression accepts exactly the well-shaped strings. */
  lemma MatchesPatternIff(s: string)
    ensures MatchesPattern(s) <==> WellShaped(s)
  {
    if MatchesPattern(s) {
      var i, j :| 0 < i < j < |s| && SplitsAt(s, i, j);
      forall k | 0 <= k < |s| ensures !IsSpace(s[k]) && (s[k] == '@' ==> k == i) {
        if k < i {
          assert s[k] == s[..i][k];
        } else if i < k < j {
          assert s[k] == s[i + 1..j][k - i - 1];
        } else if j < k {
          assert s[k] == s[j + 1..][k - j - 1];
        }
      }
      var d := s[i + 1..];
      assert d[j - i - 1] == '.';
      assert InteriorDot(d);
    }
    if WellShaped(s) {
      var i :| 0 < i < |s| && s[i] == '@' && OnlyAt(s, i) && InteriorDot(s[i + 1..]);
      var d := s[i + 1..];
      var jj :| 0 < jj < |d| - 1 && d[jj] == '.';
      var j := i + 1 + jj;
      assert s[j] == '.';
      assert Run(s[..i]);
      assert Run(s[i + 1..j]);
      assert Run(s[j + 1..]);
      assert SplitsAt(s, i, j);
    }
  }

  /** `emailRegex.test(s)` as a left-to-right scan: one pass for whitespace and the
      position of the single `@`, then a search for an interior `.` after it. */
  method ScanEmail(s: string) returns (ok: bool)
    ensures ok <==> MatchesPattern(s)
  {
    MatchesPatternIff(s);
    var at := -1;
    var k := 0;
    while k < |s|
      invariant 0 <= k <= |s|
      invariant forall m | 0 <= m < k :: !IsSpace(s[m])
      invariant at == -1 ==> forall m | 0 <= m < k :: s[m] != '@'
      invariant at != -1 ==> 0 <= at < k && s[at] == '@' && forall m | 0 <= m < k && s[m] == '@' :: m == at
    {
      if IsSpace(s[k]) {
        return false;
      }
      if s[k] == '@' {
        if at != -1 {
          return false;
        }
        at := k;
      }
      k := k + 1;
    }
    if at <= 0 {
      return false;
    }
    var j := at + 2;
    while j < |s| - 1
      invariant at + 2 <= j
      invariant forall m | at + 2 <= m < j && m < |s| - 1 :: s[m] != '.'
      decreases |s| - j
    {
      if s[j] == '.' {
        assert s[at + 1..][j - at - 1] == '.';
        return true;
      }
      j := j + 1;
    }
    assert OnlyAt(s, at);
    var d := s[at + 1..];
    assert !InteriorDot(d) by {
      forall jj | 0 < jj < |d| - 1 ensures d[jj] != '.' {
        assert d[jj] == s[at + 1 + jj];
      }
    }
    return false;
  }
}
