/** The JavaScript string primitives the catalog search and the email check rely on:
    the whitespace class `\s` (which is also what `String.prototype.trim` strips),
    `toLowerCase`, `includes` and `Array.prototype.join`. */
module Text {

  /** ECMAScript WhiteSpace and LineTerminator code points: the members of the regular
      expression class `\s`, and the characters `trim` removes from both ends. */
  predicate IsSpace(c: char) {
    var n := c as int;
    || n == 0x09 || n == 0x0A || n == 0x0B || n == 0x0C || n == 0x0D
    || n == 0x20 || n == 0xA0 || n == 0x1680
    || (0x2000 <= n <= 0x200A)
    || n == 0x2028 || n == 0x2029 || n == 0x202F || n == 0x205F
    || n == 0x3000 || n == 0xFEFF
  }

  /** True when no character of `s` is whitespace. */
  predicate NoSpace(s: string) {
    forall k | 0 <= k < |s| :: !IsSpace(s[k])
  }

  /** Case folding of one character; only the ASCII letters are mapped. */
  function LowerChar(c: char): char {
    if 'A' <= c <= 'Z' then (c as int + 32) as char else c
  }

  /** `toLowerCase`, character by character. */
  function Lower(s: string): string {
    seq(|s|, i requires 0 <= i < |s| => LowerChar(s[i]))
  }

  /** `trimStart`: drops the leading run of whitespace, and nothing else. */
  function TrimStart(s: string): (r: string)
    ensures |r| <= |s| && r == s[|s| - |r|..]
    ensures forall k | 0 <= k < |s| - |r| :: IsSpace(s[k])
    ensures r == [] || !IsSpace(r[0])
    decreases |s|
  {
    if |s| > 0 && IsSpace(s[0]) then TrimStart(s[1..]) else s
  }

  /** `trimEnd`: drops the trailing run of whitespace, and nothing else. */
  function TrimEnd(s: string): (r: string)
    ensures |r| <= |s| && r == s[..|r|]
    ensures forall k | |r| <= k < |s| :: IsSpace(s[k])
    ensures r == [] || !IsSpace(r[|r| - 1])
    decreases |s|
  {
    if |s| > 0 && IsSpace(s[|s| - 1]) then TrimEnd(s[..|s| - 1]) else s
  }

  /** `trim`: the slice of `s` between its leading and trailing whitespace. Everything
      before and after the slice is whitespace; the slice is empty exactly when `s` is
      all whitespace, and otherwise starts and ends with a non-whitespace character. */
  function Trim(s: string): (r: string)
    ensures r == [] <==> forall k | 0 <= k < |s| :: IsSpace(s[k])
    ensures r == [] || (!IsSpace(r[0]) && !IsSpace(r[|r| - 1]))
    ensures exists i ::
      && OccursAt(s, r, i)
      && (forall k | 0 <= k < i :: IsSpace(s[k]))
      && (forall k | i + |r| <= k < |s| :: IsSpace(s[k]))
  {
    var t := TrimStart(s);
    var r := TrimEnd(t);
    assert r == s[|s| - |t|..][..|r|] == s[|s| - |t|..|s| - |t| + |r|];
    assert OccursAt(s, r, |s| - |t|);
    r
  }

  /** `s.startsWith(p)`. */
  predicate StartsWith(s: string, p: string) {
    |p| <= |s| && s[..|p|] == p
  }

  /** `s.includes(q)`: `q` starts at some position of `s`. */
  predicate Includes(s: string, q: string)
    decreases |s|
  {
    StartsWith(s, q) || (|s| > 0 && Includes(s[1..], q))
  }

  /** `q` occurs in `s` starting at index `i`. */
  ghost predicate OccursAt(s: string, q: string, i: int) {
    0 <= i && i + |q| <= |s| && s[i..i + |q|] == q
  }

  /** The scan `Includes` agrees with the positional definition of a substring. */
  lemma {:induction false} IncludesIff(s: string, q: string)
    ensures Includes(s, q) <==> exists i :: OccursAt(s, q, i)
    decreases |s|
  {
    if StartsWith(s, q) {
      assert OccursAt(s, q, 0);
    } else if |s| == 0 {
    } else {
      IncludesIff(s[1..], q);
      if exists i :: OccursAt(s[1..], q, i) {
        var i :| OccursAt(s[1..], q, i);
        assert s[i + 1..i + 1 + |q|] == s[1..][i..i + |q|];
        assert OccursAt(s, q, i + 1);
      }
      if exists i :: OccursAt(s, q, i) {
        var i :| OccursAt(s, q, i);
        assert i != 0;
        assert s[1..][i - 1..i - 1 + |q|] == s[i..i + |q|];
        assert OccursAt(s[1..], q, i - 1);
      }
    }
  }

  /** `parts.join(sep)` for a one-character separator. */
  function Join(parts: seq<string>, sep: char): string
    decreases |parts|
  {
    if |parts| == 0 then ""
    else if |parts| == 1 then parts[0]
    else parts[0] + [sep] + Join(parts[1..], sep)
  }

  /** Every part occurs in the joined text. */
  lemma {:induction false} JoinContainsParts(parts: seq<string>, sep: char, k: nat)
    requires k < |parts|
    ensures exists i :: OccursAt(Join(parts, sep), parts[k], i)
    decreases |parts|
  {
    var j := Join(parts, sep);
    if |parts| == 1 {
      assert OccursAt(j, parts[k], 0);
    } else if k == 0 {
      assert j[..|parts[0]|] == parts[0];
      assert OccursAt(j, parts[k], 0);
    } else {
      JoinContainsParts(parts[1..], sep, k - 1);
      var rest := Join(parts[1..], sep);
      var i :| OccursAt(rest, parts[1..][k - 1], i);
      var off := |parts[0]| + 1;
      assert j == parts[0] + [sep] + rest;
      assert j[off + i..off + i + |parts[k]|] == rest[i..i + |parts[k]|];
      assert OccursAt(j, parts[k], off + i);
    }
  }

  /** Case folding commutes with occurrence: a substring of `s` folds to a substring
      of `Lower(s)`. */
  lemma LowerPreservesOccurrence(s: string, q: string, i: int)
    requires OccursAt(s, q, i)
    ensures OccursAt(Lower(s), Lower(q), i)
  {
  }

  /** An occurrence inside an occurrence is an occurrence. */
  lemma OccursWithin(s: string, t: string, u: string, i: int, j: int)
    requires OccursAt(s, t, i) && OccursAt(t, u, j)
    ensures OccursAt(s, u, i + j)
  {
    forall k | 0 <= k < |u| ensures s[i + j + k] == u[k] {
      assert u[k] == t[j + k];
      assert t[j + k] == s[i..i + |t|][j + k];
    }
    assert s[i + j..i + j + |u|] == u;
  }
}
