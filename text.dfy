/**
 * String helpers with JavaScript's meaning: the white-space class shared by
 * the regular-expression escape `\s` and `String.prototype.trim`, literal
 * occurrence of a word at a position, and `trim` itself.
 */
module Text {
  import opened Wrappers

  /** ECMAScript WhiteSpace or LineTerminator, the set matched by `\s` and removed by `trim`. */
  predicate IsSpace(c: char)
  {
    var n := c as int;
    n == 0x09 || n == 0x0A || n == 0x0B || n == 0x0C || n == 0x0D || n == 0x20 ||
    n == 0xA0 || n == 0x1680 || (0x2000 <= n <= 0x200A) || n == 0x2028 || n == 0x2029 ||
    n == 0x202F || n == 0x205F || n == 0x3000 || n == 0xFEFF
  }

  /** The regular-expression class `[A-Z]`. */
  predicate IsUpper(c: char)
  {
    'A' <= c <= 'Z'
  }

  predicate IsDigit(c: char)
  {
    '0' <= c <= '9'
  }

  /** The regular-expression class `[0-9.]`. */
  predicate IsNumberChar(c: char)
  {
    IsDigit(c) || c == '.'
  }

  predicate AllSpace(s: string)
  {
    forall i :: 0 <= i < |s| ==> IsSpace(s[i])
  }

  /** No white space at either end. */
  predicate IsTrimmed(s: string)
  {
    s == [] || (!IsSpace(s[0]) && !IsSpace(s[|s| - 1]))
  }

  /** The word `w` occurs literally in `s` starting at index `i`. */
  predicate At(s: string, i: nat, w: string)
  {
    i + |w| <= |s| && s[i..i + |w|] == w
  }

  /** `s.indexOf(w, i)`: the first index at or after `i` at which `w` occurs. */
  function Find(s: string, w: string, i: nat): (r: Option<nat>)
    requires i <= |s|
    ensures r.Some? ==> i <= r.value <= |s| && At(s, r.value, w)
    decreases |s| - i
  {
    if At(s, i, w) then Some(i) else if i == |s| then None else Find(s, w, i + 1)
  }

  /** `Find` reports the first occurrence, or that there is none. */
  lemma {:induction false} FindFirst(s: string, w: string, i: nat)
    requires i <= |s|
    ensures Find(s, w, i).Some? ==> forall k :: i <= k < Find(s, w, i).value ==> !At(s, k, w)
    ensures Find(s, w, i).None? ==> forall k :: i <= k <= |s| ==> !At(s, k, w)
    decreases |s| - i
  {
    if !At(s, i, w) && i < |s| {
      FindFirst(s, w, i + 1);
    }
  }

  /** The first index at or after `i` that is the end of `s` or holds a non-space (the greedy `\s*`). */
  function SkipSpaces(s: string, i: nat): (j: nat)
    requires i <= |s|
    ensures i <= j <= |s|
    ensures forall k :: i <= k < j ==> IsSpace(s[k])
    ensures j < |s| ==> !IsSpace(s[j])
    decreases |s| - i
  {
    if i == |s| || !IsSpace(s[i]) then i else SkipSpaces(s, i + 1)
  }

  /** The number of white-space characters at the end of `s`. */
  function TrailingSpaces(s: string): (n: nat)
    ensures n <= |s|
    ensures forall k :: |s| - n <= k < |s| ==> IsSpace(s[k])
    ensures n < |s| ==> !IsSpace(s[|s| - 1 - n])
  {
    if s == [] || !IsSpace(s[|s| - 1]) then 0 else 1 + TrailingSpaces(s[..|s| - 1])
  }

  /** `String.prototype.trim`: `s` without its leading and trailing white space. */
  function Trim(s: string): (r: string)
    ensures IsTrimmed(r)
    ensures |r| <= |s|
    ensures forall c :: c in r ==> c in s
    ensures r == [] <==> AllSpace(s)
    ensures IsTrimmed(s) ==> r == s
    ensures s != [] && !IsSpace(s[0]) ==> r <= s
    ensures exists i, j :: 0 <= i <= j <= |s| && r == s[i..j] && AllSpace(s[..i]) && AllSpace(s[j..])
  {
    var a := SkipSpaces(s, 0);
    var rest := s[a..];
    var r := rest[..|rest| - TrailingSpaces(rest)];
    var b := |s| - TrailingSpaces(rest);
    assert r == s[a..b];
    assert AllSpace(s[..a]) && AllSpace(s[b..]) by {
      assert forall k :: 0 <= k < a ==> s[..a][k] == s[k];
      assert forall k :: 0 <= k < |s| - b ==> s[b..][k] == rest[|rest| - TrailingSpaces(rest) + k];
    }
    assert forall c :: c in r ==> c in s by {
      forall c | c in r ensures c in s {
        var k :| 0 <= k < |r| && r[k] == c;
        assert s[a + k] == c;
      }
    }
    assert r == [] ==> AllSpace(s) by {
      if r == [] {
        assert a == |s|;
      }
    }
    assert AllSpace(s) ==> a == |s|;
    r
  }
}
