/** The Python string primitives the program relies on: single-character
    `str.replace`, `str.upper`, `str.strip` (with `str.isspace` as its
    notion of whitespace) and the lexicographic order on timestamp text. */
module Text {

  /** Python's `str.isspace` on one character: the ASCII controls TAB, LF,
      VT, FF, CR, the separators U+001C..U+001F, SPACE, NEL, NO-BREAK SPACE
      and the Unicode space separators and line/paragraph separators. It
      never holds of an ASCII letter or digit. */
  function IsSpace(c: char): (b: bool)
    ensures b ==> !('0' <= c <= '9') && !('A' <= c <= 'Z') && !IsLowerAscii(c)
  {
    || c == ' '
    || ('\t' <= c <= '\r')
    || ('\U{1C}' <= c <= '\U{1F}')
    || c == '\U{85}'
    || c == '\U{A0}'
    || c == '\U{1680}'
    || ('\U{2000}' <= c <= '\U{200A}')
    || c == '\U{2028}'
    || c == '\U{2029}'
    || c == '\U{202F}'
    || c == '\U{205F}'
    || c == '\U{3000}'
  }

  /** `s.replace(target, replacement)` for a one-character target and a
      one-character replacement: every occurrence changes, nothing else. */
  function ReplaceChar(s: string, target: char, replacement: char): (r: string)
    ensures |r| == |s|
    ensures forall i :: 0 <= i < |s| ==> r[i] == (if s[i] == target then replacement else s[i])
  {
    if |s| == 0 then []
    else [if s[0] == target then replacement else s[0]] + ReplaceChar(s[1..], target, replacement)
  }

  /** `s.replace(c, "")`: every occurrence of `c` deleted, every other
      character kept with its multiplicity. */
  function RemoveChar(s: string, c: char): (r: string)
    ensures c !in r
    ensures |r| <= |s|
    ensures c !in s ==> r == s
  {
    if |s| == 0 then []
    else (if s[0] == c then [] else [s[0]]) + RemoveChar(s[1..], c)
  }

  /** Every character other than the deleted one keeps its number of
      occurrences. */
  lemma {:induction false} RemoveCharKeepsOthers(s: string, c: char, x: char)
    requires x != c
    ensures multiset(RemoveChar(s, c))[x] == multiset(s)[x]
  {
    if |s| > 0 {
      assert s == [s[0]] + s[1..];
      RemoveCharKeepsOthers(s[1..], c, x);
    }
  }

  /** Deleting a character distributes over concatenation, so the surviving
      characters keep their relative order. */
  lemma {:induction false} RemoveCharAppend(a: string, b: string, c: char)
    ensures RemoveChar(a + b, c) == RemoveChar(a, c) + RemoveChar(b, c)
  {
    if |a| == 0 {
      assert a + b == b;
    } else {
      assert (a + b)[1..] == a[1..] + b;
      RemoveCharAppend(a[1..], b, c);
    }
  }

  /** An occurrence of the deleted character makes no difference. */
  lemma RemoveCharSkipsOccurrence(a: string, b: string, c: char)
    ensures RemoveChar(a + [c] + b, c) == RemoveChar(a + b, c)
  {
    assert RemoveChar([c], c) == [] by {
      assert [c][1..] == [];
    }
    RemoveCharAppend(a, [c], c);
    RemoveCharAppend(a + [c], b, c);
    RemoveCharAppend(a, b, c);
  }

  predicate IsLowerAscii(c: char) {
    'a' <= c <= 'z'
  }

  /** `str.upper` on one character, restricted to ASCII letters. */
  function UpperChar(c: char): (u: char)
    ensures !IsLowerAscii(u)
    ensures IsLowerAscii(c) ==> u as int == c as int - 32
    ensures !IsLowerAscii(c) ==> u == c
  {
    if IsLowerAscii(c) then (c as int - 32) as char else c
  }

  /** `s.upper()`: each character mapped on its own, no lower-case ASCII
      letter left. */
  function Upper(s: string): (r: string)
    ensures |r| == |s|
    ensures forall i :: 0 <= i < |s| ==> r[i] == UpperChar(s[i])
    ensures forall i :: 0 <= i < |r| ==> !IsLowerAscii(r[i])
  {
    seq(|s|, i requires 0 <= i < |s| => UpperChar(s[i]))
  }

  /** Upper-casing works character by character, so it distributes over
      concatenation. */
  lemma UpperAppend(a: string, b: string)
    ensures Upper(a + b) == Upper(a) + Upper(b)
  {
    var l, r := Upper(a + b), Upper(a) + Upper(b);
    forall i | 0 <= i < |l| ensures l[i] == r[i] {
      if i < |a| {
        assert (a + b)[i] == a[i];
      } else {
        assert (a + b)[i] == b[i - |a|];
      }
    }
  }

  /** Upper-casing leaves a space exactly where there was one. */
  lemma UpperKeepsSpaces(s: string)
    ensures ' ' in Upper(s) <==> ' ' in s
  {
    if ' ' in s {
      var i :| 0 <= i < |s| && s[i] == ' ';
      assert Upper(s)[i] == ' ';
    }
  }

  /** Where `s.strip()` starts: the length of the run of whitespace that
      opens `s`. */
  function StripStart(s: string): (lo: nat)
    ensures lo <= |s|
    ensures forall k :: 0 <= k < lo ==> IsSpace(s[k])
    ensures lo < |s| ==> !IsSpace(s[lo])
  {
    if |s| > 0 && IsSpace(s[0]) then
      var rest := s[1..];
      assert forall k :: 1 <= k < |s| ==> s[k] == rest[k - 1];
      1 + StripStart(rest)
    else 0
  }

  /** Where `s.strip()` ends, for a start `lo`: the position after the last
      character at or after `lo` that is not whitespace. */
  function StripEnd(s: string, lo: nat): (hi: nat)
    requires lo <= |s|
    ensures lo <= hi <= |s|
    ensures forall k :: hi <= k < |s| ==> IsSpace(s[k])
    ensures hi > lo ==> !IsSpace(s[hi - 1])
    decreases |s|
  {
    if |s| > lo && IsSpace(s[|s| - 1]) then StripEnd(s[..|s| - 1], lo) else |s|
  }

  /** `s.strip()`: a contiguous slice `s[lo..lo + |r|]` of `s` such that
      everything before and after it is whitespace and the slice neither
      starts nor ends with whitespace. */
  function Strip(s: string): (r: string)
    ensures var lo := StripStart(s);
      && lo + |r| <= |s|
      && r == s[lo..lo + |r|]
      && (forall k :: 0 <= k < lo ==> IsSpace(s[k]))
      && (forall k :: lo + |r| <= k < |s| ==> IsSpace(s[k]))
    ensures |r| > 0 ==> !IsSpace(r[0]) && !IsSpace(r[|r| - 1])
  {
    var lo := StripStart(s);
    s[lo..StripEnd(s, lo)]
  }

  /** A string that neither starts nor ends with whitespace is its own
      `strip()`. */
  lemma StripUntrimmed(s: string)
    requires |s| > 0 ==> !IsSpace(s[0]) && !IsSpace(s[|s| - 1])
    ensures Strip(s) == s
  {
    assert StripStart(s) == 0;
    assert StripEnd(s, 0) == |s|;
  }

  /** Stripping keeps every non-whitespace character of `s` with its
      multiplicity. */
  lemma StripKeepsNonSpace(s: string, c: char)
    requires !IsSpace(c)
    ensures multiset(Strip(s))[c] == multiset(s)[c]
  {
    var r := Strip(s);
    var lo := StripStart(s);
    var hi := lo + |r|;
    var pre, post := s[..lo], s[hi..];
    assert s == pre + r + post;
    assert multiset(s) == multiset(pre) + multiset(r) + multiset(post);
    assert c !in pre by {
      forall k | 0 <= k < |pre| ensures pre[k] != c {
        assert IsSpace(s[k]);
      }
    }
    assert c !in post by {
      forall k | 0 <= k < |post| ensures post[k] != c {
        assert IsSpace(s[hi + k]);
      }
    }
    assert multiset(pre)[c] == 0 && multiset(post)[c] == 0;
  }

  /** Lexicographic order on strings, which for the fixed-width
      `YYYY-MM-DD HH:MM:SS` timestamps is chronological order. */
  predicate LexLe(a: string, b: string) {
    if |a| == 0 then true
    else if |b| == 0 then false
    else a[0] < b[0] || (a[0] == b[0] && LexLe(a[1..], b[1..]))
  }

  lemma {:induction false} LexLeReflexive(a: string)
    ensures LexLe(a, a)
  {
    if |a| > 0 {
      LexLeReflexive(a[1..]);
    }
  }

  lemma {:induction false} LexLeTransitive(a: string, b: string, c: string)
    requires LexLe(a, b) && LexLe(b, c)
    ensures LexLe(a, c)
  {
    if |a| > 0 && |b| > 0 && |c| > 0 && a[0] == b[0] == c[0] {
      LexLeTransitive(a[1..], b[1..], c[1..]);
    }
  }
}
