/** The Python string operations the scraper applies to extracted text:
    `str.strip()`, `str.lower()`, `str.replace(c, '')` and the substring
    test `p in s`. Strings are sequences of Unicode scalar values. */
module Text {

  /** Python's `str.isspace` on one character: exactly the characters that
      `str.strip()` without arguments removes. */
  predicate IsSpace(c: char) {
    || ('\t' <= c <= '\r')
    || ('\U{1C}' <= c <= ' ')
    || c == '\U{85}' || c == '\U{A0}' || c == '\U{1680}'
    || ('\U{2000}' <= c <= '\U{200A}')
    || c == '\U{2028}' || c == '\U{2029}' || c == '\U{202F}'
    || c == '\U{205F}' || c == '\U{3000}'
  }

  predicate AllSpace(s: string) {
    forall i :: 0 <= i < |s| ==> IsSpace(s[i])
  }

  /** Length of the run of whitespace that opens `s`. */
  function LeadingSpace(s: string): (n: nat)
    ensures n <= |s|
    ensures AllSpace(s[..n])
    ensures n < |s| ==> !IsSpace(s[n])
  {
    if |s| > 0 && IsSpace(s[0]) then
      var n := 1 + LeadingSpace(s[1..]);
      assert forall i :: 1 <= i < n ==> s[..n][i] == s[1..][..n - 1][i - 1];
      n
    else 0
  }

  /** Length of the run of whitespace that closes `s`. */
  function TrailingSpace(s: string): (n: nat)
    ensures n <= |s|
    ensures AllSpace(s[|s| - n..])
    ensures n < |s| ==> !IsSpace(s[|s| - n - 1])
  {
    if |s| > 0 && IsSpace(s[|s| - 1]) then
      var t := s[..|s| - 1];
      var n := 1 + TrailingSpace(t);
      assert s[|s| - n..] == t[|t| - (n - 1)..] + [s[|s| - 1]];
      n
    else 0
  }

  /** `s.strip()`: `s` without its leading and trailing whitespace. The
      result is the slice of `s` that starts after the leading whitespace,
      only whitespace follows it, and it neither starts nor ends with
      whitespace. */
  function Strip(s: string): (r: string)
    ensures LeadingSpace(s) + |r| <= |s|
    ensures r == s[LeadingSpace(s)..LeadingSpace(s) + |r|]
    ensures AllSpace(s[LeadingSpace(s) + |r|..])
    ensures |r| > 0 ==> !IsSpace(r[0]) && !IsSpace(r[|r| - 1])
  {
    var i := LeadingSpace(s);
    var t := s[i..];
    var k := |t| - TrailingSpace(t);
    var r := t[..k];
    assert s[i + |r|..] == t[k..];
    assert |r| > 0 ==> r[0] == s[i] && r[|r| - 1] == t[k - 1];
    r
  }

  /** A text is its leading whitespace, its strip and its trailing
      whitespace, in that order. */
  lemma StripSplit(s: string) returns (pre: string, post: string)
    ensures s == pre + Strip(s) + post
    ensures AllSpace(pre) && AllSpace(post)
  {
    var i := LeadingSpace(s);
    var m := Strip(s);
    pre, post := s[..i], s[i + |m|..];
    assert s == pre + m + post;
  }

  /** A text that neither starts nor ends with whitespace is its own strip. */
  lemma StripUnpadded(s: string)
    requires |s| > 0 && !IsSpace(s[0]) && !IsSpace(s[|s| - 1])
    ensures Strip(s) == s
  {
    assert LeadingSpace(s) == 0;
  }

  /** `c.lower()` for one character. Besides the ASCII capitals this covers
      KELVIN SIGN, which lowers to `k`, and LATIN CAPITAL LETTER I WITH DOT
      ABOVE, which lowers to `i` followed by COMBINING DOT ABOVE; these are
      the only capitals whose lower case contains a letter of "in stock".
      Other characters are kept as they are. */
  function LowerChar(c: char): string {
    if 'A' <= c <= 'Z' then [(c as int + 32) as char]
    else if c == '\U{212A}' then "k"
    else if c == '\U{130}' then "i\U{307}"
    else [c]
  }

  /** `s.lower()`, character by character. */
  function Lower(s: string): (r: string)
    ensures |r| >= |s|
  {
    if |s| == 0 then [] else LowerChar(s[0]) + Lower(s[1..])
  }

  /** `p in s` on strings: `p` occurs in `s` as a contiguous slice. */
  predicate Contains(s: string, p: string) {
    exists i :: 0 <= i <= |s| && p <= s[i..]
  }

  /** `s.replace(c, '')`: every `c` removed, everything else kept. How often
      each character is kept is what `RemoveAllCount` says; that the order
      is kept is what `RemoveAllAppend` and `RemoveAllAbsent` say. */
  function RemoveAll(s: string, c: char): (r: string)
    ensures |r| <= |s|
    ensures forall x :: x in r <==> x in s && x != c
  {
    if |s| == 0 then []
    else (if s[0] == c then [] else [s[0]]) + RemoveAll(s[1..], c)
  }

  /** Lowering distributes over concatenation. */
  lemma {:induction false} LowerAppend(a: string, b: string)
    ensures Lower(a + b) == Lower(a) + Lower(b)
    decreases |a|
  {
    if |a| > 0 {
      assert (a + b)[1..] == a[1..] + b;
      LowerAppend(a[1..], b);
    } else {
      assert a + b == b;
    }
  }

  /** Whitespace is left alone by lowering. */
  lemma {:induction false} LowerKeepsSpace(s: string)
    requires AllSpace(s)
    ensures Lower(s) == s
    decreases |s|
  {
    if |s| > 0 {
      assert AllSpace(s[1..]) by {
        assert forall i :: 0 <= i < |s| - 1 ==> s[1..][i] == s[i + 1];
      }
      LowerKeepsSpace(s[1..]);
      assert s == [s[0]] + s[1..];
    }
  }

  /** Lowering a padded text lowers the text and keeps the padding. */
  lemma LowerPadded(pre: string, m: string, post: string)
    requires AllSpace(pre) && AllSpace(post)
    ensures Lower(pre + m + post) == pre + Lower(m) + post
  {
    LowerAppend(pre + m, post);
    LowerAppend(pre, m);
    LowerKeepsSpace(pre);
    LowerKeepsSpace(post);
  }

  /** A lowered character lowers to itself. */
  lemma LowerCharStable(c: char)
    ensures Lower(LowerChar(c)) == LowerChar(c)
  {
    var h := LowerChar(c);
    if 'A' <= c <= 'Z' {
      var d := (c as int + 32) as char;
      assert h == [d] && !('A' <= d <= 'Z') && d != '\U{212A}' && d != '\U{130}';
      assert Lower(h) == LowerChar(d) + Lower([]);
    } else if c == '\U{130}' {
      assert Lower(h) == LowerChar('i') + Lower("\U{307}");
      assert Lower("\U{307}") == LowerChar('\U{307}') + Lower([]);
    } else {
      assert |h| == 1 && !('A' <= h[0] <= 'Z') && h[0] != '\U{212A}' && h[0] != '\U{130}';
      assert Lower(h) == LowerChar(h[0]) + Lower([]);
    }
  }

  /** Lowering twice is lowering once. */
  lemma {:induction false} LowerIdempotent(s: string)
    ensures Lower(Lower(s)) == Lower(s)
    decreases |s|
  {
    if |s| > 0 {
      LowerAppend(LowerChar(s[0]), Lower(s[1..]));
      LowerCharStable(s[0]);
      LowerIdempotent(s[1..]);
    }
  }

  /** Whitespace around a text cannot create or destroy an occurrence of a
      pattern that starts and ends with a non-whitespace character. */
  lemma ContainsIgnoresPadding(a: string, m: string, b: string, p: string)
    requires AllSpace(a) && AllSpace(b)
    requires |p| > 0 && !IsSpace(p[0]) && !IsSpace(p[|p| - 1])
    ensures Contains(a + m + b, p) <==> Contains(m, p)
  {
    if Contains(m, p) {
      PaddedOccurrence(a, m, b, p);
    }
    if Contains(a + m + b, p) {
      UnpaddedOccurrence(a, m, b, p);
    }
  }

  /** An occurrence inside a text is one in the text with anything around it. */
  lemma PaddedOccurrence(a: string, m: string, b: string, p: string)
    requires Contains(m, p)
    ensures Contains(a + m + b, p)
  {
    var s := a + m + b;
    var i :| 0 <= i <= |m| && p <= m[i..];
    assert p == s[|a| + i..][..|p|] by {
      forall k | 0 <= k < |p| ensures p[k] == s[|a| + i + k] {
        assert p[k] == m[i + k];
      }
    }
    assert p <= s[|a| + i..];
  }

  /** An occurrence, in a padded text, of a pattern that starts and ends
      with a non-whitespace character lies inside the text. */
  lemma UnpaddedOccurrence(a: string, m: string, b: string, p: string)
    requires AllSpace(a) && AllSpace(b)
    requires |p| > 0 && !IsSpace(p[0]) && !IsSpace(p[|p| - 1])
    requires Contains(a + m + b, p)
    ensures Contains(m, p)
  {
    var s := a + m + b;
    var i :| 0 <= i <= |s| && p <= s[i..];
    assert s[i] == p[0];
    assert i >= |a|;
    assert s[i + |p| - 1] == p[|p| - 1];
    assert i + |p| <= |a| + |m|;
    var j := i - |a|;
    assert p <= m[j..] by {
      forall k | 0 <= k < |p| ensures p[k] == m[j + k] {
        assert p[k] == s[i + k];
      }
    }
  }

  /** Lowering keeps an occurrence of a pattern, lowered alike. */
  lemma ContainsLower(s: string, p: string)
    requires Contains(s, p)
    ensures Contains(Lower(s), Lower(p))
  {
    var i :| 0 <= i <= |s| && p <= s[i..];
    var a := s[..i];
    var b := s[i + |p|..];
    assert s == a + p + b;
    LowerAppend(a + p, b);
    LowerAppend(a, p);
    ContainsMiddle(Lower(a), Lower(p), Lower(b));
  }

  /** The middle part of a concatenation occurs in it. */
  lemma ContainsMiddle(a: string, p: string, b: string)
    ensures Contains(a + p + b, p)
  {
    assert (a + p + b)[|a|..] == p + b;
    assert p <= p + b;
  }

  /** Removal from a text with a first character: that character, unless it
      is the one removed, followed by the removal from the rest. */
  lemma RemoveAllCons(x: char, s: string, c: char)
    ensures RemoveAll([x] + s, c) == (if x == c then [] else [x]) + RemoveAll(s, c)
  {
    assert ([x] + s)[0] == x && ([x] + s)[1..] == s;
  }

  /** Removal drops every occurrence of the character and keeps every other
      character exactly as often as it occurs, so the text shrinks by the
      number of occurrences. */
  lemma {:induction false} RemoveAllCount(s: string, c: char)
    ensures multiset(RemoveAll(s, c)) == multiset(s)[c := 0]
    ensures |RemoveAll(s, c)| == |s| - multiset(s)[c]
    decreases |s|
  {
    if |s| > 0 {
      var x, t := s[0], s[1..];
      assert s == [x] + t;
      RemoveAllCons(x, t, c);
      RemoveAllCount(t, c);
    }
  }

  /** Removal of a character distributes over concatenation. */
  lemma {:induction false} RemoveAllAppend(a: string, b: string, c: char)
    ensures RemoveAll(a + b, c) == RemoveAll(a, c) + RemoveAll(b, c)
    decreases |a|
  {
    if |a| > 0 {
      var x, t := a[0], a[1..];
      var h := if x == c then [] else [x];
      assert a == [x] + t;
      assert a + b == [x] + (t + b);
      RemoveAllCons(x, t + b, c);
      RemoveAllCons(x, t, c);
      RemoveAllAppend(t, b, c);
      assert h + (RemoveAll(t, c) + RemoveAll(b, c)) == (h + RemoveAll(t, c)) + RemoveAll(b, c);
    } else {
      assert a + b == b;
    }
  }

  /** A removed character in front makes no difference. */
  lemma RemoveAllDropsHead(c: char, s: string)
    ensures RemoveAll([c] + s, c) == RemoveAll(s, c)
  {
    assert ([c] + s)[1..] == s;
  }

  /** A text without the character is left unchanged. */
  lemma {:induction false} RemoveAllAbsent(s: string, c: char)
    requires c !in s
    ensures RemoveAll(s, c) == s
    decreases |s|
  {
    if |s| > 0 {
      RemoveAllAbsent(s[1..], c);
      assert s == [s[0]] + s[1..];
    }
  }
}
