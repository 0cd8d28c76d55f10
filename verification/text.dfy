/**
 * Character and string operations the route helpers borrow from JavaScript's
 * String: lower-casing, the `\s` class, replacing the first occurrence of a
 * character, removing every occurrence of a character, `split(',')` and the
 * default `Array.prototype.sort` order on strings.
 */
module Text {
  import Seqs

  /** `toLowerCase` on one character; only the ASCII letters A-Z are mapped. */
  function LowerChar(c: char): char
  {
    if 'A' <= c <= 'Z' then (c as int + 32) as char else c
  }

  function Lower(s: string): (r: string)
    ensures |r| == |s|
    ensures forall i :: 0 <= i < |s| ==> r[i] == LowerChar(s[i])
  {
    if |s| == 0 then [] else [LowerChar(s[0])] + Lower(s[1..])
  }

  /** Case-insensitive equality as `a.toLowerCase() === b.toLowerCase()`. */
  predicate EqualsIgnoreCase(a: string, b: string)
  {
    Lower(a) == Lower(b)
  }

  /** Membership in the JavaScript regular-expression class `\s`. */
  predicate IsSpace(c: char)
  {
    var n := c as int;
    (0x09 <= n <= 0x0D) || n == 0x20 || n == 0xA0 || n == 0x1680
    || (0x2000 <= n <= 0x200A) || n == 0x2028 || n == 0x2029 || n == 0x202F
    || n == 0x205F || n == 0x3000 || n == 0xFEFF
  }

  /** `s.replace(c, d)` with a string pattern: only the FIRST occurrence of `c` changes. */
  function ReplaceFirst(s: string, c: char, d: char): (r: string)
    ensures |r| == |s|
  {
    if |s| == 0 then []
    else if s[0] == c then [d] + s[1..]
    else [s[0]] + ReplaceFirst(s[1..], c, d)
  }

  /** `s.replace(/c/g, '')`: every occurrence of `c` removed. */
  function Strip(s: string, c: char): (r: string)
    ensures |r| <= |s|
    ensures c !in r
  {
    if |s| == 0 then [] else (if s[0] == c then [] else [s[0]]) + Strip(s[1..], c)
  }

  /** `s.split(sep)` with a one-character separator (the result is never empty). */
  function Split(s: string, sep: char): (r: seq<string>)
    ensures |r| >= 1
  {
    if |s| == 0 then [""]
    else
      var rest := Split(s[1..], sep);
      if s[0] == sep then [""] + rest
      else [[s[0]] + rest[0]] + rest[1..]
  }

  /** `parts.join(sep)`. */
  function Join(parts: seq<string>, sep: char): string
  {
    if |parts| == 0 then ""
    else if |parts| == 1 then parts[0]
    else parts[0] + [sep] + Join(parts[1..], sep)
  }

  /**
   * The default sort order of `Array.prototype.sort` on strings: lexicographic on
   * character codes, a proper prefix sorting first.
   */
  predicate Less(a: string, b: string)
  {
    if |a| == 0 then |b| > 0
    else if |b| == 0 then false
    else if a[0] == b[0] then Less(a[1..], b[1..])
    else a[0] < b[0]
  }

  // ----- lemmas -----

  /** Lower-casing is idempotent. */
  lemma LowerIdempotent(s: string)
    ensures Lower(Lower(s)) == Lower(s)
  {
  }

  /** Lower-casing neither creates nor removes `\s` characters. */
  lemma LowerKeepsSpace(c: char)
    ensures IsSpace(LowerChar(c)) == IsSpace(c)
  {
  }

  /** ReplaceFirst changes only the first occurrence: a second `c` survives. */
  lemma {:induction false} ReplaceFirstOnlyFirst(s: string, c: char, d: char, i: nat)
    requires c != d
    requires i < |s| && s[i] == c
    ensures ReplaceFirst(s, c, d)[i] == d <==> c !in s[..i]
    ensures c !in s[..i] ==> c !in ReplaceFirst(s, c, d)[..i + 1]
    decreases |s|
  {
    if s[0] == c {
      if i > 0 {
        assert s[..i][0] == c;
      }
    } else {
      assert i > 0;
      ReplaceFirstOnlyFirst(s[1..], c, d, i - 1);
      assert s[..i] == [s[0]] + s[1..][..i - 1];
      assert ReplaceFirst(s, c, d)[..i + 1] == [s[0]] + ReplaceFirst(s[1..], c, d)[..i];
    }
  }

  /** ReplaceFirst puts `d` at the first occurrence of `c` and keeps the rest. */
  lemma {:induction false} ReplaceFirstAt(s: string, c: char, d: char, i: nat)
    requires i < |s| && s[i] == c && c !in s[..i]
    ensures ReplaceFirst(s, c, d) == s[..i] + [d] + s[i + 1..]
    decreases i
  {
    if i > 0 {
      assert s[0] == s[..i][0];
      assert s[1..][..i - 1] == s[1..i];
      ReplaceFirstAt(s[1..], c, d, i - 1);
      assert s[..i] == [s[0]] + s[1..][..i - 1];
    }
  }

  /** Without an occurrence of `c`, ReplaceFirst changes nothing. */
  lemma {:induction false} ReplaceFirstAbsent(s: string, c: char, d: char)
    requires c !in s
    ensures ReplaceFirst(s, c, d) == s
    decreases |s|
  {
    if |s| > 0 {
      ReplaceFirstAbsent(s[1..], c, d);
    }
  }

  /** Removing `c` twice is the same as removing it once. */
  lemma StripIdempotent(s: string, c: char)
    ensures Strip(Strip(s, c), c) == Strip(s, c)
  {
    if c !in s {
      StripNoop(s, c);
    } else {
      StripNoop(Strip(s, c), c);
    }
  }

  /**
   * Removing `c` keeps every other character, in order and as often as it occurs:
   * the result is the filter of `s` by "is not `c`".
   */
  lemma StripFilters(s: string, c: char)
    ensures Strip(s, c) == Seqs.Filter(s, x => x != c)
    ensures Seqs.IsSubseq(Strip(s, c), s)
    ensures forall x :: Seqs.Count(Strip(s, c), x) == if x == c then 0 else Seqs.Count(s, x)
  {
    StripIsFilter(s, c);
    Seqs.FilterIsSubseq(s, x => x != c);
    forall x
      ensures Seqs.Count(Strip(s, c), x) == if x == c then 0 else Seqs.Count(s, x)
    {
      Seqs.FilterCount(s, x' => x' != c, x);
    }
  }

  lemma {:induction false} StripIsFilter(s: string, c: char)
    ensures Strip(s, c) == Seqs.Filter(s, x => x != c)
    decreases |s|
  {
    if |s| > 0 {
      StripIsFilter(s[1..], c);
    }
  }

  /** A string without `c` is left unchanged. */
  lemma {:induction false} StripNoop(s: string, c: char)
    requires c !in s
    ensures Strip(s, c) == s
    decreases |s|
  {
    if |s| > 0 {
      assert c !in s[1..];
      StripNoop(s[1..], c);
    }
  }

  /** No piece produced by Split contains the separator. */
  lemma {:induction false} SplitPiecesHaveNoSep(s: string, sep: char)
    ensures forall k :: 0 <= k < |Split(s, sep)| ==> sep !in Split(s, sep)[k]
    decreases |s|
  {
    if |s| > 0 {
      SplitPiecesHaveNoSep(s[1..], sep);
    }
  }

  /** Joining the pieces of a split restores the original string. */
  lemma {:induction false} SplitJoin(s: string, sep: char)
    ensures Join(Split(s, sep), sep) == s
    decreases |s|
  {
    if |s| > 0 {
      var rest := Split(s[1..], sep);
      SplitJoin(s[1..], sep);
      if s[0] == sep {
        assert Split(s, sep) == [""] + rest;
        assert ([""] + rest)[1..] == rest;
      } else {
        var r := Split(s, sep);
        assert r == [[s[0]] + rest[0]] + rest[1..];
        if |rest| == 1 {
          assert Join(rest, sep) == rest[0];
        } else {
          assert r[1..] == rest[1..];
          assert Join(rest, sep) == rest[0] + [sep] + Join(rest[1..], sep);
        }
      }
    }
  }

  /** Less is irreflexive. */
  lemma {:induction false} LessIrreflexive(a: string)
    ensures !Less(a, a)
    decreases |a|
  {
    if |a| > 0 {
      LessIrreflexive(a[1..]);
    }
  }

  /** Less is asymmetric. */
  lemma {:induction false} LessAsymmetric(a: string, b: string)
    requires Less(a, b)
    ensures !Less(b, a)
    decreases |a|
  {
    if |a| > 0 && |b| > 0 && a[0] == b[0] {
      LessAsymmetric(a[1..], b[1..]);
    }
  }

  /** Less is transitive. */
  lemma {:induction false} LessTransitive(a: string, b: string, c: string)
    requires Less(a, b) && Less(b, c)
    ensures Less(a, c)
    decreases |a|
  {
    if |a| > 0 && a[0] == b[0] && b[0] == c[0] {
      LessTransitive(a[1..], b[1..], c[1..]);
    }
  }

  /** Any two different strings are ordered one way or the other. */
  lemma {:induction false} LessTotal(a: string, b: string)
    requires a != b
    ensures Less(a, b) || Less(b, a)
    decreases |a|
  {
    if |a| > 0 && |b| > 0 && a[0] == b[0] {
      assert a == [a[0]] + a[1..] && b == [b[0]] + b[1..];
      LessTotal(a[1..], b[1..]);
    }
  }
}
