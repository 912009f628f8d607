/** An optional value: a field or a dictionary entry that may be absent. */
module Options {
  datatype Option<+T> = None | Some(value: T)
}

/**
 * The few Python `str` operations the de_vvs translator relies on, with their
 * Python meaning made explicit: `find`, `startswith`, slicing that clamps
 * instead of failing, `split` on one separator character, `zfill`, `in`
 * (substring containment), and a restricted `lower`.
 */
module Text {

  /** Number of occurrences of `c` in `s`, counted from the end so that prefixes unfold. */
  function Count(s: string, c: char): nat
  {
    if |s| == 0 then 0 else Count(s[..|s| - 1], c) + (if s[|s| - 1] == c then 1 else 0)
  }

  lemma CountStep(s: string, c: char, i: nat)
    requires i < |s|
    ensures Count(s[..i + 1], c) == Count(s[..i], c) + (if s[i] == c then 1 else 0)
  {
    assert s[..i + 1][..i] == s[..i];
  }

  lemma {:induction false} CountPrefixMono(s: string, c: char, i: nat, j: nat)
    requires i <= j <= |s|
    ensures Count(s[..i], c) <= Count(s[..j], c)
    decreases j - i
  {
    if i < j {
      CountStep(s, c, j - 1);
      CountPrefixMono(s, c, i, j - 1);
    }
  }

  lemma {:induction false} CountAppend(a: string, b: string, c: char)
    ensures Count(a + b, c) == Count(a, c) + Count(b, c)
    decreases |b|
  {
    if |b| > 0 {
      assert (a + b)[..|a + b| - 1] == a + b[..|b| - 1];
      CountAppend(a, b[..|b| - 1], c);
    } else {
      assert a + b == a;
    }
  }

  lemma {:induction false} CountAbsent(s: string, c: char)
    requires c !in s
    ensures Count(s, c) == 0
    decreases |s|
  {
    if |s| > 0 {
      CountAbsent(s[..|s| - 1], c);
    }
  }

  /** Count(s[..a]) == Count(s[..b]) when no `c` lies in s[a..b]. */
  lemma {:induction false} CountSkip(s: string, c: char, a: nat, b: nat)
    requires a <= b <= |s|
    requires forall k :: a <= k < b ==> s[k] != c
    ensures Count(s[..b], c) == Count(s[..a], c)
    decreases b - a
  {
    if a < b {
      CountStep(s, c, b - 1);
      CountSkip(s, c, a, b - 1);
    }
  }

  /**
   * Python `s.find(c, start)` for a one-character pattern: the least index
   * at or after `start` holding `c`, or -1.
   */
  function FindFrom(s: string, c: char, start: nat): (r: int)
    ensures r == -1 || (start <= r < |s| && s[r] == c)
    ensures r == -1 ==> forall k :: start <= k < |s| ==> s[k] != c
    ensures r >= 0 ==> forall k :: start <= k < r ==> s[k] != c
    decreases |s| - start
  {
    if start >= |s| then -1 else if s[start] == c then start else FindFrom(s, c, start + 1)
  }

  /**
   * The value `find_nth(s, c, n)` computes: the first `find`, then n - 1 more
   * searches each starting just after the previous hit. An `n` below 1 acts as 1.
   */
  function NthIndex(s: string, c: char, n: int): int
    decreases if n < 1 then 0 else n
  {
    if n <= 1 then FindFrom(s, c, 0)
    else
      var p := NthIndex(s, c, n - 1);
      if p < 0 then -1 else FindFrom(s, c, p + 1)
  }

  /** How far `find` from `start` moves the running count of `c`. */
  lemma FindFromCount(s: string, c: char, start: nat)
    requires start <= |s|
    ensures var r := FindFrom(s, c, start);
            (r == -1 ==> Count(s, c) == Count(s[..start], c)) &&
            (r != -1 ==> Count(s[..r], c) == Count(s[..start], c) &&
                         Count(s[..r + 1], c) == Count(s[..start], c) + 1 &&
                         Count(s, c) >= Count(s[..start], c) + 1)
  {
    assert s[..|s|] == s;
    var r := FindFrom(s, c, start);
    if r == -1 {
      CountSkip(s, c, start, |s|);
    } else {
      CountSkip(s, c, start, r);
      CountStep(s, c, r);
      CountPrefixMono(s, c, r + 1, |s|);
    }
  }

  /**
   * What NthIndex means: -1 exactly when `s` holds fewer than max(n, 1) copies
   * of `c`; otherwise the index of the max(n, 1)-th copy.
   */
  lemma {:induction false} NthIndexMeaning(s: string, c: char, n: int)
    ensures var k := if n < 1 then 1 else n;
            var r := NthIndex(s, c, n);
            (r == -1 <==> Count(s, c) < k) &&
            (r != -1 ==> 0 <= r < |s| && s[r] == c && Count(s[..r], c) == k - 1)
    decreases if n < 1 then 0 else n
  {
    if n <= 1 {
      FindFromCount(s, c, 0);
    } else {
      NthIndexMeaning(s, c, n - 1);
      var p := NthIndex(s, c, n - 1);
      if p >= 0 {
        CountStep(s, c, p);
        FindFromCount(s, c, p + 1);
      }
    }
  }

  /** The index of the n-th `c` is the one position holding `c` after n - 1 earlier copies. */
  lemma NthIndexUnique(s: string, c: char, n: int, q: nat)
    requires n >= 1 && q < |s| && s[q] == c && Count(s[..q], c) == n - 1
    ensures NthIndex(s, c, n) == q
  {
    NthIndexMeaning(s, c, n);
    CountStep(s, c, q);
    assert s[..|s|] == s;
    CountPrefixMono(s, c, q + 1, |s|);
    var r := NthIndex(s, c, n);
    if r < q {
      CountStep(s, c, r);
      CountPrefixMono(s, c, r + 1, q);
    } else if q < r {
      CountPrefixMono(s, c, q + 1, r);
    }
  }

  /** Python `s.startswith(p)`. */
  predicate StartsWith(s: string, p: string)
  {
    |p| <= |s| && s[..|p|] == p
  }

  /** Python `s[n:]`: empty once `n` passes the end. */
  function Drop(s: string, n: nat): string
  {
    if n <= |s| then s[n..] else ""
  }

  /** Python `s[:n]`: the whole string once `n` passes the end. */
  function Take(s: string, n: nat): string
  {
    if n <= |s| then s[..n] else s
  }

  /** `sub` occurs in `s` starting at index `i`. */
  predicate OccursAt(s: string, sub: string, i: nat)
  {
    i + |sub| <= |s| && s[i..i + |sub|] == sub
  }

  /** Python `sub in s`. */
  predicate Contains(s: string, sub: string)
  {
    exists i: nat | i <= |s| - |sub| :: OccursAt(s, sub, i)
  }

  /** Python `any(map(s.__contains__, words))`. */
  function ContainsAny(s: string, words: seq<string>): (r: bool)
    ensures r <==> exists i :: 0 <= i < |words| && Contains(s, words[i])
  {
    if words == [] then false
    else if Contains(s, words[0]) then true
    else
      var r := ContainsAny(s, words[1..]);
      assert forall i :: 1 <= i < |words| ==> words[i] == words[1..][i - 1];
      r
  }

  /**
   * Python `s.split(sep)` for a one-character separator: the pieces between
   * separators, never an empty list.
   */
  function Split(s: string, sep: char): (parts: seq<string>)
    ensures |parts| >= 1
    ensures forall i :: 0 <= i < |parts| ==> sep !in parts[i]
    decreases |s|
  {
    if |s| == 0 then [""]
    else
      var rest := Split(s[1..], sep);
      if s[0] == sep then [""] + rest
      else [[s[0]] + rest[0]] + rest[1..]
  }

  /** Python `sep.join(parts)`. */
  function Join(parts: seq<string>, sep: char): string
    requires |parts| >= 1
  {
    if |parts| == 1 then parts[0] else parts[0] + [sep] + Join(parts[1..], sep)
  }

  /** Splitting loses nothing: joining the pieces again gives back the string. */
  lemma {:induction false} SplitJoin(s: string, sep: char)
    ensures Join(Split(s, sep), sep) == s
    decreases |s|
  {
    if |s| > 0 {
      var rest := Split(s[1..], sep);
      SplitJoin(s[1..], sep);
      if s[0] == sep {
        assert ([""] + rest)[1..] == rest;
      } else {
        var parts := [[s[0]] + rest[0]] + rest[1..];
        if |rest| == 1 {
          assert Join(parts, sep) == [s[0]] + rest[0];
        } else {
          assert parts[1..] == rest[1..];
          assert Join(rest, sep) == rest[0] + [sep] + Join(rest[1..], sep);
          assert Join(parts, sep) == [s[0]] + (rest[0] + [sep] + Join(rest[1..], sep));
        }
      }
      assert s == [s[0]] + s[1..];
    }
  }

  /** A string without the separator splits into itself alone. */
  lemma {:induction false} SplitNoSep(a: string, sep: char)
    requires sep !in a
    ensures Split(a, sep) == [a]
    decreases |a|
  {
    if |a| > 0 {
      SplitNoSep(a[1..], sep);
      assert [a[0]] + a[1..] == a;
    }
  }

  /** The first separator ends the first piece; the rest splits on its own. */
  lemma {:induction false} SplitAtFirst(a: string, sep: char, b: string)
    requires sep !in a
    ensures Split(a + [sep] + b, sep) == [a] + Split(b, sep)
    decreases |a|
  {
    if |a| == 0 {
      assert a + [sep] + b == [sep] + b;
      assert ([sep] + b)[1..] == b;
    } else {
      var s := a + [sep] + b;
      assert s[0] == a[0];
      assert s[1..] == a[1..] + [sep] + b;
      SplitAtFirst(a[1..], sep, b);
      assert [a[0]] + a[1..] == a;
    }
  }

  /** `split` yields two or more pieces exactly when the separator occurs. */
  lemma SplitArity(s: string, sep: char)
    ensures |Split(s, sep)| >= 2 <==> sep in s
  {
    var parts := Split(s, sep);
    SplitJoin(s, sep);
    if |parts| == 1 {
      assert s == parts[0];
    } else {
      assert s == parts[0] + [sep] + Join(parts[1..], sep);
      assert s[|parts[0]|] == sep;
    }
  }

  function Zeros(n: nat): (z: string)
    ensures |z| == n && forall i :: 0 <= i < n ==> z[i] == '0'
  {
    if n == 0 then "" else "0" + Zeros(n - 1)
  }

  /**
   * Python `s.zfill(width)`: pads on the left with '0' up to `width`,
   * keeping a leading '+' or '-' in front of the padding, and never truncates.
   */
  function ZFill(s: string, width: nat): (r: string)
    ensures |r| == if |s| >= width then |s| else width
    ensures |s| >= width ==> r == s
    ensures |s| < width && (|s| == 0 || s[0] !in "+-") ==>
      r[|r| - |s|..] == s && forall i :: 0 <= i < |r| - |s| ==> r[i] == '0'
    ensures |s| < width && |s| > 0 && s[0] in "+-" ==>
      r[0] == s[0] && r[|r| - |s| + 1..] == s[1..] &&
      forall i :: 1 <= i <= |r| - |s| ==> r[i] == '0'
  {
    if |s| >= width then s
    else if |s| > 0 && s[0] in "+-" then [s[0]] + Zeros(width - |s|) + s[1..]
    else Zeros(width - |s|) + s
  }

  /** Lower-casing of ASCII capitals and of the German umlauts; every other character is kept. */
  function LowerChar(ch: char): char
  {
    if 'A' <= ch <= 'Z' then (ch as int - 'A' as int + 'a' as int) as char
    else if ch == 'Ä' then 'ä'
    else if ch == 'Ö' then 'ö'
    else if ch == 'Ü' then 'ü'
    else ch
  }

  /** Python `s.lower()`, restricted to the characters LowerChar folds. */
  function Lower(s: string): string
  {
    seq(|s|, i requires 0 <= i < |s| => LowerChar(s[i]))
  }
}
