/**
 * The few Python `str` operations the core relies on, over `seq<char>`:
 * `startswith`, `replace` with a one-character pattern, `lower` (ASCII
 * letters only), `lstrip` of one character and `partition`. `Count` is not
 * one of them: it measures what the `@` rewrite adds.
 */
module Strings {
  import opened Wrappers

  predicate StartsWith(s: string, prefix: string)
  {
    |prefix| <= |s| && s[..|prefix|] == prefix
  }

  /** Number of occurrences of `c` in `s`. */
  function Count(s: string, c: char): (n: nat)
    ensures n <= |s|
    ensures n == 0 <==> c !in s
  {
    if s == [] then 0 else (if s[0] == c then 1 else 0) + Count(s[1..], c)
  }

  /** `s.replace(c, rep)` for a one-character pattern `c`. */
  function Replace(s: string, c: char, rep: string): string
  {
    if s == [] then [] else (if s[0] == c then rep else [s[0]]) + Replace(s[1..], c, rep)
  }

  lemma {:induction false} ReplaceDistributes(s: string, t: string, c: char, rep: string)
    ensures Replace(s + t, c, rep) == Replace(s, c, rep) + Replace(t, c, rep)
  {
    if s != [] {
      assert (s + t)[1..] == s[1..] + t;
      ReplaceDistributes(s[1..], t, c, rep);
    } else {
      assert s + t == t;
    }
  }

  /** Replacing `c` by a text that does not contain `c` leaves no `c` behind. */
  lemma {:induction false} ReplaceRemoves(s: string, c: char, rep: string)
    requires c !in rep
    ensures c !in Replace(s, c, rep)
  {
    if s != [] {
      ReplaceRemoves(s[1..], c, rep);
    }
  }

  /** Replacing a character that does not occur changes nothing. */
  lemma {:induction false} ReplaceAbsent(s: string, c: char, rep: string)
    ensures c !in s ==> Replace(s, c, rep) == s
  {
    if s != [] && c !in s {
      ReplaceAbsent(s[1..], c, rep);
      assert [s[0]] + s[1..] == s;
    }
  }

  function LowerChar(c: char): (d: char)
    ensures !('A' <= d <= 'Z')
    ensures 'A' <= c <= 'Z' ==> d as int == c as int + 32
    ensures !('A' <= c <= 'Z') ==> d == c
  {
    if 'A' <= c <= 'Z' then (c as int + 32) as char else c
  }

  /** `s.lower()`, restricted to ASCII letters. */
  function Lower(s: string): (r: string)
    ensures |r| == |s|
    ensures forall i | 0 <= i < |s| :: r[i] == LowerChar(s[i])
  {
    seq(|s|, i requires 0 <= i < |s| => LowerChar(s[i]))
  }

  lemma LowerIdempotent(s: string)
    ensures Lower(Lower(s)) == Lower(s)
  {
  }

  /** `s.lstrip(c)`: drops every leading `c`. */
  function LStrip(s: string, c: char): (r: string)
    ensures |r| <= |s| && r == s[|s| - |r|..]
    ensures r == [] || r[0] != c
    ensures forall i | 0 <= i < |s| - |r| :: s[i] == c
  {
    if s != [] && s[0] == c then LStrip(s[1..], c) else s
  }

  /** `n` copies of `c`. */
  function Repeat(c: char, n: nat): (r: string)
    ensures |r| == n && forall i | 0 <= i < n :: r[i] == c
  {
    if n == 0 then [] else [c] + Repeat(c, n - 1)
  }

  /** `lstrip` removes a leading run of `c` and stops at the first other character. */
  lemma {:induction false} LStripRepeat(n: nat, c: char, s: string)
    requires s == [] || s[0] != c
    ensures LStrip(Repeat(c, n) + s, c) == s
  {
    var t := Repeat(c, n) + s;
    if n > 0 {
      var tail := Repeat(c, n - 1) + s;
      assert t == [c] + tail;
      assert t[1..] == tail;
      LStripRepeat(n - 1, c, s);
      assert LStrip(t, c) == LStrip(tail, c);
    } else {
      assert t == s;
    }
  }

  /** Index of the first `c` in `s`, if any. */
  function IndexOf(s: string, c: char): (r: Option<nat>)
    ensures r.None? <==> c !in s
    ensures r.Some? ==> r.value < |s| && s[r.value] == c && c !in s[..r.value]
  {
    if s == [] then None
    else if s[0] == c then Some(0)
    else match IndexOf(s[1..], c)
      case None => None
      case Some(k) => assert s[1..][..k] == s[1..k + 1]; Some(k + 1)
  }

  /**
   * `s.partition(c)`: the text before the first `c`, whether `c` was found,
   * and the text after it; when `c` is absent, `(s, false, "")`.
   */
  function Partition(s: string, c: char): (r: (string, bool, string))
    ensures r.1 <==> c in s
    ensures r.1 ==> s == r.0 + [c] + r.2 && c !in r.0
    ensures !r.1 ==> r.0 == s && r.2 == []
  {
    match IndexOf(s, c)
    case None => (s, false, [])
    case Some(k) =>
      assert s == s[..k] + [c] + s[k + 1..];
      (s[..k], true, s[k + 1..])
  }

  /** Partitioning splits at the separator that follows a text free of it. */
  lemma PartitionAt(before: string, c: char, after: string)
    requires c !in before
    ensures Partition(before + [c] + after, c) == (before, true, after)
  {
    var s := before + [c] + after;
    var r := Partition(s, c);
    assert s[|before|] == c;
    assert r.0 == s[..|before|] == before;
    assert r.2 == s[|before| + 1..] == after;
  }
}
