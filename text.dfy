/** The few functions of Go's `strings` package that the proxy filters rely on,
    over `string` (`seq<char>`). */
module Text {

  /** Lower-case form of one character (ASCII letters only). */
  function LowerChar(c: char): char {
    if 'A' <= c <= 'Z' then (c as int + 32) as char else c
  }

  /** `strings.ToLower`, restricted to ASCII case mapping. */
  function Lower(s: string): string {
    seq(|s|, i requires 0 <= i < |s| => LowerChar(s[i]))
  }

  /** Lower-casing twice is lower-casing once. */
  lemma LowerIdempotent(s: string)
    ensures Lower(Lower(s)) == Lower(s)
  {
    assert forall i :: 0 <= i < |s| ==> LowerChar(LowerChar(s[i])) == LowerChar(s[i]);
  }

  /** `sub` occurs in `s` starting at index `i`. */
  predicate OccursAt(s: string, sub: string, i: int) {
    0 <= i && i + |sub| <= |s| && s[i..i + |sub|] == sub
  }

  lemma OccursAtShift(s: string, sub: string, i: int)
    requires |s| > 0 && i >= 0
    ensures OccursAt(s, sub, i + 1) <==> OccursAt(s[1..], sub, i)
  {
    if i + 1 + |sub| <= |s| {
      assert s[1..][i..i + |sub|] == s[i + 1..i + 1 + |sub|];
    }
  }

  /** `strings.Contains`: some position of `s` starts a copy of `sub`. */
  function Contains(s: string, sub: string): (r: bool)
    ensures r <==> exists i :: OccursAt(s, sub, i)
    decreases |s|
  {
    if |s| < |sub| then
      false
    else if s[..|sub|] == sub then
      assert OccursAt(s, sub, 0);
      true
    else
      var r := Contains(s[1..], sub);
      assert r ==> exists i :: OccursAt(s, sub, i) by {
        if r {
          var j :| OccursAt(s[1..], sub, j);
          OccursAtShift(s, sub, j);
          assert OccursAt(s, sub, j + 1);
        }
      }
      assert (exists i :: OccursAt(s, sub, i)) ==> r by {
        if exists i :: OccursAt(s, sub, i) {
          var i :| OccursAt(s, sub, i);
          assert i != 0;
          OccursAtShift(s, sub, i - 1);
        }
      }
      r
  }

  /** `strings.Count` for a non-empty pattern: the number of non-overlapping
      occurrences of `sub`, found left to right. */
  function Count(s: string, sub: string): nat
    requires |sub| > 0
    decreases |s|
  {
    if |s| < |sub| then 0
    else if s[..|sub|] == sub then 1 + Count(s[|sub|..], sub)
    else Count(s[1..], sub)
  }

  lemma MulSucc(k: nat, d: int)
    ensures (k + 1) * d == k * d + d
  {
  }

  /** `strings.Replace(s, marker, repl, -1)`: every non-overlapping occurrence
      of `marker`, found left to right, is replaced by `repl`. */
  function ReplaceAll(s: string, marker: string, repl: string): (r: string)
    requires |marker| > 0
    ensures |r| == |s| + Count(s, marker) * (|repl| - |marker|)
    decreases |s|
  {
    if |s| < |marker| then
      s
    else if s[..|marker|] == marker then
      var rest := ReplaceAll(s[|marker|..], marker, repl);
      MulSucc(Count(s[|marker|..], marker), |repl| - |marker|);
      repl + rest
    else
      var rest := ReplaceAll(s[1..], marker, repl);
      assert Count(s, marker) == Count(s[1..], marker);
      [s[0]] + rest
  }

  /** `strings.Split(s, [sep])[0]`: the part of `s` before its first `sep`,
      or all of `s` when it has none. */
  function FirstField(s: string, sep: char): (r: string)
    ensures r <= s
    ensures sep !in r
    ensures |r| < |s| ==> s[|r|] == sep
  {
    if s == [] || s[0] == sep then [] else [s[0]] + FirstField(s[1..], sep)
  }

  /** The first field of `a`, a separator and anything after it is `a`. */
  lemma {:induction false} FirstFieldBeforeSeparator(a: string, sep: char, b: string)
    requires sep !in a
    ensures FirstField(a + [sep] + b, sep) == a
  {
    if a != [] {
      assert (a + [sep] + b)[1..] == a[1..] + [sep] + b;
      FirstFieldBeforeSeparator(a[1..], sep, b);
    }
  }

  /** A pattern occurs in `s` exactly when the non-overlapping count is positive. */
  lemma {:induction false} ContainsIffCount(s: string, sub: string)
    requires |sub| > 0
    ensures Contains(s, sub) <==> Count(s, sub) > 0
    decreases |s|
  {
    if |s| >= |sub| && s[..|sub|] != sub {
      ContainsIffCount(s[1..], sub);
    }
  }

  /** Replacing a pattern that does not occur changes nothing. */
  lemma {:induction false} ReplaceAllWithoutMarker(s: string, marker: string, repl: string)
    requires |marker| > 0
    requires !Contains(s, marker)
    ensures ReplaceAll(s, marker, repl) == s
    decreases |s|
  {
    if |s| >= |marker| {
      assert !OccursAt(s, marker, 0);
      assert s[..|marker|] != marker;
      forall j | 0 <= j
        ensures !OccursAt(s[1..], marker, j)
      {
        OccursAtShift(s, marker, j);
      }
      ReplaceAllWithoutMarker(s[1..], marker, repl);
      assert [s[0]] + s[1..] == s;
    }
  }

  /** The first occurrence of the marker is replaced by `repl` itself: text
      before it is kept, the marker is gone, and the rest is processed the same way. */
  lemma {:induction false} ReplaceAllFirstOccurrence(a: string, marker: string, b: string, repl: string)
    requires |marker| > 0
    requires forall i :: 0 <= i < |a| ==> !OccursAt(a + marker + b, marker, i)
    ensures ReplaceAll(a + marker + b, marker, repl) == a + repl + ReplaceAll(b, marker, repl)
    decreases |a|
  {
    var s := a + marker + b;
    if a == [] {
      assert s == marker + b;
      assert s[..|marker|] == marker;
      assert s[|marker|..] == b;
    } else {
      var t := a[1..] + marker + b;
      assert s[1..] == t;
      assert s[..|marker|] != marker by {
        assert !OccursAt(s, marker, 0);
      }
      forall i | 0 <= i < |a| - 1
        ensures !OccursAt(t, marker, i)
      {
        OccursAtShift(s, marker, i);
      }
      ReplaceAllFirstOccurrence(a[1..], marker, b, repl);
      assert ReplaceAll(s, marker, repl) == [s[0]] + ReplaceAll(t, marker, repl);
      assert [a[0]] + a[1..] == a;
    }
  }
}
