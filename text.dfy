/** Go's strings.Replace with a negative count: every non-overlapping
    occurrence of a pattern, found from left to right, is replaced. */
module Text {

  /** The pattern p occurs in s starting at index i. */
  predicate OccursAt(s: string, p: string, i: int) {
    0 <= i && i + |p| <= |s| && s[i..i + |p|] == p
  }

  predicate Occurs(s: string, p: string) {
    exists i | 0 <= i <= |s| :: OccursAt(s, p, i)
  }

  /** What Go's strings.Replace does with an empty pattern: the replacement
      goes before every character and at the end. */
  function Interleave(s: string, rep: string): (r: string)
    ensures |r| == |s| + (|s| + 1) * |rep|
  {
    if s == [] then rep else rep + [s[0]] + Interleave(s[1..], rep)
  }

  /** strings.Replace(s, pat, rep, -1). */
  function ReplaceAll(s: string, pat: string, rep: string): string
    decreases |s|
  {
    if pat == [] then Interleave(s, rep)
    else if |s| < |pat| then s
    else if s[..|pat|] == pat then rep + ReplaceAll(s[|pat|..], pat, rep)
    else [s[0]] + ReplaceAll(s[1..], pat, rep)
  }

  /** The parts of a template joined by a separator. */
  function Join(parts: seq<string>, sep: string): string {
    if |parts| == 0 then []
    else if |parts| == 1 then parts[0]
    else parts[0] + sep + Join(parts[1..], sep)
  }

  /** A string in which the pattern does not occur comes back verbatim. */
  lemma {:induction false} ReplaceAllVerbatim(s: string, pat: string, rep: string)
    requires pat != [] && !Occurs(s, pat)
    ensures ReplaceAll(s, pat, rep) == s
    decreases |s|
  {
    if |s| >= |pat| {
      assert !OccursAt(s, pat, 0);
      assert !Occurs(s[1..], pat) by {
        forall i | OccursAt(s[1..], pat, i) ensures false {
          assert s[1..][i..i + |pat|] == s[i + 1..i + 1 + |pat|];
          assert OccursAt(s, pat, i + 1);
        }
      }
      ReplaceAllVerbatim(s[1..], pat, rep);
    }
  }

  /** A prefix that does not contain the first character of the pattern is
      copied unchanged: no occurrence can start inside it. */
  lemma {:induction false} ReplaceAllSkipsPrefix(a: string, b: string, pat: string, rep: string)
    requires pat != [] && pat[0] !in a
    ensures ReplaceAll(a + b, pat, rep) == a + ReplaceAll(b, pat, rep)
    decreases |a|
  {
    if a != [] {
      var s := a + b;
      assert s[1..] == a[1..] + b;
      ReplaceAllSkipsPrefix(a[1..], b, pat, rep);
      if |s| < |pat| {
        assert ReplaceAll(b, pat, rep) == b;
      } else {
        assert s[..|pat|][0] == a[0] != pat[0];
        assert ReplaceAll(s, pat, rep) == [a[0]] + ReplaceAll(s[1..], pat, rep);
      }
      assert [a[0]] + a[1..] == a;
    } else {
      assert a + b == b;
    }
  }

  /** No proper prefix of the pattern is also a suffix of it, so two
      occurrences can never overlap. */
  predicate Unbordered(pat: string) {
    forall k | 0 < k < |pat| :: pat[..k] != pat[|pat| - k..]
  }

  /** A pattern whose first character does not come back later is
      unbordered. */
  lemma FirstCharOnceUnbordered(pat: string)
    requires pat != [] && pat[0] !in pat[1..]
    ensures Unbordered(pat)
  {
    forall k | 0 < k < |pat| ensures pat[..k] != pat[|pat| - k..] {
      assert pat[|pat| - k..][0] == pat[|pat| - k] == pat[1..][|pat| - k - 1];
    }
  }

  /** Dropping the first character of a string cannot create an occurrence. */
  lemma NoOccurrenceInTail(a: string, pat: string)
    requires a != [] && !Occurs(a, pat)
    ensures !Occurs(a[1..], pat)
  {
    forall i | 0 <= i <= |a[1..]| && OccursAt(a[1..], pat, i) ensures false {
      assert a[1..][i..i + |pat|] == a[i + 1..i + 1 + |pat|];
      assert OccursAt(a, pat, i + 1);
    }
  }

  /** A non-empty prefix without the pattern, followed by an unbordered
      pattern, does not start with the pattern. */
  lemma NoMatchAtStart(a: string, b: string, pat: string)
    requires pat != [] && Unbordered(pat) && a != [] && !Occurs(a, pat)
    ensures |a + pat + b| >= |pat| && (a + pat + b)[..|pat|] != pat
  {
    var s := a + pat + b;
    if |a| >= |pat| {
      assert s[..|pat|] == a[..|pat|];
      assert !OccursAt(a, pat, 0);
    } else {
      var k := |pat| - |a|;
      assert pat[..k] != pat[|a|..];
      assert s[..|pat|][|a|..] == pat[..k];
    }
  }

  /** A prefix in which an unbordered pattern does not occur, followed by the
      pattern: the prefix is copied and the pattern replaced, since no
      occurrence can start inside the prefix and reach into the pattern. */
  lemma {:induction false} ReplaceAllSkipsUnmatched(a: string, b: string, pat: string, rep: string)
    requires pat != [] && Unbordered(pat) && !Occurs(a, pat)
    ensures ReplaceAll(a + pat + b, pat, rep) == a + rep + ReplaceAll(b, pat, rep)
    decreases |a|
  {
    var s := a + pat + b;
    if a == [] {
      assert s == pat + b;
      assert s[..|pat|] == pat && s[|pat|..] == b;
    } else {
      NoMatchAtStart(a, b, pat);
      NoOccurrenceInTail(a, pat);
      assert s[1..] == a[1..] + pat + b;
      ReplaceAllSkipsUnmatched(a[1..], b, pat, rep);
      var r := ReplaceAll(b, pat, rep);
      assert ReplaceAll(s[1..], pat, rep) == a[1..] + rep + r;
      assert ReplaceAll(s, pat, rep) == [s[0]] + ReplaceAll(s[1..], pat, rep);
      assert s[0] == a[0];
      assert [a[0]] + (a[1..] + rep + r) == a + rep + r;
    }
  }

  /** A string cut by an unbordered pattern into parts in which the pattern
      does not occur: every occurrence, and only those, become the
      replacement. */
  lemma {:induction false} ReplaceAllTemplate(parts: seq<string>, pat: string, rep: string)
    requires pat != [] && Unbordered(pat)
    requires forall k :: 0 <= k < |parts| ==> !Occurs(parts[k], pat)
    ensures ReplaceAll(Join(parts, pat), pat, rep) == Join(parts, rep)
    decreases |parts|
  {
    if |parts| == 0 {
    } else if |parts| == 1 {
      ReplaceAllVerbatim(parts[0], pat, rep);
    } else {
      var rest := Join(parts[1..], pat);
      assert Join(parts, pat) == parts[0] + pat + rest;
      ReplaceAllSkipsUnmatched(parts[0], rest, pat, rep);
      ReplaceAllTemplate(parts[1..], pat, rep);
      assert Join(parts, rep) == parts[0] + rep + Join(parts[1..], rep);
    }
  }

  /** Go's strings.Split: the string cut at every non-overlapping
      occurrence of a non-empty pattern, found from left to right. */
  function Split(s: string, pat: string): (parts: seq<string>)
    requires pat != []
    ensures |parts| >= 1
    decreases |s|
  {
    if |s| < |pat| then [s]
    else if s[..|pat|] == pat then [[]] + Split(s[|pat|..], pat)
    else
      var t := Split(s[1..], pat);
      [[s[0]] + t[0]] + t[1..]
  }

  /** Joining the parts by the pattern gives the string back. */
  lemma {:induction false} SplitJoin(s: string, pat: string)
    requires pat != []
    ensures Join(Split(s, pat), pat) == s
    decreases |s|
  {
    if |s| < |pat| {
    } else if s[..|pat|] == pat {
      SplitJoin(s[|pat|..], pat);
      var t := Split(s[|pat|..], pat);
      assert Join([[]] + t, pat) == [] + pat + Join(t, pat);
      assert s == s[..|pat|] + s[|pat|..];
    } else {
      SplitJoin(s[1..], pat);
      var t := Split(s[1..], pat);
      if |t| == 1 {
        assert Join([[s[0]] + t[0]], pat) == [s[0]] + t[0];
      } else {
        assert ([[s[0]] + t[0]] + t[1..])[1..] == t[1..];
        assert Join(t, pat) == t[0] + pat + Join(t[1..], pat);
      }
      assert s == [s[0]] + s[1..];
    }
  }

  /** The pattern occurs in none of the parts: the cut is taken at the
      first occurrence every time. */
  lemma {:induction false} SplitPartsFree(s: string, pat: string)
    requires pat != []
    ensures forall k :: 0 <= k < |Split(s, pat)| ==> !Occurs(Split(s, pat)[k], pat)
    decreases |s|
  {
    var parts := Split(s, pat);
    if |s| < |pat| {
      forall i | 0 <= i <= |s| ensures !OccursAt(s, pat, i) { }
    } else if s[..|pat|] == pat {
      SplitPartsFree(s[|pat|..], pat);
      var t := Split(s[|pat|..], pat);
      assert parts == [[]] + t;
      forall k | 0 <= k < |parts| ensures !Occurs(parts[k], pat) {
        if k > 0 {
          assert parts[k] == t[k - 1];
          assert !Occurs(t[k - 1], pat);
        } else {
          assert parts[k] == [];
          forall i | 0 <= i <= 0 ensures !OccursAt(parts[k], pat, i) { }
        }
      }
    } else {
      SplitPartsFree(s[1..], pat);
      var t := Split(s[1..], pat);
      var head := [s[0]] + t[0];
      SplitJoin(s[1..], pat);
      JoinStartsWithFirst(t, pat);
      HeadPartFree(s, head, t[0], pat);
      assert parts == [head] + t[1..];
      forall k | 0 <= k < |parts| ensures !Occurs(parts[k], pat) {
        if k > 0 { assert parts[k] == t[k]; } else { assert parts[k] == head; }
      }
    }
  }

  /** A prefix of s made of its first character and a part free of the
      pattern is free of it too when s does not start with the pattern. */
  lemma HeadPartFree(s: string, head: string, p: string, pat: string)
    requires pat != [] && |s| >= |pat| && s[..|pat|] != pat
    requires head == [s[0]] + p && |head| <= |s| && s[..|head|] == head
    requires !Occurs(p, pat)
    ensures !Occurs(head, pat)
  {
    assert |head| >= |pat| ==> head[..|pat|] == s[..|pat|];
    assert head[1..] == p;
    forall i | 0 <= i <= |head| && OccursAt(head, pat, i) ensures false {
      if i > 0 {
        assert head[i..i + |pat|] == head[1..][i - 1..i - 1 + |pat|];
        assert OccursAt(p, pat, i - 1);
      }
    }
  }

  /** A joined string begins with its first part. */
  lemma JoinStartsWithFirst(parts: seq<string>, sep: string)
    requires |parts| >= 1
    ensures |parts[0]| <= |Join(parts, sep)| && Join(parts, sep)[..|parts[0]|] == parts[0]
  {
    if |parts| > 1 {
      assert Join(parts, sep) == parts[0] + (sep + Join(parts[1..], sep));
    }
  }

  /** Replacing a non-empty pattern is cutting the string at it and joining
      the parts with the replacement, for every string: both scan from left
      to right and take the first occurrence each time. */
  lemma {:induction false} ReplaceAllIsSplitJoin(s: string, pat: string, rep: string)
    requires pat != []
    ensures ReplaceAll(s, pat, rep) == Join(Split(s, pat), rep)
    decreases |s|
  {
    if |s| < |pat| {
    } else if s[..|pat|] == pat {
      ReplaceAllIsSplitJoin(s[|pat|..], pat, rep);
      var t := Split(s[|pat|..], pat);
      assert Join([[]] + t, rep) == [] + rep + Join(t, rep);
    } else {
      ReplaceAllIsSplitJoin(s[1..], pat, rep);
      var t := Split(s[1..], pat);
      if |t| == 1 {
        assert Join([[s[0]] + t[0]], rep) == [s[0]] + t[0];
      } else {
        assert ([[s[0]] + t[0]] + t[1..])[1..] == t[1..];
        assert Join(t, rep) == t[0] + rep + Join(t[1..], rep);
      }
    }
  }
}
