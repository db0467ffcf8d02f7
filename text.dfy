/** The three Python string operations the player uses on file names:
    `pat in s`, `s.split(sep, 1)` and `s.replace(pat, '')`. */
module Text {
  import opened Wrappers

  /** `pat` occurs in `s` starting at index `i`. */
  predicate OccursAt(s: string, pat: string, i: int)
  {
    0 <= i && i + |pat| <= |s| && s[i..i + |pat|] == pat
  }

  /** Python's `pat in s`. */
  predicate Contains(s: string, pat: string)
    ensures Contains(s, pat) ==> |pat| <= |s|
    ensures pat == [] ==> Contains(s, pat)
  {
    assert pat == [] ==> OccursAt(s, pat, 0);
    exists i | 0 <= i <= |s| :: OccursAt(s, pat, i)
  }

  /** The first occurrence of `pat` in `s` at or after index `k`. */
  function FindFrom(s: string, pat: string, k: nat): (r: Option<nat>)
    requires |pat| > 0 && k <= |s|
    ensures r.Some? ==> k <= r.value && OccursAt(s, pat, r.value)
    ensures forall j :: k <= j && (r.None? || j < r.value) ==> !OccursAt(s, pat, j)
    decreases |s| - k
  {
    if k + |pat| > |s| then None
    else if OccursAt(s, pat, k) then Some(k)
    else FindFrom(s, pat, k + 1)
  }

  /** The position where `s.split(pat, 1)` cuts: the first occurrence of `pat`. */
  function FindFirst(s: string, pat: string): (r: Option<nat>)
    requires |pat| > 0
    ensures r.None? <==> !Contains(s, pat)
    ensures r.Some? ==> OccursAt(s, pat, r.value)
    ensures r.Some? ==> forall j :: 0 <= j < r.value ==> !OccursAt(s, pat, j)
  {
    FindFrom(s, pat, 0)
  }

  /** An occurrence inside a prefix of `s` is an occurrence in `s`. */
  lemma OccursInPrefix(s: string, pat: string, n: nat, j: int)
    requires n <= |s| && OccursAt(s[..n], pat, j)
    ensures OccursAt(s, pat, j)
  {
    assert s[..n][j..j + |pat|] == s[j..j + |pat|];
  }

  /** Python's `s.split(sep, 1)` when `sep in s`: the text before the first
      occurrence of `sep` and the text after it. */
  function SplitOnce(s: string, sep: string): (r: (string, string))
    requires |sep| > 0 && Contains(s, sep)
    ensures r.0 + sep + r.1 == s
    ensures forall j :: 0 <= j < |r.0| ==> !OccursAt(s, sep, j)
    ensures !Contains(r.0, sep)
  {
    var i := FindFirst(s, sep).value;
    assert s == s[..i] + s[i..i + |sep|] + s[i + |sep|..];
    assert !Contains(s[..i], sep) by {
      forall j | 0 <= j <= i ensures !OccursAt(s[..i], sep, j) {
        if OccursAt(s[..i], sep, j) {
          OccursInPrefix(s, sep, i, j);
        }
      }
    }
    (s[..i], s[i + |sep|..])
  }

  /** The split is determined by the first occurrence: any `a + sep + t == s`
      whose `sep` is the first one in `s` is the pair SplitOnce returns. */
  lemma {:induction false} SplitOnceUnique(s: string, sep: string, a: string, t: string)
    requires |sep| > 0
    requires a + sep + t == s
    requires forall j :: 0 <= j < |a| ==> !OccursAt(s, sep, j)
    ensures Contains(s, sep)
    ensures SplitOnce(s, sep) == (a, t)
  {
    assert s[|a|..|a| + |sep|] == sep;
    assert OccursAt(s, sep, |a|);
    var i := FindFirst(s, sep).value;
    assert i == |a|;
    assert s[i + |sep|..] == t;
  }

  /** Python's `s.replace(pat, '')`: every non-overlapping occurrence of
      `pat` found scanning left to right is deleted; the text after a deletion
      is not scanned again together with what came before it. */
  function RemoveAll(s: string, pat: string): (r: string)
    requires |pat| > 0
    ensures |r| <= |s|
    decreases |s|
  {
    if s == [] then []
    else if OccursAt(s, pat, 0) then RemoveAll(s[|pat|..], pat)
    else [s[0]] + RemoveAll(s[1..], pat)
  }

  /** Occurrences in a suffix `s[k..]` are those of `s` shifted by `k`. */
  lemma OccursShift(s: string, pat: string, k: nat, j: nat)
    requires k <= |s|
    ensures OccursAt(s[k..], pat, j) <==> OccursAt(s, pat, j + k)
  {
    if j + k + |pat| <= |s| {
      assert s[k..][j..j + |pat|] == s[j + k..j + k + |pat|];
    }
  }

  /** Removal works piecewise on `a + t` when no occurrence of `pat`
      starts inside `a` and runs past its end. */
  lemma {:induction false} RemoveAllAppend(a: string, t: string, pat: string)
    requires |pat| > 0
    requires forall j :: 0 <= j < |a| < j + |pat| ==> !OccursAt(a + t, pat, j)
    ensures RemoveAll(a + t, pat) == RemoveAll(a, pat) + RemoveAll(t, pat)
    decreases |a|
  {
    if a == [] {
      assert a + t == t;
    } else {
      var s := a + t;
      var k := if OccursAt(s, pat, 0) then |pat| else 1;
      if OccursAt(s, pat, 0) {
        assert s[..|pat|] == a[..|pat|];
        assert OccursAt(a, pat, 0);
      } else if |pat| <= |a| {
        assert s[..|pat|] == a[..|pat|];
        assert !OccursAt(a, pat, 0);
      }
      assert s[k..] == a[k..] + t;
      forall j | 0 <= j < |a[k..]| < j + |pat|
        ensures !OccursAt(a[k..] + t, pat, j)
      {
        OccursShift(s, pat, k, j);
      }
      RemoveAllAppend(a[k..], t, pat);
    }
  }

  /** Past the first character, occurrences in `s` are those of `s[1..]` shifted by one. */
  lemma ContainsTail(s: string, pat: string)
    requires |s| > 0 && !OccursAt(s, pat, 0)
    ensures Contains(s, pat) <==> Contains(s[1..], pat)
  {
    forall j | 0 <= j <= |s| - 1
      ensures OccursAt(s, pat, j + 1) <==> OccursAt(s[1..], pat, j)
    {
      if j + |pat| <= |s| - 1 {
        assert s[1..][j..j + |pat|] == s[j + 1..j + 1 + |pat|];
      }
    }
    if Contains(s, pat) {
      var i :| 0 <= i <= |s| && OccursAt(s, pat, i);
      assert OccursAt(s[1..], pat, i - 1);
    }
  }

  /** Removal changes the text exactly when `pat` occurs in it; otherwise
      it strictly shortens it. */
  lemma {:induction false} RemoveAllChangesIffContains(s: string, pat: string)
    requires |pat| > 0
    ensures RemoveAll(s, pat) == s <==> !Contains(s, pat)
    ensures Contains(s, pat) ==> |RemoveAll(s, pat)| < |s|
    decreases |s|
  {
    if s == [] {
    } else if OccursAt(s, pat, 0) {
      assert Contains(s, pat);
      assert |RemoveAll(s[|pat|..], pat)| <= |s| - |pat|;
    } else {
      RemoveAllChangesIffContains(s[1..], pat);
      ContainsTail(s, pat);
      assert s == [s[0]] + s[1..];
    }
  }
}
