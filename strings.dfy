/** Python's `str.replace` on text, and the substring facts the health-URL
    derivation of app/main.py relies on. */
module PyStrings {

  /** `pat` occurs in `s` at some position (Python's `pat in s`). */
  predicate Occurs(s: string, pat: string)
    decreases |s|
  {
    pat <= s || (s != [] && Occurs(s[1..], pat))
  }

  /** Python's `s.endswith(suffix)`. */
  predicate EndsWith(s: string, suffix: string)
  {
    |suffix| <= |s| && s[|s| - |suffix|..] == suffix
  }

  /** Python's `s.replace(pat, rep)`: the text is scanned from the left and every
      non-overlapping occurrence of `pat` is replaced by `rep`; replaced text is
      never scanned again. With an empty `pat`, `rep` is inserted before every
      character and once more at the end. */
  function ReplaceAll(s: string, pat: string, rep: string): (r: string)
    // replacing by something no longer never lengthens the text
    ensures pat != [] && |rep| <= |pat| ==> |r| <= |s|
  {
    if pat == [] then Interleave(s, rep) else ReplaceEach(s, pat, rep)
  }

  /** `s.replace("", rep)`: `rep` before every character and at the end. */
  function Interleave(s: string, rep: string): (r: string)
    ensures |r| == |s| + (|s| + 1) * |rep|
    decreases |s|
  {
    if s == [] then rep else rep + [s[0]] + Interleave(s[1..], rep)
  }

  /** `s.replace(pat, rep)` for a non-empty `pat`. */
  function ReplaceEach(s: string, pat: string, rep: string): (r: string)
    requires pat != []
    ensures |rep| <= |pat| ==> |r| <= |s|
    decreases |s|
  {
    if s == [] then []
    else if pat <= s then rep + ReplaceEach(s[|pat|..], pat, rep)
    else [s[0]] + ReplaceEach(s[1..], pat, rep)
  }

  /** Without an occurrence of `pat` the text comes back unchanged. */
  lemma {:induction false} ReplaceWithoutOccurrence(s: string, pat: string, rep: string)
    requires pat != [] && !Occurs(s, pat)
    ensures ReplaceAll(s, pat, rep) == s
    decreases |s|
  {
    if s != [] {
      ReplaceWithoutOccurrence(s[1..], pat, rep);
    }
  }

  /** Replacing by something strictly shorter shortens the text as soon as
      `pat` occurs in it. */
  lemma {:induction false} ReplaceShortens(s: string, pat: string, rep: string)
    requires pat != [] && |rep| < |pat| && Occurs(s, pat)
    ensures |ReplaceAll(s, pat, rep)| < |s|
    decreases |s|
  {
    if !(pat <= s) {
      ReplaceShortens(s[1..], pat, rep);
    }
  }

  /** A suffix is an occurrence. */
  lemma {:induction false} EndsWithOccurs(s: string, suffix: string)
    requires EndsWith(s, suffix)
    ensures Occurs(s, suffix)
    decreases |s|
  {
    if |suffix| == |s| {
      assert s[0..] == s;
    } else {
      assert s[1..][|s[1..]| - |suffix|..] == s[|s| - |suffix|..];
      EndsWithOccurs(s[1..], suffix);
    }
  }

  /** A stretch of text in which `pat` cannot even begin is copied unchanged,
      and the scan continues behind it. */
  lemma ReplaceSkipsPrefix(a: string, b: string, pat: string, rep: string)
    requires pat != []
    requires forall i :: 0 <= i < |a| ==> a[i] != pat[0]
    ensures ReplaceAll(a + b, pat, rep) == a + ReplaceAll(b, pat, rep)
  {
    EachSkipsPrefix(a, b, pat, rep);
  }

  lemma {:induction false} EachSkipsPrefix(a: string, b: string, pat: string, rep: string)
    requires pat != []
    requires forall i :: 0 <= i < |a| ==> a[i] != pat[0]
    ensures ReplaceEach(a + b, pat, rep) == a + ReplaceEach(b, pat, rep)
    decreases |a|
  {
    if a == [] {
      assert a + b == b;
    } else {
      var s, t := a + b, a[1..];
      assert s[0] == a[0] != pat[0];
      assert s[1..] == t + b;
      EachSkipsPrefix(t, b, pat, rep);
      calc {
        ReplaceEach(s, pat, rep);
        [a[0]] + ReplaceEach(t + b, pat, rep);
        [a[0]] + (t + ReplaceEach(b, pat, rep));
        { assert [a[0]] + t == a; }
        a + ReplaceEach(b, pat, rep);
      }
    }
  }

  /** One scanning step where `pat` does not start the text. */
  lemma ReplaceStep(s: string, pat: string, rep: string)
    requires pat != [] && s != [] && !(pat <= s)
    ensures ReplaceAll(s, pat, rep) == [s[0]] + ReplaceAll(s[1..], pat, rep)
  {
  }

  /** One scanning step where `pat` starts the text. */
  lemma ReplaceMatch(s: string, pat: string, rep: string)
    requires pat != [] && pat <= s
    ensures ReplaceAll(s, pat, rep) == rep + ReplaceAll(s[|pat|..], pat, rep)
  {
  }

  /** The window of `s` starting at `i` spells `pat`. */
  predicate OccursAt(s: string, pat: string, i: int)
  {
    0 <= i <= |s| - |pat| && s[i..i + |pat|] == pat
  }

  /** `Occurs` agrees with the index-based reading of `pat in s`: some window
      of `s` of the pattern's length equals the pattern. */
  lemma {:induction false} OccursIffWindow(s: string, pat: string)
    ensures Occurs(s, pat) <==> exists i :: OccursAt(s, pat, i)
    decreases |s|
  {
    if pat <= s {
      assert OccursAt(s, pat, 0);
    } else if s == [] {
      assert forall i :: !OccursAt(s, pat, i);
    } else {
      OccursIffWindow(s[1..], pat);
      if exists i :: OccursAt(s, pat, i) {
        var i :| OccursAt(s, pat, i);
        assert OccursAt(s[1..], pat, i - 1);
      }
      if Occurs(s[1..], pat) {
        var j :| OccursAt(s[1..], pat, j);
        assert OccursAt(s, pat, j + 1);
      }
    }
  }

  /** With an empty pattern the replacement goes before every character and at
      the end, as Python does: "ab".replace("", "X") is "XaXbX". */
  lemma EmptyPatternInterleaves()
    ensures ReplaceAll("ab", "", "X") == "XaXbX"
  {
  }
}
