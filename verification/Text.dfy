/** An optional value, the model of std::optional and of npos-style results. */
module Options {
  datatype Option<+T> = None | Some(value: T)
}

/**
 * The std::string operations the server relies on.  A string is a sequence of
 * bytes written as characters; None stands for std::string::npos.
 */
module Text {
  import opened Options

  predicate MatchAt(s: string, pat: string, i: nat) {
    i + |pat| <= |s| && s[i..i + |pat|] == pat
  }

  /** std::string::find(pat, from). */
  function Find(s: string, pat: string, from: nat): (r: Option<nat>)
    ensures r.Some? ==> from <= r.value && MatchAt(s, pat, r.value)
    ensures r.Some? ==> forall j: nat :: from <= j < r.value ==> !MatchAt(s, pat, j)
    ensures r.None? ==> forall j: nat :: from <= j ==> !MatchAt(s, pat, j)
    decreases |s| - from
  {
    if from + |pat| > |s| then None
    else if MatchAt(s, pat, from) then Some(from)
    else Find(s, pat, from + 1)
  }

  /** The first occurrence of a character at or after `from`. */
  function IndexOf(s: string, c: char, from: nat): (r: Option<nat>)
    ensures r.Some? ==> from <= r.value < |s| && s[r.value] == c
    decreases |s| - from
  {
    if from >= |s| then None
    else if s[from] == c then Some(from)
    else IndexOf(s, c, from + 1)
  }

  /** Nothing before the position found, or nothing at all, is the character. */
  lemma {:induction false} IndexOfIsFirst(s: string, c: char, from: nat)
    ensures forall j: nat :: from <= j < |s| && (IndexOf(s, c, from).None? || j < IndexOf(s, c, from).value) ==> s[j] != c
    decreases |s| - from
  {
    if from < |s| && s[from] != c {
      IndexOfIsFirst(s, c, from + 1);
    }
  }

  /** A position that holds the character with none before it is the one found. */
  lemma {:induction false} IndexOfUnique(s: string, c: char, from: nat, i: nat)
    requires from <= i < |s| && s[i] == c
    requires forall j: nat :: from <= j < i ==> s[j] != c
    ensures IndexOf(s, c, from) == Some(i)
    decreases i - from
  {
    if from < i {
      IndexOfUnique(s, c, from + 1, i);
    }
  }

  /** No such character from a position on: nothing is found. */
  lemma {:induction false} IndexOfAbsent(s: string, c: char, from: nat)
    requires forall j: nat :: from <= j < |s| ==> s[j] != c
    ensures IndexOf(s, c, from).None?
    decreases |s| - from
  {
    if from < |s| {
      IndexOfAbsent(s, c, from + 1);
    }
  }

  predicate IsBlank(c: char) { c == ' ' || c == '\t' }

  predicate AllBlank(s: string) { forall i :: 0 <= i < |s| ==> IsBlank(s[i]) }

  /** find_first_not_of(" \t", from), with |s| for npos. */
  function FirstNonBlank(s: string, from: nat): (r: nat)
    requires from <= |s|
    ensures from <= r <= |s|
    decreases |s| - from
  {
    if from == |s| || !IsBlank(s[from]) then from else FirstNonBlank(s, from + 1)
  }

  /** One past find_last_not_of(" \t") within the first n characters, with 0 for npos. */
  function PastLastNonBlank(s: string, n: nat): (r: nat)
    requires n <= |s|
    ensures r <= n
  {
    if n == 0 || !IsBlank(s[n - 1]) then n else PastLastNonBlank(s, n - 1)
  }

  function Trim(s: string): string {
    var first, last := FirstNonBlank(s, 0), PastLastNonBlank(s, |s|);
    if first >= last then "" else s[first..last]
  }

  lemma {:induction false} FirstNonBlankIs(s: string, from: nat)
    requires from <= |s|
    ensures forall i :: from <= i < FirstNonBlank(s, from) ==> IsBlank(s[i])
    ensures FirstNonBlank(s, from) < |s| ==> !IsBlank(s[FirstNonBlank(s, from)])
    decreases |s| - from
  {
    if from < |s| && IsBlank(s[from]) {
      FirstNonBlankIs(s, from + 1);
    }
  }

  lemma {:induction false} PastLastNonBlankIs(s: string, n: nat)
    requires n <= |s|
    ensures forall i :: PastLastNonBlank(s, n) <= i < n ==> IsBlank(s[i])
    ensures PastLastNonBlank(s, n) > 0 ==> !IsBlank(s[PastLastNonBlank(s, n) - 1])
  {
    if n > 0 && IsBlank(s[n - 1]) {
      PastLastNonBlankIs(s, n - 1);
    }
  }

  /** A core is what is left once the blanks around a text are gone. */
  predicate IsCore(core: string) {
    core == "" || (!IsBlank(core[0]) && !IsBlank(core[|core| - 1]))
  }

  /** Every text is its trimmed form with blanks around it. */
  lemma TrimSplits(s: string) returns (left: string, right: string)
    ensures AllBlank(left) && AllBlank(right) && s == left + Trim(s) + right && IsCore(Trim(s))
  {
    hide FirstNonBlank, PastLastNonBlank;
    FirstNonBlankIs(s, 0);
    PastLastNonBlankIs(s, |s|);
    var first, last := FirstNonBlank(s, 0), PastLastNonBlank(s, |s|);
    if first >= last {
      return s, "";
    }
    return s[..first], s[last..];
  }

  /** Trimming removes exactly the blanks around a core that starts and ends with a non-blank. */
  lemma TrimOf(left: string, core: string, right: string)
    requires AllBlank(left) && AllBlank(right) && IsCore(core)
    ensures Trim(left + core + right) == core
  {
    var s := left + core + right;
    FirstNonBlankIs(s, 0);
    PastLastNonBlankIs(s, |s|);
    if core == "" {
      assert AllBlank(s);
    } else {
      assert s[|left|] == core[0] && s[|left| + |core| - 1] == core[|core| - 1];
      assert forall i :: 0 <= i < |left| ==> s[i] == left[i];
      assert forall i :: |left| + |core| <= i < |s| ==> s[i] == right[i - |left| - |core|];
    }
  }

  /** Blanks in front of a text do not change its trimmed form. */
  lemma TrimBlankFront(s: string)
    ensures Trim(" " + s) == Trim(s)
  {
    var left, right := TrimSplits(s);
    TrimOf(" " + left, Trim(s), right);
    Regroup(" ", left, Trim(s), right);
  }

  lemma Regroup(a: string, b: string, c: string, d: string)
    ensures a + (b + c + d) == (a + b) + c + d
  {
  }

  function LowerChar(c: char): char {
    if 'A' <= c <= 'Z' then (c as int + 32) as char else c
  }

  function ToLower(s: string): (r: string)
    ensures |r| == |s|
    ensures forall i :: 0 <= i < |s| ==> r[i] == LowerChar(s[i])
  {
    if s == "" then "" else [LowerChar(s[0])] + ToLower(s[1..])
  }

  predicate IsDigit(c: char) { '0' <= c <= '9' }

  predicate IsAlnum(c: char) { IsDigit(c) || 'a' <= c <= 'z' || 'A' <= c <= 'Z' }

  /** A first match found in a prefix is still the first match once bytes follow it. */
  lemma FindStable(s: string, x: string, pat: string)
    requires Find(s, pat, 0).Some?
    ensures Find(s + x, pat, 0) == Find(s, pat, 0)
  {
    var i := Find(s, pat, 0).value;
    assert (s + x)[i..i + |pat|] == s[i..i + |pat|];
    forall j: nat | j < i ensures !MatchAt(s + x, pat, j) {
      assert !MatchAt(s, pat, j);
      assert (s + x)[j..j + |pat|] == s[j..j + |pat|];
    }
    assert MatchAt(s + x, pat, i);
  }

  /** A first match that lies inside a prefix is the prefix's own first match. */
  lemma FindInPrefix(s: string, x: string, pat: string)
    requires Find(s + x, pat, 0).Some? && Find(s + x, pat, 0).value + |pat| <= |s|
    ensures Find(s, pat, 0) == Find(s + x, pat, 0)
  {
    var i := Find(s + x, pat, 0).value;
    assert (s + x)[i..i + |pat|] == s[i..i + |pat|];
    assert MatchAt(s, pat, i);
    FindStable(s, x, pat);
  }
}
