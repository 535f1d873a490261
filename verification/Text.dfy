/** C string searches, case-sensitive and not (strstr, strchr, pg_strncasecmp and their users). */
module Text {
  import opened Core

  ghost predicate OccursAt(text: string, pattern: string, i: int) {
    0 <= i <= |text| - |pattern| && text[i..i + |pattern|] == pattern
  }

  /** strstr: position of the first occurrence. */
  function StrStr(text: string, pattern: string): Option<nat> {
    StrStrFrom(text, pattern, 0)
  }

  function StrStrFrom(text: string, pattern: string, k: nat): (r: Option<nat>)
    requires k <= |text|
    ensures r.Some? ==> k <= r.value <= |text|
    decreases |text| - k
  {
    if k + |pattern| <= |text| && text[k..k + |pattern|] == pattern then Some(k)
    else if k == |text| then None
    else StrStrFrom(text, pattern, k + 1)
  }

  lemma {:induction false} StrStrFromIsFirst(text: string, pattern: string, k: nat)
    requires k <= |text|
    ensures match StrStrFrom(text, pattern, k)
            case Some(i) => OccursAt(text, pattern, i) && forall j :: k <= j < i ==> !OccursAt(text, pattern, j)
            case None => forall j :: k <= j ==> !OccursAt(text, pattern, j)
    decreases |text| - k
  {
    if OccursAt(text, pattern, k) {
    } else if k < |text| {
      StrStrFromIsFirst(text, pattern, k + 1);
    }
  }

  /** A position is the result exactly when the pattern occurs there and nowhere before. */
  lemma StrStrIs(text: string, pattern: string, i: nat)
    requires OccursAt(text, pattern, i) && forall j :: 0 <= j < i ==> !OccursAt(text, pattern, j)
    ensures StrStr(text, pattern) == Some(i)
  {
    StrStrFromIsFirst(text, pattern, 0);
  }

  /** strchr: position of the first such character. */
  function StrChr(text: string, c: char): (r: Option<nat>)
    ensures r.Some? ==> r.value < |text|
  {
    if text == "" then None
    else if text[0] == c then Some(0)
    else match StrChr(text[1..], c)
      case None => None
      case Some(i) => Some(i + 1)
  }

  // ---- case-insensitive comparison --------------------------------------------

  /** ASCII folding, as pg_strncasecmp applies it to characters below 128. */
  function Lower(c: char): char {
    if 'A' <= c <= 'Z' then (c as int + 32) as char else c
  }

  /** Two characters are the same for the search exactly when they are equal or one ASCII letter in two cases. */
  lemma FoldsLetters(c: char, d: char)
    ensures Lower(c) == Lower(d)
       <==> c == d || ('A' <= c <= 'Z' && d as int == c as int + 32) || ('A' <= d <= 'Z' && c as int == d as int + 32)
  {
  }

  /** pg_strncasecmp(a, b, n) == 0: stops at n characters or at the end of both strings. */
  predicate NCaseEqual(a: string, b: string, n: nat) {
    if n == 0 then true
    else if a == "" || b == "" then a == b
    else Lower(a[0]) == Lower(b[0]) && NCaseEqual(a[1..], b[1..], n - 1)
  }

  predicate CaseEqual(a: string, b: string) {
    |a| == |b| && forall i :: 0 <= i < |a| ==> Lower(a[i]) == Lower(b[i])
  }

  ghost predicate OccursNoCaseAt(text: string, pattern: string, i: int) {
    0 <= i <= |text| - |pattern| && CaseEqual(text[i..i + |pattern|], pattern)
  }

  ghost predicate OccursNoCase(text: string, pattern: string) {
    exists i :: OccursNoCaseAt(text, pattern, i)
  }

  lemma {:induction false} NCaseEqualIsCaseEqual(a: string, b: string)
    ensures NCaseEqual(a, b, |b|) <==> |a| >= |b| && CaseEqual(a[..|b|], b)
  {
    if a != "" && b != "" {
      NCaseEqualIsCaseEqual(a[1..], b[1..]);
      if |a| >= |b| {
        assert a[..|b|] == [a[0]] + a[1..][..|b[1..]|];
        assert b == [b[0]] + b[1..];
      }
    }
  }

  /** rule_program.c: an index loop that refuses the empty needle. */
  method ContainsNoCase(haystack: string, needle: string) returns (found: bool)
    ensures found <==> needle != "" && OccursNoCase(haystack, needle)
  {
    var hlen, nlen := |haystack|, |needle|;
    if nlen == 0 || nlen > hlen {
      assert nlen > 0 ==> forall i :: !OccursNoCaseAt(haystack, needle, i);
      return false;
    }
    var i := 0;
    while i + nlen <= hlen
      invariant 0 <= i <= hlen - nlen + 1
      invariant forall k :: 0 <= k < i ==> !OccursNoCaseAt(haystack, needle, k)
    {
      NCaseEqualIsCaseEqual(haystack[i..], needle);
      assert haystack[i..][..nlen] == haystack[i..i + nlen];
      if NCaseEqual(haystack[i..], needle, nlen) {
        assert OccursNoCaseAt(haystack, needle, i);
        return true;
      }
      i := i + 1;
    }
    assert forall k :: i <= k ==> !OccursNoCaseAt(haystack, needle, k);
    return false;
  }

  /** api_route.c: a loop that runs to the end of the text and accepts the empty needle. */
  method StrCaseStr(haystack: string, needle: string) returns (r: Option<nat>)
    ensures r.Some? ==> OccursNoCaseAt(haystack, needle, r.value)
                        && forall k :: 0 <= k < r.value ==> !OccursNoCaseAt(haystack, needle, k)
    ensures r.None? ==> !OccursNoCase(haystack, needle)
  {
    var nlen := |needle|;
    if nlen == 0 {
      return Some(0);
    }
    var p := 0;
    while p < |haystack|
      invariant 0 <= p <= |haystack|
      invariant forall k :: 0 <= k < p ==> !OccursNoCaseAt(haystack, needle, k)
    {
      NCaseEqualIsCaseEqual(haystack[p..], needle);
      if p + nlen <= |haystack| {
        assert haystack[p..][..nlen] == haystack[p..p + nlen];
      }
      if NCaseEqual(haystack[p..], needle, nlen) {
        return Some(p);
      }
      p := p + 1;
    }
    return None;
  }

  /** The two searches agree on a needle exactly when it is not empty. */
  method SearchesAgree(haystack: string, needle: string) returns (a: bool, b: bool)
    ensures a == b <==> needle != ""
    ensures b <==> OccursNoCase(haystack, needle)
  {
    a := ContainsNoCase(haystack, needle);
    var r := StrCaseStr(haystack, needle);
    b := r.Some?;
    if needle == "" {
      assert OccursNoCaseAt(haystack, needle, 0);
    }
  }
}
