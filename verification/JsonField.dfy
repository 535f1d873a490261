/** The field scanner of the API and its agreement with the texts the API prints (api_route.c). */
module JsonField {
  import opened Core
  import opened Text

  // ---- the scanner --------------------------------------------------------------------

  const PATTERN_SIZE := 64

  /** The quoted key, cut off at the size of the pattern buffer. */
  function Pattern(key: string): string {
    var p := "\"" + key + "\"";
    if |p| < PATTERN_SIZE then p else p[..PATTERN_SIZE - 1]
  }

  predicate Blank(c: char) {
    c == ' ' || c == '\t'
  }

  function SkipBlanks(t: string): string {
    if t != "" && Blank(t[0]) then SkipBlanks(t[1..]) else t
  }

  predicate EndsBare(c: char) {
    c == ',' || c == '}'
  }

  function BareValue(t: string): string {
    if t == "" || EndsBare(t[0]) then "" else [t[0]] + BareValue(t[1..])
  }

  /** Text behind the first colon that follows the first occurrence of the quoted key. */
  function ValueText(body: string, key: string): Option<string> {
    match StrStr(body, Pattern(key))
    case None => None
    case Some(i) =>
      match StrChr(body[i..], ':')
      case None => None
      case Some(j) => Some(SkipBlanks(body[i..][j + 1..]))
  }

  function FieldValue(t: string): Option<string> {
    if t != "" && t[0] == '"' then
      match StrChr(t[1..], '"')
      case None => None
      case Some(k) => Some(t[1..][..k])
    else Some(BareValue(t))
  }

  function Field(body: string, key: string): Option<string> {
    match ValueText(body, key)
    case None => None
    case Some(t) => FieldValue(t)
  }

  /** Where the value of a field starts. */
  method FindValue(body: string, key: string) returns (r: Option<nat>)
    ensures r.Some? ==> r.value <= |body|
    ensures ValueText(body, key) == if r.None? then None else Some(body[r.value..])
  {
    var at := StrStr(body, Pattern(key));
    if at.None? {
      return None;
    }
    var colon := StrChr(body[at.value..], ':');
    if colon.None? {
      return None;
    }
    var start := at.value + colon.value + 1;
    assert body[at.value..][colon.value + 1..] == body[start..];
    ghost var from := start;
    while start < |body| && Blank(body[start])
      invariant from <= start <= |body|
      invariant SkipBlanks(body[from..]) == SkipBlanks(body[start..])
    {
      assert body[start..][1..] == body[start + 1..];
      start := start + 1;
    }
    return Some(start);
  }

  method ReadField(body: string, from: nat) returns (r: Option<string>)
    requires from <= |body|
    ensures r == FieldValue(body[from..])
  {
    var start := from;
    assert from < |body| ==> body[from..][0] == body[from];
    if from < |body| && body[from] == '"' {
      start := start + 1;
      assert body[from..][1..] == body[start..];
      var quote := StrChr(body[start..], '"');
      if quote.None? {
        return None;
      }
      return Some(body[start..][..quote.value]);
    }
    var end := start;
    while end < |body| && !EndsBare(body[end])
      invariant start <= end <= |body|
      invariant BareValue(body[start..]) == body[start..end] + BareValue(body[end..])
    {
      assert body[end..][1..] == body[end + 1..];
      end := end + 1;
    }
    assert BareValue(body[end..]) == "";
    assert body[start..end] + "" == body[start..end];
    return Some(body[start..end]);
  }

  method FindField(body: string, key: string) returns (r: Option<string>)
    ensures r == Field(body, key)
  {
    var start := FindValue(body, key);
    if start.None? {
      return None;
    }
    r := ReadField(body, start.value);
  }

  // ---- texts as segments between quotes -------------------------------------------------

  function Join(segs: seq<string>): string
    requires segs != []
  {
    if |segs| == 1 then segs[0] else segs[0] + "\"" + Join(segs[1..])
  }

  predicate QuoteFree(s: string) {
    '"' !in s
  }

  predicate AllQuoteFree(segs: seq<string>) {
    forall i :: 0 <= i < |segs| ==> QuoteFree(segs[i])
  }

  lemma JoinCons(s: string, segs: seq<string>)
    requires segs != []
    ensures Join([s] + segs) == s + "\"" + Join(segs)
  {
    assert ([s] + segs)[1..] == segs;
  }

  lemma {:induction false} JoinConcat(xs: seq<string>, ys: seq<string>)
    requires xs != [] && ys != []
    ensures Join(xs + ys) == Join(xs) + "\"" + Join(ys)
  {
    assert (xs + ys)[1..] == xs[1..] + ys;
    if |xs| == 1 {
      assert xs[1..] + ys == ys;
    } else {
      JoinConcat(xs[1..], ys);
      Regroup(xs[0] + "\"", Join(xs[1..]), "\"", Join(ys));
    }
  }

  lemma Regroup(a: string, b: string, c: string, d: string)
    ensures a + (b + c + d) == a + b + c + d
  {
    assert b + c + d == b + (c + d);
  }

  /** The parts of a text between its quotes. */
  function Split(s: string): (parts: seq<string>)
    ensures parts != []
  {
    if s == "" then [""]
    else
      var rest := Split(s[1..]);
      if s[0] == '"' then [""] + rest else [[s[0]] + rest[0]] + rest[1..]
  }

  lemma {:induction false} SplitIsInverse(s: string)
    ensures Join(Split(s)) == s && AllQuoteFree(Split(s))
  {
    if s != "" {
      var rest := Split(s[1..]);
      SplitIsInverse(s[1..]);
      assert s == [s[0]] + s[1..];
      assert rest == [rest[0]] + rest[1..];
      if s[0] == '"' {
        assert Split(s)[1..] == rest;
        assert "" + "\"" + s[1..] == s;
      } else if |rest| > 1 {
        assert Split(s)[1..] == rest[1..];
        assert [s[0]] + (rest[0] + "\"" + Join(rest[1..])) == ([s[0]] + rest[0]) + "\"" + Join(rest[1..]);
      }
    }
  }

  lemma {:induction false} SplitQuoteFree(s: string)
    requires QuoteFree(s)
    ensures Split(s) == [s]
  {
    if s != "" {
      SplitQuoteFree(s[1..]);
      assert s == [s[0]] + s[1..];
    }
  }

  function LastOf(parts: seq<string>): string
    requires parts != []
  {
    parts[|parts| - 1]
  }

  /** A quoted string adds the segments of its text. */
  lemma JoinQuoted(xs: seq<string>, s: string, after: string)
    requires xs != []
    ensures Join(xs) + ("\"" + s + "\"" + after) == Join(xs + Split(s) + [after])
  {
    SplitIsInverse(s);
    JoinConcat(xs, Split(s));
    JoinConcat(xs + Split(s), [after]);
    Regroup(Join(xs), "\"" + s, "\"", after);
    assert Join(xs) + "\"" + s == Join(xs) + ("\"" + s);
  }

  /** Leading text in which the pattern cannot start only shifts the result. */
  lemma ShiftedMatch(lead: string, tail: string, p: string, at: nat)
    requires OccursAt(tail, p, at) && forall i :: 0 <= i < at ==> !OccursAt(tail, p, i)
    requires forall i :: 0 <= i < |lead| ==> !OccursAt(lead + tail, p, i)
    ensures var t, k := lead + tail, |lead| + at;
            && OccursAt(t, p, k) && (forall i :: 0 <= i < k ==> !OccursAt(t, p, i))
            && t[k..] == tail[at..]
  {
    var t := lead + tail;
    forall i | 0 <= i <= |tail|
      ensures OccursAt(t, p, |lead| + i) <==> OccursAt(tail, p, i)
    {
      if i + |p| <= |tail| {
        assert t[|lead| + i..|lead| + i + |p|] == tail[i..i + |p|];
      }
    }
    forall i | |lead| <= i < |lead| + at
      ensures !OccursAt(t, p, i)
    {
      assert !OccursAt(tail, p, i - |lead|);
    }
  }

  lemma NoMatchInLead(lead: string, tail: string, key: string)
    requires QuoteFree(lead)
    ensures forall i :: 0 <= i < |lead| ==> !OccursAt(lead + tail, "\"" + key + "\"", i)
  {
    var p := "\"" + key + "\"";
    forall i | 0 <= i < |lead|
      ensures !OccursAt(lead + tail, p, i)
    {
      assert (lead + tail)[i] == lead[i] && p[0] == '"';
    }
  }

  /** A quoted segment other than the key is no match. */
  lemma NoMatchAtQuote(seg: string, tail: string, key: string)
    requires QuoteFree(seg) && QuoteFree(key) && seg != key
    ensures !OccursAt("\"" + seg + "\"" + tail, "\"" + key + "\"", 0)
  {
    var t, p := "\"" + seg + "\"" + tail, "\"" + key + "\"";
    var k := if |seg| < |key| then |seg| else |key|;
    assert t[k + 1] == if k == |seg| then '"' else seg[k];
    assert p[k + 1] == if k == |key| then '"' else key[k];
    if |seg| == |key| {
      var d :| 0 <= d < |key| && seg[d] != key[d];
      assert t[d + 1] == seg[d] && p[d + 1] == key[d];
    }
  }

  ghost predicate IsFirst(t: string, p: string, k: int) {
    OccursAt(t, p, k) && forall i :: 0 <= i < k ==> !OccursAt(t, p, i)
  }

  /** Between quotes, the first match of a quoted key is the first equal segment. */
  lemma {:induction false} FirstMatchAt(segs: seq<string>, key: string, n: nat) returns (k: nat)
    requires AllQuoteFree(segs) && 1 <= n < |segs| - 1 && segs[n] == key
    requires forall i :: 1 <= i < n ==> segs[i] != key
    ensures IsFirst(Join(segs), "\"" + key + "\"", k)
    ensures Join(segs)[k..] == "\"" + key + "\"" + Join(segs[n + 1..])
  {
    var p := "\"" + key + "\"";
    var tail := Join(segs[1..]);
    NoMatchInLead(segs[0], "\"" + tail, key);
    assert Join(segs) == segs[0] + ("\"" + tail);
    assert segs[1..][1..] == segs[2..];
    assert tail == segs[1] + "\"" + Join(segs[2..]);
    if n == 1 {
      var u := "\"" + tail;
      assert u == p + Join(segs[2..]);
      assert OccursAt(u, p, 0);
      ShiftedMatch(segs[0], u, p, 0);
      k := |segs[0]|;
    } else {
      var j := FirstMatchAt(segs[1..], key, n - 1);
      assert segs[1..][n..] == segs[n + 1..];
      NoMatchAtQuote(segs[1], Join(segs[2..]), key);
      assert "\"" + tail == "\"" + segs[1] + "\"" + Join(segs[2..]);
      ShiftedMatch("\"", tail, p, j);
      ShiftedMatch(segs[0], "\"" + tail, p, j + 1);
      k := |segs[0]| + j + 1;
    }
  }

  /** The scanner stops at the first segment equal to the key. */
  lemma FirstMatch(segs: seq<string>, key: string, n: nat) returns (k: nat)
    requires AllQuoteFree(segs) && |key| < 60 && 1 <= n < |segs| - 1 && segs[n] == key
    requires forall i :: 1 <= i < n ==> segs[i] != key
    ensures StrStr(Join(segs), Pattern(key)) == Some(k) && k <= |Join(segs)|
    ensures Join(segs)[k..] == "\"" + key + "\"" + Join(segs[n + 1..])
  {
    k := FirstMatchAt(segs, key, n);
    StrStrIs(Join(segs), "\"" + key + "\"", k);
  }

  lemma {:induction false} StrChrAt(lead: string, c: char, tail: string)
    requires c !in lead
    ensures StrChr(lead + [c] + tail, c) == Some(|lead|)
  {
    if lead != "" {
      assert (lead + [c] + tail)[1..] == lead[1..] + [c] + tail;
      StrChrAt(lead[1..], c, tail);
    }
  }

  lemma QuotedValue(s: string, rest: string)
    requires QuoteFree(s)
    ensures FieldValue(SkipBlanks("\"" + s + "\"" + rest)) == Some(s)
  {
    var v := "\"" + s + "\"" + rest;
    assert v[1..] == s + ['"'] + rest;
    StrChrAt(s, '"', rest);
    assert v[1..][..|s|] == s;
  }

  /** With no colon before segment `m`, which is a colon, what follows the first colon is the next segment, quoted. */
  lemma {:induction false} ColonThenString(lead: string, segs: seq<string>, m: nat) returns (before: string, tail: string)
    requires ':' !in lead && m + 2 < |segs| && segs[m] == ":"
    requires forall i :: 0 <= i < m ==> ':' !in segs[i]
    ensures ':' !in before
    ensures lead + Join(segs) == before + [':'] + ("\"" + segs[m + 1] + "\"" + tail)
    decreases m
  {
    assert segs == [segs[0]] + segs[1..];
    JoinCons(segs[0], segs[1..]);
    if m == 0 {
      before, tail := lead, Join(segs[2..]);
      assert segs[1..] == [segs[1]] + segs[2..];
      JoinCons(segs[1], segs[2..]);
    } else {
      before, tail := ColonThenString(lead + segs[0] + "\"", segs[1..], m - 1);
      Regroup(lead, segs[0], "\"", Join(segs[1..]));
    }
  }

  /** From the match on, the value is what stands behind the first colon. */
  lemma FieldBehindColon(body: string, key: string, k: nat, before: string, v: string, value: Option<string>)
    requires StrStr(body, Pattern(key)) == Some(k) && k <= |body|
    requires ':' !in before && body[k..] == before + [':'] + v
    requires value == FieldValue(SkipBlanks(v))
    ensures Field(body, key) == value
  {
    StrChrAt(before, ':', v);
    assert body[k..][|before| + 1..] == v;
  }

  lemma RestColons(segs: seq<string>, n: nat, m: nat, rest: seq<string>)
    requires n < m && m + 2 < |segs| && segs[m] == ":" && rest == segs[n + 1..]
    requires forall i :: n < i < m ==> ':' !in segs[i]
    ensures m - n + 1 < |rest| && rest[m - n - 1] == ":" && rest[m - n] == segs[m + 1]
    ensures forall i :: 0 <= i < m - n - 1 ==> ':' !in rest[i]
  {
  }

  /** Cuts the text behind the first match at the first colon, which stands in front of segment `m + 1`. */
  lemma LocateQuoted(segs: seq<string>, key: string, n: nat, m: nat) returns (k: nat, before: string, tail: string)
    requires AllQuoteFree(segs) && |key| < 60 && ':' !in key
    requires 1 <= n < m && m + 2 < |segs| && segs[n] == key && segs[m] == ":"
    requires forall i :: 1 <= i < n ==> segs[i] != key
    requires forall i :: n < i < m ==> ':' !in segs[i]
    ensures StrStr(Join(segs), Pattern(key)) == Some(k) && k <= |Join(segs)| && ':' !in before
    ensures Join(segs)[k..] == before + [':'] + ("\"" + segs[m + 1] + "\"" + tail)
  {
    k := FirstMatch(segs, key, n);
    before, tail := ColonBehind(segs, "\"" + key + "\"", n, m);
  }

  lemma ColonBehind(segs: seq<string>, lead: string, n: nat, m: nat) returns (before: string, tail: string)
    requires ':' !in lead && n < m && m + 2 < |segs| && segs[m] == ":"
    requires forall i :: n < i < m ==> ':' !in segs[i]
    ensures ':' !in before
    ensures lead + Join(segs[n + 1..]) == before + [':'] + ("\"" + segs[m + 1] + "\"" + tail)
  {
    RestColons(segs, n, m, segs[n + 1..]);
    before, tail := ColonThenString(lead, segs[n + 1..], m - n - 1);
  }

  /** The quoted value that the scanner returns for a key whose first match is segment `n`. */
  lemma QuotedField(segs: seq<string>, key: string, n: nat, m: nat)
    requires AllQuoteFree(segs) && |key| < 60 && ':' !in key
    requires 1 <= n < m && m + 2 < |segs| && segs[n] == key && segs[m] == ":"
    requires forall i :: 1 <= i < n ==> segs[i] != key
    requires forall i :: n < i < m ==> ':' !in segs[i]
    ensures Field(Join(segs), key) == Some(segs[m + 1])
  {
    var k, before, tail := LocateQuoted(segs, key, n, m);
    QuotedBehindColon(Join(segs), key, k, before, segs[m + 1], tail);
  }

  lemma QuotedBehindColon(body: string, key: string, k: nat, before: string, value: string, tail: string)
    requires StrStr(body, Pattern(key)) == Some(k) && k <= |body| && ':' !in before && QuoteFree(value)
    requires body[k..] == before + [':'] + ("\"" + value + "\"" + tail)
    ensures Field(body, key) == Some(value)
  {
    QuotedValue(value, tail);
    FieldBehindColon(body, key, k, before, "\"" + value + "\"" + tail, Some(value));
  }

  /** The bare value that the scanner returns when `rest` is what stands behind it. */
  lemma BareField(segs: seq<string>, key: string, n: nat, value: string, rest: string)
    requires AllQuoteFree(segs) && |key| < 60 && ':' !in key
    requires 1 <= n < |segs| - 1 && segs[n] == key && forall i :: 1 <= i < n ==> segs[i] != key
    requires Join(segs[n + 1..]) == [':'] + (value + rest)
    requires (value == "true" || value == "false") && rest != "" && EndsBare(rest[0])
    ensures Field(Join(segs), key) == Some(value)
  {
    var k := FirstMatch(segs, key, n);
    BareBehindColon(Join(segs), key, k, value, rest);
  }

  lemma BareBehindColon(body: string, key: string, k: nat, value: string, rest: string)
    requires StrStr(body, Pattern(key)) == Some(k) && k <= |body| && ':' !in key
    requires body[k..] == "\"" + key + "\"" + ([':'] + (value + rest))
    requires (value == "true" || value == "false") && rest != "" && EndsBare(rest[0])
    ensures Field(body, key) == Some(value)
  {
    BareValueIs(value, rest);
    assert "\"" + key + "\"" + ([':'] + (value + rest)) == "\"" + key + "\"" + [':'] + (value + rest);
    FieldBehindColon(body, key, k, "\"" + key + "\"", value + rest, Some(value));
  }

  lemma BareValueIs(value: string, rest: string)
    requires (value == "true" || value == "false") && rest != "" && EndsBare(rest[0])
    ensures FieldValue(SkipBlanks(value + rest)) == Some(value)
  {
    assert (value + rest)[0] == value[0];
    assert SkipBlanks(value + rest) == value + rest && (value + rest)[0] != '"';
    BareStops(value, rest);
  }

  lemma {:induction false} BareStops(value: string, rest: string)
    requires forall i :: 0 <= i < |value| ==> !EndsBare(value[i])
    requires rest != "" && EndsBare(rest[0])
    ensures BareValue(value + rest) == value
  {
    if value == "" {
      assert value + rest == rest;
    } else {
      assert (value + rest)[1..] == value[1..] + rest;
      BareStops(value[1..], rest);
    }
  }
}
