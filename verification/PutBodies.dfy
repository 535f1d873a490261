/** PUT bodies with one field, in any layout that JSON allows (api_route.c). */
module PutBodies {
  import opened Core
  import opened Registry
  import opened Text
  import opened JsonField
  import opened RuleText

  /** Insignificant whitespace of JSON (section 2 of RFC 8259). */
  predicate Space(s: string) {
    forall i :: 0 <= i < |s| ==> s[i] == ' ' || s[i] == '\t' || s[i] == '\n' || s[i] == '\r'
  }

  /** The whitespace that the scanner skips. */
  predicate OneLine(s: string) {
    '\n' !in s && '\r' !in s
  }

  // ---- texts in which a key does not occur -------------------------------------------------------

  lemma OccursShifted(lead: string, tail: string, p: string, i: nat)
    requires i >= |lead|
    ensures OccursAt(lead + tail, p, i) <==> OccursAt(tail, p, i - |lead|)
  {
    var t := lead + tail;
    if i + |p| <= |t| {
      assert t[i..i + |p|] == tail[i - |lead|..i - |lead| + |p|];
    }
  }

  lemma TwoQuotes(tail: string, key: string)
    requires QuoteFree(tail)
    ensures !OccursAt("\"" + tail, "\"" + key + "\"", 0)
  {
    var t, p := "\"" + tail, "\"" + key + "\"";
    if |p| <= |t| {
      assert t[0..|p|][|p| - 1] == t[|p| - 1] == tail[|p| - 2];
      assert p[|p| - 1] == '"' && tail[|p| - 2] in tail;
    }
  }

  /** A quoted key occurs only as a whole segment between two quotes. */
  lemma {:induction false} NoMatchAnywhere(segs: seq<string>, key: string, k: nat)
    requires segs != [] && AllQuoteFree(segs) && QuoteFree(key)
    requires forall i :: 1 <= i < |segs| - 1 ==> segs[i] != key
    ensures !OccursAt(Join(segs), "\"" + key + "\"", k)
    decreases |segs|
  {
    var p := "\"" + key + "\"";
    if |segs| == 1 {
      if k + |p| <= |segs[0]| {
        assert segs[0][k..k + |p|][0] == segs[0][k] && segs[0][k] in segs[0];
      }
    } else {
      var tail := Join(segs[1..]);
      assert Join(segs) == segs[0] + ("\"" + tail);
      NoMatchInLead(segs[0], "\"" + tail, key);
      if k == |segs[0]| {
        OccursShifted(segs[0], "\"" + tail, p, k);
        if |segs| == 2 {
          TwoQuotes(tail, key);
        } else {
          assert segs[1..][1..] == segs[2..];
          NoMatchAtQuote(segs[1], Join(segs[2..]), key);
          assert "\"" + tail == "\"" + segs[1] + "\"" + Join(segs[2..]);
        }
      } else if k > |segs[0]| {
        NoMatchAnywhere(segs[1..], key, k - |segs[0]| - 1);
        OccursShifted(segs[0] + "\"", tail, p, k);
        assert segs[0] + "\"" + tail == Join(segs);
      }
    }
  }

  lemma NoField(segs: seq<string>, key: string)
    requires segs != [] && AllQuoteFree(segs) && QuoteFree(key) && |key| < 60
    requires forall i :: 1 <= i < |segs| - 1 ==> segs[i] != key
    ensures Field(Join(segs), key) == None
  {
    forall k: nat ensures !OccursAt(Join(segs), "\"" + key + "\"", k) {
      NoMatchAnywhere(segs, key, k);
    }
    StrStrFromIsFirst(Join(segs), "\"" + key + "\"", 0);
  }

  function OneField(a: string, key: string, b: string, v: string): string {
    "{" + a + "\"" + key + "\"" + (b + [':'] + v)
  }

  // ---- blanks behind the colon ---------------------------------------------------------------------

  /** Behind the colon the scanner skips spaces and tabs; a line break is taken for the value. */
  lemma {:induction false} BlanksSkipped(blanks: string, rest: string)
    requires Space(blanks) && rest != "" && !Blank(rest[0])
    ensures OneLine(blanks) ==> SkipBlanks(blanks + rest) == rest
    ensures !OneLine(blanks) ==> var t := SkipBlanks(blanks + rest); t != "" && (t[0] == '\n' || t[0] == '\r')
    decreases |blanks|
  {
    if blanks == "" {
      assert blanks + rest == rest;
    } else {
      assert (blanks + rest)[1..] == blanks[1..] + rest;
      assert blanks == [blanks[0]] + blanks[1..];
      if Blank(blanks[0]) {
        BlanksSkipped(blanks[1..], rest);
      }
    }
  }

  /** The first key with what stands behind its colon. */
  lemma FieldAfterKey(lead: string, key: string, before: string, v: string)
    requires QuoteFree(lead) && QuoteFree(key) && |key| < 60 && ':' !in key && ':' !in before
    ensures Field(lead + "\"" + key + "\"" + (before + [':'] + v), key) == FieldValue(SkipBlanks(v))
  {
    var rest := before + [':'] + v;
    KeyFound(lead, key, rest);
    KeyInFront(key, before, v);
    FieldBehindColon(lead + ("\"" + key + "\"" + rest), key, |lead|, "\"" + key + "\"" + before, v, FieldValue(SkipBlanks(v)));
    Moved(lead, key, rest);
  }

  lemma KeyInFront(key: string, before: string, v: string)
    ensures "\"" + key + "\"" + (before + [':'] + v) == "\"" + key + "\"" + before + [':'] + v
    ensures ':' !in key && ':' !in before ==> ':' !in "\"" + key + "\"" + before
  {
    var p := "\"" + key + "\"";
    assert p + (before + [':'] + v) == p + before + [':'] + v;
  }

  lemma Moved(lead: string, key: string, rest: string)
    ensures lead + "\"" + key + "\"" + rest == lead + ("\"" + key + "\"" + rest)
  {
    assert lead + "\"" + key + "\"" == lead + ("\"" + key + "\"");
  }

  lemma KeyFound(lead: string, key: string, rest: string)
    requires QuoteFree(lead) && |key| < 60
    ensures var p, body := "\"" + key + "\"", lead + ("\"" + key + "\"" + rest);
            StrStr(body, Pattern(key)) == Some(|lead|) && |lead| <= |body| && body[|lead|..] == p + rest
  {
    var p := "\"" + key + "\"";
    NoMatchInLead(lead, p + rest, key);
    assert OccursAt(p + rest, p, 0);
    ShiftedMatch(lead, p + rest, p, 0);
    StrStrIs(lead + (p + rest), p, |lead|);
  }

  // ---- the switch alone --------------------------------------------------------------------------------

  function SwitchBody(a: string, b: string, c: string, word: string, d: string): string {
    OneField(a, "enabled", b, c + (word + (d + "}")))
  }

  lemma SpaceHasNoMarks(s: string)
    requires Space(s)
    ensures '"' !in s && ':' !in s && forall i :: 0 <= i < |s| ==> !EndsBare(s[i])
  {
  }

  /** A value that starts with a line break is neither a switch nor a level. */
  lemma LineBreakIsNoValue(t: string)
    requires t != "" && (t[0] == '\n' || t[0] == '\r')
    ensures FieldValue(t).Some? && !ParseBool(FieldValue(t).value) && ParseLevel(FieldValue(t).value).None?
  {
    var v := BareValue(t);
    assert v[0] == t[0] && Lower(v[0]) == t[0];
  }

  /** A bare JSON token: no whitespace and none of the marks. */
  predicate Token(word: string) {
    word != "" && forall i :: 0 <= i < |word| ==> word[i] > ' ' && word[i] != '"' && word[i] != ':' && !EndsBare(word[i])
  }

  /** The words that switch a rule on. */
  predicate Affirms(word: string) {
    CaseEqual(word, "true") || word == "1"
  }

  lemma TrailingSpace(word: string, d: string)
    requires Token(word) && Space(d) && d != ""
    ensures !ParseBool(word + d)
  {
    var t := word + d;
    assert t[|t| - 1] == d[|d| - 1] && Lower(t[|t| - 1]) == t[|t| - 1];
  }

  lemma BareSwitch(c: string, word: string, d: string)
    requires Space(c) && Space(d) && Token(word)
    ensures var v := FieldValue(SkipBlanks(c + (word + (d + "}"))));
            v.Some? && (ParseBool(v.value) <==> Affirms(word) && OneLine(c) && d == "")
  {
    var rest := word + (d + "}");
    assert rest[0] == word[0];
    BlanksSkipped(c, rest);
    if OneLine(c) {
      assert rest == (word + d) + "}";
      BareStops(word + d, "}");
      assert SkipBlanks(c + rest) == rest && rest[0] != '"';
      if d == "" {
        assert word + d == word;
      } else {
        TrailingSpace(word, d);
      }
    } else {
      LineBreakIsNoValue(SkipBlanks(c + rest));
    }
  }

  lemma SwitchSegments(a: string, b: string, c: string, word: string, d: string) returns (segs: seq<string>)
    requires Space(a) && Space(b) && Space(c) && Space(d) && Token(word)
    ensures |segs| == 3 && segs[1] == "enabled" && Join(segs) == SwitchBody(a, b, c, word, d) && AllQuoteFree(segs)
  {
    var last := b + [':'] + (c + (word + (d + "}")));
    segs := ["{" + a, "enabled", last];
    SpaceHasNoMarks(a);
    SpaceHasNoMarks(b);
    SpaceHasNoMarks(c);
    SpaceHasNoMarks(d);
    assert segs[1..] == ["enabled", last] && segs[1..][1..] == [last];
    assert Join(segs[1..]) == "enabled" + "\"" + last;
    Regroup("{" + a + "\"", "enabled", "\"", last);
  }

  lemma NoLevel(a: string, b: string, c: string, word: string, d: string)
    requires Space(a) && Space(b) && Space(c) && Space(d) && Token(word)
    ensures Field(SwitchBody(a, b, c, word, d), "level") == None
  {
    var segs := SwitchSegments(a, b, c, word, d);
    NoField(segs, "level");
  }

  /** The scanner's value for the key of a body with one field. */
  lemma OnlyField(a: string, key: string, b: string, v: string)
    requires Space(a) && Space(b) && QuoteFree(key) && |key| < 60 && ':' !in key
    ensures Field(OneField(a, key, b, v), key) == FieldValue(SkipBlanks(v))
  {
    SpaceHasNoMarks(a);
    SpaceHasNoMarks(b);
    FieldAfterKey("{" + a, key, b, v);
  }

  /**
   * PUT of a switch alone, any bare token with any whitespace around it: always taken, and the level stays. The rule
   * is switched on exactly when the token is `true` or 1, stands on the line of its colon, and nothing stands between
   * it and the closing brace; otherwise it is switched off, also by `true`.
   */
  lemma SwitchAlone(now: RuleConfig, a: string, b: string, c: string, word: string, d: string)
    requires Space(a) && Space(b) && Space(c) && Space(d) && Token(word)
    ensures PutConfig(now, SwitchBody(a, b, c, word, d)) == Some(RuleConfig(Affirms(word) && OneLine(c) && d == "", now.level))
  {
    OnlyField(a, "enabled", b, c + (word + (d + "}")));
    BareSwitch(c, word, d);
    NoLevel(a, b, c, word, d);
  }

  // ---- the level alone -----------------------------------------------------------------------------------

  function LevelBody(a: string, b: string, c: string, level: string, d: string): string {
    OneField(a, "level", b, c + ("\"" + level + "\"" + (d + "}")))
  }

  lemma QuotedLevel(c: string, level: string, rest: string)
    requires Space(c) && QuoteFree(level)
    ensures var v := FieldValue(SkipBlanks(c + ("\"" + level + "\"" + rest)));
            v.Some? && ParseLevel(v.value) == if OneLine(c) then ParseLevel(level) else None
  {
    var text := "\"" + level + "\"" + rest;
    assert text[0] == '"' && SkipBlanks(text) == text;
    BlanksSkipped(c, text);
    QuotedValue(level, rest);
    if !OneLine(c) {
      LineBreakIsNoValue(SkipBlanks(c + text));
    }
  }

  lemma LevelSegments(a: string, b: string, c: string, level: string, d: string) returns (segs: seq<string>)
    requires Space(a) && Space(b) && Space(c) && Space(d) && QuoteFree(level)
    ensures segs == ["{" + a, "level", b + [':'] + c, level, d + "}"]
    ensures Join(segs) == LevelBody(a, b, c, level, d) && AllQuoteFree(segs)
  {
    var mid, last := b + [':'] + c, d + "}";
    segs := ["{" + a, "level", mid, level, last];
    SpaceHasNoMarks(a);
    SpaceHasNoMarks(b);
    SpaceHasNoMarks(c);
    SpaceHasNoMarks(d);
    assert segs[1..] == ["level", mid, level, last] && segs[1..][1..] == [mid, level, last];
    assert [mid, level, last][1..] == [level, last] && [level, last][1..] == [last];
    assert Join([level, last]) == level + "\"" + last;
    assert Join([mid, level, last]) == mid + "\"" + (level + "\"" + last);
    assert mid + "\"" + (level + "\"" + last) == b + [':'] + (c + ("\"" + level + "\"" + last));
    var text := b + [':'] + (c + ("\"" + level + "\"" + last));
    assert Join(["level", mid, level, last]) == "level" + "\"" + text;
    Regroup("{" + a + "\"", "level", "\"", text);
  }

  lemma KeyIsNoLevel(s: string)
    requires s == "enabled"
    ensures ParseLevel(s).None?
  {
    assert |s| == |"WARNING"| && Lower(s[0]) != Lower("WARNING"[0]);
  }

  lemma NoSwitch(a: string, b: string, c: string, level: string, d: string)
    requires Space(a) && Space(b) && Space(c) && Space(d) && QuoteFree(level) && level != "enabled"
    ensures Field(LevelBody(a, b, c, level, d), "enabled") == None
  {
    var segs := LevelSegments(a, b, c, level, d);
    assert ':' in segs[2];
    NoField(segs, "enabled");
  }

  /**
   * PUT of a level alone, with any whitespace around it: the switch stays, and the level is taken when it is one
   * of the three and stands on the line of its colon; otherwise the body is refused.
   */
  lemma LevelAlone(now: RuleConfig, a: string, b: string, c: string, level: string, d: string)
    requires Space(a) && Space(b) && Space(c) && Space(d) && QuoteFree(level)
    ensures PutConfig(now, LevelBody(a, b, c, level, d))
         == if OneLine(c) && ParseLevel(level).Some? then Some(RuleConfig(now.enabled, ParseLevel(level).value)) else None
  {
    var body := LevelBody(a, b, c, level, d);
    OnlyField(a, "level", b, c + ("\"" + level + "\"" + (d + "}")));
    QuotedLevel(c, level, d + "}");
    if level == "enabled" {
      KeyIsNoLevel(level);
    } else {
      NoSwitch(a, b, c, level, d);
    }
    PutOfLevel(now, body, Field(body, "level").value);
  }

  lemma PutOfLevel(now: RuleConfig, body: string, l: string)
    requires Field(body, "level") == Some(l) && (Field(body, "enabled") == None || ParseLevel(l).None?)
    ensures PutConfig(now, body) == if ParseLevel(l).Some? then Some(RuleConfig(now.enabled, ParseLevel(l).value)) else None
  {
  }
}
