/** Why the DDL check of a function body needs the body to fit the buffer (rule_program.c). */
module SkippedPieces {
  import opened Core
  import opened Program
  import opened Text

  /** The same list of pieces with other characters in them. */
  ghost predicate SameShape(a: seq<Option<string>>, b: seq<Option<string>>) {
    && |a| == |b|
    && forall i :: 0 <= i < |a| ==> a[i].Some? == b[i].Some? && (a[i].Some? ==> |a[i].value| == |b[i].value|)
  }

  /** For these piece lengths the check finds a keyword in the buffer exactly when the body contains one. */
  ghost predicate DetectsFor(items: seq<Option<string>>, size: nat) {
    forall b :: SameShape(items, b) ==> (MentionsDdl(AddItems("", b, size)) <==> MentionsDdl(Source(b)))
  }

  lemma {:induction false} SourceLength(a: seq<Option<string>>, b: seq<Option<string>>)
    requires SameShape(a, b)
    ensures |Source(a)| == |Source(b)|
  {
    if a != [] {
      SourceLength(a[1..], b[1..]);
    }
  }

  /** What is skipped depends on lengths only. */
  lemma {:induction false} GreedyLength(acc: string, acc': string, a: seq<Option<string>>, b: seq<Option<string>>, size: nat)
    requires SameShape(a, b) && |acc| == |acc'|
    ensures |AddItems(acc, a, size)| == |AddItems(acc', b, size)|
    decreases |a|
  {
    if a != [] {
      assert a[0].Some? == b[0].Some?;
      GreedyLength(AddPiece(acc, a[0], size), AddPiece(acc', b[0], size), a[1..], b[1..], size);
    }
  }

  /** When something is missing, some piece that is not empty was skipped. */
  lemma {:induction false} FindSkipped(acc: string, items: seq<Option<string>>, size: nat) returns (i: nat)
    requires AddItems(acc, items, size) != acc + Source(items)
    ensures i < |items| && items[i].Some? && items[i].value != ""
    ensures |AddItems(acc, items[..i], size)| + |items[i].value| + 1 >= size
    decreases |items|
  {
    assert acc + "" == acc;
    var next := AddPiece(acc, items[0], size);
    if items[0].Some? && items[0].value != "" && next == acc {
      i := 0;
    } else {
      assert next + Source(items[1..]) == acc + Source(items);
      var j := FindSkipped(next, items[1..], size);
      i := j + 1;
      assert items[..i][1..] == items[1..][..j];
    }
  }

  /** Cuts `text` into pieces as long as those of `items`. */
  function Refill(items: seq<Option<string>>, text: string): seq<Option<string>>
    requires |text| == |Source(items)|
  {
    if items == [] then []
    else if items[0].None? then [None] + Refill(items[1..], text)
    else
      var n := |items[0].value|;
      [Some(text[..n])] + Refill(items[1..], text[n..])
  }

  lemma {:induction false} RefillIs(items: seq<Option<string>>, text: string)
    requires |text| == |Source(items)|
    ensures SameShape(items, Refill(items, text)) && Source(Refill(items, text)) == text
  {
    if items != [] {
      var n := if items[0].Some? then |items[0].value| else 0;
      RefillIs(items[1..], text[n..]);
      assert text[0..] == text && text == text[..n] + text[n..];
      var rest := Refill(items[1..], text[n..]);
      assert Refill(items, text)[1..] == rest;
      forall k | 0 < k < |items|
        ensures var b := Refill(items, text);
                items[k].Some? == b[k].Some? && (items[k].Some? ==> |items[k].value| == |b[k].value|)
      {
        assert items[k] == items[1..][k - 1] && Refill(items, text)[k] == rest[k - 1];
      }
    }
  }

  lemma {:induction false} SourceAppend(a: seq<Option<string>>, b: seq<Option<string>>)
    ensures Source(a + b) == Source(a) + Source(b)
  {
    if a == [] {
      assert a + b == b;
    } else {
      assert (a + b)[1..] == a[1..] + b;
      SourceAppend(a[1..], b);
    }
  }

  // ---- counting letters --------------------------------------------------------------------

  function Letters(s: string): (n: nat)
    ensures n <= |s|
  {
    if s == "" then 0 else (if s[0] == '-' then 0 else 1) + Letters(s[1..])
  }

  lemma {:induction false} LettersAppend(a: string, b: string)
    ensures Letters(a + b) == Letters(a) + Letters(b)
  {
    if a == "" {
      assert a + b == b;
    } else {
      assert (a + b)[1..] == a[1..] + b;
      LettersAppend(a[1..], b);
    }
  }

  lemma {:induction false} AllLetters(s: string)
    requires forall i :: 0 <= i < |s| ==> s[i] != '-'
    ensures Letters(s) == |s|
  {
    if s != "" {
      AllLetters(s[1..]);
    }
  }

  lemma {:induction false} NoLetters(n: nat)
    ensures Letters(Dashes(n)) == 0
  {
    if n > 0 {
      assert Dashes(n)[1..] == Dashes(n - 1);
      NoLetters(n - 1);
    }
  }

  function Dashes(n: nat): string {
    seq(n, _ => '-')
  }

  lemma {:induction false} LettersKept(acc: string, items: seq<Option<string>>, size: nat)
    ensures Letters(AddItems(acc, items, size)) <= Letters(acc) + Letters(Source(items))
    decreases |items|
  {
    if items != [] {
      var piece := if items[0].Some? then items[0].value else "";
      LettersKept(AddPiece(acc, items[0], size), items[1..], size);
      LettersAppend(acc, piece);
      LettersAppend(piece, Source(items[1..]));
    }
  }

  lemma {:induction false} CharsKept(acc: string, items: seq<Option<string>>, size: nat, c: char)
    requires c in AddItems(acc, items, size)
    ensures c in acc || c in Source(items)
    decreases |items|
  {
    if items != [] {
      CharsKept(AddPiece(acc, items[0], size), items[1..], size, c);
    }
  }

  lemma LettersOfParts(before: seq<Option<string>>, x: Option<string>, after: seq<Option<string>>)
    requires x.Some?
    ensures Letters(Source(before + ([x] + after))) == Letters(Source(before)) + (Letters(x.value) + Letters(Source(after)))
  {
    SourceAppend(before, [x] + after);
    assert ([x] + after)[1..] == after;
    LettersAppend(Source(before), Source([x] + after));
    LettersAppend(x.value, Source(after));
  }

  lemma SkippedInside(before: seq<Option<string>>, x: Option<string>, after: seq<Option<string>>, size: nat)
    requires x.Some? && |AddItems("", before, size)| + |x.value| + 1 >= size
    ensures AddItems("", before + ([x] + after), size) == AddItems(AddItems("", before, size), after, size)
  {
    AddItemsAppend("", before, [x] + after, size);
    assert ([x] + after)[1..] == after;
  }

  /** The letters of a skipped piece are lost. */
  lemma LettersLost(items: seq<Option<string>>, i: nat, size: nat)
    requires i < |items| && items[i].Some? && |AddItems("", items[..i], size)| + |items[i].value| + 1 >= size
    ensures Letters(AddItems("", items, size)) + Letters(items[i].value) <= Letters(Source(items))
  {
    var before, after := items[..i], items[i + 1..];
    assert items == before + ([items[i]] + after);
    SkippedInside(before, items[i], after, size);
    LettersOfParts(before, items[i], after);
    LettersKept("", before, size);
    LettersKept(AddItems("", before, size), after, size);
  }

  // ---- texts of dashes around one keyword ----------------------------------------------------

  const WORD := "truncate"

  function Around(w: nat, n: nat): string
    requires w + |WORD| <= n
  {
    Dashes(w) + WORD + Dashes(n - w - |WORD|)
  }

  lemma AroundLetters(w: nat, n: nat)
    requires w + |WORD| <= n
    ensures Letters(Around(w, n)) == |WORD|
  {
    NoLetters(w);
    NoLetters(n - w - |WORD|);
    AllLetters(WORD);
    LettersAppend(Dashes(w), WORD);
    LettersAppend(Dashes(w) + WORD, Dashes(n - w - |WORD|));
  }

  lemma AroundIs(w: nat, n: nat)
    requires w + |WORD| <= n
    ensures |Around(w, n)| == n && ' ' !in Around(w, n)
    ensures Around(w, n)[w..w + |WORD|] == WORD
    ensures forall i :: w <= i < w + |WORD| ==> Around(w, n)[i] != '-'
  {
    var t := Around(w, n);
    assert t[w..w + |WORD|] == WORD;
    forall i | w <= i < w + |WORD| ensures t[i] != '-' {
      assert t[i] == WORD[i - w];
    }
  }

  lemma AroundMentions(w: nat, n: nat)
    requires w + |WORD| <= n
    ensures MentionsDdl(Around(w, n))
  {
    AroundIs(w, n);
    assert OccursNoCaseAt(Around(w, n), WORD, w) && WORD == DDL_KEYWORDS[3] && WORD in DDL_KEYWORDS;
  }

  lemma KeywordNeedsSpace(text: string, k: string, i: int)
    requires OccursNoCaseAt(text, k, i) && k != "" && k[|k| - 1] == ' '
    ensures ' ' in text
  {
    var j := |k| - 1;
    assert Lower(text[i..i + |k|][j]) == Lower(k[j]);
    assert text[i + j] == ' ';
  }

  lemma WordNeedsLetters(text: string, i: int)
    requires OccursNoCaseAt(text, WORD, i)
    ensures Letters(text) >= |WORD|
  {
    var m := text[i..i + |WORD|];
    forall j | 0 <= j < |m| ensures m[j] != '-' {
      assert Lower(m[j]) == Lower(WORD[j]) && Lower('-') == '-';
    }
    AllLetters(m);
    assert text == text[..i] + m + text[i + |WORD|..];
    LettersAppend(text[..i], m);
    LettersAppend(text[..i] + m, text[i + |WORD|..]);
  }

  lemma NoKeyword(text: string)
    requires ' ' !in text && Letters(text) < |WORD|
    ensures !MentionsDdl(text)
  {
    forall k, i | k in DDL_KEYWORDS
      ensures !OccursNoCaseAt(text, k, i)
    {
      if OccursNoCaseAt(text, k, i) {
        if k == WORD {
          WordNeedsLetters(text, i);
        } else {
          assert k == DDL_KEYWORDS[0] || k == DDL_KEYWORDS[1] || k == DDL_KEYWORDS[2];
          KeywordNeedsSpace(text, k, i);
        }
      }
    }
  }

  // ---- the exact condition ------------------------------------------------------------------------

  lemma LetterIn(s: string, k: nat)
    requires k < |s| && s[k] != '-'
    ensures Letters(s) >= 1
  {
    assert s == s[..k] + ([s[k]] + s[k + 1..]);
    LettersAppend(s[..k], [s[k]] + s[k + 1..]);
  }

  /** A keyword laid across a skipped piece is in the body and not in the buffer. */
  lemma HiddenKeyword(items: seq<Option<string>>, size: nat) returns (b: seq<Option<string>>)
    requires size >= 10 && |Source(items)| + 1 >= size
    ensures SameShape(items, b) && MentionsDdl(Source(b)) && !MentionsDdl(AddItems("", b, size))
  {
    GreedyStaysShort("", items, size);
    var i := FindSkipped("", items, size);
    var n, p := |Source(items)|, |Source(items[..i])|;
    SourceParts(items, i);
    var w := if p + |WORD| <= n then p else n - |WORD|;
    var text := Around(w, n);
    AroundIs(w, n);
    AroundLetters(w, n);
    AroundMentions(w, n);
    b := Refill(items, text);
    RefillIs(items, text);
    SourceParts(b, i);
    SourceLength(items[..i], b[..i]);
    assert text[p] == b[i].value[0];
    LetterIn(b[i].value, 0);
    GreedyLength("", "", items[..i], b[..i], size);
    LettersLost(b, i, size);
    if ' ' in AddItems("", b, size) {
      CharsKept("", b, size, ' ');
    }
    NoKeyword(AddItems("", b, size));
  }

  lemma SourceParts(items: seq<Option<string>>, i: nat)
    requires i < |items| && items[i].Some?
    ensures Source(items) == Source(items[..i]) + (items[i].value + Source(items[i + 1..]))
  {
    assert items == items[..i] + ([items[i]] + items[i + 1..]) && ([items[i]] + items[i + 1..])[1..] == items[i + 1..];
    SourceAppend(items[..i], [items[i]] + items[i + 1..]);
  }

  /**
   * For given piece lengths the check is right about every body exactly when all pieces fit: otherwise
   * some body of these lengths contains a keyword that the buffer does not.
   */
  lemma DetectsIff(items: seq<Option<string>>, size: nat)
    requires size >= 10
    ensures DetectsFor(items, size) <==> |Source(items)| + 1 < size
  {
    if |Source(items)| + 1 < size {
      forall b | SameShape(items, b)
        ensures AddItems("", b, size) == Source(b)
      {
        SourceLength(items, b);
        GreedyKeepsAll("", b, size);
        assert "" + Source(b) == Source(b);
      }
    } else {
      var b := HiddenKeyword(items, size);
    }
  }
}
