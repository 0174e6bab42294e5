/**
 * `text.replace(/<[^>]*>/g, '')`: every `<` that has a later `>` starts a
 * match running to the first such `>`, and the match is deleted; a `<` with no
 * `>` after it, and everything outside matches, is kept.
 */
module HtmlTags {

  /** No `<` in `s` is followed, anywhere later, by a `>`: the regex finds no match. */
  predicate NoTag(s: string) {
    forall i, j :: 0 <= i < j < |s| && s[i] == '<' ==> s[j] != '>'
  }

  /** The position of the first `>` at or after `from`. */
  function CloseAt(s: string, from: nat): (k: nat)
    requires from <= |s| && '>' in s[from..]
    ensures from <= k < |s| && s[k] == '>'
    ensures forall j :: from <= j < k ==> s[j] != '>'
    decreases |s| - from
  {
    if s[from] == '>' then from
    else
      assert s[from..] == [s[from]] + s[from + 1..];
      CloseAt(s, from + 1)
  }

  /** The text with every `<...>` match removed, scanning left to right. */
  function StripTags(s: string): (r: string)
    ensures |r| <= |s|
    decreases |s|
  {
    if s == [] then []
    else if s[0] == '<' && '>' in s[1..] then StripTags(s[CloseAt(s, 1) + 1..])
    else [s[0]] + StripTags(s[1..])
  }

  /** Stripping only deletes: every character of the result comes from the input. */
  lemma {:induction false} StripTagsChars(s: string)
    ensures forall c :: c in StripTags(s) ==> c in s
    decreases |s|
  {
    if s == [] {
    } else if s[0] == '<' && '>' in s[1..] {
      var rest := s[CloseAt(s, 1) + 1..];
      StripTagsChars(rest);
      assert forall c :: c in rest ==> c in s;
    } else {
      StripTagsChars(s[1..]);
      assert forall c :: c in s[1..] ==> c in s;
    }
  }

  lemma NoTagCons(c: char, t: string)
    requires NoTag(t)
    requires c == '<' ==> '>' !in t
    ensures NoTag([c] + t)
  {
    var s := [c] + t;
    forall i, j | 0 <= i < j < |s| && s[i] == '<'
      ensures s[j] != '>'
    {
      if i == 0 {
        assert s[j] == t[j - 1];
      } else {
        assert s[i] == t[i - 1] && s[j] == t[j - 1];
      }
    }
  }

  /** Nothing the regex could match survives stripping. */
  lemma {:induction false} StripTagsNoTag(s: string)
    ensures NoTag(StripTags(s))
    decreases |s|
  {
    if s == [] {
    } else if s[0] == '<' && '>' in s[1..] {
      StripTagsNoTag(s[CloseAt(s, 1) + 1..]);
    } else {
      StripTagsNoTag(s[1..]);
      StripTagsChars(s[1..]);
      NoTagCons(s[0], StripTags(s[1..]));
    }
  }

  /** Text without a match is left as it is. */
  lemma {:induction false} StripTagsIdentity(s: string)
    requires NoTag(s)
    ensures StripTags(s) == s
    decreases |s|
  {
    if s != [] {
      if s[0] == '<' {
        forall k | 1 <= k < |s| ensures s[k] != '>' { }
        assert '>' !in s[1..];
      }
      assert NoTag(s[1..]) by {
        forall i, j | 0 <= i < j < |s| - 1 && s[1..][i] == '<'
          ensures s[1..][j] != '>'
        {
          assert s[i + 1] == '<';
        }
      }
      StripTagsIdentity(s[1..]);
    }
  }

  /** Stripping twice is stripping once. */
  lemma StripTagsIdempotent(s: string)
    ensures StripTags(StripTags(s)) == StripTags(s)
  {
    StripTagsNoTag(s);
    StripTagsIdentity(StripTags(s));
  }

  /** Stripping changes a text exactly when the text holds a match. */
  lemma StripTagsFixpoint(s: string)
    ensures StripTags(s) == s <==> NoTag(s)
  {
    StripTagsNoTag(s);
    if NoTag(s) {
      StripTagsIdentity(s);
    }
  }

  /** Text without `<` never starts a match and is kept as it is. */
  lemma {:induction false} StripTagsKeep(p: string, t: string)
    requires '<' !in p
    ensures StripTags(p + t) == p + StripTags(t)
  {
    if p != [] {
      assert (p + t)[1..] == p[1..] + t;
      assert (p + t)[0] == p[0];
      StripTagsKeep(p[1..], t);
      assert [p[0]] + (p[1..] + StripTags(t)) == p + StripTags(t);
    } else {
      assert p + t == t;
    }
  }

  /** `t` is exactly one match of the pattern: `<`, then no `>`, then `>`. */
  predicate IsTag(t: string) {
    |t| >= 2 && t[0] == '<' && t[|t| - 1] == '>' && '>' !in t[..|t| - 1]
  }

  /** A complete tag at the front is one match and is deleted. */
  lemma StripTagsDrop(tag: string, t: string)
    requires IsTag(tag)
    ensures StripTags(tag + t) == StripTags(t)
  {
    var s := tag + t;
    assert s[1..][|tag| - 2] == '>';
    assert CloseAt(s, 1) == |tag| - 1 by {
      forall j | 1 <= j < |tag| - 1 ensures s[j] != '>' {
        assert s[j] == tag[..|tag| - 1][j];
      }
    }
    assert s[|tag|..] == t;
  }

  /**
   * Markup around plain text is removed, as `<b>bold</b> text` becomes
   * `bold text`: an opening tag, text free of `<`, a closing tag and more text
   * free of `<` strip to the two texts.
   */
  lemma StripTagsElement(open: string, word: string, close: string, tail: string)
    requires IsTag(open) && IsTag(close)
    requires '<' !in word && '<' !in tail
    ensures StripTags(open + word + close + tail) == word + tail
  {
    StripTagsKeep(tail, "");
    assert tail + "" == tail;
    StripTagsDrop(close, tail);
    StripTagsKeep(word, close + tail);
    StripTagsDrop(open, word + (close + tail));
    assert open + word + close + tail == open + (word + (close + tail));
  }

  /** `<b>` and `</b>` are tags. */
  lemma BoldTags()
    ensures IsTag("<b>") && IsTag("</b>")
  {
    assert "<b>"[..2] == "<b";
    assert "</b>"[..3] == "</b";
  }

  /** The bold example: `<b>bold</b> text` strips to `bold text`. */
  lemma StripTagsBold()
    ensures StripTags("<b>bold</b> text") == "bold text"
  {
    var open, word, close, tail := "<b>", "bold", "</b>", " text";
    assert StripTags(open + word + close + tail) == word + tail by {
      BoldTags();
      StripTagsElement(open, word, close, tail);
    }
    assert open + word + close + tail == "<b>bold</b> text";
    assert word + tail == "bold text";
  }

  /** A `<` with no `>` after it is ordinary text. */
  lemma StripTagsLoneAngle()
    ensures StripTags("1 < 2") == "1 < 2"
  {
    assert NoTag("1 < 2");
    StripTagsIdentity("1 < 2");
  }

  /** A snippet made only of markup strips to the empty string. */
  lemma StripTagsToEmpty()
    ensures StripTags("<b></b>") == ""
  {
    BoldTags();
    StripTagsDrop("</b>", "");
    StripTagsDrop("<b>", "</b>");
    assert "<b>" + "</b>" == "<b></b>";
    assert "</b>" + "" == "</b>";
  }
}
