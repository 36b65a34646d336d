/** The text extraction of `scrape_data`: the page's paragraph texts, as the HTML parser
    returns them, are reduced to one string. */
module Scraper {
  import opened Wrappers
  import opened PyText

  /** The paragraph texts the list comprehension keeps: those whose `strip()` is non-empty,
      in document order and NOT trimmed. */
  function Kept(texts: seq<string>): (kept: seq<string>)
    ensures |kept| <= |texts|
    ensures forall i :: 0 <= i < |kept| ==> !IsBlank(kept[i])
    ensures forall t :: t in kept <==> t in texts && !IsBlank(t)
  {
    if texts == [] then []
    else (if IsBlank(texts[0]) then [] else [texts[0]]) + Kept(texts[1..])
  }

  /** `' '.join([p for p in paragraphs if p.strip()])`. */
  function ParagraphText(texts: seq<string>): (text: string)
    ensures text == "" <==> forall i :: 0 <= i < |texts| ==> IsBlank(texts[i])
  {
    var kept := Kept(texts);
    assert kept != [] ==> Join(kept, " ") != "" by {
      if kept != [] {
        JoinStartsWithFirst(kept, " ");
      }
    }
    assert kept == [] ==> forall i :: 0 <= i < |texts| ==> IsBlank(texts[i]) by {
      forall i | 0 <= i < |texts| && kept == [] ensures IsBlank(texts[i]) {
        assert texts[i] in texts;
      }
    }
    Join(kept, " ")
  }

  /** `scrape_data`: a failed fetch is `None`; a fetched page gives its paragraph text, which
      is empty exactly when no paragraph holds anything but whitespace. */
  function Scrape(fetched: Option<seq<string>>): (text: Option<string>)
    ensures text.Some? <==> fetched.Some?
    ensures text.Some? ==> text.value == ParagraphText(fetched.value)
    ensures text.Some? ==> (text.value == "" <==> forall i :: 0 <= i < |fetched.value| ==> IsBlank(fetched.value[i]))
  {
    match fetched
    case None => None
    case Some(paragraphs) => Some(ParagraphText(paragraphs))
  }

  /** Filtering keeps document order: it distributes over concatenation. */
  lemma {:induction false} KeptAppend(xs: seq<string>, ys: seq<string>)
    ensures Kept(xs + ys) == Kept(xs) + Kept(ys)
  {
    if xs == [] {
      assert xs + ys == ys;
    } else {
      assert (xs + ys)[1..] == xs[1..] + ys;
      KeptAppend(xs[1..], ys);
    }
  }

  /** One more paragraph: a blank one changes nothing; a non-blank one is appended as it is,
      after a single space unless it is the first kept paragraph. */
  lemma ParagraphTextSnoc(texts: seq<string>, t: string)
    ensures ParagraphText(texts + [t]) ==
      if IsBlank(t) then ParagraphText(texts)
      else if Kept(texts) == [] then t
      else ParagraphText(texts) + " " + t
  {
    KeptAppend(texts, [t]);
    assert Kept([t]) == (if IsBlank(t) then [] else [t]) by {
      assert [t][1..] == [];
    }
    if IsBlank(t) {
      assert Kept(texts) + [] == Kept(texts);
    } else {
      JoinSnoc(Kept(texts), t, " ");
    }
  }

  /** The joined text is the kept paragraphs plus one separator between each neighbouring pair. */
  lemma ParagraphTextLength(texts: seq<string>)
    requires Kept(texts) != []
    ensures |ParagraphText(texts)| == TotalLength(Kept(texts)) + |Kept(texts)| - 1
  {
    JoinLength(Kept(texts), " ");
  }
}
