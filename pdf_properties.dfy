/** What the PDF layout of `export_to_pdf` guarantees: the order of the drawn strings,
    the cursor and page-break rules, and where on the page strings can land. */
module PdfProperties {
  import opened PyText
  import opened Report
  import opened PdfExport

  /** Where the cursor goes after a line of a section has been drawn. */
  function After(height: int, s: Step): int {
    if s.breakAfter then height - Top else s.draw.y - LineGap
  }

  /** `run` is what one section's loop draws when it starts with the cursor at `y0`
      and leaves it at `y1`: each string is drawn at x = `Left` where the previous one left
      the cursor (the first at `y0`), and a break follows exactly the strings that took the
      cursor below `Bottom`. */
  ghost predicate ItemRun(height: int, y0: int, run: seq<Step>, y1: int)
    decreases |run|
  {
    if run == [] then y1 == y0
    else
      var last := run[|run| - 1];
      ItemRun(height, y0, run[..|run| - 1], last.draw.y) &&
      last.draw.x == Left && (last.breakAfter <==> last.draw.y - LineGap < Bottom) &&
      y1 == After(height, last)
  }

  /** One iteration of a section's loop, in terms of `After`. */
  lemma PlaceStep(height: int, f: Flow, line: string)
    ensures Strip(line) == "" ==> Place(height, f, line) == f
    ensures Strip(line) != "" ==>
      var s := Step(Draw(Left, f.y, Strip(line)), f.y - LineGap < Bottom);
      Place(height, f, line) == Flow(f.steps + [s], After(height, s))
  {
  }

  /** An item run extended by one string drawn where the run left the cursor. */
  lemma RunSnoc(height: int, y0: int, run: seq<Step>, y: int, s: Step)
    requires ItemRun(height, y0, run, y)
    requires s.draw.x == Left && s.draw.y == y && (s.breakAfter <==> y - LineGap < Bottom)
    ensures ItemRun(height, y0, run + [s], After(height, s))
  {
    assert (run + [s])[..|run|] == run;
  }

  /** The texts of steps with one more step. */
  lemma TextsSnoc(run: seq<Step>, s: Step)
    ensures Texts(Draws(run + [s])) == Texts(Draws(run)) + [s.draw.text]
  {
    assert Draws(run + [s]) == Draws(run) + [s.draw];
  }

  /** One iteration extends the run of what the loop has drawn since `f` by the line,
      stripped, unless the line is blank. */
  lemma PlaceExtendsRun(height: int, f: Flow, g0: Flow, line: string)
    requires |f.steps| <= |g0.steps| && g0.steps[..|f.steps|] == f.steps
    requires ItemRun(height, f.y, g0.steps[|f.steps|..], g0.y)
    ensures var g := Place(height, g0, line);
      |f.steps| <= |g.steps| && g.steps[..|f.steps|] == f.steps &&
      ItemRun(height, f.y, g.steps[|f.steps|..], g.y) &&
      Texts(Draws(g.steps[|f.steps|..])) ==
        Texts(Draws(g0.steps[|f.steps|..])) + (if Strip(line) == "" then [] else [Strip(line)])
  {
    PlaceStep(height, g0, line);
    var run0 := g0.steps[|f.steps|..];
    if Strip(line) != "" {
      var s := Step(Draw(Left, g0.y, Strip(line)), g0.y - LineGap < Bottom);
      var g := Place(height, g0, line);
      assert g0.steps == f.steps + run0;
      assert g.steps == f.steps + (run0 + [s]);
      assert g.steps[|f.steps|..] == run0 + [s];
      RunSnoc(height, f.y, run0, g0.y, s);
      TextsSnoc(run0, s);
    } else {
      assert Texts(Draws(run0)) + [] == Texts(Draws(run0));
    }
  }

  /** What a section's loop adds: the visible lines of the section, in order, drawn as an
      item run from the cursor it started with. */
  lemma {:induction false} PlaceAllRun(height: int, f: Flow, lines: seq<string>)
    ensures var g := PlaceAll(height, f, lines);
      |f.steps| <= |g.steps| && g.steps[..|f.steps|] == f.steps &&
      ItemRun(height, f.y, g.steps[|f.steps|..], g.y) &&
      Texts(Draws(g.steps[|f.steps|..])) == Visible(lines)
  {
    if lines == [] {
      assert f.steps[|f.steps|..] == [];
    } else {
      var init, last := lines[..|lines| - 1], lines[|lines| - 1];
      PlaceAllRun(height, f, init);
      PlaceExtendsRun(height, f, PlaceAll(height, f, init), last);
    }
  }

  /** A section's loop appends an item run to what was drawn before. */
  lemma SectionRun(height: int, before: seq<Step>, y: int, lines: seq<string>) returns (run: seq<Step>, y1: int)
    ensures PlaceAll(height, Flow(before, y), lines) == Flow(before + run, y1)
    ensures ItemRun(height, y, run, y1)
  {
    var g := PlaceAll(height, Flow(before, y), lines);
    PlaceAllRun(height, Flow(before, y), lines);
    run, y1 := g.steps[|before|..], g.y;
    assert g.steps == before + run;
  }

  /** What a section's loop appends shows the section's visible lines. */
  lemma SectionTexts(height: int, before: seq<Step>, y: int, lines: seq<string>, run: seq<Step>, y1: int)
    requires PlaceAll(height, Flow(before, y), lines) == Flow(before + run, y1)
    ensures Texts(Draws(run)) == Visible(lines)
  {
    PlaceAllRun(height, Flow(before, y), lines);
    assert (before + run)[|before|..] == run;
  }

  /** The layout is the first heading, the first section's run, the second heading where
      that run left the cursor, and the second section's run `HeadingGap` lower. */
  lemma LayoutParts(height: int, actionable: seq<string>, risk: seq<string>)
      returns (run1: seq<Step>, y1: int, run2: seq<Step>, y2: int)
    ensures var h1, h2 := Heading(ActionableHeading, height - Top), Heading(RiskHeading, y1);
      Layout(height, actionable, risk) == [h1] + run1 + [h2] + run2 &&
      PlaceAll(height, Flow([h1], height - Start), actionable) == Flow([h1] + run1, y1) &&
      PlaceAll(height, Flow([h1] + run1 + [h2], y1 - HeadingGap), risk) == Flow([h1] + run1 + [h2] + run2, y2)
    ensures ItemRun(height, height - Start, run1, y1)
    ensures ItemRun(height, y1 - HeadingGap, run2, y2)
  {
    var h1 := Heading(ActionableHeading, height - Top);
    run1, y1 := SectionRun(height, [h1], height - Start, actionable);
    var first := PlaceAll(height, Flow([h1], height - Start), actionable);
    assert first.steps == [h1] + run1 && first.y == y1;
    var h2 := Heading(RiskHeading, y1);
    run2, y2 := SectionRun(height, first.steps + [h2], y1 - HeadingGap, risk);
    var second := PlaceAll(height, Flow(first.steps + [h2], y1 - HeadingGap), risk);
    assert second.steps == first.steps + [h2] + run2;
    assert Layout(height, actionable, risk) == second.steps;
  }

  /** The draws of concatenated steps. */
  lemma DrawsAppend(s: seq<Step>, t: seq<Step>)
    ensures Draws(s + t) == Draws(s) + Draws(t)
  {
  }

  /** The texts of concatenated draws. */
  lemma TextsAppend(s: seq<Draw>, t: seq<Draw>)
    ensures Texts(s + t) == Texts(s) + Texts(t)
  {
  }

  /** The texts of a layout's steps, part by part. */
  lemma LayoutTexts(h1: Step, run1: seq<Step>, h2: Step, run2: seq<Step>)
    ensures Texts(Draws([h1] + run1 + [h2] + run2)) ==
      [h1.draw.text] + Texts(Draws(run1)) + [h2.draw.text] + Texts(Draws(run2))
  {
    DrawsAppend([h1] + run1 + [h2], run2);
    DrawsAppend([h1] + run1, [h2]);
    DrawsAppend([h1], run1);
    TextsAppend([h1.draw] + Draws(run1) + [h2.draw], Draws(run2));
    TextsAppend([h1.draw] + Draws(run1), [h2.draw]);
    TextsAppend([h1.draw], Draws(run1));
  }

  /** Concatenating the draws of all pages gives the first heading, the visible actionable
      lines, the second heading and the visible risk lines, in this order: whitespace-only
      lines are never drawn and nothing else is. */
  lemma DocumentOrder(height: int, actionable: seq<string>, risk: seq<string>)
    ensures Texts(Flatten(Paginate(Layout(height, actionable, risk)))) ==
      [ActionableHeading] + Visible(actionable) + [RiskHeading] + Visible(risk)
  {
    var run1, y1, run2, y2 := LayoutParts(height, actionable, risk);
    var h1, h2 := Heading(ActionableHeading, height - Top), Heading(RiskHeading, y1);
    SectionTexts(height, [h1], height - Start, actionable, run1, y1);
    SectionTexts(height, [h1] + run1 + [h2], y1 - HeadingGap, risk, run2, y2);
    PaginateFlatten(Layout(height, actionable, risk));
    LayoutTexts(h1, run1, h2, run2);
  }

  /** The steps of a layout by index: the first heading, the first run, the second heading,
      the second run. */
  lemma LayoutAt(h1: Step, run1: seq<Step>, h2: Step, run2: seq<Step>)
    ensures var steps, n1 := [h1] + run1 + [h2] + run2, 1 + |run1|;
      |steps| == 2 + |run1| + |run2| && steps[0] == h1 && steps[n1] == h2 &&
      (forall k :: 1 <= k < n1 ==> steps[k] == run1[k - 1]) &&
      (forall k :: n1 < k < |steps| ==> steps[k] == run2[k - n1 - 1])
  {
  }

  /** An item run by index: every string at x = `Left`, a break exactly after the strings
      that took the cursor below `Bottom`, each string where the previous one left the
      cursor, and the cursor left after the last string. */
  lemma {:induction false} RunFacts(height: int, y0: int, run: seq<Step>, y1: int)
    requires ItemRun(height, y0, run, y1)
    ensures run == [] ==> y1 == y0
    ensures run != [] ==> run[0].draw.y == y0 && y1 == After(height, run[|run| - 1])
    ensures forall k :: 0 <= k < |run| ==>
      run[k].draw.x == Left && (run[k].breakAfter <==> run[k].draw.y - LineGap < Bottom)
    ensures forall k, j :: 0 <= k && j == k + 1 && j < |run| ==> run[j].draw.y == After(height, run[k])
    decreases |run|
  {
    if run != [] {
      var init := run[..|run| - 1];
      RunFacts(height, y0, init, run[|run| - 1].draw.y);
      assert forall k :: 0 <= k < |init| ==> run[k] == init[k];
    }
  }

  /** With a page at least `Top + Bottom` high and a run starting between `Top` and
      `height - Top`, every string of the run lies between `Top` and `height - Top`, all
      but the first at or above `Bottom`, and so does the cursor it leaves. */
  lemma {:induction false} RunBounds(height: int, y0: int, run: seq<Step>, y1: int)
    requires ItemRun(height, y0, run, y1)
    requires Top + Bottom <= height && Top <= y0 <= height - Top
    ensures forall k :: 0 <= k < |run| ==> Top <= run[k].draw.y <= height - Top
    ensures forall k :: 0 <= k < |run| && (0 < k || Bottom <= y0) ==> Bottom <= run[k].draw.y
    ensures run == [] ==> y1 == y0
    ensures run != [] ==> Bottom <= y1 <= height - Top
    decreases |run|
  {
    if run != [] {
      var init, last := run[..|run| - 1], run[|run| - 1];
      RunBounds(height, y0, init, last.draw.y);
      assert forall k :: 0 <= k < |init| ==> run[k] == init[k];
    }
  }

  /** A run starts no new page exactly when it is empty or its last string, `LineGap` per
      string below `y0`, still leaves the cursor at or above `Bottom`; the cursor then ends
      `LineGap` per string below `y0`. */
  lemma {:induction false} RunFitsPage(height: int, y0: int, run: seq<Step>, y1: int)
    requires ItemRun(height, y0, run, y1)
    ensures Breaks(run) == 0 <==> (run != [] ==> y0 - LineGap * |run| >= Bottom)
    ensures Breaks(run) == 0 ==> y1 == y0 - LineGap * |run|
    decreases |run|
  {
    if run != [] {
      var init, last := run[..|run| - 1], run[|run| - 1];
      RunFitsPage(height, y0, init, last.draw.y);
    }
  }

  /** Page breaks add up over concatenation. */
  lemma {:induction false} BreaksAppend(s: seq<Step>, t: seq<Step>)
    ensures Breaks(s + t) == Breaks(s) + Breaks(t)
    decreases |t|
  {
    if t == [] {
      assert s + t == s;
    } else {
      var init := t[..|t| - 1];
      BreaksAppend(s, init);
      assert (s + t)[..|s + t| - 1] == s + init;
    }
  }

  /** Each section's run holds one step per visible line of the section. */
  lemma LayoutRuns(height: int, actionable: seq<string>, risk: seq<string>)
      returns (run1: seq<Step>, y1: int, run2: seq<Step>, y2: int)
    ensures Layout(height, actionable, risk) ==
      [Heading(ActionableHeading, height - Top)] + run1 + [Heading(RiskHeading, y1)] + run2
    ensures ItemRun(height, height - Start, run1, y1) && |run1| == |Visible(actionable)|
    ensures ItemRun(height, y1 - HeadingGap, run2, y2) && |run2| == |Visible(risk)|
  {
    run1, y1, run2, y2 := LayoutParts(height, actionable, risk);
    var h1, h2 := Heading(ActionableHeading, height - Top), Heading(RiskHeading, y1);
    SectionTexts(height, [h1], height - Start, actionable, run1, y1);
    SectionTexts(height, [h1] + run1 + [h2], y1 - HeadingGap, risk, run2, y2);
  }

  /** The cursor and page-break rules of the whole layout, with `n1` the index of the
      second heading: every string at x = `Left`, the first heading at `height - Top`; a
      new page starts only after an item (never after a heading) and exactly when that
      item left the cursor below `Bottom`; and the next string goes at `height - Top` after
      a break, `HeadingGap` lower after a heading, and `LineGap` lower after an item. */
  lemma LayoutCursor(height: int, actionable: seq<string>, risk: seq<string>)
    ensures var steps, n1 := Layout(height, actionable, risk), 1 + |Visible(actionable)|;
      |steps| == 2 + |Visible(actionable)| + |Visible(risk)| &&
      steps[0] == Heading(ActionableHeading, height - Top) &&
      steps[n1].draw.text == RiskHeading && !steps[n1].breakAfter &&
      (forall k :: 0 <= k < |steps| ==> steps[k].draw.x == Left) &&
      (forall k :: 0 <= k < |steps| ==>
        (steps[k].breakAfter <==> k != 0 && k != n1 && steps[k].draw.y - LineGap < Bottom)) &&
      (forall k, j :: 0 <= k && j == k + 1 && j < |steps| ==>
        steps[j].draw.y == if steps[k].breakAfter then height - Top
                           else steps[k].draw.y - (if k == 0 || k == n1 then HeadingGap else LineGap))
  {
    var run1, y1, run2, y2 := LayoutRuns(height, actionable, risk);
    RunsCursor(height, run1, y1, run2, y2);
  }

  /** `LayoutCursor` for two item runs laid out as in the document. */
  lemma RunsCursor(height: int, run1: seq<Step>, y1: int, run2: seq<Step>, y2: int)
    requires ItemRun(height, height - Start, run1, y1) && ItemRun(height, y1 - HeadingGap, run2, y2)
    ensures var steps, n1 := [Heading(ActionableHeading, height - Top)] + run1 + [Heading(RiskHeading, y1)] + run2, 1 + |run1|;
      steps[0] == Heading(ActionableHeading, height - Top) &&
      steps[n1].draw.text == RiskHeading && !steps[n1].breakAfter &&
      (forall k :: 0 <= k < |steps| ==> steps[k].draw.x == Left) &&
      (forall k :: 0 <= k < |steps| ==>
        (steps[k].breakAfter <==> k != 0 && k != n1 && steps[k].draw.y - LineGap < Bottom)) &&
      (forall k, j :: 0 <= k && j == k + 1 && j < |steps| ==>
        steps[j].draw.y == if steps[k].breakAfter then height - Top
                           else steps[k].draw.y - (if k == 0 || k == n1 then HeadingGap else LineGap))
  {
    var h1, h2 := Heading(ActionableHeading, height - Top), Heading(RiskHeading, y1);
    LayoutAt(h1, run1, h2, run2);
    RunFacts(height, height - Start, run1, y1);
    RunFacts(height, y1 - HeadingGap, run2, y2);
  }

  /** For two item runs laid out as in the document, no page break comes before the last
      step exactly when the first run fits above `Bottom` and, with two or more risk items,
      all of them but the last fit too, after the extra `HeadingGap`. */
  lemma RunsBreaks(height: int, run1: seq<Step>, y1: int, run2: seq<Step>, y2: int)
    requires ItemRun(height, height - Start, run1, y1) && ItemRun(height, y1 - HeadingGap, run2, y2)
    ensures var steps := [Heading(ActionableHeading, height - Top)] + run1 + [Heading(RiskHeading, y1)] + run2;
      Breaks(steps[..|steps| - 1]) == 0 <==>
        (|run1| > 0 ==> LineGap * |run1| <= height - Start - Bottom) &&
        (|run2| > 1 ==> LineGap * (|run1| + |run2| - 1) + HeadingGap <= height - Start - Bottom)
  {
    var h1, h2 := Heading(ActionableHeading, height - Top), Heading(RiskHeading, y1);
    var steps := [h1] + run1 + [h2] + run2;
    BreaksAppend([h1], run1);
    assert [h1][..0] == [] && [h2][..0] == [];
    assert Breaks([h1]) == 0 && Breaks([h2]) == 0;
    RunFitsPage(height, height - Start, run1, y1);
    if run2 == [] {
      assert steps[..|steps| - 1] == [h1] + run1;
    } else {
      var init2 := run2[..|run2| - 1];
      RunFitsPage(height, y1 - HeadingGap, init2, run2[|run2| - 1].draw.y);
      assert steps[..|steps| - 1] == [h1] + run1 + [h2] + init2;
      BreaksAppend([h1] + run1 + [h2], init2);
      BreaksAppend([h1] + run1, [h2]);
    }
  }

  /** All strings land on one page exactly when the actionable items fit above `Bottom`
      from `height - Start` on, `LineGap` apart, and, when there are at least two risk
      items, all risk items but the last fit too after the second heading's extra
      `HeadingGap`: a break after the very last item only opens a page that stays empty. */
  lemma OnePage(height: int, actionable: seq<string>, risk: seq<string>)
    ensures var na, nr := |Visible(actionable)|, |Visible(risk)|;
      |DrawnPages(Paginate(Layout(height, actionable, risk)))| == 1 <==>
        (na > 0 ==> LineGap * na <= height - Start - Bottom) &&
        (nr > 1 ==> LineGap * (na + nr - 1) + HeadingGap <= height - Start - Bottom)
  {
    var run1, y1, run2, y2 := LayoutRuns(height, actionable, risk);
    var steps := [Heading(ActionableHeading, height - Top)] + run1 + [Heading(RiskHeading, y1)] + run2;
    DrawnPagesCount(steps);
    RunsBreaks(height, run1, y1, run2, y2);
    assert |DrawnPages(Paginate(Layout(height, actionable, risk)))| == 1 + Breaks(steps[..|steps| - 1]);
  }

  /** So on a US-letter page all strings land on one page exactly when there are at most 46
      actionable items and either at most one risk item or at most 45 items in all. */
  lemma LetterOverflow(actionable: seq<string>, risk: seq<string>)
    ensures var na, nr := |Visible(actionable)|, |Visible(risk)|;
      |DrawnPages(Paginate(Layout(LetterHeight, actionable, risk)))| == 1 <==>
        na <= 46 && (nr <= 1 || na + nr <= 45)
  {
    OnePage(LetterHeight, actionable, risk);
  }

  /** The bounds of a layout made of two item runs, the first starting at `height - Start`
      and the second `HeadingGap` below where the first ended. */
  lemma RunsBounds(height: int, run1: seq<Step>, y1: int, run2: seq<Step>, y2: int)
    requires Start + Bottom <= height
    requires ItemRun(height, height - Start, run1, y1) && ItemRun(height, y1 - HeadingGap, run2, y2)
    ensures var steps, n1 := [Heading(ActionableHeading, height - Top)] + run1 + [Heading(RiskHeading, y1)] + run2, 1 + |run1|;
      (forall k :: 0 <= k < |steps| ==> Top <= steps[k].draw.y <= height - Top) &&
      (forall k :: 0 <= k < |steps| && k != n1 + 1 ==> Bottom <= steps[k].draw.y)
  {
    RunBounds(height, height - Start, run1, y1);
    assert Bottom <= y1 <= height - Top;
    RunBounds(height, y1 - HeadingGap, run2, y2);
    var steps := [Heading(ActionableHeading, height - Top)] + run1 + [Heading(RiskHeading, y1)] + run2;
    var n1 := 1 + |run1|;
    forall k | 0 <= k < |steps|
      ensures Top <= steps[k].draw.y <= height - Top
      ensures k != n1 + 1 ==> Bottom <= steps[k].draw.y
    {
      if 0 < k < n1 {
        assert steps[k] == run1[k - 1];
      } else if n1 < k {
        assert steps[k] == run2[k - n1 - 1];
      }
    }
  }

  /** Where strings land, on a page at least `Start + Bottom` high: every string between
      `Top` and `height - Top`, and at or above `Bottom` except the first risk item, which
      the unchecked `HeadingGap` drop after the second heading can put lower. */
  lemma LayoutBounds(height: int, actionable: seq<string>, risk: seq<string>)
    requires Start + Bottom <= height
    ensures var steps, n1 := Layout(height, actionable, risk), 1 + |Visible(actionable)|;
      (forall k :: 0 <= k < |steps| ==> Top <= steps[k].draw.y <= height - Top) &&
      (forall k :: 0 <= k < |steps| && k != n1 + 1 ==> Bottom <= steps[k].draw.y)
  {
    var run1, y1, run2, y2 := LayoutRuns(height, actionable, risk);
    RunsBounds(height, run1, y1, run2, y2);
  }

  /** The exception to `Bottom` happens: on a page `Start + Bottom` high with an empty
      actionable section, the second heading sits at `Bottom` and the risk item below it at
      `Top`, after which a new page starts. */
  lemma LowRiskItem()
    ensures Layout(Start + Bottom, [""], ["r"]) ==
      [Heading(ActionableHeading, 70), Heading(RiskHeading, 50), Step(Draw(Left, 30, "r"), true)]
  {
    assert Strip("") == "" && Strip("r") == "r" by {
      assert LeadingSpaces("") == 0;
      assert LeadingSpaces("r") == 0 && TrailingStart("r") == 1;
    }
    var h1 := Heading(ActionableHeading, 70);
    assert PlaceAll(100, Flow([h1], 50), [""]) == Flow([h1], 50) by {
      assert [""][..0] == [];
    }
    assert PlaceAll(100, Flow([h1, Heading(RiskHeading, 50)], 30), ["r"]) ==
      Flow([h1, Heading(RiskHeading, 50), Step(Draw(Left, 30, "r"), true)], 70) by {
      assert ["r"][..0] == [];
    }
  }

  /** The exception on a US-letter page: after 46 actionable items the second heading sits at
      52 and the first risk item, 20 lower, at 32, below `Bottom`. */
  lemma LetterLowRiskItem(actionable: seq<string>, risk: seq<string>)
    ensures |Visible(actionable)| == 46 && Visible(risk) != [] ==>
      var steps := Layout(LetterHeight, actionable, risk);
      |steps| > 48 && steps[47].draw.text == RiskHeading && steps[47].draw.y == 52 &&
      steps[48].draw.y == 32 && steps[48].draw.y < Bottom
  {
    if |Visible(actionable)| == 46 && Visible(risk) != [] {
      var run1, y1, run2, y2 := LayoutRuns(LetterHeight, actionable, risk);
      var h1, h2 := Heading(ActionableHeading, LetterHeight - Top), Heading(RiskHeading, y1);
      RunFitsPage(LetterHeight, LetterHeight - Start, run1, y1);
      RunFacts(LetterHeight, y1 - HeadingGap, run2, y2);
      LayoutAt(h1, run1, h2, run2);
    }
  }
}
