/** `export_to_pdf`: the two sections are drawn line by line on a canvas, top to bottom,
    starting a new page whenever the cursor falls below the bottom margin. */
module PdfExport {
  import opened PyText
  import opened Report

  /** The height of a US-letter page, in points. */
  const LetterHeight: int := 792
  /** The x coordinate of every string. */
  const Left: int := 30
  /** A heading, and the first line of a fresh page, sit this far below the top. */
  const Top: int := 30
  /** The cursor's distance below the top once the first heading is drawn. */
  const Start: int := 50
  /** A page ends once the cursor falls below this height. */
  const Bottom: int := 50
  /** How far the cursor drops after a line of a section. */
  const LineGap: int := 15
  /** How far the cursor drops after the second heading. */
  const HeadingGap: int := 20

  /** One `c.drawString(x, y, text)` call. */
  datatype Draw = Draw(x: int, y: int, text: string)

  /** The canvas: the strings drawn on each page; the last page is the one being drawn on. */
  class Canvas {
    const height: int
    var pages: seq<seq<Draw>>

    ghost predicate Valid()
      reads this
    {
      |pages| >= 1
    }

    /** A canvas of the given page height holding one empty page. */
    constructor (height: int)
      ensures Valid() && this.height == height && pages == [[]]
    {
      this.height := height;
      pages := [[]];
    }

    /** `c.drawString(x, y, text)`: adds the string to the current page. */
    method DrawString(x: int, y: int, text: string)
      requires Valid()
      modifies this
      ensures Valid()
      ensures pages == old(pages[..|pages| - 1]) + [old(pages[|pages| - 1]) + [Draw(x, y, text)]]
    {
      pages := pages[..|pages| - 1] + [pages[|pages| - 1] + [Draw(x, y, text)]];
    }

    /** `c.showPage()`: closes the current page and opens an empty one. */
    method ShowPage()
      requires Valid()
      modifies this
      ensures Valid()
      ensures pages == old(pages) + [[]]
    {
      pages := pages + [[]];
    }
  }

  /** One drawn string and whether a new page was started right after it. */
  datatype Step = Step(draw: Draw, breakAfter: bool)

  /** The strings drawn so far and the current cursor. */
  datatype Flow = Flow(steps: seq<Step>, y: int)

  /** One iteration of a section's loop: a blank line is skipped; any other line is drawn,
      stripped, at the cursor, which then drops by `LineGap`, and when it falls below
      `Bottom` a new page starts with the cursor at `height - Top`. */
  function Place(height: int, f: Flow, line: string): Flow {
    var item := Strip(line);
    if item == "" then f
    else
      var at := Draw(Left, f.y, item);
      if f.y - LineGap < Bottom then Flow(f.steps + [Step(at, true)], height - Top)
      else Flow(f.steps + [Step(at, false)], f.y - LineGap)
  }

  /** A section's loop over all its lines. */
  function PlaceAll(height: int, f: Flow, lines: seq<string>): Flow
    decreases |lines|
  {
    if lines == [] then f else Place(height, PlaceAll(height, f, lines[..|lines| - 1]), lines[|lines| - 1])
  }

  /** A heading drawn at height `y`; no page break follows a heading. */
  function Heading(text: string, y: int): Step {
    Step(Draw(Left, y, text), false)
  }

  /** Everything `export_to_pdf` draws, in order: the first heading at `height - Top`,
      the actionable lines from `height - Start` on, the second heading at the cursor,
      then, `HeadingGap` lower and with no page check in between, the risk lines. */
  function Layout(height: int, actionable: seq<string>, risk: seq<string>): seq<Step> {
    var first := PlaceAll(height, Flow([Heading(ActionableHeading, height - Top)], height - Start), actionable);
    var second := PlaceAll(height, Flow(first.steps + [Heading(RiskHeading, first.y)], first.y - HeadingGap), risk);
    second.steps
  }

  /** The drawn strings of the steps. */
  function Draws(steps: seq<Step>): seq<Draw> {
    seq(|steps|, k requires 0 <= k < |steps| => steps[k].draw)
  }

  /** The texts of the draws. */
  function Texts(draws: seq<Draw>): seq<string> {
    seq(|draws|, k requires 0 <= k < |draws| => draws[k].text)
  }

  /** The number of page breaks among the steps. */
  function Breaks(steps: seq<Step>): nat {
    if steps == [] then 0 else Breaks(steps[..|steps| - 1]) + (if steps[|steps| - 1].breakAfter then 1 else 0)
  }

  /** All pages' draws, first page first. */
  function Flatten(pages: seq<seq<Draw>>): seq<Draw> {
    if pages == [] then [] else Flatten(pages[..|pages| - 1]) + pages[|pages| - 1]
  }

  /** The lines a section draws: its lines stripped, blank ones left out, in order. */
  function Visible(lines: seq<string>): (vis: seq<string>)
    ensures |vis| <= |lines|
    ensures forall i :: 0 <= i < |vis| ==> vis[i] != ""
    ensures |vis| == 0 <==> forall i :: 0 <= i < |lines| ==> IsBlank(lines[i])
  {
    if lines == [] then []
    else
      var init, last := lines[..|lines| - 1], Strip(lines[|lines| - 1]);
      assert forall i :: 0 <= i < |init| ==> init[i] == lines[i];
      Visible(init) + (if last == "" then [] else [last])
  }

  /** The canvas pages the steps produce: each draw goes on the current page and each break
      opens a new one, so there is one page per break plus the last one. */
  function Paginate(steps: seq<Step>): (pages: seq<seq<Draw>>)
    ensures |pages| == 1 + Breaks(steps)
  {
    if steps == [] then [[]]
    else
      var prev := Paginate(steps[..|steps| - 1]);
      var s := steps[|steps| - 1];
      var drawn := prev[..|prev| - 1] + [prev[|prev| - 1] + [s.draw]];
      if s.breakAfter then drawn + [[]] else drawn
  }

  /** Which page each string lands on: the one numbered by the page breaks before it. */
  lemma {:induction false} PaginatePlacement(steps: seq<Step>)
    ensures var pages := Paginate(steps);
      forall k :: 0 <= k < |steps| ==>
        Breaks(steps[..k]) < |pages| && steps[k].draw in pages[Breaks(steps[..k])]
  {
    if steps != [] {
      var init, s := steps[..|steps| - 1], steps[|steps| - 1];
      assert steps == init + [s];
      PaginatePlacement(init);
      PaginateSnoc(init, s);
      var prev, pages := Paginate(init), Paginate(steps);
      assert forall p :: 0 <= p < |prev| - 1 ==> pages[p] == prev[p];
      assert pages[|prev| - 1] == prev[|prev| - 1] + [s.draw];
      forall k | 0 <= k < |steps|
        ensures Breaks(steps[..k]) < |pages| && steps[k].draw in pages[Breaks(steps[..k])]
      {
        if k < |init| {
          assert steps[..k] == init[..k] && steps[k] == init[k];
        } else {
          assert steps[..k] == init;
        }
      }
    }
  }

  /** The pages holding the drawn strings: the canvas pages without the last one when
      nothing was drawn on it after the final `showPage`. */
  function DrawnPages(pages: seq<seq<Draw>>): (drawn: seq<seq<Draw>>)
    ensures Flatten(drawn) == Flatten(pages)
    ensures |pages| - 1 <= |drawn| <= |pages|
  {
    if |pages| > 1 && pages[|pages| - 1] == [] then
      assert pages == pages[..|pages| - 1] + [[]];
      FlattenSnoc(pages[..|pages| - 1], []);
      pages[..|pages| - 1]
    else pages
  }

  /** One more step: its draw goes on the last page, and a break opens a new page. */
  lemma PaginateSnoc(steps: seq<Step>, s: Step)
    ensures var prev := Paginate(steps);
      var drawn := prev[..|prev| - 1] + [prev[|prev| - 1] + [s.draw]];
      Paginate(steps + [s]) == if s.breakAfter then drawn + [[]] else drawn
  {
    assert (steps + [s])[..|steps|] == steps;
  }

  /** One more line: the section's loop over a longer prefix runs one more iteration. */
  lemma PlaceAllSnoc(height: int, f: Flow, lines: seq<string>, i: nat)
    requires i < |lines|
    ensures PlaceAll(height, f, lines[..i + 1]) == Place(height, PlaceAll(height, f, lines[..i]), lines[i])
  {
    assert lines[..i + 1][..i] == lines[..i];
  }

  /** Flattening distributes over adding a page. */
  lemma FlattenSnoc(pages: seq<seq<Draw>>, page: seq<Draw>)
    ensures Flatten(pages + [page]) == Flatten(pages) + page
  {
    assert (pages + [page])[..|pages|] == pages;
  }

  /** Adding a draw to the last page, and possibly opening a new page, adds the draw at the
      end of the flattened pages. */
  lemma FlattenStep(prev: seq<seq<Draw>>, d: Draw, broke: bool)
    requires |prev| >= 1
    ensures var drawn := prev[..|prev| - 1] + [prev[|prev| - 1] + [d]];
      Flatten(if broke then drawn + [[]] else drawn) == Flatten(prev) + [d]
  {
    var closed, last := prev[..|prev| - 1], prev[|prev| - 1];
    var drawn := closed + [last + [d]];
    assert prev == closed + [last];
    FlattenSnoc(closed, last);
    FlattenSnoc(closed, last + [d]);
    FlattenSnoc(drawn, []);
  }

  /** The pages hold exactly the draws, in order. */
  lemma {:induction false} PaginateFlatten(steps: seq<Step>)
    ensures Flatten(Paginate(steps)) == Draws(steps)
  {
    if steps != [] {
      var init, s := steps[..|steps| - 1], steps[|steps| - 1];
      assert steps == init + [s];
      PaginateFlatten(init);
      PaginateSnoc(init, s);
      FlattenStep(Paginate(init), s.draw, s.breakAfter);
      assert Draws(steps) == Draws(init) + [s.draw];
    }
  }

  /** Every page but the last holds at least one draw. */
  lemma {:induction false} PaginateClosedPagesNonEmpty(steps: seq<Step>)
    ensures var pages := Paginate(steps); forall p :: 0 <= p < |pages| - 1 ==> pages[p] != []
  {
    if steps != [] {
      var init := steps[..|steps| - 1];
      var s := steps[|steps| - 1];
      assert steps == init + [s];
      PaginateClosedPagesNonEmpty(init);
      PaginateSnoc(init, s);
    }
  }

  /** Every drawn page holds a string, and there is one more of them than there are page
      breaks before the last step: a break right after the last string opens a page that
      stays empty. */
  lemma DrawnPagesCount(steps: seq<Step>)
    requires steps != []
    ensures var drawn := DrawnPages(Paginate(steps));
      |drawn| == 1 + Breaks(steps[..|steps| - 1]) && forall p :: 0 <= p < |drawn| ==> drawn[p] != []
  {
    var init, s := steps[..|steps| - 1], steps[|steps| - 1];
    assert steps == init + [s];
    PaginateSnoc(init, s);
    PaginateClosedPagesNonEmpty(steps);
  }

  /** One iteration of a section's loop on the canvas: skips a blank line, or draws it
      stripped at `y`, lowers the cursor and starts a new page below `Bottom`. `steps` is what
      has been drawn before; it is ghost, the canvas holds the real pages. */
  method DrawLine(c: Canvas, line: string, y: int, ghost steps: seq<Step>)
      returns (y': int, ghost steps': seq<Step>)
    requires c.Valid() && c.pages == Paginate(steps)
    modifies c
    ensures c.Valid() && c.pages == Paginate(steps')
    ensures Flow(steps', y') == Place(c.height, Flow(steps, y), line)
  {
    y', steps' := y, steps;
    var item := Strip(line);
    if item != "" {
      c.DrawString(Left, y, item);
      y' := y - LineGap;
      var broke := y' < Bottom;
      if broke {
        c.ShowPage();
        y' := c.height - Top;
      }
      PaginateSnoc(steps, Step(Draw(Left, y, item), broke));
      steps' := steps + [Step(Draw(Left, y, item), broke)];
    }
  }

  /** Draws one section on the canvas: the loop of `export_to_pdf` over a section's lines. */
  method DrawSection(c: Canvas, lines: seq<string>, y: int, ghost steps: seq<Step>)
      returns (y': int, ghost steps': seq<Step>)
    requires c.Valid() && c.pages == Paginate(steps)
    modifies c
    ensures c.Valid() && c.pages == Paginate(steps')
    ensures Flow(steps', y') == PlaceAll(c.height, Flow(steps, y), lines)
  {
    y', steps' := y, steps;
    for i := 0 to |lines|
      invariant c.Valid() && c.pages == Paginate(steps')
      invariant Flow(steps', y') == PlaceAll(c.height, Flow(steps, y), lines[..i])
    {
      PlaceAllSnoc(c.height, Flow(steps, y), lines, i);
      y', steps' := DrawLine(c, lines[i], y', steps');
    }
    assert lines[..|lines|] == lines;
  }

  /** The canvas pages after both sections' loops, each run from where the previous drawing
      left off, are the pages of the layout. */
  lemma PagesOfSections(height: int, actionable: seq<string>, risk: seq<string>, pages: seq<seq<Draw>>,
                        steps1: seq<Step>, y1: int, steps2: seq<Step>, y2: int)
    requires Flow(steps1, y1) == PlaceAll(height, Flow([Heading(ActionableHeading, height - Top)], height - Start), actionable)
    requires Flow(steps2, y2) == PlaceAll(height, Flow(steps1 + [Heading(RiskHeading, y1)], y1 - HeadingGap), risk)
    requires pages == Paginate(steps2)
    ensures pages == Paginate(Layout(height, actionable, risk))
  {
    LayoutOfSections(height, actionable, risk, steps1, y1, steps2, y2);
  }

  /** The two sections' loops, each run from where the previous drawing left off, give the
      layout's steps. */
  lemma LayoutOfSections(height: int, actionable: seq<string>, risk: seq<string>,
                         steps1: seq<Step>, y1: int, steps2: seq<Step>, y2: int)
    requires Flow(steps1, y1) == PlaceAll(height, Flow([Heading(ActionableHeading, height - Top)], height - Start), actionable)
    requires Flow(steps2, y2) == PlaceAll(height, Flow(steps1 + [Heading(RiskHeading, y1)], y1 - HeadingGap), risk)
    ensures steps2 == Layout(height, actionable, risk)
  {
  }

  /** Draws a heading at height `y` on the current page. */
  method DrawHeading(c: Canvas, text: string, y: int, ghost steps: seq<Step>) returns (ghost steps': seq<Step>)
    requires c.Valid() && c.pages == Paginate(steps)
    modifies c
    ensures c.Valid() && c.pages == Paginate(steps') && steps' == steps + [Heading(text, y)]
  {
    c.DrawString(Left, y, text);
    PaginateSnoc(steps, Heading(text, y));
    steps' := steps + [Heading(text, y)];
  }

  /** The body of `export_to_pdf`, given the two sections split into lines. */
  method DrawReport(height: int, actionable: seq<string>, risk: seq<string>) returns (c: Canvas)
    ensures fresh(c) && c.Valid() && c.height == height
    ensures c.pages == Paginate(Layout(height, actionable, risk))
  {
    c := new Canvas(height);
    ghost var steps0 := DrawHeading(c, ActionableHeading, height - Top, []);
    var y := height - Start;
    var y1;
    ghost var steps1;
    y1, steps1 := DrawSection(c, actionable, y, steps0);
    ghost var steps1h := DrawHeading(c, RiskHeading, y1, steps1);
    y := y1 - HeadingGap;
    var y2;
    ghost var steps2;
    y2, steps2 := DrawSection(c, risk, y, steps1h);
    PagesOfSections(height, actionable, risk, c.pages, steps1, y1, steps2, y2);
  }

  /** `export_to_pdf(actionable, risk_mitigation)` on pages of the given height, up to the
      serialisation of the canvas. */
  method ExportToPdf(height: int, actionable: string, risk: string) returns (c: Canvas)
    ensures fresh(c) && c.Valid() && c.height == height
    ensures c.pages == Paginate(Layout(height, Lines(actionable), Lines(risk)))
  {
    c := DrawReport(height, Lines(actionable), Lines(risk));
  }
}
