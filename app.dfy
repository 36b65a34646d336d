/** The Streamlit page's top-level `if` chain: scrape the URL, analyse the text, and offer
    the results for download in the chosen format. Widgets, messages and the download
    button's bytes are not modelled; only which branch is reached and what it exports. */
module App {
  import opened Wrappers
  import opened PyText
  import opened Report
  import opened Scraper
  import opened Analyzer
  import ExcelExport
  import PdfExport

  /** The branch the page ends in: the "enter a URL" info, the "no data" warning, the
      "no actionable items" warning, or the results with the export options. */
  datatype Outcome = AskForUrl | NoData | NoResults | Results(analysis: Analysis)

  /** The two entries of the export format select box. */
  datatype ExportFormat = Excel | Pdf

  /** What the download button offers: its file name and the document behind its bytes. */
  datatype Download =
    | Spreadsheet(fileName: string, rows: seq<ExcelExport.Row>)
    | Document(fileName: string, pages: seq<seq<PdfExport.Draw>>)

  const ExcelFileName: string := "analysis_results.xlsx"
  const PdfFileName: string := "analysis_results.pdf"

  /** The `if` chain for one run of the page. `custom` is the text-area content (`""` when
      left empty), `fetch(url)` the paragraph texts of the fetched page (`None` when the
      request fails) and `gen` the generation service. Python truthiness decides each test:
      an empty string counts as missing. */
  function Run(url: string, custom: string, model: string,
               fetch: string -> Option<seq<string>>, gen: Service): (o: Outcome)
    ensures o.Results? <==>
      url != "" && Scrape(fetch(url)).Some? && Scrape(fetch(url)).value != "" &&
      Generate(Scrape(fetch(url)).value, model, Some(custom), gen).Some? &&
      Generate(Scrape(fetch(url)).value, model, Some(custom), gen).value.actionable != "" &&
      Generate(Scrape(fetch(url)).value, model, Some(custom), gen).value.risk != ""
    ensures o.Results? ==> o.analysis == Generate(Scrape(fetch(url)).value, model, Some(custom), gen).value
  {
    if url == "" then AskForUrl
    else
      match Scrape(fetch(url))
      case None => NoData
      case Some(text) =>
        if text == "" then NoData
        else
          match Generate(text, model, Some(custom), gen)
          case None => NoResults
          case Some(a) => if a.actionable != "" && a.risk != "" then Results(a) else NoResults
  }

  /** Which branch is reached, in terms of the inputs: the info without a URL; "no data"
      when the request fails or every paragraph of the page is blank; "no results" when the
      text is there but a generation call fails or an answer is blank. */
  lemma Gating(url: string, custom: string, model: string,
               fetch: string -> Option<seq<string>>, gen: Service)
    ensures Run(url, custom, model, fetch, gen) == AskForUrl <==> url == ""
    ensures Run(url, custom, model, fetch, gen) == NoData <==>
      url != "" && (fetch(url).None? || forall i :: 0 <= i < |fetch(url).value| ==> IsBlank(fetch(url).value[i]))
    ensures Run(url, custom, model, fetch, gen) == NoResults <==>
      url != "" && fetch(url).Some? && ParagraphText(fetch(url).value) != "" &&
      var g := Generate(ParagraphText(fetch(url).value), model, Some(custom), gen);
      g.None? || g.value.actionable == "" || g.value.risk == ""
  {
    var s := Scrape(fetch(url));
    assert s.Some? ==> (s.value == "" <==> forall i :: 0 <= i < |fetch(url).value| ==> IsBlank(fetch(url).value[i]));
  }

  /** Without text to analyse the generation service is never consulted: the outcome is the
      same whatever it would answer. */
  lemma NoDataNoGeneration(url: string, custom: string, model: string, fetch: string -> Option<seq<string>>,
                           gen1: Service, gen2: Service)
    requires url == "" || Scrape(fetch(url)).None? || Scrape(fetch(url)).value == ""
    ensures Run(url, custom, model, fetch, gen1) == Run(url, custom, model, fetch, gen2)
  {
  }

  /** Without a URL nothing is fetched: the outcome is the same whatever the page holds. */
  lemma NoUrlNoFetch(custom: string, model: string, fetch1: string -> Option<seq<string>>,
                     fetch2: string -> Option<seq<string>>, gen: Service)
    ensures Run("", custom, model, fetch1, gen) == Run("", custom, model, fetch2, gen)
  {
  }

  /** Shown and exported results are stripped and non-empty. */
  lemma ResultsShape(url: string, custom: string, model: string,
                     fetch: string -> Option<seq<string>>, gen: Service)
    requires Run(url, custom, model, fetch, gen).Results?
    ensures var a := Run(url, custom, model, fetch, gen).analysis;
      a.actionable != "" && a.risk != "" &&
      Strip(a.actionable) == a.actionable && Strip(a.risk) == a.risk
  {
    AnswersStripped(Scrape(fetch(url)).value, model, Some(custom), gen);
  }

  /** With a custom prompt, what the page says does not matter once it says anything: two
      pages with text give the same outcome. */
  lemma CustomPromptIgnoresPage(url: string, custom: string, model: string, fetch1: string -> Option<seq<string>>,
                                fetch2: string -> Option<seq<string>>, gen: Service)
    requires custom != ""
    requires Scrape(fetch1(url)).Some? && Scrape(fetch1(url)).value != ""
    requires Scrape(fetch2(url)).Some? && Scrape(fetch2(url)).value != ""
    ensures Run(url, custom, model, fetch1, gen) == Run(url, custom, model, fetch2, gen)
  {
    CustomPromptIgnoresText(Scrape(fetch1(url)).value, Scrape(fetch2(url)).value, model, Some(custom), gen);
  }

  /** One run of the page up to the download button: the outcome, and, only on results, the
      file the chosen format exports — the worksheet's rows or the letter-size canvas's pages
      that `save()` writes out, i.e. without an empty page left open by a final `showPage`.
      The model is one of the select box's options. */
  method Present(url: string, custom: string, model: string, format: ExportFormat,
                 fetch: string -> Option<seq<string>>, gen: Service)
      returns (o: Outcome, file: Option<Download>)
    requires model in ModelOptions
    ensures o == Run(url, custom, model, fetch, gen)
    ensures file.Some? <==> o.Results?
    ensures o.Results? && format == Excel ==>
      file.value == Spreadsheet(ExcelFileName, ExcelExport.SheetRows(Lines(o.analysis.actionable), Lines(o.analysis.risk)))
    ensures o.Results? && format == Pdf ==>
      file.value == Document(PdfFileName, PdfExport.DrawnPages(PdfExport.Paginate(PdfExport.Layout(
        PdfExport.LetterHeight, Lines(o.analysis.actionable), Lines(o.analysis.risk)))))
  {
    o := Run(url, custom, model, fetch, gen);
    file := None;
    if o.Results? {
      var a := o.analysis;
      match format
      case Excel =>
        var ws := ExcelExport.ExportToExcel(a.actionable, a.risk);
        file := Some(Spreadsheet(ExcelFileName, ws.rows));
      case Pdf =>
        var c := PdfExport.ExportToPdf(PdfExport.LetterHeight, a.actionable, a.risk);
        file := Some(Document(PdfFileName, PdfExport.DrawnPages(c.pages)));
    }
  }
}
