# A2.py: web page analysis and export, modelled in Dafny

`A2.py` is a Streamlit page that works in four steps:

- it fetches a URL and joins the page's paragraph texts into one string;
- it asks a Gemini model twice for a list, once for actionable items and once for risk mitigations;
- it shows both answers;
- it offers them for download as an Excel workbook or a letter-size PDF.

This project models the deterministic parts of that pipeline and proves what they guarantee:

- **`PyText`**: the Python string operations the page relies on:
  - `str.strip()` over a fixed whitespace set;
  - `str.split` on one character, keeping empty pieces;
  - `sep.join`.
- **`Scraper`**: the paragraph join in `scrape_data`. The HTML parser's output is taken as a sequence of paragraph texts. A failed request is `None`.
- **`Analyzer`**: prompt selection (`custom_prompt or template`) and the two generation calls of `generate_actionable_risk_mitigation`.
  - The generation service is a function parameter `gen(call, model, prompt)`.
  - `call` numbers the request (1, then 2), because a sampling model need not answer the same prompt the same way twice.
  - `gen` returns `None` where the call raises.
- **`Report`**: the two section headings, and `text.split('\n')` as `Lines`.
- **`ExcelExport`**: `export_to_excel` as a `Worksheet` class whose `rows` grow by `Append`.
  - The two `for` loops are `AppendLines`.
  - The whole row sequence is the function `SheetRows`.
- **`PdfExport`**: `export_to_pdf` as a `Canvas` class.
  - The class holds the pages drawn so far; `DrawString` adds to the last page and `ShowPage` opens a new one.
  - The cursor `y` is a local of the drawing methods, as in the source.
  - The methods are proved against `Layout`, a specification that lists every drawn string together with a flag for whether a page break follows it.
  - `Paginate` groups such a list into pages.
- **`PdfProperties`**: what that layout guarantees:
  - the order of the drawn strings;
  - the cursor and page-break rules;
  - when one page suffices;
  - the bounds within which strings land.
- **`App`**: the top-level `if` chain, which ends in the "enter a URL" info, the "no data" warning, the "no results" warning, or the results with their export.

`scrape_data` strips only in the filter at A2.py:43; the kept paragraph texts are joined unmodified, so `Scraper.Kept` keeps them untrimmed.

## Model

| member | source | states |
|---|---|---|
| PyText.LeadingSpaces | A2.py:84 | the count of leading whitespace characters: that prefix is whitespace only and the next character is not whitespace |
| PyText.TrailingStart | A2.py:84 | where the trailing whitespace starts: the suffix is whitespace only and the character before it is not whitespace |
| PyText.Strip | A2.py:84 | `strip()` is no longer than its input, is empty exactly when the input is whitespace only, and otherwise starts and ends with non-whitespace |
| PyText.StripSlice | A2.py:84 | the stripped text is a slice of the input, and what is cut off on either side is whitespace only |
| PyText.StripUnique | A2.py:84 | any slice that removes only surrounding whitespace and is bounded by non-whitespace is the stripped text |
| PyText.StripIdempotent | A2.py:60 | stripping an already stripped answer changes nothing |
| PyText.IsBlank | A2.py:108 | `not s.strip()`, the truthiness tests at A2.py:43, 108 and 119: the string holds whitespace only; `PyText.Strip` states `strip()` is empty exactly when `IsBlank` holds |
| PyText.Join | A2.py:43 | Python's `sep.join`; its properties are `PyText.JoinLength`, `PyText.JoinStartsWithFirst`, `PyText.JoinSnoc`, `PyText.JoinInjective` and the round trip of `PyText.Split` and `PyText.SplitJoin` |
| PyText.Split | A2.py:83 | `split` gives one more piece than there are separators, no piece contains the separator, and joining the pieces with it gives the text back |
| PyText.SplitJoin | A2.py:83 | splitting the join of a non-empty list of separator-free pieces gives those pieces back |
| PyText.JoinInjective | A2.py:83 | two non-empty lists of separator-free pieces with the same join are equal |
| PyText.JoinLength | A2.py:43 | joining n pieces adds exactly n - 1 separators |
| PyText.JoinStartsWithFirst | A2.py:43 | the joined text begins with the first piece |
| PyText.JoinSnoc | A2.py:43 | joining one more piece appends the separator and that piece, or gives the piece alone when it is the first |
| Report.Lines | A2.py:83 | a text with k line feeds has k + 1 lines, empty ones included, and the lines rejoined with line feeds are the text |
| Scraper.Kept | A2.py:43 | the kept texts are exactly the non-blank ones, none of them blank, and no more than the input |
| Scraper.KeptAppend | A2.py:43 | filtering keeps document order: it distributes over concatenation |
| Scraper.ParagraphText | A2.py:43 | the joined text is empty exactly when every paragraph is blank |
| Scraper.ParagraphTextSnoc | A2.py:43 | one more paragraph changes nothing when blank, and otherwise is appended untrimmed, after a single space unless it is the first kept one |
| Scraper.ParagraphTextLength | A2.py:43 | the joined text is the kept texts plus kept - 1 one-character separators |
| Scraper.Scrape | A2.py:36-47 | a failed request gives no text; a fetched page gives its paragraph text, empty exactly when every paragraph is blank |
| Analyzer.PromptOr | A2.py:55 | the custom prompt is used when it is present and non-empty, the template otherwise |
| Analyzer.Template | A2.py:55-66 | the shared triple-quoted template: its length, the list subject right after the introduction, and the page text verbatim after the outro |
| Analyzer.ActionableTemplate | A2.py:55-58 | the first call's template is `Template` with the subject "actionable items"; its properties are `Analyzer.Template` and `Analyzer.TemplatePrompts` |
| Analyzer.RiskTemplate | A2.py:63-66 | the second call's template is `Template` with the subject "risk mitigations"; its properties are `Analyzer.Template` and `Analyzer.TemplatePrompts` |
| Analyzer.ActionablePrompt | A2.py:55 | the first call's prompt is the custom prompt when it is truthy, the actionable-items template otherwise |
| Analyzer.RiskPrompt | A2.py:63 | the second call's prompt is the custom prompt when it is truthy, the risk-mitigations template otherwise |
| Analyzer.TemplatePrompts | A2.py:55-66 | with no or an empty custom prompt each call gets its own template, both templates embed the page text verbatim at the same offset, and the two prompts differ |
| Analyzer.CustomPromptUsedTwice | A2.py:55-66 | with a non-empty custom prompt both calls send exactly that prompt |
| Analyzer.Generate | A2.py:50-73 | the analysis exists exactly when the first and the second call both succeed, and then holds their answers stripped |
| Analyzer.CustomPromptIgnoresText | A2.py:55-68 | with a custom prompt the page text is never sent: the analysis is the same whatever text was scraped |
| Analyzer.AnswersStripped | A2.py:60-68 | both answers come back free of surrounding whitespace |
| ExcelExport.Worksheet.constructor | A2.py:77-78 | the active sheet of a new workbook has no rows |
| ExcelExport.Worksheet.Append | A2.py:82 | in this model `ws.append(row)` always succeeds, adding the row below the last one and changing nothing else (openpyxl's cell checks are under Left out) |
| ExcelExport.LineRows | A2.py:83-84 | one row per line, in order, each holding its line stripped |
| ExcelExport.SheetRows | A2.py:82-90 | the specification of the sheet's rows: first heading, the actionable lines' rows, the empty row, second heading, the risk lines' rows; what it holds row by row is stated by SheetLayout |
| ExcelExport.AppendLines | A2.py:83-84 | the loop appends exactly the rows of the lines, in order, and keeps the title |
| ExcelExport.ExportToExcel | A2.py:76-96 | the sheet is titled "Analysis Results" and its rows are the sheet rows of the two texts' lines |
| ExcelExport.RowsAt | A2.py:82-90 | each row of the sheet, by index: heading, first section, empty row, heading, second section |
| ExcelExport.SheetLayout | A2.py:82-90 | the rows are the first heading, one stripped line per actionable line, the empty row, the second heading, one stripped line per risk line, so there are 3 + lines(actionable) + lines(risk) rows |
| ExcelExport.SheetRowCount | A2.py:83-90 | a section with k line feeds gives k + 1 rows, and an empty section still gives one `[""]` row |
| ExcelExport.BlankLinesKept | A2.py:83-90 | a section row is `[""]` exactly when its line is blank, so blank lines are never dropped |
| ExcelExport.FirstColumn | A2.py:82-90 | the first-column value of each row, "" for a row without cells |
| ExcelExport.FirstColumnOfStrippedLines | A2.py:83-84 | the first column of the rows of already stripped lines is those lines |
| ExcelExport.SectionSlices | A2.py:82-90 | the two sections occupy rows 1 .. na and na + 3 onwards |
| ExcelExport.SheetRecoversText | A2.py:82-90 | when no line carries surrounding whitespace, each section's first column joined with line feeds gives back its text |
| ExcelExport.ExampleLines | A2.py:83 | "A\nB" splits into "A", "B", and "C" into "C" |
| ExcelExport.ExampleStrips | A2.py:84 | the example lines are unchanged by `strip()` |
| ExcelExport.ExampleRows | A2.py:83-84 | the rows of the example lines |
| ExcelExport.SheetExample | A2.py:82-90 | the texts "A\nB" and "C" give the rows Actionable Items, A, B, an empty row, Risk Mitigations, C |
| PdfExport.Canvas.constructor | A2.py:101 | a new canvas holds one empty page of the given height |
| PdfExport.Canvas.DrawString | A2.py:105 | `drawString` adds the draw to the current page and leaves the other pages alone |
| PdfExport.Canvas.ShowPage | A2.py:112 | `showPage` closes the current page and opens an empty one |
| PdfExport.Place | A2.py:108-113 | the specification of one loop iteration: a blank line adds nothing; otherwise the stripped line is drawn at the cursor, which drops by 15, and below 50 a page break follows and the cursor goes to height - 30; PdfProperties.PlaceStep states it |
| PdfExport.PlaceAll | A2.py:107-113 | the specification of a section's loop, one iteration per line in order; PdfProperties.PlaceAllRun states what it adds |
| PdfExport.Heading | A2.py:105-116 | both heading draws, at A2.py:105 and A2.py:116: a heading string at x = 30 and the given height, never followed by a page break |
| PdfExport.Layout | A2.py:104-124 | the specification of everything drawn: first heading at height - 30, the actionable loop from height - 50, the second heading at the cursor, the risk loop 20 lower; DocumentOrder, LayoutCursor and LayoutBounds state its properties |
| PdfExport.Visible | A2.py:108-109 | the lines a section draws are at most its lines, none of them empty, and there are none exactly when every line is blank |
| PdfExport.Paginate | A2.py:105-124 | the canvas pages are one per page break plus the open one |
| PdfExport.DrawnPages | A2.py:111-113 | dropping an open page left empty by a final `showPage` keeps every drawn string, in order, and removes at most one page |
| PdfExport.DrawnPagesCount | A2.py:111-113 | every drawn page holds a string, and there is one more drawn page than page breaks before the last string |
| PdfExport.PaginateSnoc | A2.py:109-113 | one more draw goes on the last page, and a break after it opens a new page |
| PdfExport.PlaceAllSnoc | A2.py:107-113 | the loop over one more line runs one more iteration |
| PdfExport.FlattenSnoc | A2.py:105-124 | flattening distributes over adding a page |
| PdfExport.FlattenStep | A2.py:109-113 | a draw on the last page, followed or not by a new page, appends that draw to the flattened pages |
| PdfExport.PaginateFlatten | A2.py:105-124 | the pages hold exactly the drawn strings, in drawing order |
| PdfExport.PaginatePlacement | A2.py:109-113 | each string is drawn on the page numbered by the page breaks taken before it |
| PdfExport.PaginateClosedPagesNonEmpty | A2.py:109-113 | every page but the last holds at least one string |
| PdfExport.DrawLine | A2.py:108-113 | one iteration on the canvas skips a blank line or draws it stripped at y, lowers y by 15 and starts a new page at y < 50 with y reset to height - 30, exactly as the layout does |
| PdfExport.DrawSection | A2.py:107-113 | the loop over a section's lines leaves the canvas holding the pages of the layout's steps, and the cursor where the layout leaves it |
| PdfExport.DrawHeading | A2.py:105 | a heading is drawn at y on the current page with no break after it |
| PdfExport.LayoutOfSections | A2.py:104-124 | the two loops, each started where the previous drawing left the cursor, give the layout |
| PdfExport.PagesOfSections | A2.py:104-124 | the canvas pages after both loops are the pages of the layout |
| PdfExport.DrawReport | A2.py:104-124 | the canvas ends holding the pages of the layout of the two sections' lines |
| PdfExport.ExportToPdf | A2.py:99-128 | the canvas pages are the pages of the layout of the two texts split on line feeds |
| PdfProperties.PlaceStep | A2.py:108-113 | an iteration leaves a blank line out, and otherwise draws it stripped at the cursor, with a break exactly when the cursor falls below 50 |
| PdfProperties.RunSnoc | A2.py:108-113 | a draw at the cursor, with the break rule, extends a section's run |
| PdfProperties.TextsSnoc | A2.py:109 | one more step adds its text |
| PdfProperties.PlaceExtendsRun | A2.py:107-113 | one iteration extends the section's run by the stripped line unless the line is blank |
| PdfProperties.PlaceAllRun | A2.py:107-113 | a section's loop adds a run whose texts are the section's visible lines |
| PdfProperties.SectionRun | A2.py:107-113 | a section's loop appends a run to what was drawn before |
| PdfProperties.SectionTexts | A2.py:107-113 | what a section's loop appends shows that section's visible lines |
| PdfProperties.LayoutParts | A2.py:104-124 | the layout is the first heading, the first run, the second heading where that run left the cursor, and the second run 20 lower |
| PdfProperties.DrawsAppend | A2.py:105-124 | the draws of concatenated steps are concatenated |
| PdfProperties.TextsAppend | A2.py:105-124 | the texts of concatenated draws are concatenated |
| PdfProperties.LayoutTexts | A2.py:105-124 | the texts of the layout, part by part |
| PdfProperties.DocumentOrder | A2.py:105-120 | across all pages the drawn texts are "Actionable Items", the non-blank stripped actionable lines in order, "Risk Mitigations", the non-blank stripped risk lines in order, and nothing else |
| PdfProperties.LayoutAt | A2.py:105-124 | each step of the layout by index |
| PdfProperties.RunFacts | A2.py:108-113 | in a run, every string is at x = 30, a break follows exactly the strings that left the cursor below 50, and each string is where the previous one left the cursor |
| PdfProperties.RunBounds | A2.py:108-113 | on a page at least 80 points high (letter is 792), a run starting between 30 and height - 30 stays there, and only its first string can lie below 50 |
| PdfProperties.RunFitsPage | A2.py:108-113 | a run starts no new page exactly when its last string still leaves the cursor at or above 50 |
| PdfProperties.BreaksAppend | A2.py:111-113 | page breaks add up over concatenation |
| PdfProperties.LayoutRuns | A2.py:105-124 | each section's run has one string per visible line |
| PdfProperties.LayoutCursor | A2.py:106-124 | every string at x = 30 and the first heading at height - 30; a new page only right after an item that leaves y < 50, never after a heading; the next string at height - 30 after a break, 20 lower after the second heading, 15 lower after an item |
| PdfProperties.RunsCursor | A2.py:106-124 | the rules of `LayoutCursor` for any two item runs laid out as in the document, with the second heading after the first run |
| PdfProperties.RunsBreaks | A2.py:105-124 | no page break comes before the last string exactly when the actionable items fit above 50 and, with two or more risk items, all but the last risk item fit too after the extra 20 |
| PdfProperties.OnePage | A2.py:105-124 | all strings land on one page exactly when the actionable items, 15 apart from height - 50, end at or above 50 and, with two or more risk items, all but the last also do after the extra 20; a break after the very last item opens a page that stays empty and is not counted |
| PdfProperties.LetterOverflow | A2.py:102-124 | on a letter page all strings land on one page exactly when there are at most 46 actionable items and either at most one risk item or at most 45 items in all |
| PdfProperties.RunsBounds | A2.py:105-124 | on a page at least 100 points high (letter is 792), two runs laid out as in the document stay between 30 and height - 30, and at or above 50 except the first string after the second heading |
| PdfProperties.LayoutBounds | A2.py:105-124 | on a page at least 100 points high (letter is 792), every string lies between 30 and height - 30, and every string except the first risk item lies at or above 50 (actionable items included) |
| PdfProperties.LowRiskItem | A2.py:116-124 | the exception happens: on a 100-point page the first risk item lands at y = 30 |
| PdfProperties.LetterLowRiskItem | A2.py:102-124 | on a letter page, after 46 actionable items the second heading sits at 52 and the first risk item at 32, below 50 |
| App.Run | A2.py:147-185 | results are reached exactly when the URL is non-empty, the scraped text is present and non-empty, and both answers exist and are non-empty; the results are the analysis |
| App.Gating | A2.py:147-185 | the info message exactly for an empty URL; "no data" exactly when the fetch fails or all paragraphs are blank; "no results" exactly when text exists but a call fails or an answer is empty |
| App.NoDataNoGeneration | A2.py:147-152 | without text the generation service is never consulted |
| App.NoUrlNoFetch | A2.py:147-149 | without a URL nothing is fetched |
| App.ResultsShape | A2.py:152-158 | shown results are non-empty and stripped |
| App.CustomPromptIgnoresPage | A2.py:147-153 | with a custom prompt, any two pages that yield text give the same outcome |
| App.Present | A2.py:140-179 | for a model from the select box's options, a download is offered exactly on results: the sheet rows for Excel, the letter-size canvas pages that `save()` writes (an empty page left open by a final `showPage` dropped) for PDF, under the fixed file names |

## Left out

- The HTTP request, `raise_for_status` and its exception are left out because they are network I/O. The fetch is a parameter that returns the page's paragraph texts, or `None` when the request fails.
- BeautifulSoup parsing and `find_all('p')` are left out because they are a foreign HTML parser. The paragraph texts are taken as given.
- `genai.GenerativeModel`, `generate_content` and `.text` are left out because they are a remote API. They are one function parameter, given the call number so that the two calls may answer differently; its `None` stands for any exception.
- `load_dotenv`, the API-key check, `genai.configure` and the `pip install` fallback are left out because they are process and environment plumbing.
- Streamlit widgets, `st.write`, `st.error`, `download_button` and MIME types are left out because they are UI. Only which branch is reached and what the download holds are modelled.
- The custom prompt is always `Some(text)`, because `st.text_area` always returns a string. The `None` default of `custom_prompt` is covered only by `Analyzer` itself.
- openpyxl's workbook serialisation and `BytesIO` are left out because they are library internals and binary output. `wb.active` is modelled as a new `Worksheet`.
- reportlab's fonts, byte encoding, `c.save()` and `BytesIO` are left out for the same reason.
  - `save()` is modelled only as emitting the pages with something drawn on them: `pages` keeps the page left open after a final `showPage`, `PdfExport.DrawnPages` drops it when it is empty, and `App.Present` exports `DrawnPages` of the canvas pages. The serialised bytes are not modelled.
- ExcelExport.Worksheet.Append: openpyxl's cell checks are not modelled. openpyxl raises `IllegalCharacterError` for a string cell holding `\x00`–`\x08`, `\x0b`, `\x0c` or `\x0e`–`\x1f`, and it cuts a string cell to 32,767 characters. So `ExcelExport.ExportToExcel` and `App.Present` succeed, and offer a download, on answers whose lines hold such characters, where the program raises at A2.py:165; and their rows keep a longer line whole, where the sheet holds only its first 32,767 characters.
- The clipping or overflow of long lines by `drawString` is left out because it is renderer behaviour.
- `letter` is the floating-point pair (612.0, 792.0). All coordinates used are integral, so the model uses `int`, and the page height is a parameter, 792 at the call site. The page width is unused.
- PyText.Strip: it removes only space, `\t`, `\n`, `\r`, `\x0b` and `\x0c`. Python's `strip()` also removes `\x1c`–`\x1f`, `\x85` and the Unicode space characters; the model does not, because that needs Unicode character data.
- PdfExport.Canvas: the cursor `y` is not a field. It is a local of the drawing methods, as it is a local of `export_to_pdf`.
- App.ResultsShape: does not promise that both answers are equal under a custom prompt. The two `generate_content` calls are separate requests to a sampling model, so only their prompts are equal (`Analyzer.CustomPromptUsedTwice`).
- PdfExport.Place, PdfExport.PlaceAll, PdfExport.Heading, PdfExport.Layout and ExcelExport.SheetRows: these specification functions carry no contract of their own. Their properties are the lemmas named in their rows.
