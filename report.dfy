/** What the two exporters share: the section headings and the way a result text is cut into lines. */
module Report {
  import opened PyText

  const ActionableHeading: string := "Actionable Items"
  const RiskHeading: string := "Risk Mitigations"

  /** `text.split('\n')`: a text with k line feeds has k + 1 lines, empty ones included. */
  function Lines(text: string): (lines: seq<string>)
    ensures |lines| == Count(text, '\n') + 1
    ensures Join(lines, "\n") == text
  {
    Split(text, '\n')
  }
}
