/** `generate_actionable_risk_mitigation`: two prompts, two calls to the text-generation
    service, two stripped answers. */
module Analyzer {
  import opened Wrappers
  import opened PyText

  /** The text-generation service: `gen(call, model, prompt)` is the response text to the
      `call`-th request of a run (1, then 2), or `None` when that call raises (bad model,
      network, quota, ...). The call number is there because a sampling model need not
      answer the same prompt the same way twice. */
  type Service = (nat, string, string) -> Option<string>

  /** The models offered in the selection box. */
  const ModelOptions: seq<string> := [
    "gemini-2.0-flash", "gemini-2.0-flash-lite", "gemini-2.0-pro-exp-02-05",
    "gemini-2.0-flash-thinking-exp-01-21", "gemini-2.0-flash-exp", "learnlm-1.5-pro-experimental",
    "gemini-1.5-pro", "gemini-1.5-flash", "gemini-1.5-flash-8b"
  ]

  /** The two answers: actionable items and risk mitigations. */
  datatype Analysis = Analysis(actionable: string, risk: string)

  /** The text of the two triple-quoted f-string templates around the list they ask for. */
  const TemplateIntro: string := "\n        Analyze the following text and provide a clear list of "
  const TemplateOutro: string := " referring to the Paragraph based on the RBI circular:\n        "
  const TemplateEnd: string := "\n        "

  /** Where the page text starts in either template: both subjects are 16 characters long. */
  const TextOffset: nat := |TemplateIntro + "actionable items" + TemplateOutro|

  /** The triple-quoted template asking for a list of `subject`: it names the subject right
      after the introduction and embeds the page text verbatim after the outro. */
  function Template(subject: string, text: string): (prompt: string)
    ensures |prompt| == |TemplateIntro| + |subject| + |TemplateOutro| + |text| + |TemplateEnd|
    ensures prompt[|TemplateIntro|..|TemplateIntro| + |subject|] == subject
    ensures var at := |TemplateIntro| + |subject| + |TemplateOutro|; prompt[at..at + |text|] == text
  {
    TemplateIntro + subject + TemplateOutro + text + TemplateEnd
  }

  /** The template of the first call, asking for actionable items. */
  function ActionableTemplate(text: string): string {
    Template("actionable items", text)
  }

  /** The template of the second call, asking for risk mitigations. */
  function RiskTemplate(text: string): string {
    Template("risk mitigations", text)
  }

  /** Python's `custom_prompt or template`: a custom prompt is used when it is truthy,
      i.e. present and non-empty. */
  function PromptOr(custom: Option<string>, template: string): (prompt: string)
    ensures custom.Some? && custom.value != "" ==> prompt == custom.value
    ensures custom.None? || custom.value == "" ==> prompt == template
  {
    if custom.Some? && custom.value != "" then custom.value else template
  }

  /** The prompt of the first generation call: the custom prompt when it is truthy,
      otherwise the actionable-items template around the text. */
  function ActionablePrompt(text: string, custom: Option<string>): (prompt: string)
    ensures custom.Some? && custom.value != "" ==> prompt == custom.value
    ensures custom.None? || custom.value == "" ==> prompt == ActionableTemplate(text)
  {
    PromptOr(custom, ActionableTemplate(text))
  }

  /** The prompt of the second generation call: the custom prompt when it is truthy,
      otherwise the risk-mitigations template around the text. */
  function RiskPrompt(text: string, custom: Option<string>): (prompt: string)
    ensures custom.Some? && custom.value != "" ==> prompt == custom.value
    ensures custom.None? || custom.value == "" ==> prompt == RiskTemplate(text)
  {
    PromptOr(custom, RiskTemplate(text))
  }

  /** Both calls, in order; any failure makes the whole analysis `None` (the `(None, None)`
      of the source), and both answers are stripped. */
  function Generate(text: string, model: string, custom: Option<string>, gen: Service): (result: Option<Analysis>)
    ensures result.Some? <==>
      gen(1, model, ActionablePrompt(text, custom)).Some? && gen(2, model, RiskPrompt(text, custom)).Some?
    ensures result.Some? ==>
      result.value.actionable == Strip(gen(1, model, ActionablePrompt(text, custom)).value) &&
      result.value.risk == Strip(gen(2, model, RiskPrompt(text, custom)).value)
  {
    match gen(1, model, ActionablePrompt(text, custom))
    case None => None
    case Some(actionable) =>
      match gen(2, model, RiskPrompt(text, custom))
      case None => None
      case Some(risk) => Some(Analysis(Strip(actionable), Strip(risk)))
  }

  /** Without a usable custom prompt, each call gets its own template; the two templates embed
      the page text verbatim at the same place and differ from each other. */
  lemma TemplatePrompts(text: string, custom: Option<string>)
    requires custom.None? || custom.value == ""
    ensures ActionablePrompt(text, custom) == ActionableTemplate(text)
    ensures RiskPrompt(text, custom) == RiskTemplate(text)
    ensures ActionablePrompt(text, custom) != RiskPrompt(text, custom)
    ensures ActionableTemplate(text)[TextOffset..TextOffset + |text|] == text
    ensures RiskTemplate(text)[TextOffset..TextOffset + |text|] == text
  {
    var i := |TemplateIntro|;
    assert ActionableTemplate(text)[i] == 'a';
    assert RiskTemplate(text)[i] == 'r';
  }

  /** A custom prompt replaces both templates, so both calls send that exact prompt. */
  lemma CustomPromptUsedTwice(text: string, custom: Option<string>)
    requires custom.Some? && custom.value != ""
    ensures ActionablePrompt(text, custom) == custom.value
    ensures RiskPrompt(text, custom) == custom.value
  {
  }

  /** With a custom prompt the page text is never sent: the analysis is the same whatever
      text was scraped. */
  lemma CustomPromptIgnoresText(text1: string, text2: string, model: string, custom: Option<string>, gen: Service)
    requires custom.Some? && custom.value != ""
    ensures Generate(text1, model, custom, gen) == Generate(text2, model, custom, gen)
  {
    CustomPromptUsedTwice(text1, custom);
    CustomPromptUsedTwice(text2, custom);
  }

  /** Both answers come back stripped. */
  lemma AnswersStripped(text: string, model: string, custom: Option<string>, gen: Service)
    requires Generate(text, model, custom, gen).Some?
    ensures var a := Generate(text, model, custom, gen).value;
      Strip(a.actionable) == a.actionable && Strip(a.risk) == a.risk
  {
    StripIdempotent(gen(1, model, ActionablePrompt(text, custom)).value);
    StripIdempotent(gen(2, model, RiskPrompt(text, custom)).value);
  }
}
