/**
 * The prompt sent to the model (RefactorTool.jsx, the `switch` in
 * `handleRefactor`). The selected option is the component's string state
 * `refactorOption`; every value other than "add_comments" and "explain",
 * "refactor" included, falls to the refactor template.
 */
module Prompt {

  const RefactorOption: string := "refactor"
  const AddCommentsOption: string := "add_comments"
  const ExplainOption: string := "explain"

  /** What every template puts right before and right after `${originalCode}`. */
  const SourceOpen: string := "```python\n"
  const SourceClose: string := "\n```"

  /** The fixed text of a template around its fenced source block. */
  datatype Template = Template(head: string, tail: string)

  const AddCommentsTemplate: Template := Template(
    "As an expert Python developer, add insightful comments and docstrings to the following code. Do not change the code's logic.\n            \nCode:\n",
    "\n\nReturn only the commented Python code inside a single code block.")

  const ExplainTemplate: Template := Template(
    "As an expert Python developer, explain what the following code does in a concise, step-by-step manner. Use markdown for formatting.\n\nCode:\n",
    "\n\nExplanation:")

  const RefactorTemplate: Template := Template(
    "You are an expert Python programmer. Your task is to refactor the following Python code.\nYour goal is to improve its readability, maintainability, and adherence to best practices (like PEP 8).\nDo not change the code's core functionality.\n\nOriginal Code:\n",
    "\n\nRefactored Code:\n(Return only the refactored Python code inside a single code block. Do not add any explanations or surrounding text.)")

  /** The `switch (refactorOption)`, with `case 'refactor':` sharing the `default:` arm. */
  function TemplateFor(option: string): Template {
    if option == AddCommentsOption then AddCommentsTemplate
    else if option == ExplainOption then ExplainTemplate
    else RefactorTemplate
  }

  /** The template literal with `${originalCode}` substituted. */
  function BuildPrompt(option: string, code: string): string {
    var t := TemplateFor(option);
    t.head + SourceOpen + code + SourceClose + t.tail
  }

  /** Where the source text begins inside the prompt for `option`. */
  function SourceOffset(option: string): nat {
    |TemplateFor(option).head| + |SourceOpen|
  }

  /** Reads the source text back out of a prompt built for `option`. */
  function EmbeddedSource(option: string, prompt: string): string
    requires SourceOffset(option) + |SourceClose| + |TemplateFor(option).tail| <= |prompt|
  {
    prompt[SourceOffset(option)..|prompt| - |SourceClose| - |TemplateFor(option).tail|]
  }

  /** Where each piece of a five-part concatenation sits in the result. */
  lemma SplicePositions(head: string, open: string, code: string, close: string, tail: string)
    ensures var p, k := head + open + code + close + tail, |head| + |open|;
      && |p| == k + |code| + |close| + |tail|
      && p[..|head|] == head
      && p[|head|..k] == open
      && p[k..k + |code|] == code
      && p[k + |code|..k + |code| + |close|] == close
      && p[k + |code|..] == close + tail
      && p[..k] == head + open
  {
    var p := head + open + code + close + tail;
    assert p == (head + open) + code + (close + tail);
  }

  /**
   * For every option the source text appears verbatim, directly after a
   * backtick fence tagged `python` and a newline, and directly before a
   * newline and a closing fence.
   */
  lemma PromptEmbedsSourceVerbatim(option: string, code: string)
    ensures var p, k := BuildPrompt(option, code), SourceOffset(option);
      && k + |code| + |SourceClose| <= |p|
      && p[k - |SourceOpen|..k] == "```python\n"
      && p[k..k + |code|] == code
      && p[k + |code|..k + |code| + |SourceClose|] == "\n```"
  {
    var t := TemplateFor(option);
    SplicePositions(t.head, SourceOpen, code, SourceClose, t.tail);
  }

  /** Building the prompt loses nothing: the source text can be read back out of it. */
  lemma PromptSourceRoundTrip(option: string, code: string)
    ensures SourceOffset(option) + |SourceClose| + |TemplateFor(option).tail| <= |BuildPrompt(option, code)|
    ensures EmbeddedSource(option, BuildPrompt(option, code)) == code
  {
    var t := TemplateFor(option);
    SplicePositions(t.head, SourceOpen, code, SourceClose, t.tail);
  }

  /**
   * Two prompts for the same option differ only in the embedded source: the
   * text before it and the text after it are the fixed scaffold.
   */
  lemma PromptScaffoldFixed(option: string, code1: string, code2: string)
    ensures var p1, p2, k := BuildPrompt(option, code1), BuildPrompt(option, code2), SourceOffset(option);
      && k + |code1| <= |p1| && k + |code2| <= |p2|
      && p1[..k] == p2[..k]
      && p1[k + |code1|..] == p2[k + |code2|..]
  {
    var t := TemplateFor(option);
    SplicePositions(t.head, SourceOpen, code1, SourceClose, t.tail);
    SplicePositions(t.head, SourceOpen, code2, SourceClose, t.tail);
  }

  /** Any option other than "add_comments" and "explain" gets the refactor prompt. */
  lemma UnknownOptionRefactors(option: string, code: string)
    requires option != AddCommentsOption && option != ExplainOption
    ensures BuildPrompt(option, code) == BuildPrompt(RefactorOption, code)
  {
  }

  /** The three options produce three different prompts for the same source text. */
  lemma PromptsDiffer(code: string)
    ensures BuildPrompt(RefactorOption, code) != BuildPrompt(AddCommentsOption, code)
    ensures BuildPrompt(RefactorOption, code) != BuildPrompt(ExplainOption, code)
    ensures BuildPrompt(AddCommentsOption, code) != BuildPrompt(ExplainOption, code)
  {
    // The three scaffolds have different lengths, so the prompts do too.
    assert |RefactorTemplate.head| + |RefactorTemplate.tail| == 390;
    assert |AddCommentsTemplate.head| + |AddCommentsTemplate.tail| == 211;
    assert |ExplainTemplate.head| + |ExplainTemplate.tail| == 153;
  }
}
