/**
 * The interactive state of the RefactorTool component and its transitions.
 * `handleRefactor` runs in two steps separated by the `await` on the relay:
 * BeginRefactor is the part before it, CompleteRefactor the part after it,
 * including `catch` and `finally`. The option in effect is the one captured
 * when the request was sent, since the handler closes over the state of
 * the render that triggered it.
 */
module Controller {
  import opened Wrappers
  import Prompt
  import Extract
  import Response

  /** The example shown in the source panel when the page opens. */
  const DefaultCode: string :=
    "def calculate_sum_and_product(numbers_list):\n    s = 0\n    p = 1\n    for n in numbers_list:\n        s += n\n        p *= n\n    return [s, p]"

  /** The output shown after any failure; the message itself goes to `error`. */
  const ErrorPlaceholder: string := "An error occurred. Please check the console for details."

  /** What a triggered generation sends: the option it was made under and the prompt. */
  datatype Request = Request(option: string, prompt: string)

  class RefactorTool {
    var originalCode: string
    var refactoredCode: string
    var isLoading: bool
    var error: Option<string>
    var refactorOption: string

    /**
     * While a request is in flight the output and the error are cleared, and
     * whenever an error is shown the output is the placeholder.
     */
    ghost predicate Valid()
      reads this
    {
      && (isLoading ==> refactoredCode == [] && error.None?)
      && (error.Some? ==> refactoredCode == ErrorPlaceholder)
    }

    /** The initial `useState` values. */
    constructor ()
      ensures Valid()
      ensures originalCode == DefaultCode && refactoredCode == [] && !isLoading
      ensures error.None? && refactorOption == Prompt.RefactorOption
    {
      originalCode := DefaultCode;
      refactoredCode := [];
      isLoading := false;
      error := None;
      refactorOption := Prompt.RefactorOption;
    }

    /** The Generate button is enabled (`disabled={isLoading || !originalCode}` is false). */
    function CanGenerate(): (enabled: bool)
      reads this
      ensures enabled <==> !isLoading && |originalCode| > 0
    {
      !(isLoading || originalCode == [])
    }

    /** `setOriginalCode`: an edit of the source panel, or a loaded file's text. */
    method SetOriginalCode(code: string)
      requires Valid()
      modifies this
      ensures Valid()
      ensures originalCode == code
      ensures refactoredCode == old(refactoredCode) && isLoading == old(isLoading)
      ensures error == old(error) && refactorOption == old(refactorOption)
    {
      originalCode := code;
    }

    /** `setRefactorOption`: one of the three option buttons. Nothing else changes. */
    method SetRefactorOption(option: string)
      requires Valid()
      modifies this
      ensures Valid()
      ensures refactorOption == option
      ensures originalCode == old(originalCode) && refactoredCode == old(refactoredCode)
      ensures isLoading == old(isLoading) && error == old(error)
    {
      refactorOption := option;
    }

    /** The start of `handleRefactor`: enter loading, clear error and output, build the prompt. */
    method BeginRefactor() returns (request: Request)
      requires Valid()
      modifies this
      ensures Valid()
      ensures isLoading && error.None? && refactoredCode == []
      ensures request == Request(old(refactorOption), Prompt.BuildPrompt(old(refactorOption), old(originalCode)))
      ensures originalCode == old(originalCode) && refactorOption == old(refactorOption)
    {
      isLoading := true;
      error := None;
      refactoredCode := [];
      var prompt := Prompt.BuildPrompt(refactorOption, originalCode);
      request := Request(refactorOption, prompt);
    }

    /**
     * The rest of `handleRefactor`, once the relay call has resolved: on
     * success the output is set and the error left cleared; any failure
     * sets the error message and the placeholder; loading always ends.
     */
    method CompleteRefactor(request: Request, outcome: Response.RelayOutcome)
      requires Valid() && isLoading
      modifies this
      ensures Valid() && !isLoading
      ensures match Response.Resolve(request.option, outcome)
        case Generated(output) => refactoredCode == output && error.None?
        case Failed(message) => refactoredCode == ErrorPlaceholder && error == Some(message)
      ensures originalCode == old(originalCode) && refactorOption == old(refactorOption)
    {
      var failure: Option<string> := None;
      match outcome {
        case NetworkFailure(message) =>
          failure := Some(message);
        case Responded(status, body) =>
          if !Response.IsOk(status) {
            failure := Some(Response.StatusFailureMessage(status));
          } else {
            match body {
              case Unparseable(message) =>
                failure := Some(message);
              case Json(env) =>
                if Response.HasExpectedShape(env) {
                  var text := Response.FirstPartText(env);
                  if text.None? {
                    failure := Some(Response.MissingTextMessage(request.option));
                  } else {
                    refactoredCode := Extract.ExtractCode(request.option, text.value);
                  }
                } else {
                  failure := Some(Response.InvalidStructureMessage);
                }
            }
          }
      }
      if failure.Some? {
        error := failure;
        refactoredCode := ErrorPlaceholder;
      }
      isLoading := false;
    }

    /** The whole of `handleRefactor` for a relay call that resolves with `outcome`; returns the prompt sent. */
    method HandleRefactor(outcome: Response.RelayOutcome) returns (prompt: string)
      requires Valid()
      modifies this
      ensures Valid() && !isLoading
      ensures prompt == Prompt.BuildPrompt(old(refactorOption), old(originalCode))
      ensures match Response.Resolve(old(refactorOption), outcome)
        case Generated(output) => refactoredCode == output && error.None?
        case Failed(message) => refactoredCode == ErrorPlaceholder && error == Some(message)
      ensures originalCode == old(originalCode) && refactorOption == old(refactorOption)
    {
      var request := BeginRefactor();
      CompleteRefactor(request, outcome);
      prompt := request.prompt;
    }

    /**
     * A click on Generate: a disabled button does nothing and no request is
     * sent; an enabled one runs `handleRefactor`.
     */
    method PressGenerate(outcome: Response.RelayOutcome) returns (sent: Option<string>)
      requires Valid()
      modifies this
      ensures Valid()
      ensures sent.Some? <==> old(CanGenerate())
      ensures !old(CanGenerate()) ==> unchanged(this)
      ensures old(CanGenerate()) ==>
        && !isLoading
        && originalCode == old(originalCode) && refactorOption == old(refactorOption)
        && sent == Some(Prompt.BuildPrompt(old(refactorOption), old(originalCode)))
        && match Response.Resolve(old(refactorOption), outcome)
           case Generated(output) => refactoredCode == output && error.None?
           case Failed(message) => refactoredCode == ErrorPlaceholder && error == Some(message)
    {
      if CanGenerate() {
        var prompt := HandleRefactor(outcome);
        sent := Some(prompt);
      } else {
        sent := None;
      }
    }
  }

  /** With an empty source the Generate button sends nothing, whatever the relay would answer. */
  method EmptySourceSendsNothing(outcome: Response.RelayOutcome) returns (sent: Option<string>)
    ensures sent.None?
  {
    var tool := new RefactorTool();
    tool.SetOriginalCode("");
    sent := tool.PressGenerate(outcome);
  }

  /** A rejected relay call ends loading, shows its message and the placeholder. */
  method NetworkFailureScenario(message: string) returns (isLoading: bool, error: Option<string>, output: string)
    ensures !isLoading && error == Some(message) && output == ErrorPlaceholder
  {
    var tool := new RefactorTool();
    var _ := tool.HandleRefactor(Response.NetworkFailure(message));
    isLoading, error, output := tool.isLoading, tool.error, tool.refactoredCode;
  }
}
