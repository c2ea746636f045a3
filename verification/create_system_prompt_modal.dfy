/**
 * The system prompt creation form (src/components/systemPrompts/CreateSystemPromptModal.tsx):
 * label and content are both required, the form is sent as typed, and a
 * failed call shows the server's message when it has one.
 */
module CreateSystemPromptModal {
  import opened Wrappers
  import opened Strings
  import opened Forms

  const RequiredError: string := "Label and Content are required fields"
  const CreateFailedError: string := "Failed to create system prompt. Please try again."

  datatype Field = LabelField | ContentField

  /** The `formData` state, which is also the body sent to `systemPromptsApi.create`. */
  datatype SystemPromptForm = SystemPromptForm(labelText: string, content: string)

  const EmptyForm: SystemPromptForm := SystemPromptForm("", "")

  function Get(form: SystemPromptForm, f: Field): string {
    match f
    case LabelField => form.labelText
    case ContentField => form.content
  }

  /** `{ ...prev, [name]: value }`: the named field takes the value, the other keeps its own. */
  function SetField(form: SystemPromptForm, f: Field, value: string): (r: SystemPromptForm)
    ensures forall g :: Get(r, g) == if g == f then value else Get(form, g)
  {
    match f
    case LabelField => form.(labelText := value)
    case ContentField => form.(content := value)
  }

  /** The guard of `handleSubmit`: label and content must hold something besides whitespace. */
  function Validate(form: SystemPromptForm): (err: Option<string>)
    ensures err.None? <==> !AllWhitespace(form.labelText) && !AllWhitespace(form.content)
    ensures err.Some? ==> err.value == RequiredError
  {
    if Blank(form.labelText) || Blank(form.content) then Some(RequiredError) else None
  }

  class CreateSystemPromptModal {
    var form: SystemPromptForm
    var isSubmitting: bool
    var error: Option<string>
    /** The forms handed to `systemPromptsApi.create`, in order. */
    var requests: seq<SystemPromptForm>
    /** How many times `onSystemPromptCreated` was called. */
    var createdNotices: nat

    constructor()
      ensures form == EmptyForm && !isSubmitting && error.None?
      ensures requests == [] && createdNotices == 0
    {
      form := EmptyForm;
      isSubmitting := false;
      error := None;
      requests := [];
      createdNotices := 0;
    }

    /** `handleChange`: only the named field changes. */
    method HandleChange(f: Field, value: string)
      modifies this
      ensures form == SetField(old(form), f, value)
      ensures isSubmitting == old(isSubmitting) && error == old(error)
      ensures requests == old(requests) && createdNotices == old(createdNotices)
    {
      form := SetField(form, f, value);
    }

    /**
     * `handleSubmit`: a form missing a required field only sets the error and
     * makes no call; otherwise the form is sent unchanged, success calls
     * `onSystemPromptCreated`, failure shows the server's message or the
     * default text, and `isSubmitting` is false at the end either way.
     */
    method HandleSubmit(outcome: Outcome)
      modifies this
      ensures form == old(form)
      ensures Validate(old(form)).Some? ==>
        && error == Validate(old(form)) && isSubmitting == old(isSubmitting)
        && requests == old(requests) && createdNotices == old(createdNotices)
      ensures Validate(old(form)).None? ==>
        && requests == old(requests) + [old(form)] && !isSubmitting
        && (outcome.Resolved? ==> error.None? && createdNotices == old(createdNotices) + 1)
        && (outcome.Threw? ==>
              error == Some(FailureMessage(outcome, CreateFailedError)) && createdNotices == old(createdNotices))
    {
      if Blank(form.labelText) || Blank(form.content) {
        error := Some(RequiredError);
        return;
      }
      isSubmitting := true;
      error := None;
      requests := requests + [form];
      if outcome.Resolved? {
        createdNotices := createdNotices + 1;
      } else {
        error := Some(FailureMessage(outcome, CreateFailedError));
      }
      isSubmitting := false;
    }
  }
}
