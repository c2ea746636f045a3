/**
 * The AI model creation form (src/components/aiModels/CreateAIModelModal.tsx):
 * only the label is required, the form is sent as typed (an empty description
 * included), and a failed call shows the server's message when it has one.
 */
module CreateAIModelModal {
  import opened Wrappers
  import opened Strings
  import opened Forms

  const RequiredError: string := "Label is a required field"
  const CreateFailedError: string := "Failed to create AI model. Please try again."

  datatype Field = LabelField | DescriptionField

  /** The `formData` state, which is also the body sent to `aiModelsApi.create`. */
  datatype AIModelForm = AIModelForm(labelText: string, description: string)

  const EmptyForm: AIModelForm := AIModelForm("", "")

  function Get(form: AIModelForm, f: Field): string {
    match f
    case LabelField => form.labelText
    case DescriptionField => form.description
  }

  /** `{ ...prev, [name]: value }`: the named field takes the value, the other keeps its own. */
  function SetField(form: AIModelForm, f: Field, value: string): (r: AIModelForm)
    ensures forall g :: Get(r, g) == if g == f then value else Get(form, g)
  {
    match f
    case LabelField => form.(labelText := value)
    case DescriptionField => form.(description := value)
  }

  /** The guard of `handleSubmit`: the label alone must hold something besides whitespace. */
  function Validate(form: AIModelForm): (err: Option<string>)
    ensures err.None? <==> !AllWhitespace(form.labelText)
    ensures err.Some? ==> err.value == RequiredError
  {
    if Blank(form.labelText) then Some(RequiredError) else None
  }

  /** Whatever the description holds, the empty string included, it does not decide validity. */
  lemma DescriptionNeverRequired(form: AIModelForm, description: string)
    ensures Validate(form.(description := description)) == Validate(form)
  {
  }

  class CreateAIModelModal {
    var form: AIModelForm
    var isSubmitting: bool
    var error: Option<string>
    /** The forms handed to `aiModelsApi.create`, in order. */
    var requests: seq<AIModelForm>
    /** How many times `onAIModelCreated` was called. */
    var createdNotices: nat

    constructor()
      ensures form == EmptyForm && !isSubmitting && error.None?
      ensures requests == [] && createdNotices == 0
    {
      form := EmptyForm;
      isSubmitting := false;
      error := None;
      requests := [];
      createdNotices := 0;
    }

    /** `handleChange`: only the named field changes. */
    method HandleChange(f: Field, value: string)
      modifies this
      ensures form == SetField(old(form), f, value)
      ensures isSubmitting == old(isSubmitting) && error == old(error)
      ensures requests == old(requests) && createdNotices == old(createdNotices)
    {
      form := SetField(form, f, value);
    }

    /**
     * `handleSubmit`: a blank label only sets the error and makes no call;
     * otherwise the form is sent unchanged, success calls `onAIModelCreated`,
     * failure shows the server's message or the default text, and
     * `isSubmitting` is false at the end either way.
     */
    method HandleSubmit(outcome: Outcome)
      modifies this
      ensures form == old(form)
      ensures Validate(old(form)).Some? ==>
        && error == Validate(old(form)) && isSubmitting == old(isSubmitting)
        && requests == old(requests) && createdNotices == old(createdNotices)
      ensures Validate(old(form)).None? ==>
        && requests == old(requests) + [old(form)] && !isSubmitting
        && (outcome.Resolved? ==> error.None? && createdNotices == old(createdNotices) + 1)
        && (outcome.Threw? ==>
              error == Some(FailureMessage(outcome, CreateFailedError)) && createdNotices == old(createdNotices))
    {
      if Blank(form.labelText) {
        error := Some(RequiredError);
        return;
      }
      isSubmitting := true;
      error := None;
      requests := requests + [form];
      if outcome.Resolved? {
        createdNotices := createdNotices + 1;
      } else {
        error := Some(FailureMessage(outcome, CreateFailedError));
      }
      isSubmitting := false;
    }
  }
}
