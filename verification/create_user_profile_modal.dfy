/**
 * The user profile creation form (src/components/userProfiles/CreateUserProfileModal.tsx):
 * label and name are required, the form is sent as typed, and a failed call
 * shows the server's message when it has one.
 */
module CreateUserProfileModal {
  import opened Wrappers
  import opened Strings
  import opened Forms

  const RequiredError: string := "Label and Name are required fields"
  const CreateFailedError: string := "Failed to create user profile. Please try again."

  datatype Field = LabelField | NameField | DescriptionField

  /** The `formData` state, which is also the body sent to `userProfilesApi.create`. */
  datatype UserProfileForm = UserProfileForm(labelText: string, name: string, description: string)

  const EmptyForm: UserProfileForm := UserProfileForm("", "", "")

  function Get(form: UserProfileForm, f: Field): string {
    match f
    case LabelField => form.labelText
    case NameField => form.name
    case DescriptionField => form.description
  }

  /** `{ ...prev, [name]: value }`: the named field takes the value, the others keep theirs. */
  function SetField(form: UserProfileForm, f: Field, value: string): (r: UserProfileForm)
    ensures forall g :: Get(r, g) == if g == f then value else Get(form, g)
  {
    match f
    case LabelField => form.(labelText := value)
    case NameField => form.(name := value)
    case DescriptionField => form.(description := value)
  }

  /** The guard of `handleSubmit`: label and name must hold something besides whitespace. */
  function Validate(form: UserProfileForm): (err: Option<string>)
    ensures err.None? <==> !AllWhitespace(form.labelText) && !AllWhitespace(form.name)
    ensures err.Some? ==> err.value == RequiredError
  {
    if Blank(form.labelText) || Blank(form.name) then Some(RequiredError) else None
  }

  /** A blank description does not stop a profile from being created. */
  lemma DescriptionOptional(form: UserProfileForm)
    ensures Validate(form) == Validate(form.(description := ""))
  {
  }

  class CreateUserProfileModal {
    var form: UserProfileForm
    var isSubmitting: bool
    var error: Option<string>
    /** The forms handed to `userProfilesApi.create`, in order, always without an avatar file. */
    var requests: seq<UserProfileForm>
    /** How many times `onUserProfileCreated` was called. */
    var createdNotices: nat

    constructor()
      ensures form == EmptyForm && !isSubmitting && error.None?
      ensures requests == [] && createdNotices == 0
    {
      form := EmptyForm;
      isSubmitting := false;
      error := None;
      requests := [];
      createdNotices := 0;
    }

    /** `handleChange`: only the named field changes. */
    method HandleChange(f: Field, value: string)
      modifies this
      ensures form == SetField(old(form), f, value)
      ensures isSubmitting == old(isSubmitting) && error == old(error)
      ensures requests == old(requests) && createdNotices == old(createdNotices)
    {
      form := SetField(form, f, value);
    }

    /**
     * `handleSubmit`: a form missing a required field only sets the error and
     * makes no call; otherwise the form is sent unchanged, success calls
     * `onUserProfileCreated`, failure shows the server's message or the
     * default text, and `isSubmitting` is false at the end either way.
     */
    method HandleSubmit(outcome: Outcome)
      modifies this
      ensures form == old(form)
      ensures Validate(old(form)).Some? ==>
        && error == Validate(old(form)) && isSubmitting == old(isSubmitting)
        && requests == old(requests) && createdNotices == old(createdNotices)
      ensures Validate(old(form)).None? ==>
        && requests == old(requests) + [old(form)] && !isSubmitting
        && (outcome.Resolved? ==> error.None? && createdNotices == old(createdNotices) + 1)
        && (outcome.Threw? ==>
              error == Some(FailureMessage(outcome, CreateFailedError)) && createdNotices == old(createdNotices))
    {
      if Blank(form.labelText) || Blank(form.name) {
        error := Some(RequiredError);
        return;
      }
      isSubmitting := true;
      error := None;
      requests := requests + [form];
      if outcome.Resolved? {
        createdNotices := createdNotices + 1;
      } else {
        error := Some(FailureMessage(outcome, CreateFailedError));
      }
      isSubmitting := false;
    }
  }
}
