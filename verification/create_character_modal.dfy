/**
 * The character creation form (src/components/characters/CreateCharacterModal.tsx):
 * label and name are required; description and avatar image are optional and
 * are sent trimmed, or left out when blank.  A failed call shows a fixed
 * message, whatever the server said.
 */
module CreateCharacterModal {
  import opened Wrappers
  import opened Strings
  import opened Forms

  const RequiredError: string := "Label and Name are required"
  const CreateFailedError: string := "Failed to create character"

  /** The `name` attributes of the form's inputs. */
  datatype Field = LabelField | NameField | DescriptionField | AvatarImageField

  /** The `formData` state: every input's current text. */
  datatype CharacterForm = CharacterForm(labelText: string, name: string, description: string, avatarImage: string)

  const EmptyForm: CharacterForm := CharacterForm("", "", "", "")

  function Get(form: CharacterForm, f: Field): string {
    match f
    case LabelField => form.labelText
    case NameField => form.name
    case DescriptionField => form.description
    case AvatarImageField => form.avatarImage
  }

  /** `{ ...prev, [name]: value }`: the named field takes the value, the others keep theirs. */
  function SetField(form: CharacterForm, f: Field, value: string): (r: CharacterForm)
    ensures forall g :: Get(r, g) == if g == f then value else Get(form, g)
  {
    match f
    case LabelField => form.(labelText := value)
    case NameField => form.(name := value)
    case DescriptionField => form.(description := value)
    case AvatarImageField => form.(avatarImage := value)
  }

  /** The body of `charactersApi.create`. */
  datatype CharacterRequest = CharacterRequest(
    labelText: string, name: string, description: Option<string>, avatarImage: Option<string>)

  /** The guard of `handleSubmit`: both required fields must hold something besides whitespace. */
  function Validate(form: CharacterForm): (err: Option<string>)
    ensures err.None? <==> !AllWhitespace(form.labelText) && !AllWhitespace(form.name)
    ensures err.Some? ==> err.value == RequiredError
  {
    if Blank(form.labelText) || Blank(form.name) then Some(RequiredError) else None
  }

  /**
   * `submitData`: label and name go as typed, untrimmed; each optional field
   * is absent when blank and trimmed otherwise.
   */
  function SubmitData(form: CharacterForm): (req: CharacterRequest)
    ensures req.labelText == form.labelText && req.name == form.name
    ensures req.description.None? <==> AllWhitespace(form.description)
    ensures req.description.Some? ==> req.description.value == Trim(form.description)
    ensures req.avatarImage.None? <==> AllWhitespace(form.avatarImage)
    ensures req.avatarImage.Some? ==> req.avatarImage.value == Trim(form.avatarImage)
  {
    CharacterRequest(form.labelText, form.name, Optional(form.description), Optional(form.avatarImage))
  }

  /**
   * Submitting again a form filled in with what was sent sends the same
   * request: normalisation is idempotent.
   */
  lemma SubmitDataStable(form: CharacterForm)
    ensures var req := SubmitData(form);
      SubmitData(CharacterForm(req.labelText, req.name, req.description.GetOr(""), req.avatarImage.GetOr(""))) == req
  {
    var req := SubmitData(form);
    if req.description.Some? {
      OptionalIdempotent(form.description);
    }
    if req.avatarImage.Some? {
      OptionalIdempotent(form.avatarImage);
    }
  }

  class CreateCharacterModal {
    var form: CharacterForm
    var loading: bool
    var error: Option<string>
    /** The requests handed to `charactersApi.create`, in order. */
    var requests: seq<CharacterRequest>
    /** How many times `onCharacterCreated` was called. */
    var createdNotices: nat

    constructor()
      ensures form == EmptyForm && !loading && error.None?
      ensures requests == [] && createdNotices == 0
    {
      form := EmptyForm;
      loading := false;
      error := None;
      requests := [];
      createdNotices := 0;
    }

    /** `handleChange`: only the named field changes. */
    method HandleChange(f: Field, value: string)
      modifies this
      ensures form == SetField(old(form), f, value)
      ensures loading == old(loading) && error == old(error)
      ensures requests == old(requests) && createdNotices == old(createdNotices)
    {
      form := SetField(form, f, value);
    }

    /**
     * `handleSubmit`, `outcome` standing for how the awaited call ends.  A
     * form missing a required field only sets the error and makes no call;
     * otherwise the normalised request is sent, the error is cleared or set to
     * the fixed failure text, `onCharacterCreated` is called only on success,
     * and `loading` is false at the end either way.
     */
    method HandleSubmit(outcome: Outcome)
      modifies this
      ensures form == old(form)
      ensures Validate(old(form)).Some? ==>
        && error == Validate(old(form)) && loading == old(loading)
        && requests == old(requests) && createdNotices == old(createdNotices)
      ensures Validate(old(form)).None? ==>
        && requests == old(requests) + [SubmitData(old(form))] && !loading
        && (outcome.Resolved? ==> error.None? && createdNotices == old(createdNotices) + 1)
        && (outcome.Threw? ==> error == Some(CreateFailedError) && createdNotices == old(createdNotices))
    {
      if Blank(form.labelText) || Blank(form.name) {
        error := Some(RequiredError);
        return;
      }
      loading := true;
      error := None;
      var submitData := SubmitData(form);
      requests := requests + [submitData];
      if outcome.Resolved? {
        createdNotices := createdNotices + 1;
      } else {
        error := Some(CreateFailedError);
      }
      loading := false;
    }
  }
}
