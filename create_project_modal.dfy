/**
 * The "Create New Project" dialog: a form (title, summary, service type, tags)
 * with one validation rule, a submit that keeps the entered data when the parent's
 * `onSubmit` fails, and a close that is refused while a creation is in flight.
 * The parent's callbacks are recorded: `submitted` lists the forms passed to
 * `onSubmit`, `closeCalls` counts calls of `onClose`.
 */
module CreateProjectModal {
  import opened Text
  import opened ProjectModel

  datatype FormData = FormData(title: string, summary: string, serviceType: ServiceType, tags: seq<string>)

  const EmptyForm := FormData("", "", AR, [])

  const TitleRequired := "Project title is required"

  /** How the awaited `onSubmit` promise settled. */
  datatype SubmitOutcome = Resolved | Rejected

  /** The `newErrors` record of `handleSubmit`: a title error exactly when the title
      is blank, and nothing else. */
  function ValidationErrors(form: FormData): (errors: map<string, string>)
    ensures "title" in errors <==> IsBlank(form.title)
    ensures "title" in errors ==> errors["title"] == TitleRequired
    ensures errors.Keys <= {"title"}
  {
    if IsBlank(form.title) then map["title" := TitleRequired] else map[]
  }

  class Modal {
    var formData: FormData
    var errors: map<string, string>
    var submitted: seq<FormData>
    var closeCalls: nat

    constructor ()
      ensures formData == EmptyForm && errors == map[] && submitted == [] && closeCalls == 0
    {
      formData := EmptyForm;
      errors := map[];
      submitted := [];
      closeCalls := 0;
    }

    /** The title error is rendered only when it is a non-empty message. */
    predicate ShowsTitleError()
      reads this
    {
      "title" in errors && errors["title"] != ""
    }

    /** `handleSubmit`.  A blank title records the error and stops before `onSubmit`;
        otherwise `onSubmit(formData)` is called once, and when it resolves the form
        and errors are reset and `onClose` is called, while when it rejects the
        entered data stays and the dialog stays open. */
    method HandleSubmit(outcome: SubmitOutcome) returns (calledSubmit: bool)
      modifies this
      ensures calledSubmit <==> !IsBlank(old(formData).title)
      ensures !calledSubmit ==>
        && errors == map["title" := TitleRequired]
        && formData == old(formData) && submitted == old(submitted) && closeCalls == old(closeCalls)
      ensures calledSubmit ==> submitted == old(submitted) + [old(formData)]
      ensures calledSubmit && outcome == Resolved ==>
        formData == EmptyForm && errors == map[] && closeCalls == old(closeCalls) + 1
      ensures calledSubmit && outcome == Rejected ==>
        formData == old(formData) && errors == old(errors) && closeCalls == old(closeCalls)
    {
      var newErrors := ValidationErrors(formData);
      if |newErrors| > 0 {
        errors := newErrors;
        calledSubmit := false;
        return;
      }
      assert "title" !in newErrors;
      calledSubmit := true;
      submitted := submitted + [formData];
      if outcome == Resolved {
        formData := EmptyForm;
        errors := map[];
        closeCalls := closeCalls + 1;
      }
    }

    /** `handleClose`: ignored while loading, otherwise a reset and `onClose`. */
    method HandleClose(isLoading: bool)
      modifies this
      ensures isLoading ==>
        formData == old(formData) && errors == old(errors) && closeCalls == old(closeCalls)
      ensures !isLoading ==>
        formData == EmptyForm && errors == map[] && closeCalls == old(closeCalls) + 1
      ensures submitted == old(submitted)
    {
      if !isLoading {
        formData := EmptyForm;
        errors := map[];
        closeCalls := closeCalls + 1;
      }
    }

    /** Typing a title: the title is replaced, and a shown title error is blanked
        (the key stays, with an empty message). */
    method EditTitle(value: string)
      modifies this
      ensures formData == old(formData).(title := value)
      ensures !ShowsTitleError()
      ensures old(ShowsTitleError()) ==> errors == old(errors)["title" := ""]
      ensures !old(ShowsTitleError()) ==> errors == old(errors)
      ensures submitted == old(submitted) && closeCalls == old(closeCalls)
    {
      formData := formData.(title := value);
      if "title" in errors && errors["title"] != "" {
        errors := errors["title" := ""];
      }
    }

    method EditSummary(value: string)
      modifies this
      ensures formData == old(formData).(summary := value) && errors == old(errors)
      ensures submitted == old(submitted) && closeCalls == old(closeCalls)
    {
      formData := formData.(summary := value);
    }

    method SelectServiceType(t: ServiceType)
      modifies this
      ensures formData == old(formData).(serviceType := t) && errors == old(errors)
      ensures submitted == old(submitted) && closeCalls == old(closeCalls)
    {
      formData := formData.(serviceType := t);
    }

    /** The tag editor's `onChange`. */
    method ChangeTags(tags: seq<string>)
      modifies this
      ensures formData == old(formData).(tags := tags) && errors == old(errors)
      ensures submitted == old(submitted) && closeCalls == old(closeCalls)
    {
      formData := formData.(tags := tags);
    }
  }
}
