/**
 * The "forgot password" page: one email field, a submit that asks the provider to
 * send a reset email (an outcome parameter here), and a `sent` flag that swaps
 * the form for a confirmation with a "Send Another Email" button.  The submit is
 * split at its `await`: `BeginSubmit` runs up to the call, `FinishSubmit` after it.
 */
module ResetPassword {
  import opened Text

  class Page {
    var email: string
    var loading: bool
    var sent: bool

    constructor ()
      ensures email == "" && !loading && !sent
    {
      email := "";
      loading := false;
      sent := false;
    }

    /** The form is shown until an email has been sent. */
    function FormShown(): (shown: bool)
      reads this
      ensures shown <==> !sent
    {
      !sent
    }

    method EditEmail(value: string)
      modifies this
      ensures email == value && loading == old(loading) && sent == old(sent)
    {
      email := value;
    }

    /** Up to the call: a blank email stops here with nothing changed; otherwise
        `loading` is set and the call is made. */
    method BeginSubmit() returns (callMade: bool)
      modifies this
      ensures callMade <==> !IsBlank(email)
      ensures callMade ==> loading && sent == old(sent)
      ensures !callMade ==> loading == old(loading) && sent == old(sent)
      ensures email == old(email)
    {
      if IsBlank(email) {
        callMade := false;
        return;
      }
      callMade := true;
      loading := true;
    }

    /** After the call: success sets `sent`, an error leaves it; `loading` ends false. */
    method FinishSubmit(succeeded: bool)
      modifies this
      ensures succeeded ==> sent
      ensures !succeeded ==> sent == old(sent)
      ensures !loading && email == old(email)
    {
      if succeeded {
        sent := true;
      }
      loading := false;
    }

    /** The whole `handleSubmit`: the call is made only for a non-blank email, with
        `loading` true while it runs; afterwards `loading` is false and `sent` records
        a success. */
    method HandleSubmit(succeeded: bool) returns (callMade: bool, loadingDuringCall: bool)
      modifies this
      ensures callMade <==> !IsBlank(old(email))
      ensures callMade ==> loadingDuringCall && !loading && sent == (succeeded || old(sent))
      ensures !callMade ==> loading == old(loading) && sent == old(sent)
      ensures email == old(email)
    {
      loadingDuringCall := false;
      callMade := BeginSubmit();
      if callMade {
        loadingDuringCall := loading;
        FinishSubmit(succeeded);
      }
    }

    /** "Send Another Email" brings the form back. */
    method SendAnother()
      modifies this
      ensures !sent && FormShown() && loading == old(loading) && email == old(email)
    {
      sent := false;
    }
  }
}
