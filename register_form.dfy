/** The registration form (src/features/auth/RegisterForm.js): a re-entrancy
    guard, a password confirmation check, and the `isSubmitting` and `error`
    states around the `registerUser` call. */
module RegisterForm {
  import opened Wrappers
  import Api

  const PasswordMismatch := "Passwords do not match"
  const RegistrationFailed := "Registration failed"

  class RegisterForm {
    var name: string
    var email: string
    var password: string
    var matchingPassword: string
    var error: string
    var isSubmitting: bool
    /** Whether the parent passed an `onRegistered` callback. */
    const hasOnRegistered: bool

    constructor (hasOnRegistered: bool)
      ensures this.hasOnRegistered == hasOnRegistered
      ensures name == "" && email == "" && password == "" && matchingPassword == ""
      ensures error == "" && !isSubmitting
    {
      this.hasOnRegistered := hasOnRegistered;
      name, email, password, matchingPassword := "", "", "", "";
      error, isSubmitting := "", false;
    }

    /** `handleSubmit` up to its `await`. While a submission is in flight it
        does nothing. Otherwise the error is cleared; unequal passwords stop
        there with the mismatch error; equal ones start submitting and the
        request is sent. */
    method HandleSubmit() returns (sent: bool)
      modifies this`error, this`isSubmitting
      ensures old(isSubmitting) ==> !sent && error == old(error) && isSubmitting
      ensures !old(isSubmitting) && password != matchingPassword ==>
        !sent && error == PasswordMismatch && !isSubmitting
      ensures !old(isSubmitting) && password == matchingPassword ==>
        sent && error == "" && isSubmitting
    {
      sent := false;
      if isSubmitting {
        return;
      }
      error := "";
      if password != matchingPassword {
        error := PasswordMismatch;
        return;
      }
      isSubmitting := true;
      sent := true;
    }

    /** The rest of `handleSubmit`, given how `registerUser` settled. On
        success `onRegistered` is called when given; on failure the error is
        the thrown message, or the generic one when that is empty. Submitting
        ends in both cases. */
    method RegistrationSettled(outcome: Result<Option<Api.JsonObject>>) returns (calledOnRegistered: bool)
      modifies this`error, this`isSubmitting
      ensures !isSubmitting
      ensures outcome.Ok? ==> calledOnRegistered == hasOnRegistered && error == old(error)
      ensures outcome.Err? ==> !calledOnRegistered
      ensures outcome.Err? ==> error == (if outcome.message != "" then outcome.message else RegistrationFailed)
    {
      calledOnRegistered := false;
      match outcome {
        case Ok(_) =>
          calledOnRegistered := hasOnRegistered;
        case Err(message) =>
          error := if message != "" then message else RegistrationFailed;
      }
      isSubmitting := false;
    }
  }
}
