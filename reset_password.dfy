/**
 * The set-new-password screen: the ordered checks on the two fields, the
 * `updateUser` call with `loading` raised around it, and what the screen does
 * with the call's result. The call itself is a parameter (its error, if any).
 */
module ResetPassword {
  import opened Wrappers
  import opened Text
  import opened Validation

  const PasswordRequired: string := "Please enter a new password"
  const PasswordTooShort: string := "Password must be at least 6 characters"
  const PasswordsDiffer: string := "Passwords do not match"
  /** The shortest password accepted, in UTF-16 code units; spaces count. */
  const MinPasswordLength: nat := 6
  const TabsRoute: string := "/(tabs)"

  /** The checks of `handleResetPassword`, in order. */
  function ResetChecks(password: string, confirmPassword: string): seq<Check> {
    [Check(!IsBlank(password), PasswordRequired)]
    + ([Check(Utf16Length(password) >= MinPasswordLength, PasswordTooShort)]
    + [Check(password == confirmPassword, PasswordsDiffer)])
  }

  /** The early returns of `handleResetPassword`: the alert shown, or nothing when the password is sent. */
  function ResetError(password: string, confirmPassword: string): (r: Option<string>)
    ensures r == FirstFailure(ResetChecks(password, confirmPassword))
  {
    var c2 := Check(password == confirmPassword, PasswordsDiffer);
    var c1 := Check(Utf16Length(password) >= MinPasswordLength, PasswordTooShort);
    var c0 := Check(!IsBlank(password), PasswordRequired);
    FirstFailureCons(c2, []);
    FirstFailureCons(c1, [c2]);
    FirstFailureCons(c0, [c1] + [c2]);
    if IsBlank(password) then Some(PasswordRequired)
    else if Utf16Length(password) < MinPasswordLength then Some(PasswordTooShort)
    else if password != confirmPassword then Some(PasswordsDiffer)
    else None
  }

  /** A password that is sent is not blank, has at least six code units, and was typed the same twice. */
  lemma SentPasswordIsValid(password: string, confirmPassword: string)
    requires ResetError(password, confirmPassword).None?
    ensures !IsBlank(password) && Utf16Length(password) >= MinPasswordLength && password == confirmPassword
  {
    var checks := ResetChecks(password, confirmPassword);
    assert checks[0].passes && checks[1].passes && checks[2].passes;
  }

  /** Six spaces are long enough but blank: the blank check, which comes first, refuses them. */
  lemma SpacesAreRefusedAsBlank()
    ensures ResetError("      ", "      ") == Some(PasswordRequired)
  {
    assert Trim("      ") == [];
  }

  /** What the screen shows and where it goes once `updateUser` has answered. */
  datatype Reaction = Reaction(successAlert: bool, errorAlert: Option<string>, redirect: Option<string>)

  /** The reaction as the handler is written: the success alert and the redirect happen only when the call returned an error. */
  function ReactionAsWritten(updateError: Option<string>): (r: Reaction)
    ensures r.successAlert <==> updateError.Some?
    ensures r.redirect.Some? <==> updateError.Some?
    ensures r.errorAlert == None
  {
    if updateError.Some? then Reaction(true, None, Some(TabsRoute)) else Reaction(false, None, None)
  }

  /** A password change that succeeds is met with silence and no navigation, and a failed one is reported as a success. */
  lemma AsWrittenReactionIsInverted(message: string)
    ensures ReactionAsWritten(None) == Reaction(false, None, None)
    ensures ReactionAsWritten(Some(message)).successAlert && ReactionAsWritten(Some(message)).redirect == Some(TabsRoute)
  {
  }

  /** The evident intent: success alert and redirect when the call succeeded, the error reported otherwise. */
  function IntendedReaction(updateError: Option<string>): (r: Reaction)
    ensures r.successAlert <==> updateError.None?
    ensures r.redirect == (if updateError.None? then Some(TabsRoute) else None)
    ensures r.errorAlert == updateError
  {
    if updateError.Some? then Reaction(false, updateError, None) else Reaction(true, None, Some(TabsRoute))
  }

  /** The two reactions never agree: the as-written branch is exactly the negation of the intended one. */
  lemma ReactionsDisagreeOnSuccess(updateError: Option<string>)
    ensures ReactionAsWritten(updateError).successAlert == !IntendedReaction(updateError).successAlert
    ensures ReactionAsWritten(updateError).redirect.Some? == !IntendedReaction(updateError).redirect.Some?
  {
  }

  /** One `updateUser` call: the password sent and whether `loading` was on while it ran. */
  datatype UpdateCall = UpdateCall(password: string, loadingDuringCall: bool)

  class ResetPasswordScreen {
    var password: string
    var confirmPassword: string
    var loading: bool
    /** The `updateUser` calls made so far. */
    var updateCalls: seq<UpdateCall>

    constructor()
      ensures password == "" && confirmPassword == "" && !loading && updateCalls == []
    {
      password, confirmPassword, loading, updateCalls := "", "", false, [];
    }

    /**
     * `handleResetPassword()` as written: a failed check is alerted and nothing
     * is sent; otherwise `updateUser` runs with `loading` on, `loading` goes off,
     * and the screen reacts to the call's result with the inverted branch.
     */
    method HandleResetPassword(updateError: Option<string>) returns (refused: Option<string>, reaction: Option<Reaction>)
      modifies this
      ensures password == old(password) && confirmPassword == old(confirmPassword)
      ensures refused == ResetError(password, confirmPassword)
      ensures refused.Some? ==> reaction == None && updateCalls == old(updateCalls) && loading == old(loading)
      ensures refused.None? ==>
                updateCalls == old(updateCalls) + [UpdateCall(password, true)] && !loading
                && reaction == Some(ReactionAsWritten(updateError))
    {
      if IsBlank(password) {
        return Some(PasswordRequired), None;
      }
      if Utf16Length(password) < MinPasswordLength {
        return Some(PasswordTooShort), None;
      }
      if password != confirmPassword {
        return Some(PasswordsDiffer), None;
      }
      loading := true;
      updateCalls := updateCalls + [UpdateCall(password, loading)];
      loading := false;
      refused := None;
      if updateError.Some? {
        reaction := Some(Reaction(true, None, Some(TabsRoute)));
      } else {
        reaction := Some(Reaction(false, None, None));
      }
    }
  }
}
