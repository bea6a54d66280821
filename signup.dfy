/**
 * The sign-up form of src/app/auth/signup/page.tsx: two checks on the
 * passwords, in a fixed order, before the account is created, and the
 * profile row written once it is.
 *
 * The auth service's reply is an input; the request sent to it and the
 * profile row inserted are outputs.
 */
module Signup {
  import opened Optional
  import opened JsStrings

  const MinPasswordLength: nat := 6
  const MismatchMessage: string := "Passwords do not match"
  const TooShortMessage: string := "Password must be at least 6 characters"
  const DefaultThemeId: string := "cosmos"

  /** The validation error, if any: the mismatch is checked first. */
  function Validate(password: string, confirmPassword: string): (r: Option<string>)
    ensures r.None? <==> password == confirmPassword && |password| >= MinPasswordLength
    ensures password != confirmPassword ==> r == Some(MismatchMessage)
    ensures password == confirmPassword && |password| < MinPasswordLength ==> r == Some(TooShortMessage)
  {
    if password != confirmPassword then Some(MismatchMessage)
    else if |password| < MinPasswordLength then Some(TooShortMessage)
    else None
  }

  /** A short pair that also differs reports the mismatch, not the length. */
  lemma MismatchReportedFirst(password: string, confirmPassword: string)
    requires password != confirmPassword && |password| < MinPasswordLength
    ensures Validate(password, confirmPassword) == Some(MismatchMessage)
  {
  }

  /** `username || email.split('@')[0]` */
  function DefaultUsername(username: string, email: string): (r: string)
    ensures username != "" ==> r == username
    ensures username == "" ==> r <= email && '@' !in r && (|r| < |email| ==> email[|r|] == '@')
  {
    if username != "" then username else SplitOn(email, '@')[0]
  }

  /** An email with an '@' and no username gives the local part. */
  lemma UsernameFromEmail(local: string, domain: string)
    requires '@' !in local
    ensures DefaultUsername("", local + "@" + domain) == local
  {
    var e := local + "@" + domain;
    var r := DefaultUsername("", e);
    assert e[|local|] == '@';
    assert forall i :: 0 <= i < |r| ==> r[i] == e[i] && r[i] != '@';
    assert |r| <= |local|;
    if |r| < |local| {
      assert false;
    }
    assert r == e[..|r|];
    assert e[..|local|] == local;
  }

  datatype SignUpRequest = SignUpRequest(email: string, password: string, username: string)
  datatype ProfileInsert = ProfileInsert(id: string, username: string, themeId: string)

  /** The auth reply: an error with its message, or data whose user may be null. */
  datatype AuthReply = AuthError(message: string) | AuthData(userId: Option<string>)

  class SignUpPage {
    var email: string
    var password: string
    var confirmPassword: string
    var username: string
    var error: Option<string>
    var loading: bool
    var success: bool

    constructor()
      ensures email == "" && password == "" && confirmPassword == "" && username == ""
      ensures error == None && !loading && !success
    {
      email := "";
      password := "";
      confirmPassword := "";
      username := "";
      error := None;
      loading := false;
      success := false;
    }

    /** The four inputs of the form, as typed. */
    method Fill(newEmail: string, newPassword: string, newConfirm: string, newUsername: string)
      modifies this
      ensures email == newEmail && password == newPassword
      ensures confirmPassword == newConfirm && username == newUsername
      ensures error == old(error) && loading == old(loading) && success == old(success)
    {
      email := newEmail;
      password := newPassword;
      confirmPassword := newConfirm;
      username := newUsername;
    }

    /** `handleSignUp`: a failed check shows its message and calls nothing;
        otherwise the sign-up request is sent, an auth error is shown, and
        a returned user gets a profile row with the same username and the
        'cosmos' theme. After a success (or a reply without a user)
        `loading` stays set, as the page moves on. */
    method SignUp(reply: AuthReply) returns (request: Option<SignUpRequest>, insert: Option<ProfileInsert>)
      modifies this
      ensures var v := Validate(password, confirmPassword);
        && (v.Some? ==> request.None? && insert.None? && error == v && !loading && success == old(success))
        && (v.None? ==> request == Some(SignUpRequest(email, password, DefaultUsername(username, email))))
        && (v.None? && reply.AuthError? ==>
              insert.None? && error == Some(reply.message) && !loading && success == old(success))
        && (v.None? && reply.AuthData? && reply.userId.Some? ==>
              insert == Some(ProfileInsert(reply.userId.value, DefaultUsername(username, email), DefaultThemeId))
              && error == None && loading && success)
        && (v.None? && reply.AuthData? && reply.userId.None? ==>
              insert.None? && error == None && loading && success == old(success))
      ensures email == old(email) && password == old(password)
      ensures confirmPassword == old(confirmPassword) && username == old(username)
    {
      loading := true;
      error := None;
      insert := None;
      if password != confirmPassword {
        error := Some(MismatchMessage);
        loading := false;
        return None, None;
      }
      if |password| < MinPasswordLength {
        error := Some(TooShortMessage);
        loading := false;
        return None, None;
      }
      request := Some(SignUpRequest(email, password, DefaultUsername(username, email)));
      if reply.AuthError? {
        error := Some(reply.message);
        loading := false;
      } else if reply.userId.Some? {
        insert := Some(ProfileInsert(reply.userId.value, DefaultUsername(username, email), DefaultThemeId));
        success := true;
      }
    }
  }
}
