/**
 * The first-time setup form: name, location and business must be filled
 * in, and the new password must be at least 8 characters and confirmed.
 * The checks run in that order and the first failure is reported.
 */
module FirstTimeSetupPage {

  datatype SetupOutcome = MissingInformation | WeakPassword | PasswordsDoNotMatch | ProfileCompleted

  /** `handleSubmit`'s early-return guard chain. */
  function ValidateSetup(name: string, location: string, business: string,
                         password: string, confirm: string): (r: SetupOutcome)
    ensures r == ProfileCompleted <==>
      name != "" && location != "" && business != "" && |password| >= 8 && password == confirm
    ensures name == "" || location == "" || business == "" ==> r == MissingInformation
    ensures r == MissingInformation ==> name == "" || location == "" || business == ""
    ensures name != "" && location != "" && business != "" && |password| < 8 ==> r == WeakPassword
    ensures r == PasswordsDoNotMatch <==>
      name != "" && location != "" && business != "" && |password| >= 8 && password != confirm
  {
    if name == "" || location == "" || business == "" then MissingInformation
    else if |password| < 8 then WeakPassword
    else if password != confirm then PasswordsDoNotMatch
    else ProfileCompleted
  }

  /** The password is not looked at while a field is missing. */
  lemma MissingFieldIgnoresPassword(name: string, location: string, business: string,
                                    p1: string, c1: string, p2: string, c2: string)
    requires name == "" || location == "" || business == ""
    ensures ValidateSetup(name, location, business, p1, c1) == ValidateSetup(name, location, business, p2, c2)
  {
  }

  /** Length is checked before equality: a short password that matches its confirmation is "weak", not a mismatch. */
  lemma ShortMatchingPasswordIsWeak(name: string, location: string, business: string, password: string)
    requires name != "" && location != "" && business != ""
    requires |password| < 8
    ensures ValidateSetup(name, location, business, password, password) == WeakPassword
  {
  }
}
