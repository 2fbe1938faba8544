/**
 * RegistrationActivity.onRegisterBtnClick: the ordered checks on the three
 * trimmed fields and the registration request built when they all pass.
 */
module Registration {
  import opened JavaLang

  /** REGISTER_URL, with its single slash after "http:". */
  const RegisterUrl: string := "http:/51.21.214.199/register.php"

  const AllFieldsRequired: string := "All fields are required"
  const LeadingBlank: string := "Password cannot start with a blank space"
  const PasswordsDiffer: string := "Passwords do not match"

  /** What a click on Register does: show a toast and stop, or queue one POST. */
  datatype Outcome =
    | Rejected(toast: string)
    | Post(url: string, params: map<string, string>)

  /**
   * onRegisterBtnClick on the raw text of the username, password and
   * confirmation fields. The checks run in order and the first that fails
   * decides: an empty trimmed field, a password starting with a blank, two
   * different passwords; otherwise one POST to REGISTER_URL with up_ime and
   * password set to the trimmed username and password.
   */
  function OnRegisterClick(username: string, password: string, confirm: string): (o: Outcome)
    ensures o == Rejected(AllFieldsRequired) <==> Trim(username) == "" || Trim(password) == "" || Trim(confirm) == ""
    ensures o == Rejected(PasswordsDiffer) <==>
      Trim(username) != "" && Trim(password) != "" && Trim(confirm) != "" && Trim(password) != Trim(confirm)
    ensures o.Post? <==>
      Trim(username) != "" && Trim(password) != "" && Trim(confirm) != "" && Trim(password) == Trim(confirm)
    ensures o.Post? ==> o.url == RegisterUrl
    ensures o.Post? ==> o.params == map["up_ime" := Trim(username), "password" := Trim(password)]
  {
    var user, pass, again := Trim(username), Trim(password), Trim(confirm);
    if user == "" || pass == "" || again == "" then Rejected(AllFieldsRequired)
    else if |pass| > 0 && pass[0] == ' ' then Rejected(LeadingBlank)
    else if pass != again then Rejected(PasswordsDiffer)
    else Post(RegisterUrl, map["up_ime" := user, "password" := pass])
  }

  /**
   * The blank-space rule never rejects anything: the password it looks at
   * has already been trimmed, and trimming removes every leading blank.
   */
  lemma LeadingBlankNeverFires(username: string, password: string, confirm: string)
    ensures OnRegisterClick(username, password, confirm) != Rejected(LeadingBlank)
  {
  }

  /** A request is only ever made with a password that neither starts nor ends with a blank or control char. */
  lemma PostedPasswordIsTrimmed(username: string, password: string, confirm: string)
    requires OnRegisterClick(username, password, confirm).Post?
    ensures var p := OnRegisterClick(username, password, confirm).params["password"];
      p != "" && !IsTrimmed(p[0]) && !IsTrimmed(p[|p| - 1])
  {
    assert OnRegisterClick(username, password, confirm).params["password"] == Trim(password);
  }
}
