/**
 * Password rules of the employee form. `Clean` decides on the two password
 * fields; `PasswordAction` is what `save` does to the stored password, and
 * `EmployeeRecord.Save` does it to the instance.
 * Hashing is left abstract: a password is recorded as the text it was set to.
 */
module EmployeeForm {
  import opened Outcomes

  const PasswordMismatch := "As senhas não coincidem"
  const PasswordTooShort := "A senha deve ter pelo menos 6 caracteres"
  const PasswordRequired := "Senha é obrigatória ao criar um novo funcionário"
  const DefaultPassword := "changeme123"

  /**
   * `EmployeeForm.clean` on the password fields; `isNew` says the instance has
   * no pk yet. On success the accepted password is returned.
   */
  function Clean(isNew: bool, password: string, confirm: string): (r: Result<string>)
    ensures (password != "" || confirm != "") && password != confirm ==> r == Invalid(PasswordMismatch)
    ensures password == confirm && password != "" && |password| < 6 ==> r == Invalid(PasswordTooShort)
    ensures isNew && password == "" && confirm == "" ==> r == Invalid(PasswordRequired)
    ensures r.Ok? <==> password == confirm && (password == "" ==> !isNew) && (password != "" ==> |password| >= 6)
    ensures r.Ok? ==> r.value == password
  {
    if (password != "" || confirm != "") && password != confirm then Invalid(PasswordMismatch)
    else if (password != "" || confirm != "") && |password| < 6 then Invalid(PasswordTooShort)
    else if isNew && password == "" then Invalid(PasswordRequired)
    else Ok(password)
  }

  /** What `save` does to the stored password. */
  datatype PasswordAction = SetGiven(password: string) | SetDefault | KeepCurrent

  function SaveAction(isNew: bool, password: string): (a: PasswordAction)
    ensures a.SetGiven? <==> password != ""
    ensures a.SetGiven? ==> a.password == password
    ensures a == SetDefault <==> isNew && password == ""
    ensures a == KeepCurrent <==> !isNew && password == ""
  {
    if password != "" then SetGiven(password)
    else if isNew then SetDefault
    else KeepCurrent
  }

  /** The stored password after `action`, starting from `current`. */
  function Apply(action: PasswordAction, current: string): (p: string)
    ensures action.SetGiven? ==> p == action.password
    ensures action == SetDefault ==> p == DefaultPassword
    ensures action == KeepCurrent ==> p == current
  {
    match action
    case SetGiven(password) => password
    case SetDefault => DefaultPassword
    case KeepCurrent => current
  }

  /** The employee instance a form edits: whether it has a pk yet, and its (abstractly hashed) password. */
  class EmployeeRecord {
    var hasPk: bool
    var password: string

    constructor (hasPk: bool, password: string)
      ensures this.hasPk == hasPk && this.password == password
    {
      this.hasPk := hasPk;
      this.password := password;
    }

    /**
     * `EmployeeForm.save` with the cleaned `password`: the record gets a pk
     * only when it is committed, and its password is set as `SaveAction` decides.
     */
    method Save(password: string, commit: bool)
      modifies this
      ensures hasPk == (old(hasPk) || commit)
      ensures this.password == Apply(SaveAction(!old(hasPk), password), old(this.password))
    {
      if password != "" {
        this.password := password;
      }
      if !hasPk && password == "" {
        this.password := DefaultPassword;
      }
      if commit {
        hasPk := true;
      }
    }
  }

  /** After a successful `clean`, `save` never falls back to the default password. */
  lemma ValidFormNeverUsesDefault(isNew: bool, password: string, confirm: string)
    requires Clean(isNew, password, confirm).Ok?
    ensures SaveAction(isNew, password) != SetDefault
    ensures isNew ==> SaveAction(isNew, password) == SetGiven(password) && |password| >= 6
  {
  }

  /** The mismatch check runs first: '123' against '1234' reports a mismatch, not a short password. */
  lemma MismatchBeforeLength(password: string, confirm: string)
    requires password == "123" && confirm == "1234"
    ensures Clean(true, password, confirm) == Invalid(PasswordMismatch)
    ensures Clean(false, password, confirm) == Invalid(PasswordMismatch)
  {
  }

  /** Editing an employee with both fields empty is valid and keeps the current password. */
  lemma BlankOnEditKeepsPassword()
    ensures Clean(false, "", "") == Ok("")
    ensures SaveAction(false, "") == KeepCurrent
  {
  }
}
