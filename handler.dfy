/** The mail handler's identity: the mailbox address and the secret it logs
    in with, read from the environment when the handler is created. */
module Handler {
  import opened Wrappers

  datatype MailHandler = MailHandler(userEmail: string, userPassword: string)

  /** The `ValueError` raised when a credential is missing. */
  datatype ConfigError = CredentialsNotSet

  /** Python truthiness of an optional string: present and non-empty. */
  predicate Truthy(v: Option<string>)
  {
    v.Some? && v.value != ""
  }

  /** `MailHandler()`, given the values of the `EMAIL` and `PASSWORD`
      environment variables (None when unset). */
  function New(email: Option<string>, password: Option<string>): (r: Result<MailHandler, ConfigError>)
    ensures r.Success? <==> Truthy(email) && Truthy(password)
    ensures r.Success? ==> r.value.userEmail == email.value && r.value.userPassword == password.value
    ensures r.Success? ==> r.value.userEmail != "" && r.value.userPassword != ""
  {
    if !Truthy(email) || !Truthy(password) then Failure(CredentialsNotSet)
    else Success(MailHandler(email.value, password.value))
  }
}
