/** The login form: username and password, checked before the login thunk is dispatched. */
module LoginForm {
  import opened Js
  import opened Forms
  import AuthSlice

  datatype Field = Username | Password

  datatype FormData = FormData(username: string, password: string)

  const UsernameRequired := "Username is required"
  const PasswordRequired := "Password is required"

  function Get(d: FormData, f: Field): string {
    match f
    case Username => d.username
    case Password => d.password
  }

  /** handleChange: the named field takes the value and only its error is cleared. */
  function HandleChange(d: FormData, errors: Errors<Field>, f: Field, value: string): (r: (FormData, Errors<Field>))
    ensures Get(r.0, f) == value
    ensures forall g :: g != f ==> Get(r.0, g) == Get(d, g)
    ensures r.1 == ClearError(errors, f)
  {
    var d' := match f
      case Username => d.(username := value)
      case Password => d.(password := value);
    (d', ClearError(errors, f))
  }

  function FieldError(d: FormData, f: Field): Option<string> {
    match f
    case Username => NotBlank(d.username, UsernameRequired)
    case Password => Required(d.password, PasswordRequired)
  }

  /** validateForm: each field carries exactly its check's message, and fields that pass carry none. */
  method ValidateForm(d: FormData) returns (errors: Errors<Field>)
    ensures forall f :: MessageFor(errors, f) == FieldError(d, f)
  {
    errors := map[];
    errors := Record(errors, Username, NotBlank(d.username, UsernameRequired));
    errors := Record(errors, Password, Required(d.password, PasswordRequired));
    forall f
      ensures MessageFor(errors, f) == FieldError(d, f)
    {
      match f
      case Username => case Password =>
    }
  }

  /**
   * handleSubmit: the form reaches the login thunk exactly when the username
   * has a visible character and the password is non-empty; the form data is
   * the thunk's argument unchanged.
   */
  method HandleSubmit(d: FormData) returns (s: Submission<Field, AuthSlice.LoginArgs>)
    ensures s.Sent? <==> !IsBlank(d.username) && d.password != ""
    ensures s.Sent? ==> s.payload == AuthSlice.LoginArgs(d.username, d.password)
    ensures s.Blocked? ==> s.errors != map[]
    ensures s.Blocked? ==> forall f :: MessageFor(s.errors, f) == FieldError(d, f)
  {
    var errors := ValidateForm(d);
    EmptyIffNoMessages(errors);
    if |errors| > 0 {
      assert FieldError(d, Username).Some? || FieldError(d, Password).Some?;
      s := Blocked(errors);
    } else {
      assert FieldError(d, Username).None? && FieldError(d, Password).None?;
      s := Sent(AuthSlice.LoginArgs(d.username, d.password));
    }
  }
}
