/**
 * The registration form. The page and the component versions of the form
 * carry the same validator, change handler and payload, so both are this one
 * module.
 */
module RegisterForm {
  import opened Js
  import opened Forms
  import AuthSlice

  /** The inputs, by their `name`: username, email, password, confirmPassword, phone_number, role. */
  datatype Field = Username | Email | Password | ConfirmPassword | PhoneNumber | Role

  datatype FormData = FormData(username: string, email: string, password: string, confirmPassword: string, phone_number: string, role: string)

  const UsernameRequired := "Username is required"
  const EmailRequired := "Email is required"
  const EmailInvalid := "Invalid email format"
  const PhoneRequired := "Phone number is required"
  const RoleRequired := "Role is required"
  const PasswordRequired := "Password is required"
  const PasswordTooShort := "Password must be at least 6 characters"
  const PasswordMismatch := "Passwords do not match"

  function Get(d: FormData, f: Field): string {
    match f
    case Username => d.username
    case Email => d.email
    case Password => d.password
    case ConfirmPassword => d.confirmPassword
    case PhoneNumber => d.phone_number
    case Role => d.role
  }

  /** handleChange: the named field takes the value and only its error is cleared. */
  function HandleChange(d: FormData, errors: Errors<Field>, f: Field, value: string): (r: (FormData, Errors<Field>))
    ensures Get(r.0, f) == value
    ensures forall g :: g != f ==> Get(r.0, g) == Get(d, g)
    ensures r.1 == ClearError(errors, f)
  {
    var d' := match f
      case Username => d.(username := value)
      case Email => d.(email := value)
      case Password => d.(password := value)
      case ConfirmPassword => d.(confirmPassword := value)
      case PhoneNumber => d.(phone_number := value)
      case Role => d.(role := value);
    (d', ClearError(errors, f))
  }

  /** The character class [^\s@]. */
  predicate PlainChar(c: char) {
    !IsWhitespace(c) && c != '@'
  }

  predicate AllPlain(t: string) {
    forall k :: 0 <= k < |t| ==> PlainChar(t[k])
  }

  /** The pattern ^[^\s@]+@[^\s@]+\.[^\s@]+$, as a split of the whole string into its five parts. */
  ghost predicate MatchesEmailPattern(s: string) {
    exists i, j :: 0 < i && i + 1 < j && j + 1 < |s| && s[i] == '@' && s[j] == '.'
      && AllPlain(s[..i]) && AllPlain(s[i + 1..j]) && AllPlain(s[j + 1..])
  }

  /** The position of the first occurrence of `c`. */
  function IndexOf(s: string, c: char): (r: Option<nat>)
    ensures r.Some? ==> r.value < |s| && s[r.value] == c && c !in s[..r.value]
    ensures r.None? ==> c !in s
  {
    if s == [] then None
    else if s[0] == c then Some(0)
    else match IndexOf(s[1..], c)
      case Some(i) => assert s[..i + 1] == [s[0]] + s[1..][..i]; Some(i + 1)
      case None => None
  }

  /** The pattern decided without a search over splits: the first '@', then a '.' strictly inside the rest. */
  function EmailShape(s: string): bool {
    match IndexOf(s, '@')
    case None => false
    case Some(i) =>
      var rest := s[i + 1..];
      0 < i && AllPlain(s[..i]) && AllPlain(rest) && |rest| >= 3 && '.' in rest[1..|rest| - 1]
  }

  /** The decision procedure agrees with the pattern on every string. */
  lemma ShapeIffPattern(s: string)
    ensures EmailShape(s) <==> MatchesEmailPattern(s)
  {
    if EmailShape(s) {
      ShapeMatches(s);
    }
    if MatchesEmailPattern(s) {
      var i, j :| 0 < i && i + 1 < j && j + 1 < |s| && s[i] == '@' && s[j] == '.'
        && AllPlain(s[..i]) && AllPlain(s[i + 1..j]) && AllPlain(s[j + 1..]);
      MatchIsShape(s, i, j);
    }
  }

  lemma ShapeMatches(s: string)
    requires EmailShape(s)
    ensures MatchesEmailPattern(s)
  {
    var i := IndexOf(s, '@').value;
    var rest := s[i + 1..];
    var k :| 0 <= k < |rest| - 2 && rest[1..|rest| - 1][k] == '.';
    var j := i + 2 + k;
    assert s[j] == '.';
    assert s[i + 1..j] == rest[..k + 1];
    assert s[j + 1..] == rest[k + 2..];
    AllPlainSlice(rest, 0, k + 1);
    AllPlainSlice(rest, k + 2, |rest|);
    assert rest[k + 2..|rest|] == rest[k + 2..];
    assert 0 < i && i + 1 < j && j + 1 < |s| && s[i] == '@' && s[j] == '.'
      && AllPlain(s[..i]) && AllPlain(s[i + 1..j]) && AllPlain(s[j + 1..]);
  }

  /** Every slice of a string of plain characters is plain. */
  lemma AllPlainSlice(t: string, a: nat, b: nat)
    requires a <= b <= |t| && AllPlain(t)
    ensures AllPlain(t[a..b])
  {
    assert forall m :: 0 <= m < b - a ==> t[a..b][m] == t[a + m];
  }

  lemma MatchIsShape(s: string, i: nat, j: nat)
    requires 0 < i && i + 1 < j && j + 1 < |s| && s[i] == '@' && s[j] == '.'
    requires AllPlain(s[..i]) && AllPlain(s[i + 1..j]) && AllPlain(s[j + 1..])
    ensures EmailShape(s)
  {
    FirstAt(s, i);
    var rest := s[i + 1..];
    assert rest == s[i + 1..j] + [s[j]] + s[j + 1..];
    assert AllPlain(rest);
    assert rest[1..|rest| - 1][j - i - 2] == '.';
  }

  lemma FirstAt(s: string, i: nat)
    requires i < |s| && s[i] == '@' && AllPlain(s[..i])
    ensures IndexOf(s, '@') == Some(i)
  {
    assert s[i] in s;
    var at := IndexOf(s, '@').value;
    assert forall m :: 0 <= m < at ==> s[..at][m] == s[m];
    assert forall m :: 0 <= m < i ==> s[..i][m] == s[m];
  }

  /** `/^[^\s@]+@[^\s@]+\.[^\s@]+$/.test(s)`: true exactly for the strings the pattern matches. */
  function IsEmail(s: string): (r: bool)
    ensures r <==> MatchesEmailPattern(s)
  {
    ShapeIffPattern(s);
    EmailShape(s)
  }

  /** The email check: present first, then of the form local@domain.tld. */
  function EmailError(email: string): (r: Option<string>)
    ensures IsBlank(email) ==> r == Some(EmailRequired)
    ensures !IsBlank(email) && !MatchesEmailPattern(email) ==> r == Some(EmailInvalid)
    ensures r == None <==> !IsBlank(email) && MatchesEmailPattern(email)
  {
    if IsBlank(email) then Some(EmailRequired)
    else if !IsEmail(email) then Some(EmailInvalid)
    else None
  }

  /** The password check: present first, then at least six UTF-16 code units. */
  function PasswordError(password: string): (r: Option<string>)
    ensures password == "" ==> r == Some(PasswordRequired)
    ensures password != "" && Utf16Length(password) < 6 ==> r == Some(PasswordTooShort)
    ensures r == None <==> Utf16Length(password) >= 6
  {
    if password == "" then Some(PasswordRequired)
    else if Utf16Length(password) < 6 then Some(PasswordTooShort)
    else None
  }

  /** The confirmation check: it must equal the password exactly. */
  function ConfirmError(password: string, confirm: string): (r: Option<string>)
    ensures r.Some? <==> password != confirm
    ensures r.Some? ==> r.value == PasswordMismatch
  {
    if password != confirm then Some(PasswordMismatch) else None
  }

  /** The message a field's check produces, or None when the field passes. */
  function FieldError(d: FormData, f: Field): Option<string> {
    match f
    case Username => NotBlank(d.username, UsernameRequired)
    case Email => EmailError(d.email)
    case Password => PasswordError(d.password)
    case ConfirmPassword => ConfirmError(d.password, d.confirmPassword)
    case PhoneNumber => NotBlank(d.phone_number, PhoneRequired)
    case Role => Required(d.role, RoleRequired)
  }

  /** The form passes every check: what the validator accepts, stated as one predicate. */
  ghost predicate Acceptable(d: FormData) {
    && !IsBlank(d.username)
    && !IsBlank(d.email) && MatchesEmailPattern(d.email)
    && !IsBlank(d.phone_number)
    && d.role != ""
    && Utf16Length(d.password) >= 6
    && d.password == d.confirmPassword
  }

  /** A form is acceptable exactly when no field's check fails. */
  lemma AcceptableIffNoFieldError(d: FormData)
    ensures Acceptable(d) <==> forall f :: FieldError(d, f).None?
  {
    if !Acceptable(d) {
      if IsBlank(d.username) { assert FieldError(d, Username).Some?; }
      else if IsBlank(d.email) || !MatchesEmailPattern(d.email) { assert FieldError(d, Email).Some?; }
      else if IsBlank(d.phone_number) { assert FieldError(d, PhoneNumber).Some?; }
      else if d.role == "" { assert FieldError(d, Role).Some?; }
      else if Utf16Length(d.password) < 6 { assert FieldError(d, Password).Some?; }
      else { assert FieldError(d, ConfirmPassword).Some?; }
    }
  }

  /** validateForm: each field carries exactly its check's message, and fields that pass carry none. */
  method ValidateForm(d: FormData) returns (errors: Errors<Field>)
    ensures forall f :: MessageFor(errors, f) == FieldError(d, f)
  {
    errors := map[];
    errors := Record(errors, Username, NotBlank(d.username, UsernameRequired));
    errors := Record(errors, Email, EmailError(d.email));
    errors := Record(errors, PhoneNumber, NotBlank(d.phone_number, PhoneRequired));
    errors := Record(errors, Role, Required(d.role, RoleRequired));
    errors := Record(errors, Password, PasswordError(d.password));
    errors := Record(errors, ConfirmPassword, ConfirmError(d.password, d.confirmPassword));
    forall f
      ensures MessageFor(errors, f) == FieldError(d, f)
    {
      match f
      case Username => case Email => case Password => case ConfirmPassword => case PhoneNumber => case Role =>
    }
  }

  /** The payload handed to the register thunk: phone and role nested under `profile`. */
  function Payload(d: FormData): (p: AuthSlice.RegisterArgs)
    ensures p.username == d.username && p.email == d.email && p.password == d.password
    ensures p.profile == AuthSlice.Profile(d.phone_number, d.role)
  {
    AuthSlice.RegisterArgs(d.username, d.email, d.password, AuthSlice.Profile(d.phone_number, d.role))
  }

  /** The confirmation field is never part of the payload. */
  lemma PayloadIgnoresConfirmation(d: FormData, other: string)
    ensures Payload(d.(confirmPassword := other)) == Payload(d)
  {
  }

  /**
   * What the register endpoint receives from a submitted form: username, email
   * and password only; the phone number and role the form demands are dropped.
   */
  lemma SentBodyFromForm(d: FormData, phone: string, role: string)
    ensures AuthSlice.RegisterRequestBody(Payload(d)) == AuthSlice.RegisterBody(d.username, d.email, d.password)
    ensures AuthSlice.RegisterRequestBody(Payload(d.(phone_number := phone, role := role)))
         == AuthSlice.RegisterRequestBody(Payload(d))
  {
  }

  /** handleSubmit: the errors are shown when there are any, otherwise the payload is dispatched. */
  method HandleSubmit(d: FormData) returns (s: Submission<Field, AuthSlice.RegisterArgs>)
    ensures s.Sent? <==> Acceptable(d)
    ensures s.Sent? ==> s.payload == Payload(d)
    ensures s.Blocked? ==> s.errors != map[]
    ensures s.Blocked? ==> forall f :: MessageFor(s.errors, f) == FieldError(d, f)
  {
    var errors := ValidateForm(d);
    AcceptableIffNoFieldError(d);
    EmptyIffNoMessages(errors);
    if |errors| > 0 {
      s := Blocked(errors);
    } else {
      s := Sent(Payload(d));
    }
  }
}
