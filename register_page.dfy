/**
 * The registration form: the four field validators, the whole-form check,
 * the live validation as a field is edited, and what a submission sends.
 * Error messages are the translation keys' meanings, as values; the request
 * itself and the server's answer are not modelled.
 */
module RegisterPage {
  import opened Wrappers
  import opened JsText

  const MinNameLength: nat := 2
  const MaxNameLength: nat := 50
  const MinPasswordLength: nat := 6

  datatype FormError =
    | NameRequired | NameTooShort | NameTooLong
    | EmailRequired | EmailInvalid
    | PasswordRequired | PasswordTooShort
    | ConfirmRequired | PasswordsDiffer

  datatype FormData = FormData(name: string, email: string, password: string, confirmPassword: string)

  datatype FormErrors = FormErrors(
    name: Option<FormError>, email: Option<FormError>, password: Option<FormError>,
    confirmPassword: Option<FormError>)

  datatype Field = Name | Email | Password | ConfirmPassword

  /** The body of the registration request. */
  datatype Registration = Registration(name: string, email: string, password: string)

  /** `validateName`: required on a blank name, then the raw length must lie within 2..50. */
  function ValidateName(name: string): (e: Option<FormError>)
    ensures e == Some(NameRequired) <==> AllSpace(name)
    ensures e == Some(NameTooShort) <==> !AllSpace(name) && |name| < MinNameLength
    ensures e == Some(NameTooLong) <==> !AllSpace(name) && |name| > MaxNameLength
    ensures e == None <==> !AllSpace(name) && MinNameLength <= |name| <= MaxNameLength
  {
    if Trim(name) == [] then Some(NameRequired)
    else if |name| < MinNameLength then Some(NameTooShort)
    else if |name| > MaxNameLength then Some(NameTooLong)
    else None
  }

  /** The length is checked before trimming: a one-letter name behind a space passes. */
  lemma NameCheckedUntrimmed()
    ensures ValidateName(" a") == None && |Trim(" a")| == 1
  {
    assert !IsSpace('a');
    assert Trim(" a") == " a"[LeadingSpaces(" a")..TrailingStart(" a")];
    assert LeadingSpaces(" a") == 1 && TrailingStart(" a") == 2;
  }

  /** The class `[^\s@]`. */
  predicate EmailChar(c: char) {
    !IsSpace(c) && c != '@'
  }

  /** `[^\s@]+` over the whole of `s`. */
  predicate EmailRun(s: string) {
    s != [] && forall i :: 0 <= i < |s| ==> EmailChar(s[i])
  }

  /** `[^\s@]+\.[^\s@]+` over the whole of `s`. */
  predicate DomainMatches(s: string) {
    exists j :: 0 < j < |s| - 1 && s[j] == '.' && EmailRun(s[..j]) && EmailRun(s[j + 1..])
  }

  /** `/^[^\s@]+@[^\s@]+\.[^\s@]+$/.test(s)`. */
  predicate EmailMatches(s: string) {
    exists i :: 0 < i < |s| && s[i] == '@' && EmailRun(s[..i]) && DomainMatches(s[i + 1..])
  }

  /** The only `@` of `s` is at index `i`. */
  predicate OnlyAt(s: string, i: int) {
    0 <= i < |s| && s[i] == '@' && forall k :: 0 <= k < |s| && s[k] == '@' ==> k == i
  }

  /** A dot after index `i + 1` that is not the last character. */
  predicate DotAfter(s: string, i: int) {
    exists j :: 0 <= i && i + 1 < j < |s| - 1 && s[j] == '.'
  }

  /**
   * What the pattern accepts: no white space, exactly one `@` with text
   * before it, and after it a dot with text on both sides.
   */
  lemma EmailShape(s: string)
    ensures EmailMatches(s) <==> NoSpace(s) && exists i :: 0 < i && OnlyAt(s, i) && DotAfter(s, i)
  {
    if EmailMatches(s) {
      var i :| 0 < i < |s| && s[i] == '@' && EmailRun(s[..i]) && DomainMatches(s[i + 1..]);
      MatchHasShape(s, i);
    }
    if NoSpace(s) && exists i :: 0 < i && OnlyAt(s, i) && DotAfter(s, i) {
      var i :| 0 < i && OnlyAt(s, i) && DotAfter(s, i);
      ShapeMatches(s, i);
    }
  }

  lemma MatchHasShape(s: string, i: int)
    requires 0 < i < |s| && s[i] == '@' && EmailRun(s[..i]) && DomainMatches(s[i + 1..])
    ensures NoSpace(s) && OnlyAt(s, i) && DotAfter(s, i)
  {
    var d := s[i + 1..];
    var j :| 0 < j < |d| - 1 && d[j] == '.' && EmailRun(d[..j]) && EmailRun(d[j + 1..]);
    forall k | 0 <= k < |s|
      ensures !IsSpace(s[k]) && (s[k] == '@' ==> k == i)
    {
      if k < i {
        assert s[k] == s[..i][k];
      } else if i < k < i + 1 + j {
        assert s[k] == d[..j][k - i - 1];
      } else if k > i + 1 + j {
        assert s[k] == d[j + 1..][k - i - 2 - j];
      } else if k == i + 1 + j {
        assert s[k] == d[j];
      }
    }
    assert s[i + 1 + j] == d[j];
  }

  lemma ShapeMatches(s: string, i: int)
    requires NoSpace(s) && 0 < i && OnlyAt(s, i) && DotAfter(s, i)
    ensures EmailMatches(s)
  {
    var j :| 0 <= i && i + 1 < j < |s| - 1 && s[j] == '.';
    var local, d := s[..i], s[i + 1..];
    var jj := j - i - 1;
    var host, top := d[..jj], d[jj + 1..];
    assert d[jj] == '.';
    assert EmailRun(local) by {
      forall k | 0 <= k < |local|
        ensures EmailChar(local[k])
      {
        assert local[k] == s[k];
      }
    }
    assert EmailRun(host) by {
      forall k | 0 <= k < |host|
        ensures EmailChar(host[k])
      {
        assert host[k] == s[i + 1 + k];
      }
    }
    assert EmailRun(top) by {
      forall k | 0 <= k < |top|
        ensures EmailChar(top[k])
      {
        assert top[k] == s[j + 1 + k];
      }
    }
    assert DomainMatches(d);
  }

  /** A matching address has no white space, so trimming leaves it as it is. */
  lemma EmailUntrimmed(s: string)
    requires EmailMatches(s)
    ensures NoSpace(s) && s != [] && Trim(s) == s
  {
    EmailShape(s);
  }

  /** `validateEmail`: required when blank, otherwise the untrimmed text must match the pattern. */
  function ValidateEmail(email: string): (e: Option<FormError>)
    ensures e == Some(EmailRequired) <==> AllSpace(email)
    ensures e == Some(EmailInvalid) <==> !AllSpace(email) && !EmailMatches(email)
    ensures e == None <==> EmailMatches(email)
  {
    if Trim(email) == [] then Some(EmailRequired)
    else if !EmailMatches(email) then Some(EmailInvalid)
    else None
  }

  /** `validatePassword`: required when empty, then at least six characters. */
  function ValidatePassword(password: string): (e: Option<FormError>)
    ensures e == Some(PasswordRequired) <==> password == ""
    ensures e == Some(PasswordTooShort) <==> 0 < |password| < MinPasswordLength
    ensures e == None <==> |password| >= MinPasswordLength
  {
    if password == "" then Some(PasswordRequired)
    else if |password| < MinPasswordLength then Some(PasswordTooShort)
    else None
  }

  /** `validateConfirmPassword`: required when empty, then equal to the password. */
  function ValidateConfirmPassword(password: string, confirmPassword: string): (e: Option<FormError>)
    ensures e == Some(ConfirmRequired) <==> confirmPassword == ""
    ensures e == Some(PasswordsDiffer) <==> confirmPassword != "" && confirmPassword != password
    ensures e == None <==> confirmPassword != "" && confirmPassword == password
  {
    if confirmPassword == "" then Some(ConfirmRequired)
    else if password != confirmPassword then Some(PasswordsDiffer)
    else None
  }

  /** The errors `validateForm` sets, one validator per field. */
  function FormErrorsOf(form: FormData): FormErrors {
    FormErrors(ValidateName(form.name), ValidateEmail(form.email), ValidatePassword(form.password),
               ValidateConfirmPassword(form.password, form.confirmPassword))
  }

  /** No field carries an error. */
  predicate NoErrors(errors: FormErrors) {
    errors.name.None? && errors.email.None? && errors.password.None? && errors.confirmPassword.None?
  }

  /** A form passes exactly when its name, address and passwords all qualify. */
  lemma FormValidExactly(form: FormData)
    ensures NoErrors(FormErrorsOf(form)) <==>
              && !AllSpace(form.name) && MinNameLength <= |form.name| <= MaxNameLength
              && EmailMatches(form.email)
              && |form.password| >= MinPasswordLength && form.confirmPassword == form.password
  {
  }

  function Get(errors: FormErrors, field: Field): Option<FormError> {
    match field
    case Name => errors.name
    case Email => errors.email
    case Password => errors.password
    case ConfirmPassword => errors.confirmPassword
  }

  function SetError(errors: FormErrors, field: Field, e: Option<FormError>): (r: FormErrors)
    ensures Get(r, field) == e
    ensures forall f :: f != field ==> Get(r, f) == Get(errors, f)
  {
    match field
    case Name => errors.(name := e)
    case Email => errors.(email := e)
    case Password => errors.(password := e)
    case ConfirmPassword => errors.(confirmPassword := e)
  }

  function SetValue(form: FormData, field: Field, value: string): FormData {
    match field
    case Name => form.(name := value)
    case Email => form.(email := value)
    case Password => form.(password := value)
    case ConfirmPassword => form.(confirmPassword := value)
  }

  /**
   * The live check of an edited field (the confirmation is compared with the
   * password as it stands): the verdict the whole-form check gives that field
   * once the value is in.
   */
  function FieldError(form: FormData, field: Field, value: string): (e: Option<FormError>)
    ensures e == Get(FormErrorsOf(SetValue(form, field, value)), field)
  {
    match field
    case Name => ValidateName(value)
    case Email => ValidateEmail(value)
    case Password => ValidatePassword(value)
    case ConfirmPassword => ValidateConfirmPassword(form.password, value)
  }

  /** The form's state: what has been typed, the errors shown, and the registrations sent. */
  class RegisterPage {
    var form: FormData
    var errors: FormErrors
    var sent: seq<Registration>

    constructor ()
      ensures form == FormData("", "", "", "") && errors == FormErrors(None, None, None, None) && sent == []
    {
      form := FormData("", "", "", "");
      errors := FormErrors(None, None, None, None);
      sent := [];
    }

    /**
     * `handleInputChange`: the field takes the value, and its error becomes the
     * live check's verdict (a stale error is cleared first); the other fields'
     * errors stay as they were, so editing the password does not re-check the
     * confirmation.
     */
    method HandleInputChange(field: Field, value: string)
      modifies this
      ensures form == SetValue(old(form), field, value)
      ensures errors == SetError(old(errors), field, FieldError(old(form), field, value))
      ensures sent == old(sent)
    {
      var before := form;
      form := SetValue(form, field, value);
      if Get(errors, field).Some? {
        errors := SetError(errors, field, None);
      }
      var error := FieldError(before, field, value);
      if error.Some? {
        errors := SetError(errors, field, error);
      }
      assert errors == SetError(old(errors), field, error) by {
        forall f
          ensures Get(errors, f) == Get(SetError(old(errors), field, error), f)
        {
        }
        ErrorsExtensional(errors, SetError(old(errors), field, error));
      }
    }

    /** `validateForm`: every field is checked and its error shown; true when there is none. */
    method ValidateForm() returns (ok: bool)
      modifies this
      ensures errors == FormErrorsOf(old(form))
      ensures ok <==> NoErrors(errors)
      ensures form == old(form) && sent == old(sent)
    {
      var newErrors := FormErrors(None, None, None, None);
      newErrors := newErrors.(name := ValidateName(form.name));
      newErrors := newErrors.(email := ValidateEmail(form.email));
      newErrors := newErrors.(password := ValidatePassword(form.password));
      newErrors := newErrors.(confirmPassword := ValidateConfirmPassword(form.password, form.confirmPassword));
      errors := newErrors;
      ok := !(newErrors.name.Some? || newErrors.email.Some? || newErrors.password.Some? ||
              newErrors.confirmPassword.Some?);
    }

    /** `handleSubmit`: a valid form sends the trimmed name and address and the password as typed. */
    method HandleSubmit() returns (submitted: bool)
      modifies this
      ensures errors == FormErrorsOf(old(form)) && form == old(form)
      ensures submitted <==> NoErrors(FormErrorsOf(old(form)))
      ensures submitted ==> sent == old(sent) + [Registration(Trim(form.name), form.email, form.password)]
      ensures !submitted ==> sent == old(sent)
    {
      var ok := ValidateForm();
      if !ok {
        return false;
      }
      EmailUntrimmed(form.email);
      sent := sent + [Registration(Trim(form.name), Trim(form.email), form.password)];
      submitted := true;
    }
  }

  /** Two error records that agree on every field are the same. */
  lemma ErrorsExtensional(a: FormErrors, b: FormErrors)
    requires forall f :: Get(a, f) == Get(b, f)
    ensures a == b
  {
    assert Get(a, Name) == Get(b, Name) && Get(a, Email) == Get(b, Email);
    assert Get(a, Password) == Get(b, Password) && Get(a, ConfirmPassword) == Get(b, ConfirmPassword);
  }
}
