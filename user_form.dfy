/**
 * The administrator's user dialog (`UserForm`): the field rules of its
 * validation schema, the password-mismatch flag, when the submit button is
 * enabled, and what `onSubmit` sends for a new or an edited user.
 *
 * The form runs the schema on its values with empty strings read as absent,
 * so a rule with no `required` accepts an empty field.
 */
module UserForm {
  import opened Wrappers
  import opened Text
  import opened Json

  /** The formik values; `isEdit` is `!!user`. */
  datatype Values = Values(
    fullName: string,
    email: string,
    password: string,
    confirmPassword: string,
    role: string,
    phone: string,
    status: string,
    isEdit: bool)

  // ---------------------------------------------------------------- validation schema

  const FullNameRequired := "Tên đầy đủ không được để trống"
  const FullNameTooShort := "Tên phải có ít nhất 2 ký tự"
  const EmailInvalid := "Email không hợp lệ"
  const EmailRequired := "Email không được để trống"
  const PasswordTooShort := "Mật khẩu phải có ít nhất 6 ký tự"
  const RoleRequired := "Vai trò không được để trống"
  const PhoneInvalid := "Số điện thoại không hợp lệ"

  /** `full_name`: required, at least two characters. */
  function FullNameError(s: string): (r: Option<string>)
    ensures r.None? <==> |s| >= 2
    ensures s == [] ==> r == Some(FullNameRequired)
    ensures 0 < |s| < 2 ==> r == Some(FullNameTooShort)
  {
    if s == [] then Some(FullNameRequired) else if |s| < 2 then Some(FullNameTooShort) else None
  }

  /**
   * `email`: a non-empty address the schema's e-mail pattern accepts; the
   * pattern is the `isEmail` parameter.
   */
  function EmailError(s: string, isEmail: string -> bool): (r: Option<string>)
    ensures r.None? <==> s != [] && isEmail(s)
    ensures s == [] ==> r == Some(EmailRequired)
  {
    if s == [] then Some(EmailRequired) else if !isEmail(s) then Some(EmailInvalid) else None
  }

  /** `password`: optional, but a given one has at least six characters. */
  function PasswordError(s: string): (r: Option<string>)
    ensures r.None? <==> s == [] || |s| >= 6
  {
    if s != [] && |s| < 6 then Some(PasswordTooShort) else None
  }

  /** `role`: required. */
  function RoleError(s: string): (r: Option<string>)
    ensures r.None? <==> s != []
  {
    if s == [] then Some(RoleRequired) else None
  }

  /** A character of `[0-9+\-\s()]`. */
  predicate PhoneChar(c: char) {
    IsDigit(c) || c == '+' || c == '-' || IsSpace(c) || c == '(' || c == ')'
  }

  /** `phone`: `/^[0-9+\-\s()]*$/`, checked character by character. */
  function PhoneError(s: string): (r: Option<string>)
    ensures r.None? <==> forall i :: 0 <= i < |s| ==> PhoneChar(s[i])
  {
    if s == [] then None
    else if !PhoneChar(s[0]) then Some(PhoneInvalid)
    else PhoneError(s[1..])
  }

  /** The empty phone number is accepted, and a number spelled with a letter is not. */
  lemma PhoneExamples()
    ensures PhoneError("").None?
    ensures PhoneError("+1 (2)-3").None?
    ensures PhoneError("09x").Some?
  {
    assert !PhoneChar("09x"[2]);
  }

  /** `formik.isValid` once the schema has run: no field has an error. */
  predicate SchemaValid(v: Values, isEmail: string -> bool) {
    FullNameError(v.fullName).None? && EmailError(v.email, isEmail).None? && PasswordError(v.password).None?
      && RoleError(v.role).None? && PhoneError(v.phone).None?
  }

  /** The schema in plain terms: what a valid form holds. */
  lemma SchemaValidMeans(v: Values, isEmail: string -> bool)
    ensures SchemaValid(v, isEmail) <==>
      |v.fullName| >= 2 && v.email != [] && isEmail(v.email) && (v.password == [] || |v.password| >= 6)
      && v.role != [] && forall i :: 0 <= i < |v.phone| ==> PhoneChar(v.phone[i])
  {
  }

  // ---------------------------------------------------------------- mismatch and submit button

  /** The effect setting `passwordMismatch`. */
  function PasswordMismatch(password: string, confirmPassword: string): (r: bool)
    ensures r <==> password != [] && confirmPassword != [] && password != confirmPassword
  {
    if password != [] && confirmPassword != [] then password != confirmPassword else false
  }

  /** `disabled={isLoading || passwordMismatch || !formik.isValid}`. */
  predicate SubmitEnabled(v: Values, isLoading: bool, isEmail: string -> bool) {
    !isLoading && !PasswordMismatch(v.password, v.confirmPassword) && SchemaValid(v, isEmail)
  }

  /**
   * An enabled button means a valid form whose two password fields agree or
   * one of them is empty; the confirmation alone is never checked against an
   * empty password.
   */
  lemma EnabledSubmit(v: Values, isEmail: string -> bool)
    requires SubmitEnabled(v, false, isEmail)
    ensures SchemaValid(v, isEmail)
    ensures v.password == [] || v.confirmPassword == [] || v.password == v.confirmPassword
  {
  }

  // ---------------------------------------------------------------- submit

  /** `{ ...values }`: the form values as the object formik passes to `onSubmit`. */
  function ValuesObject(v: Values): map<string, Json> {
    map["full_name" := Str(v.fullName), "email" := Str(v.email), "password" := Str(v.password),
        "confirmPassword" := Str(v.confirmPassword), "role" := Str(v.role), "phone" := Str(v.phone),
        "status" := Str(v.status), "isEdit" := Bool(v.isEdit)]
  }

  /** The keys `onSubmit` deletes: the confirmation and the edit flag, and the password when editing without one. */
  function DroppedKeys(v: Values): set<string> {
    {"confirmPassword", "isEdit"} + if v.isEdit && v.password == [] then {"password"} else {}
  }

  /** `submitData` as `onSubmit` leaves it: the values object without the dropped keys. */
  predicate IsPayload(v: Values, data: map<string, Json>) {
    data.Keys == ValuesObject(v).Keys - DroppedKeys(v) && forall k :: k in data ==> data[k] == ValuesObject(v)[k]
  }

  /** What `onSubmit` does with values the schema accepted. */
  datatype Action = Refuse(message: string) | CreateUser(data: map<string, Json>) | UpdateUser(id: Json, data: map<string, Json>)

  const PasswordNeeded := "Mật khẩu không được để trống khi tạo người dùng mới"

  /** The copy and the deletes that build `submitData`. */
  method BuildPayload(v: Values) returns (submitData: map<string, Json>)
    ensures IsPayload(v, submitData)
  {
    submitData := ValuesObject(v);
    submitData := submitData - {"confirmPassword"};
    submitData := submitData - {"isEdit"};
    if v.isEdit && v.password == [] {
      submitData := submitData - {"password"};
    }
  }

  /** `onSubmit`: a new user needs a password; otherwise the payload goes to `createUser` or `updateUser`. */
  method OnSubmit(v: Values, userId: Json) returns (action: Action)
    ensures action.Refuse? <==> !v.isEdit && v.password == []
    ensures action.Refuse? ==> action.message == PasswordNeeded
    ensures action.UpdateUser? <==> v.isEdit
    ensures action.UpdateUser? ==> action.id == userId
    ensures !action.Refuse? ==> IsPayload(v, action.data)
  {
    if !v.isEdit && v.password == [] {
      return Refuse(PasswordNeeded);
    }
    var submitData := BuildPayload(v);
    if v.isEdit {
      action := UpdateUser(userId, submitData);
    } else {
      action := CreateUser(submitData);
    }
  }

  /** A sent payload never carries the confirmation or the edit flag, carries the password exactly when one was typed, and every other field as typed. */
  lemma PayloadFields(v: Values, data: map<string, Json>)
    requires IsPayload(v, data)
    ensures "confirmPassword" !in data && "isEdit" !in data
    ensures "password" in data <==> !v.isEdit || v.password != []
    ensures "password" in data ==> data["password"] == Str(v.password)
    ensures "full_name" in data && data["full_name"] == Str(v.fullName)
    ensures "email" in data && data["email"] == Str(v.email)
    ensures "role" in data && data["role"] == Str(v.role)
    ensures "phone" in data && data["phone"] == Str(v.phone)
    ensures "status" in data && data["status"] == Str(v.status)
  {
    assert "password" in ValuesObject(v) && "full_name" in ValuesObject(v) && "email" in ValuesObject(v);
    assert "role" in ValuesObject(v) && "phone" in ValuesObject(v) && "status" in ValuesObject(v);
  }

  /**
   * The schema does not require a password, so a new-user form without one
   * enables the button; the refusal comes only from `onSubmit`.
   */
  lemma CreateWithoutPasswordRefusedOnSubmit(isEmail: string -> bool)
    requires isEmail("a@b.c")
    ensures var v := Values("An", "a@b.c", "", "", "student", "", "active", false);
      SubmitEnabled(v, false, isEmail) && !v.isEdit && v.password == []
  {
    var v := Values("An", "a@b.c", "", "", "student", "", "active", false);
    assert PhoneError(v.phone).None?;
  }
}
