/** The registration and login schemas. The email format check is zod's
    own and is passed in as `isEmail`. Unknown keys are stripped. */
module AuthValidator {
  import opened Common
  import Schema

  const RoleEnum: seq<string> := ["admin", "therapist", "patient"]

  const RegisterKeys: set<string> :=
    {"full_name", "email", "contact_phone", "address", "role", "password", "specialization", "experience_years"}
  const RequiredRegisterKeys: set<string> := {"full_name", "email", "password"}
  const LoginKeys: set<string> := {"email", "password"}

  /** The rule for each key, shared by both schemas. */
  predicate AuthFieldOk(k: string, v: Value, isEmail: string -> bool) {
    if k == "full_name" then v.JStr? && |v.s| >= 2
    else if k == "email" then v.JStr? && isEmail(v.s)
    else if k == "contact_phone" || k == "address" || k == "specialization" then v.JStr?
    else if k == "role" then v.JStr? && v.s in RoleEnum
    else if k == "password" then v.JStr? && |v.s| >= 4
    else if k == "experience_years" then v.JNum? && IsInteger(v.n)
    else false
  }

  /** The output of `registerUserSchema`, the role defaulted. */
  datatype Registration = Registration(
    fullName: string, email: string, contactPhone: Option<string>, address: Option<string>,
    role: string, password: string, specialization: Option<string>, experienceYears: Option<int>)

  datatype Login = Login(email: string, password: string)

  predicate ValidRegistration(x: Registration, isEmail: string -> bool) {
    |x.fullName| >= 2 && isEmail(x.email) && x.role in RoleEnum && |x.password| >= 4
  }

  predicate ValidLogin(x: Login, isEmail: string -> bool) {
    isEmail(x.email) && |x.password| >= 4
  }

  function OptStrValue(x: Option<string>): Option<Value> {
    if x.Some? then Some(JStr(x.value)) else None
  }

  /** The value a registration request carries under `k`; the role is
      written only when `withRole`. */
  function RegisterValue(x: Registration, withRole: bool, k: string): Option<Value> {
    if k == "full_name" then Some(JStr(x.fullName))
    else if k == "email" then Some(JStr(x.email))
    else if k == "contact_phone" then OptStrValue(x.contactPhone)
    else if k == "address" then OptStrValue(x.address)
    else if k == "role" then (if withRole then Some(JStr(x.role)) else None)
    else if k == "password" then Some(JStr(x.password))
    else if k == "specialization" then OptStrValue(x.specialization)
    else if k == "experience_years" then (if x.experienceYears.Some? then Some(Num(x.experienceYears.value)) else None)
    else None
  }

  function EncodeRegistration(x: Registration, withRole: bool): Value {
    JObj(map k | k in RegisterKeys && RegisterValue(x, withRole, k).Some? :: RegisterValue(x, withRole, k).value)
  }

  function EncodeLogin(x: Login): Value {
    JObj(map["email" := JStr(x.email), "password" := JStr(x.password)])
  }

  predicate RegisterShape(f: map<string, Value>, isEmail: string -> bool) {
    RequiredRegisterKeys <= f.Keys && forall k :: k in f && k in RegisterKeys ==> AuthFieldOk(k, f[k], isEmail)
  }

  function OptStrOf(f: map<string, Value>, k: string): Option<string>
    requires k in f ==> f[k].JStr?
  {
    if k in f then Some(f[k].s) else None
  }

  function DecodeRegistration(f: map<string, Value>, isEmail: string -> bool): Registration
    requires RegisterShape(f, isEmail)
  {
    assert AuthFieldOk("full_name", f["full_name"], isEmail) && AuthFieldOk("email", f["email"], isEmail);
    assert AuthFieldOk("password", f["password"], isEmail);
    assert "contact_phone" in f ==> AuthFieldOk("contact_phone", f["contact_phone"], isEmail);
    assert "address" in f ==> AuthFieldOk("address", f["address"], isEmail);
    assert "specialization" in f ==> AuthFieldOk("specialization", f["specialization"], isEmail);
    assert "role" in f ==> AuthFieldOk("role", f["role"], isEmail);
    assert "experience_years" in f ==> AuthFieldOk("experience_years", f["experience_years"], isEmail);
    Registration(f["full_name"].s, f["email"].s, OptStrOf(f, "contact_phone"), OptStrOf(f, "address"),
                 if "role" in f then f["role"].s else "patient",
                 f["password"].s, OptStrOf(f, "specialization"),
                 if "experience_years" in f then Some(IntOf(f["experience_years"])) else None)
  }

  /** Decoding keeps every schema key as it was sent and defaults the role. */
  lemma DecodeRegistrationEncodes(f: map<string, Value>, isEmail: string -> bool)
    requires RegisterShape(f, isEmail)
    ensures ValidRegistration(DecodeRegistration(f, isEmail), isEmail)
    ensures Restrict(f, RegisterKeys) == EncodeRegistration(DecodeRegistration(f, isEmail), "role" in f).fields
  {
    var x := DecodeRegistration(f, isEmail);
    var g := EncodeRegistration(x, "role" in f).fields;
    assert AuthFieldOk("full_name", f["full_name"], isEmail) && AuthFieldOk("email", f["email"], isEmail);
    assert AuthFieldOk("password", f["password"], isEmail);
    assert "role" in f ==> AuthFieldOk("role", f["role"], isEmail);
    assert "experience_years" in f ==> AuthFieldOk("experience_years", f["experience_years"], isEmail);
    forall k | k in RegisterKeys
      ensures (k in f) == (k in g) && (k in f ==> f[k] == g[k])
    {
      if k in f { assert AuthFieldOk(k, f[k], isEmail); }
    }
  }

  /** `registerUserSchema`. */
  function ParseRegistration(v: Value, isEmail: string -> bool): (r: Option<Registration>)
    ensures r.Some? <==> v.JObj? && RegisterShape(v.fields, isEmail)
    ensures r.Some? ==> ValidRegistration(r.value, isEmail)
    ensures r.Some? ==> Restrict(v.fields, RegisterKeys) == EncodeRegistration(r.value, "role" in v.fields).fields
    ensures r.Some? && "role" !in v.fields ==> r.value.role == "patient"
  {
    if v.JObj? && RegisterShape(v.fields, isEmail) then
      DecodeRegistrationEncodes(v.fields, isEmail);
      Some(DecodeRegistration(v.fields, isEmail))
    else
      None
  }

  /** `loginUserSchema`. */
  function ParseLogin(v: Value, isEmail: string -> bool): (r: Option<Login>)
    ensures r.Some? <==> (v.JObj? && LoginKeys <= v.fields.Keys
                          && AuthFieldOk("email", v.fields["email"], isEmail)
                          && AuthFieldOk("password", v.fields["password"], isEmail))
    ensures r.Some? ==> ValidLogin(r.value, isEmail) && Restrict(v.fields, LoginKeys) == EncodeLogin(r.value).fields
  {
    if !(v.JObj? && "email" in v.fields && "password" in v.fields) then None
    else
      var e, p := v.fields["email"], v.fields["password"];
      if !(AuthFieldOk("email", e, isEmail) && AuthFieldOk("password", p, isEmail)) then None
      else
        var x := Login(e.s, p.s);
        assert Restrict(v.fields, LoginKeys) == EncodeLogin(x).fields;
        Some(x)
  }

  /** Every valid registration passes as it is written; the role may be left
      out when it is patient. */
  lemma {:induction false} RegistrationRoundTrip(x: Registration, withRole: bool, isEmail: string -> bool)
    requires ValidRegistration(x, isEmail) && (withRole || x.role == "patient")
    ensures ParseRegistration(EncodeRegistration(x, withRole), isEmail) == Some(x)
  {
    var f := EncodeRegistration(x, withRole).fields;
    assert RequiredRegisterKeys <= f.Keys;
    forall k | k in f && k in RegisterKeys
      ensures AuthFieldOk(k, f[k], isEmail)
    {
    }
    DecodeRegistrationEncodes(f, isEmail);
    var y := DecodeRegistration(f, isEmail);
    assert y.contactPhone == x.contactPhone && y.address == x.address && y.specialization == x.specialization;
  }

  lemma LoginRoundTrip(x: Login, isEmail: string -> bool)
    requires ValidLogin(x, isEmail)
    ensures ParseLogin(EncodeLogin(x), isEmail) == Some(x)
  {
  }

  /** Whoever can register can log in with the same email and password: the
      two schemas ask the same of those keys. */
  lemma RegistrationGivesLogin(v: Value, isEmail: string -> bool)
    requires ParseRegistration(v, isEmail).Some?
    ensures ParseLogin(v, isEmail) == Some(Login(ParseRegistration(v, isEmail).value.email, ParseRegistration(v, isEmail).value.password))
  {
    assert AuthFieldOk("email", v.fields["email"], isEmail) && AuthFieldOk("password", v.fields["password"], isEmail);
  }

  /** The schema's roles are the table's roles, and its default is the
      column default. */
  lemma RoleEnumMatchesTable()
    ensures forall s :: s in RoleEnum <==> Schema.RoleOf(s).Some?
    ensures Schema.RoleLabel(Schema.DefaultRole) == "patient"
  {
  }
}
