/**
 * The request bodies of the register and login endpoints and the field
 * constraints their classes declare through decorators. The application
 * installs no validation pipe, so these constraints describe the bodies
 * the endpoints are meant to receive rather than a check that runs. The
 * e-mail syntax check is a parameter `isEmail`.
 */
module AuthDto {
  import opened Wrappers
  import opened Json

  /** A register body that meets the declared constraints. */
  datatype RegisterDto = RegisterDto(email: string, password: string, firstName: string, lastName: string, companyId: int)

  /** A login body that meets the declared constraints. */
  datatype LoginDto = LoginDto(email: string, password: string)

  /** `@IsEmail()` on a property: only a string can be an e-mail address. */
  predicate EmailField(body: Object, name: string, isEmail: string -> bool) {
    Get(body, name).Str? && isEmail(Get(body, name).s)
  }

  /** `@IsString()` on a property. */
  predicate StringField(body: Object, name: string) {
    Get(body, name).Str?
  }

  /** The constraints of `RegisterDto`, property by property. */
  predicate ValidRegister(body: Object, isEmail: string -> bool) {
    && EmailField(body, "email", isEmail)
    && StringField(body, "password") && |Get(body, "password").s| >= 6
    && StringField(body, "firstName")
    && StringField(body, "lastName")
    && Get(body, "companyId").Num? && Get(body, "companyId").n >= 1
  }

  /** The constraints of `LoginDto`. */
  predicate ValidLogin(body: Object, isEmail: string -> bool) {
    EmailField(body, "email", isEmail) && StringField(body, "password")
  }

  /** Validation of a register body: the typed request, or None when a constraint fails. */
  function ParseRegister(body: Object, isEmail: string -> bool): (r: Option<RegisterDto>)
    ensures r.Some? <==> ValidRegister(body, isEmail)
    ensures r.Some? ==> |r.value.password| >= 6 && r.value.companyId >= 1 && isEmail(r.value.email)
  {
    if ValidRegister(body, isEmail) then
      Some(RegisterDto(Get(body, "email").s, Get(body, "password").s, Get(body, "firstName").s,
                       Get(body, "lastName").s, Get(body, "companyId").n))
    else None
  }

  /** Validation of a login body. */
  function ParseLogin(body: Object, isEmail: string -> bool): (r: Option<LoginDto>)
    ensures r.Some? <==> ValidLogin(body, isEmail)
    ensures r.Some? ==> isEmail(r.value.email)
  {
    if ValidLogin(body, isEmail) then Some(LoginDto(Get(body, "email").s, Get(body, "password").s)) else None
  }

  /** The JSON body a client sends for a register request. */
  function RegisterBody(dto: RegisterDto): Object {
    map["email" := Str(dto.email), "password" := Str(dto.password), "firstName" := Str(dto.firstName),
        "lastName" := Str(dto.lastName), "companyId" := Num(dto.companyId)]
  }

  function LoginBody(dto: LoginDto): Object {
    map["email" := Str(dto.email), "password" := Str(dto.password)]
  }

  /** A request that meets the constraints survives the trip through JSON and the declared checks unchanged. */
  lemma RegisterRoundTrip(dto: RegisterDto, isEmail: string -> bool)
    requires isEmail(dto.email) && |dto.password| >= 6 && dto.companyId >= 1
    ensures ParseRegister(RegisterBody(dto), isEmail) == Some(dto)
  {
  }

  /** Every login request with an acceptable e-mail passes the declared checks unchanged. */
  lemma LoginRoundTrip(dto: LoginDto, isEmail: string -> bool)
    requires isEmail(dto.email)
    ensures ParseLogin(LoginBody(dto), isEmail) == Some(dto)
  {
  }

  /** A password shorter than 6 characters, or a company id below 1, is refused. */
  lemma RegisterRejections(body: Object, isEmail: string -> bool)
    ensures Get(body, "password").Str? && |Get(body, "password").s| < 6 ==> ParseRegister(body, isEmail) == None
    ensures !Get(body, "password").Str? ==> ParseRegister(body, isEmail) == None
    ensures Get(body, "companyId").Num? && Get(body, "companyId").n < 1 ==> ParseRegister(body, isEmail) == None
    ensures !Get(body, "companyId").Num? ==> ParseRegister(body, isEmail) == None
    ensures !Get(body, "firstName").Str? || !Get(body, "lastName").Str? ==> ParseRegister(body, isEmail) == None
    ensures !EmailField(body, "email", isEmail) ==> ParseRegister(body, isEmail) == None
  {
  }
}
