/**
 * Accounts: registration of a portal user by e-mail into an existing
 * company, and login, which on a user's first login links the account to
 * a contact of the service-desk system (reusing one or creating one).
 *
 * The user and company tables are in memory. Password hashing, password
 * comparison, token signing and the answers of the contact directory are
 * parameters.
 */
module Auth {
  import opened Wrappers
  import Text
  import AuthDto

  const EmailTaken: string := "Cet email est déjà utilisé"
  const CompanyNotFound: string := "Entreprise non trouvée"
  const BadCredentials: string := "Email ou mot de passe incorrect"
  const CompanyUndefined: string := "Entreprise non définie"
  const ContactCreationFailed: string := "Impossible de créer le contact dans Autotask"

  /** A row of the user table. A stored id of 0 or an empty string counts as absent, as in `!x`. */
  datatype User = User(
    id: int,
    email: string,
    password: string,
    firstName: string,
    lastName: string,
    companyId: Option<int>,
    autotaskCompanyId: Option<int>,
    autotaskContactId: Option<int>,
    phone: Option<string>)

  /** A user as `register` returns it: every column but `password`. */
  datatype PublicUser = PublicUser(
    id: int,
    email: string,
    firstName: string,
    lastName: string,
    companyId: Option<int>,
    autotaskCompanyId: Option<int>,
    autotaskContactId: Option<int>,
    phone: Option<string>)

  datatype Company = Company(id: int, autotaskId: int, name: string)

  /** A contact of the service-desk directory. */
  datatype Contact = Contact(id: int, phone: Option<string>)

  /** The calls `login` makes to the contact directory, in order. */
  datatype DirectoryCall =
    | FindContact(email: string, companyId: int)
    | CreateContact(email: string, firstName: string, lastName: string, companyId: int)

  datatype AuthError = BadRequest(message: string) | Unauthorized(message: string) | Failed(message: string)

  /** The user part of a login answer. */
  datatype SessionUser = SessionUser(id: int, email: string, firstName: string, lastName: string, companyName: string)

  datatype LoginAnswer = LoginAnswer(accessToken: string, user: SessionUser)

  predicate TruthyId(x: Option<int>) {
    x.Some? && x.value != 0
  }

  predicate TruthyText(x: Option<string>) {
    x.Some? && x.value != ""
  }

  /** `const { password, ...result } = user`. */
  function WithoutPassword(u: User): PublicUser
  {
    PublicUser(u.id, u.email, u.firstName, u.lastName, u.companyId, u.autotaskCompanyId, u.autotaskContactId, u.phone)
  }

  /**
   * Only the password is dropped: two users give the same public view
   * exactly when they differ in nothing but their passwords.
   */
  lemma WithoutPasswordDropsOnlyThePassword(u: User, v: User)
    ensures WithoutPassword(u) == WithoutPassword(v) <==> u.(password := v.password) == v
  {
  }

  /** The contact a first login creates: the user's e-mail and company, names defaulting to 'Client' and 'Portail'. */
  function NewContactRequest(u: User, companyId: int): (c: DirectoryCall)
    ensures c.CreateContact? && c.email == u.email && c.companyId == companyId
    ensures c.firstName != "" && c.lastName != ""
    ensures u.firstName != "" ==> c.firstName == u.firstName
    ensures u.lastName != "" ==> c.lastName == u.lastName
  {
    CreateContact(u.email, if u.firstName != "" then u.firstName else "Client",
                  if u.lastName != "" then u.lastName else "Portail", companyId)
  }

  /** The row after linking: the contact's id, and its phone when it has one, else the user's. */
  function Linked(u: User, contact: Contact): (r: User)
    ensures r.autotaskContactId == Some(contact.id)
    ensures r.phone == (if TruthyText(contact.phone) then contact.phone else u.phone)
    ensures r.(autotaskContactId := u.autotaskContactId, phone := u.phone) == u
  {
    u.(autotaskContactId := Some(contact.id), phone := if TruthyText(contact.phone) then contact.phone else u.phone)
  }

  /** `user.company?.name || 'Inconnu'`. */
  function CompanyName(companies: map<int, Company>, u: User): (name: string)
    ensures name != ""
    ensures u.companyId.Some? && u.companyId.value in companies && companies[u.companyId.value].name != "" ==>
      name == companies[u.companyId.value].name
    ensures !(u.companyId.Some? && u.companyId.value in companies && companies[u.companyId.value].name != "") ==>
      name == "Inconnu"
  {
    if u.companyId.Some? && u.companyId.value in companies && companies[u.companyId.value].name != "" then
      companies[u.companyId.value].name
    else "Inconnu"
  }

  class AuthService {
    /** The user table, by stored e-mail (the column is unique). */
    var users: map<string, User>
    /** The id the store gives the next user. */
    var nextUserId: int
    /** The company table, by local id. */
    var companies: map<int, Company>

    /** Rows are filed under their own e-mail and have ids below `nextUserId`. */
    predicate Valid()
      reads this
    {
      forall e :: e in users ==> users[e].email == e && users[e].id < nextUserId
    }

    constructor(companies: map<int, Company>)
      ensures Valid() && users == map[] && this.companies == companies
    {
      users := map[];
      nextUserId := 1;
      this.companies := companies;
    }

    /**
     * `register`: refuse an e-mail already used (after lowercasing), then an
     * unknown company; otherwise store the user with the lowercased e-mail,
     * the hashed password and both company ids, and return it without the
     * password.
     */
    method Register(dto: AuthDto.RegisterDto, hash: string -> string) returns (r: Result<PublicUser, AuthError>)
      requires Valid()
      modifies this
      ensures Valid() && companies == old(companies)
      ensures var key := Text.LowerAscii(dto.email);
        if key in old(users) then
          r == Err(BadRequest(EmailTaken)) && users == old(users) && nextUserId == old(nextUserId)
        else if dto.companyId !in companies then
          r == Err(BadRequest(CompanyNotFound)) && users == old(users) && nextUserId == old(nextUserId)
        else
          var c := companies[dto.companyId];
          var u := User(old(nextUserId), key, hash(dto.password), dto.firstName, dto.lastName,
                        Some(c.id), Some(c.autotaskId), None, None);
          && users == old(users)[key := u]
          && nextUserId == old(nextUserId) + 1
          && r == Ok(WithoutPassword(u))
    {
      var email := Text.LowerAscii(dto.email);
      if email in users {
        return Err(BadRequest(EmailTaken));
      }
      if dto.companyId !in companies {
        return Err(BadRequest(CompanyNotFound));
      }
      var company := companies[dto.companyId];
      var hashed := hash(dto.password);
      var user := User(nextUserId, email, hashed, dto.firstName, dto.lastName,
                       Some(company.id), Some(company.autotaskId), None, None);
      users := users[email := user];
      nextUserId := nextUserId + 1;
      return Ok(WithoutPassword(user));
    }

    /**
     * `login`. `compare` is the password check, `found` the directory's
     * answer to the contact search and `created` the id a contact creation
     * returns (None when the creation fails); `sign` signs the payload
     * (user id, e-mail).
     */
    method Login(
      dto: AuthDto.LoginDto,
      compare: (string, string) -> bool,
      found: Option<Contact>,
      created: Option<int>,
      sign: (int, string) -> string)
      returns (r: Result<LoginAnswer, AuthError>, calls: seq<DirectoryCall>)
      requires Valid()
      modifies this
      ensures Valid() && companies == old(companies) && nextUserId == old(nextUserId)
      ensures var key := Text.LowerAscii(dto.email);
        if key !in old(users) || !compare(dto.password, old(users)[key].password) then
          r == Err(Unauthorized(BadCredentials)) && calls == [] && users == old(users)
        else
          var u := old(users)[key];
          var answer := LoginAnswer(sign(u.id, u.email),
                                    SessionUser(u.id, u.email, u.firstName, u.lastName, CompanyName(companies, u)));
          if TruthyId(u.autotaskContactId) then
            r == Ok(answer) && calls == [] && users == old(users)
          else if !TruthyId(u.companyId) || !TruthyId(u.autotaskCompanyId) then
            r == Err(BadRequest(CompanyUndefined)) && calls == [] && users == old(users)
          else
            var find := FindContact(u.email, u.autotaskCompanyId.value);
            if found.Some? then
              r == Ok(answer) && calls == [find] && users == old(users)[key := Linked(u, found.value)]
            else if created.None? then
              r == Err(Failed(ContactCreationFailed)) && users == old(users) &&
              calls == [find, NewContactRequest(u, u.autotaskCompanyId.value)]
            else
              r == Ok(answer) && calls == [find, NewContactRequest(u, u.autotaskCompanyId.value)] &&
              users == old(users)[key := Linked(u, Contact(created.value, None))]
    {
      calls := [];
      var email := Text.LowerAscii(dto.email);
      if email !in users || !compare(dto.password, users[email].password) {
        return Err(Unauthorized(BadCredentials)), calls;
      }
      var user := users[email];
      if !TruthyId(user.autotaskContactId) {
        if !TruthyId(user.companyId) || !TruthyId(user.autotaskCompanyId) {
          return Err(BadRequest(CompanyUndefined)), calls;
        }
        calls := calls + [FindContact(user.email, user.autotaskCompanyId.value)];
        var contact: Contact;
        if found.Some? {
          contact := found.value;
        } else {
          calls := calls + [NewContactRequest(user, user.autotaskCompanyId.value)];
          if created.None? {
            return Err(Failed(ContactCreationFailed)), calls;
          }
          contact := Contact(created.value, None);
        }
        users := users[email := Linked(user, contact)];
      }
      var token := sign(user.id, user.email);
      r := Ok(LoginAnswer(token, SessionUser(user.id, user.email, user.firstName, user.lastName,
                                             CompanyName(companies, user))));
    }
  }
}
