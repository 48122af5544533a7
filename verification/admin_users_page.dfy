/**
 * The administrators' user list: pagination by 10 with a window of page
 * numbers and a go-to-page box, the user-creation form's checks, and the
 * delete confirmation (which only closes the dialog: no request is sent).
 */
module AdminUsersPage {
  import opened Wrappers
  import opened Json
  import Text
  import Decimal
  import PasswordPolicy
  import Pagination

  const UsersPerPage: nat := 10
  const Mismatch: string := "Les mots de passe ne correspondent pas"
  const WeakPassword: string := "Sécurité : 8 caractères min, 1 majuscule, 1 chiffre, 1 spécial"
  const CreateFailed: string := "Erreur lors de la création"
  const DeleteWord: string := "DELETE"

  function ShownUsers(users: seq<Object>, page: int): seq<Object> {
    Pagination.PageItems(users, page, UsersPerPage)
  }

  function TotalPages(users: seq<Object>): nat {
    Pagination.CeilDiv(|users|, UsersPerPage)
  }

  function PageNumbers(users: seq<Object>, page: int): seq<int> {
    Pagination.PageWindow(page, TotalPages(users))
  }

  /** The user-creation form. */
  datatype CreateForm = CreateForm(
    firstName: string, lastName: string, email: string, password: string, confirmPassword: string, companyId: string)

  /** `Number(formData.companyId)` as `JSON.stringify` writes it: NaN becomes null. */
  function CompanyIdJson(id: string): Value {
    match Decimal.JsNumber(id)
    case Some(n) => Num(n)
    case None => Null
  }

  /** The register body `handleCreateUser` posts. */
  function CreateBody(f: CreateForm): Object {
    map["email" := Str(Text.LowerAscii(f.email)), "password" := Str(f.password),
        "firstName" := Str(f.firstName), "lastName" := Str(f.lastName),
        "companyId" := CompanyIdJson(f.companyId)]
  }

  /** The checks of `handleCreateUser`, first failure wins: the message, or the register body to send. */
  function CheckCreate(f: CreateForm): (r: Result<Object, string>)
    ensures r.Ok? ==> r.value == CreateBody(f)
  {
    if f.password != f.confirmPassword then Err(Mismatch)
    else if !PasswordPolicy.MatchesPasswordRegex(f.password) then Err(WeakPassword)
    else Ok(CreateBody(f))
  }

  /**
   * A mismatch is reported whatever the password's strength; a request is
   * sent exactly when the passwords agree and are strong, and it carries
   * the e-mail in lower case.
   */
  lemma CheckCreateMeaning(f: CreateForm)
    ensures f.password != f.confirmPassword ==> CheckCreate(f) == Err(Mismatch)
    ensures CheckCreate(f).Ok? <==> f.password == f.confirmPassword && PasswordPolicy.StrongPassword(f.password)
    ensures CheckCreate(f).Ok? ==>
      var email := Get(CheckCreate(f).value, "email");
      email.Str? && email.s == Text.LowerAscii(f.email) && Text.LowerAscii(email.s) == email.s
  {
    PasswordPolicy.RegexIsStrongPassword(f.password);
    Text.LowerAsciiIdempotent(f.email);
  }

  /** Every page of the list shows at most 10 users and the pages together show each user once, in order. */
  lemma PaginationMeaning(users: seq<Object>, page: int)
    requires page >= 1
    ensures |ShownUsers(users, page)| <= UsersPerPage
    ensures Pagination.PagesUpTo(users, TotalPages(users), UsersPerPage) == users
    ensures |PageNumbers(users, page)| <= 8
    ensures page <= TotalPages(users) ==> page in PageNumbers(users, page)
  {
    Pagination.PageItemsMeaning(users, page, UsersPerPage);
    Pagination.AllPagesGiveTheList(users, UsersPerPage);
    Pagination.PageWindowMeaning(page, TotalPages(users));
  }

  class AdminUsersState {
    var users: seq<Object>
    var currentPage: int
    var goToPage: string
    var isDeleteModalOpen: bool
    var selectedUser: Option<Object>
    var deleteConfirmInput: string
    var form: CreateForm
    var createError: string
    var createSuccess: bool

    /** The page shown is always a page number, 1 or more. */
    predicate Valid()
      reads this
    {
      currentPage >= 1
    }

    constructor()
      ensures Valid() && users == [] && currentPage == 1 && goToPage == ""
      ensures !isDeleteModalOpen && selectedUser == None && deleteConfirmInput == ""
      ensures createError == "" && !createSuccess
    {
      users := [];
      currentPage := 1;
      goToPage := "";
      isDeleteModalOpen := false;
      selectedUser := None;
      deleteConfirmInput := "";
      form := CreateForm("", "", "", "", "", "");
      createError := "";
      createSuccess := false;
    }

    /** A click on a shown page number. */
    method ClickPageNumber(n: int)
      requires Valid() && n in PageNumbers(users, currentPage)
      modifies this
      ensures Valid() && currentPage == n
      ensures users == old(users) && goToPage == old(goToPage)
      ensures isDeleteModalOpen == old(isDeleteModalOpen) && selectedUser == old(selectedUser)
      ensures deleteConfirmInput == old(deleteConfirmInput)
      ensures form == old(form) && createError == old(createError) && createSuccess == old(createSuccess)
    {
      Pagination.PageWindowMeaning(currentPage, TotalPages(users));
      var i :| 0 <= i < |PageNumbers(users, currentPage)| && PageNumbers(users, currentPage)[i] == n;
      currentPage := n;
    }

    /** The go-to-page button: move only to an existing page (an unparsable entry moves nowhere); always clear the box. */
    method GoToPage()
      requires Valid()
      modifies this
      ensures Valid() && goToPage == "" && users == old(users)
      ensures var p := Decimal.JsParseInt(old(goToPage));
        currentPage == if p.Some? && 1 <= p.value <= TotalPages(users) then p.value else old(currentPage)
      ensures isDeleteModalOpen == old(isDeleteModalOpen) && selectedUser == old(selectedUser)
      ensures deleteConfirmInput == old(deleteConfirmInput)
      ensures form == old(form) && createError == old(createError) && createSuccess == old(createSuccess)
    {
      var p := Decimal.JsParseInt(goToPage);
      if p.Some? && 1 <= p.value && p.value <= TotalPages(users) {
        currentPage := p.value;
      }
      goToPage := "";
    }

    /** `handleDeleteUser`: only the confirmation word closes the dialog; the list never changes. */
    method DeleteUser()
      modifies this
      ensures users == old(users) && currentPage == old(currentPage) && goToPage == old(goToPage)
      ensures form == old(form) && createError == old(createError) && createSuccess == old(createSuccess)
      ensures old(deleteConfirmInput) != DeleteWord ==>
        isDeleteModalOpen == old(isDeleteModalOpen) && selectedUser == old(selectedUser) &&
        deleteConfirmInput == old(deleteConfirmInput)
      ensures old(deleteConfirmInput) == DeleteWord ==>
        !isDeleteModalOpen && selectedUser == None && deleteConfirmInput == ""
    {
      if deleteConfirmInput != DeleteWord {
        return;
      }
      isDeleteModalOpen := false;
      selectedUser := None;
      deleteConfirmInput := "";
    }

    /**
     * `handleCreateUser`. `response` is None when the request throws, with
     * `thrown` its message, else whether it succeeded and the `message` of
     * its answer. Returns the body sent, if any.
     */
    method CreateUser(response: Option<(bool, string)>, thrown: string) returns (sent: Option<Object>)
      modifies this
      ensures var checked := CheckCreate(old(form));
        match checked
        case Err(message) => sent == None && createError == message && createSuccess == old(createSuccess)
        case Ok(body) =>
          && sent == Some(body)
          && (response.None? ==> createError == thrown && createSuccess == old(createSuccess))
          && (response.Some? && !response.value.0 ==>
                createError == (if response.value.1 != "" then response.value.1 else CreateFailed) &&
                createSuccess == old(createSuccess))
          && (response.Some? && response.value.0 ==> createError == "" && createSuccess)
      ensures users == old(users) && currentPage == old(currentPage) && form == old(form)
      ensures goToPage == old(goToPage) && isDeleteModalOpen == old(isDeleteModalOpen)
      ensures selectedUser == old(selectedUser) && deleteConfirmInput == old(deleteConfirmInput)
    {
      createError := "";
      var checked := CheckCreate(form);
      if checked.Err? {
        createError := checked.error;
        return None;
      }
      sent := Some(checked.value);
      if response.None? {
        createError := thrown;
        return;
      }
      if !response.value.0 {
        createError := if response.value.1 != "" then response.value.1 else CreateFailed;
        return;
      }
      createSuccess := true;
    }
  }
}
