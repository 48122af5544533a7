/**
 * The registration page: the ordered checks of the submit handler, the
 * request body it sends, and the company picker (search-as-you-type,
 * click on a result, typing that discards a selection).
 */
module RegisterPage {
  import opened Wrappers
  import opened Json
  import Text
  import Decimal
  import PasswordPolicy
  import AuthDto

  const AllRequired: string := "Tous les champs sont obligatoires"
  const Mismatch: string := "Les mots de passe ne correspondent pas"
  const WeakPassword: string := "Mot de passe : 8 caractères min, 1 majuscule, 1 chiffre, 1 spécial (@$!%*?&)"
  const PickCompany: string := "Veuillez sélectionner une entreprise dans la liste proposée"
  const RegisterFailed: string := "Erreur lors de l’inscription"
  const NetworkError: string := "Erreur réseau — vérifiez que le backend est lancé"

  /** The form's fields. `companyId` is the `data-company-id` text of the picked result. */
  datatype Form = Form(
    firstName: string,
    lastName: string,
    email: string,
    password: string,
    confirmPassword: string,
    companyId: Option<string>,
    isSelectedFromList: bool)

  /** `Number(companyId)` as `JSON.stringify` writes it: NaN becomes null. */
  function CompanyIdJson(id: string): Value {
    match Decimal.JsNumber(id)
    case Some(n) => Num(n)
    case None => Null
  }

  /** The request body `handleSubmit` posts. */
  function RequestBody(f: Form): Object {
    map["email" := Str(f.email), "password" := Str(f.password), "firstName" := Str(f.firstName),
        "lastName" := Str(f.lastName),
        "companyId" := if f.companyId.Some? then CompanyIdJson(f.companyId.value) else Null]
  }

  /** The checks of `handleSubmit`, first failure wins: the message, or the body to send. */
  function CheckForm(f: Form): (r: Result<Object, string>)
    ensures r.Ok? ==> r.value == RequestBody(f)
  {
    if f.firstName == "" || f.lastName == "" || f.email == "" || f.password == "" || f.confirmPassword == "" then
      Err(AllRequired)
    else if f.password != f.confirmPassword then Err(Mismatch)
    else if !PasswordPolicy.MatchesPasswordRegex(f.password) then Err(WeakPassword)
    else if f.companyId.None? || f.companyId.value == "" || !f.isSelectedFromList then Err(PickCompany)
    else Ok(RequestBody(f))
  }

  /**
   * The form is sent exactly when every field is filled, the two passwords
   * agree, the password is strong and a company was picked from the list;
   * otherwise the message is the one of the first check that fails.
   */
  lemma CheckFormMeaning(f: Form)
    ensures CheckForm(f).Ok? <==>
      && f.firstName != "" && f.lastName != "" && f.email != ""
      && f.password == f.confirmPassword && PasswordPolicy.StrongPassword(f.password)
      && f.companyId.Some? && f.companyId.value != "" && f.isSelectedFromList
    ensures (f.firstName == "" || f.lastName == "" || f.email == "" || f.password == "" || f.confirmPassword == "")
      ==> CheckForm(f) == Err(AllRequired)
    ensures (f.password != f.confirmPassword && f.firstName != "" && f.lastName != "" && f.email != "" &&
             f.password != "" && f.confirmPassword != "") ==> CheckForm(f) == Err(Mismatch)
  {
    PasswordPolicy.RegexIsStrongPassword(f.password);
  }

  /**
   * A form the page accepts, whose company was picked from a result for the
   * company with local id `id` (its `data-company-id` is the printed id),
   * yields a body that meets every constraint `RegisterDto` declares and
   * reads back as exactly the request the user filled in, when the e-mail
   * has an acceptable syntax.
   */
  lemma AcceptedFormPassesValidation(f: Form, id: int, isEmail: string -> bool)
    requires CheckForm(f).Ok?
    requires f.companyId == Some(Decimal.IntToString(id)) && id >= 1
    requires isEmail(f.email)
    ensures AuthDto.ParseRegister(CheckForm(f).value, isEmail) ==
      Some(AuthDto.RegisterDto(f.email, f.password, f.firstName, f.lastName, id))
  {
    Decimal.JsNumberOfPrinted(id);
    PasswordPolicy.RegexIsStrongPassword(f.password);
    assert |f.password| >= 6;
  }

  /** A search result, as the backend's search returns it. */
  datatype SearchHit = SearchHit(id: int, name: string)

  /** The results panel: emptied, the "no company found" line, or one line per company. */
  datatype ResultsPanel = Emptied | NoneFound | Lines(items: seq<SearchHit>)

  /** The page's state: the form, the company input's text, the results panel and the error line. */
  class RegisterState {
    var form: Form
    var companyName: string
    var panel: ResultsPanel
    var panelHidden: bool
    var error: string

    constructor()
      ensures form == Form("", "", "", "", "", None, false) && companyName == ""
      ensures panel == Emptied && panelHidden && error == ""
    {
      form := Form("", "", "", "", "", None, false);
      companyName := "";
      panel := Emptied;
      panelHidden := true;
      error := "";
    }

    /** Typing in the company input: the text changes and any picked company is discarded. */
    method TypeCompany(value: string)
      modifies this
      ensures companyName == value
      ensures form == old(form).(companyId := None, isSelectedFromList := false)
      ensures panel == old(panel) && panelHidden == old(panelHidden) && error == old(error)
    {
      companyName := value;
      form := form.(companyId := None, isSelectedFromList := false);
    }

    /**
     * The input handler's search on the trimmed text. `answer` is the
     * backend's list, or None when the request throws (nothing changes then).
     */
    method Search(text: string, answer: Option<seq<SearchHit>>)
      modifies this
      ensures var query := Text.Trim(text);
        if |query| < 2 then panel == Emptied && panelHidden
        else if answer.None? then panel == old(panel) && panelHidden == old(panelHidden)
        else !panelHidden && panel == (if answer.value == [] then NoneFound else Lines(answer.value))
      ensures form == old(form) && companyName == old(companyName) && error == old(error)
    {
      var query := Text.Trim(text);
      if |query| < 2 {
        panelHidden := true;
        panel := Emptied;
        return;
      }
      if answer.None? {
        return;
      }
      panel := if answer.value == [] then NoneFound else Lines(answer.value);
      panelHidden := false;
    }

    /**
     * A click in the results panel on `line` (None when the click is not on
     * a company line): the line's id and trimmed text are taken together.
     * The line is markup with the company name written into it unescaped;
     * `textContent` is the text the browser reads back from that markup, so
     * a name holding entities or tags comes back changed.
     */
    method ClickResult(line: Option<SearchHit>, textContent: string -> string)
      modifies this
      ensures line.Some? && Text.Trim(textContent(line.value.name)) != "" ==>
        && companyName == Text.Trim(textContent(line.value.name))
        && form == old(form).(companyId := Some(Decimal.IntToString(line.value.id)), isSelectedFromList := true)
        && panelHidden
      ensures line.None? || Text.Trim(textContent(line.value.name)) == "" ==>
        companyName == old(companyName) && form == old(form) && panelHidden == old(panelHidden)
      ensures panel == old(panel) && error == old(error)
    {
      if line.Some? {
        var id := Decimal.IntToString(line.value.id);
        var name := Text.Trim(textContent(line.value.name));
        if id != "" && name != "" {
          companyName := name;
          form := form.(companyId := Some(id), isSelectedFromList := true);
          panelHidden := true;
        }
      }
    }

    /** A click anywhere: outside both the input and the panel it hides the panel. */
    method ClickAnywhere(inInput: bool, inPanel: bool)
      modifies this
      ensures panelHidden == (old(panelHidden) || (!inInput && !inPanel))
      ensures form == old(form) && companyName == old(companyName) && panel == old(panel) && error == old(error)
    {
      if !inInput && !inPanel {
        panelHidden := true;
      }
    }

    /**
     * `handleSubmit`: the checks, then the request. `response` is None when
     * the request throws, else whether it succeeded and the `message` of
     * its answer. The body sent is returned; `registered` tells whether the
     * page moves on to the success page.
     */
    method Submit(response: Option<(bool, string)>) returns (sent: Option<Object>, registered: bool)
      modifies this
      ensures CheckForm(old(form)).Err? ==> sent == None && !registered && error == CheckForm(old(form)).error
      ensures CheckForm(old(form)).Ok? ==> sent == Some(RequestBody(old(form)))
      ensures CheckForm(old(form)).Ok? && response.None? ==> !registered && error == NetworkError
      ensures CheckForm(old(form)).Ok? && response.Some? && !response.value.0 ==>
        !registered && error == (if response.value.1 != "" then response.value.1 else RegisterFailed)
      ensures CheckForm(old(form)).Ok? && response.Some? && response.value.0 ==> registered && error == ""
      ensures form == old(form) && companyName == old(companyName) && panel == old(panel) && panelHidden == old(panelHidden)
    {
      error := "";
      var checked := CheckForm(form);
      if checked.Err? {
        error := checked.error;
        return None, false;
      }
      sent := Some(checked.value);
      if response.None? {
        error := NetworkError;
        return sent, false;
      }
      if !response.value.0 {
        error := if response.value.1 != "" then response.value.1 else RegisterFailed;
        return sent, false;
      }
      registered := true;
    }
  }
}
