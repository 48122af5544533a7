/**
 * The customer's ticket list page: pagination by 6, status labels and the
 * capped "hours elapsed" counter, the fetch with retries, and the creation
 * flow (optimistic insert of a temporary ticket, then a bounded refresh).
 *
 * Dates are integer millisecond timestamps; the clock is the parameter `now`.
 */
module TicketsPage {
  import opened Wrappers
  import Text
  import Decimal
  import Sorting
  import Pagination

  const TicketsPerPage: nat := 6
  const MaxFetchAttempts: nat := 3
  const MaxRefreshAttempts: nat := 5
  const HourMs: int := 60 * 60 * 1000
  const MaxHours: int := 8

  datatype Ticket = Ticket(
    id: int,
    ticketNumber: string,
    title: string,
    createDate: int,
    assignedResourceName: Option<string>,
    status: int)

  // -------------------------------------------------------------- pagination

  function ShownTickets(tickets: seq<Ticket>, page: int): seq<Ticket> {
    Pagination.PageItems(tickets, page, TicketsPerPage)
  }

  function TotalPages(tickets: seq<Ticket>): nat {
    Pagination.CeilDiv(|tickets|, TicketsPerPage)
  }

  /** The loop that lists the page numbers: 1 to `totalPages`. */
  method PageNumbers(totalPages: nat) returns (numbers: seq<int>)
    ensures numbers == Pagination.PageRange(totalPages)
  {
    numbers := [];
    var i := 1;
    while i <= totalPages
      invariant 1 <= i <= totalPages + 1
      invariant |numbers| == i - 1
      invariant forall k :: 0 <= k < |numbers| ==> numbers[k] == k + 1
    {
      numbers := numbers + [i];
      i := i + 1;
    }
  }

  /** Each page shows at most 6 tickets, and the pages together show the whole list in order. */
  lemma TicketPagesMeaning(tickets: seq<Ticket>, page: int)
    requires page >= 1
    ensures |ShownTickets(tickets, page)| <= TicketsPerPage
    ensures Pagination.PagesUpTo(tickets, TotalPages(tickets), TicketsPerPage) == tickets
  {
    Pagination.PageItemsMeaning(tickets, page, TicketsPerPage);
    Pagination.AllPagesGiveTheList(tickets, TicketsPerPage);
  }

  // ------------------------------------------------------------------ status

  function StatusText(status: int): string {
    if status == 5 then "Résolu" else if status == 26 then "En cours" else "Inconnu"
  }

  /** `getStatusColor`, which the page declares but never calls. */
  function StatusColor(status: int): string {
    if status == 5 then "text-green-400" else if status == 26 then "text-yellow-400" else "text-gray-400"
  }

  /** `getStatusText` and `getStatusColor` agree: resolved is green, in progress yellow, anything else gray. */
  lemma StatusLabelAndColourAgree(status: int)
    ensures StatusText(status) == "Résolu" <==> StatusColor(status) == "text-green-400"
    ensures StatusText(status) == "En cours" <==> StatusColor(status) == "text-yellow-400"
    ensures StatusText(status) == "Inconnu" <==> StatusColor(status) == "text-gray-400"
    ensures StatusText(status) == "Résolu" <==> status == 5
    ensures StatusText(status) == "En cours" <==> status == 26
  {
  }

  /** The colour the ticket card actually gives the status label: green for 5, yellow otherwise. */
  function RenderedColour(status: int): string {
    if status == 5 then "text-green-400" else "text-yellow-400"
  }

  /**
   * The card's colour agrees with `getStatusColor` exactly for the two
   * known statuses: every other status, labelled "Inconnu", is shown
   * yellow, like a ticket in progress.
   */
  lemma RenderedColourMeaning(status: int)
    ensures RenderedColour(status) == StatusColor(status) <==> status == 5 || status == 26
    ensures RenderedColour(status) == "text-green-400" <==> StatusText(status) == "Résolu"
    ensures StatusText(status) == "Inconnu" ==> RenderedColour(status) == "text-yellow-400"
  {
  }

  /** `getProgressHours`: whole hours elapsed since creation, capped at 8. */
  function ProgressHours(now: int, createDate: int): (h: int)
    ensures h <= MaxHours
    ensures h == MaxHours <==> now - createDate >= MaxHours * HourMs
    ensures h < MaxHours ==> h * HourMs <= now - createDate < (h + 1) * HourMs
  {
    var hours := (now - createDate) / HourMs;
    if hours < MaxHours then hours else MaxHours
  }

  /** The text `<hours>/8 heures`. */
  function ProgressText(now: int, createDate: int): string {
    Decimal.IntToString(ProgressHours(now, createDate)) + "/8 heures"
  }

  // ---------------------------------------------------------------- ordering

  /** The comparator `b.createDate - a.createDate`: newest first. */
  function NewestFirst(a: Ticket, b: Ticket): bool {
    a.createDate >= b.createDate
  }

  lemma NewestFirstIsTotalPreorder()
    ensures Sorting.TotalPreorder(NewestFirst)
  {
  }

  function SortNewestFirst(tickets: seq<Ticket>): seq<Ticket> {
    Sorting.InsertionSort(tickets, NewestFirst)
  }

  /** The list is shown newest first, and holds exactly the tickets received. */
  lemma SortNewestFirstMeaning(tickets: seq<Ticket>)
    ensures var s := SortNewestFirst(tickets);
      && multiset(s) == multiset(tickets)
      && (forall i, j :: 0 <= i < j < |s| ==> s[i].createDate >= s[j].createDate)
  {
    NewestFirstIsTotalPreorder();
    Sorting.InsertionSortSorted(tickets, NewestFirst);
  }

  // ------------------------------------------------------------------- fetch

  /** One answer to `GET /tickets`: a status and the `tickets` of its body, or a thrown error. */
  datatype FetchAnswer = Answered(status: int, tickets: Option<seq<Ticket>>) | FetchThrew

  /** Answers that make the loop wait and retry without touching `loading`. */
  predicate IsRetryStatus(a: FetchAnswer) {
    a.Answered? && (a.status == 401 || a.status == 500)
  }

  /** `res.ok`. */
  predicate IsOk(a: FetchAnswer) {
    a.Answered? && 200 <= a.status <= 299
  }

  /** The first of the first `n` attempts whose answer is OK. */
  function FirstOk(answers: nat -> FetchAnswer, n: nat): (r: Option<nat>)
    ensures r.Some? ==> r.value < n && IsOk(answers(r.value)) && forall j :: 0 <= j < r.value ==> !IsOk(answers(j))
    ensures r.None? ==> forall j :: 0 <= j < n ==> !IsOk(answers(j))
  {
    if n == 0 then None
    else if FirstOk(answers, n - 1).Some? then FirstOk(answers, n - 1)
    else if IsOk(answers(n - 1)) then Some(n - 1)
    else None
  }

  // ------------------------------------------------------------------ create

  const CreatedAlert: string := "Ticket créé avec succès !"
  const NotVisibleAlert: string := "Ticket créé, mais pas encore visible. Rafraîchissez la page dans quelques secondes."
  const CreateFailed: string := "Erreur lors de la création"
  const CannotCreate: string := "Impossible de créer le ticket"
  const EmptyFieldsAlert: string := "Veuillez remplir le titre et la description !"
  /**
   * The message of the `ReferenceError` raised by calling `setNewTicketTemp`,
   * which no scope of the page declares.
   */
  const UndeclaredSetterMessage: string := "setNewTicketTemp is not defined"

  /** `!s.trim()`. */
  predicate IsBlank(s: string) {
    Text.Trim(s) == ""
  }

  /** The temporary ticket shown until the real one arrives. */
  function TempTicket(now: int, title: string): Ticket {
    Ticket(now, "TEMP-" + Decimal.IntToString(now), title, now, Some("En attente"), 1)
  }

  /** The answer to `POST /tickets`. */
  datatype PostAnswer = Posted | Rejected(message: string) | PostThrew(message: string)

  /** The `alert` of the catch block. */
  function ErrorAlert(message: string): string {
    "Erreur : " + (if message != "" then message else CannotCreate)
  }

  /** What the refresh loop ends with, from attempt `attempt` on. */
  datatype RefreshOutcome = Found(tickets: seq<Ticket>) | NothingYet | RefreshThrew(message: string)

  /**
   * Attempts `attempt` to 5 of the refresh: the first non-empty list is
   * kept; an attempt that throws ends the whole creation flow.
   */
  function RefreshFrom(refreshes: nat -> Result<Option<seq<Ticket>>, string>, attempt: nat): RefreshOutcome
    decreases MaxRefreshAttempts + 1 - attempt
  {
    if attempt > MaxRefreshAttempts then NothingYet
    else match refreshes(attempt)
      case Err(m) => RefreshThrew(m)
      case Ok(t) => if t.Some? && |t.value| > 0 then Found(t.value) else RefreshFrom(refreshes, attempt + 1)
  }

  /** A kept list is non-empty and is the answer of some attempt from 1 to 5, all earlier ones having been empty. */
  lemma {:induction false} RefreshFromMeaning(refreshes: nat -> Result<Option<seq<Ticket>>, string>, attempt: nat)
    requires attempt >= 1
    ensures RefreshFrom(refreshes, attempt).Found? ==>
      && |RefreshFrom(refreshes, attempt).tickets| > 0
      && exists k :: attempt <= k <= MaxRefreshAttempts && refreshes(k) == Ok(Some(RefreshFrom(refreshes, attempt).tickets))
    ensures RefreshFrom(refreshes, attempt).NothingYet? ==>
      forall k :: attempt <= k <= MaxRefreshAttempts ==> refreshes(k).Ok? && (refreshes(k).value.None? || refreshes(k).value.value == [])
    decreases MaxRefreshAttempts + 1 - attempt
  {
    if attempt <= MaxRefreshAttempts && refreshes(attempt).Ok? {
      var t := refreshes(attempt).value;
      if !(t.Some? && |t.value| > 0) {
        RefreshFromMeaning(refreshes, attempt + 1);
      }
    }
  }

  /**
   * The refresh loop after a creation: up to 5 attempts, stopping at the
   * first non-empty list (an attempt that throws ends it too).
   */
  method RefreshTickets(refreshes: nat -> Result<Option<seq<Ticket>>, string>) returns (outcome: RefreshOutcome)
    ensures outcome == RefreshFrom(refreshes, 1)
  {
    var newTickets: seq<Ticket> := [];
    var attempt := 1;
    while attempt <= MaxRefreshAttempts
      invariant 1 <= attempt <= MaxRefreshAttempts + 1
      invariant newTickets == [] && RefreshFrom(refreshes, 1) == RefreshFrom(refreshes, attempt)
      decreases MaxRefreshAttempts + 1 - attempt
    {
      var freshData := refreshes(attempt);
      if freshData.Err? {
        return RefreshThrew(freshData.error);
      }
      if freshData.value.Some? && |freshData.value.value| > 0 {
        newTickets := freshData.value.value;
        break;
      }
      attempt := attempt + 1;
    }
    // The `map` that follows returns every ticket unchanged.
    outcome := if |newTickets| > 0 then Found(newTickets) else NothingYet;
  }

  class TicketsPageState {
    var tickets: seq<Ticket>
    var loading: bool
    var currentPage: int
    var isModalOpen: bool
    var ticketTitle: string
    var ticketDescription: string

    constructor()
      ensures tickets == [] && loading && currentPage == 1 && !isModalOpen
      ensures ticketTitle == "" && ticketDescription == ""
    {
      tickets := [];
      loading := true;
      currentPage := 1;
      isModalOpen := false;
      ticketTitle := "";
      ticketDescription := "";
    }

    /**
     * `fetchTickets`: at most 3 attempts; `answers(i)` is the answer to
     * attempt i (from 0). The first OK answer sets the list, newest first,
     * and ends loading. When all three fail, loading ends only if the last
     * failure was thrown (or a status other than 401 and 500): after a
     * 401 or a 500 the page keeps loading.
     */
    method FetchTickets(answers: nat -> FetchAnswer) returns (attempts: nat)
      modifies this
      ensures match FirstOk(answers, MaxFetchAttempts)
        case Some(i) =>
          && attempts == i + 1
          && tickets == SortNewestFirst(if answers(i).tickets.Some? then answers(i).tickets.value else [])
          && !loading
        case None =>
          && attempts == MaxFetchAttempts
          && tickets == old(tickets)
          && loading == (old(loading) && IsRetryStatus(answers(MaxFetchAttempts - 1)))
      ensures currentPage == old(currentPage) && isModalOpen == old(isModalOpen)
      ensures ticketTitle == old(ticketTitle) && ticketDescription == old(ticketDescription)
    {
      var failures := 0;
      attempts := 0;
      while failures < MaxFetchAttempts
        invariant 0 <= failures <= MaxFetchAttempts && attempts == failures
        invariant forall j :: 0 <= j < failures ==> !IsOk(answers(j))
        invariant tickets == old(tickets)
        invariant failures < MaxFetchAttempts ==> loading == old(loading)
        invariant failures == MaxFetchAttempts ==>
          loading == (old(loading) && IsRetryStatus(answers(MaxFetchAttempts - 1)))
        invariant currentPage == old(currentPage) && isModalOpen == old(isModalOpen)
        invariant ticketTitle == old(ticketTitle) && ticketDescription == old(ticketDescription)
      {
        var answer := answers(attempts);
        attempts := attempts + 1;
        if IsRetryStatus(answer) {
          failures := failures + 1;
          continue;
        }
        if !IsOk(answer) {
          // thrown, or `throw new Error("Erreur API")`: the catch block
          failures := failures + 1;
          if failures >= MaxFetchAttempts {
            loading := false;
          }
          continue;
        }
        tickets := SortNewestFirst(if answer.tickets.Some? then answer.tickets.value else []);
        loading := false;
        return;
      }
    }

    /** A click on a page number. */
    method ClickPageNumber(n: int)
      modifies this
      ensures currentPage == n && tickets == old(tickets) && loading == old(loading)
      ensures isModalOpen == old(isModalOpen)
      ensures ticketTitle == old(ticketTitle) && ticketDescription == old(ticketDescription)
    {
      currentPage := n;
    }

    /**
     * The "create" button. A blank title or description only raises an
     * alert. Otherwise the temporary ticket goes first, the old list after
     * it; then the request is sent (`post`) and, once it is accepted, the
     * list is refreshed (`refreshes`, attempts 1 to 5). When a list is
     * found it replaces the shown one, but the call that follows names a
     * setter declared nowhere, so the catch block's alert is raised and the
     * form and dialog stay as they were. Returns the alerts raised.
     */
    method CreateTicket(now: int, post: PostAnswer, refreshes: nat -> Result<Option<seq<Ticket>>, string>)
      returns (alerts: seq<string>)
      modifies this
      ensures IsBlank(old(ticketTitle)) || IsBlank(old(ticketDescription)) ==>
        alerts == [EmptyFieldsAlert] && tickets == old(tickets) &&
        ticketTitle == old(ticketTitle) && ticketDescription == old(ticketDescription) && isModalOpen == old(isModalOpen)
      ensures !IsBlank(old(ticketTitle)) && !IsBlank(old(ticketDescription)) ==>
        (post.Posted? && RefreshFrom(refreshes, 1).Found? ==> tickets == RefreshFrom(refreshes, 1).tickets) &&
        (!(post.Posted? && RefreshFrom(refreshes, 1).Found?) ==> tickets == [TempTicket(now, old(ticketTitle))] + old(tickets))
      ensures !IsBlank(old(ticketTitle)) && !IsBlank(old(ticketDescription)) ==>
        alerts == match post
          case Rejected(m) => [ErrorAlert(if m != "" then m else CreateFailed)]
          case PostThrew(m) => [ErrorAlert(m)]
          case Posted => match RefreshFrom(refreshes, 1)
            case RefreshThrew(m) => [CreatedAlert, ErrorAlert(m)]
            case Found(_) => [CreatedAlert, ErrorAlert(UndeclaredSetterMessage)]
            case NothingYet => [CreatedAlert, NotVisibleAlert]
      ensures !IsBlank(old(ticketTitle)) && !IsBlank(old(ticketDescription)) ==>
        if post.Posted? && RefreshFrom(refreshes, 1).NothingYet? then
          ticketTitle == "" && ticketDescription == "" && !isModalOpen
        else
          ticketTitle == old(ticketTitle) && ticketDescription == old(ticketDescription) && isModalOpen == old(isModalOpen)
      ensures currentPage == old(currentPage) && loading == old(loading)
    {
      if IsBlank(ticketTitle) || IsBlank(ticketDescription) {
        return [EmptyFieldsAlert];
      }
      tickets := [TempTicket(now, ticketTitle)] + tickets;
      if post.Rejected? {
        var message := if post.message != "" then post.message else CreateFailed;
        return [ErrorAlert(message)];
      }
      if post.PostThrew? {
        return [ErrorAlert(post.message)];
      }
      alerts := [CreatedAlert];
      var outcome := RefreshTickets(refreshes);
      if outcome.RefreshThrew? {
        return alerts + [ErrorAlert(outcome.message)];
      }
      if outcome.Found? {
        tickets := outcome.tickets;
        // The next call names an undeclared setter: it throws into the catch block.
        return alerts + [ErrorAlert(UndeclaredSetterMessage)];
      }
      alerts := alerts + [NotVisibleAlert];
      ticketTitle := "";
      ticketDescription := "";
      isModalOpen := false;
    }
  }

  /** The optimistic insert puts the temporary ticket first and keeps the previous list, in order, after it. */
  lemma TempTicketFirst(now: int, title: string, tickets: seq<Ticket>)
    ensures var withTemp := [TempTicket(now, title)] + tickets;
      && withTemp[0].ticketNumber == "TEMP-" + Decimal.IntToString(now)
      && withTemp[0].status == 1 && withTemp[0].assignedResourceName == Some("En attente")
      && withTemp[1..] == tickets
  {
  }
}
