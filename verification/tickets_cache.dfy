/**
 * The ticket service's read path and create path: a per-user cache of the
 * tickets fetched from the service-desk system, the enrichment of every
 * fetched ticket with the name of its "real" technician, and the cache
 * invalidation after a ticket is created.
 *
 * Tickets are JSON objects. The service-desk query, the create call and
 * the clock are parameters; the technician table is the one
 * `TechniciansSync` maintains.
 */
module TicketsCache {
  import opened Wrappers
  import opened Json
  import Decimal
  import Text
  import opened TechniciansSync

  /** `CACHE_DURATION`: 60 minutes in milliseconds. */
  const CacheDuration: int := 60 * 60 * 1000

  /** The age below which a found entry would be deleted instead of served. */
  const RecentWriteGuard: int := 30000

  /** Service-desk accounts that are integrations, not people. */
  const SystemIds: seq<int> := [
    4, 29682909, 29682914, 29682921, 29682931,
    29682932, 29682936, 29682946, 29682961, 29682962]

  const Unassigned: string := "Non assigné"
  const NameField: string := "assignedResourceName"
  const FetchFailure: string := "Impossible de récupérer les tickets Autotask"
  const CreateFailure: string := "Impossible de créer le ticket Autotask"

  // ---------------------------------------------------------------- cache key

  /** `tickets_<contactId>_<companyId>`, used both to read and to invalidate. */
  function CacheKey(contactId: int, companyId: int): string {
    "tickets_" + Decimal.IntToString(contactId) + "_" + Decimal.IntToString(companyId)
  }

  function IndexOf(s: string, c: char): (r: Option<nat>)
    ensures r.Some? ==> r.value < |s| && s[r.value] == c && c !in s[..r.value]
    ensures r.None? ==> c !in s
  {
    if s == [] then None
    else if s[0] == c then Some(0)
    else match IndexOf(s[1..], c)
      case None => None
      case Some(i) => assert s[..i + 1] == [s[0]] + s[1..][..i]; Some(i + 1)
  }

  /** Reads the user back out of a cache key. */
  function ParseCacheKey(key: string): Option<(int, int)> {
    if !Text.StartsWith(key, "tickets_") then None
    else
      var rest := key[8..];
      match IndexOf(rest, '_')
      case None => None
      case Some(i) =>
        match (Decimal.ParseInteger(rest[..i]), Decimal.ParseInteger(rest[i + 1..]))
        case (Some(c), Some(k)) => Some((c, k))
        case _ => None
  }

  lemma CacheKeyRoundTrip(contactId: int, companyId: int)
    ensures ParseCacheKey(CacheKey(contactId, companyId)) == Some((contactId, companyId))
  {
    var a := Decimal.IntToString(contactId);
    var b := Decimal.IntToString(companyId);
    var key := CacheKey(contactId, companyId);
    assert key[8..] == a + "_" + b;
    assert '_' !in a;
    var i := IndexOf(a + "_" + b, '_');
    assert i == Some(|a|) by {
      assert (a + "_" + b)[|a|] == '_';
      assert (a + "_" + b)[..|a|] == a;
    }
    assert (a + "_" + b)[..|a|] == a;
    assert (a + "_" + b)[|a| + 1..] == b;
    Decimal.IntRoundTrip(contactId);
    Decimal.IntRoundTrip(companyId);
  }

  /** Two users share a cache entry only if they have the same contact and company. */
  lemma CacheKeyInjective(c1: int, k1: int, c2: int, k2: int)
    requires CacheKey(c1, k1) == CacheKey(c2, k2)
    ensures c1 == c2 && k1 == k2
  {
    CacheKeyRoundTrip(c1, k1);
    CacheKeyRoundTrip(c2, k2);
  }

  // ------------------------------------------------------ technician resolution

  /** A usable resource id: truthy and not a system account. */
  predicate IsCandidate(v: Value) {
    v.Truthy() && !(v.Num? && v.n in SystemIds)
  }

  /** The ids the resolution looks at, in priority order. */
  function CandidateIds(ticket: Object): seq<Value> {
    [Get(ticket, "assignedResourceID"),
     Get(ticket, "completedByResourceID"),
     Get(ticket, "firstResponseInitiatingResourceID"),
     Get(ticket, "lastActivityResourceID")]
  }

  /** The four guarded assignments to `resourceId`, as the service performs them. */
  function ChosenResourceId(ticket: Object): Value {
    var assignedId := Get(ticket, "assignedResourceID");
    var completedBy := Get(ticket, "completedByResourceID");
    var firstResponse := Get(ticket, "firstResponseInitiatingResourceID");
    var lastActivity := Get(ticket, "lastActivityResourceID");
    var id0 := Null;
    var id1 := if IsCandidate(assignedId) then assignedId else id0;
    var id2 := if !id1.Truthy() && IsCandidate(completedBy) then completedBy else id1;
    var id3 := if !id2.Truthy() && IsCandidate(firstResponse) then firstResponse else id2;
    if !id3.Truthy() && IsCandidate(lastActivity) then lastActivity else id3
  }

  /** Reference definition: the first candidate of a list, or null. */
  function FirstCandidate(ids: seq<Value>): (r: Value)
    ensures r == Null || (r in ids && IsCandidate(r))
  {
    if ids == [] then Null
    else if IsCandidate(ids[0]) then ids[0]
    else FirstCandidate(ids[1..])
  }

  /**
   * The chosen id is the first truthy, non-system id in the order
   * assigned, completed-by, first-response, last-activity; a system
   * account is never chosen.
   */
  lemma ChosenIsFirstCandidate(ticket: Object)
    ensures ChosenResourceId(ticket) == FirstCandidate(CandidateIds(ticket))
    ensures ChosenResourceId(ticket).Num? ==> ChosenResourceId(ticket).n !in SystemIds
  {
    var ids := CandidateIds(ticket);
    assert ids[1..] == [ids[1], ids[2], ids[3]];
    assert ids[1..][1..] == [ids[2], ids[3]];
    assert ids[1..][1..][1..] == [ids[3]];
    assert ids[1..][1..][1..][1..] == [];
    assert FirstCandidate(ids[1..][1..][1..]) == if IsCandidate(ids[3]) then ids[3] else Null;
    assert FirstCandidate(ids[1..][1..]) == if IsCandidate(ids[2]) then ids[2] else FirstCandidate(ids[1..][1..][1..]);
    assert FirstCandidate(ids[1..]) == if IsCandidate(ids[1]) then ids[1] else FirstCandidate(ids[1..][1..]);
  }

  /**
   * The technician name for a ticket. A chosen id that is not a number
   * makes the store lookup fail (`Err`).
   */
  function ResolveName(ticket: Object, technicians: TechnicianTable): Result<string, string> {
    var id := ChosenResourceId(ticket);
    if !id.Truthy() then Ok(Unassigned)
    else if !id.Num? then Err("technician lookup rejected a non-numeric id")
    else if id.n in technicians then Ok(technicians[id.n].fullName)
    else Ok(Unassigned)
  }

  /**
   * The name is the technician's full name exactly when the first candidate
   * id is in the table, and "Non assigné" when no id qualifies or the id is
   * unknown.
   */
  lemma ResolveNameMeaning(ticket: Object, technicians: TechnicianTable)
    ensures var first := FirstCandidate(CandidateIds(ticket));
      && (first == Null ==> ResolveName(ticket, technicians) == Ok(Unassigned))
      && (first.Num? && first.n in technicians ==> ResolveName(ticket, technicians) == Ok(technicians[first.n].fullName))
      && (first.Num? && first.n !in technicians ==> ResolveName(ticket, technicians) == Ok(Unassigned))
      && (ResolveName(ticket, technicians).Err? <==> first != Null && !first.Num?)
  {
    ChosenIsFirstCandidate(ticket);
  }

  /** `{...ticket, assignedResourceName}`. */
  function WithName(ticket: Object, name: string): (r: Object)
    ensures NamedCopy(r, ticket, name)
  {
    ticket[NameField := Str(name)]
  }

  /** `after` is `before` with every field kept and `assignedResourceName` set to `name`. */
  predicate NamedCopy(after: Object, before: Object, name: string) {
    && after.Keys == before.Keys + {NameField}
    && (forall k :: k in before && k != NameField ==> after[k] == before[k])
    && after[NameField] == Str(name)
  }

  /**
   * The enrichment of a fetched list (`Promise.all` over `map`): it fails
   * if any lookup fails, and otherwise keeps the length, the order and every
   * field of every ticket, setting only `assignedResourceName`.
   */
  function EnrichAll(tickets: seq<Object>, technicians: TechnicianTable): Result<seq<Object>, string> {
    if tickets == [] then Ok([])
    else
      match ResolveName(tickets[0], technicians)
      case Err(e) => Err(e)
      case Ok(name) =>
        match EnrichAll(tickets[1..], technicians)
        case Err(e) => Err(e)
        case Ok(rest) => Ok([WithName(tickets[0], name)] + rest)
  }

  lemma {:induction false} EnrichAllMeaning(tickets: seq<Object>, technicians: TechnicianTable)
    ensures var r := EnrichAll(tickets, technicians);
      && (r.Err? <==> exists i :: 0 <= i < |tickets| && ResolveName(tickets[i], technicians).Err?)
      && (r.Ok? ==> |r.value| == |tickets|)
      && (r.Ok? ==> forall i :: 0 <= i < |tickets| ==>
            NamedCopy(r.value[i], tickets[i], ResolveName(tickets[i], technicians).value))
  {
    if tickets != [] && ResolveName(tickets[0], technicians).Ok? {
      var tail := tickets[1..];
      EnrichAllMeaning(tail, technicians);
      match EnrichAll(tail, technicians)
      case Err(_) =>
        var j :| 0 <= j < |tail| && ResolveName(tail[j], technicians).Err?;
        assert tickets[j + 1] == tail[j];
      case Ok(rest) =>
        forall i | 1 <= i < |tickets|
          ensures ResolveName(tickets[i], technicians).Ok?
          ensures tickets[i] == tail[i - 1]
        {
        }
    }
  }

  // ----------------------------------------------------------------- service

  datatype CacheEntry = CacheEntry(data: seq<Object>, timestamp: int)

  /** The Tickets query: failed, or answered with `items` (possibly absent). */
  datatype QueryResponse = QueryFailed | QueryAnswered(items: Option<seq<Object>>)

  /** The query's items (`response.data.items || []`), enriched; any failure is an `Err`. */
  function Fetched(response: QueryResponse, technicians: TechnicianTable): Result<seq<Object>, string> {
    match response
    case QueryFailed => Err("query failed")
    case QueryAnswered(items) => EnrichAll(if items.Some? then items.value else [], technicians)
  }

  /** What `getTicketsForUser` resolves to or throws. */
  datatype ReadOutcome = Returned(data: seq<Object>) | ReturnedNothing | Thrown(message: string)

  /** The body `createTicketForUser` posts. */
  datatype TicketRequest = TicketRequest(
    companyID: int,
    contactID: int,
    title: string,
    description: string,
    queueID: int,
    status: int,
    priority: int,
    source: int,
    ticketType: int,
    billingCodeID: int)

  /** The create call: failed, or answered with the created ticket. */
  datatype CreateResponse = CreateFailed | CreateAnswered(data: Object)

  class TicketsService {
    var ticketsCache: map<string, CacheEntry>

    constructor ()
      ensures ticketsCache == map[]
    {
      ticketsCache := map[];
    }

    /**
     * `getTicketsForUser` at time `now`. `queried` says whether the
     * service-desk system was asked. Any entry found is served, whatever
     * its age; a miss stores the enriched tickets and returns nothing.
     */
    method GetTicketsForUser(
      contactId: int, companyId: int, now: int,
      response: QueryResponse, technicians: TechnicianTable)
      returns (r: ReadOutcome, queried: bool)
      modifies this
      ensures var key := CacheKey(contactId, companyId);
        key in old(ticketsCache) ==>
          r == Returned(old(ticketsCache)[key].data) && !queried && ticketsCache == old(ticketsCache)
      ensures CacheKey(contactId, companyId) !in old(ticketsCache) ==> queried
      ensures CacheKey(contactId, companyId) !in old(ticketsCache) && Fetched(response, technicians).Err? ==>
        r == Thrown(FetchFailure) && ticketsCache == old(ticketsCache)
      ensures CacheKey(contactId, companyId) !in old(ticketsCache) && Fetched(response, technicians).Ok? ==>
        r == ReturnedNothing &&
        ticketsCache == old(ticketsCache)[CacheKey(contactId, companyId) := CacheEntry(Fetched(response, technicians).value, now)]
    {
      var cacheKey := CacheKey(contactId, companyId);
      if cacheKey in ticketsCache && now - ticketsCache[cacheKey].timestamp < CacheDuration {
        return Returned(ticketsCache[cacheKey].data), false;
      }
      if cacheKey in ticketsCache {
        var cached := ticketsCache[cacheKey];
        var age := now - cached.timestamp;
        // Only entries at least CacheDuration old get here, so the forced
        // deletion of entries younger than RecentWriteGuard never happens.
        assert age >= CacheDuration > RecentWriteGuard;
        ticketsCache := if age < RecentWriteGuard then ticketsCache - {cacheKey} else ticketsCache;
        if age >= RecentWriteGuard {
          return Returned(cached.data), false;
        }
      }
      queried := true;
      var enriched := Fetched(response, technicians);
      if enriched.Err? {
        return Thrown(FetchFailure), queried;
      }
      ticketsCache := ticketsCache[cacheKey := CacheEntry(enriched.value, now)];
      r := ReturnedNothing;
    }

    /**
     * `createTicketForUser`: posts a new ticket (status 1, priority 3) and,
     * once the service-desk system accepted it, drops this user's cache entry.
     */
    method CreateTicketForUser(
      contactId: int, companyId: int, title: string, description: string,
      response: CreateResponse)
      returns (r: Result<Object, string>, request: TicketRequest)
      modifies this
      ensures request.contactID == contactId && request.companyID == companyId
      ensures request.title == title && request.description == description
      ensures request.status == 1 && request.priority == 3
      ensures request.queueID == 29682833 && request.source == -1
      ensures request.ticketType == 1 && request.billingCodeID == 29682801
      ensures response.CreateAnswered? ==>
        r == Ok(response.data) && ticketsCache == old(ticketsCache) - {CacheKey(contactId, companyId)}
      ensures response.CreateFailed? ==>
        r == Err(CreateFailure) && ticketsCache == old(ticketsCache)
    {
      request := TicketRequest(companyId, contactId, title, description, 29682833, 1, 3, -1, 1, 29682801);
      if response.CreateFailed? {
        return Err(CreateFailure), request;
      }
      var cacheKey := CacheKey(contactId, companyId);
      ticketsCache := ticketsCache - {cacheKey};
      r := Ok(response.data);
    }
  }

  /** Invalidating one user's entry never touches another user's entry. */
  lemma InvalidationIsPerUser(cache: map<string, CacheEntry>, contactId: int, companyId: int, otherContact: int, otherCompany: int)
    requires (otherContact, otherCompany) != (contactId, companyId)
    ensures var other := CacheKey(otherContact, otherCompany);
      var after := cache - {CacheKey(contactId, companyId)};
      (other in after <==> other in cache) && (other in cache ==> after[other] == cache[other])
  {
    if CacheKey(otherContact, otherCompany) == CacheKey(contactId, companyId) {
      CacheKeyInjective(otherContact, otherCompany, contactId, companyId);
    }
  }
}
