/**
 * The daily technician refresh: every resource returned by the
 * service-desk Resources query that has both a first and a last name is
 * upserted, one by one, into the technician table keyed by its id.
 */
module TechniciansSync {
  import opened Wrappers
  import opened Json

  /** A row of the technician table. */
  datatype Technician = Technician(
    id: int,
    firstName: string,
    lastName: string,
    fullName: string,
    email: Option<string>,
    isActive: bool)

  /** The technician table, keyed by the service-desk resource id. */
  type TechnicianTable = map<int, Technician>

  /**
   * One item of the Resources query. A missing name or e-mail address is the
   * empty string, which is falsy just as `undefined` is.
   */
  datatype Resource = Resource(
    id: int,
    firstName: string,
    lastName: string,
    emailAddress: string,
    isActive: Value)

  /** The Resources query: failed, or answered with `items` (possibly absent). */
  datatype ResourcesResponse =
    | ResourcesFailed(message: string)
    | ResourcesReceived(items: Option<seq<Resource>>)

  datatype SyncError =
    | RequestFailed(message: string)
    | StoreFailed(position: nat)

  datatype SyncOutcome = Completed | Rethrown(error: SyncError)

  /** `response.data.items || []`. */
  function ReceivedItems(response: ResourcesResponse): seq<Resource>
    requires response.ResourcesReceived?
  {
    match response.items
    case Some(rs) => rs
    case None => []
  }

  /** Resources without both names are skipped. */
  predicate IsNamed(r: Resource) {
    r.firstName != "" && r.lastName != ""
  }

  /** The values both the update and the create branch write for a resource. */
  function TechnicianRow(r: Resource): Technician {
    Technician(
      r.id,
      r.firstName,
      r.lastName,
      r.firstName + " " + r.lastName,
      if r.emailAddress == "" then None else Some(r.emailAddress),
      r.isActive.Truthy())
  }

  /** One upsert: the row for `r.id` becomes `TechnicianRow(r)` whether or not it existed. */
  function Upsert(table: TechnicianTable, r: Resource): TechnicianTable {
    if IsNamed(r) then table[r.id := TechnicianRow(r)] else table
  }

  /** The upserts of `rs`, in order. */
  function UpsertAll(table: TechnicianTable, rs: seq<Resource>): TechnicianTable
    decreases |rs|
  {
    if rs == [] then table else Upsert(UpsertAll(table, rs[..|rs| - 1]), rs[|rs| - 1])
  }

  /** The rows a response writes, on their own. */
  function Written(rs: seq<Resource>): TechnicianTable {
    UpsertAll(map[], rs)
  }

  /** The ids a response writes: those of its named resources. */
  function WrittenIds(rs: seq<Resource>): set<int> {
    set i | 0 <= i < |rs| && IsNamed(rs[i]) :: rs[i].id
  }

  /** A sync overrides the table with the rows of the response and leaves every other row alone. */
  lemma {:induction false} UpsertAllOverrides(table: TechnicianTable, rs: seq<Resource>)
    ensures UpsertAll(table, rs) == table + Written(rs)
    decreases |rs|
  {
    if rs != [] {
      var p := rs[..|rs| - 1];
      UpsertAllOverrides(table, p);
      UpsertAllOverrides(map[], p);
    }
  }

  lemma {:induction false} WrittenKeys(rs: seq<Resource>)
    ensures Written(rs).Keys == WrittenIds(rs)
    decreases |rs|
  {
    if rs != [] {
      var p := rs[..|rs| - 1];
      WrittenKeys(p);
      assert forall i :: 0 <= i < |p| ==> p[i] == rs[i];
      if IsNamed(rs[|rs| - 1]) {
        assert WrittenIds(rs) == WrittenIds(p) + {rs[|rs| - 1].id};
      } else {
        assert WrittenIds(rs) == WrittenIds(p);
      }
    }
  }

  /** Rows whose id the response does not name are neither changed nor deleted. */
  lemma OtherRowsUntouched(table: TechnicianTable, rs: seq<Resource>, k: int)
    requires forall i :: 0 <= i < |rs| && IsNamed(rs[i]) ==> rs[i].id != k
    ensures k in UpsertAll(table, rs) <==> k in table
    ensures k in table ==> UpsertAll(table, rs)[k] == table[k]
  {
    UpsertAllOverrides(table, rs);
    WrittenKeys(rs);
  }

  /** A written row does not depend on what the table held before. */
  lemma WrittenRowIndependentOfPriorState(t1: TechnicianTable, t2: TechnicianTable, rs: seq<Resource>, k: int)
    requires k in WrittenIds(rs)
    ensures k in UpsertAll(t1, rs) && k in UpsertAll(t2, rs)
    ensures UpsertAll(t1, rs)[k] == UpsertAll(t2, rs)[k]
  {
    UpsertAllOverrides(t1, rs);
    UpsertAllOverrides(t2, rs);
    WrittenKeys(rs);
  }

  /** Syncing the same response twice leaves the table as syncing it once. */
  lemma SyncIdempotent(table: TechnicianTable, rs: seq<Resource>)
    ensures UpsertAll(UpsertAll(table, rs), rs) == UpsertAll(table, rs)
  {
    UpsertAllOverrides(table, rs);
    UpsertAllOverrides(table + Written(rs), rs);
  }

  /** Every row the sync writes is named `firstName + " " + lastName` of a named resource with that id. */
  lemma {:induction false} WrittenRowsComeFromResources(rs: seq<Resource>, k: int)
    requires k in Written(rs)
    ensures exists i :: 0 <= i < |rs| && IsNamed(rs[i]) && rs[i].id == k && Written(rs)[k] == TechnicianRow(rs[i])
    decreases |rs|
  {
    var p := rs[..|rs| - 1];
    var last := rs[|rs| - 1];
    if IsNamed(last) && last.id == k {
      assert Written(rs)[k] == TechnicianRow(rs[|rs| - 1]);
    } else {
      WrittenRowsComeFromResources(p, k);
      var i :| 0 <= i < |p| && IsNamed(p[i]) && p[i].id == k && Written(p)[k] == TechnicianRow(p[i]);
      assert rs[i] == p[i];
    }
  }

  /**
   * `syncTechnicians`: query the resources, then upsert them one at a time.
   * `storeFailsAt` names the position of the resource whose upsert the store
   * rejects, if any; the error is rethrown and the upserts before it remain.
   */
  method SyncTechnicians(table: TechnicianTable, response: ResourcesResponse, storeFailsAt: Option<nat>)
    returns (result: TechnicianTable, outcome: SyncOutcome)
    ensures response.ResourcesFailed? ==>
      result == table && outcome == Rethrown(RequestFailed(response.message))
    ensures response.ResourcesReceived? ==>
      var rs := ReceivedItems(response);
      if storeFailsAt.Some? && storeFailsAt.value < |rs| && IsNamed(rs[storeFailsAt.value]) then
        result == UpsertAll(table, rs[..storeFailsAt.value]) && outcome == Rethrown(StoreFailed(storeFailsAt.value))
      else
        result == UpsertAll(table, rs) && outcome == Completed
  {
    if response.ResourcesFailed? {
      return table, Rethrown(RequestFailed(response.message));
    }
    var resources := ReceivedItems(response);
    result := table;
    var i := 0;
    while i < |resources|
      invariant 0 <= i <= |resources|
      invariant result == UpsertAll(table, resources[..i])
      invariant storeFailsAt.Some? && storeFailsAt.value < i ==> !IsNamed(resources[storeFailsAt.value])
    {
      var resource := resources[i];
      if IsNamed(resource) {
        if storeFailsAt == Some(i) {
          return result, Rethrown(StoreFailed(i));
        }
        result := result[resource.id := TechnicianRow(resource)];
      }
      assert resources[..i + 1][..i] == resources[..i];
      i := i + 1;
    }
    assert resources[..i] == resources;
    outcome := Completed;
  }
}
