/**
 * `serviceService`: services fetched from the API are stamped with the time
 * they were fetched, and a lookup by name re-fetches the one service found
 * when asked to, or when its stamp is missing or over five minutes old. The
 * HTTP responses and the clock readings are parameters.
 */
module ServiceService {
  import opened Wrappers
  import opened Text
  import opened Dates
  import opened Records

  /** A request to the API that was rejected; the error is rethrown to the caller. */
  datatype Failure = RequestFailed

  /** How long a stamped service counts as recent. */
  const FreshFor: int := 5 * MsPerMinute

  /** `{ ...service, _lastFetched: <now> }`. */
  function Stamp(s: Service, now: int): Service {
    s.(lastFetched := Some(now))
  }

  /**
   * `getServices()`, given the `/services` response (`None` when the request
   * fails) and the instant the data is stamped with.
   */
  function GetServices(response: Option<seq<Service>>, now: int): (r: Result<seq<Service>, Failure>)
    ensures response.None? <==> r.Err?
    ensures r.Ok? ==> |r.value| == |response.value|
    ensures r.Ok? ==> forall i :: 0 <= i < |r.value| ==>
      r.value[i].lastFetched == Some(now)
      && r.value[i].(lastFetched := response.value[i].lastFetched) == response.value[i]
  {
    match response
    case None => Err(RequestFailed)
    case Some(services) => Ok(seq(|services|, i requires 0 <= i < |services| => Stamp(services[i], now)))
  }

  /** `getServiceById(id)`, given the `/services/<id>` response and the stamping instant. */
  function GetServiceById(response: Option<Service>, now: int): (r: Result<Service, Failure>)
    ensures response.None? <==> r.Err?
    ensures r.Ok? ==> r.value.lastFetched == Some(now) && r.value.(lastFetched := response.value.lastFetched) == response.value
  {
    match response
    case None => Err(RequestFailed)
    case Some(s) => Ok(Stamp(s, now))
  }

  /** `service.name.toLowerCase() === serviceName.toLowerCase()`. */
  predicate SameName(s: Service, serviceName: string) {
    Lower(s.name) == Lower(serviceName)
  }

  /** Index of the first service from index `i` on with that name, ignoring case. */
  function FindFrom(services: seq<Service>, serviceName: string, i: nat): (r: Option<nat>)
    requires i <= |services|
    ensures r.Some? ==> i <= r.value < |services| && SameName(services[r.value], serviceName)
    ensures r.Some? ==> forall j :: i <= j < r.value ==> !SameName(services[j], serviceName)
    ensures r.None? <==> forall j :: i <= j < |services| ==> !SameName(services[j], serviceName)
    decreases |services| - i
  {
    if i == |services| then None
    else if SameName(services[i], serviceName) then Some(i)
    else FindFrom(services, serviceName, i + 1)
  }

  /** Index of the first service of that name, ignoring case. */
  function FindByName(services: seq<Service>, serviceName: string): (r: Option<nat>)
    ensures r.Some? ==> r.value < |services| && SameName(services[r.value], serviceName)
    ensures r.Some? ==> forall j :: 0 <= j < r.value ==> !SameName(services[j], serviceName)
    ensures r.None? <==> forall j :: 0 <= j < |services| ==> !SameName(services[j], serviceName)
  {
    FindFrom(services, serviceName, 0)
  }

  /** Forced, never stamped, or stamped more than five minutes before `now`. */
  predicate NeedsRefresh(s: Service, forceRefresh: bool, now: int) {
    forceRefresh || s.lastFetched.None? || now - s.lastFetched.value > FreshFor
  }

  /**
   * `getServiceByName(serviceName, forceRefresh)`: the list is fetched and
   * stamped at `listedAt`, the entry found is judged at `now`, and a refresh
   * asks `byId` for that entry's id and stamps the answer at `refreshedAt`.
   */
  function GetServiceByName(serviceName: string, forceRefresh: bool,
                            listResponse: Option<seq<Service>>, listedAt: int, now: int,
                            byId: int -> Option<Service>, refreshedAt: int): (r: Result<Option<Service>, Failure>)
    ensures listResponse.None? ==> r.Err?
  {
    match GetServices(listResponse, listedAt)
    case Err(e) => Err(e)
    case Ok(services) =>
      match FindByName(services, serviceName)
      case None => Ok(None)
      case Some(i) =>
        var service := services[i];
        if NeedsRefresh(service, forceRefresh, now) then
          match GetServiceById(byId(service.id), refreshedAt)
          case Err(e) => Err(e)
          case Ok(refreshed) => Ok(Some(refreshed))
        else Ok(Some(service))
  }

  /** No service of that name: the lookup answers `null`. */
  lemma UnknownNameGivesNull(serviceName: string, forceRefresh: bool, listResponse: seq<Service>, listedAt: int,
                             now: int, byId: int -> Option<Service>, refreshedAt: int)
    requires forall j :: 0 <= j < |listResponse| ==> !SameName(listResponse[j], serviceName)
    ensures GetServiceByName(serviceName, forceRefresh, Some(listResponse), listedAt, now, byId, refreshedAt) == Ok(None)
  {
    var services := GetServices(Some(listResponse), listedAt).value;
    forall j | 0 <= j < |services| ensures !SameName(services[j], serviceName) {
      assert services[j].name == listResponse[j].name;
    }
  }

  /**
   * The list was stamped when it was fetched, so within five minutes of that
   * the entry found is re-fetched exactly when the caller forces it.
   */
  lemma FreshListRefetchesIffForced(serviceName: string, forceRefresh: bool, listResponse: seq<Service>, listedAt: int,
                                    now: int, byId: int -> Option<Service>, refreshedAt: int, i: nat)
    requires listedAt <= now <= listedAt + FreshFor
    requires i < |listResponse| && SameName(listResponse[i], serviceName)
    requires forall j :: 0 <= j < i ==> !SameName(listResponse[j], serviceName)
    ensures var r := GetServiceByName(serviceName, forceRefresh, Some(listResponse), listedAt, now, byId, refreshedAt);
      && (!forceRefresh ==> r == Ok(Some(Stamp(listResponse[i], listedAt))))
      && (forceRefresh ==> r == (match byId(listResponse[i].id)
                                 case None => Err(RequestFailed)
                                 case Some(s) => Ok(Some(Stamp(s, refreshedAt)))))
  {
    FoundAt(serviceName, listResponse, listedAt, i);
  }

  /** Once the list is over five minutes old, the entry found is always re-fetched. */
  lemma StaleListRefetches(serviceName: string, forceRefresh: bool, listResponse: seq<Service>, listedAt: int,
                           now: int, byId: int -> Option<Service>, refreshedAt: int, i: nat)
    requires now > listedAt + FreshFor
    requires i < |listResponse| && SameName(listResponse[i], serviceName)
    requires forall j :: 0 <= j < i ==> !SameName(listResponse[j], serviceName)
    ensures GetServiceByName(serviceName, forceRefresh, Some(listResponse), listedAt, now, byId, refreshedAt)
            == (match byId(listResponse[i].id)
                case None => Err(RequestFailed)
                case Some(s) => Ok(Some(Stamp(s, refreshedAt))))
  {
    FoundAt(serviceName, listResponse, listedAt, i);
  }

  /** The lookup finds the first entry of the stamped list whose name matches. */
  lemma FoundAt(serviceName: string, listResponse: seq<Service>, listedAt: int, i: nat)
    requires i < |listResponse| && SameName(listResponse[i], serviceName)
    requires forall j :: 0 <= j < i ==> !SameName(listResponse[j], serviceName)
    ensures var services := GetServices(Some(listResponse), listedAt).value;
      FindByName(services, serviceName) == Some(i) && services[i] == Stamp(listResponse[i], listedAt)
  {
    var services := GetServices(Some(listResponse), listedAt).value;
    var k := FindByName(services, serviceName);
    assert services[i].name == listResponse[i].name;
    assert k.Some?;
    assert services[k.value].name == listResponse[k.value].name;
    assert k.value <= i;
    assert i <= k.value;
  }
}
