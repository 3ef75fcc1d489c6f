/**
 * DNS record reconciliation (cloudflare_dynamic_dns/api_tools.py).
 *
 * For each configured domain, in order, the program looks the name up; when the
 * lookup's `result` list is non-empty it overwrites the first record by its `id`,
 * otherwise it creates a new A record. The HTTP calls themselves are not modelled:
 * each one is recorded as a `Request` value, and each lookup's decoded JSON answer
 * (or `None` on an HTTP error or a timeout) is an input.
 */
module ApiTools {
  import opened Wrappers
  import opened Configuration

  const BASE_URL: string := "https://api.cloudflare.com/client/v4/zones/"
  const GET_PATH: string := "/dns_records"
  const CREATE_PATH: string := "/dns_records"
  const OVERWRITE_PATH: string := "/dns_records"
  const TIMEOUT: int := 10

  /** The JSON values the request bodies use; Python's `None` is serialised as `null`. */
  datatype JsonValue = JNull | JBool(b: bool) | JString(s: string)

  /** One HTTP request issued to the provider's API. */
  datatype Request =
    | Get(url: string, params: map<string, string>, authorization: string, timeout: int)
    | Post(url: string, authorization: string, timeout: int, json: map<string, JsonValue>)
    | Put(url: string, authorization: string, timeout: int, json: map<string, JsonValue>)

  /** A DNS record as the lookup returns it. */
  datatype DnsRecord = DnsRecord(id: string, name: string, content: string, proxied: bool, comment: Option<string>)

  /** The decoded JSON of a lookup; `result` is `None` when the key is missing or `null`. */
  datatype LookupBody = LookupBody(result: Option<seq<DnsRecord>>)

  /** What the loop decides to write for one domain. */
  datatype Action = CreateRecord | OverwriteRecord(record_id: string)

  function AuthorizationHeader(bearer_token: string): (h: string)
    ensures |h| == 7 + |bearer_token|
    ensures h[..7] == "Bearer " && h[7..] == bearer_token
  {
    "Bearer " + bearer_token
  }

  /** URL of `get_existing_dns_record`. */
  function LookupUrl(zone_id: string): (u: string)
    ensures |u| == |BASE_URL| + |zone_id| + |GET_PATH|
    ensures u[..|BASE_URL|] == BASE_URL
    ensures u[|BASE_URL|..|u| - |GET_PATH|] == zone_id
    ensures u[|u| - |GET_PATH|..] == "/dns_records"
  {
    BASE_URL + zone_id + GET_PATH
  }

  /** URL of `create_new_dns_record`: the same collection URL as the lookup. */
  function CreateUrl(zone_id: string): (u: string)
    ensures u == LookupUrl(zone_id)
  {
    BASE_URL + zone_id + CREATE_PATH
  }

  /** URL of `overwrite_dns_record`: the collection URL followed by `/` and the record id. */
  function OverwriteUrl(zone_id: string, dns_record_id: string): (u: string)
    ensures |u| == |CreateUrl(zone_id)| + 1 + |dns_record_id|
    ensures u[..|CreateUrl(zone_id)|] == CreateUrl(zone_id)
    ensures u[|CreateUrl(zone_id)|] == '/'
    ensures u[|CreateUrl(zone_id)| + 1..] == dns_record_id
  {
    BASE_URL + zone_id + CREATE_PATH + "/" + dns_record_id
  }

  /** JSON body of `create_new_dns_record`: name, content, proxied and type; no comment, tags or ttl. */
  function CreateBody(ip: string, domain_config: DomainConfig): (body: map<string, JsonValue>)
    ensures body.Keys == {"name", "content", "proxied", "type"}
    ensures body["name"] == JString(domain_config.domain_name)
    ensures body["content"] == JString(ip)
    ensures body["proxied"] == JBool(domain_config.proxied)
    ensures body["type"] == JString("A")
  {
    map["name" := JString(domain_config.domain_name),
        "content" := JString(ip),
        "proxied" := JBool(domain_config.proxied),
        "type" := JString("A")]
  }

  function CommentValue(comment: Option<string>): JsonValue {
    match comment
    case None => JNull
    case Some(c) => JString(c)
  }

  /** JSON body of `overwrite_dns_record`: the create body plus the key `"Comment"`; no tags or ttl. */
  function OverwriteBody(ip: string, domain_config: DomainConfig): (body: map<string, JsonValue>)
    ensures body.Keys == {"name", "content", "proxied", "type", "Comment"}
    ensures forall k :: k in CreateBody(ip, domain_config) ==> body[k] == CreateBody(ip, domain_config)[k]
    ensures body["Comment"] == CommentValue(domain_config.comment)
  {
    map["name" := JString(domain_config.domain_name),
        "content" := JString(ip),
        "proxied" := JBool(domain_config.proxied),
        "type" := JString("A"),
        "Comment" := CommentValue(domain_config.comment)]
  }

  /** Tags and ttl are never sent, and the comment only on an overwrite. */
  lemma BodiesIgnoreTagsAndTtl(ip: string, d1: DomainConfig, d2: DomainConfig)
    requires d1.domain_name == d2.domain_name && d1.proxied == d2.proxied
    ensures CreateBody(ip, d1) == CreateBody(ip, d2)
    ensures OverwriteBody(ip, d1) == OverwriteBody(ip, d2) <==> d1.comment == d2.comment
  {
    if OverwriteBody(ip, d1) == OverwriteBody(ip, d2) {
      assert OverwriteBody(ip, d1)["Comment"] == OverwriteBody(ip, d2)["Comment"];
      match d1.comment
      case None =>
      case Some(_) =>
    }
  }

  /** `get_existing_dns_record(zone_id, bearer_token, domain_name)`. */
  function LookupRequest(zone_id: string, bearer_token: string, domain_name: string): (q: Request)
    ensures q.Get? && q.url == LookupUrl(zone_id) && q.params == map["name" := domain_name]
    ensures q.authorization == AuthorizationHeader(bearer_token) && q.timeout == TIMEOUT
  {
    Get(LookupUrl(zone_id), map["name" := domain_name], AuthorizationHeader(bearer_token), TIMEOUT)
  }

  /** `create_new_dns_record` or `overwrite_dns_record`, as the action says. */
  function WriteRequest(zone_id: string, bearer_token: string, ip: string, domain_config: DomainConfig, action: Action): (q: Request)
    ensures action.CreateRecord? ==> q.Post? && q.url == CreateUrl(zone_id) && q.json == CreateBody(ip, domain_config)
    ensures action.OverwriteRecord? ==>
              q.Put? && q.url == OverwriteUrl(zone_id, action.record_id) && q.json == OverwriteBody(ip, domain_config)
    ensures q.authorization == AuthorizationHeader(bearer_token) && q.timeout == TIMEOUT
  {
    match action
    case CreateRecord => Post(CreateUrl(zone_id), AuthorizationHeader(bearer_token), TIMEOUT, CreateBody(ip, domain_config))
    case OverwriteRecord(record_id) =>
      Put(OverwriteUrl(zone_id, record_id), AuthorizationHeader(bearer_token), TIMEOUT, OverwriteBody(ip, domain_config))
  }

  /**
   * The decision of lines 18-31: a non-empty `result` means overwrite its first record,
   * anything else means create. The existing record's contents are never compared.
   */
  function Decide(lookup: LookupBody): (a: Action)
    ensures a.OverwriteRecord? <==> lookup.result.Some? && lookup.result.value != []
    ensures a.OverwriteRecord? ==> a.record_id == lookup.result.value[0].id
  {
    match lookup.result
    case Some(records) => if records != [] then OverwriteRecord(records[0].id) else CreateRecord
    case None => CreateRecord
  }

  /** A record that already holds the desired address and flags is still overwritten. */
  lemma OverwriteEvenWhenUpToDate(lookup: LookupBody, ip: string, domain_config: DomainConfig)
    requires lookup.result.Some? && lookup.result.value != []
    requires var rec := lookup.result.value[0];
             rec.content == ip && rec.proxied == domain_config.proxied && rec.comment == domain_config.comment
    ensures Decide(lookup) == OverwriteRecord(lookup.result.value[0].id)
  {
  }

  /**
   * Requests `set_cloudflare_dns_records` issues for `domains`, the i-th lookup answering
   * `lookups[i]`. A `None` lookup makes `existing_record.get` raise, so that lookup is the
   * last request and the remaining domains are never visited.
   */
  function Plan(zone_id: string, bearer_token: string, ip: string,
                domains: seq<DomainConfig>, lookups: seq<Option<LookupBody>>): (r: seq<Request>)
    requires |lookups| == |domains|
    ensures |r| <= 2 * |domains|
    ensures r == [] <==> domains == []
    ensures forall i :: 0 <= i < |r| ==> (r[i].Get? <==> i % 2 == 0)
    ensures forall i :: 0 <= i < |r| && i % 2 == 0 ==> r[i].params.Values <= set d | d in domains :: d.domain_name
  {
    if domains == [] then []
    else
      var get := LookupRequest(zone_id, bearer_token, domains[0].domain_name);
      match lookups[0]
      case None => [get]
      case Some(body) =>
        [get, WriteRequest(zone_id, bearer_token, ip, domains[0], Decide(body))]
          + Plan(zone_id, bearer_token, ip, domains[1..], lookups[1..])
  }

  /** The two requests issued for one domain whose lookup answered. */
  function Step(zone_id: string, bearer_token: string, ip: string,
                domain_config: DomainConfig, body: LookupBody): seq<Request>
  {
    [LookupRequest(zone_id, bearer_token, domain_config.domain_name),
     WriteRequest(zone_id, bearer_token, ip, domain_config, Decide(body))]
  }

  predicate AllAnswered(lookups: seq<Option<LookupBody>>) {
    forall i :: 0 <= i < |lookups| ==> lookups[i].Some?
  }

  /** Extending the domain list by one answered domain extends the plan by its two requests. */
  lemma {:induction false} PlanSnoc(zone_id: string, bearer_token: string, ip: string,
                                    domains: seq<DomainConfig>, lookups: seq<Option<LookupBody>>,
                                    d: DomainConfig, body: LookupBody)
    requires |lookups| == |domains| && AllAnswered(lookups)
    ensures Plan(zone_id, bearer_token, ip, domains + [d], lookups + [Some(body)])
         == Plan(zone_id, bearer_token, ip, domains, lookups) + Step(zone_id, bearer_token, ip, d, body)
  {
    if domains == [] {
      assert [d][1..] == [] && [Some(body)][1..] == [];
    } else {
      assert (domains + [d])[1..] == domains[1..] + [d];
      assert (lookups + [Some(body)])[1..] == lookups[1..] + [Some(body)];
      assert lookups[0].Some?;
      PlanSnoc(zone_id, bearer_token, ip, domains[1..], lookups[1..], d, body);
    }
  }

  /** Extending the domain list by one unanswered domain ends the plan with its lookup. */
  lemma {:induction false} PlanSnocAbort(zone_id: string, bearer_token: string, ip: string,
                                         domains: seq<DomainConfig>, lookups: seq<Option<LookupBody>>,
                                         d: DomainConfig, rest: seq<DomainConfig>, restLookups: seq<Option<LookupBody>>)
    requires |lookups| == |domains| && AllAnswered(lookups) && |rest| == |restLookups|
    ensures Plan(zone_id, bearer_token, ip, domains + [d] + rest, lookups + [None] + restLookups)
         == Plan(zone_id, bearer_token, ip, domains, lookups) + [LookupRequest(zone_id, bearer_token, d.domain_name)]
  {
    if domains == [] {
      assert [d] + rest == [d] + rest;
      assert ([d] + rest)[0] == d;
      assert ([None] + restLookups)[0] == None;
    } else {
      assert (domains + [d] + rest)[1..] == domains[1..] + [d] + rest;
      assert (lookups + [None] + restLookups)[1..] == lookups[1..] + [None] + restLookups;
      assert lookups[0].Some?;
      PlanSnocAbort(zone_id, bearer_token, ip, domains[1..], lookups[1..], d, rest, restLookups);
    }
  }

  /** When every lookup answers, the plan holds two requests per domain. */
  lemma {:induction false} PlanLength(zone_id: string, bearer_token: string, ip: string,
                                      domains: seq<DomainConfig>, lookups: seq<Option<LookupBody>>)
    requires |lookups| == |domains| && AllAnswered(lookups)
    ensures |Plan(zone_id, bearer_token, ip, domains, lookups)| == 2 * |domains|
  {
    if domains != [] {
      assert lookups[0].Some?;
      PlanLength(zone_id, bearer_token, ip, domains[1..], lookups[1..]);
    }
  }

  /**
   * When every lookup answers, the requests for domain `i` sit at positions `2i` and
   * `2i + 1`: its lookup, then exactly one write for it.
   */
  lemma {:induction false} PlanAt(zone_id: string, bearer_token: string, ip: string,
                                  domains: seq<DomainConfig>, lookups: seq<Option<LookupBody>>, i: nat)
    requires |lookups| == |domains| && AllAnswered(lookups) && i < |domains|
    ensures |Plan(zone_id, bearer_token, ip, domains, lookups)| == 2 * |domains|
    ensures Plan(zone_id, bearer_token, ip, domains, lookups)[2 * i]
              == LookupRequest(zone_id, bearer_token, domains[i].domain_name)
    ensures Plan(zone_id, bearer_token, ip, domains, lookups)[2 * i + 1]
              == WriteRequest(zone_id, bearer_token, ip, domains[i], Decide(lookups[i].value))
  {
    PlanLength(zone_id, bearer_token, ip, domains, lookups);
    assert lookups[0].Some?;
    if i > 0 {
      var q := Plan(zone_id, bearer_token, ip, domains[1..], lookups[1..]);
      assert Plan(zone_id, bearer_token, ip, domains, lookups)
          == Step(zone_id, bearer_token, ip, domains[0], lookups[0].value) + q;
      PlanAt(zone_id, bearer_token, ip, domains[1..], lookups[1..], i - 1);
      assert 2 * i == 2 + 2 * (i - 1);
    }
  }

  /** A lookup that answers `None` is the last request: no later domain is looked up or written. */
  lemma PlanStopsAtFailedLookup(zone_id: string, bearer_token: string, ip: string,
                                domains: seq<DomainConfig>, lookups: seq<Option<LookupBody>>, k: nat)
    requires |lookups| == |domains| && k < |domains|
    requires lookups[k].None? && AllAnswered(lookups[..k])
    ensures Plan(zone_id, bearer_token, ip, domains, lookups)
         == Plan(zone_id, bearer_token, ip, domains[..k], lookups[..k])
            + [LookupRequest(zone_id, bearer_token, domains[k].domain_name)]
  {
    PlanSnocAbort(zone_id, bearer_token, ip, domains[..k], lookups[..k], domains[k], domains[k + 1..], lookups[k + 1..]);
    assert domains[..k] + [domains[k]] + domains[k + 1..] == domains;
    assert lookups[..k] + [None] + lookups[k + 1..] == lookups;
  }

  lemma PrefixSnoc<T>(s: seq<T>, i: nat)
    requires i < |s|
    ensures s[..i + 1] == s[..i] + [s[i]]
  {
  }

  /**
   * `set_cloudflare_dns_records(config, ip)`: the loop over `config.domain_configs`.
   * `log` is every request issued, in order; `aborted` is whether a lookup returned
   * `None` and so raised out of the loop.
   */
  method SetCloudflareDnsRecords(config: Config, ip: string, lookups: seq<Option<LookupBody>>)
    returns (log: seq<Request>, aborted: bool)
    requires |lookups| == |config.domain_configs|
    ensures log == Plan(config.zone_id, config.bearer_token, ip, config.domain_configs, lookups)
    ensures aborted <==> !AllAnswered(lookups)
  {
    var domains := config.domain_configs;
    log := [];
    aborted := false;
    var i := 0;
    while i < |domains|
      invariant 0 <= i <= |domains|
      invariant AllAnswered(lookups[..i])
      invariant log == Plan(config.zone_id, config.bearer_token, ip, domains[..i], lookups[..i])
    {
      var domain_config := domains[i];
      var get := LookupRequest(config.zone_id, config.bearer_token, domain_config.domain_name);
      log := log + [get];
      match lookups[i]
      case None =>
        PlanStopsAtFailedLookup(config.zone_id, config.bearer_token, ip, domains, lookups, i);
        aborted := true;
        return;
      case Some(body) =>
        var action := Decide(body);
        log := log + [WriteRequest(config.zone_id, config.bearer_token, ip, domain_config, action)];
        PlanSnoc(config.zone_id, config.bearer_token, ip, domains[..i], lookups[..i], domain_config, body);
        PrefixSnoc(domains, i);
        PrefixSnoc(lookups, i);
      i := i + 1;
    }
    assert domains[..i] == domains && lookups[..i] == lookups;
  }
}
