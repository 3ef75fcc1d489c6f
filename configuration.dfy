/**
 * Configuration (cloudflare_dynamic_dns/config.py): the `DomainConfig` and `Config`
 * dataclasses, their defaults, and the validation `Config.__post_init__` runs.
 * A keyword argument the caller leaves out is `None` in the `Option` parameters below;
 * for a field whose own type is optional, `Some(None)` is an explicit `None`.
 */
module Configuration {
  import opened Wrappers

  /** The exceptions the validators raise. */
  datatype ConfigError =
    | NoDomainsConfigured       // NoDomainsConfiguredError
    | EmptyListOfIPProviders    // EmptyListOfIPProviders
    | NoLoopIntervalProvided    // NoLoopIntervalProvidedError

  /** One DNS record to keep pointed at the host. */
  datatype DomainConfig = DomainConfig(
    domain_name: string,
    tags: seq<string>,
    ttl: Option<int>,
    proxied: bool,
    comment: Option<string>)

  /** `DomainConfig(domain_name, ...)` with the dataclass defaults for omitted arguments. */
  function NewDomainConfig(
    domain_name: string,
    tags: Option<seq<string>>,
    ttl: Option<Option<int>>,
    proxied: Option<bool>,
    comment: Option<Option<string>>): (d: DomainConfig)
    ensures d.domain_name == domain_name
    ensures tags.None? ==> d.tags == []
    ensures ttl.None? ==> d.ttl == None
    ensures proxied.None? ==> !d.proxied
    ensures comment.None? ==> d.comment == None
    ensures tags.Some? ==> d.tags == tags.value
    ensures ttl.Some? ==> d.ttl == ttl.value
    ensures proxied.Some? ==> d.proxied == proxied.value
    ensures comment.Some? ==> d.comment == comment.value
  {
    DomainConfig(domain_name, tags.GetOr([]), ttl.GetOr(None), proxied.GetOr(false), comment.GetOr(None))
  }

  const DEFAULT_REQUEST_TIMEOUT: int := 10

  /** Python truthiness of an `int | None`: `None` and `0` are false. */
  predicate Truthy(n: Option<int>) {
    n.Some? && n.value != 0
  }

  /** `_validate_domain_configs`: an empty list of domains is refused. */
  function ValidateDomainConfigs(domain_configs: seq<DomainConfig>): (e: Option<ConfigError>)
    ensures e.Some? <==> domain_configs == []
    ensures e.Some? ==> e.value == NoDomainsConfigured
  {
    if domain_configs == [] then Some(NoDomainsConfigured) else None
  }

  /** `_validate_ipv4_providers`: an explicit empty list is refused, `None` is accepted. */
  function ValidateIpv4Providers(ipv4_providers: Option<seq<string>>): (e: Option<ConfigError>)
    ensures e.Some? <==> ipv4_providers == Some([])
    ensures e.Some? ==> e.value == EmptyListOfIPProviders
  {
    if ipv4_providers.Some? && ipv4_providers.value == [] then Some(EmptyListOfIPProviders) else None
  }

  /**
   * `_validate_loop_interval` as written: its condition tests `loop_interval` and its
   * negation, so it never raises, whatever the arguments.
   */
  function ValidateLoopInterval(looping: bool, loop_interval: Option<int>): (e: Option<ConfigError>)
    ensures e == None
  {
    if Truthy(loop_interval) && !Truthy(loop_interval) then Some(NoLoopIntervalProvided) else None
  }

  /** The check the exception's message describes: looping needs a (non-zero) interval. */
  function ValidateLoopIntervalIntended(looping: bool, loop_interval: Option<int>): (e: Option<ConfigError>)
    ensures e.Some? <==> looping && (loop_interval.None? || loop_interval.value == 0)
    ensures e.Some? ==> e.value == NoLoopIntervalProvided
  {
    if looping && !Truthy(loop_interval) then Some(NoLoopIntervalProvided) else None
  }

  /** Looping without an interval: the intended check refuses it, the written one lets it through. */
  lemma LoopIntervalCheckNeverFires()
    ensures ValidateLoopInterval(true, None) == None
    ensures ValidateLoopIntervalIntended(true, None) == Some(NoLoopIntervalProvided)
  {
  }

  /**
   * `__post_init__`: the domain check, then the provider check; the first failure is raised.
   * The loop-interval check is not called.
   */
  function PostInit(domain_configs: seq<DomainConfig>, ipv4_providers: Option<seq<string>>): (e: Option<ConfigError>)
    ensures e == Some(NoDomainsConfigured) <==> domain_configs == []
    ensures e == Some(EmptyListOfIPProviders) <==> domain_configs != [] && ipv4_providers == Some([])
    ensures e == None <==> domain_configs != [] && ipv4_providers != Some([])
  {
    var domainError := ValidateDomainConfigs(domain_configs);
    if domainError.Some? then domainError else ValidateIpv4Providers(ipv4_providers)
  }

  /** The `Config` dataclass: one validated configuration object. */
  class Config {
    var zone_id: string
    var bearer_token: string
    var looping: bool
    var loop_interval: Option<int>
    var domain_configs: seq<DomainConfig>
    var ipv4_providers: Option<seq<string>>
    var get_ip_request_timeout: int
    var cloudflare_request_timeout: int

    /** What `__post_init__` guarantees of a constructed object. */
    ghost predicate Valid()
      reads this
    {
      PostInit(domain_configs, ipv4_providers) == None
    }

    /** The generated `__init__`, reached only once validation has passed. */
    constructor (
      zone_id: string,
      bearer_token: string,
      looping: bool,
      loop_interval: Option<int>,
      domain_configs: seq<DomainConfig>,
      ipv4_providers: Option<seq<string>>,
      get_ip_request_timeout: int,
      cloudflare_request_timeout: int)
      requires PostInit(domain_configs, ipv4_providers) == None
      ensures Valid()
      ensures this.zone_id == zone_id && this.bearer_token == bearer_token
      ensures this.looping == looping && this.loop_interval == loop_interval
      ensures this.domain_configs == domain_configs && this.ipv4_providers == ipv4_providers
      ensures this.get_ip_request_timeout == get_ip_request_timeout
      ensures this.cloudflare_request_timeout == cloudflare_request_timeout
    {
      this.zone_id := zone_id;
      this.bearer_token := bearer_token;
      this.looping := looping;
      this.loop_interval := loop_interval;
      this.domain_configs := domain_configs;
      this.ipv4_providers := ipv4_providers;
      this.get_ip_request_timeout := get_ip_request_timeout;
      this.cloudflare_request_timeout := cloudflare_request_timeout;
    }

    /**
     * `Config(zone_id, bearer_token, ...)`: fills in the defaults of omitted keyword
     * arguments, then either raises the first validation error or yields a fresh object.
     * With `domain_configs` omitted the default `[]` is always refused.
     */
    static method Create(
      zone_id: string,
      bearer_token: string,
      looping: Option<bool>,
      loop_interval: Option<Option<int>>,
      domain_configs: Option<seq<DomainConfig>>,
      ipv4_providers: Option<Option<seq<string>>>,
      get_ip_request_timeout: Option<int>,
      cloudflare_request_timeout: Option<int>) returns (r: Result<Config, ConfigError>)
      ensures var domains := domain_configs.GetOr([]);
              var providers := ipv4_providers.GetOr(None);
              && (r.Failure? <==> PostInit(domains, providers).Some?)
              && (r.Failure? ==> r.error == PostInit(domains, providers).value)
              && (r.Success? ==>
                    && fresh(r.value) && r.value.Valid()
                    && r.value.zone_id == zone_id && r.value.bearer_token == bearer_token
                    && r.value.looping == looping.GetOr(false)
                    && r.value.loop_interval == loop_interval.GetOr(None)
                    && r.value.domain_configs == domains
                    && r.value.ipv4_providers == providers
                    && r.value.get_ip_request_timeout == get_ip_request_timeout.GetOr(DEFAULT_REQUEST_TIMEOUT)
                    && r.value.cloudflare_request_timeout == cloudflare_request_timeout.GetOr(DEFAULT_REQUEST_TIMEOUT))
    {
      var domains := domain_configs.GetOr([]);
      var providers := ipv4_providers.GetOr(None);
      var e := PostInit(domains, providers);
      if e.Some? {
        return Failure(e.value);
      }
      var c := new Config(
        zone_id, bearer_token, looping.GetOr(false), loop_interval.GetOr(None), domains, providers,
        get_ip_request_timeout.GetOr(DEFAULT_REQUEST_TIMEOUT),
        cloudflare_request_timeout.GetOr(DEFAULT_REQUEST_TIMEOUT));
      return Success(c);
    }
  }

  /**
   * `Config(zone_id, bearer_token, looping=True, domain_configs=...)` with no
   * `loop_interval` is accepted: the object is built with looping on and no interval.
   */
  method LoopingWithoutIntervalAccepted(zone_id: string, bearer_token: string, domain_configs: seq<DomainConfig>)
    returns (r: Result<Config, ConfigError>)
    requires domain_configs != []
    ensures r.Success?
    ensures r.value.looping && r.value.loop_interval == None
    ensures r.value.domain_configs == domain_configs && r.value.Valid()
  {
    r := Config.Create(zone_id, bearer_token, Some(true), None, Some(domain_configs), None, None, None);
  }
}
