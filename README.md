# Cloudflare dynamic DNS: a verified model of the decision logic

The program keeps Cloudflare DNS "A" records pointed at the host's public IPv4
address. It does three things, and this project models each one:

- **Address selection** (`ip_tools.py`, module `IpTools`). It asks each provider URL
  for the address: the configured list, or the three default URLs when that list is
  `None` or empty. Failed requests and answers that are empty after `strip()` are
  dropped, and the rest are tallied in a `Counter`. The result is
  `max(frequency_count.items())[0]`. `max` compares `(address, count)` pairs and the
  addresses are distinct, so the result is the greatest surviving answer in Python's
  string order. It does not depend on how many providers gave that answer. With no
  surviving answer, `max` raises; here that is `Failure(EmptyMax)`.
  `PyStr` models `str.strip()` (Python's full whitespace set) and `str` ordering.
- **Reconciliation** (`api_tools.py`, module `ApiTools`). For each configured domain,
  in order: one lookup; then, if its `result` list is non-empty, one overwrite of the
  first record by its `id`, otherwise one create. The existing record is never
  compared with the desired one, so an up-to-date record is overwritten anyway.
  The create body holds `name`, `content`, `proxied` and `type`. The overwrite body
  adds a `"Comment"` key, spelled with a capital C. Neither body sends tags or ttl.
  Every request uses the module constant `TIMEOUT` (10), not the timeouts stored in
  `Config`. A lookup that fails returns `None`, and the loop then calls `.get` on `None`.
  That raises and ends the loop, so the remaining domains get no request. The writes
  already issued stay issued.
- **Configuration** (`config.py`, module `Configuration`). `DomainConfig` and `Config`
  have fixed defaults. `Config.__post_init__` rejects an empty domain list first, then
  an explicitly empty provider list. A `None` provider list is accepted.

The network is an input. For a provider, `fetch(url)` is the raw body, or `None` on an
HTTP error or timeout. For a DNS lookup, the decoded JSON is given as an
`Option<LookupBody>`, one per domain in order. The reconciliation loop is a method.
It returns the list of `Request` values it would issue and whether it aborted. It is
proved equal to the recursive specification `Plan`, and lemmas about `Plan` give the
order and shape of that list.

The program has none of the following, and the model follows the program:
- no majority vote;
- no up-to-date check that skips a write;
- no tags, ttl or comment on create;
- no per-domain failure isolation;
- no loop-interval check at start-up.

## Model

| member | source | states |
|---|---|---|
| `PyStr.Strip` | cloudflare_dynamic_dns/ip_tools.py:28 | `strip()` never lengthens, and a non-empty result neither starts nor ends with whitespace |
| `PyStr.StripRemovesOnlySpace` | cloudflare_dynamic_dns/ip_tools.py:28 | everything `strip()` removes, on either side, is whitespace |
| `PyStr.StripEmptyIff` | cloudflare_dynamic_dns/ip_tools.py:28 | the stripped answer is empty exactly when the body is all whitespace |
| `PyStr.StripIdempotent` | cloudflare_dynamic_dns/ip_tools.py:28 | stripping an already stripped answer changes nothing |
| `PyStr.Less` | cloudflare_dynamic_dns/ip_tools.py:20 | Python's `str` `<`: the first differing code point decides, and a proper prefix is smaller; never holds between equal strings. LessIrreflexive, LessTransitive and LessTotal prove it a strict total order |
| `PyStr.LessIrreflexive` | cloudflare_dynamic_dns/ip_tools.py:20 | no string is less than itself |
| `PyStr.LessTransitive` | cloudflare_dynamic_dns/ip_tools.py:20 | the string order is transitive |
| `PyStr.LessTotal` | cloudflare_dynamic_dns/ip_tools.py:20 | any two different strings are ordered one way or the other |
| `IpTools.ProviderUrls` | cloudflare_dynamic_dns/ip_tools.py:16 | `None` and `[]` both fall back to the three default URLs; any other list is used as given; the list used is never empty |
| `IpTools.RequestIpv4Address` | cloudflare_dynamic_dns/ip_tools.py:23-30 | a failed request stays `None`; a body becomes its stripped text, which is empty iff the body was all whitespace and otherwise has no surrounding whitespace |
| `IpTools.GatherResponses` | cloudflare_dynamic_dns/ip_tools.py:17-18 | exactly one request per provider URL, the i-th result being the i-th URL's answer |
| `IpTools.GatherMembers` | cloudflare_dynamic_dns/ip_tools.py:17-18 | the gathered answers are exactly the stripped bodies of the URLs that answered |
| `IpTools.Survivors` | cloudflare_dynamic_dns/ip_tools.py:18 | failed and empty answers are dropped; every non-empty answer is kept as many times as it occurs |
| `IpTools.SurvivorsMembers` | cloudflare_dynamic_dns/ip_tools.py:18 | a value survives iff it is non-empty and some provider returned it |
| `IpTools.CountOf` | cloudflare_dynamic_dns/ip_tools.py:19 | `counter[k]` is 0 for an absent key; when every stored count is positive, as in a `Counter`, it is positive exactly for the keys present |
| `IpTools.Bump` | cloudflare_dynamic_dns/ip_tools.py:19 | `counter[x] += 1` raises the count of `x` by one and leaves every other count unchanged |
| `IpTools.Tally` | cloudflare_dynamic_dns/ip_tools.py:19 | the `Counter` has one entry per distinct value, whose count is that value's number of occurrences, always positive |
| `IpTools.Greater` | cloudflare_dynamic_dns/ip_tools.py:20 | the `>` that `max` applies to `(address, count)` items: between different addresses the address order alone decides, as in Python's tuple comparison; for the by-votes order the counts decide first |
| `IpTools.MaxItem` | cloudflare_dynamic_dns/ip_tools.py:20 | `max` returns one of the items, and no item compares greater than it |
| `IpTools.SelectAddress` | cloudflare_dynamic_dns/ip_tools.py:19-20 | the selected address is one of the surviving answers |
| `IpTools.SelectIsGreatest` | cloudflare_dynamic_dns/ip_tools.py:19-20 | every surviving answer is equal to or less than the selected one in Python's string order, whatever the counts |
| `IpTools.SelectDependsOnlyOnSet` | cloudflare_dynamic_dns/ip_tools.py:18-20 | reordering or duplicating the surviving answers leaves the result unchanged |
| `IpTools.SelectFromResults` | cloudflare_dynamic_dns/ip_tools.py:18-20 | it fails iff no provider gave a non-empty answer; otherwise the result is a non-empty answer some provider gave, and the greatest of them |
| `IpTools.SelectFromResultsSetInvariant` | cloudflare_dynamic_dns/ip_tools.py:18-20 | two result lists with the same non-empty answers give the same outcome, failure included |
| `IpTools.GetPublicIpv4Address` | cloudflare_dynamic_dns/ip_tools.py:15-20 | it fails iff no URL used gave a non-empty stripped body; otherwise the address is one of those bodies and the greatest of them in Python's string order |
| `IpTools.NoUsableAnswerFails` | cloudflare_dynamic_dns/ip_tools.py:16-20 | when every provider fails or answers whitespace only, the call fails with `EmptyMax` |
| `IpTools.MostCommonAddress` | cloudflare_dynamic_dns/ip_tools.py:19-20 | selection by votes: the result is an answer with no fewer votes than any other |
| `IpTools.MajorityWins` | cloudflare_dynamic_dns/ip_tools.py:19-20 | selection by votes returns an answer given by a strict majority |
| `IpTools.SelectIgnoresVotes` | cloudflare_dynamic_dns/ip_tools.py:19-20 | for answers `a, a, b` with `a < b`, the program's selection gives `b` and selection by votes gives `a` |
| `IpTools.SelectIgnoresVotesExample` | cloudflare_dynamic_dns/ip_tools.py:19-20 | answers "1.1.1.1", "1.1.1.1", "2.2.2.2": the program returns "2.2.2.2", votes give "1.1.1.1" |
| `Configuration.NewDomainConfig` | cloudflare_dynamic_dns/config.py:23-29 | omitted fields take the defaults: no tags, ttl `None`, not proxied, comment `None`; given ones are kept |
| `Configuration.ValidateDomainConfigs` | cloudflare_dynamic_dns/config.py:47-51 | raises `NoDomainsConfiguredError` iff the domain list is empty |
| `Configuration.ValidateIpv4Providers` | cloudflare_dynamic_dns/config.py:53-59 | raises `EmptyListOfIPProviders` iff the provider list is an explicit empty list; `None` passes |
| `Configuration.ValidateLoopInterval` | cloudflare_dynamic_dns/config.py:61-65 | never raises, for any arguments |
| `Configuration.ValidateLoopIntervalIntended` | cloudflare_dynamic_dns/config.py:61-65 | raises iff looping is set and the interval is `None` or 0 |
| `Configuration.LoopIntervalCheckNeverFires` | cloudflare_dynamic_dns/config.py:61-65 | looping with no interval: the written check passes, the intended one raises |
| `Configuration.PostInit` | cloudflare_dynamic_dns/config.py:43-59 | the domain error is raised iff there are no domains; the provider error iff there are domains and the provider list is `[]`; otherwise nothing |
| `Configuration.LoopingWithoutIntervalAccepted` | cloudflare_dynamic_dns/config.py:32-45 | `Config(..., looping=True, domain_configs=...)` with no interval succeeds, yielding a valid object with looping on and no interval |
| `Configuration.Config.constructor` | cloudflare_dynamic_dns/config.py:32-41 | a constructed object holds the given field values and satisfies the validation |
| `Configuration.Config.Create` | cloudflare_dynamic_dns/config.py:32-45 | omitted arguments take the defaults: not looping, no interval, no domains, no providers, both timeouts 10. Construction fails with exactly the error `__post_init__` raises first; otherwise it yields a fresh, valid object holding those values |
| `ApiTools.AuthorizationHeader` | cloudflare_dynamic_dns/api_tools.py:42 | the header is "Bearer " followed by the token |
| `ApiTools.LookupUrl` | cloudflare_dynamic_dns/api_tools.py:35 | base URL, then the zone id (recoverable from the URL), then "/dns_records" |
| `ApiTools.CreateUrl` | cloudflare_dynamic_dns/api_tools.py:54 | the create URL is the lookup URL |
| `ApiTools.OverwriteUrl` | cloudflare_dynamic_dns/api_tools.py:82 | the create URL, then "/", then the record id (recoverable from the URL) |
| `ApiTools.CreateBody` | cloudflare_dynamic_dns/api_tools.py:61-67 | exactly the keys name, content, proxied, type, holding the domain name, the address, the proxied flag and "A" |
| `ApiTools.OverwriteBody` | cloudflare_dynamic_dns/api_tools.py:89-96 | the create body's keys with the same values, plus "Comment" holding the domain's comment or null |
| `ApiTools.BodiesIgnoreTagsAndTtl` | cloudflare_dynamic_dns/api_tools.py:61-67 | tags and ttl never reach a body, and comment only the overwrite body, which differs exactly when the comments differ |
| `ApiTools.LookupRequest` | cloudflare_dynamic_dns/api_tools.py:34-44 | a GET on the lookup URL with parameter name, the bearer header and the fixed timeout |
| `ApiTools.WriteRequest` | cloudflare_dynamic_dns/api_tools.py:51-96 | a create is a POST of the create body to the collection URL; an overwrite is a PUT of the overwrite body to the record's URL |
| `ApiTools.Decide` | cloudflare_dynamic_dns/api_tools.py:18-31 | overwrite iff `result` is present and non-empty, addressed to the first record's id; otherwise create |
| `ApiTools.OverwriteEvenWhenUpToDate` | cloudflare_dynamic_dns/api_tools.py:18-25 | a record already holding the address, flag and comment is still overwritten |
| `ApiTools.Plan` | cloudflare_dynamic_dns/api_tools.py:14-31 | the requests the loop issues: at most two per domain, none for no domains, lookups at even positions and writes at odd ones, each lookup for a configured domain name |
| `ApiTools.PlanLength` | cloudflare_dynamic_dns/api_tools.py:14-31 | when every lookup answers, exactly two requests per domain are issued |
| `ApiTools.PlanAt` | cloudflare_dynamic_dns/api_tools.py:14-31 | domain i's lookup is request 2i and its single write, create or overwrite as decided, is request 2i+1: configuration order, lookup before write |
| `ApiTools.PlanStopsAtFailedLookup` | cloudflare_dynamic_dns/api_tools.py:15-18 | a lookup returning `None` is the last request: the domains after it get no lookup and no write |
| `ApiTools.SetCloudflareDnsRecords` | cloudflare_dynamic_dns/api_tools.py:13-31 | the loop issues exactly the requests of `Plan`, and aborts iff some lookup returned `None` |

## Left out

- HTTP transport (`httpx`, `raise_for_status`, JSON decoding of responses, the request timeout `TIMEOUT` of ip_tools.py:12): each call's outcome is an input, as described above.
- The responses of create and overwrite (api_tools.py:70, :99): the program runs `response.json()` on them and then ignores the value. A 2xx answer whose body is not JSON raises `ValueError`, which leaves the loop. In the model a write never aborts the loop; only a `None` lookup does.
- `asyncio.gather` concurrency: the provider answers are a sequence in URL order.
- `fetch` is a function of the URL, so a URL listed twice gets the same answer twice.
- The UTF-8 decoding of a provider body is not modelled: bodies are given as text. A body that is not valid UTF-8 would raise an uncaught `UnicodeDecodeError`.
- A lookup record without an `"id"` key, or a `result` value that is truthy but not a list: each would raise. Records always carry an id here, and `result` is a list or absent.
- `_get_config_file_path`, `_get_config_from_file` and `get_config` (config.py:68-106): argparse, the file-existence check, file reading and JSON parsing. This includes the in-place reassignment of `config.domain_configs` at line 98, which turns dictionaries into `DomainConfig` objects. The model's domain list already holds `DomainConfig` values.
- cloudflare_dynamic_dns/__main__.py: the three-call entry point. It calls `get_public_ipv4_address()` without the configured providers, so the default URLs are always used there.
- Python's dynamic typing: dataclass fields are not type-checked at run time. The model gives each field its declared type.
- JSON key order in request bodies: bodies are maps.

## Findings

| source | as written | input that shows it | evidently intended | confidence | as-written member | corrected member |
|---|---|---|---|---|---|---|
| cloudflare_dynamic_dns/ip_tools.py:19-20 | `max(frequency_count.items())[0]` compares `(address, count)` pairs, so the greatest address wins and the counts are never consulted | answers "1.1.1.1", "1.1.1.1", "2.2.2.2" give "2.2.2.2" | the most frequent answer ("1.1.1.1"), as the `Counter` named `frequency_count` suggests | medium; not executed | `IpTools.SelectIgnoresVotesExample` | `IpTools.MajorityWins` |
| cloudflare_dynamic_dns/config.py:61-65 | the condition `self.loop_interval and not self.loop_interval` can never hold, and `__post_init__` does not call the method | `looping=True`, `loop_interval=None` is accepted | raise `NoLoopIntervalProvidedError` when looping is set without an interval, as its message says | high; not executed | `Configuration.ValidateLoopInterval` | `Configuration.ValidateLoopIntervalIntended` |

`GetPublicIpv4Address` and `Config.Create` keep the behaviour as written, since that is
what the program does. The corrected selection `IpTools.MostCommonAddress` and the
corrected check `Configuration.ValidateLoopIntervalIntended` are given beside them,
with their intended properties proved.
