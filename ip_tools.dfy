/**
 * Public IPv4 address selection (cloudflare_dynamic_dns/ip_tools.py).
 *
 * The program asks every provider URL for the host's address, keeps the non-empty
 * stripped answers, tallies them in a `Counter` and returns
 * `max(frequency_count.items())[0]`. Since `max` compares `(address, count)` pairs
 * and the addresses of a `Counter` are distinct, the count never decides: the
 * result is the greatest surviving answer in Python's string order.
 * The network is an input here: `fetch(url)` is the raw body a provider sends,
 * or `None` when the request fails with an HTTP error or a timeout.
 */
module IpTools {
  import opened Wrappers
  import PyStr

  const IPV4_PROVIDER_URLS: seq<string> :=
    ["https://api.ipify.org", "https://icanhazip.com", "https://api.seeip.org/"]

  /** Why selection fails: `max` of an empty `Counter` raises. */
  datatype SelectError = EmptyMax

  /** `ip_provider_urls or IPV4_PROVIDER_URLS`: `None` and `[]` are both falsy. */
  function ProviderUrls(urls: Option<seq<string>>): (r: seq<string>)
    ensures r != []
    ensures urls.None? || urls == Some([]) ==> r == IPV4_PROVIDER_URLS
    ensures urls.Some? && urls.value != [] ==> r == urls.value
  {
    if urls.Some? && urls.value != [] then urls.value else IPV4_PROVIDER_URLS
  }

  /** `_request_ipv4_address` given the provider's raw answer: `None` stays `None`, a body is stripped. */
  function RequestIpv4Address(body: Option<string>): (r: Option<string>)
    ensures r.None? <==> body.None?
    ensures r.Some? ==> |r.value| <= |body.value|
    ensures r.Some? && r.value != [] ==> !PyStr.IsSpace(r.value[0]) && !PyStr.IsSpace(r.value[|r.value| - 1])
    ensures r.Some? ==> (r.value == [] <==> PyStr.SpaceBetween(body.value, 0, |body.value|))
  {
    match body
    case None => None
    case Some(text) => PyStr.StripEmptyIff(text); Some(PyStr.Strip(text))
  }

  /** `asyncio.gather(*tasks)`: one request per URL, results in URL order. */
  function GatherResponses(urls: seq<string>, fetch: string -> Option<string>): (r: seq<Option<string>>)
    ensures |r| == |urls|
    ensures forall i :: 0 <= i < |urls| ==> r[i] == RequestIpv4Address(fetch(urls[i]))
  {
    seq(|urls|, i requires 0 <= i < |urls| => RequestIpv4Address(fetch(urls[i])))
  }

  /** `[result for result in results if result]`: drops `None` and `""`, keeps duplicates and order. */
  function Survivors(results: seq<Option<string>>): (r: seq<string>)
    ensures |r| <= |results|
    ensures [] !in r
    ensures forall x :: x != [] ==> multiset(r)[x] == multiset(results)[Some(x)]
  {
    if results == [] then []
    else
      var rest := Survivors(results[1..]);
      assert results == [results[0]] + results[1..];
      match results[0]
      case Some(x) => if x != [] then [x] + rest else rest
      case None => rest
  }

  lemma SurvivorsMembers(results: seq<Option<string>>, x: string)
    ensures x in Survivors(results) <==> x != [] && Some(x) in results
  {
    var s := Survivors(results);
    if x != [] {
      assert x in s <==> multiset(s)[x] > 0;
      assert Some(x) in results <==> multiset(results)[Some(x)] > 0;
    }
  }

  // ---------------------------------------------------------------------------
  // Counter

  /** The items of a `Counter`, in insertion order: each distinct value with its count. */
  type Items = seq<(string, nat)>

  predicate UniqueKeys(items: Items) {
    forall i, j :: 0 <= i < j < |items| ==> items[i].0 != items[j].0
  }

  function KeySet(items: Items): set<string> {
    set i | 0 <= i < |items| :: items[i].0
  }

  lemma KeySetCons(head: (string, nat), tail: Items)
    ensures KeySet([head] + tail) == {head.0} + KeySet(tail)
  {
    var items := [head] + tail;
    forall k | k in KeySet(items) ensures k in {head.0} + KeySet(tail) {
      var i :| 0 <= i < |items| && items[i].0 == k;
      if i > 0 { assert tail[i - 1] == items[i]; }
    }
    forall k | k in KeySet(tail) ensures k in KeySet(items) {
      var i :| 0 <= i < |tail| && tail[i].0 == k;
      assert items[i + 1] == tail[i];
    }
    assert items[0] == head;
  }

  /** `counter[k]`: the count stored for `k`, 0 when absent. */
  function CountOf(items: Items, k: string): (n: nat)
    ensures k !in KeySet(items) ==> n == 0
    ensures (forall i :: 0 <= i < |items| ==> items[i].1 > 0) ==> (n > 0 <==> k in KeySet(items))
  {
    if items == [] then 0
    else
      assert items == [items[0]] + items[1..];
      KeySetCons(items[0], items[1..]);
      if items[0].0 == k then items[0].1
      else CountOf(items[1..], k)
  }

  lemma {:induction false} CountOfAt(items: Items, i: nat)
    requires UniqueKeys(items) && i < |items|
    ensures CountOf(items, items[i].0) == items[i].1
  {
    if i > 0 { CountOfAt(items[1..], i - 1); }
  }

  /** `counter[x] += 1`: an existing entry is incremented in place, a new one is appended. */
  function Bump(items: Items, x: string): (r: Items)
    ensures forall k :: CountOf(r, k) == CountOf(items, k) + (if k == x then 1 else 0)
  {
    if items == [] then [(x, 1)]
    else if items[0].0 == x then [(x, items[0].1 + 1)] + items[1..]
    else [items[0]] + Bump(items[1..], x)
  }

  lemma {:induction false} BumpKeys(items: Items, x: string)
    ensures KeySet(Bump(items, x)) == KeySet(items) + {x}
  {
    if items == [] {
      KeySetCons((x, 1), []);
    } else {
      assert items == [items[0]] + items[1..];
      KeySetCons(items[0], items[1..]);
      if items[0].0 == x {
        KeySetCons((x, items[0].1 + 1), items[1..]);
      } else {
        BumpKeys(items[1..], x);
        KeySetCons(items[0], Bump(items[1..], x));
      }
    }
  }

  lemma {:induction false} BumpUnique(items: Items, x: string)
    requires UniqueKeys(items)
    ensures UniqueKeys(Bump(items, x))
  {
    if items != [] && items[0].0 != x {
      var rest := Bump(items[1..], x);
      BumpUnique(items[1..], x);
      BumpKeys(items[1..], x);
      forall j | 0 <= j < |rest| ensures rest[j].0 != items[0].0 {
        assert rest[j].0 in KeySet(rest);
        if rest[j].0 in KeySet(items[1..]) {
          var k :| 0 <= k < |items[1..]| && items[1..][k].0 == rest[j].0;
          assert items[k + 1].0 == rest[j].0;
        }
      }
    }
  }

  lemma {:induction false} BumpCount(items: Items, x: string, k: string)
    ensures CountOf(Bump(items, x), k) == CountOf(items, k) + (if k == x then 1 else 0)
  {
    if items != [] && items[0].0 != x {
      BumpCount(items[1..], x, k);
    } else if items != [] && items[0].0 == x && k != x {
      assert CountOf(Bump(items, x), k) == CountOf(items[1..], k);
    }
  }

  lemma {:induction false} BumpPositive(items: Items, x: string)
    requires forall i :: 0 <= i < |items| ==> items[i].1 > 0
    ensures forall i :: 0 <= i < |Bump(items, x)| ==> Bump(items, x)[i].1 > 0
  {
    if items != [] && items[0].0 != x {
      BumpPositive(items[1..], x);
    }
  }

  /** `Counter(values)`. */
  function Tally(values: seq<string>): (r: Items)
    ensures UniqueKeys(r)
    ensures KeySet(r) == set x | x in values
    ensures forall k :: CountOf(r, k) == multiset(values)[k]
    ensures forall i :: 0 <= i < |r| ==> r[i].1 > 0
  {
    if values == [] then []
    else
      var init := values[..|values| - 1];
      assert values == init + [values[|values| - 1]];
      var last := values[|values| - 1];
      var prev := Tally(init);
      BumpKeys(prev, last);
      BumpUnique(prev, last);
      BumpPositive(prev, last);
      forall k ensures CountOf(Bump(prev, last), k) == multiset(values)[k] {
        BumpCount(prev, last, k);
      }
      Bump(prev, last)
  }

  // ---------------------------------------------------------------------------
  // max

  /**
   * How `max` compares two items. `Item` is the comparison `max(items)` uses:
   * Python's tuple order, the address first and the count only between equal addresses.
   * `CountThenAddress` is `max(items, key=lambda kv: (kv[1], kv[0]))`: votes first.
   */
  datatype Order = Item | CountThenAddress

  predicate Greater(order: Order, a: (string, nat), b: (string, nat))
    ensures Greater(order, a, b) ==> a != b
    ensures order == Item && a.0 != b.0 ==> (Greater(order, a, b) <==> PyStr.Less(b.0, a.0))
    ensures order == CountThenAddress && a.1 != b.1 ==> (Greater(order, a, b) <==> a.1 > b.1)
  {
    match order
    case Item => PyStr.Less(b.0, a.0) || (a.0 == b.0 && a.1 > b.1)
    case CountThenAddress => a.1 > b.1 || (a.1 == b.1 && PyStr.Less(b.0, a.0))
  }

  lemma GreaterTransitive(order: Order, a: (string, nat), b: (string, nat), c: (string, nat))
    requires Greater(order, a, b) && Greater(order, b, c)
    ensures Greater(order, a, c)
  {
    if PyStr.Less(b.0, a.0) && PyStr.Less(c.0, b.0) {
      PyStr.LessTransitive(c.0, b.0, a.0);
    }
  }

  /** Two items with different addresses are ordered one way or the other. */
  lemma GreaterTotal(order: Order, a: (string, nat), b: (string, nat))
    requires a.0 != b.0
    ensures Greater(order, a, b) || Greater(order, b, a)
  {
    PyStr.LessTotal(a.0, b.0);
  }

  /**
   * Python's `max(items)`: the first item is the running maximum, and a later item
   * replaces it only when it compares greater.
   */
  function MaxItem(items: Items, order: Order): (r: (string, nat))
    requires items != []
    ensures r in items
    ensures forall i :: 0 <= i < |items| ==> !Greater(order, items[i], r)
  {
    if |items| == 1 then
      PyStr.LessIrreflexive(items[0].0);
      items[0]
    else
      var m := MaxItem(items[..|items| - 1], order);
      var last := items[|items| - 1];
      if Greater(order, last, m) then
        PyStr.LessIrreflexive(last.0);
        assert forall i :: 0 <= i < |items| - 1 ==> items[i] == items[..|items| - 1][i];
        forall i | 0 <= i < |items| - 1 ensures !Greater(order, items[i], last) {
          if Greater(order, items[i], last) { GreaterTransitive(order, items[i], last, m); }
        }
        last
      else
        assert forall i :: 0 <= i < |items| - 1 ==> items[i] == items[..|items| - 1][i];
        m
  }

  /** `max(Counter(values).items())[0]`, as the program computes it. */
  function SelectAddress(values: seq<string>): (r: string)
    requires values != []
    ensures r in values
  {
    var items := Tally(values);
    assert values[0] in KeySet(items);
    var m := MaxItem(items, Item);
    assert m.0 in KeySet(items);
    m.0
  }

  /** The selected address is the greatest value in Python's string order, whatever the counts. */
  lemma SelectIsGreatest(values: seq<string>, x: string)
    requires x in values
    ensures x == SelectAddress(values) || PyStr.Less(x, SelectAddress(values))
  {
    var items := Tally(values);
    var m := MaxItem(items, Item);
    assert x in KeySet(items);
    var i :| 0 <= i < |items| && items[i].0 == x;
    assert !Greater(Item, items[i], m);
    if x != m.0 { GreaterTotal(Item, items[i], m); }
  }

  /** Two values that are each greatest in the same collection are the same value. */
  lemma GreatestUnique(a: string, b: string)
    requires a == b || PyStr.Less(a, b)
    requires b == a || PyStr.Less(b, a)
    ensures a == b
  {
    if a != b { PyStr.LessAsymmetric(a, b); }
  }

  /**
   * Reordering or duplicating the surviving answers cannot change the result:
   * only the set of distinct answers matters.
   */
  lemma SelectDependsOnlyOnSet(a: seq<string>, b: seq<string>)
    requires a != [] && b != []
    requires forall x :: x in a <==> x in b
    ensures SelectAddress(a) == SelectAddress(b)
  {
    var ra, rb := SelectAddress(a), SelectAddress(b);
    SelectIsGreatest(a, rb);
    SelectIsGreatest(b, ra);
    GreatestUnique(ra, rb);
  }

  /** Lines 18-20: filter the answers, tally them and take the maximum item's address. */
  function SelectFromResults(results: seq<Option<string>>): (r: Result<string, SelectError>)
    ensures r.Failure? <==> forall x :: Some(x) in results ==> x == []
    ensures r.Success? ==> r.value != [] && Some(r.value) in results
    ensures r.Success? ==> forall x :: Some(x) in results && x != [] ==> x == r.value || PyStr.Less(x, r.value)
  {
    var survivors := Survivors(results);
    if survivors == [] then
      forall x | Some(x) in results ensures x == [] {
        SurvivorsMembers(results, x);
      }
      Failure(EmptyMax)
    else
      var a := SelectAddress(survivors);
      SurvivorsMembers(results, a);
      forall x | Some(x) in results && x != [] ensures x == a || PyStr.Less(x, a) {
        SurvivorsMembers(results, x);
        SelectIsGreatest(survivors, x);
      }
      assert Some(survivors[0]) in results by { SurvivorsMembers(results, survivors[0]); }
      Success(a)
  }

  /** The answers' order and multiplicity never matter, only which non-empty answers occur. */
  lemma SelectFromResultsSetInvariant(r1: seq<Option<string>>, r2: seq<Option<string>>)
    requires forall x :: x != [] ==> (Some(x) in r1 <==> Some(x) in r2)
    ensures SelectFromResults(r1) == SelectFromResults(r2)
  {
    var s1, s2 := Survivors(r1), Survivors(r2);
    forall x ensures x in s1 <==> x in s2 {
      SurvivorsMembers(r1, x);
      SurvivorsMembers(r2, x);
    }
    if s1 != [] && s2 != [] {
      SelectDependsOnlyOnSet(s1, s2);
    }
  }

  /** The answers gathered are exactly the stripped bodies of the URLs that answered. */
  lemma GatherMembers(urls: seq<string>, fetch: string -> Option<string>)
    ensures forall u :: u in urls && fetch(u).Some? ==> Some(PyStr.Strip(fetch(u).value)) in GatherResponses(urls, fetch)
    ensures forall x :: Some(x) in GatherResponses(urls, fetch) ==>
              exists u :: u in urls && fetch(u).Some? && PyStr.Strip(fetch(u).value) == x
  {
    var results := GatherResponses(urls, fetch);
    forall u | u in urls && fetch(u).Some? ensures Some(PyStr.Strip(fetch(u).value)) in results {
      var i :| 0 <= i < |urls| && urls[i] == u;
      assert results[i] == Some(PyStr.Strip(fetch(u).value));
    }
    forall x | Some(x) in results ensures exists u :: u in urls && fetch(u).Some? && PyStr.Strip(fetch(u).value) == x {
      var i :| 0 <= i < |results| && results[i] == Some(x);
      assert urls[i] in urls;
    }
  }

  /** `get_public_ipv4_address(ip_provider_urls)` with the providers' answers given by `fetch`. */
  function GetPublicIpv4Address(urls: Option<seq<string>>, fetch: string -> Option<string>): (r: Result<string, SelectError>)
    ensures r.Success? ==> r.value != []
    ensures r.Success? ==> exists u :: u in ProviderUrls(urls) && fetch(u).Some? && PyStr.Strip(fetch(u).value) == r.value
    ensures r.Success? ==> forall u :: u in ProviderUrls(urls) && fetch(u).Some? && PyStr.Strip(fetch(u).value) != [] ==>
              PyStr.Strip(fetch(u).value) == r.value || PyStr.Less(PyStr.Strip(fetch(u).value), r.value)
    ensures r.Failure? <==> forall u :: u in ProviderUrls(urls) && fetch(u).Some? ==> PyStr.Strip(fetch(u).value) == []
  {
    var urlList := ProviderUrls(urls);
    var results := GatherResponses(urlList, fetch);
    var r := SelectFromResults(results);
    GatherMembers(urlList, fetch);
    r
  }

  /** When every provider fails or answers only whitespace, the call fails instead of returning an address. */
  lemma NoUsableAnswerFails(urls: Option<seq<string>>, fetch: string -> Option<string>)
    requires forall u :: u in ProviderUrls(urls) && fetch(u).Some? ==> PyStr.SpaceBetween(fetch(u).value, 0, |fetch(u).value|)
    ensures GetPublicIpv4Address(urls, fetch) == Failure(EmptyMax)
  {
    var urlList := ProviderUrls(urls);
    var results := GatherResponses(urlList, fetch);
    forall x | Some(x) in results ensures x == [] {
      var i :| 0 <= i < |results| && results[i] == Some(x);
      assert urlList[i] in urlList;
    }
  }

  // ---------------------------------------------------------------------------
  // The vote-counting selection the names `Counter` and `frequency_count` suggest

  /** Most votes wins; among equally voted addresses, the greatest string. */
  function MostCommonAddress(values: seq<string>): (r: string)
    requires values != []
    ensures r in values
    ensures forall x :: x in values ==> multiset(values)[x] <= multiset(values)[r]
  {
    var items := Tally(values);
    assert values[0] in KeySet(items);
    var m := MaxItem(items, CountThenAddress);
    assert m.0 in KeySet(items);
    forall x | x in values ensures multiset(values)[x] <= multiset(values)[m.0] {
      assert x in KeySet(items);
      var i :| 0 <= i < |items| && items[i].0 == x;
      var j :| 0 <= j < |items| && items[j] == m;
      CountOfAt(items, i);
      CountOfAt(items, j);
    }
    m.0
  }

  lemma {:induction false} TwoCountsBounded(values: seq<string>, x: string, y: string)
    requires x != y
    ensures multiset(values)[x] + multiset(values)[y] <= |values|
  {
    if values != [] {
      var init := values[..|values| - 1];
      assert values == init + [values[|values| - 1]];
      TwoCountsBounded(init, x, y);
    }
  }

  /** An address reported by a strict majority of the answers is the one chosen by votes. */
  lemma MajorityWins(values: seq<string>, x: string)
    requires 2 * multiset(values)[x] > |values|
    ensures MostCommonAddress(values) == x
  {
    var r := MostCommonAddress(values);
    if r != x { TwoCountsBounded(values, x, r); }
  }

  /**
   * The as-written selection ignores the votes: when two answers say `a` and one says a
   * greater `b`, the program returns `b`, while counting votes returns `a`.
   */
  lemma SelectIgnoresVotes(a: string, b: string)
    requires PyStr.Less(a, b)
    ensures SelectAddress([a, a, b]) == b
    ensures MostCommonAddress([a, a, b]) == a
  {
    var values := [a, a, b];
    SelectIsGreatest(values, b);
    var r := SelectAddress(values);
    assert r in values;
    if r == a { PyStr.LessAsymmetric(a, b); }
    PyStr.LessIrreflexive(a);
    assert a != b;
    assert multiset(values)[a] == 2;
    MajorityWins(values, a);
  }

  /** The concrete input: answers "1.1.1.1", "1.1.1.1" and "2.2.2.2". */
  lemma SelectIgnoresVotesExample()
    ensures SelectAddress(["1.1.1.1", "1.1.1.1", "2.2.2.2"]) == "2.2.2.2"
    ensures MostCommonAddress(["1.1.1.1", "1.1.1.1", "2.2.2.2"]) == "1.1.1.1"
  {
    assert PyStr.Less("1.1.1.1", "2.2.2.2");
    SelectIgnoresVotes("1.1.1.1", "2.2.2.2");
  }
}
