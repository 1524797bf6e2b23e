/** Request assembly, pluralisation, seeded random selection and the
    location filter behind autocomplete (helpers.go). */
module Helpers {
  import opened Types

  const BaseUrl: string := "https://www.register2park.com"
  const UserAgent: string := "Mozilla/5.0 (X11; Linux x86_64) AppleWebKit/537.36 (KHTML, like Gecko) Chrome/113.0.0.0 Safari/537.36"
  const DefaultContentType: string := "application/x-www-form-urlencoded; charset=UTF-8"
  const DefaultReferer: string := "https://www.register2park.com/register"

  // ---------------------------------------------------------------- strings

  predicate HasPrefix(s: string, prefix: string) {
    |prefix| <= |s| && s[..|prefix|] == prefix
  }

  /** Go's `strings.Contains`. */
  predicate Contains(s: string, sub: string)
    decreases |s|
  {
    HasPrefix(s, sub) || (s != [] && Contains(s[1..], sub))
  }

  function LowerChar(c: char): char {
    if 'A' <= c <= 'Z' then (c as int + 32) as char else c
  }

  /** `strings.ToLower`, on the ASCII letters: only the capitals change,
      each into its small letter, and none is left. */
  function Lower(s: string): (r: string)
    ensures |r| == |s|
    ensures forall i :: 0 <= i < |s| ==> !('A' <= r[i] <= 'Z')
    ensures forall i :: 0 <= i < |s| && !('A' <= s[i] <= 'Z') ==> r[i] == s[i]
    ensures forall i :: 0 <= i < |s| && 'A' <= s[i] <= 'Z' ==> r[i] as int == s[i] as int + 32
  {
    seq(|s|, i requires 0 <= i < |s| => LowerChar(s[i]))
  }

  /** Lower-casing twice is lower-casing once. */
  lemma LowerIdempotent(s: string)
    ensures Lower(Lower(s)) == Lower(s)
  {
  }

  // ---------------------------------------------------------------- Plural

  /** The suffix that pluralises a count: none for exactly one. */
  function Plural(n: int): (s: string)
    ensures s == "" <==> n == 1
    ensures s != "" ==> s == "s"
  {
    if n == 1 then "" else "s"
  }

  // ---------------------------------------------------------------- requests

  /** A request as `BuildRequestWithBody` prepares it; the body reader is
      not modelled. */
  datatype Request = Request(verb: string, url: string, headers: map<string, string>)

  /** The `?k=v&k=v` tail built from the parameters in the order Go's map
      iteration visited them; keys and values are not escaped. */
  function PairText(p: (string, string)): string {
    p.0 + "=" + p.1
  }

  /** The texts joined with a separator, defined from the front. */
  function Join(texts: seq<string>, sep: string): string {
    if texts == [] then "" else if |texts| == 1 then texts[0] else texts[0] + sep + Join(texts[1..], sep)
  }

  function PairTexts(params: seq<(string, string)>): (r: seq<string>)
    ensures |r| == |params|
  {
    seq(|params|, i requires 0 <= i < |params| => PairText(params[i]))
  }

  /** Where a path points: absolute URLs are kept, anything else is taken
      relative to the portal. */
  function Target(path: string): string {
    if HasPrefix(path, "http") then path else BaseUrl + path
  }

  lemma {:induction false} JoinSnoc(texts: seq<string>, t: string, sep: string)
    requires texts != []
    ensures Join(texts + [t], sep) == Join(texts, sep) + sep + t
    decreases |texts|
  {
    if |texts| == 1 {
      assert (texts + [t])[1..] == [t];
    } else {
      assert (texts + [t])[1..] == texts[1..] + [t];
      JoinSnoc(texts[1..], t, sep);
    }
  }

  /** The URL `BuildRequestWithBody` assembles: the target, then the
      parameter texts after a `?`, separated by `&`. */
  function RequestUrl(path: string, params: seq<(string, string)>): string {
    if params == [] then Target(path) else Target(path) + "?" + Join(PairTexts(params), "&")
  }

  /** The URL assembly of `BuildRequestWithBody` (helpers.go): the target,
      then `?` before the first parameter and `&` before every later one. */
  method BuildUrl(path: string, params: seq<(string, string)>) returns (url: string)
    ensures params == [] ==> url == Target(path)
    ensures params != [] ==> url == Target(path) + "?" + Join(PairTexts(params), "&")
  {
    if !HasPrefix(path, "http") {
      url := BaseUrl + path;
    } else {
      url := path;
    }
    var takenFirst := false;
    var i := 0;
    while i < |params|
      invariant 0 <= i <= |params|
      invariant takenFirst <==> i > 0
      invariant i == 0 ==> url == Target(path)
      invariant i > 0 ==> url == Target(path) + "?" + Join(PairTexts(params[..i]), "&")
    {
      var paramChar := "&";
      if !takenFirst {
        paramChar := "?";
        takenFirst := true;
      }
      var (key, value) := params[i];
      if i > 0 {
        assert PairTexts(params[..i + 1]) == PairTexts(params[..i]) + [PairText(params[i])];
        JoinSnoc(PairTexts(params[..i]), PairText(params[i]), "&");
      } else {
        assert PairTexts(params[..1]) == [PairText(params[0])];
      }
      url := url + paramChar + key + "=" + value;
      i := i + 1;
    }
    assert params[..|params|] == params;
  }

  /** `SetTypicalHeaders`: the browser user agent, the content type and
      referer (defaults when none is given), and the XMLHttpRequest marker on
      request; every other header is left as it was. */
  function TypicalHeaders(headers: map<string, string>, contentType: Option<string>,
                          referrer: Option<string>, xmlRequest: bool): (r: map<string, string>)
    ensures r.Keys == headers.Keys + {"User-Agent", "Content-Type", "Referer"}
                      + (if xmlRequest then {"X-Requested-With"} else {})
    ensures r["User-Agent"] == UserAgent
    ensures r["Content-Type"] == contentType.GetOr(DefaultContentType)
    ensures r["Referer"] == referrer.GetOr(DefaultReferer)
    ensures xmlRequest ==> r["X-Requested-With"] == "XMLHttpRequest"
    ensures forall h :: h in headers && h !in {"User-Agent", "Content-Type", "Referer", "X-Requested-With"}
                        ==> r[h] == headers[h]
  {
    var h1 := headers["User-Agent" := UserAgent];
    var h2 := if xmlRequest then h1["X-Requested-With" := "XMLHttpRequest"] else h1;
    var h3 := h2["Content-Type" := contentType.GetOr(DefaultContentType)];
    h3["Referer" := referrer.GetOr(DefaultReferer)]
  }

  // ---------------------------------------------------------------- url.Parse

  /** A control byte: below 0x20, or DEL. Every byte of a multi-byte UTF-8
      sequence is 0x80 or above, so testing characters tests bytes. */
  predicate IsControl(c: char) {
    c as int < 0x20 || c as int == 0x7f
  }

  predicate IsHex(c: char) {
    '0' <= c <= '9' || 'a' <= c <= 'f' || 'A' <= c <= 'F'
  }

  /** Where the fragment begins: the first `#`, or the end. */
  function FragmentStart(s: string): (k: nat)
    ensures k <= |s|
    ensures forall i :: 0 <= i < k ==> s[i] != '#'
    ensures k < |s| ==> s[k] == '#'
  {
    if s == [] then 0
    else if s[0] == '#' then 0
    else 1 + FragmentStart(s[1..])
  }

  /** A `%` that is not followed by two hexadecimal digits. */
  predicate BadEscape(s: string) {
    exists i :: 0 <= i < |s| && s[i] == '%' && !(i + 2 < |s| && IsHex(s[i + 1]) && IsHex(s[i + 2]))
  }

  /** When `url.Parse` refuses a URL built on the portal's scheme, host and
      path: a control byte before the first `#`, or a malformed escape in
      the fragment after it. */
  predicate UrlRejected(url: string) {
    var k := FragmentStart(url);
    (exists i :: 0 <= i < k && IsControl(url[i])) || (k < |url| && BadEscape(url[k + 1..]))
  }

  /** A character of joined texts comes from one of the texts, or from a
      separator between two of them. */
  lemma {:induction false} JoinMembers(texts: seq<string>, sep: string, x: char)
    ensures x in Join(texts, sep) <==> (exists t :: t in texts && x in t) || (|texts| > 1 && x in sep)
    decreases |texts|
  {
    if |texts| > 1 {
      JoinMembers(texts[1..], sep, x);
      assert Join(texts, sep) == texts[0] + sep + Join(texts[1..], sep);
      assert forall t :: t in texts <==> t == texts[0] || t in texts[1..];
    }
  }

  /** `BuildRequestWithBody` without the body: the URL and the typical
      headers with every default. `http.NewRequest`'s error is dropped, so
      a URL that `url.Parse` rejects leaves a nil request, and
      `SetTypicalHeaders` dereferences it: the result is then `None`, a
      panic. */
  method BuildRequest(verb: string, path: string, params: seq<(string, string)>) returns (r: Option<Request>)
    ensures r.None? <==> UrlRejected(RequestUrl(path, params))
    ensures r.Some? ==> r.value == Request(verb, RequestUrl(path, params), TypicalHeaders(map[], None, None, false))
  {
    var url := BuildUrl(path, params);
    if UrlRejected(url) {
      return None;
    }
    r := Some(Request(verb, url, TypicalHeaders(map[], None, None, false)));
  }

  // ---------------------------------------------------------------- GetRandomItems

  /** The seeded source `rand.New(rand.NewSource(seed))`, abstractly:
      `g(seed, n, k)` is what its k-th call of `Intn(n)` returns. */
  type Generator = (int, nat, nat) -> nat

  /** `Intn(n)` returns a value in [0, n). */
  ghost predicate InRange(g: Generator, seed: int, n: nat) {
    forall k :: g(seed, n, k) < n
  }

  /** No index occurs twice in `p`: each one differs from every one before it. */
  predicate Distinct(p: seq<nat>)
    decreases |p|
  {
    p == [] || (p[|p| - 1] !in p[..|p| - 1] && Distinct(p[..|p| - 1]))
  }

  /** `Distinct` means pairwise different. */
  lemma {:induction false} DistinctPairwise(p: seq<nat>)
    requires Distinct(p)
    ensures forall i, j :: 0 <= i < j < |p| ==> p[i] != p[j]
    decreases |p|
  {
    if p != [] {
      var q := p[..|p| - 1];
      DistinctPairwise(q);
      assert forall i :: 0 <= i < |q| ==> q[i] == p[i];
    }
  }

  datatype RandomError =
    | TooFewItems         // "array length is less than N"
    | NegativeCapacity    // make([]T, 0, N) panics for a negative N
    | GeneratorExhausted  // the draw bound of the model ran out (see README)

  /** The indices the selection loop keeps: from draw k on, with at most
      `fuel` draws left, having kept `chosen`, until `want` are kept; a
      repeated index is skipped. */
  function Picks(g: Generator, seed: int, len: nat, want: nat, k: nat, fuel: nat, chosen: seq<nat>): (r: Option<seq<nat>>)
    decreases fuel
  {
    if |chosen| >= want then Some(chosen)
    else if fuel == 0 then None
    else
      var i := g(seed, len, k);
      Picks(g, seed, len, want, k + 1, fuel - 1, if i in chosen then chosen else chosen + [i])
  }

  /** The kept indices are `want` distinct in-range indices extending the
      ones kept so far. */
  lemma {:induction false} PicksSound(g: Generator, seed: int, len: nat, want: nat, k: nat, fuel: nat, chosen: seq<nat>)
    requires len > 0 ==> InRange(g, seed, len)
    requires |chosen| < want ==> len > 0
    requires |chosen| <= want && Distinct(chosen)
    requires forall i :: 0 <= i < |chosen| ==> chosen[i] < len
    ensures var r := Picks(g, seed, len, want, k, fuel, chosen);
            && (r.Some? ==> |r.value| == want && Distinct(r.value))
            && (r.Some? ==> forall i :: 0 <= i < want ==> r.value[i] < len)
            && (r.Some? ==> r.value[..|chosen|] == chosen)
    decreases fuel
  {
    if |chosen| < want && fuel > 0 {
      var next := PicksStep(g, seed, len, want, k, fuel, chosen);
      PicksSound(g, seed, len, want, k + 1, fuel - 1, next);
      var r := Picks(g, seed, len, want, k + 1, fuel - 1, next);
      if r.Some? {
        assert r.value[..|chosen|] == r.value[..|next|][..|chosen|];
      }
    }
  }

  /** What `GetRandomItems(arr, n, seed)` returns: an error for too short an
      input, otherwise the items at the kept indices, in the order drawn. */
  function RandomItems<T>(arr: seq<T>, n: int, seed: int, g: Generator, fuel: nat): (r: Result<seq<T>, RandomError>)
    requires |arr| > 0 ==> InRange(g, seed, |arr|)
    ensures |arr| < n <==> r == Failure(TooFewItems)
    ensures r.Success? ==> n >= 0 && |r.value| == n
    ensures r.Success? ==> forall i :: 0 <= i < n ==> r.value[i] in arr
  {
    if |arr| < n then Failure(TooFewItems)
    else if n < 0 then Failure(NegativeCapacity)
    else
      PicksSound(g, seed, |arr|, n, 0, fuel, []);
      match Picks(g, seed, |arr|, n, 0, fuel, [])
      case None => Failure(GeneratorExhausted)
      case Some(p) => Success(seq(n, i requires 0 <= i < n => arr[p[i]]))
  }

  /** The selection loop of `GetRandomItems`. Its result is a function of
      the array, N and the seed (with the generator and the draw bound). */
  method GetRandomItems<T>(arr: seq<T>, n: int, seed: int, g: Generator, fuel: nat) returns (r: Result<seq<T>, RandomError>)
    requires |arr| > 0 ==> InRange(g, seed, |arr|)
    ensures r == RandomItems(arr, n, seed, g, fuel)
  {
    if |arr| < n {
      return Failure(TooFewItems);
    }
    if n < 0 {
      return Failure(NegativeCapacity);
    }
    var selectedIndices: set<nat> := {};
    var selectedItems: seq<T> := [];
    ghost var chosen: seq<nat> := [];
    SelectingStart(arr, n, seed, g, fuel);
    var k: nat := 0;
    var left := fuel;
    while |selectedItems| < n
      invariant Selecting(arr, n, seed, g, fuel, k, left, chosen, selectedIndices, selectedItems)
      decreases left
    {
      if left == 0 {
        SelectingExhausted(arr, n, seed, g, fuel, k, left, chosen, selectedIndices, selectedItems);
        return Failure(GeneratorExhausted);
      }
      var randomIndex := g(seed, |arr|, k);
      ghost var next := DrawStep(arr, n, seed, g, fuel, k, left, chosen, selectedIndices, selectedItems);
      if randomIndex !in selectedIndices {
        selectedIndices := selectedIndices + {randomIndex};
        selectedItems := selectedItems + [arr[randomIndex]];
      }
      chosen := next;
      k := k + 1;
      left := left - 1;
    }
    SelectingDone(arr, n, seed, g, fuel, k, left, chosen, selectedIndices, selectedItems);
    r := Success(selectedItems);
  }

  /** The state of `GetRandomItems`' loop: the kept items are the items at
      the kept indices `chosen`, whose set is `indices`, and what is left of
      the draws ends as the whole selection would. */
  ghost predicate Selecting<T>(arr: seq<T>, n: nat, seed: int, g: Generator, fuel: nat,
                               k: nat, left: nat, chosen: seq<nat>, indices: set<nat>, items: seq<T>)
  {
    && n <= |arr| && (|arr| > 0 ==> InRange(g, seed, |arr|))
    && |items| == |chosen| <= n
    && Distinct(chosen)
    && (forall x :: x in indices <==> x in chosen)
    && (forall i :: 0 <= i < |chosen| ==> chosen[i] < |arr| && items[i] == arr[chosen[i]])
    && Picks(g, seed, |arr|, n, k, left, chosen) == Picks(g, seed, |arr|, n, 0, fuel, [])
  }

  /** The loop of `GetRandomItems` starts with nothing kept. */
  lemma SelectingStart<T>(arr: seq<T>, n: nat, seed: int, g: Generator, fuel: nat)
    requires n <= |arr| && (|arr| > 0 ==> InRange(g, seed, |arr|))
    ensures Selecting(arr, n, seed, g, fuel, 0, fuel, [], {}, [])
  {
  }

  /** The loop of `GetRandomItems` stops with N items: they are the result. */
  lemma SelectingDone<T>(arr: seq<T>, n: nat, seed: int, g: Generator, fuel: nat,
                         k: nat, left: nat, chosen: seq<nat>, indices: set<nat>, items: seq<T>)
    requires Selecting(arr, n, seed, g, fuel, k, left, chosen, indices, items)
    requires |items| >= n
    ensures RandomItems(arr, n, seed, g, fuel) == Success(items)
  {
    assert Picks(g, seed, |arr|, n, k, left, chosen) == Some(chosen);
    RandomItemsOfPicks(arr, n, seed, g, fuel);
    assert items == seq(n, i requires 0 <= i < n => arr[chosen[i]]);
  }

  /** The loop of `GetRandomItems` runs out of draws before N items. */
  lemma SelectingExhausted<T>(arr: seq<T>, n: nat, seed: int, g: Generator, fuel: nat,
                              k: nat, left: nat, chosen: seq<nat>, indices: set<nat>, items: seq<T>)
    requires Selecting(arr, n, seed, g, fuel, k, left, chosen, indices, items)
    requires |items| < n && left == 0
    ensures RandomItems(arr, n, seed, g, fuel) == Failure(GeneratorExhausted)
  {
    assert Picks(g, seed, |arr|, n, k, left, chosen) == None;
    RandomItemsOfPicks(arr, n, seed, g, fuel);
  }

  /** One pass of `GetRandomItems`' loop keeps its state: the drawn index is
      in range and, kept or not, the state after the pass is `Selecting`. */
  lemma DrawStep<T>(arr: seq<T>, n: nat, seed: int, g: Generator, fuel: nat,
                    k: nat, left: nat, chosen: seq<nat>, indices: set<nat>, items: seq<T>)
    returns (next: seq<nat>)
    requires Selecting(arr, n, seed, g, fuel, k, left, chosen, indices, items)
    requires |items| < n && left > 0
    ensures g(seed, |arr|, k) < |arr|
    ensures g(seed, |arr|, k) in indices ==>
              Selecting(arr, n, seed, g, fuel, k + 1, left - 1, next, indices, items)
    ensures g(seed, |arr|, k) !in indices ==>
              Selecting(arr, n, seed, g, fuel, k + 1, left - 1, next,
                        indices + {g(seed, |arr|, k)}, items + [arr[g(seed, |arr|, k)]])
  {
    next := PicksStep(g, seed, |arr|, n, k, left, chosen);
    var x := g(seed, |arr|, k);
    if x !in indices {
      var items' := items + [arr[x]];
      assert forall i :: 0 <= i < |next| ==> next[i] < |arr| && items'[i] == arr[next[i]] by {
        forall i | 0 <= i < |next| ensures next[i] < |arr| && items'[i] == arr[next[i]] {
          if i < |chosen| { assert items'[i] == items[i]; }
        }
      }
    }
  }

  /** One draw of the selection loop: the index is in range, and the kept
      indices stay distinct and in range. */
  lemma PicksStep(g: Generator, seed: int, len: nat, want: nat, k: nat, fuel: nat, chosen: seq<nat>)
    returns (next: seq<nat>)
    requires len > 0 && InRange(g, seed, len)
    requires |chosen| < want && fuel > 0 && Distinct(chosen)
    requires forall i :: 0 <= i < |chosen| ==> chosen[i] < len
    ensures g(seed, len, k) < len
    ensures next == if g(seed, len, k) in chosen then chosen else chosen + [g(seed, len, k)]
    ensures |next| <= want && Distinct(next)
    ensures forall j :: 0 <= j < |next| ==> next[j] < len
    ensures Picks(g, seed, len, want, k, fuel, chosen) == Picks(g, seed, len, want, k + 1, fuel - 1, next)
  {
    var i := g(seed, len, k);
    assert i < len;
    next := if i in chosen then chosen else chosen + [i];
    assert i !in chosen ==> next[..|next| - 1] == chosen;
  }

  lemma RandomItemsOfPicks<T>(arr: seq<T>, n: int, seed: int, g: Generator, fuel: nat)
    requires |arr| > 0 ==> InRange(g, seed, |arr|)
    requires 0 <= n <= |arr|
    ensures Picks(g, seed, |arr|, n, 0, fuel, []).None? ==> RandomItems(arr, n, seed, g, fuel) == Failure(GeneratorExhausted)
    ensures Picks(g, seed, |arr|, n, 0, fuel, []).Some? ==>
              var p := Picks(g, seed, |arr|, n, 0, fuel, []).value;
              && |p| == n && (forall i :: 0 <= i < n ==> p[i] < |arr|)
              && RandomItems(arr, n, seed, g, fuel) == Success(seq(n, i requires 0 <= i < n => arr[p[i]]))
  {
    PicksSound(g, seed, |arr|, n, 0, fuel, []);
  }

  /** A successful selection takes its items, in order, from `n` pairwise
      distinct positions of the array. */
  lemma RandomItemsDistinctIndices<T>(arr: seq<T>, n: int, seed: int, g: Generator, fuel: nat)
    requires |arr| > 0 ==> InRange(g, seed, |arr|)
    ensures var r := RandomItems(arr, n, seed, g, fuel);
            r.Success? ==> exists p: seq<nat> :: && |p| == n
                                                  && (forall i, j :: 0 <= i < j < n ==> p[i] != p[j])
                                                  && (forall i :: 0 <= i < n ==> p[i] < |arr|)
                                                  && (forall i :: 0 <= i < n ==> r.value[i] == arr[p[i]])
  {
    var r := RandomItems(arr, n, seed, g, fuel);
    if r.Success? {
      PicksSound(g, seed, |arr|, n, 0, fuel, []);
      var p := Picks(g, seed, |arr|, n, 0, fuel, []).value;
      DistinctPairwise(p);
      assert forall i :: 0 <= i < n ==> r.value[i] == arr[p[i]];
    }
  }

  // ---------------------------------------------------------------- FilterLocations

  /** Case-insensitive name match of the filter. */
  predicate Matches(loc: Location, query: string) {
    Contains(Lower(loc.name), Lower(query))
  }

  /** Every matching location, in input order. */
  function MatchesOf(locs: seq<Location>, query: string): seq<Location> {
    if locs == [] then []
    else (if Matches(locs[0], query) then [locs[0]] else []) + MatchesOf(locs[1..], query)
  }

  /** `a` is `b` with some elements left out. */
  predicate Subsequence<T(==)>(a: seq<T>, b: seq<T>)
    decreases |b|
  {
    a == [] || (b != [] && ((a[0] == b[0] && Subsequence(a[1..], b[1..])) || Subsequence(a, b[1..])))
  }

  /** How many matches the loop keeps before its `break`: the test
      `matches >= limit` runs only after a match is appended, so a limit
      below one still keeps the first match. */
  function Cap(limit: int): nat {
    if limit < 1 then 1 else limit
  }

  datatype FilterError = RandomFailed(cause: RandomError) | NegativeLimit

  /** The outcome of `FilterLocations`; `Fatal` is the process stopping
      (`log.Fatal`, or the panic of `make` on a negative capacity). */
  datatype FilterOutcome = Filtered(locations: seq<Location>) | Fatal(error: FilterError)

  lemma {:induction false} MatchesOfAppend(a: seq<Location>, b: seq<Location>, query: string)
    ensures MatchesOf(a + b, query) == MatchesOf(a, query) + MatchesOf(b, query)
    decreases |a|
  {
    if a == [] {
      assert a + b == b;
    } else {
      assert (a + b)[1..] == a[1..] + b;
      MatchesOfAppend(a[1..], b, query);
    }
  }

  /** `FilterLocations`: with an empty query, `limit` random locations or
      the fatal error of `GetRandomItems`; otherwise the first `Cap(limit)`
      matches in input order. */
  method FilterLocations(all: seq<Location>, query: string, limit: int, seed: int, g: Generator, fuel: nat)
    returns (r: FilterOutcome)
    requires |all| > 0 ==> InRange(g, seed, |all|)
    ensures query == [] ==> r == match RandomItems(all, limit, seed, g, fuel)
                                 case Success(items) => Filtered(items)
                                 case Failure(e) => Fatal(RandomFailed(e))
    ensures query != [] && limit < 0 ==> r == Fatal(NegativeLimit)
    ensures query != [] && limit >= 0 ==>
              var m := MatchesOf(all, query);
              r == Filtered(if |m| <= Cap(limit) then m else m[..Cap(limit)])
  {
    if |query| == 0 {
      var randomized := GetRandomItems(all, limit, seed, g, fuel);
      match randomized
      case Success(items) => return Filtered(items);
      case Failure(e) => return Fatal(RandomFailed(e));
    }
    if limit < 0 {
      return Fatal(NegativeLimit);
    }
    var lowerQuery := Lower(query);
    var filtered: seq<Location> := [];
    var matches := 0;
    var i := 0;
    while i < |all|
      invariant 0 <= i <= |all|
      invariant filtered == MatchesOf(all[..i], query) && matches == |filtered| < Cap(limit)
    {
      var location := all[i];
      assert all[..i + 1] == all[..i] + [location];
      MatchesOfAppend(all[..i], [location], query);
      if Contains(Lower(location.name), lowerQuery) {
        filtered := filtered + [location];
        matches := matches + 1;
        if matches >= limit {
          assert all == all[..i + 1] + all[i + 1..];
          MatchesOfAppend(all[..i + 1], all[i + 1..], query);
          return Filtered(filtered);
        }
      }
      i := i + 1;
    }
    assert all[..i] == all;
    r := Filtered(filtered);
  }

  // ---------------------------------------------------------------- filter properties

  lemma {:induction false} MatchesOfSound(locs: seq<Location>, query: string)
    ensures forall x :: x in MatchesOf(locs, query) ==> x in locs && Matches(x, query)
    decreases |locs|
  {
    if locs != [] {
      MatchesOfSound(locs[1..], query);
    }
  }

  lemma {:induction false} MatchesOfComplete(locs: seq<Location>, query: string)
    ensures forall x :: x in locs && Matches(x, query) ==> x in MatchesOf(locs, query)
    decreases |locs|
  {
    if locs != [] {
      MatchesOfComplete(locs[1..], query);
      assert forall x :: x in locs ==> x == locs[0] || x in locs[1..];
    }
  }

  lemma {:induction false} MatchesOfOrdered(locs: seq<Location>, query: string)
    ensures Subsequence(MatchesOf(locs, query), locs)
    decreases |locs|
  {
    if locs != [] {
      MatchesOfOrdered(locs[1..], query);
      var m := MatchesOf(locs, query);
      if Matches(locs[0], query) {
        assert m[0] == locs[0] && m[1..] == MatchesOf(locs[1..], query);
      } else {
        assert m == MatchesOf(locs[1..], query);
      }
    }
  }

  lemma {:induction false} SubsequencePrefix<T>(a: seq<T>, b: seq<T>, k: nat)
    requires Subsequence(a, b) && k <= |a|
    ensures Subsequence(a[..k], b)
    decreases |b|
  {
    if k > 0 {
      assert a != [] && b != [];
      if a[0] == b[0] && Subsequence(a[1..], b[1..]) {
        SubsequencePrefix(a[1..], b[1..], k - 1);
        assert a[..k][1..] == a[1..][..k - 1];
      } else {
        SubsequencePrefix(a, b[1..], k);
      }
    }
  }

  /** For a non-empty query, every location kept matches it, they keep
      their input order, there are at most `Cap(limit)` of them, and a
      result shorter than the cap holds every match. */
  lemma FilterMatchesInOrder(all: seq<Location>, query: string, limit: int)
    ensures var m := MatchesOf(all, query);
            var r := if |m| <= Cap(limit) then m else m[..Cap(limit)];
            && |r| <= Cap(limit)
            && (forall x :: x in r ==> x in all && Matches(x, query))
            && Subsequence(r, all)
            && (|r| < Cap(limit) ==> forall x :: x in all && Matches(x, query) ==> x in r)
  {
    var m := MatchesOf(all, query);
    MatchesOfSound(all, query);
    MatchesOfComplete(all, query);
    MatchesOfOrdered(all, query);
    if |m| > Cap(limit) {
      SubsequencePrefix(m, all, Cap(limit));
      assert forall x :: x in m[..Cap(limit)] ==> x in m;
    }
  }
}
