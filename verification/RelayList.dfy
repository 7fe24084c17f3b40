/**
The relay list of internal/mullvad/mullvad.go: active relays of the API answer, sorted by
hostname, and the filter over them.
*/
module RelayList {
  import opened Wrappers
  import opened Text

  datatype Server = Server(
    flag: string, country: string, city: string, socks5: string, socksPort: int,
    ipv4: string, ipv6: string, speed: int, multihop: int, owned: bool,
    provider: string, hostname: string)

  /** One entry of the API answer. */
  datatype Relay = Relay(active: bool, server: Server)

  datatype Filter = Filter(
    countries: seq<string>, cities: seq<string>, seed: int, owned: Option<bool>,
    providers: seq<string>, minSpeed: int, multihop: bool, hostname: string)

  // ---- The filter ----

  predicate InSlice(ss: seq<string>, s: string) {
    exists i :: 0 <= i < |ss| && EqualFold(ss[i], s)
  }

  predicate Matches(f: Filter, s: Server) {
    && (f.countries == [] || InSlice(f.countries, s.country))
    && (f.cities == [] || InSlice(f.cities, s.city))
    && (f.owned.None? || s.owned == f.owned.value)
    && (f.providers == [] || InSlice(f.providers, s.provider))
    && (f.minSpeed <= 0 || s.speed >= f.minSpeed)
    && (!f.multihop || s.multihop != 0)
    && (f.hostname == "" || EqualFold(f.hostname, s.hostname))
  }

  predicate IsEmpty(f: Filter) {
    |f.countries| == 0 && |f.cities| == 0 && |f.providers| == 0 &&
    f.seed == 0 && f.owned.None? && f.minSpeed == 0 && !f.multihop && f.hostname == ""
  }

  function Keep<T>(s: seq<T>, p: T -> bool): seq<T> {
    if s == [] then []
    else Keep(s[..|s| - 1], p) + if p(s[|s| - 1]) then [s[|s| - 1]] else []
  }

  function Matching(servers: seq<Server>, f: Filter): seq<Server> {
    Keep(servers, s => Matches(f, s))
  }

  method StringInSlice(ss: seq<string>, s: string) returns (r: bool)
    ensures r == InSlice(ss, s)
  {
    for i := 0 to |ss|
      invariant forall j :: 0 <= j < i ==> !EqualFold(ss[j], s)
    {
      if EqualFold(ss[i], s) {
        return true;
      }
    }
    return false;
  }

  lemma {:induction false} KeepAll<T>(s: seq<T>, p: T -> bool)
    requires forall i :: 0 <= i < |s| ==> p(s[i])
    ensures Keep(s, p) == s
  {
    if s != [] {
      KeepAll(s[..|s| - 1], p);
    }
  }

  lemma KeepNext<T>(s: seq<T>, i: nat, p: T -> bool)
    requires i < |s|
    ensures Keep(s[..i + 1], p) == Keep(s[..i], p) + if p(s[i]) then [s[i]] else []
  {
    assert s[..i + 1][..i] == s[..i];
  }

  /** What each criterion asks of a server, on the fields themselves. */
  lemma MatchesLaw(f: Filter, s: Server)
    ensures Matches(f, s) <==>
      && (f.countries != [] ==> exists c :: c in f.countries && ToLower(c) == ToLower(s.country))
      && (f.cities != [] ==> exists c :: c in f.cities && ToLower(c) == ToLower(s.city))
      && (f.providers != [] ==> exists p :: p in f.providers && ToLower(p) == ToLower(s.provider))
      && (f.owned.Some? ==> s.owned == f.owned.value)
      && (f.minSpeed > 0 ==> s.speed >= f.minSpeed)
      && (f.multihop ==> s.multihop != 0)
      && (f.hostname != "" ==> ToLower(f.hostname) == ToLower(s.hostname))
  {
    InSliceLaw(f.countries, s.country);
    InSliceLaw(f.cities, s.city);
    InSliceLaw(f.providers, s.provider);
  }

  lemma InSliceLaw(ss: seq<string>, s: string)
    ensures InSlice(ss, s) <==> exists t :: t in ss && ToLower(t) == ToLower(s)
  {
    if t :| t in ss && ToLower(t) == ToLower(s) {
      var i :| 0 <= i < |ss| && ss[i] == t;
      assert EqualFold(ss[i], s);
    }
  }

  lemma MatchingLaw(servers: seq<Server>, f: Filter)
    ensures forall s :: s in Matching(servers, f) <==>
      && s in servers
      && (f.countries != [] ==> exists c :: c in f.countries && ToLower(c) == ToLower(s.country))
      && (f.cities != [] ==> exists c :: c in f.cities && ToLower(c) == ToLower(s.city))
      && (f.providers != [] ==> exists p :: p in f.providers && ToLower(p) == ToLower(s.provider))
      && (f.owned.Some? ==> s.owned == f.owned.value)
      && (f.minSpeed > 0 ==> s.speed >= f.minSpeed)
      && (f.multihop ==> s.multihop != 0)
      && (f.hostname != "" ==> ToLower(f.hostname) == ToLower(s.hostname))
  {
    KeepMembers(servers, (s: Server) => Matches(f, s));
    forall s { MatchesLaw(f, s); }
  }

  /** With only a speed asked for, the servers kept are those at least that fast. */
  lemma OnlySpeedLaw(servers: seq<Server>, n: int)
    requires n > 0
    ensures var f := Filter([], [], 0, None, [], n, false, "");
            forall s :: s in Matching(servers, f) <==> s in servers && s.speed >= n
  {
    MatchingLaw(servers, Filter([], [], 0, None, [], n, false, ""));
  }

  /** Asking for more speed never adds a server. */
  lemma FasterIsFewer(servers: seq<Server>, f: Filter, n: int)
    requires n >= f.minSpeed
    ensures forall s :: s in Matching(servers, f.(minSpeed := n)) ==> s in Matching(servers, f)
  {
    MatchingLaw(servers, f);
    MatchingLaw(servers, f.(minSpeed := n));
  }

  /**
  The servers kept are exactly those that meet every criterion, in their order
  (FilterIsSubsequence).
  */
  method FilterByFilter(servers: seq<Server>, filter: Filter) returns (filtered: seq<Server>)
    ensures filtered == Matching(servers, filter)
    ensures forall s :: s in filtered <==>
      && s in servers
      && (filter.countries != [] ==> exists c :: c in filter.countries && ToLower(c) == ToLower(s.country))
      && (filter.cities != [] ==> exists c :: c in filter.cities && ToLower(c) == ToLower(s.city))
      && (filter.providers != [] ==> exists p :: p in filter.providers && ToLower(p) == ToLower(s.provider))
      && (filter.owned.Some? ==> s.owned == filter.owned.value)
      && (filter.minSpeed > 0 ==> s.speed >= filter.minSpeed)
      && (filter.multihop ==> s.multihop != 0)
      && (filter.hostname != "" ==> ToLower(filter.hostname) == ToLower(s.hostname))
  {
    ghost var p := (s: Server) => Matches(filter, s);
    if IsEmpty(filter) {
      KeepAll(servers, p);
      MatchingLaw(servers, filter);
      return servers;
    }
    filtered := [];
    for i := 0 to |servers|
      invariant filtered == Keep(servers[..i], p)
    {
      KeepNext(servers, i, p);
      var s := servers[i];
      var country := StringInSlice(filter.countries, s.country);
      var city := StringInSlice(filter.cities, s.city);
      var provider := StringInSlice(filter.providers, s.provider);
      if |filter.countries| > 0 && !country {
        continue;
      }
      if |filter.cities| > 0 && !city {
        continue;
      }
      if filter.owned.Some? && s.owned != filter.owned.value {
        continue;
      }
      if |filter.providers| > 0 && !provider {
        continue;
      }
      if filter.minSpeed > 0 && s.speed < filter.minSpeed {
        continue;
      }
      if filter.multihop && s.multihop == 0 {
        continue;
      }
      if filter.hostname != "" && !EqualFold(filter.hostname, s.hostname) {
        continue;
      }
      filtered := filtered + [s];
    }
    assert servers[..|servers|] == servers;
    MatchingLaw(servers, filter);
  }

  /** The positions that a filter keeps. */
  function Positions<T>(s: seq<T>, p: T -> bool): seq<nat> {
    if s == [] then []
    else Positions(s[..|s| - 1], p) + if p(s[|s| - 1]) then [|s| - 1] else []
  }

  ghost predicate Ascend(at: seq<nat>, bound: nat) {
    && (forall i :: 0 <= i < |at| ==> at[i] < bound)
    && (forall i, j :: 0 <= i < j < |at| ==> at[i] < at[j])
  }

  lemma {:induction false} PositionsAscend<T>(s: seq<T>, p: T -> bool)
    ensures Ascend(Positions(s, p), |s|)
  {
    if s != [] {
      PositionsAscend(s[..|s| - 1], p);
    }
  }

  lemma {:induction false} PositionsMatch<T>(s: seq<T>, p: T -> bool, k: nat)
    requires k in Positions(s, p)
    ensures k < |s| && p(s[k])
  {
    if s != [] && k in Positions(s[..|s| - 1], p) {
      PositionsMatch(s[..|s| - 1], p, k);
    }
  }

  lemma {:induction false} PositionsAreAll<T>(s: seq<T>, p: T -> bool, k: nat)
    requires k < |s| && p(s[k])
    ensures k in Positions(s, p)
  {
    if k < |s| - 1 {
      PositionsAreAll(s[..|s| - 1], p, k);
    }
  }

  lemma {:induction false} KeepAtPositions<T>(s: seq<T>, p: T -> bool)
    ensures var at := Positions(s, p);
            |Keep(s, p)| == |at| && forall i {:trigger at[i]} :: 0 <= i < |at| ==> at[i] < |s| && Keep(s, p)[i] == s[at[i]]
  {
    if s != [] {
      KeepAtPositions(s[..|s| - 1], p);
    }
  }

  /**
  The filtered list is the subsequence of the servers at increasing positions, and these
  are exactly the positions of the servers that match.
  */
  lemma FilterIsSubsequence(servers: seq<Server>, f: Filter)
    ensures var at := Positions(servers, s => Matches(f, s));
            && |Matching(servers, f)| == |at|
            && Ascend(at, |servers|)
            && (forall i {:trigger at[i]} :: 0 <= i < |at| ==> Matching(servers, f)[i] == servers[at[i]])
            && (forall k: nat :: k in at <==> k < |servers| && Matches(f, servers[k]))
  {
    var p := (s: Server) => Matches(f, s);
    PositionsAscend(servers, p);
    KeepAtPositions(servers, p);
    forall k: nat ensures k in Positions(servers, p) <==> k < |servers| && Matches(f, servers[k]) {
      if k < |servers| && p(servers[k]) {
        PositionsAreAll(servers, p, k);
      }
      if k in Positions(servers, p) {
        PositionsMatch(servers, p, k);
      }
    }
  }

  lemma {:induction false} KeepMembers<T>(s: seq<T>, p: T -> bool)
    ensures forall x :: x in Keep(s, p) <==> x in s && p(x)
  {
    if s != [] {
      KeepMembers(s[..|s| - 1], p);
      assert s == s[..|s| - 1] + [s[|s| - 1]];
    }
  }

  // ---- Parsing and sorting the API answer ----

  function Active(relays: seq<Relay>): seq<Server> {
    if relays == [] then []
    else
      var r := relays[|relays| - 1];
      Active(relays[..|relays| - 1]) + if r.active then [r.server] else []
  }

  method ParseMullvadRelays(relays: seq<Relay>) returns (servers: seq<Server>)
    ensures servers == Active(relays)
  {
    servers := [];
    for i := 0 to |relays|
      invariant servers == Active(relays[..i])
    {
      assert relays[..i + 1][..i] == relays[..i];
      if !relays[i].active {
        continue;
      }
      servers := servers + [relays[i].server];
    }
    assert relays[..|relays|] == relays;
  }

  ghost predicate DistinctHostnames(m: multiset<Server>) {
    && (forall s :: m[s] <= 1)
    && (forall s, t :: s in m && t in m && s.hostname == t.hostname ==> s == t)
  }

  /** `list` is a possible outcome of sorting the active relays by hostname. */
  ghost predicate Listing(relays: seq<Relay>, list: seq<Server>) {
    && multiset(list) == multiset(Active(relays))
    && forall i, j :: 0 <= i < j < |list| ==> !Less(list[j].hostname, list[i].hostname)
  }

  ghost predicate Ascending(s: seq<Server>) {
    forall i, j :: 0 <= i < j < |s| ==> Less(s[i].hostname, s[j].hostname)
  }

  lemma CancelHead<T>(a: seq<T>, b: seq<T>)
    requires a != [] && b != [] && a[0] == b[0] && multiset(a) == multiset(b)
    ensures multiset(a[1..]) == multiset(b[1..])
  {
    assert a == [a[0]] + a[1..] && b == [b[0]] + b[1..];
    assert multiset(a[1..]) == multiset(a) - multiset{a[0]};
    assert multiset(b[1..]) == multiset(b) - multiset{b[0]};
  }

  lemma {:induction false} AscendingIsUnique(a: seq<Server>, b: seq<Server>)
    requires multiset(a) == multiset(b) && Ascending(a) && Ascending(b)
    ensures a == b
  {
    if a == [] {
      assert |multiset(a)| == |multiset(b)|;
    } else {
      assert a[0] in multiset(b) && b != [];
      assert b[0] in multiset(a);
      var j :| 0 <= j < |b| && b[j] == a[0];
      var i :| 0 <= i < |a| && a[i] == b[0];
      if Less(a[0].hostname, b[0].hostname) {
        LessIsAsymmetric(a[0].hostname, b[0].hostname);
      }
      assert i == 0 || j == 0;
      assert a[0] == b[0];
      CancelHead(a, b);
      AscendingIsUnique(a[1..], b[1..]);
    }
  }

  /** How often a server occurs among the active relays. */
  lemma {:induction false} ActiveCounts(relays: seq<Relay>, s: Server)
    ensures multiset(Active(relays))[s] == multiset(relays)[Relay(true, s)]
  {
    if relays != [] {
      var before, r := relays[..|relays| - 1], relays[|relays| - 1];
      ActiveCounts(before, s);
      assert relays == before + [r];
    }
  }

  lemma OccursTwice<T>(s: seq<T>, i: nat, j: nat)
    requires i < j < |s| && s[i] == s[j]
    ensures multiset(s)[s[i]] >= 2
  {
    assert s == s[..j] + [s[j]] + s[j + 1..];
    assert s[i] in s[..j];
  }

  lemma ListingAscends(relays: seq<Relay>, list: seq<Server>)
    requires Listing(relays, list) && DistinctHostnames(multiset(Active(relays)))
    ensures Ascending(list)
  {
    forall i, j | 0 <= i < j < |list| ensures Less(list[i].hostname, list[j].hostname) {
      if list[i].hostname == list[j].hostname {
        assert list[i] in multiset(list) && list[j] in multiset(list);
        OccursTwice(list, i, j);
      } else {
        LessIsTotal(list[i].hostname, list[j].hostname);
      }
    }
  }

  /**
  The sorted list does not depend on the order of the API answer nor on inactive relays:
  two answers with the same active relays, each as often, give one list.
  */
  lemma ListingIsCanonical(r1: seq<Relay>, r2: seq<Relay>, l1: seq<Server>, l2: seq<Server>)
    requires forall s :: multiset(r1)[Relay(true, s)] == multiset(r2)[Relay(true, s)]
    requires DistinctHostnames(multiset(Active(r1)))
    requires Listing(r1, l1) && Listing(r2, l2)
    ensures l1 == l2
  {
    forall s ensures multiset(Active(r1))[s] == multiset(Active(r2))[s] {
      ActiveCounts(r1, s);
      ActiveCounts(r2, s);
    }
    assert multiset(Active(r1)) == multiset(Active(r2));
    ListingAscends(r1, l1);
    ListingAscends(r2, l2);
    AscendingIsUnique(l1, l2);
  }
}
