/**
Relay selection: `GetFilteredServer` and `GetFilteredServerWithHealth` of
internal/mullvad/mullvad.go, `pickFallbackServer` and `resolveSOCKS5` of
internal/proxy/handler.go. The list fetch, the health records, the random numbers and the
seeded generator are parameters.
*/
module RelaySelection {
  import opened Wrappers
  import opened RelayList
  import ConnString

  datatype Failure =
    | InvalidHeader(error: ConnString.Error)
    | ListUnavailable
    | NoServersAvailable
    | NoServersMatch
    | NoHealthyServers

  /** What PeekHealth says of a relay: nothing, or whether it is online. */
  type Peek = string -> Option<bool>

  /** The index a generator seeded with the first argument draws below the second. */
  type Generator = (int, nat) -> nat

  /** A relay is taken to be online unless it is excluded or known to be offline. */
  predicate SeemsOnline(exclude: set<string>, peek: Option<Peek>, hostname: string) {
    hostname !in exclude && !KnownOffline(peek, hostname)
  }

  /** Without a stats store nothing is known. */
  predicate KnownOffline(peek: Option<Peek>, hostname: string) {
    peek.Some? && peek.value(hostname) == Some(false)
  }

  predicate Eligible(filter: Filter, exclude: set<string>, s: Server) {
    Matches(filter, s) && s.hostname !in exclude
  }

  function Pick(pool: seq<Server>, seed: int, roll: nat, pcg: Generator): Server
    requires pool != []
  {
    if seed != 0 then pool[pcg(seed, |pool|) % |pool|] else pool[roll % |pool|]
  }

  function Healthy(list: seq<Server>, filter: Filter, isOnline: string -> bool): seq<Server> {
    Keep(Matching(list, filter), (s: Server) => isOnline(s.hostname))
  }

  function OnlineTest(exclude: set<string>, peek: Option<Peek>): string -> bool {
    h => SeemsOnline(exclude, peek, h)
  }

  lemma HealthyMembers(list: seq<Server>, filter: Filter, isOnline: string -> bool)
    ensures forall s :: s in Healthy(list, filter, isOnline) <==>
              s in list && Matches(filter, s) && isOnline(s.hostname)
  {
    KeepMembers(list, (s: Server) => Matches(filter, s));
    KeepMembers(Matching(list, filter), (s: Server) => isOnline(s.hostname));
  }

  method GetFilteredServer(list: Option<seq<Server>>, filter: Filter, roll: nat, pcg: Generator)
    returns (r: Result<Server, Failure>)
    ensures r.Ok? <==> list.Some? && exists s :: s in list.value && Matches(filter, s)
    ensures r.Ok? ==> r.value in list.value && Matches(filter, r.value)
    ensures r.Ok? <==> list.Some? && Matching(list.value, filter) != []
    ensures r.Ok? ==> var pool := Matching(list.value, filter);
            r.value == if filter.seed != 0 then pool[pcg(filter.seed, |pool|) % |pool|] else pool[roll % |pool|]
    ensures r.Err? ==> r.error == if list.None? then ListUnavailable
                                  else if list.value == [] then NoServersAvailable else NoServersMatch
  {
    if list.None? {
      return Err(ListUnavailable);
    }
    KeepMembers(list.value, (s: Server) => Matches(filter, s));
    if |list.value| == 0 {
      return Err(NoServersAvailable);
    }
    var filtered := FilterByFilter(list.value, filter);
    if |filtered| == 0 {
      return Err(NoServersMatch);
    }
    var index := roll % |filtered|;
    if filter.seed != 0 {
      index := pcg(filter.seed, |filtered|) % |filtered|;
    }
    assert filtered[index] in filtered;
    return Ok(filtered[index]);
  }

  method GetFilteredServerWithHealth(
    list: Option<seq<Server>>, filter: Filter, isOnline: string -> bool, roll: nat, pcg: Generator)
    returns (r: Result<Server, Failure>)
    ensures r.Ok? <==>
            list.Some? && exists s :: s in list.value && Matches(filter, s) && isOnline(s.hostname)
    ensures r.Ok? ==> r.value in list.value && Matches(filter, r.value) && isOnline(r.value.hostname)
    ensures r.Ok? <==> list.Some? && Healthy(list.value, filter, isOnline) != []
    ensures r.Ok? ==> var pool := Healthy(list.value, filter, isOnline);
            r.value == if filter.seed != 0 then pool[pcg(filter.seed, |pool|) % |pool|] else pool[roll % |pool|]
    ensures r.Err? ==> r.error == if list.None? then ListUnavailable
                                  else if list.value == [] then NoServersAvailable
                                  else if Matching(list.value, filter) == [] then NoServersMatch else NoHealthyServers
  {
    if list.None? {
      return Err(ListUnavailable);
    }
    HealthyMembers(list.value, filter, isOnline);
    KeepMembers(list.value, (s: Server) => Matches(filter, s));
    if |list.value| == 0 {
      return Err(NoServersAvailable);
    }
    var filtered := FilterByFilter(list.value, filter);
    if |filtered| == 0 {
      return Err(NoServersMatch);
    }
    var healthy := [];
    ghost var p := (s: Server) => isOnline(s.hostname);
    for i := 0 to |filtered|
      invariant healthy == Keep(filtered[..i], p)
    {
      KeepNext(filtered, i, p);
      if isOnline(filtered[i].hostname) {
        healthy := healthy + [filtered[i]];
      }
    }
    assert filtered[..|filtered|] == filtered;
    if |healthy| == 0 {
      return Err(NoHealthyServers);
    }
    var index := roll % |healthy|;
    if filter.seed != 0 {
      index := pcg(filter.seed, |healthy|) % |healthy|;
    }
    assert healthy[index] in healthy;
    return Ok(healthy[index]);
  }

  /** The eligible relays not known to be offline, or all eligible ones if there are none. */
  function FallbackPool(list: seq<Server>, filter: Filter, exclude: set<string>, peek: Option<Peek>): seq<Server> {
    var servers := Matching(list, filter);
    var preferred := Keep(servers, Preferred(exclude, peek));
    if preferred != [] then preferred else Keep(servers, Dead(exclude, peek))
  }

  function Preferred(exclude: set<string>, peek: Option<Peek>): Server -> bool {
    (s: Server) => s.hostname !in exclude && !KnownOffline(peek, s.hostname)
  }

  function Dead(exclude: set<string>, peek: Option<Peek>): Server -> bool {
    (s: Server) => s.hostname !in exclude && KnownOffline(peek, s.hostname)
  }

  function Fallback(list: Option<seq<Server>>, filter: Filter, exclude: set<string>, peek: Option<Peek>, roll: nat): Result<Server, Failure> {
    if list.None? then Err(ListUnavailable)
    else
      var pool := FallbackPool(list.value, filter, exclude, peek);
      if pool == [] then Err(NoServersMatch) else Ok(pool[roll % |pool|])
  }

  lemma PoolMembers(list: seq<Server>, filter: Filter, exclude: set<string>, peek: Option<Peek>)
    ensures var pool := FallbackPool(list, filter, exclude, peek);
      && (forall s :: s in pool ==> s in list && Eligible(filter, exclude, s))
      && (forall s, t :: s in pool && KnownOffline(peek, s.hostname) && t in list && Eligible(filter, exclude, t) ==>
            KnownOffline(peek, t.hostname))
      && (forall s :: s in list && Eligible(filter, exclude, s) ==> pool != [])
  {
    var servers := Matching(list, filter);
    KeepMembers(list, (s: Server) => Matches(filter, s));
    KeepMembers(servers, Preferred(exclude, peek));
    KeepMembers(servers, Dead(exclude, peek));
    forall s | s in list && Eligible(filter, exclude, s) ensures FallbackPool(list, filter, exclude, peek) != [] {
      assert s in Keep(servers, Preferred(exclude, peek)) || s in Keep(servers, Dead(exclude, peek));
    }
  }

  /** What the fallback promises: an eligible relay, a dead one only if all eligible ones are dead. */
  lemma FallbackIsEligible(list: Option<seq<Server>>, filter: Filter, exclude: set<string>, peek: Option<Peek>, roll: nat)
    ensures var r := Fallback(list, filter, exclude, peek, roll);
      && (r.Ok? <==> list.Some? && exists s :: s in list.value && Eligible(filter, exclude, s))
      && (r.Ok? ==> r.value in list.value && Eligible(filter, exclude, r.value))
      && (r.Ok? && KnownOffline(peek, r.value.hostname) ==>
            forall s :: s in list.value && Eligible(filter, exclude, s) ==> KnownOffline(peek, s.hostname))
  {
    if list.Some? {
      var pool := FallbackPool(list.value, filter, exclude, peek);
      PoolMembers(list.value, filter, exclude, peek);
      assert pool != [] ==> pool[roll % |pool|] in pool;
    }
  }

  /** The loop of pickFallbackServer. */
  method SplitByHealth(servers: seq<Server>, exclude: set<string>, peek: Option<Peek>)
    returns (preferred: seq<Server>, dead: seq<Server>)
    ensures preferred == Keep(servers, Preferred(exclude, peek)) && dead == Keep(servers, Dead(exclude, peek))
  {
    preferred, dead := [], [];
    ghost var p, q := Preferred(exclude, peek), Dead(exclude, peek);
    for i := 0 to |servers|
      invariant preferred == Keep(servers[..i], p) && dead == Keep(servers[..i], q)
    {
      var s := servers[i];
      KeepNext(servers, i, p);
      KeepNext(servers, i, q);
      if s.hostname in exclude {
        continue;
      }
      if peek.None? {
        preferred := preferred + [s];
        continue;
      }
      var online := peek.value(s.hostname);
      if online.None? || online.value {
        preferred := preferred + [s];
      } else {
        dead := dead + [s];
      }
    }
    assert servers[..|servers|] == servers;
  }

  /** A random eligible relay; one known to be offline only if all eligible ones are. */
  method PickFallbackServer(
    list: Option<seq<Server>>, filter: Filter, exclude: set<string>, peek: Option<Peek>, roll: nat)
    returns (r: Result<Server, Failure>)
    ensures r == Fallback(list, filter, exclude, peek, roll)
    ensures r.Ok? <==> list.Some? && exists s :: s in list.value && Eligible(filter, exclude, s)
    ensures r.Ok? ==> r.value in list.value && Eligible(filter, exclude, r.value)
    ensures r.Ok? && KnownOffline(peek, r.value.hostname) ==>
            forall s :: s in list.value && Eligible(filter, exclude, s) ==> KnownOffline(peek, s.hostname)
  {
    FallbackIsEligible(list, filter, exclude, peek, roll);
    if list.None? {
      return Err(ListUnavailable);
    }
    var servers := FilterByFilter(list.value, filter);
    var preferred, dead := SplitByHealth(servers, exclude, peek);
    var pool := preferred;
    if |pool| == 0 {
      pool := dead;
    }
    if |pool| == 0 {
      return Err(NoServersMatch);
    }
    return Ok(pool[roll % |pool|]);
  }

  /** One call reads the list and the health records twice, and may see two states. */
  datatype World = World(
    fetch1: Option<seq<Server>>, peek1: Option<Peek>, roll1: nat,
    fetch2: Option<seq<Server>>, peek2: Option<Peek>, roll2: nat,
    pcg: Generator)

  /** The base filter with the connection string of the request, if any, applied to it. */
  function RequestFilter(base: Filter, header: Option<string>): Result<Filter, ConnString.Error> {
    if header.None? then Ok(base)
    else
      match ConnString.ParseString(header.value)
      case Err(e) => Err(e)
      case Ok(auth) => Ok(ConnString.Applied(base, auth))
  }

  ghost predicate Suits(filter: Filter, exclude: set<string>, w: World, r: Result<Server, Failure>) {
    && (r.Ok? <==>
         || (w.fetch1.Some? && exists s :: s in w.fetch1.value && Matches(filter, s) &&
                                 SeemsOnline(exclude, w.peek1, s.hostname))
         || (w.fetch2.Some? && exists s :: s in w.fetch2.value && Eligible(filter, exclude, s)))
    && (r.Ok? ==> Eligible(filter, exclude, r.value))
    && (r.Ok? ==>
         || (w.fetch1.Some? && r.value in w.fetch1.value && !KnownOffline(w.peek1, r.value.hostname))
         || (w.fetch2.Some? && r.value in w.fetch2.value &&
              (KnownOffline(w.peek2, r.value.hostname) ==>
                 forall s :: s in w.fetch2.value && Eligible(filter, exclude, s) ==>
                   KnownOffline(w.peek2, s.hostname))))
  }

  /** The relays that the first scan can choose from. */
  function FirstScan(filter: Filter, exclude: set<string>, w: World): seq<Server> {
    if w.fetch1.None? then [] else Healthy(w.fetch1.value, filter, OnlineTest(exclude, w.peek1))
  }

  /** What the first scan accepts: a match neither excluded nor, where health is known, offline. */
  lemma FirstScanLaw(filter: Filter, exclude: set<string>, w: World)
    ensures forall s :: s in FirstScan(filter, exclude, w) <==>
      && w.fetch1.Some? && s in Matching(w.fetch1.value, filter)
      && s.hostname !in exclude
      && (w.peek1.Some? ==> w.peek1.value(s.hostname) != Some(false))
  {
    if w.fetch1.Some? {
      HealthyMembers(w.fetch1.value, filter, OnlineTest(exclude, w.peek1));
      KeepMembers(w.fetch1.value, (s: Server) => Matches(filter, s));
    }
  }

  /** The fallback takes matches not excluded, those known to be offline only if all of them are. */
  lemma FallbackLaw(list: seq<Server>, filter: Filter, exclude: set<string>, peek: Peek)
    ensures forall s :: s in FallbackPool(list, filter, exclude, Some(peek)) <==>
      && s in Matching(list, filter) && s.hostname !in exclude
      && (peek(s.hostname) == Some(false) ==>
            forall t :: t in Matching(list, filter) && t.hostname !in exclude ==> peek(t.hostname) == Some(false))
    ensures forall s :: s in FallbackPool(list, filter, exclude, None) <==>
      s in Matching(list, filter) && s.hostname !in exclude
  {
    var servers := Matching(list, filter);
    KeepMembers(servers, Preferred(exclude, Some(peek)));
    KeepMembers(servers, Dead(exclude, Some(peek)));
    KeepMembers(servers, Preferred(exclude, None));
    KeepMembers(servers, Dead(exclude, None));
    var preferred := Keep(servers, Preferred(exclude, Some(peek)));
    assert preferred != [] ==> preferred[0] in preferred;
    KeepNone(servers, Dead(exclude, None));
  }

  /** The first scan decides whenever it finds a relay; only otherwise the fallback, which has no seed. */
  function Resolved(filter: Filter, exclude: set<string>, w: World): Result<Server, Failure> {
    var healthy := FirstScan(filter, exclude, w);
    if healthy != [] then Ok(Pick(healthy, filter.seed, w.roll1, w.pcg))
    else Fallback(w.fetch2, filter, exclude, w.peek2, w.roll2)
  }

  /**
  resolveSOCKS5. The relay chosen matches the filter and is not excluded; the choice fails
  exactly when the header is invalid or no scan finds an eligible relay; a relay known to be
  offline is chosen only when the fallback scan saw every eligible relay known to be offline.
  */
  method ResolveSOCKS5(base: Filter, header: Option<string>, exclude: set<string>, w: World)
    returns (r: Result<Server, Failure>)
    ensures match RequestFilter(base, header)
            case Err(e) => r == Err(InvalidHeader(e))
            case Ok(filter) => r == Resolved(filter, exclude, w) && Suits(filter, exclude, w, r)
  {
    var filter := base;
    if header.Some? {
      var auth := ConnString.ParseProxyAuth(header.value);
      match auth
      case Err(e) => return Err(InvalidHeader(e));
      case Ok(a) => filter := ConnString.ApplyTo(a, filter);
    }
    r := GetFilteredServerWithHealth(w.fetch1, filter, OnlineTest(exclude, w.peek1), w.roll1, w.pcg);
    if r.Err? {
      r := PickFallbackServer(w.fetch2, filter, exclude, w.peek2, w.roll2);
    }
  }

  /** When both reads see one list, the choice fails exactly if all matches are excluded. */
  method ResolveFromOneList(base: Filter, header: Option<string>, exclude: set<string>, w: World, list: seq<Server>)
    returns (r: Result<Server, Failure>)
    requires w.fetch1 == w.fetch2 == Some(list) && RequestFilter(base, header).Ok?
    ensures r.Err? <==> forall s :: s in list && Matches(RequestFilter(base, header).value, s) ==> s.hostname in exclude
  {
    r := ResolveSOCKS5(base, header, exclude, w);
  }

  /**
  A seeded choice does not depend on the order of the API answer, on inactive relays, nor
  on the random numbers.
  */
  lemma SeededChoiceIsCanonical(
    r1: seq<Relay>, r2: seq<Relay>, l1: seq<Server>, l2: seq<Server>,
    filter: Filter, isOnline: string -> bool, roll1: nat, roll2: nat, pcg: Generator)
    requires forall s :: multiset(r1)[Relay(true, s)] == multiset(r2)[Relay(true, s)]
    requires DistinctHostnames(multiset(Active(r1))) && Listing(r1, l1) && Listing(r2, l2)
    requires filter.seed != 0
    ensures Matching(l1, filter) == Matching(l2, filter)
    ensures Healthy(l1, filter, isOnline) == Healthy(l2, filter, isOnline)
    ensures Matching(l1, filter) != [] ==>
            Pick(Matching(l1, filter), filter.seed, roll1, pcg) == Pick(Matching(l2, filter), filter.seed, roll2, pcg)
    ensures Healthy(l1, filter, isOnline) != [] ==>
            Pick(Healthy(l1, filter, isOnline), filter.seed, roll1, pcg) ==
            Pick(Healthy(l2, filter, isOnline), filter.seed, roll2, pcg)
  {
    ListingIsCanonical(r1, r2, l1, l2);
  }

  // ---- How far a seed determines the relay of a request ----

  /** What the API answered, if it did, when the list was fetched. */
  type Answer = Option<seq<Relay>>

  ghost predicate FetchedFrom(list: Option<seq<Server>>, answer: Answer) {
    match answer
    case None => list == None
    case Some(relays) => list.Some? && Listing(relays, list.value) && DistinctHostnames(multiset(Active(relays)))
  }

  ghost predicate SameActive(a: Answer, b: Answer) {
    match a
    case None => b == None
    case Some(relays) => b.Some? && forall s :: multiset(relays)[Relay(true, s)] == multiset(b.value)[Relay(true, s)]
  }

  /** Two worlds that differ in rolls, in the order of the answers and in inactive relays only. */
  ghost predicate Alike(w: World, a1: Answer, a2: Answer, w': World, b1: Answer, b2: Answer) {
    && FetchedFrom(w.fetch1, a1) && FetchedFrom(w.fetch2, a2)
    && FetchedFrom(w'.fetch1, b1) && FetchedFrom(w'.fetch2, b2)
    && SameActive(a1, b1) && SameActive(a2, b2)
    && w'.peek1 == w.peek1 && w'.peek2 == w.peek2 && w'.pcg == w.pcg
  }

  lemma SameList(l: Option<seq<Server>>, a: Answer, m: Option<seq<Server>>, b: Answer)
    requires FetchedFrom(l, a) && FetchedFrom(m, b) && SameActive(a, b)
    ensures l == m
  {
    if a.Some? {
      ListingIsCanonical(a.value, b.value, l.value, m.value);
    }
  }

  ghost predicate NoTwins(s: seq<Server>) {
    forall i, j :: 0 <= i < j < |s| ==> s[i] != s[j]
  }

  lemma {:induction false} KeepNoTwins(s: seq<Server>, p: Server -> bool)
    requires NoTwins(s)
    ensures NoTwins(Keep(s, p))
  {
    if s != [] {
      KeepNoTwins(s[..|s| - 1], p);
      KeepMembers(s[..|s| - 1], p);
    }
  }

  lemma PoolNoTwins(list: seq<Server>, a: Answer, filter: Filter, exclude: set<string>, peek: Option<Peek>)
    requires FetchedFrom(Some(list), a)
    ensures NoTwins(FallbackPool(list, filter, exclude, peek))
  {
    ListingAscends(a.value, list);
    forall i, j | 0 <= i < j < |list| ensures list[i] != list[j] {
      LessIsIrreflexive(list[i].hostname);
    }
    KeepNoTwins(list, (s: Server) => Matches(filter, s));
    KeepNoTwins(Matching(list, filter), Preferred(exclude, peek));
    KeepNoTwins(Matching(list, filter), Dead(exclude, peek));
  }

  lemma LessIsIrreflexive(h: string)
    ensures !Text.Less(h, h)
  {
    if Text.Less(h, h) {
      Text.LessIsAsymmetric(h, h);
    }
  }

  /** The relays that the fallback chooses from, if the first scan leaves the choice to it. */
  function Undecided(filter: Filter, exclude: set<string>, w: World): seq<Server> {
    if FirstScan(filter, exclude, w) != [] || w.fetch2.None? then []
    else FallbackPool(w.fetch2.value, filter, exclude, w.peek2)
  }

  /** One relay, whatever the random numbers, the order of the answers and the inactive relays. */
  ghost predicate Determined(filter: Filter, exclude: set<string>, w: World, a1: Answer, a2: Answer) {
    forall w', b1, b2 :: Alike(w, a1, a2, w', b1, b2) ==>
      Resolved(filter, exclude, w') == Resolved(filter, exclude, w)
  }

  /** The worlds agree on everything but the rolls. */
  ghost predicate Reroll(w: World, w': World) {
    w' == w.(roll1 := w'.roll1, roll2 := w'.roll2)
  }

  lemma AlikeIsReroll(w: World, a1: Answer, a2: Answer, w': World, b1: Answer, b2: Answer)
    requires Alike(w, a1, a2, w', b1, b2)
    ensures Reroll(w, w')
  {
    SameList(w.fetch1, a1, w'.fetch1, b1);
    SameList(w.fetch2, a2, w'.fetch2, b2);
  }

  lemma RerollIsAlike(w: World, a1: Answer, a2: Answer, w': World)
    requires FetchedFrom(w.fetch1, a1) && FetchedFrom(w.fetch2, a2) && Reroll(w, w')
    ensures Alike(w, a1, a2, w', a1, a2)
  {
  }

  lemma RerollResolvesAlike(filter: Filter, exclude: set<string>, w: World, w': World)
    requires filter.seed != 0 && |Undecided(filter, exclude, w)| <= 1 && Reroll(w, w')
    ensures Resolved(filter, exclude, w') == Resolved(filter, exclude, w)
  {
  }

  lemma TwoRollsDiffer(filter: Filter, exclude: set<string>, w: World) returns (w': World)
    requires |Undecided(filter, exclude, w)| > 1 && NoTwins(Undecided(filter, exclude, w))
    ensures Reroll(w, w') && Resolved(filter, exclude, w') != Resolved(filter, exclude, w)
  {
    var roll := OtherRoll(Undecided(filter, exclude, w), w.roll2);
    w' := w.(roll2 := roll);
  }

  lemma OtherRoll(pool: seq<Server>, roll: nat) returns (roll': nat)
    requires |pool| > 1 && NoTwins(pool)
    ensures pool[roll' % |pool|] != pool[roll % |pool|]
  {
    roll' := if roll % |pool| == 0 then 1 else 0;
    SmallMod(roll', |pool|);
  }

  lemma SmallMod(k: nat, n: nat)
    requires k < n
    ensures k % n == k
  {
  }

  /**
  A non-zero seed determines the relay of a request exactly if the first scan finds a relay
  or the fallback has at most one to choose from.
  */
  lemma SeededResolutionIff(filter: Filter, exclude: set<string>, w: World, a1: Answer, a2: Answer)
    requires filter.seed != 0 && FetchedFrom(w.fetch1, a1) && FetchedFrom(w.fetch2, a2)
    ensures Determined(filter, exclude, w, a1, a2) <==> |Undecided(filter, exclude, w)| <= 1
  {
    if |Undecided(filter, exclude, w)| <= 1 {
      forall w', b1, b2 | Alike(w, a1, a2, w', b1, b2)
        ensures Resolved(filter, exclude, w') == Resolved(filter, exclude, w)
      {
        AlikeIsReroll(w, a1, a2, w', b1, b2);
        RerollResolvesAlike(filter, exclude, w, w');
      }
    } else {
      PoolNoTwins(w.fetch2.value, a2, filter, exclude, w.peek2);
      var w' := TwoRollsDiffer(filter, exclude, w);
      RerollIsAlike(w, a1, a2, w');
    }
  }

  function AllOffline(): Option<Peek> {
    Some((_: string) => Some(false))
  }

  lemma OnlyDeadMatches(filter: Filter, list: seq<Server>, w: World)
    requires forall i :: 0 <= i < |list| ==> Matches(filter, list[i])
    requires w.fetch1 == w.fetch2 == Some(list) && w.peek1 == w.peek2 == AllOffline()
    ensures FirstScan(filter, {}, w) == [] && FallbackPool(list, filter, {}, w.peek2) == list
  {
    var first := FirstScan(filter, {}, w);
    assert first == [] || first[0] in first;
    KeepAll(list, (s: Server) => Matches(filter, s));
    HealthyMembers(list, filter, OnlineTest({}, w.peek1));
    KeepNone(list, Preferred({}, w.peek2));
    KeepAll(list, Dead({}, w.peek2));
  }

  /** With two matches known to be offline, two rolls choose two relays, whatever the seed. */
  lemma FallbackIgnoresSeed(filter: Filter, a: Server, b: Server, pcg: Generator)
    requires Matches(filter, a) && Matches(filter, b)
    ensures var w := World(Some([a, b]), AllOffline(), 0, Some([a, b]), AllOffline(), 0, pcg);
            Resolved(filter, {}, w) == Ok(a) && Resolved(filter, {}, w.(roll2 := 1)) == Ok(b)
  {
    var w := World(Some([a, b]), AllOffline(), 0, Some([a, b]), AllOffline(), 0, pcg);
    OnlyDeadMatches(filter, [a, b], w);
    OnlyDeadMatches(filter, [a, b], w.(roll2 := 1));
  }

  lemma {:induction false} KeepNone<T>(s: seq<T>, p: T -> bool)
    requires forall i :: 0 <= i < |s| ==> !p(s[i])
    ensures Keep(s, p) == []
  {
    if s != [] {
      KeepNone(s[..|s| - 1], p);
    }
  }
}
