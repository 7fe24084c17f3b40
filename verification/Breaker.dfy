/**
The circuit breaker end to end: a CONNECT that fails on a relay strikes it (handleConnect,
internal/proxy/handler.go), the strike changes its record (`RecordRemoteFailure`,
internal/stats/types.go), `PeekHealth` shows the record, and relay selection avoids it.
*/
module Breaker {
  import opened Wrappers
  import RelayList
  import RelaySelection
  import RelayStore
  import Retry

  type View = map<string, RelayStore.Record>

  /** What resolveSOCKS5 sees of a store: PeekHealth, reduced to online or not. */
  function StatusIn(view: View): RelaySelection.Peek {
    id => match RelayStore.Peek(view, id) case None => None case Some(h) => Some(h.online)
  }

  /** A CONNECT that fails on relay r, with an error that the relay is blamed for. */
  ghost predicate FailsOn(env: Retry.ConnectEnv, first: string, r: string) {
    && env.hasStats && r != ""
    && exists t :: t in Retry.Deserved(env, first).tries && t.relay == r && t.error.Some? &&
         (t.error.value.netError || t.error.value.eof || t.error.value.contextDone)
  }

  function After(view: View, env: Retry.ConnectEnv, first: string, now: nat): View {
    Retry.StrikeAll(view, Retry.Deserved(env, first).strikes, now)
  }

  /** The failures of a relay, 0 for one without a record. */
  function Failures(view: View, r: string): nat {
    if r in view then view[r].health.failures else 0
  }

  /** What one CONNECT that fails on r does to it: one more failure, visible at once. */
  lemma FailedConnectShows(view: View, env: Retry.ConnectEnv, first: string, r: string, now: nat)
    requires Retry.Honest(env) && first != "" && FailsOn(env, first, r) && now > 0
    ensures var view' := After(view, env, first, now);
            var h := RelayStore.Peek(view', r);
            h.Some? && h.value.failures == Failures(view, r) + 1 == Failures(view', r) && h.value.successes == 0 &&
            (h.value.online <==> h.value.failures < 2)
  {
    var strikes := Retry.Deserved(env, first).strikes;
    Retry.StrikesLaw(env, first, r);
    Retry.EveryConnectFinishes(env, first);
    Retry.BlamedWereTried(Retry.Deserved(env, first).tries);
    Retry.EachStrikeOnce(view, strikes, now, r);
    StruckIsRecorded(view, strikes, now, r);
  }

  lemma {:induction false} StruckIsRecorded(view: View, strikes: seq<string>, now: nat, r: string)
    requires r in strikes && r != ""
    ensures r in Retry.StrikeAll(view, strikes, now)
  {
    var init, last := strikes[..|strikes| - 1], strikes[|strikes| - 1];
    assert strikes == init + [last];
    if r != last {
      StruckIsRecorded(view, init, now, r);
    }
  }

  /** Every other relay is left alone by a CONNECT that does not fail on it. */
  lemma OthersAreLeftAlone(view: View, env: Retry.ConnectEnv, first: string, r: string, now: nat)
    requires Retry.Honest(env) && first != "" && r != "" && !FailsOn(env, first, r)
    ensures RelayStore.RecordOf(After(view, env, first, now), r, now).health == RelayStore.RecordOf(view, r, now).health
  {
    Retry.StrikesLaw(env, first, r);
    Retry.EveryConnectFinishes(env, first);
    Retry.BlamedWereTried(Retry.Deserved(env, first).tries);
    Retry.EachStrikeOnce(view, Retry.Deserved(env, first).strikes, now, r);
  }

  /**
  Two CONNECTs that fail on one relay take it offline, whatever was known of it before, and
  the first scan of no selection that sees the store then chooses it.
  */
  lemma TwoFailedConnectsTrip(
    view: View, env1: Retry.ConnectEnv, first1: string, now1: nat, env2: Retry.ConnectEnv, first2: string, now2: nat,
    r: string, filter: RelayList.Filter, exclude: set<string>, w: RelaySelection.World)
    requires Retry.Honest(env1) && first1 != "" && FailsOn(env1, first1, r) && now1 > 0
    requires Retry.Honest(env2) && first2 != "" && FailsOn(env2, first2, r) && now2 > 0
    ensures var view' := After(After(view, env1, first1, now1), env2, first2, now2);
      && RelayStore.Peek(view', r).Some? && !RelayStore.Peek(view', r).value.online
      && (w.peek1 == Some(StatusIn(view')) ==> forall s :: s in RelaySelection.FirstScan(filter, exclude, w) ==> s.hostname != r)
  {
    FailedConnectShows(view, env1, first1, r, now1);
    FailedConnectShows(After(view, env1, first1, now1), env2, first2, r, now2);
    RelaySelection.FirstScanLaw(filter, exclude, w);
  }

  /** A request that sees the store after two strikes on a relay gets it only when the first scan finds nobody. */
  method ResolveAfterTwoStrikes(
    base: RelayList.Filter, header: Option<string>, exclude: set<string>, w: RelaySelection.World,
    ghost view: View, ghost r: string, ghost now1: nat, ghost now2: nat)
    returns (res: Result<RelayList.Server, RelaySelection.Failure>)
    requires r != "" && now1 > 0 && now2 > 0
    requires w.peek1 == Some(StatusIn(RelayStore.Strike(RelayStore.Strike(view, r, 2, now1), r, 2, now2)))
    ensures res.Ok? && res.value.hostname == r ==>
              var filter := RelaySelection.RequestFilter(base, header);
              filter.Ok? && RelaySelection.FirstScan(filter.value, exclude, w) == []
  {
    RelayStore.TwoStrikesShow(view, r, now1, now2);
    res := RelaySelection.ResolveSOCKS5(base, header, exclude, w);
    ghost var filter := RelaySelection.RequestFilter(base, header);
    if filter.Ok? {
      RelaySelection.FirstScanLaw(filter.value, exclude, w);
    }
  }
}
