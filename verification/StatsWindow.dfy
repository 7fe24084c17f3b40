/**
The rate window of internal/stats/stats.go: `updateWindow` turns the growing totals of
successive scans into smoothed per-tick rates through ring buffers, and `getWindow` reads
the window out oldest first. The ring buffers are related to the history of all scans.
Rates are real numbers.
*/
module StatsWindow {
  import RelayStore

  type AggregatedStats = RelayStore.AggregatedStats

  const WINDOW_SIZE := 120
  const SMA_PERIOD := 5

  datatype WindowStat = WindowStat(
    requests: real, bytesSent: real, bytesRecv: real, errors: real,
    activeRemotes: nat, totalRemotes: nat)

  const EMPTY := WindowStat(0.0, 0.0, 0.0, 0.0, 0, 0)

  // ---- One counter: its totals at successive ticks, and the smoothing buffer ----

  /** The total after t ticks; before the first tick it was 0. */
  function Total(h: seq<nat>, t: nat): nat
    requires t <= |h|
  {
    if t == 0 then 0 else h[t - 1]
  }

  function Min(a: nat, b: nat): nat {
    if a < b then a else b
  }

  /** The closed form: the growth over the last k = min(5, t) ticks, per tick. */
  function Rate(h: seq<nat>, t: nat): real
    requires 0 < t <= |h|
  {
    var k := Min(SMA_PERIOD, t);
    (Total(h, t) as int - Total(h, t - k) as int) as real / k as real
  }

  function Growth(h: seq<nat>, t: nat): real
    requires t < |h|
  {
    (Total(h, t + 1) as int - Total(h, t) as int) as real
  }

  function SumOf(s: seq<real>): real {
    if s == [] then 0.0 else SumOf(s[..|s| - 1]) + s[|s| - 1]
  }

  /** The buffer holds the growth of each of the last 5 ticks, and these telescope. */
  ghost predicate Smoothing(buf: seq<real>, h: seq<nat>) {
    var k := Min(SMA_PERIOD, |h|);
    && |buf| == SMA_PERIOD
    && (forall t {:trigger Growth(h, t)} :: |h| - k <= t < |h| ==> buf[t % SMA_PERIOD] == Growth(h, t))
    && SumOf(buf[..k]) == (Total(h, |h|) as int - Total(h, |h| - k) as int) as real
  }

  lemma {:induction false} SumUpdate(s: seq<real>, i: nat, x: real)
    requires i < |s|
    ensures SumOf(s[i := x]) == SumOf(s) - s[i] + x
  {
    var n := |s| - 1;
    if i == n {
      assert s[i := x][..n] == s[..n];
    } else {
      assert s[i := x][..n] == s[..n][i := x];
      SumUpdate(s[..n], i, x);
    }
  }

  lemma GrowthPrefix(h: seq<nat>, x: nat, t: nat)
    requires t < |h|
    ensures Growth(h + [x], t) == Growth(h, t)
  {
  }

  lemma OtherSlot(t: nat, n: nat)
    requires t < n < t + SMA_PERIOD
    ensures t % SMA_PERIOD != n % SMA_PERIOD
  {
  }

  lemma SumStep(buf: seq<real>, h: seq<nat>, d: real)
    requires Smoothing(buf, h)
    ensures var k, k' := Min(SMA_PERIOD, |h|), Min(SMA_PERIOD, |h| + 1);
            SumOf(buf[|h| % SMA_PERIOD := d][..k']) ==
            SumOf(buf[..k]) + d - if |h| < SMA_PERIOD then 0.0 else Growth(h, |h| - SMA_PERIOD)
  {
    var n := |h|;
    var buf' := buf[n % SMA_PERIOD := d];
    if n < SMA_PERIOD {
      assert buf'[..n + 1][..n] == buf[..n];
    } else {
      SumUpdate(buf, n % SMA_PERIOD, d);
      assert buf[(n - SMA_PERIOD) % SMA_PERIOD] == Growth(h, n - SMA_PERIOD);
      assert buf[..SMA_PERIOD] == buf && buf'[..SMA_PERIOD] == buf';
    }
  }

  /** Overwriting the oldest slot with the newest growth keeps the buffer smoothing. */
  lemma SmoothingStep(buf: seq<real>, h: seq<nat>, x: nat)
    requires Smoothing(buf, h)
    ensures Smoothing(buf[|h| % SMA_PERIOD := (x as int - Total(h, |h|) as int) as real], h + [x])
  {
    var n, h' := |h|, h + [x];
    var d := (x as int - Total(h, n) as int) as real;
    var buf' := buf[n % SMA_PERIOD := d];
    var k, k' := Min(SMA_PERIOD, n), Min(SMA_PERIOD, n + 1);
    forall t {:trigger Growth(h', t)} | n + 1 - k' <= t < n + 1
      ensures buf'[t % SMA_PERIOD] == Growth(h', t)
    {
      if t < n {
        GrowthPrefix(h, x, t);
        OtherSlot(t, n);
      }
    }
    SumStep(buf, h, d);
  }

  // ---- The window ----

  ghost function Series(scans: seq<AggregatedStats>, get: AggregatedStats -> nat): seq<nat> {
    seq(|scans|, i requires 0 <= i < |scans| => get(scans[i]))
  }

  function Requests(a: AggregatedStats): nat { a.totalRequests }

  function Sent(a: AggregatedStats): nat { a.totalBytesSent }

  function Recv(a: AggregatedStats): nat { a.totalBytesRecv }

  function Errors(a: AggregatedStats): nat { a.totalErrors }

  /** What the window shows for the tick that saw scans[t]. */
  ghost function Stat(scans: seq<AggregatedStats>, t: nat): WindowStat
    requires t < |scans|
  {
    WindowStat(
      Rate(Series(scans, Requests), t + 1), Rate(Series(scans, Sent), t + 1),
      Rate(Series(scans, Recv), t + 1), Rate(Series(scans, Errors), t + 1),
      scans[t].activeRemotes, scans[t].totalRemotes)
  }

  ghost predicate Windowed(window: seq<WindowStat>, scans: seq<AggregatedStats>) {
    && |window| == WINDOW_SIZE
    && (forall t {:trigger Stat(scans, t)} ::
          0 <= t < |scans| && t >= |scans| - WINDOW_SIZE ==> window[t % WINDOW_SIZE] == Stat(scans, t))
    && (forall j :: |scans| <= j < WINDOW_SIZE ==> window[j] == EMPTY)
  }

  lemma SeriesAppend(scans: seq<AggregatedStats>, a: AggregatedStats, get: AggregatedStats -> nat)
    ensures Series(scans + [a], get) == Series(scans, get) + [get(a)]
  {
  }

  lemma RatePrefix(h: seq<nat>, x: nat, t: nat)
    requires 0 < t <= |h|
    ensures Rate(h + [x], t) == Rate(h, t)
  {
  }

  lemma StatPrefix(scans: seq<AggregatedStats>, a: AggregatedStats, t: nat)
    requires t < |scans|
    ensures Stat(scans + [a], t) == Stat(scans, t)
  {
    SeriesAppend(scans, a, Requests);
    SeriesAppend(scans, a, Sent);
    SeriesAppend(scans, a, Recv);
    SeriesAppend(scans, a, Errors);
    RatePrefix(Series(scans, Requests), a.totalRequests, t + 1);
    RatePrefix(Series(scans, Sent), a.totalBytesSent, t + 1);
    RatePrefix(Series(scans, Recv), a.totalBytesRecv, t + 1);
    RatePrefix(Series(scans, Errors), a.totalErrors, t + 1);
  }

  lemma OtherPlace(t: nat, n: nat)
    requires t < n < t + WINDOW_SIZE
    ensures t % WINDOW_SIZE != n % WINDOW_SIZE
  {
  }

  lemma WindowedStep(window: seq<WindowStat>, scans: seq<AggregatedStats>, a: AggregatedStats)
    requires Windowed(window, scans)
    ensures Windowed(window[|scans| % WINDOW_SIZE := Stat(scans + [a], |scans|)], scans + [a])
  {
    var n, scans' := |scans|, scans + [a];
    var window' := window[n % WINDOW_SIZE := Stat(scans', n)];
    forall t {:trigger Stat(scans', t)} | 0 <= t < n + 1 && t >= n + 1 - WINDOW_SIZE
      ensures window'[t % WINDOW_SIZE] == Stat(scans', t)
    {
      if t < n {
        StatPrefix(scans, a, t);
        OtherPlace(t, n);
      }
    }
  }

  /** A rate is the growth over the last five ticks, or over all of them while there are fewer. */
  lemma RateLaw(h: seq<nat>, t: nat)
    requires 0 < t <= |h|
    ensures t < 5 ==> Rate(h, t) == h[t - 1] as real / t as real
    ensures t == 5 ==> Rate(h, t) == h[4] as real / 5.0
    ensures t > 5 ==> Rate(h, t) == (h[t - 1] as real - h[t - 6] as real) / 5.0
  {
  }

  lemma SeriesRate(scans: seq<AggregatedStats>, get: AggregatedStats -> nat, t: nat)
    requires t < |scans|
    ensures Rate(Series(scans, get), t + 1) ==
            if t < 5 then get(scans[t]) as real / (t + 1) as real
            else (get(scans[t]) as real - get(scans[t - 5]) as real) / 5.0
  {
    RateLaw(Series(scans, get), t + 1);
  }

  /** The entry of a tick, on the totals of the scans themselves: the first five ticks, and the later ones. */
  lemma EarlyStatLaw(scans: seq<AggregatedStats>, t: nat)
    requires t < |scans| && t < 5
    ensures var s, a, k := Stat(scans, t), scans[t], (t + 1) as real;
      && s.activeRemotes == a.activeRemotes && s.totalRemotes == a.totalRemotes
      && s.requests == a.totalRequests as real / k && s.bytesSent == a.totalBytesSent as real / k
      && s.bytesRecv == a.totalBytesRecv as real / k && s.errors == a.totalErrors as real / k
  {
    SeriesRate(scans, Requests, t);
    SeriesRate(scans, Sent, t);
    SeriesRate(scans, Recv, t);
    SeriesRate(scans, Errors, t);
  }

  lemma StatLaw(scans: seq<AggregatedStats>, t: nat)
    requires 5 <= t < |scans|
    ensures var s, a, b := Stat(scans, t), scans[t], scans[t - 5];
      && s.activeRemotes == a.activeRemotes && s.totalRemotes == a.totalRemotes
      && s.requests == (a.totalRequests as real - b.totalRequests as real) / 5.0
      && s.bytesSent == (a.totalBytesSent as real - b.totalBytesSent as real) / 5.0
      && s.bytesRecv == (a.totalBytesRecv as real - b.totalBytesRecv as real) / 5.0
      && s.errors == (a.totalErrors as real - b.totalErrors as real) / 5.0
  {
    SeriesRate(scans, Requests, t);
    SeriesRate(scans, Sent, t);
    SeriesRate(scans, Recv, t);
    SeriesRate(scans, Errors, t);
  }

  /** The last 120 entries, oldest first, with empty entries in front. */
  ghost function LastEntries(scans: seq<AggregatedStats>): seq<WindowStat> {
    seq(WINDOW_SIZE, i requires 0 <= i < WINDOW_SIZE =>
      var t := |scans| - WINDOW_SIZE + i;
      if t < 0 then EMPTY else Stat(scans, t))
  }

  lemma WindowedAt(window: seq<WindowStat>, scans: seq<AggregatedStats>, i: nat)
    requires Windowed(window, scans) && i < WINDOW_SIZE
    ensures window[(|scans| % WINDOW_SIZE + i) % WINDOW_SIZE] == LastEntries(scans)[i]
  {
    var t := |scans| - WINDOW_SIZE + i;
    if t >= 0 {
      assert t % WINDOW_SIZE == (|scans| % WINDOW_SIZE + i) % WINDOW_SIZE;
      assert window[t % WINDOW_SIZE] == Stat(scans, t);
    }
  }

  ghost predicate NoSmaller(a: AggregatedStats, b: AggregatedStats) {
    a.totalRequests <= b.totalRequests && a.totalBytesSent <= b.totalBytesSent &&
    a.totalBytesRecv <= b.totalBytesRecv && a.totalErrors <= b.totalErrors
  }

  class Window {
    const window: array<WindowStat>
    var windowIdx: nat
    var prevTotalRequests: nat
    var prevTotalBytesSent: nat
    var prevTotalBytesRecv: nat
    var prevTotalErrors: nat
    const smaBuffer: array<real>
    const smaBufferSent: array<real>
    const smaBufferRecv: array<real>
    const smaBufferErrs: array<real>
    var smaIdx: nat
    var smaCount: nat
    /** Every scan that updateWindow has seen. */
    ghost var scans: seq<AggregatedStats>

    ghost predicate Apart() {
      && smaBuffer != smaBufferSent && smaBuffer != smaBufferRecv && smaBuffer != smaBufferErrs
      && smaBufferSent != smaBufferRecv && smaBufferSent != smaBufferErrs && smaBufferRecv != smaBufferErrs
    }

    ghost predicate Smoothed(seen: seq<AggregatedStats>)
      reads smaBuffer, smaBufferSent, smaBufferRecv, smaBufferErrs
    {
      && Smoothing(smaBuffer[..], Series(seen, Requests))
      && Smoothing(smaBufferSent[..], Series(seen, Sent))
      && Smoothing(smaBufferRecv[..], Series(seen, Recv))
      && Smoothing(smaBufferErrs[..], Series(seen, Errors))
    }

    /** The index and total fields, after the scans `seen`. */
    ghost predicate Fields(seen: seq<AggregatedStats>)
      reads this
    {
      && windowIdx == |seen| % WINDOW_SIZE
      && prevTotalRequests == Total(Series(seen, Requests), |seen|)
      && prevTotalBytesSent == Total(Series(seen, Sent), |seen|)
      && prevTotalBytesRecv == Total(Series(seen, Recv), |seen|)
      && prevTotalErrors == Total(Series(seen, Errors), |seen|)
    }

    ghost predicate Valid()
      reads this, window, smaBuffer, smaBufferSent, smaBufferRecv, smaBufferErrs
    {
      && Apart()
      && Fields(scans)
      && smaIdx == |scans| % SMA_PERIOD
      && smaCount == Min(SMA_PERIOD, |scans|)
      && Smoothed(scans)
      && Windowed(window[..], scans)
    }

    constructor ()
      ensures Valid() && scans == []
    {
      window := new WindowStat[WINDOW_SIZE](_ => EMPTY);
      windowIdx, prevTotalRequests, prevTotalBytesSent, prevTotalBytesRecv, prevTotalErrors := 0, 0, 0, 0, 0;
      smaBuffer := new real[SMA_PERIOD](_ => 0.0);
      smaBufferSent := new real[SMA_PERIOD](_ => 0.0);
      smaBufferRecv := new real[SMA_PERIOD](_ => 0.0);
      smaBufferErrs := new real[SMA_PERIOD](_ => 0.0);
      smaIdx, smaCount, scans := 0, 0, [];
    }

    /** getWindow. */
    method GetWindow() returns (result: seq<WindowStat>)
      requires Valid()
      ensures result == LastEntries(scans)
      ensures |result| == 120
      ensures forall i :: 0 <= i < 120 ==>
                result[i] == if |scans| + i < 120 then WindowStat(0.0, 0.0, 0.0, 0.0, 0, 0) else Stat(scans, |scans| + i - 120)
    {
      result := [];
      for i := 0 to WINDOW_SIZE
        invariant |result| == i && result == LastEntries(scans)[..i]
      {
        var idx := (windowIdx + i) % WINDOW_SIZE;
        WindowedAt(window[..], scans, i);
        result := result + [window[idx]];
      }
    }

    /** The summing loop of updateWindow. */
    method SumBuffers() returns (requests: real, sent: real, recv: real, errors: real)
      requires smaCount <= SMA_PERIOD
      requires smaBuffer.Length == smaBufferSent.Length == smaBufferRecv.Length == smaBufferErrs.Length == SMA_PERIOD
      ensures requests == SumOf(smaBuffer[..smaCount]) && sent == SumOf(smaBufferSent[..smaCount])
      ensures recv == SumOf(smaBufferRecv[..smaCount]) && errors == SumOf(smaBufferErrs[..smaCount])
    {
      requests, sent, recv, errors := 0.0, 0.0, 0.0, 0.0;
      for i := 0 to smaCount
        invariant requests == SumOf(smaBuffer[..i]) && sent == SumOf(smaBufferSent[..i])
        invariant recv == SumOf(smaBufferRecv[..i]) && errors == SumOf(smaBufferErrs[..i])
      {
        SumNext(smaBuffer[..], i);
        SumNext(smaBufferSent[..], i);
        SumNext(smaBufferRecv[..], i);
        SumNext(smaBufferErrs[..], i);
        requests := requests + smaBuffer[i];
        sent := sent + smaBufferSent[i];
        recv := recv + smaBufferRecv[i];
        errors := errors + smaBufferErrs[i];
      }
    }

    /** The first part of updateWindow: the newest growths replace the oldest. */
    method PushAll(agg: AggregatedStats)
      requires Valid() && (scans != [] ==> NoSmaller(scans[|scans| - 1], agg))
      modifies smaBuffer, smaBufferSent, smaBufferRecv, smaBufferErrs
      ensures Smoothed(scans + [agg])
    {
      var requests := (agg.totalRequests - prevTotalRequests) as real;
      var bytesSent := (agg.totalBytesSent - prevTotalBytesSent) as real;
      var bytesRecv := (agg.totalBytesRecv - prevTotalBytesRecv) as real;
      var errors := (agg.totalErrors - prevTotalErrors) as real;
      Push(smaBuffer, smaIdx, requests, Series(scans, Requests), agg.totalRequests);
      Push(smaBufferSent, smaIdx, bytesSent, Series(scans, Sent), agg.totalBytesSent);
      Push(smaBufferRecv, smaIdx, bytesRecv, Series(scans, Recv), agg.totalBytesRecv);
      Push(smaBufferErrs, smaIdx, errors, Series(scans, Errors), agg.totalErrors);
      AppendAll(scans, agg);
    }

    /** The averages of updateWindow. */
    method Average(agg: AggregatedStats, ghost seen: seq<AggregatedStats>) returns (stat: WindowStat)
      requires Smoothed(seen) && |seen| > 0 && seen[|seen| - 1] == agg
      requires smaCount == Min(SMA_PERIOD, |seen|)
      ensures stat == Stat(seen, |seen| - 1)
    {
      var sumRequests, sumBytesSent, sumBytesRecv, sumErrors := SumBuffers();
      stat := WindowStat(
        sumRequests / smaCount as real, sumBytesSent / smaCount as real,
        sumBytesRecv / smaCount as real, sumErrors / smaCount as real,
        agg.activeRemotes, agg.totalRemotes);
    }

    /**
    updateWindow on the totals of a scan. The caller's scans never decrease (module
    StatsScan), so the unsigned differences do not wrap around.
    */
    method UpdateWindow(agg: AggregatedStats)
      requires Valid() && (scans != [] ==> NoSmaller(scans[|scans| - 1], agg))
      modifies this, window, smaBuffer, smaBufferSent, smaBufferRecv, smaBufferErrs
      ensures Valid() && scans == old(scans) + [agg]
      ensures window[old(windowIdx)] == Stat(scans, |scans| - 1)
    {
      PushAll(agg);
      AdvanceSma();
      Conclude(agg);
    }

    method AdvanceSma()
      requires smaIdx == |scans| % SMA_PERIOD && smaCount == Min(SMA_PERIOD, |scans|)
      modifies this`smaIdx, this`smaCount
      ensures smaIdx == (|scans| + 1) % SMA_PERIOD && smaCount == Min(SMA_PERIOD, |scans| + 1)
    {
      if smaCount < SMA_PERIOD {
        smaCount := smaCount + 1;
      }
      smaIdx := (smaIdx + 1) % SMA_PERIOD;
    }

    /** The rest of updateWindow, once the smoothing buffers hold the newest growth. */
    method Conclude(agg: AggregatedStats)
      requires Apart() && Fields(scans) && Windowed(window[..], scans)
      requires Smoothed(scans + [agg])
      requires smaIdx == (|scans| + 1) % SMA_PERIOD && smaCount == Min(SMA_PERIOD, |scans| + 1)
      modifies this`windowIdx, this`scans, window
      modifies this`prevTotalRequests, this`prevTotalBytesSent, this`prevTotalBytesRecv, this`prevTotalErrors
      ensures Valid() && scans == old(scans) + [agg]
      ensures window[old(windowIdx)] == Stat(scans, |scans| - 1)
    {
      ghost var seen := scans + [agg];
      var stat := Average(agg, seen);
      WriteWindow(stat, seen);
      WriteTotals(agg);
    }

    method WriteWindow(stat: WindowStat, ghost seen: seq<AggregatedStats>)
      requires Windowed(window[..], scans) && windowIdx == |scans| % WINDOW_SIZE
      requires |seen| == |scans| + 1 && seen[..|scans|] == scans && stat == Stat(seen, |scans|)
      modifies window
      ensures Windowed(window[..], seen) && window[windowIdx] == stat
    {
      ghost var was := window[..];
      WindowedStep(was, scans, seen[|scans|]);
      assert seen == scans + [seen[|scans|]];
      window[windowIdx] := stat;
      assert window[..] == was[windowIdx := stat];
    }

    method WriteTotals(agg: AggregatedStats)
      requires windowIdx == |scans| % WINDOW_SIZE
      modifies this`windowIdx, this`scans
      modifies this`prevTotalRequests, this`prevTotalBytesSent, this`prevTotalBytesRecv, this`prevTotalErrors
      ensures scans == old(scans) + [agg] && Fields(scans)
    {
      windowIdx := (windowIdx + 1) % WINDOW_SIZE;
      prevTotalRequests := agg.totalRequests;
      prevTotalBytesSent := agg.totalBytesSent;
      prevTotalBytesRecv := agg.totalBytesRecv;
      prevTotalErrors := agg.totalErrors;
      scans := scans + [agg];
      AppendAll(old(scans), agg);
    }
  }

  /** One tick: the newest entry of the window that is shown is the rate of the last five seconds. */
  method Tick(w: Window, agg: AggregatedStats) returns (shown: seq<WindowStat>)
    requires w.Valid()
    requires w.scans != [] ==>
               var last := w.scans[|w.scans| - 1];
               last.totalRequests <= agg.totalRequests && last.totalBytesSent <= agg.totalBytesSent &&
               last.totalBytesRecv <= agg.totalBytesRecv && last.totalErrors <= agg.totalErrors
    modifies w, w.window, w.smaBuffer, w.smaBufferSent, w.smaBufferRecv, w.smaBufferErrs
    ensures w.Valid() && w.scans == old(w.scans) + [agg] && |shown| == 120
    ensures old(|w.scans|) >= 5 ==>
              shown[119].requests == (agg.totalRequests as real - old(w.scans[|w.scans| - 5]).totalRequests as real) / 5.0
    ensures old(|w.scans|) < 5 ==> shown[119].requests == agg.totalRequests as real / (old(|w.scans|) + 1) as real
    ensures forall i :: 0 <= i < 119 && old(|w.scans|) + 1 + i < 120 ==> shown[i] == WindowStat(0.0, 0.0, 0.0, 0.0, 0, 0)
  {
    w.UpdateWindow(agg);
    shown := w.GetWindow();
    if |w.scans| > 5 {
      StatLaw(w.scans, |w.scans| - 1);
    } else {
      EarlyStatLaw(w.scans, |w.scans| - 1);
    }
  }

  lemma SumNext(s: seq<real>, i: nat)
    requires i < |s|
    ensures SumOf(s[..i + 1]) == SumOf(s[..i]) + s[i]
  {
    assert s[..i + 1][..i] == s[..i];
  }

  lemma AppendAll(scans: seq<AggregatedStats>, a: AggregatedStats)
    ensures Series(scans + [a], Requests) == Series(scans, Requests) + [a.totalRequests]
    ensures Series(scans + [a], Sent) == Series(scans, Sent) + [a.totalBytesSent]
    ensures Series(scans + [a], Recv) == Series(scans, Recv) + [a.totalBytesRecv]
    ensures Series(scans + [a], Errors) == Series(scans, Errors) + [a.totalErrors]
  {
    SeriesAppend(scans, a, Requests);
    SeriesAppend(scans, a, Sent);
    SeriesAppend(scans, a, Recv);
    SeriesAppend(scans, a, Errors);
  }

  /** Writes the newest growth x - Total over the oldest slot. */
  method Push(buf: array<real>, idx: nat, growth: real, ghost h: seq<nat>, ghost x: nat)
    requires Smoothing(buf[..], h) && idx == |h| % SMA_PERIOD
    requires growth == (x as int - Total(h, |h|) as int) as real
    modifies buf
    ensures Smoothing(buf[..], h + [x])
  {
    SmoothingStep(buf[..], h, x);
    ghost var was := buf[..];
    buf[idx] := growth;
    assert buf[..] == was[idx := growth];
  }
}
