/**
Byte accounting: `countingWriter` of internal/proxy/handler.go, which batches what it
records, and the tick loop of `Tunnel` in internal/util/tunnel.go, which reads counters
that its two copying goroutines keep adding to.
*/
module ByteAccounting {
  import opened Wrappers
  import opened Sums

  const STATS_BATCH_THRESHOLD := 256 * 1024

  class CountingWriter {
    const hasStats: bool
    const remoteID: string
    var sent: nat
    var pending: nat
    /** The byte counts passed to RecordBytes. */
    var recorded: seq<nat>
    /** The bytes the underlying writer accepted. */
    ghost var written: nat

    ghost predicate Valid()
      reads this
    {
      && (hasStats && remoteID != "" ==> Total(recorded) + pending == sent == written)
      && (!hasStats || remoteID == "" ==> recorded == [] && pending == sent == 0)
      && pending < 262144
    }

    constructor (hasStats: bool, remoteID: string)
      ensures Valid() && written == 0 && recorded == []
      ensures this.hasStats == hasStats && this.remoteID == remoteID
    {
      this.hasStats, this.remoteID := hasStats, remoteID;
      sent, pending, recorded, written := 0, 0, [], 0;
    }

    /** One RecordBytes of what is pending. */
    method RecordPending()
      modifies this`recorded, this`pending
      ensures recorded == old(recorded) + [old(pending)] && pending == 0
      ensures Total(recorded) == Total(old(recorded)) + old(pending)
    {
      TotalAppend(recorded, pending);
      recorded := recorded + [pending];
      pending := 0;
    }

    /** n is what the underlying Write returned, with or without an error. */
    method Write(n: nat)
      requires Valid()
      modifies this
      ensures Valid() && written == old(written) + n && pending < 262144
      ensures hasStats && remoteID != "" ==> Total(recorded) + pending == written
      ensures !hasStats || remoteID == "" ==> recorded == []
      ensures recorded == old(recorded) || (pending == 0 && recorded == old(recorded) + [old(pending) + n])
      ensures recorded != old(recorded) ==> old(pending) + n >= 262144
    {
      if hasStats && remoteID != "" && n > 0 {
        sent := sent + n;
        pending := pending + n;
        if pending >= STATS_BATCH_THRESHOLD {
          RecordPending();
        }
      }
      written := written + n;
    }

    method Flush()
      requires Valid()
      modifies this
      ensures Valid() && written == old(written) && pending == 0
      ensures hasStats && remoteID != "" ==> Total(recorded) == written
      ensures !hasStats || remoteID == "" ==> recorded == []
    {
      if hasStats && remoteID != "" && pending > 0 {
        RecordPending();
      }
    }

    /**
    The copy of writeResponse: chunk after chunk until one is not written whole, then a
    flush. Exactly the bytes that went out are recorded.
    */
    method CopyAll(chunks: seq<nat>, accepts: seq<nat>)
      requires Valid() && |accepts| == |chunks|
      requires forall i :: 0 <= i < |chunks| ==> accepts[i] <= chunks[i]
      modifies this
      ensures Valid() && pending == 0
      ensures hasStats && remoteID != "" ==> Total(recorded) == written
      ensures !hasStats || remoteID == "" ==> recorded == []
      ensures exists k :: 0 <= k <= |chunks| && Copied(chunks, accepts, k) &&
                written == old(written) + Total(accepts[..k])
    {
      var i := 0;
      while i < |chunks|
        invariant 0 <= i <= |chunks| && Valid()
        invariant forall j :: 0 <= j < i ==> accepts[j] == chunks[j]
        invariant written == old(written) + Total(accepts[..i])
      {
        Write(accepts[i]);
        TotalNext(accepts, i);
        var short := accepts[i] != chunks[i];
        i := i + 1;
        if short {
          break;
        }
      }
      assert Copied(chunks, accepts, i);
      Flush();
    }
  }

  /** k chunks were offered: all, or up to the first that was not written whole. */
  ghost predicate Copied(chunks: seq<nat>, accepts: seq<nat>, k: nat) {
    && k <= |chunks| == |accepts|
    && (forall j :: 0 <= j < k - 1 ==> accepts[j] == chunks[j])
    && (k == |chunks| || (k > 0 && accepts[k - 1] != chunks[k - 1]))
  }

  // ---- Tunnel ----

  /** From client to target, and back. */
  datatype Way = Out | In

  /** One direction: its shared counter, the tick loop's last value and difference, and what was recorded. */
  datatype Direction = Direction(counted: nat, last: nat, delta: int, recorded: int)

  datatype Phase = Idle | ReadOut | ReadBoth | Recorded | StoredOut | Returned

  datatype State = State(sent: Direction, recv: Direction, phase: Phase, copying: bool)

  const INITIAL := State(Direction(0, 0, 0, 0), Direction(0, 0, 0, 0), Idle, true)

  /** Each read or write of a shared counter by the tick loop is a step of its own. */
  datatype Action =
    | Copy(way: Way, n: nat)
    | CopiersDone
    | Read(way: Way)
    | Record
    | Store(way: Way)
    | FinalRecord

  function Of(s: State, way: Way): Direction {
    if way == Out then s.sent else s.recv
  }

  predicate Enabled(s: State, a: Action) {
    match a
    case Copy(_, _) => s.copying
    case CopiersDone => s.copying
    case Read(way) => s.phase == if way == Out then Idle else ReadOut
    case Record => s.phase == ReadBoth
    case Store(way) => s.phase == if way == Out then Recorded else StoredOut
    case FinalRecord => s.phase == Idle && !s.copying
  }

  function ReadCounter(d: Direction): Direction {
    d.(delta := d.counted - d.last)
  }

  function RecordDelta(d: Direction): Direction {
    d.(recorded := d.recorded + d.delta)
  }

  function StoreLast(d: Direction): Direction {
    d.(last := d.counted, delta := 0)
  }

  function Moved(d: Direction, n: nat): Direction {
    d.(counted := d.counted + n)
  }

  function Next(s: State, a: Action): State
    requires Enabled(s, a)
  {
    match a
    case Copy(Out, n) => s.(sent := Moved(s.sent, n))
    case Copy(In, n) => s.(recv := Moved(s.recv, n))
    case CopiersDone => s.(copying := false)
    case Read(Out) => s.(sent := ReadCounter(s.sent), phase := ReadOut)
    case Read(In) => s.(recv := ReadCounter(s.recv), phase := ReadBoth)
    case Record =>
      if s.sent.delta > 0 || s.recv.delta > 0
      then s.(sent := RecordDelta(s.sent), recv := RecordDelta(s.recv), phase := Recorded)
      else s.(phase := Idle)
    case Store(Out) => s.(sent := StoreLast(s.sent), phase := StoredOut)
    case Store(In) => s.(recv := StoreLast(s.recv), phase := Idle)
    case FinalRecord =>
      s.(sent := RecordDelta(ReadCounter(s.sent)), recv := RecordDelta(ReadCounter(s.recv)), phase := Returned)
  }

  /** The state after a run of enabled actions. */
  function Run(actions: seq<Action>): Option<State> {
    if actions == [] then Some(INITIAL)
    else
      var before := Run(actions[..|actions| - 1]);
      if before.Some? && Enabled(before.value, actions[|actions| - 1])
      then Some(Next(before.value, actions[|actions| - 1]))
      else None
  }

  lemma RunLast(actions: seq<Action>)
    requires actions != [] && Run(actions).Some?
    ensures var before, a := Run(actions[..|actions| - 1]), actions[|actions| - 1];
            before.Some? && Enabled(before.value, a) && Run(actions).value == Next(before.value, a)
  {
  }

  lemma RunNext(actions: seq<Action>, a: Action)
    requires Run(actions).Some? && Enabled(Run(actions).value, a)
    ensures Run(actions + [a]) == Some(Next(Run(actions).value, a))
  {
    assert (actions + [a])[..|actions|] == actions;
  }

  /** The bytes that each action copies in a direction. */
  function CopiedBy(actions: seq<Action>, way: Way): seq<nat> {
    seq(|actions|, i requires 0 <= i < |actions| =>
      if actions[i].Copy? && actions[i].way == way then actions[i].n else 0)
  }

  lemma CopiedLast(actions: seq<Action>, way: Way)
    requires actions != []
    ensures var n := |actions| - 1;
            Total(CopiedBy(actions, way)) == Total(CopiedBy(actions[..n], way)) + CopiedBy(actions, way)[n]
  {
    var n := |actions| - 1;
    TotalAppend(CopiedBy(actions[..n], way), CopiedBy(actions, way)[n]);
    assert CopiedBy(actions, way) == CopiedBy(actions[..n], way) + [CopiedBy(actions, way)[n]];
  }

  /** A counter holds exactly the bytes that were copied in its direction. */
  lemma {:induction false} CountedIsCopied(actions: seq<Action>, way: Way)
    requires Run(actions).Some?
    ensures Of(Run(actions).value, way).counted == Total(CopiedBy(actions, way))
  {
    if actions == [] {
      assert CopiedBy(actions, way) == [];
    } else {
      RunLast(actions);
      CountedIsCopied(actions[..|actions| - 1], way);
      CopiedLast(actions, way);
    }
  }

  // ---- Nothing is recorded twice ----

  /** Where a direction stands in a tick. */
  datatype Stage = Rested | AfterRead | AfterRecord | Over

  function StageOf(phase: Phase, way: Way): Stage {
    match phase
    case Idle => Rested
    case ReadOut => if way == Out then AfterRead else Rested
    case ReadBoth => AfterRead
    case Recorded => AfterRecord
    case StoredOut => if way == Out then Rested else AfterRecord
    case Returned => Over
  }

  predicate Ordered(d: Direction, stage: Stage) {
    match stage
    case Rested => 0 <= d.recorded <= d.last <= d.counted
    case AfterRead => 0 <= d.recorded <= d.last <= d.last + d.delta <= d.counted
    case AfterRecord => 0 <= d.recorded <= d.last + d.delta <= d.counted
    case Over => 0 <= d.recorded <= d.counted
  }

  lemma NextStaysOrdered(s: State, a: Action, way: Way)
    requires Enabled(s, a) && Ordered(Of(s, way), StageOf(s.phase, way)) && (s.phase == Returned ==> !s.copying)
    ensures Ordered(Of(Next(s, a), way), StageOf(Next(s, a).phase, way))
    ensures Next(s, a).phase == Returned ==> !Next(s, a).copying
  {
  }

  /** Under every interleaving nothing is recorded that was not counted, and no difference is negative. */
  lemma {:induction false} TunnelNeverOvercounts(actions: seq<Action>, way: Way)
    requires Run(actions).Some?
    ensures var s := Run(actions).value;
            && Ordered(Of(s, way), StageOf(s.phase, way)) && 0 <= Of(s, way).recorded <= Of(s, way).counted
            && (s.phase == Idle ==> Of(s, way).recorded <= Of(s, way).last <= Of(s, way).counted)
            && (s.phase == Returned ==> !s.copying)
  {
    if actions != [] {
      RunLast(actions);
      TunnelNeverOvercounts(actions[..|actions| - 1], way);
      NextStaysOrdered(Run(actions[..|actions| - 1]).value, actions[|actions| - 1], way);
    }
  }

  // ---- What a tick misses ----

  /** The bytes copied since the tick loop last read the counter. */
  function SinceRead(actions: seq<Action>, way: Way): nat {
    if actions == [] then 0
    else
      var before, a := SinceRead(actions[..|actions| - 1], way), actions[|actions| - 1];
      if a == Read(way) then 0
      else if a.Copy? && a.way == way then before + a.n
      else before
  }

  /** The bytes copied between the two reads of the ticks that recorded something. */
  function Missed(actions: seq<Action>, way: Way): nat {
    if actions == [] then 0
    else
      var before, a := actions[..|actions| - 1], actions[|actions| - 1];
      Missed(before, way) + if a == Store(way) then SinceRead(before, way) else 0
  }

  /** The shortfall of a direction, from the actions alone. */
  predicate Explained(d: Direction, stage: Stage, missed: nat, since: nat) {
    match stage
    case Rested => d.recorded + missed == d.last
    case AfterRead => d.recorded + missed == d.last && d.last + d.delta + since == d.counted
    case AfterRecord => d.recorded + missed == d.last + d.delta && d.last + d.delta + since == d.counted
    case Over => d.recorded + missed == d.counted
  }

  lemma NextStaysExplained(s: State, a: Action, way: Way, missed: nat, since: nat)
    requires Enabled(s, a) && Explained(Of(s, way), StageOf(s.phase, way), missed, since)
    requires s.phase == Returned ==> !s.copying
    ensures Explained(Of(Next(s, a), way), StageOf(Next(s, a).phase, way),
                      missed + (if a == Store(way) then since else 0),
                      if a == Read(way) then 0 else if a.Copy? && a.way == way then since + a.n else since)
  {
  }

  lemma {:induction false} ShortfallIsMissed(actions: seq<Action>, way: Way)
    requires Run(actions).Some?
    ensures var s := Run(actions).value;
            Explained(Of(s, way), StageOf(s.phase, way), Missed(actions, way), SinceRead(actions, way))
  {
    if actions != [] {
      var before := actions[..|actions| - 1];
      RunLast(actions);
      TunnelNeverOvercounts(before, way);
      ShortfallIsMissed(before, way);
      NextStaysExplained(Run(before).value, actions[|actions| - 1], way, Missed(before, way), SinceRead(before, way));
    }
  }

  /** The last read of the counter is the r-th action. */
  predicate LastRead(actions: seq<Action>, way: Way, r: nat) {
    && r < |actions| && actions[r] == Read(way)
    && forall j :: r < j < |actions| ==> actions[j] != Read(way)
  }

  /** The i-th action copies bytes, and the counter is not read after it. */
  predicate CopiesUnread(actions: seq<Action>, way: Way, i: nat) {
    && i < |actions| && actions[i].Copy? && actions[i].way == way && actions[i].n > 0
    && forall j :: i < j < |actions| ==> actions[j] != Read(way)
  }

  /** The i-th action copies bytes after the read and before the store of one recording tick. */
  predicate CopiesInside(actions: seq<Action>, way: Way, r: nat, i: nat, t: nat) {
    && r < i < t < |actions| && actions[t] == Store(way)
    && LastRead(actions[..t], way, r) && CopiesUnread(actions[..t], way, i)
  }

  ghost predicate CopiedInside(actions: seq<Action>, way: Way) {
    exists r: nat, i: nat, t: nat :: CopiesInside(actions, way, r, i, t)
  }

  lemma {:induction false} SomethingSinceRead(actions: seq<Action>, way: Way, i: nat)
    requires CopiesUnread(actions, way, i)
    ensures SinceRead(actions, way) > 0
  {
    if i < |actions| - 1 {
      SomethingSinceRead(actions[..|actions| - 1], way, i);
    }
  }

  lemma {:induction false} FindCopy(actions: seq<Action>, way: Way) returns (i: nat)
    requires SinceRead(actions, way) > 0
    ensures CopiesUnread(actions, way, i)
  {
    var n := |actions| - 1;
    if actions[n].Copy? && actions[n].way == way && actions[n].n > 0 {
      i := n;
    } else {
      i := FindCopy(actions[..n], way);
    }
  }

  lemma {:induction false} FindRead(actions: seq<Action>, way: Way) returns (r: nat)
    requires Run(actions).Some?
    requires StageOf(Run(actions).value.phase, way) in {AfterRead, AfterRecord}
    ensures LastRead(actions, way, r)
  {
    var n := |actions| - 1;
    RunLast(actions);
    if actions[n] == Read(way) {
      r := n;
    } else {
      r := FindRead(actions[..n], way);
    }
  }

  lemma {:induction false} MissedGrows(actions: seq<Action>, way: Way, t: nat)
    requires t < |actions| && actions[t] == Store(way)
    ensures Missed(actions, way) >= SinceRead(actions[..t], way)
  {
    var n := |actions| - 1;
    if t < n {
      MissedGrows(actions[..n], way, t);
      assert actions[..n][..t] == actions[..t];
    }
  }

  lemma {:induction false} MissedWasCopied(actions: seq<Action>, way: Way)
    requires Run(actions).Some? && Missed(actions, way) > 0
    ensures CopiedInside(actions, way)
  {
    var n := |actions| - 1;
    var before := actions[..n];
    RunLast(actions);
    if Missed(before, way) > 0 {
      MissedWasCopied(before, way);
      var r: nat, i: nat, t: nat :| CopiesInside(before, way, r, i, t);
      assert actions[..t] == before[..t];
      assert CopiesInside(actions, way, r, i, t);
    } else {
      var r := FindRead(before, way);
      var i := FindCopy(before, way);
      assert CopiesInside(actions, way, r, i, n);
    }
  }

  /**
  When Tunnel returns, a direction is recorded exactly if and only if no bytes were copied
  between the two reads of its counter in a tick that recorded something.
  */
  lemma RecordedExactlyIff(actions: seq<Action>, way: Way)
    requires Run(actions).Some? && Run(actions).value.phase == Returned
    ensures var d := Of(Run(actions).value, way);
            && d.recorded == d.counted - Missed(actions, way)
            && (d.recorded == d.counted <==> !CopiedInside(actions, way))
  {
    ShortfallIsMissed(actions, way);
    if Missed(actions, way) > 0 {
      MissedWasCopied(actions, way);
    }
    if r: nat, i: nat, t: nat :| CopiesInside(actions, way, r, i, t) {
      SomethingSinceRead(actions[..t], way, i);
      MissedGrows(actions, way, t);
    }
  }

  /** A tick that no copy interrupts catches up with both counters, if there is anything new. */
  lemma UninterruptedTickLosesNothing(actions: seq<Action>)
    requires Run(actions).Some? && Run(actions).value.phase == Idle
    ensures var s := Run(actions).value;
            s.sent.counted > s.sent.last || s.recv.counted > s.recv.last ==>
              var t := Run(actions + TickWith(Out, None));
              t.Some? && t.value.phase == Idle && CaughtUp(s.sent, t.value.sent) && CaughtUp(s.recv, t.value.recv)
  {
    var s := Run(actions).value;
    if s.sent.counted > s.sent.last || s.recv.counted > s.recv.last {
      TunnelNeverOvercounts(actions, Out);
      TunnelNeverOvercounts(actions, In);
      RunNext(actions, Read(Out));
      RunNext(actions + [Read(Out)], Read(In));
      RunTick(actions + [Read(Out)] + [Read(In)]);
      assert actions + TickWith(Out, None) == actions + [Read(Out)] + [Read(In)] + [Record] + [Store(Out)] + [Store(In)];
    }
  }

  predicate CaughtUp(d: Direction, d': Direction) {
    d'.counted == d'.last == d.counted && d'.recorded == d.recorded + d.counted - d.last
  }

  /** A tick, with n bytes copied between its two reads of one counter, or without a copy. */
  function TickWith(way: Way, n: Option<nat>): seq<Action> {
    var loads :=
      if n.None? then [Read(Out)] + [Read(In)]
      else if way == Out then [Read(Out)] + [Copy(Out, n.value)] + [Read(In)]
      else [Read(Out)] + [Read(In)] + [Copy(In, n.value)];
    loads + [Record] + [Store(Out)] + [Store(In)]
  }

  /** The rest of a tick that has something to record. */
  lemma RunTick(actions: seq<Action>)
    requires Run(actions).Some? && Run(actions).value.phase == ReadBoth
    requires Run(actions).value.sent.delta > 0 || Run(actions).value.recv.delta > 0
    ensures var s := Run(actions).value;
            Run(actions + [Record] + [Store(Out)] + [Store(In)]) ==
            Some(s.(sent := StoreLast(RecordDelta(s.sent)), recv := StoreLast(RecordDelta(s.recv)), phase := Idle))
  {
    RunNext(actions, Record);
    RunNext(actions + [Record], Store(Out));
    RunNext(actions + [Record] + [Store(Out)], Store(In));
  }

  /** In every resting state with unrecorded bytes the next tick can miss any number of bytes. */
  lemma InterruptedTickLoses(actions: seq<Action>, way: Way, n: nat)
    requires Run(actions).Some?
    requires var s := Run(actions).value; s.phase == Idle && s.copying && Of(s, way).counted > Of(s, way).last
    ensures var tick := TickWith(way, Some(n));
            && Run(actions + tick).Some? && Run(actions + tick).value.phase == Idle
            && var d, d' := Of(Run(actions).value, way), Of(Run(actions + tick).value, way);
            && d'.counted == d'.last == d.counted + n
            && d'.recorded == d.recorded + d.counted - d.last
  {
    var tick := TickWith(way, Some(n));
    var a1 := actions + [tick[0]];
    var a2 := a1 + [tick[1]];
    var a3 := a2 + [tick[2]];
    TunnelNeverOvercounts(actions, Out);
    TunnelNeverOvercounts(actions, In);
    RunNext(actions, tick[0]);
    RunNext(a1, tick[1]);
    RunNext(a2, tick[2]);
    RunTick(a3);
    assert actions + tick == a3 + [Record] + [Store(Out)] + [Store(In)];
  }
}
