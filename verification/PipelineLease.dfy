/** The database-backed run lease: one row, a token, an expiry. */
module PipelineLease {
  import opened Basics

  const LEASE_DURATION_SECONDS := 3600

  datatype Lease = Lease(token: string, acquiredAt: int, expiresAt: int)

  /** `_acquire_lease`: whether it succeeds and the row it leaves. */
  function AcquireLease(row: Option<Lease>, token: string, force: bool, now: int): (bool, Option<Lease>) {
    if row.Some? && !force && row.value.expiresAt > now then (false, row)
    else (true, Some(Lease(token, now, now + LEASE_DURATION_SECONDS)))
  }

  /** `_release_lease`: only the token in the row can delete it. */
  function ReleaseLease(row: Option<Lease>, token: string): Option<Lease> {
    if row.Some? && row.value.token == token then None else row
  }

  class LeaseTable {
    var row: Option<Lease>

    constructor ()
      ensures row == None
    {
      row := None;
    }

    method Acquire(token: string, force: bool, now: int) returns (ok: bool)
      modifies this
      ensures (ok, row) == AcquireLease(old(row), token, force, now)
    {
      if row.Some? {
        if !force && row.value.expiresAt > now {
          return false;
        }
        row := Some(row.value.(acquiredAt := now, expiresAt := now + LEASE_DURATION_SECONDS, token := token));
        return true;
      }
      row := Some(Lease(token, now, now + LEASE_DURATION_SECONDS));
      return true;
    }

    method Release(token: string)
      modifies this
      ensures row == ReleaseLease(old(row), token)
    {
      if row.Some? && row.value.token == token {
        row := None;
      }
    }
  }

  // ---------- runs of many contenders ----------

  /** What one successful acquirer believes: it holds from `from` until it releases or expires. */
  datatype Holding = Holding(token: string, from: int, expires: int, released: Option<int>)

  function End(h: Holding): int {
    if h.released.Some? && h.released.value < h.expires then h.released.value else h.expires
  }

  datatype Op = Acquire(token: string, force: bool) | Release(holder: nat)

  datatype Timed = At(now: int, op: Op)

  datatype State = State(row: Option<Lease>, holdings: seq<Holding>)

  const INITIAL := State(None, [])

  function Step(s: State, t: Timed): State {
    match t.op
    case Acquire(token, force) =>
      var (ok, row) := AcquireLease(s.row, token, force, t.now);
      if ok then State(row, s.holdings + [Holding(token, t.now, t.now + LEASE_DURATION_SECONDS, None)]) else s
    case Release(h) =>
      if h >= |s.holdings| || s.holdings[h].released.Some? then s
      else State(ReleaseLease(s.row, s.holdings[h].token), s.holdings[h := s.holdings[h].(released := Some(t.now))])
  }

  function Run(s: State, ts: seq<Timed>): State
    decreases |ts|
  {
    if ts == [] then s else Run(Step(s, ts[0]), ts[1..])
  }

  /** The clock never runs backwards and no two acquirers use the same token. */
  ghost predicate Legal(s: State, clock: int, ts: seq<Timed>)
    decreases |ts|
  {
    ts == [] ||
    (&& clock <= ts[0].now
     && (ts[0].op.Acquire? ==> forall i :: 0 <= i < |s.holdings| ==> s.holdings[i].token != ts[0].op.token)
     && Legal(Step(s, ts[0]), ts[0].now, ts[1..]))
  }

  /** A forced acquisition that overwrites a lease which has not expired. */
  ghost predicate IsTakeover(s: State, t: Timed) {
    t.op.Acquire? && t.op.force && s.row.Some? && s.row.value.expiresAt > t.now
  }

  ghost predicate SomeTakeover(s: State, ts: seq<Timed>)
    decreases |ts|
  {
    ts != [] && (IsTakeover(s, ts[0]) || SomeTakeover(Step(s, ts[0]), ts[1..]))
  }

  /** Every holding starts only after all earlier ones have ended. */
  ghost predicate Exclusive(hs: seq<Holding>) {
    forall i, j :: 0 <= i < j < |hs| ==> End(hs[i]) <= hs[j].from
  }

  /** The row mirrors the latest holding, and only its own release removes it. */
  ghost predicate Mirrored(s: State, clock: int) {
    && (forall i :: 0 <= i < |s.holdings| ==>
          var h := s.holdings[i];
          && h.from <= clock && h.expires == h.from + LEASE_DURATION_SECONDS
          && (h.released.Some? ==> h.from <= h.released.value <= clock))
    && (forall i, j :: 0 <= i < j < |s.holdings| ==> s.holdings[i].token != s.holdings[j].token)
    && (s.holdings == [] ==> s.row.None?)
    && (s.holdings != [] ==>
          var last := s.holdings[|s.holdings| - 1];
          s.row == if last.released.Some? then None else Some(Lease(last.token, last.from, last.expires)))
  }

  lemma StepKeepsMirrored(s: State, clock: int, t: Timed)
    requires Mirrored(s, clock) && Legal(s, clock, [t])
    ensures Mirrored(Step(s, t), t.now)
  {
  }

  lemma {:induction false} RunKeepsMirrored(s: State, clock: int, ts: seq<Timed>)
    requires Mirrored(s, clock) && Legal(s, clock, ts)
    ensures Mirrored(Run(s, ts), if ts == [] then clock else ts[|ts| - 1].now)
    decreases |ts|
  {
    if ts != [] {
      StepKeepsMirrored(s, clock, ts[0]);
      RunKeepsMirrored(Step(s, ts[0]), ts[0].now, ts[1..]);
    }
  }

  /** All holdings but a live row's own have ended. */
  ghost predicate Orderly(s: State, clock: int) {
    && Exclusive(s.holdings)
    && (s.row.None? ==> forall i :: 0 <= i < |s.holdings| ==> End(s.holdings[i]) <= clock)
  }

  lemma {:induction false} NoTakeoverIsExclusive(s: State, clock: int, ts: seq<Timed>)
    requires Mirrored(s, clock) && Legal(s, clock, ts) && Orderly(s, clock)
    requires !SomeTakeover(s, ts)
    ensures Exclusive(Run(s, ts).holdings)
    decreases |ts|
  {
    if ts != [] {
      StepKeepsMirrored(s, clock, ts[0]);
      StepKeepsOrderly(s, clock, ts[0]);
      NoTakeoverIsExclusive(Step(s, ts[0]), ts[0].now, ts[1..]);
    }
  }

  lemma StepKeepsOrderly(s: State, clock: int, t: Timed)
    requires Mirrored(s, clock) && Legal(s, clock, [t]) && Orderly(s, clock) && !IsTakeover(s, t)
    ensures Orderly(Step(s, t), t.now)
  {
    var u, n := Step(s, t), |s.holdings|;
    if t.op.Acquire? && |u.holdings| > n {
      forall i | 0 <= i < n ensures End(s.holdings[i]) <= t.now {
        if s.row.Some? && i < n - 1 {
          assert End(s.holdings[i]) <= s.holdings[n - 1].from;
        }
      }
    }
  }

  /** A holding that is over at no time before `when` stays so: nobody else can end it. */
  lemma {:induction false} OverlapPersists(s: State, clock: int, ts: seq<Timed>, i: nat, j: nat)
    requires Mirrored(s, clock) && Legal(s, clock, ts) && StrictClock(clock, ts)
    requires i < j < |s.holdings| && s.holdings[j].from <= clock && End(s.holdings[i]) > s.holdings[j].from
    ensures i < j < |Run(s, ts).holdings| && End(Run(s, ts).holdings[i]) > Run(s, ts).holdings[j].from
    decreases |ts|
  {
    if ts != [] {
      StepKeepsMirrored(s, clock, ts[0]);
      OverlapPersists(Step(s, ts[0]), ts[0].now, ts[1..], i, j);
    }
  }

  /** No two operations at the same instant. */
  ghost predicate StrictClock(clock: int, ts: seq<Timed>)
    decreases |ts|
  {
    ts == [] || (clock < ts[0].now && StrictClock(ts[0].now, ts[1..]))
  }

  lemma {:induction false} TakeoverOverlaps(s: State, clock: int, ts: seq<Timed>)
    requires Mirrored(s, clock) && Legal(s, clock, ts) && StrictClock(clock, ts) && SomeTakeover(s, ts)
    ensures !Exclusive(Run(s, ts).holdings)
    decreases |ts|
  {
    var u := Step(s, ts[0]);
    StepKeepsMirrored(s, clock, ts[0]);
    if IsTakeover(s, ts[0]) {
      OverlapPersists(u, ts[0].now, ts[1..], |s.holdings| - 1, |s.holdings|);
    } else {
      TakeoverOverlaps(u, ts[0].now, ts[1..]);
    }
  }

  /** Safety over every interleaving of acquire, release and clock steps: holding windows never
      overlap unless someone forces an acquisition over a live lease, and then they always do. */
  lemma WindowsDisjointIffNoTakeover(clock: int, ts: seq<Timed>)
    requires Legal(INITIAL, clock, ts)
    ensures !SomeTakeover(INITIAL, ts) ==> Exclusive(Run(INITIAL, ts).holdings)
    ensures StrictClock(clock, ts) ==> (Exclusive(Run(INITIAL, ts).holdings) <==> !SomeTakeover(INITIAL, ts))
  {
    if SomeTakeover(INITIAL, ts) {
      if StrictClock(clock, ts) { TakeoverOverlaps(INITIAL, clock, ts); }
    } else {
      NoTakeoverIsExclusive(INITIAL, clock, ts);
    }
  }

  /** A release by anyone but the latest acquirer leaves the row alone; the latest acquirer's removes it. */
  lemma OnlyLatestHolderReleases(clock: int, ts: seq<Timed>, h: nat, now: int)
    requires Legal(INITIAL, clock, ts)
    requires h < |Run(INITIAL, ts).holdings| && Run(INITIAL, ts).holdings[h].released.None?
    ensures var s := Run(INITIAL, ts);
            Step(s, At(now, Release(h))).row == if h == |s.holdings| - 1 then None else s.row
  {
    RunKeepsMirrored(INITIAL, clock, ts);
  }

  /** Progress: whatever happened, a crash included, an unforced acquisition succeeds once the row's
      expiry has passed, which is at most one lease duration after the last operation. */
  lemma AcquirableAfterExpiry(clock: int, ts: seq<Timed>, token: string, now: int)
    requires Legal(INITIAL, clock, ts)
    ensures var s := Run(INITIAL, ts);
            && (AcquireLease(s.row, token, false, now).0 <==> s.row.None? || s.row.value.expiresAt <= now)
            && (ts != [] && now >= ts[|ts| - 1].now + 3600 ==>
                AcquireLease(s.row, token, false, now).0)
  {
    RunKeepsMirrored(INITIAL, clock, ts);
  }
}
