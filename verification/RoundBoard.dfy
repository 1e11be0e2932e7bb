/**
 * `applyRoundSnapshot`, `publishResolvedRound` and the rollover of `tick` in
 * Frontend/src/chain/mine-page.js: one live board fed by HTTP reads and websocket notifications that
 * arrive late, twice, out of order or without a slot.
 */
module RoundBoard {
  import opened Common

  function Zeros(): seq<nat> { seq(GRID, _ => 0) }

  /** A decoded Round account. An account that does not exist has no tile vectors. */
  datatype Snapshot = Snapshot(
    id: nat,
    requestedAt: nat,
    resolved: bool,
    totalWager: nat,
    totalReceipts: nat,
    tileLamports: seq<nat>,
    tileReceipts: seq<nat>,
    winningSquare: nat,
    details: nat)                 // the remaining fields, which no guard looks at

  /** `emptyRound`: what a read of a missing account decodes to. */
  function AbsentRound(id: nat): Snapshot {
    Snapshot(id, 0, false, 0, 0, [], [], 255, 0)
  }

  datatype Resolved = Resolved(roundId: nat, round: Snapshot)

  datatype State = State(
    roundId: nat,
    current: Option<Snapshot>,
    slot: nat,                    // currentRoundSlot, 0 when unknown
    squareTotals: seq<nat>,
    squareMiners: seq<nat>,
    totalWager: nat,
    lastResolved: Option<Resolved>,
    lastPlayed: Option<Resolved>)

  // ----- what the guards mean -----

  /** Pointwise, an absent entry counting as zero. */
  predicate NonDecreasing(next: seq<nat>, previous: seq<nat>) {
    forall i :: 0 <= i < |previous| ==> (if i < |next| then next[i] else 0) >= previous[i]
  }

  /** The counters of `b` are at least those of `a`. */
  predicate Advances(a: Snapshot, b: Snapshot) {
    && (a.resolved ==> b.resolved)
    && (a.requestedAt > 0 ==> b.requestedAt > 0)
    && a.totalWager <= b.totalWager
    && a.totalReceipts <= b.totalReceipts
    && NonDecreasing(b.tileLamports, a.tileLamports)
    && NonDecreasing(b.tileReceipts, a.tileReceipts)
  }

  predicate Accepts(s: State, round: Snapshot, slot: nat) {
    && round.id == s.roundId
    && (s.current.Some? ==>
         && (slot > 0 && s.slot > 0 ==> slot >= s.slot)
         && Advances(s.current.value, round))
  }

  function Publish(s: State, roundId: nat, round: Snapshot): State {
    if !round.resolved || roundId > s.roundId then s
    else
      var entry := Some(Resolved(roundId, round));
      var latest := if s.lastResolved.None? || roundId >= s.lastResolved.value.roundId then entry else s.lastResolved;
      var played := if round.totalWager > 0 && (s.lastPlayed.None? || roundId >= s.lastPlayed.value.roundId)
                    then entry else s.lastPlayed;
      s.(lastResolved := latest, lastPlayed := played)
  }

  function Apply(s: State, round: Snapshot, slot: nat): State {
    if !Accepts(s, round, slot) then s
    else
      var shown := s.(
        current := Some(round),
        slot := if slot > s.slot then slot else s.slot,
        squareTotals := if round.tileLamports == [] then Zeros() else round.tileLamports,
        squareMiners := if round.tileReceipts == [] then Zeros() else round.tileReceipts,
        totalWager := round.totalWager);
      if round.resolved then Publish(shown, s.roundId, round) else shown
  }

  /** The rollover arm of `tick`. */
  function Roll(s: State, next: nat): State {
    s.(roundId := next, current := None, slot := 0,
       squareTotals := Zeros(), squareMiners := Zeros(), totalWager := 0)
  }

  // ----- the page's mutable state -----

  class Board {
    var roundId: nat
    var currentRound: Option<Snapshot>
    var currentRoundSlot: nat
    var squareTotals: seq<nat>
    var squareMiners: seq<nat>
    var totalWager: nat
    var lastResolved: Option<Resolved>
    var lastPlayedResolved: Option<Resolved>

    ghost function View(): State reads this {
      State(roundId, currentRound, currentRoundSlot, squareTotals, squareMiners, totalWager, lastResolved,
            lastPlayedResolved)
    }

    /** The board mirrors its snapshot and the published results are in order. */
    ghost predicate Valid() reads this { Mirrors(View()) && Published(View()) }

    constructor (roundId: nat)
      ensures Valid() && View() == State(roundId, None, 0, Zeros(), Zeros(), 0, None, None)
    {
      this.roundId := roundId;
      currentRound, currentRoundSlot := None, 0;
      squareTotals, squareMiners, totalWager := Zeros(), Zeros(), 0;
      lastResolved, lastPlayedResolved := None, None;
    }

    method PublishResolvedRound(resolvedId: nat, round: Snapshot) returns (published: bool)
      requires Published(View())
      modifies this
      ensures View() == Publish(old(View()), resolvedId, round) && Published(View())
      ensures NotBefore(old(lastResolved), lastResolved) && NotBefore(old(lastPlayedResolved), lastPlayedResolved)
      ensures old(Valid()) ==> Valid()
      ensures published == (round.resolved && resolvedId <= old(roundId))
    {
      ReactMovesForward(View(), Result(resolvedId, round));
      if !round.resolved || resolvedId > roundId { return false; }
      if lastResolved.None? || resolvedId >= lastResolved.value.roundId {
        lastResolved := Some(Resolved(resolvedId, round));
      }
      if round.totalWager > 0 {
        if lastPlayedResolved.None? || resolvedId >= lastPlayedResolved.value.roundId {
          lastPlayedResolved := Some(Resolved(resolvedId, round));
        }
      }
      return true;
    }

    method ApplyRoundSnapshot(round: Snapshot, incomingSlot: nat) returns (applied: bool)
      requires Valid()
      modifies this
      ensures Valid() && View() == Apply(old(View()), round, incomingSlot)
      ensures applied == Accepts(old(View()), round, incomingSlot)
      ensures NotBefore(old(lastResolved), lastResolved) && NotBefore(old(lastPlayedResolved), lastPlayedResolved)
    {
      if round.id != roundId { return false; }
      if currentRound.Some? {
        var current := currentRound.value;
        if incomingSlot > 0 && currentRoundSlot > 0 && incomingSlot < currentRoundSlot { return false; }
        if current.resolved && !round.resolved { return false; }
        if current.requestedAt > 0 && round.requestedAt == 0 { return false; }
        if round.totalWager < current.totalWager { return false; }
        if round.totalReceipts < current.totalReceipts { return false; }
        if !NonDecreasing(round.tileLamports, current.tileLamports) { return false; }
        if !NonDecreasing(round.tileReceipts, current.tileReceipts) { return false; }
      }
      TakeSnapshot(round, incomingSlot);
      return true;
    }

    /** What follows the guards. */
    method TakeSnapshot(round: Snapshot, incomingSlot: nat)
      requires Valid() && Accepts(View(), round, incomingSlot)
      modifies this
      ensures Valid() && View() == Apply(old(View()), round, incomingSlot)
      ensures NotBefore(old(lastResolved), lastResolved) && NotBefore(old(lastPlayedResolved), lastPlayedResolved)
    {
      ReactMovesForward(View(), Deliver(round, incomingSlot));
      ReactMirrors(View(), Deliver(round, incomingSlot));
      squareTotals := if round.tileLamports == [] then Zeros() else round.tileLamports;
      squareMiners := if round.tileReceipts == [] then Zeros() else round.tileReceipts;
      totalWager := round.totalWager;
      currentRound := Some(round);
      if incomingSlot > 0 && incomingSlot > currentRoundSlot { currentRoundSlot := incomingSlot; }
      if round.resolved {
        var _ := PublishResolvedRound(roundId, round);
      }
    }

    method RollOver(next: nat)
      requires Valid()
      modifies this
      ensures Valid() && View() == Roll(old(View()), next)
    {
      roundId := next;
      squareTotals, squareMiners, totalWager := Zeros(), Zeros(), 0;
      currentRound, currentRoundSlot := None, 0;
    }
  }

  // ----- a round's history on chain -----

  /** The successive contents of one Round account and the slots that wrote them. */
  datatype History = History(id: nat, versions: seq<Snapshot>, slots: seq<nat>)

  ghost predicate ValidHistory(h: History) {
    && |h.versions| == |h.slots| > 0 && h.slots[0] > 0
    && (forall i :: 0 <= i < |h.versions| ==> h.versions[i].id == h.id && h.versions[i].requestedAt > 0)
    && (forall i, j :: 0 <= i <= j < |h.versions| ==> Advances(h.versions[i], h.versions[j]))
    && (forall i, j :: 0 <= i < j < |h.slots| ==> h.slots[i] <= h.slots[j])
  }

  /** A read: of a version, or of an account not yet opened or already closed. Slot 0 is unknown. */
  datatype Read = Version(index: nat, slot: nat) | Absent(slot: nat)

  /** A read with a known slot returns what was on chain at that slot. */
  ghost predicate FromHistory(h: History, r: Read)
    requires |h.slots| == |h.versions|
  {
    match r
    case Version(k, slot) =>
      k < |h.versions| && (slot > 0 ==> h.slots[k] <= slot && (k + 1 < |h.slots| ==> slot < h.slots[k + 1]))
    case Absent(_) => true
  }

  function Step(h: History, s: State, r: Read): State
    requires r.Version? ==> r.index < |h.versions|
  {
    match r
    case Version(k, slot) => Apply(s, h.versions[k], slot)
    case Absent(slot) => Apply(s, AbsentRound(h.id), slot)
  }

  /** Reads delivered one after another, each exactly as it arrives. */
  ghost function Run(h: History, s: State, arrivals: seq<Read>): State
    requires |h.slots| == |h.versions| && forall i :: 0 <= i < |arrivals| ==> FromHistory(h, arrivals[i])
  {
    if arrivals == [] then s
    else
      var last := arrivals[|arrivals| - 1];
      assert FromHistory(h, last);
      Step(h, Run(h, s, arrivals[..|arrivals| - 1]), last)
  }

  /** The most advanced version among the arrivals, or -1. */
  function Newest(arrivals: seq<Read>): int {
    if arrivals == [] then -1
    else
      var rest, last := Newest(arrivals[..|arrivals| - 1]), arrivals[|arrivals| - 1];
      if last.Version? && last.index > rest then last.index else rest
  }

  /** No read of a closed account comes before the first version: until then an absent account has
      simply not been opened. */
  ghost predicate OpensFirst(h: History, arrivals: seq<Read>)
    requires |h.slots| > 0
  {
    forall i :: 0 <= i < |arrivals| && arrivals[i].Absent? && Newest(arrivals[..i]) < 0
      ==> arrivals[i].slot == 0 || arrivals[i].slot < h.slots[0]
  }

  ghost predicate SlotsKnown(arrivals: seq<Read>) {
    forall i :: 0 <= i < |arrivals| && arrivals[i].Version? ==> arrivals[i].slot > 0
  }

  predicate SameCounters(a: Snapshot, b: Snapshot) { Advances(a, b) && Advances(b, a) }

  lemma AdvancesTransitive(a: Snapshot, b: Snapshot, c: Snapshot)
    requires Advances(a, b) && Advances(b, c)
    ensures Advances(a, c)
  {
    forall i | 0 <= i < |a.tileLamports| && a.tileLamports[i] > 0
      ensures i < |c.tileLamports| && c.tileLamports[i] >= a.tileLamports[i]
    {
      assert b.tileLamports[i] >= a.tileLamports[i];
    }
    forall i | 0 <= i < |a.tileReceipts| && a.tileReceipts[i] > 0
      ensures i < |c.tileReceipts| && c.tileReceipts[i] >= a.tileReceipts[i]
    {
      assert b.tileReceipts[i] >= a.tileReceipts[i];
    }
  }

  ghost predicate Fresh(h: History, s: State) { s.roundId == h.id && s.current.None? && s.slot == 0 }

  // ----- what gets past the guards -----

  /** What the arrivals so far amount to: the highest slot of a read of the absent account taken in before
      any version got through, and the newest version that did get through, or -1. */
  datatype Tally = Tally(closed: nat, newest: int)

  predicate Through(r: Read, closed: nat) { r.Version? && (r.slot == 0 || r.slot >= closed) }

  function TallyOf(arrivals: seq<Read>): Tally {
    if arrivals == [] then Tally(0, -1)
    else
      var t, last := TallyOf(arrivals[..|arrivals| - 1]), arrivals[|arrivals| - 1];
      if last.Absent? && t.newest < 0 && last.slot > t.closed then t.(closed := last.slot)
      else if Through(last, t.closed) && last.index > t.newest then t.(newest := last.index)
      else t
  }

  /** The newest version read that gets through, or -1. */
  function NewestThrough(arrivals: seq<Read>): int { TallyOf(arrivals).newest }

  /** Before any version got through. */
  ghost predicate Waiting(h: History, s: State, closed: nat) {
    && s.roundId == h.id && s.slot == closed
    && (s.current.None? || s.current == Some(AbsentRound(h.id)))
    && (s.current.None? ==> closed == 0)
  }

  /** The board shows version `k`, with the counters of the newest version `m` that got through. */
  ghost predicate Shows(h: History, s: State, k: nat, m: nat, closed: nat)
    requires |h.slots| == |h.versions|
  {
    && s.roundId == h.id
    && k <= m < |h.versions| && s.current == Some(h.versions[k])
    && SameCounters(h.versions[k], h.versions[m])
    && s.slot >= closed
    && (s.slot == closed || (m + 1 < |h.slots| ==> s.slot < h.slots[m + 1]))
  }

  lemma FirstVersion(h: History, s: State, closed: nat, r: Read)
    requires ValidHistory(h) && Waiting(h, s, closed) && Through(r, closed) && FromHistory(h, r)
    ensures Shows(h, Step(h, s, r), r.index, r.index, closed)
    ensures r.slot > 0 ==> Step(h, s, r).slot >= h.slots[r.index]
  {
    assert Advances(h.versions[r.index], h.versions[r.index]);
    assert Accepts(s, h.versions[r.index], r.slot);
  }

  /** A newer version that gets through is always taken. */
  lemma NewerVersion(h: History, s: State, k: nat, m: nat, closed: nat, r: Read)
    requires ValidHistory(h) && Shows(h, s, k, m, closed) && Through(r, closed) && FromHistory(h, r) && r.index > m
    ensures Shows(h, Step(h, s, r), r.index, r.index, closed)
    ensures r.slot > 0 ==> Step(h, s, r).slot >= h.slots[r.index]
  {
    assert Advances(h.versions[k], h.versions[r.index]);
    assert Advances(h.versions[r.index], h.versions[r.index]);
    assert h.slots[m + 1] <= h.slots[r.index];
    assert Accepts(s, h.versions[r.index], r.slot);
    if r.index + 1 < |h.slots| { assert h.slots[m + 1] <= h.slots[r.index + 1]; }
  }

  /** A version that does not get through changes nothing. */
  lemma Blocked(h: History, s: State, closed: nat, r: Read)
    requires ValidHistory(h) && s.slot >= closed && s.current.Some?
    requires r.Version? && FromHistory(h, r) && !Through(r, closed)
    ensures Step(h, s, r) == s
  {
  }

  /** An older or repeated version never lowers a counter. */
  lemma OlderVersion(h: History, s: State, k: nat, m: nat, closed: nat, r: Read)
    requires ValidHistory(h) && Shows(h, s, k, m, closed) && r.Version? && FromHistory(h, r) && r.index <= m
    ensures Shows(h, Step(h, s, r), if Accepts(s, h.versions[r.index], r.slot) then r.index else k, m, closed)
    ensures Step(h, s, r).slot >= s.slot
  {
    if Accepts(s, h.versions[r.index], r.slot) {
      AdvancesTransitive(h.versions[m], h.versions[k], h.versions[r.index]);
      assert Advances(h.versions[r.index], h.versions[m]);
      if m + 1 < |h.slots| { assert r.slot > 0 ==> h.slots[r.index + 1] <= h.slots[m + 1]; }
    }
  }

  /** An absent account never replaces a version. */
  lemma AbsentRejected(h: History, s: State, k: nat, m: nat, closed: nat, slot: nat)
    requires ValidHistory(h) && Shows(h, s, k, m, closed)
    ensures Step(h, s, Absent(slot)) == s
  {
  }

  lemma AbsentWhileWaiting(h: History, s: State, closed: nat, slot: nat)
    requires ValidHistory(h) && Waiting(h, s, closed)
    ensures Waiting(h, Step(h, s, Absent(slot)), if slot > closed then slot else closed)
  {
  }

  ghost predicate Delivered(arrivals: seq<Read>, k: nat) {
    exists i :: 0 <= i < |arrivals| && arrivals[i].Version? && arrivals[i].index == k
  }

  /** What holds after any prefix of a run. */
  ghost predicate Progress(h: History, s: State, arrivals: seq<Read>)
    requires ValidHistory(h)
  {
    var t := TallyOf(arrivals);
    if t.newest < 0 then Waiting(h, s, t.closed)
    else exists k :: 0 <= k && Delivered(arrivals, k) && Shows(h, s, k, t.newest, t.closed)
  }

  lemma DeliveredMore(arrivals: seq<Read>, r: Read, k: nat)
    requires Delivered(arrivals, k)
    ensures Delivered(arrivals + [r], k)
  {
    var i :| 0 <= i < |arrivals| && arrivals[i].Version? && arrivals[i].index == k;
    assert (arrivals + [r])[i] == arrivals[i];
  }

  lemma WaitingStep(h: History, s: State, arrivals: seq<Read>, r: Read)
    requires ValidHistory(h) && Progress(h, s, arrivals) && FromHistory(h, r) && NewestThrough(arrivals) < 0
    ensures Progress(h, Step(h, s, r), arrivals + [r])
  {
    var all, t := arrivals + [r], TallyOf(arrivals);
    assert all[..|all| - 1] == arrivals && all[|arrivals|] == r;
    if r.Absent? {
      AbsentWhileWaiting(h, s, t.closed, r.slot);
    } else if Through(r, t.closed) {
      FirstVersion(h, s, t.closed, r);
      assert Delivered(all, r.index);
    } else {
      Blocked(h, s, t.closed, r);
    }
  }

  lemma ShowingStep(h: History, s: State, arrivals: seq<Read>, r: Read)
    requires ValidHistory(h) && Progress(h, s, arrivals) && FromHistory(h, r) && NewestThrough(arrivals) >= 0
    ensures Progress(h, Step(h, s, r), arrivals + [r])
  {
    var all, t := arrivals + [r], TallyOf(arrivals);
    assert all[..|all| - 1] == arrivals && all[|arrivals|] == r;
    var k :| 0 <= k && Delivered(arrivals, k) && Shows(h, s, k, t.newest, t.closed);
    DeliveredMore(arrivals, r, k);
    if r.Absent? {
      AbsentRejected(h, s, k, t.newest, t.closed, r.slot);
    } else {
      assert Delivered(all, r.index);
      if r.index <= t.newest {
        OlderVersion(h, s, k, t.newest, t.closed, r);
      } else if Through(r, t.closed) {
        NewerVersion(h, s, k, t.newest, t.closed, r);
      } else {
        Blocked(h, s, t.closed, r);
      }
    }
  }

  lemma {:induction false} RunProgress(h: History, s0: State, arrivals: seq<Read>)
    requires ValidHistory(h) && Fresh(h, s0)
    requires forall i :: 0 <= i < |arrivals| ==> FromHistory(h, arrivals[i])
    ensures Progress(h, Run(h, s0, arrivals), arrivals)
  {
    if arrivals != [] {
      var rest, last := arrivals[..|arrivals| - 1], arrivals[|arrivals| - 1];
      RunProgress(h, s0, rest);
      assert arrivals == rest + [last];
      if NewestThrough(rest) < 0 {
        WaitingStep(h, Run(h, s0, rest), rest, last);
      } else {
        ShowingStep(h, Run(h, s0, rest), rest, last);
      }
    }
  }

  lemma SameCountersTransitive(a: Snapshot, b: Snapshot, c: Snapshot)
    requires SameCounters(a, b) && SameCounters(b, c)
    ensures SameCounters(a, c) && SameCounters(c, a)
  {
    AdvancesTransitive(a, b, c);
    AdvancesTransitive(c, b, a);
  }

  lemma {:induction false} TallyBounds(h: History, arrivals: seq<Read>)
    requires |h.slots| == |h.versions| && forall i :: 0 <= i < |arrivals| ==> FromHistory(h, arrivals[i])
    ensures -1 <= NewestThrough(arrivals) <= Newest(arrivals) < |h.versions|
  {
    if arrivals != [] { TallyBounds(h, arrivals[..|arrivals| - 1]); }
  }

  /** The board is on a delivered version with the counters of version `n`. */
  ghost predicate ShowsCounters(h: History, s: State, arrivals: seq<Read>, n: nat)
    requires n < |h.versions|
  {
    exists k ::
      && 0 <= k < |h.versions| && Delivered(arrivals, k)
      && s.current == Some(h.versions[k]) && SameCounters(h.versions[k], h.versions[n])
  }

  /**
   * Whatever the order and multiplicity of the arrivals, with slots or without and mixed with reads of the
   * absent account at any point, the board ends with the counters of the most advanced version delivered
   * if and only if a version with those counters got through.
   */
  lemma BoardShowsNewestIff(h: History, s0: State, arrivals: seq<Read>)
    requires ValidHistory(h) && Fresh(h, s0) && Newest(arrivals) >= 0
    requires forall i :: 0 <= i < |arrivals| ==> FromHistory(h, arrivals[i])
    ensures NewestThrough(arrivals) <= Newest(arrivals) < |h.versions|
    ensures ShowsCounters(h, Run(h, s0, arrivals), arrivals, Newest(arrivals)) <==>
      NewestThrough(arrivals) >= 0 && SameCounters(h.versions[NewestThrough(arrivals)], h.versions[Newest(arrivals)])
  {
    RunProgress(h, s0, arrivals);
    TallyBounds(h, arrivals);
    var s, m, n := Run(h, s0, arrivals), NewestThrough(arrivals), Newest(arrivals);
    if m >= 0 {
      var k :| 0 <= k && Delivered(arrivals, k) && Shows(h, s, k, m, TallyOf(arrivals).closed);
      if SameCounters(h.versions[m], h.versions[n]) {
        SameCountersTransitive(h.versions[k], h.versions[m], h.versions[n]);
      }
      if ShowsCounters(h, s, arrivals, n) {
        SameCountersTransitive(h.versions[m], h.versions[k], h.versions[n]);
      }
    }
  }

  ghost predicate ExactlyThrough(h: History, s: State, arrivals: seq<Read>)
    requires ValidHistory(h)
  {
    var t := TallyOf(arrivals);
    t.newest >= 0 ==> Shows(h, s, t.newest, t.newest, t.closed) && s.slot >= h.slots[t.newest]
  }

  lemma OlderRejected(h: History, s: State, m: nat, closed: nat, r: Read)
    requires ValidHistory(h) && Shows(h, s, m, m, closed) && s.slot >= h.slots[m]
    requires r.Version? && FromHistory(h, r) && r.slot > 0 && r.index < m
    ensures Step(h, s, r) == s
  {
    assert h.slots[r.index + 1] <= h.slots[m];
  }

  lemma ExactStep(h: History, s: State, arrivals: seq<Read>, r: Read)
    requires ValidHistory(h) && ExactlyThrough(h, s, arrivals) && Progress(h, s, arrivals) && FromHistory(h, r)
    requires r.Version? ==> r.slot > 0
    ensures ExactlyThrough(h, Step(h, s, r), arrivals + [r])
  {
    var all, t := arrivals + [r], TallyOf(arrivals);
    assert all[..|all| - 1] == arrivals && all[|arrivals|] == r;
    if t.newest < 0 {
      if Through(r, t.closed) { FirstVersion(h, s, t.closed, r); }
    } else if r.Absent? {
      AbsentRejected(h, s, t.newest, t.newest, t.closed, r.slot);
    } else if r.index == t.newest {
      OlderVersion(h, s, t.newest, t.newest, t.closed, r);
    } else if r.index < t.newest {
      OlderRejected(h, s, t.newest, t.closed, r);
    } else if Through(r, t.closed) {
      NewerVersion(h, s, t.newest, t.newest, t.closed, r);
    } else {
      Blocked(h, s, t.closed, r);
    }
  }

  lemma {:induction false} RunExact(h: History, s0: State, arrivals: seq<Read>)
    requires ValidHistory(h) && Fresh(h, s0) && SlotsKnown(arrivals)
    requires forall i :: 0 <= i < |arrivals| ==> FromHistory(h, arrivals[i])
    ensures ExactlyThrough(h, Run(h, s0, arrivals), arrivals)
  {
    if arrivals != [] {
      var rest, last := arrivals[..|arrivals| - 1], arrivals[|arrivals| - 1];
      RunExact(h, s0, rest);
      RunProgress(h, s0, rest);
      ExactStep(h, Run(h, s0, rest), rest, last);
      assert arrivals == rest + [last];
    }
  }

  /** When every read of a version carries its slot, the board is exactly the newest version that got
      through, or still without a version if none did. */
  lemma BoardIsNewestThrough(h: History, s0: State, arrivals: seq<Read>)
    requires ValidHistory(h) && Fresh(h, s0) && SlotsKnown(arrivals)
    requires forall i :: 0 <= i < |arrivals| ==> FromHistory(h, arrivals[i])
    ensures var s, m := Run(h, s0, arrivals), NewestThrough(arrivals);
      if m >= 0 then m < |h.versions| && s.current == Some(h.versions[m])
      else s.current.None? || s.current == Some(AbsentRound(h.id))
  {
    RunExact(h, s0, arrivals);
    RunProgress(h, s0, arrivals);
  }

  // ----- closed reads after the first version only -----

  lemma {:induction false} OpensFirstAllThrough(h: History, arrivals: seq<Read>)
    requires ValidHistory(h) && OpensFirst(h, arrivals)
    requires forall i :: 0 <= i < |arrivals| ==> FromHistory(h, arrivals[i])
    ensures NewestThrough(arrivals) == Newest(arrivals)
    ensures TallyOf(arrivals).closed == 0 || TallyOf(arrivals).closed < h.slots[0]
  {
    if arrivals != [] {
      var rest, last := arrivals[..|arrivals| - 1], arrivals[|arrivals| - 1];
      OpensFirstPrefix(h, arrivals);
      OpensFirstAllThrough(h, rest);
      if last.Version? { assert h.slots[0] <= h.slots[last.index]; }
    }
  }

  lemma OpensFirstPrefix(h: History, arrivals: seq<Read>)
    requires |h.slots| > 0 && OpensFirst(h, arrivals) && arrivals != []
    ensures OpensFirst(h, arrivals[..|arrivals| - 1])
  {
    var rest := arrivals[..|arrivals| - 1];
    forall i | 0 <= i < |rest| && rest[i].Absent? && Newest(rest[..i]) < 0
      ensures rest[i].slot == 0 || rest[i].slot < h.slots[0]
    {
      assert rest[..i] == arrivals[..i];
    }
  }

  /** With no read of the closed account before the first version, the board ends with the counters of the
      most advanced version delivered. */
  lemma BoardKeepsNewestCounters(h: History, s0: State, arrivals: seq<Read>)
    requires ValidHistory(h) && Fresh(h, s0) && OpensFirst(h, arrivals) && Newest(arrivals) >= 0
    requires forall i :: 0 <= i < |arrivals| ==> FromHistory(h, arrivals[i])
    ensures Newest(arrivals) < |h.versions|
    ensures ShowsCounters(h, Run(h, s0, arrivals), arrivals, Newest(arrivals))
  {
    BoardShowsNewestIff(h, s0, arrivals);
    OpensFirstAllThrough(h, arrivals);
    assert Advances(h.versions[Newest(arrivals)], h.versions[Newest(arrivals)]);
  }

  /** If moreover every read of a version carries its slot, the board is exactly that version. */
  lemma BoardIsNewestVersion(h: History, s0: State, arrivals: seq<Read>)
    requires ValidHistory(h) && Fresh(h, s0) && OpensFirst(h, arrivals) && SlotsKnown(arrivals)
    requires forall i :: 0 <= i < |arrivals| ==> FromHistory(h, arrivals[i])
    requires Newest(arrivals) >= 0
    ensures Newest(arrivals) < |h.versions|
    ensures Run(h, s0, arrivals).current == Some(h.versions[Newest(arrivals)])
  {
    BoardIsNewestThrough(h, s0, arrivals);
    OpensFirstAllThrough(h, arrivals);
  }

  /** Exactly when a read moves the board back to an older version: no counter tells the two apart and
      the slots do not order them. If the shown version's own slot is on record, that leaves only a
      read without a slot. */
  lemma RegressesIff(h: History, s: State, k: nat, m: nat, closed: nat, r: Read)
    requires ValidHistory(h) && Shows(h, s, k, m, closed) && r.Version? && FromHistory(h, r) && r.index < k
    ensures Accepts(s, h.versions[r.index], r.slot)
      <==> (r.slot == 0 || r.slot >= s.slot) && SameCounters(h.versions[r.index], h.versions[k])
    ensures s.slot >= h.slots[k] ==>
      (Accepts(s, h.versions[r.index], r.slot) <==> r.slot == 0 && SameCounters(h.versions[r.index], h.versions[k]))
  {
    assert h.slots[r.index + 1] <= h.slots[k];
    assert Advances(h.versions[r.index], h.versions[k]);
  }

  /** A slotless repeat of an older version with equal counters does win over the newer one. */
  lemma SlotlessReadCanRegress()
    ensures
      var v0 := Snapshot(7, 1, true, 5, 1, Zeros(), Zeros(), 3, 0);
      var h := History(7, [v0, v0.(details := 1)], [10, 20]);
      var s0 := State(7, None, 0, Zeros(), Zeros(), 0, None, None);
      ValidHistory(h) && Run(h, s0, [Version(1, 20), Version(0, 0)]).current == Some(h.versions[0])
  {
    var v0 := Snapshot(7, 1, true, 5, 1, Zeros(), Zeros(), 3, 0);
    var h := History(7, [v0, v0.(details := 1)], [10, 20]);
    var s0 := State(7, None, 0, Zeros(), Zeros(), 0, None, None);
    var arrivals := [Version(1, 20), Version(0, 0)];
    assert arrivals[..1] == [Version(1, 20)] && arrivals[..1][..0] == [];
    assert Run(h, s0, []) == s0;
    assert Run(h, s0, [Version(1, 20)]) == Step(h, s0, Version(1, 20));
    assert Run(h, s0, arrivals) == Step(h, Run(h, s0, arrivals[..1]), Version(0, 0));
  }

  /** A closed account read first, before any version, blocks exactly the versions with older slots. */
  lemma ClosedReadFirst(h: History, s0: State, closedSlot: nat, r: Read)
    requires ValidHistory(h) && Fresh(h, s0) && r.Version? && FromHistory(h, r)
    ensures var s := Step(h, s0, Absent(closedSlot));
      Accepts(s, h.versions[r.index], r.slot) <==> closedSlot == 0 || r.slot == 0 || closedSlot <= r.slot
  {
  }

  /** A version read at slot 10, delivered after a read of the closed account at slot 20, never appears. */
  lemma ClosedReadHidesVersion()
    ensures
      var v := Snapshot(7, 1, true, 5, 1, Zeros(), Zeros(), 3, 0);
      var h := History(7, [v], [10]);
      var s0 := State(7, None, 0, Zeros(), Zeros(), 0, None, None);
      && ValidHistory(h) && Fresh(h, s0) && FromHistory(h, Version(0, 10))
      && Step(h, Step(h, s0, Absent(20)), Version(0, 10)).current == Some(AbsentRound(7))
  {
    var v := Snapshot(7, 1, true, 5, 1, Zeros(), Zeros(), 3, 0);
    var h := History(7, [v], [10]);
    var s0 := State(7, None, 0, Zeros(), Zeros(), 0, None, None);
    ClosedReadFirst(h, s0, 20, Version(0, 10));
  }

  /** A slotless version gets past a closed read, and the more advanced version read before the account
      closed does not: the board stays on the older one. */
  lemma ClosedReadHidesLaterVersion(v: Snapshot, w: Snapshot, s0: State)
    requires v.id == w.id == s0.roundId && v.requestedAt > 0 && w.requestedAt > 0
    requires Advances(v, v) && Advances(v, w) && Advances(w, w) && s0.current.None? && s0.slot == 0
    ensures var h := History(v.id, [v, w], [10, 20]);
      && ValidHistory(h) && FromHistory(h, Version(0, 0)) && FromHistory(h, Version(1, 25))
      && Step(h, Step(h, Step(h, s0, Absent(30)), Version(0, 0)), Version(1, 25)).current == Some(v)
  {
    var h := History(v.id, [v, w], [10, 20]);
    var s1 := Step(h, s0, Absent(30));
    assert s1.slot == 30 && s1.current == Some(AbsentRound(v.id));
    var s2 := Step(h, s1, Version(0, 0));
    assert s2.slot == 30 && s2.current == Some(v);
  }

  // ----- published results -----

  datatype Event = Deliver(round: Snapshot, slot: nat) | Result(roundId: nat, round: Snapshot) | Tick(next: nat)

  function React(s: State, e: Event): State {
    match e
    case Deliver(round, slot) => Apply(s, round, slot)
    case Result(id, round) => Publish(s, id, round)
    case Tick(next) => Roll(s, next)
  }

  function ReactAll(s: State, es: seq<Event>): State {
    if es == [] then s else React(ReactAll(s, es[..|es| - 1]), es[|es| - 1])
  }

  predicate NotBefore(a: Option<Resolved>, b: Option<Resolved>) {
    a.Some? ==> b.Some? && a.value.roundId <= b.value.roundId
  }

  /** Published pointers hold resolved rounds, and the played one never leads the latest one. */
  ghost predicate Published(s: State) {
    && (s.lastResolved.Some? ==> s.lastResolved.value.round.resolved)
    && (s.lastPlayed.Some? ==> s.lastPlayed.value.round.resolved && s.lastPlayed.value.round.totalWager > 0)
    && NotBefore(s.lastPlayed, s.lastResolved)
  }

  lemma ReactMovesForward(s: State, e: Event)
    requires Published(s)
    ensures Published(React(s, e))
    ensures NotBefore(s.lastResolved, React(s, e).lastResolved) && NotBefore(s.lastPlayed, React(s, e).lastPlayed)
  {
  }

  /** In every run of deliveries, direct or indexed results and rollovers, the latest result and the
      latest played result only ever move forward. */
  lemma {:induction false} ResultsMoveForward(s: State, es: seq<Event>, n: nat)
    requires Published(s) && n <= |es|
    ensures Published(ReactAll(s, es))
    ensures NotBefore(ReactAll(s, es[..n]).lastResolved, ReactAll(s, es).lastResolved)
    ensures NotBefore(ReactAll(s, es[..n]).lastPlayed, ReactAll(s, es).lastPlayed)
    decreases |es|
  {
    if n == |es| { assert es[..n] == es; }
    if es != [] {
      var rest := es[..|es| - 1];
      ResultsMoveForward(s, rest, if n == |es| then 0 else n);
      ReactMovesForward(ReactAll(s, rest), es[|es| - 1]);
      assert n < |es| ==> rest[..n] == es[..n];
    }
  }

  function Vector(v: seq<nat>): seq<nat> { if v == [] then Zeros() else v }

  /** The visible board is the accepted snapshot, and a settled one has been published. */
  ghost predicate Mirrors(s: State) {
    match s.current
    case None => s.squareTotals == Zeros() && s.squareMiners == Zeros() && s.totalWager == 0
    case Some(round) =>
      && s.squareTotals == Vector(round.tileLamports) && s.squareMiners == Vector(round.tileReceipts)
      && s.totalWager == round.totalWager
      && (round.resolved ==> s.lastResolved.Some? && s.lastResolved.value.roundId >= s.roundId)
      && (round.resolved && round.totalWager > 0 ==> s.lastPlayed.Some? && s.lastPlayed.value.roundId >= s.roundId)
  }

  lemma ReactMirrors(s: State, e: Event)
    requires Mirrors(s)
    ensures Mirrors(React(s, e))
  {
  }

  /** In every run the totals on display are those of the snapshot the guards accepted. */
  lemma {:induction false} BoardMirrorsSnapshot(s: State, es: seq<Event>)
    requires Mirrors(s)
    ensures Mirrors(ReactAll(s, es))
  {
    if es != [] {
      BoardMirrorsSnapshot(s, es[..|es| - 1]);
      ReactMirrors(ReactAll(s, es[..|es| - 1]), es[|es| - 1]);
    }
  }

  // ----- field by field -----

  /** A tile vector that has not fallen anywhere; tiles past the end of the new one count as zero. */
  predicate TilesRose(before: seq<nat>, after: seq<nat>) {
    forall i :: 0 <= i < |before| && before[i] > 0 ==> i < |after| && before[i] <= after[i]
  }

  lemma {:induction false} StepNeverFalls(s: State, e: Event)
    requires s.current.Some? && !e.Tick?
    ensures var t := React(s, e);
      && t.roundId == s.roundId && t.current.Some?
      && (s.current.value.resolved ==> t.current.value.resolved)
      && (s.current.value.requestedAt > 0 ==> t.current.value.requestedAt > 0)
      && s.current.value.totalWager <= t.current.value.totalWager
      && s.current.value.totalReceipts <= t.current.value.totalReceipts
      && TilesRose(s.current.value.tileLamports, t.current.value.tileLamports)
      && TilesRose(s.current.value.tileReceipts, t.current.value.tileReceipts)
  {
    if e.Deliver? && Accepts(s, e.round, e.slot) {
      assert NonDecreasing(e.round.tileLamports, s.current.value.tileLamports);
      assert NonDecreasing(e.round.tileReceipts, s.current.value.tileReceipts);
    }
  }

  /** Within one round, over any run, the board never goes from settled to open or from opened to absent, and
      no total, count or tile ever falls. */
  lemma {:induction false} BoardNeverFalls(s: State, es: seq<Event>)
    requires s.current.Some? && forall n :: 0 <= n < |es| ==> !es[n].Tick?
    ensures var t := ReactAll(s, es);
      && t.roundId == s.roundId && t.current.Some?
      && (s.current.value.resolved ==> t.current.value.resolved)
      && (s.current.value.requestedAt > 0 ==> t.current.value.requestedAt > 0)
      && s.current.value.totalWager <= t.current.value.totalWager
      && s.current.value.totalReceipts <= t.current.value.totalReceipts
      && TilesRose(s.current.value.tileLamports, t.current.value.tileLamports)
      && TilesRose(s.current.value.tileReceipts, t.current.value.tileReceipts)
  {
    if es != [] {
      BoardNeverFalls(s, es[..|es| - 1]);
      StepNeverFalls(ReactAll(s, es[..|es| - 1]), es[|es| - 1]);
    }
  }

  /** And nothing else is held back: a snapshot of this round that is no lower in any of these fields, and not
      from an older known slot, is on the board right after it arrives, every figure of it. */
  lemma {:induction false} HigherSnapshotTaken(s: State, round: Snapshot, slot: nat)
    requires round.id == s.roundId
    requires s.current.Some? ==>
      var now := s.current.value;
      && (slot == 0 || s.slot == 0 || slot >= s.slot)
      && (now.resolved ==> round.resolved) && (now.requestedAt > 0 ==> round.requestedAt > 0)
      && now.totalWager <= round.totalWager && now.totalReceipts <= round.totalReceipts
      && TilesRose(now.tileLamports, round.tileLamports) && TilesRose(now.tileReceipts, round.tileReceipts)
    ensures var t := React(s, Deliver(round, slot));
      && t.current == Some(round) && t.totalWager == round.totalWager
      && t.slot >= slot && t.slot >= s.slot && (t.slot == slot || t.slot == s.slot)
      && (|round.tileLamports| > 0 ==> t.squareTotals == round.tileLamports)
      && (|round.tileReceipts| > 0 ==> t.squareMiners == round.tileReceipts)
      && (round.tileLamports == [] ==> |t.squareTotals| == 25 && forall i :: 0 <= i < 25 ==> t.squareTotals[i] == 0)
      && (round.tileReceipts == [] ==> |t.squareMiners| == 25 && forall i :: 0 <= i < 25 ==> t.squareMiners[i] == 0)
  {
    assert Accepts(s, round, slot);
  }

  /** A snapshot of another round, or from an older known slot, changes nothing at all. */
  lemma {:induction false} StaleSnapshotIgnored(s: State, round: Snapshot, slot: nat)
    requires round.id != s.roundId || (s.current.Some? && 0 < slot < s.slot)
    ensures React(s, Deliver(round, slot)) == s
  {
  }

  /** A rollover leaves a blank board for the new round and the published results as they were. */
  lemma {:induction false} RolloverIsBlank(s: State, next: nat)
    ensures var t := React(s, Tick(next));
      && t.roundId == next && t.current == None && t.slot == 0 && t.totalWager == 0
      && |t.squareTotals| == |t.squareMiners| == 25
      && (forall i :: 0 <= i < 25 ==> t.squareTotals[i] == 0 && t.squareMiners[i] == 0)
      && t.lastResolved == s.lastResolved && t.lastPlayed == s.lastPlayed
  {
  }

  // ----- which result is published -----

  /** Event `n` publishes a result: a settled round not ahead of the clock, with deployments if `played`. */
  predicate Publishes(roundId: nat, e: Event, played: bool) {
    e.Result? && e.round.resolved && e.roundId <= roundId && (played ==> e.round.totalWager > 0)
  }

  /** The published result is that of the newest round, and of the last event for that round. */
  ghost predicate NewestResult(roundId: nat, es: seq<Event>, played: bool, shown: Option<Resolved>) {
    if shown.None? then forall n :: 0 <= n < |es| ==> !Publishes(roundId, es[n], played)
    else exists n ::
      && 0 <= n < |es| && Publishes(roundId, es[n], played)
      && shown.value == Resolved(es[n].roundId, es[n].round)
      && forall m :: 0 <= m < |es| && Publishes(roundId, es[m], played) ==>
           es[m].roundId <= es[n].roundId && (m > n ==> es[m].roundId < es[n].roundId)
  }

  lemma {:induction false} NewestResultStep(roundId: nat, es: seq<Event>, e: Event, played: bool,
                                            shown: Option<Resolved>, next: Option<Resolved>)
    requires NewestResult(roundId, es, played, shown) && e.Result?
    requires next == if Publishes(roundId, e, played) && (shown.None? || e.roundId >= shown.value.roundId)
                     then Some(Resolved(e.roundId, e.round)) else shown
    ensures NewestResult(roundId, es + [e], played, next)
  {
    var all := es + [e];
    assert forall m :: 0 <= m < |es| ==> all[m] == es[m];
    if next == shown && shown.Some? && !(Publishes(roundId, e, played) && e.roundId >= shown.value.roundId) {
      var n :| 0 <= n < |es| && Publishes(roundId, es[n], played)
        && shown.value == Resolved(es[n].roundId, es[n].round)
        && forall m :: 0 <= m < |es| && Publishes(roundId, es[m], played) ==>
             es[m].roundId <= es[n].roundId && (m > n ==> es[m].roundId < es[n].roundId);
      assert all[n] == es[n];
    } else if next.Some? {
      assert all[|es|] == e;
    }
  }

  /** Whatever results arrive, direct or indexed and in any order, the latest result is that of the newest
      settled round among them, the latest played one that of the newest with deployments, each with the
      contents read last. */
  lemma {:induction false} PublishedIsNewest(s: State, es: seq<Event>)
    requires s.lastResolved.None? && s.lastPlayed.None? && forall n :: 0 <= n < |es| ==> es[n].Result?
    ensures ReactAll(s, es).roundId == s.roundId
    ensures NewestResult(s.roundId, es, false, ReactAll(s, es).lastResolved)
    ensures NewestResult(s.roundId, es, true, ReactAll(s, es).lastPlayed)
  {
    if es != [] {
      var rest, last := es[..|es| - 1], es[|es| - 1];
      PublishedIsNewest(s, rest);
      PublishedStep(ReactAll(s, rest), rest, last);
      assert es == rest + [last];
    }
  }

  lemma {:induction false} PublishedStep(s: State, es: seq<Event>, e: Event)
    requires e.Result? && NewestResult(s.roundId, es, false, s.lastResolved)
    requires NewestResult(s.roundId, es, true, s.lastPlayed)
    ensures React(s, e).roundId == s.roundId
    ensures NewestResult(s.roundId, es + [e], false, React(s, e).lastResolved)
    ensures NewestResult(s.roundId, es + [e], true, React(s, e).lastPlayed)
  {
    NewestResultStep(s.roundId, es, e, false, s.lastResolved, React(s, e).lastResolved);
    NewestResultStep(s.roundId, es, e, true, s.lastPlayed, React(s, e).lastPlayed);
  }

  /** A settled snapshot taken on the board is published as a result of its round at once. */
  lemma {:induction false} DeliveryPublishes(s: State, round: Snapshot, slot: nat)
    requires React(s, Deliver(round, slot)).current == Some(round) && Some(round) != s.current && round.resolved
    ensures var t, r := React(s, Deliver(round, slot)), React(s, Result(s.roundId, round));
      t.lastResolved == r.lastResolved && t.lastPlayed == r.lastPlayed
  {
  }
}
