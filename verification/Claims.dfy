/**
 * `executeClaimChunks` and `claimManyRounds` of Frontend/src/chain/lottery.js, and `claimBatched` of
 * Frontend/src/chain/mine-page.js, run against a receipt ledger that a keeper may shrink at any moment.
 */
module ClaimProtocol {
  import opened Common
  import opened Sums

  /** An open reward receipt of the wallet. */
  datatype Claim = Claim(receipt: nat, roundId: nat)

  datatype Status = Complete | Partial | Failed | Unverified

  datatype Outcome = Outcome(
    status: Status,
    signature: Option<nat>,
    processed: seq<nat>,          // processedRoundIds
    remaining: seq<nat>,          // remainingRoundIds
    confirmedReceiptCount: nat,
    failed: bool,                 // a `failure` is attached
    reconciled: bool)

  // ----- the chain and its other actors -----

  /** No receipt of these rounds is open. */
  predicate Closed(open: set<Claim>, ids: seq<nat>) {
    forall c :: c in open ==> c.roundId !in ids
  }

  /** What the client asked of the outside world, and what came back. */
  datatype Event =
    | Scan(rows: Option<seq<Claim>>)
    | Build(ok: bool)                                       // the program client and the instructions
    | Send(chunk: seq<Claim>, signature: Option<nat>)
    | Rescan(found: Option<set<Claim>>)

  /**
   * The wallet's receipts on chain. Receipts only ever leave `open`: the owner's confirmed chunks and a
   * permissionless keeper remove them, and no receipt is added for a round being claimed.
   */
  class ReceiptBook {
    var open: set<Claim>
    const known: set<Claim>       // every receipt a slightly stale scan could still show
    ghost var log: seq<Event>     // everything asked so far

    constructor (open: set<Claim>, known: set<Claim>)
      requires open <= known
      ensures this.open == open && this.known == known && log == []
    {
      this.open, this.known, log := open, known, [];
    }

    predicate Valid() reads this { open <= known }

    /** The keeper processes any receipts it likes. */
    method Keeper()
      requires Valid()
      modifies this`open
      ensures Valid() && open <= old(open)
    {
      var kept: set<Claim> :| kept <= open;
      open := kept;
    }

    /** One atomic transaction. A failed send may still land, or race with the keeper. */
    method SendChunk(chunk: seq<Claim>) returns (signature: Option<nat>)
      requires Valid()
      modifies this
      ensures Valid() && open <= old(open)
      ensures signature.Some? ==> forall c :: c in chunk ==> c !in open
      ensures log == old(log) + [Send(chunk, signature)]
    {
      Keeper();
      var lands: bool :| true;
      var confirms: bool :| true;
      signature := None;
      if lands && forall c :: c in chunk ==> c in open {
        open := open - (set c | c in chunk);
        if confirms {
          var id: nat :| true;
          signature := Some(id);
        }
      }
      log := log + [Send(chunk, signature)];
      Keeper();
    }

    /** A fresh ledger scan, or an unavailable RPC. */
    method ScanAgain(wanted: seq<nat>) returns (rows: Option<set<Claim>>)
      requires Valid()
      modifies this
      ensures Valid() && open <= old(open)
      ensures rows.Some? ==> rows.value <= old(open)
      ensures rows.Some? ==> forall c :: c in open && c.roundId in wanted ==> c in rows.value
      ensures rows.Some? ==> forall c :: c in rows.value ==> c.roundId in wanted
      ensures log == old(log) + [Rescan(rows)]
    {
      Keeper();
      var available: bool :| true;
      rows := None;
      if available {
        rows := Some(set c | c in open && c.roundId in wanted);
      }
      log := log + [Rescan(rows)];
      Keeper();
    }

    /** `claimableReceipts` through the short-lived scan cache: possibly stale, never short. */
    method CachedScan(wanted: seq<nat>) returns (rows: Option<seq<Claim>>)
      requires Valid()
      modifies this
      ensures Valid() && open <= old(open)
      ensures rows.Some? ==> forall c :: c in open && c.roundId in wanted ==> c in rows.value
      ensures rows.Some? ==> forall c :: c in rows.value ==> c.roundId in wanted
      ensures rows.Some? ==> Distinct(rows.value)
      ensures log == old(log) + [Scan(rows)]
    {
      var available: bool :| true;
      rows := None;
      if available {
        var seen: set<Claim> :| open <= seen <= known;
        var list := Listed(set c | c in seen && c.roundId in wanted);
        rows := Some(list);
      }
      log := log + [Scan(rows)];
      Keeper();
    }

    /** The program client and one instruction per receipt, or an error. */
    method BuildInstructions() returns (ok: bool)
      requires Valid()
      modifies this
      ensures Valid() && open <= old(open) && log == old(log) + [Build(ok)]
    {
      ok :| true;
      log := log + [Build(ok)];
      Keeper();
    }

    /** Scan results arrive in no particular order. */
    static method Listed(s: set<Claim>) returns (list: seq<Claim>)
      ensures Distinct(list) && forall c :: c in list <==> c in s
    {
      list := [];
      var rest := s;
      while rest != {}
        invariant rest <= s && Distinct(list)
        invariant forall c :: c in list <==> c in s - rest
        decreases rest
      {
        var c :| c in rest;
        assert c !in list;
        list := list + [c];
        rest := rest - {c};
      }
    }
  }

  // ----- identifiers -----

  /** `uniqueClaimRoundIds`: one entry per id, in order of first appearance. */
  function Unique(ids: seq<nat>): seq<nat> {
    if ids == [] then []
    else
      var last, rest := ids[|ids| - 1], Unique(ids[..|ids| - 1]);
      if last in rest then rest else rest + [last]
  }

  lemma {:induction false} UniqueMembers(ids: seq<nat>)
    ensures Distinct(Unique(ids)) && forall id :: id in Unique(ids) <==> id in ids
  {
    if ids != [] { UniqueMembers(ids[..|ids| - 1]); }
  }

  /** Ids keep the order in which they first appear. */
  lemma {:induction false} UniqueKeepsOrder(ids: seq<nat>, i: nat, j: nat) returns (at: nat)
    requires i < j < |Unique(ids)|
    ensures at < |ids| && ids[at] == Unique(ids)[i] && Unique(ids)[j] !in ids[..at + 1]
  {
    var rest, last := ids[..|ids| - 1], ids[|ids| - 1];
    UniqueMembers(rest);
    if j < |Unique(rest)| {
      at := UniqueKeepsOrder(rest, i, j);
      assert ids[..at + 1] == rest[..at + 1];
    } else {
      assert Unique(ids)[i] in rest;
      at :| 0 <= at < |rest| && rest[at] == Unique(ids)[i];
      assert forall id :: id in ids[..at + 1] ==> id in rest;
    }
  }

  function FilterIn(ids: seq<nat>, keys: set<nat>): seq<nat> {
    if ids == [] then []
    else FilterIn(ids[..|ids| - 1], keys) + if ids[|ids| - 1] in keys then [ids[|ids| - 1]] else []
  }

  function FilterOut(ids: seq<nat>, keys: set<nat>): seq<nat> {
    if ids == [] then []
    else FilterOut(ids[..|ids| - 1], keys) + if ids[|ids| - 1] in keys then [] else [ids[|ids| - 1]]
  }

  /** Processed and remaining ids split the request, nothing twice and nothing lost. */
  ghost predicate Splits(requested: seq<nat>, processed: seq<nat>, remaining: seq<nat>) {
    multiset(processed) + multiset(remaining) == multiset(requested)
  }

  lemma {:induction false} FilterSplits(ids: seq<nat>, keys: set<nat>)
    ensures Splits(ids, FilterOut(ids, keys), FilterIn(ids, keys))
    ensures forall id :: id in FilterIn(ids, keys) <==> id in ids && id in keys
    ensures forall id :: id in FilterOut(ids, keys) <==> id in ids && id !in keys
  {
    if ids != [] {
      FilterSplits(ids[..|ids| - 1], keys);
      assert ids == ids[..|ids| - 1] + [ids[|ids| - 1]];
    }
  }

  // ----- counting receipts per round -----

  function CountRound(claims: seq<Claim>, id: nat): nat {
    if claims == [] then 0
    else CountRound(claims[..|claims| - 1], id) + if claims[|claims| - 1].roundId == id then 1 else 0
  }

  lemma {:induction false} CountAppend(a: seq<Claim>, b: seq<Claim>, id: nat)
    ensures CountRound(a + b, id) == CountRound(a, id) + CountRound(b, id)
  {
    if b == [] {
      assert a + b == a;
    } else {
      assert (a + b)[..|a + b| - 1] == a + b[..|b| - 1];
      CountAppend(a, b[..|b| - 1], id);
    }
  }

  lemma {:induction false} CountZero(claims: seq<Claim>, id: nat)
    ensures CountRound(claims, id) == 0 <==> forall c :: c in claims ==> c.roundId != id
  {
    if claims != [] { CountZero(claims[..|claims| - 1], id); }
  }

  /** A per-round tally of the first receipts, absent meaning zero. */
  ghost predicate Tallies(tally: map<nat, nat>, claims: seq<Claim>) {
    forall id :: Count(tally, id) == CountRound(claims, id)
  }

  function Count(tally: map<nat, nat>, id: nat): nat { if id in tally then tally[id] else 0 }

  method TallyMore(tally: map<nat, nat>, ghost before: seq<Claim>, more: seq<Claim>) returns (next: map<nat, nat>)
    requires Tallies(tally, before)
    ensures Tallies(next, before + more)
  {
    next := tally;
    assert before + more[..0] == before;
    for i := 0 to |more|
      invariant Tallies(next, before + more[..i])
    {
      var key := more[i].roundId;
      assert (before + more[..i + 1])[..|before| + i] == before + more[..i];
      next := next[key := Count(next, key) + 1];
    }
    assert more[..|more|] == more;
  }

  /** A round whose confirmed receipts reach its initial count has none beyond the confirmed prefix. */
  lemma CountedOut(claims: seq<Claim>, n: nat, id: nat)
    requires n <= |claims|
    ensures CountRound(claims[..n], id) >= CountRound(claims, id)
      <==> forall c :: c in claims[n..] ==> c.roundId != id
  {
    assert claims == claims[..n] + claims[n..];
    CountAppend(claims[..n], claims[n..], id);
    CountZero(claims[n..], id);
  }

  // ----- executeClaimChunks -----

  /** What every outcome promises, whatever the keeper did meanwhile. */
  ghost predicate Honest(out: Outcome, requested: seq<nat>, open: set<Claim>) {
    && Splits(requested, out.processed, out.remaining)
    && Closed(open, out.processed)
    && (out.status == Complete <==> out.remaining == [])
    && (out.status == Partial ==> out.processed != [])
    && (out.status == Failed ==> out.processed == [])
    && (out.status == Unverified <==> !out.reconciled)
    && (out.status != Complete ==> out.failed)
    && (out.signature.Some? <==> out.confirmedReceiptCount > 0)
  }

  /** Confirmed receipts stay closed, and a round is reported remaining only on evidence. */
  ghost predicate Evidenced(out: Outcome, claims: seq<Claim>, before: set<Claim>, open: set<Claim>) {
    && out.confirmedReceiptCount <= |claims|
    && (forall c :: c in claims[..out.confirmedReceiptCount] ==> c !in open)
    && (out.reconciled ==> forall id :: id in out.remaining ==> HasOpen(before, id))
    && (!out.reconciled ==> forall id :: id in out.remaining <==> HasClaim(claims[out.confirmedReceiptCount..], id))
  }

  ghost predicate HasOpen(open: set<Claim>, id: nat) { exists c :: c in open && c.roundId == id }

  ghost predicate HasClaim(claims: seq<Claim>, id: nat) { exists c :: c in claims && c.roundId == id }

  /** `claims` is a scan of the wallet's receipts for the requested rounds. */
  ghost predicate Scanned(claims: seq<Claim>, requestedRoundIds: seq<nat>, open: set<Claim>) {
    && (forall c :: c in open && c.roundId in requestedRoundIds ==> c in claims)
    && (forall c :: c in claims ==> c.roundId in requestedRoundIds)
  }

  lemma PrefixExtends(claims: seq<Claim>, offset: nat, end: nat)
    requires offset <= end <= |claims|
    ensures claims[..end] == claims[..offset] + claims[offset..end]
    ensures forall c :: c in claims[..end] ==> c in claims[..offset] || c in claims[offset..end]
  {
  }

  /** The receipts of a list of sends, one chunk after the other. */
  function Receipts(sends: seq<Event>): seq<Claim> {
    if sends == [] then []
    else Receipts(sends[..|sends| - 1]) + if sends[|sends| - 1].Send? then sends[|sends| - 1].chunk else []
  }

  /** Sends go through `claims` from the front without a gap, `chunkSize` receipts at a time; only the chunk
      that ends the list may be shorter, and none is empty. */
  ghost predicate Cut(sends: seq<Event>, claims: seq<Claim>, chunkSize: nat) {
    && Receipts(sends) <= claims
    && (forall j :: 0 <= j < |sends| ==> sends[j].Send? && 0 < |sends[j].chunk| <= chunkSize)
    && (forall j :: 0 <= j < |sends| && |sends[j].chunk| < chunkSize ==> j == |sends| - 1 && Receipts(sends) == claims)
  }

  function ChunkEnd(claims: seq<Claim>, from: nat, chunkSize: nat): (end: nat)
    requires from < |claims|
    ensures from <= end <= |claims|
  {
    if from + chunkSize < |claims| then from + chunkSize else |claims|
  }

  ghost predicate Confirmed(sends: seq<Event>) {
    forall j :: 0 <= j < |sends| ==> sends[j].Send? && sends[j].signature.Some?
  }

  function LastSignature(sends: seq<Event>): Option<nat> {
    if sends == [] || !sends[|sends| - 1].Send? then None else sends[|sends| - 1].signature
  }

  /** Everything was sent and confirmed, chunk after chunk. */
  ghost predicate SentAll(events: seq<Event>, claims: seq<Claim>, chunkSize: nat, out: Outcome) {
    && Cut(events, claims, chunkSize) && Confirmed(events) && Receipts(events) == claims
    && !out.failed && out.status == Complete && out.confirmedReceiptCount == |claims|
    && out.signature == LastSignature(events)
  }

  /** Confirmed chunks, one that failed, and a rescan. */
  ghost predicate Stopped(events: seq<Event>, claims: seq<Claim>, chunkSize: nat, out: Outcome) {
    && |events| >= 2 && Cut(events[..|events| - 1], claims, chunkSize)
    && Confirmed(events[..|events| - 2]) && events[|events| - 2].signature == None
    && out.failed && Rescanned(out, events[|events| - 1])
    && out.confirmedReceiptCount == |Receipts(events[..|events| - 2])|
    && out.signature == LastSignature(events[..|events| - 2])
  }

  /** Reconciled exactly when the rescan answered, and then remaining rounds are those it still found. */
  ghost predicate Rescanned(out: Outcome, rescan: Event) {
    && rescan.Rescan? && (out.reconciled <==> rescan.found.Some?)
    && (out.reconciled ==> forall id :: id in out.remaining ==> HasOpen(rescan.found.value, id))
    && (out.reconciled ==> forall id :: id in out.processed ==> !HasOpen(rescan.found.value, id))
  }

  /** What `executeClaimChunks` asked for, and that its outcome is what came back. */
  ghost predicate Executed(events: seq<Event>, claims: seq<Claim>, chunkSize: nat, out: Outcome) {
    SentAll(events, claims, chunkSize, out) || Stopped(events, claims, chunkSize, out)
  }

  /** The loop so far: the first `count` receipts sent and confirmed. */
  ghost predicate Sending(sends: seq<Event>, claims: seq<Claim>, chunkSize: nat, count: nat, signature: Option<nat>) {
    && count <= |claims| && Receipts(sends) == claims[..count]
    && Cut(sends, claims, chunkSize) && Confirmed(sends)
    && signature == LastSignature(sends) && (signature.Some? <==> count > 0)
  }

  lemma {:induction false} CutMore(sends: seq<Event>, claims: seq<Claim>, chunkSize: nat, count: nat,
                                   result: Option<nat>)
    requires Cut(sends, claims, chunkSize) && chunkSize > 0 && count < |claims| && Receipts(sends) == claims[..count]
    ensures var end := ChunkEnd(claims, count, chunkSize);
      var all := sends + [Send(claims[count..end], result)];
      Cut(all, claims, chunkSize) && Receipts(all) == claims[..end]
  {
    var end := ChunkEnd(claims, count, chunkSize);
    var all := sends + [Send(claims[count..end], result)];
    assert all[..|all| - 1] == sends && claims[..end] == claims[..count] + claims[count..end];
    assert end == |claims| ==> claims[..end] == claims;
  }

  lemma {:induction false} SendingMore(sends: seq<Event>, claims: seq<Claim>, chunkSize: nat, count: nat,
                                       signature: Option<nat>, id: nat)
    requires Sending(sends, claims, chunkSize, count, signature) && chunkSize > 0 && count < |claims|
    ensures var end := ChunkEnd(claims, count, chunkSize);
      Sending(sends + [Send(claims[count..end], Some(id))], claims, chunkSize, end, Some(id))
  {
    CutMore(sends, claims, chunkSize, count, Some(id));
  }

  lemma {:induction false} AllWereSent(sends: seq<Event>, claims: seq<Claim>, chunkSize: nat,
                                       signature: Option<nat>, out: Outcome)
    requires Sending(sends, claims, chunkSize, |claims|, signature)
    requires !out.failed && out.status == Complete && out.confirmedReceiptCount == |claims|
    requires out.signature == signature
    ensures SentAll(sends, claims, chunkSize, out)
  {
    assert claims[..|claims|] == claims;
  }

  /** The sending loop, up to the first chunk that fails. */
  method SendChunks(book: ReceiptBook, claims: seq<Claim>, chunkSize: nat)
    returns (count: nat, signature: Option<nat>, confirmed: map<nat, nat>, failed: bool, ghost sends: seq<Event>)
    requires book.Valid() && chunkSize > 0
    modifies book
    ensures book.Valid() && book.open <= old(book.open)
    ensures Sending(sends, claims, chunkSize, count, signature) && Tallies(confirmed, claims[..count])
    ensures forall c :: c in claims[..count] ==> c !in book.open
    ensures failed <==> count < |claims|
    ensures failed ==>
      book.log == old(book.log) + sends + [Send(claims[count..ChunkEnd(claims, count, chunkSize)], None)]
    ensures !failed ==> book.log == old(book.log) + sends
  {
    count, signature, confirmed, failed, sends := 0, None, map[], false, [];
    while count < |claims|
      invariant book.Valid() && book.open <= old(book.open) && book.log == old(book.log) + sends
      invariant count <= |claims| && Sending(sends, claims, chunkSize, count, signature)
      invariant Tallies(confirmed, claims[..count]) && forall c :: c in claims[..count] ==> c !in book.open
      decreases |claims| - count
    {
      var end := ChunkEnd(claims, count, chunkSize);
      var chunk := claims[count..end];
      PrefixExtends(claims, count, end);
      var sent := book.SendChunk(chunk);
      if sent.None? {
        failed := true;
        return;
      }
      SendingMore(sends, claims, chunkSize, count, signature, sent.value);
      sends := sends + [Send(chunk, sent)];
      confirmed := TallyMore(confirmed, claims[..count], chunk);
      signature, count := sent, end;
    }
  }

  /** `executeClaimChunks`. */
  method ExecuteClaimChunks(book: ReceiptBook, requestedRoundIds: seq<nat>, claims: seq<Claim>, chunkSize: nat)
    returns (out: Outcome, ghost events: seq<Event>)
    requires book.Valid() && chunkSize > 0 && Scanned(claims, requestedRoundIds, book.open)
    modifies book
    ensures book.Valid() && book.open <= old(book.open)
    ensures Honest(out, Unique(requestedRoundIds), book.open)
    ensures Evidenced(out, claims, old(book.open), book.open)
    ensures book.log == old(book.log) + events && Executed(events, claims, chunkSize, out)
  {
    var initial := TallyMore(map[], [], claims);
    assert [] + claims == claims;
    var count, signature, confirmed, failed, sends := SendChunks(book, claims, chunkSize);
    if failed {
      ghost var rescan;
      out, rescan := Stop(book, requestedRoundIds, claims, chunkSize, count, signature, initial, confirmed, sends);
      events := sends + [Send(claims[count..ChunkEnd(claims, count, chunkSize)], None), rescan];
      LogGrows(old(book.log), sends, Send(claims[count..ChunkEnd(claims, count, chunkSize)], None), rescan);
    } else {
      assert claims[..|claims|] == claims;
      out := Outcome(Complete, signature, Unique(requestedRoundIds), [], count, false, true);
      AllSent(out, requestedRoundIds, claims, book.open);
      AllWereSent(sends, claims, chunkSize, signature, out);
      events := sends;
    }
  }

  lemma LogGrows(log: seq<Event>, sends: seq<Event>, send: Event, rescan: Event)
    ensures log + sends + [send] + [rescan] == log + (sends + [send, rescan])
  {
  }

  method Stop(book: ReceiptBook, requestedRoundIds: seq<nat>, claims: seq<Claim>, chunkSize: nat, count: nat,
              signature: Option<nat>, initial: map<nat, nat>, confirmed: map<nat, nat>, ghost sends: seq<Event>)
    returns (out: Outcome, ghost rescan: Event)
    requires book.Valid() && Scanned(claims, requestedRoundIds, book.open) && count < |claims| && chunkSize > 0
    requires Tallies(initial, claims) && Tallies(confirmed, claims[..count])
    requires forall c :: c in claims[..count] ==> c !in book.open
    requires Sending(sends, claims, chunkSize, count, signature)
    modifies book
    ensures book.Valid() && book.open <= old(book.open) && book.log == old(book.log) + [rescan]
    ensures Honest(out, Unique(requestedRoundIds), book.open)
    ensures Evidenced(out, claims, old(book.open), book.open)
    ensures Stopped(sends + [Send(claims[count..ChunkEnd(claims, count, chunkSize)], None), rescan],
                    claims, chunkSize, out)
  {
    out, rescan := AfterFailure(book, requestedRoundIds, claims, count, signature, initial, confirmed);
    StoppedHere(sends, rescan, claims, chunkSize, count, signature, out);
  }

  lemma {:induction false} StoppedHere(sends: seq<Event>, rescan: Event, claims: seq<Claim>, chunkSize: nat, count: nat,
                    signature: Option<nat>, out: Outcome)
    requires Sending(sends, claims, chunkSize, count, signature) && chunkSize > 0 && count < |claims|
    requires out.failed && out.confirmedReceiptCount == count && out.signature == signature && Rescanned(out, rescan)
    ensures var chunk := claims[count..ChunkEnd(claims, count, chunkSize)];
      Stopped(sends + [Send(chunk, None), rescan], claims, chunkSize, out)
  {
    var chunk := claims[count..ChunkEnd(claims, count, chunkSize)];
    var events := sends + [Send(chunk, None), rescan];
    CutMore(sends, claims, chunkSize, count, None);
    assert events[..|events| - 1] == sends + [Send(chunk, None)];
    assert events[..|events| - 2] == sends;
  }

  lemma AllSent(out: Outcome, requestedRoundIds: seq<nat>, claims: seq<Claim>, open: set<Claim>)
    requires Scanned(claims, requestedRoundIds, open) && forall c :: c in claims ==> c !in open
    requires out == Outcome(Complete, out.signature, Unique(requestedRoundIds), [], |claims|, false, true)
    requires out.signature.Some? <==> |claims| > 0
    ensures Honest(out, Unique(requestedRoundIds), open)
  {
    UniqueMembers(requestedRoundIds);
  }

  /** The `catch` arm: reconcile against a rescan, or fall back on the confirmed counts. */
  method AfterFailure(book: ReceiptBook, requestedRoundIds: seq<nat>, claims: seq<Claim>, count: nat,
                      signature: Option<nat>, initial: map<nat, nat>, confirmed: map<nat, nat>)
    returns (out: Outcome, ghost rescan: Event)
    requires book.Valid() && Scanned(claims, requestedRoundIds, book.open) && count < |claims|
    requires Tallies(initial, claims) && Tallies(confirmed, claims[..count])
    requires forall c :: c in claims[..count] ==> c !in book.open
    requires signature.Some? <==> count > 0
    modifies book
    ensures book.Valid() && book.open <= old(book.open)
    ensures Honest(out, Unique(requestedRoundIds), book.open)
    ensures Evidenced(out, claims, old(book.open), book.open)
    ensures book.log == old(book.log) + [rescan] && Rescanned(out, rescan)
    ensures out.failed && out.signature == signature && out.confirmedReceiptCount == count
  {
    var rows := book.ScanAgain(requestedRoundIds);
    rescan := Rescan(rows);
    if rows.Some? {
      out := Reconciled(requestedRoundIds, rows.value, count, signature, old(book.open), book.open);
    } else {
      out := Unreconciled(requestedRoundIds, claims, count, signature, initial, confirmed, book.open);
    }
  }

  method Reconciled(requestedRoundIds: seq<nat>, rows: set<Claim>, count: nat, signature: Option<nat>,
                    ghost before: set<Claim>, ghost open: set<Claim>)
    returns (out: Outcome)
    requires rows <= before && (signature.Some? <==> count > 0)
    requires forall c :: c in open && c.roundId in requestedRoundIds ==> c in rows
    ensures Honest(out, Unique(requestedRoundIds), open)
    ensures out.reconciled && out.confirmedReceiptCount == count && out.failed && out.signature == signature
    ensures forall id :: id in out.remaining ==> HasOpen(before, id) && HasOpen(rows, id)
    ensures forall id :: id in out.processed ==> !HasOpen(rows, id)
  {
    var requested := Unique(requestedRoundIds);
    var remainingKeys := set c | c in rows :: c.roundId;
    FilterSplits(requested, remainingKeys);
    var processed, remaining := FilterOut(requested, remainingKeys), FilterIn(requested, remainingKeys);
    out := Outcome(if remaining == [] then Complete else if processed != [] then Partial else Failed,
                   signature, processed, remaining, count, true, true);
    ReconciledOutcome(out, requestedRoundIds, rows, remainingKeys, before, open);
  }

  method Unreconciled(requestedRoundIds: seq<nat>, claims: seq<Claim>, count: nat, signature: Option<nat>,
                      initial: map<nat, nat>, confirmed: map<nat, nat>, ghost open: set<Claim>)
    returns (out: Outcome)
    requires Scanned(claims, requestedRoundIds, open) && count < |claims| && (signature.Some? <==> count > 0)
    requires Tallies(initial, claims) && Tallies(confirmed, claims[..count])
    requires forall c :: c in claims[..count] ==> c !in open
    ensures Honest(out, Unique(requestedRoundIds), open)
    ensures !out.reconciled && out.confirmedReceiptCount == count && out.failed && out.signature == signature
    ensures forall id :: id in out.remaining <==> HasClaim(claims[count..], id)
  {
    var requested := Unique(requestedRoundIds);
    var processedKeys := set id | id in requested && Count(confirmed, id) >= Count(initial, id);
    FilterSplits(requested, processedKeys);
    out := Outcome(Unverified, signature, FilterIn(requested, processedKeys), FilterOut(requested, processedKeys),
                   count, true, false);
    UnverifiedOutcome(out, requestedRoundIds, claims, count, processedKeys, open);
  }

  lemma ReconciledOutcome(out: Outcome, requestedRoundIds: seq<nat>, rows: set<Claim>, keys: set<nat>,
                          before: set<Claim>, open: set<Claim>)
    requires forall c :: c in open && c.roundId in requestedRoundIds ==> c in rows
    requires rows <= before && keys == set c | c in rows :: c.roundId
    requires forall id :: id in out.processed <==> id in Unique(requestedRoundIds) && id !in keys
    requires forall id :: id in out.remaining <==> id in Unique(requestedRoundIds) && id in keys
    ensures Closed(open, out.processed)
    ensures forall id :: id in out.remaining ==> HasOpen(before, id) && HasOpen(rows, id)
    ensures forall id :: id in out.processed ==> !HasOpen(rows, id)
  {
    UniqueMembers(requestedRoundIds);
    forall c | c in open ensures c.roundId !in out.processed {
      assert c in rows ==> c.roundId in keys;
    }
    forall id | id in out.remaining ensures HasOpen(before, id) && HasOpen(rows, id) {
      var c :| c in rows && c.roundId == id;
      assert c in before;
    }
  }

  /** Without a rescan, only rounds whose every receipt was confirmed count as processed. */
  lemma UnverifiedOutcome(out: Outcome, requestedRoundIds: seq<nat>, claims: seq<Claim>, count: nat,
                          processedKeys: set<nat>, open: set<Claim>)
    requires count < |claims| && Scanned(claims, requestedRoundIds, open)
    requires forall c :: c in claims[..count] ==> c !in open
    requires forall id :: id in processedKeys <==>
      id in Unique(requestedRoundIds) && CountRound(claims[..count], id) >= CountRound(claims, id)
    requires forall id :: id in out.processed <==> id in Unique(requestedRoundIds) && id in processedKeys
    requires forall id :: id in out.remaining <==> id in Unique(requestedRoundIds) && id !in processedKeys
    ensures Closed(open, out.processed) && out.remaining != []
    ensures forall id :: id in out.remaining <==> HasClaim(claims[count..], id)
  {
    UniqueMembers(requestedRoundIds);
    assert claims == claims[..count] + claims[count..];
    forall id
      ensures id in out.remaining <==> HasClaim(claims[count..], id)
      ensures id in out.processed ==> forall c :: c in claims[count..] ==> c.roundId != id
    {
      CountedOut(claims, count, id);
    }
    assert claims[count] in claims[count..];
    assert claims[count].roundId in out.remaining;
    assert forall c :: c in claims ==> c in claims[..count] || c in claims[count..];
  }

  // ----- batches -----

  const RECEIPTS_PER_CHUNK: nat := 4
  const CLAIM_CHUNK: nat := 15

  datatype SendResult = Sent(outcome: Outcome) | NoUnclaimedReceipts | Threw

  /** What `claimManyRounds` asks for and returns: one scan; an error without it, no receipts if it is empty;
      else the instructions, and four receipts a transaction. */
  ghost predicate Claimed(events: seq<Event>, result: SendResult) {
    && events != [] && events[0].Scan?
    && match events[0].rows
       case None => result == Threw && |events| == 1
       case Some(rows) =>
         if rows == [] then result == NoUnclaimedReceipts && |events| == 1
         else
           && |events| >= 2 && events[1].Build?
           && if events[1].ok then result.Sent? && Executed(events[2..], rows, 4, result.outcome)
              else result == Threw && |events| == 2
  }

  /** `claimManyRounds`: scan once, then claim in four-receipt transactions. */
  method ClaimManyRounds(book: ReceiptBook, roundIds: seq<nat>) returns (result: SendResult, ghost events: seq<Event>)
    requires book.Valid()
    modifies book
    ensures book.Valid() && book.open <= old(book.open)
    ensures result.Sent? ==> Honest(result.outcome, Unique(roundIds), book.open)
    ensures result.Sent? && result.outcome.reconciled ==>
      forall id :: id in result.outcome.remaining ==> HasOpen(old(book.open), id)
    ensures result.NoUnclaimedReceipts? ==> Closed(book.open, roundIds)
    ensures book.log == old(book.log) + events && Claimed(events, result)
  {
    var rows := book.CachedScan(roundIds);
    events := [Scan(rows)];
    ClaimedEarly(rows);
    if rows.None? { return Threw, events; }
    if rows.value == [] { return NoUnclaimedReceipts, events; }
    var built := book.BuildInstructions();
    events := [Scan(rows), Build(built)];
    if !built { return Threw, events; }
    var outcome, sent := SendBuilt(book, roundIds, rows.value);
    result := Sent(outcome);
    events := [Scan(rows), Build(built)] + sent;
  }

  method SendBuilt(book: ReceiptBook, roundIds: seq<nat>, rows: seq<Claim>)
    returns (outcome: Outcome, ghost sent: seq<Event>)
    requires book.Valid() && Scanned(rows, roundIds, book.open) && rows != []
    modifies book
    ensures book.Valid() && book.open <= old(book.open)
    ensures Honest(outcome, Unique(roundIds), book.open)
    ensures outcome.reconciled ==> forall id :: id in outcome.remaining ==> HasOpen(old(book.open), id)
    ensures book.log == old(book.log) + sent && Claimed([Scan(Some(rows)), Build(true)] + sent, Sent(outcome))
  {
    outcome, sent := ExecuteClaimChunks(book, roundIds, rows, RECEIPTS_PER_CHUNK);
    ClaimedSent(rows, sent, outcome);
  }

  lemma {:induction false} ClaimedEarly(rows: Option<seq<Claim>>)
    ensures rows == None ==> Claimed([Scan(rows)], Threw)
    ensures rows == Some([]) ==> Claimed([Scan(rows)], NoUnclaimedReceipts)
    ensures rows.Some? && rows.value != [] ==> Claimed([Scan(rows), Build(false)], Threw)
  {
  }

  lemma {:induction false} ClaimedSent(rows: seq<Claim>, sent: seq<Event>, outcome: Outcome)
    requires rows != [] && Executed(sent, rows, 4, outcome)
    ensures Claimed([Scan(Some(rows)), Build(true)] + sent, Sent(outcome))
  {
    var events := [Scan(Some(rows)), Build(true)] + sent;
    assert events[2..] == sent;
  }

  datatype Report = Report(
    processedRounds: nat,
    requestedRounds: nat,
    remainingRounds: int,
    complete: bool,
    failure: bool,                // some batch was interrupted
    reconciled: bool,
    confirmedReceiptCount: nat)

  function Members(ids: seq<nat>): set<nat> { set id | id in ids }

  lemma {:induction false} MembersCardinality(ids: seq<nat>)
    requires Distinct(ids)
    ensures |Members(ids)| == |ids|
  {
    if ids != [] {
      var rest, last := ids[..|ids| - 1], ids[|ids| - 1];
      MembersCardinality(rest);
      assert Members(ids) == Members(rest) + {last};
    }
  }

  lemma SubsetCardinality(s: set<nat>, t: set<nat>)
    requires s <= t
    ensures |s| <= |t| && (|s| == |t| <==> s == t)
  {
    assert t == s + (t - s);
  }

  lemma UniqueOfDistinct(ids: seq<nat>)
    requires Distinct(ids)
    ensures Unique(ids) == ids
  {
    if ids != [] { UniqueOfDistinct(ids[..|ids| - 1]); }
  }

  /** The rounds of one honest outcome: what it processed is part of its batch, all of it if complete. */
  lemma OutcomeMembers(out: Outcome, batch: seq<nat>, open: set<Claim>)
    requires Honest(out, batch, open)
    ensures Members(out.processed) <= Members(batch)
    ensures out.status == Complete ==> Members(out.processed) == Members(batch)
    ensures out.status != Complete && Distinct(batch) ==> Members(out.processed) != Members(batch)
  {
    forall id ensures id in batch <==> id in out.processed || id in out.remaining {
      assert id in multiset(batch) <==> id in multiset(out.processed) || id in multiset(out.remaining);
    }
    if out.status != Complete && Distinct(batch) {
      var id := out.remaining[0];
      DistinctCount(batch, id);
      assert id in multiset(out.remaining);
      assert id in Members(batch) && id !in Members(out.processed);
    }
  }

  lemma LeftOver(out: Outcome, batch: seq<nat>, open: set<Claim>)
    requires Honest(out, batch, open)
    ensures forall id :: id in Members(batch) - Members(out.processed) ==> id in out.remaining
  {
    forall id | id in Members(batch) - Members(out.processed) ensures id in out.remaining {
      assert id in multiset(batch);
    }
  }

  /** Each of these rounds has an open receipt. */
  ghost predicate AllOpen(open: set<Claim>, ids: set<nat>) { forall id :: id in ids ==> HasOpen(open, id) }

  lemma AllOpenGrows(open: set<Claim>, more: set<Claim>, ids: set<nat>)
    requires AllOpen(open, ids) && open <= more
    ensures AllOpen(more, ids)
  {
    forall id | id in ids ensures HasOpen(more, id) {
      var c :| c in open && c.roundId == id;
      assert c in more;
    }
  }

  /** The batch at which a run was interrupted: everything before it was processed, not all of it was, and
      with a rescan each of its rounds left over had an open receipt. */
  ghost predicate InterruptedAt(requested: seq<nat>, start: nat, processed: set<nat>, reconciled: bool,
                                open: set<Claim>) {
    && start < |requested|
    && Members(requested[..start]) <= processed <= Members(requested[..BatchEnd(requested, start)])
    && processed != Members(requested[..BatchEnd(requested, start)])
    && (reconciled ==> AllOpen(open, Members(requested[..BatchEnd(requested, start)]) - processed))
  }

  function BatchEnd(requested: seq<nat>, start: nat): nat
    requires start <= |requested|
  {
    if start + CLAIM_CHUNK < |requested| then start + CLAIM_CHUNK else |requested|
  }

  ghost predicate NoneOpen(open: set<Claim>, ids: set<nat>) {
    forall c :: c in open ==> c.roundId !in ids
  }

  predicate Interrupts(result: SendResult) { result.Threw? || (result.Sent? && result.outcome.status != Complete) }

  /** The rounds a batch counts as processed. */
  function DoneBy(result: SendResult, batch: seq<nat>): set<nat> {
    match result
    case Threw => {}
    case NoUnclaimedReceipts => Members(batch)
    case Sent(outcome) => Members(outcome.processed)
  }

  /** One pass of the loop: what the batch contributed, and whether it was interrupted. */
  method RunBatch(book: ReceiptBook, batch: seq<nat>)
    returns (result: SendResult, done: set<nat>, ghost events: seq<Event>)
    requires book.Valid() && Distinct(batch) && batch != []
    modifies book
    ensures book.Valid() && book.open <= old(book.open)
    ensures done == DoneBy(result, batch) && done <= Members(batch) && NoneOpen(book.open, done)
    ensures Interrupts(result) <==> done != Members(batch)
    ensures Interrupts(result) && result.Sent? && result.outcome.reconciled ==>
      AllOpen(old(book.open), Members(batch) - done)
    ensures book.log == old(book.log) + events && Claimed(events, result)
  {
    UniqueOfDistinct(batch);
    result, events := ClaimManyRounds(book, batch);
    match result {
      case Threw =>
        done := {};
        assert batch[0] in Members(batch);
      case NoUnclaimedReceipts =>
        done := Members(batch);
      case Sent(outcome) =>
        SentBatch(outcome, batch, old(book.open), book.open);
        done := Members(outcome.processed);
    }
  }

  lemma {:induction false} SentBatch(out: Outcome, batch: seq<nat>, before: set<Claim>, open: set<Claim>)
    requires Honest(out, batch, open) && Distinct(batch)
    requires out.reconciled ==> forall id :: id in out.remaining ==> HasOpen(before, id)
    ensures Members(out.processed) <= Members(batch) && NoneOpen(open, Members(out.processed))
    ensures out.status != Complete <==> Members(out.processed) != Members(batch)
    ensures out.reconciled ==> AllOpen(before, Members(batch) - Members(out.processed))
  {
    OutcomeMembers(out, batch, open);
    LeftOver(out, batch, open);
  }

  /** Appending one batch's rounds to those of the batches before it. */
  lemma BatchProgress(ids: seq<nat>, start: nat, end: nat, done: set<nat>)
    requires Distinct(ids) && start <= end <= |ids| && done <= Members(ids[start..end])
    ensures Distinct(ids[start..end])
    ensures Members(ids[..end]) == Members(ids[..start]) + Members(ids[start..end])
    ensures Members(ids[..start]) + done <= Members(ids)
    ensures done != Members(ids[start..end]) ==> Members(ids[..start]) + done != Members(ids)
  {
    MembersAppend(ids[..start], ids[start..end]);
    assert ids[..end] == ids[..start] + ids[start..end];
    if id :| id in Members(ids[start..end]) && id !in done {
      assert id in ids && id !in ids[..start];
    }
  }

  lemma MembersAppend(a: seq<nat>, b: seq<nat>)
    ensures Members(a + b) == Members(a) + Members(b)
  {
  }

  lemma {:induction false} InterruptedHere(requested: seq<nat>, start: nat, done: set<nat>, reconciled: bool,
                                           before: set<Claim>, open: set<Claim>)
    requires Distinct(requested) && start < |requested| && before <= open
    requires var batch := Members(requested[start..BatchEnd(requested, start)]);
      done <= batch && done != batch && (reconciled ==> AllOpen(before, batch - done))
    ensures InterruptedAt(requested, start, Members(requested[..start]) + done, reconciled, open)
  {
    var end := BatchEnd(requested, start);
    var batch, earlier := Members(requested[start..end]), Members(requested[..start]);
    assert requested[..end] == requested[..start] + requested[start..end];
    assert Members(requested[..end]) == earlier + batch;
    var id :| id in batch && id !in done;
    assert id !in earlier;
    if reconciled {
      AllOpenGrows(before, open, batch - done);
      assert Members(requested[..end]) - (earlier + done) <= batch - done;
    }
  }

  /** One batch's requests and its result. */
  datatype Pass = Pass(batch: seq<nat>, events: seq<Event>, result: SendResult)

  function Log(passes: seq<Pass>): seq<Event> {
    if passes == [] then [] else Log(passes[..|passes| - 1]) + passes[|passes| - 1].events
  }

  function Rounds(passes: seq<Pass>): seq<nat> {
    if passes == [] then [] else Rounds(passes[..|passes| - 1]) + passes[|passes| - 1].batch
  }

  /** Every pass is one `claimManyRounds`. */
  ghost predicate AllClaimed(passes: seq<Pass>) {
    passes == [] ||
    (AllClaimed(passes[..|passes| - 1]) && Claimed(passes[|passes| - 1].events, passes[|passes| - 1].result))
  }

  lemma {:induction false} AllClaimedMore(passes: seq<Pass>, pass: Pass)
    requires AllClaimed(passes) && Claimed(pass.events, pass.result)
    ensures AllClaimed(passes + [pass]) && Log(passes + [pass]) == Log(passes) + pass.events
  {
    assert (passes + [pass])[..|passes|] == passes;
  }

  /** Batches go through the request from the front, fifteen rounds at a time and only the last one shorter;
      none but the last interrupts. */
  ghost predicate Passed(passes: seq<Pass>, requested: seq<nat>) {
    && Rounds(passes) <= requested
    && (forall j :: 0 <= j < |passes| ==> 0 < |passes[j].batch| <= 15)
    && (forall j :: 0 <= j < |passes| && |passes[j].batch| < 15 ==> j == |passes| - 1 && Rounds(passes) == requested)
    && (forall j :: 0 <= j < |passes| - 1 ==> !Interrupts(passes[j].result))
  }

  /** What the report says of the pass that interrupted, if one did. */
  ghost predicate Reported(passes: seq<Pass>, requested: seq<nat>, failure: bool, reconciled: bool,
                           confirmedReceiptCount: nat) {
    && (failure <==> passes != [] && Interrupts(passes[|passes| - 1].result))
    && (!failure ==> Rounds(passes) == requested && reconciled && confirmedReceiptCount == 0)
    && (failure ==>
          var last := passes[|passes| - 1].result;
          && reconciled == (last.Sent? && last.outcome.reconciled)
          && confirmedReceiptCount == if last.Sent? then last.outcome.confirmedReceiptCount else 0)
  }

  lemma {:induction false} PassedMore(passes: seq<Pass>, requested: seq<nat>, start: nat, pass: Pass)
    requires Passed(passes, requested) && start < |requested| && Rounds(passes) == requested[..start]
    requires forall j :: 0 <= j < |passes| ==> !Interrupts(passes[j].result)
    requires pass.batch == requested[start..BatchEnd(requested, start)]
    ensures Passed(passes + [pass], requested) && Rounds(passes + [pass]) == requested[..BatchEnd(requested, start)]
  {
    var end, all := BatchEnd(requested, start), passes + [pass];
    assert all[..|all| - 1] == passes && requested[..end] == requested[..start] + requested[start..end];
    assert end == |requested| ==> requested[..end] == requested;
  }

  /** The loop so far, without an interruption. */
  ghost predicate Running(passes: seq<Pass>, requested: seq<nat>, offset: nat) {
    && offset <= |requested| && Rounds(passes) == requested[..offset]
    && AllClaimed(passes) && Passed(passes, requested)
    && forall j :: 0 <= j < |passes| ==> !Interrupts(passes[j].result)
  }

  /** One more batch of the loop, with the bookkeeping of everything asked. */
  method NextBatch(book: ReceiptBook, requested: seq<nat>, offset: nat, ghost passes: seq<Pass>,
                   ghost initially: set<Claim>, ghost log: seq<Event>)
    returns (result: SendResult, done: set<nat>, ghost pass: Pass)
    requires book.Valid() && Distinct(requested) && offset < |requested| && book.open <= initially
    requires Running(passes, requested, offset) && book.log == log + Log(passes)
    modifies book
    ensures book.Valid() && book.open <= old(book.open)
    ensures pass.result == result && book.log == log + Log(passes + [pass])
    ensures AllClaimed(passes + [pass]) && Passed(passes + [pass], requested)
    ensures !Interrupts(result) ==> Running(passes + [pass], requested, BatchEnd(requested, offset))
    ensures NoneOpen(book.open, done) && Members(requested[..offset]) + done <= Members(requested)
    ensures !Interrupts(result) ==>
      Members(requested[..offset]) + done == Members(requested[..BatchEnd(requested, offset)])
    ensures Interrupts(result) ==> Members(requested[..offset]) + done != Members(requested)
    ensures Interrupts(result) ==>
      InterruptedAt(requested, offset, Members(requested[..offset]) + done,
                    result.Sent? && result.outcome.reconciled, initially)
  {
    BatchProgress(requested, offset, BatchEnd(requested, offset), {});
    var batch := requested[offset..BatchEnd(requested, offset)];
    ghost var events;
    result, done, events := RunBatch(book, batch);
    pass := Pass(batch, events, result);
    PassedMore(passes, requested, offset, pass);
    AllClaimedMore(passes, pass);
    BatchProgress(requested, offset, BatchEnd(requested, offset), done);
    if Interrupts(result) {
      InterruptedHere(requested, offset, done, result.Sent? && result.outcome.reconciled, old(book.open), initially);
    }
  }

  /** The loop: batches of fifteen, up to the first interruption. */
  method RunBatches(book: ReceiptBook, requested: seq<nat>)
    returns (processed: set<nat>, failure: bool, reconciled: bool, confirmedReceiptCount: nat,
             ghost start: nat, ghost passes: seq<Pass>)
    requires book.Valid() && Distinct(requested)
    modifies book
    ensures book.Valid() && book.open <= old(book.open)
    ensures processed <= Members(requested) && NoneOpen(book.open, processed)
    ensures !failure ==> processed == Members(requested)
    ensures failure ==> processed != Members(requested)
    ensures failure ==> InterruptedAt(requested, start, processed, reconciled, old(book.open))
    ensures book.log == old(book.log) + Log(passes) && AllClaimed(passes) && Passed(passes, requested)
    ensures Reported(passes, requested, failure, reconciled, confirmedReceiptCount)
  {
    processed, failure, reconciled, confirmedReceiptCount := {}, false, true, 0;
    var offset := 0;
    start, passes := 0, [];
    while offset < |requested|
      invariant 0 <= offset <= |requested|
      invariant book.Valid() && book.open <= old(book.open)
      invariant processed == Members(requested[..offset]) && !failure && reconciled && confirmedReceiptCount == 0
      invariant NoneOpen(book.open, processed)
      invariant book.log == old(book.log) + Log(passes) && Running(passes, requested, offset)
    {
      var result, done, pass := NextBatch(book, requested, offset, passes, old(book.open), old(book.log));
      passes := passes + [pass];
      processed := processed + done;
      if Interrupts(result) {
        failure, start := true, offset;
        reconciled := result.Sent? && result.outcome.reconciled;
        confirmedReceiptCount := if result.Sent? then result.outcome.confirmedReceiptCount else 0;
        return;
      }
      offset := BatchEnd(requested, offset);
    }
    assert requested[..|requested|] == requested;
  }

  /** `claimBatched`: fifteen rounds at a time, stopping at the first interruption. The second result
      is the function's own set of processed rounds. */
  method ClaimBatched(book: ReceiptBook, roundIds: seq<nat>)
    returns (report: Report, processed: set<nat>, ghost passes: seq<Pass>)
    requires book.Valid()
    modifies book
    ensures book.Valid() && book.open <= old(book.open)
    ensures report.requestedRounds == |Unique(roundIds)|
    ensures report.processedRounds == |processed| && processed <= Members(roundIds)
    ensures report.processedRounds + report.remainingRounds == report.requestedRounds && report.remainingRounds >= 0
    ensures NoneOpen(book.open, processed)
    ensures report.complete <==> !report.failure
    ensures report.complete <==> processed == Members(roundIds)
    ensures report.complete ==> report.reconciled && Closed(book.open, roundIds)
    ensures report.failure ==>
      exists start :: InterruptedAt(Unique(roundIds), start, processed, report.reconciled, old(book.open))
    ensures book.log == old(book.log) + Log(passes) && AllClaimed(passes) && Passed(passes, Unique(roundIds))
    ensures Reported(passes, Unique(roundIds), report.failure, report.reconciled, report.confirmedReceiptCount)
  {
    var requested := Unique(roundIds);
    UniqueMembers(roundIds);
    assert Members(requested) == Members(roundIds);
    var failure, reconciled, confirmedReceiptCount;
    ghost var start;
    processed, failure, reconciled, confirmedReceiptCount, start, passes := RunBatches(book, requested);
    MembersCardinality(requested);
    SubsetCardinality(processed, Members(requested));
    report := Report(|processed|, |requested|, |requested| - |processed|, |processed| == |requested|,
                     failure, reconciled, confirmedReceiptCount);
  }
}
