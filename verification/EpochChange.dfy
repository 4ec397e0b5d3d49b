/** Epoch-change proofs (`types/src/epoch_change.rs`) and their verifiers. */
module EpochChanges {
  import opened Types
  import opened MultiSignatures

  datatype Waypoint = Waypoint(version: Version, value: HashValue)

  /** The fields of a ledger info a waypoint commits to. */
  function Content(li: LedgerInfo): HashValue {
    WaypointHash(li.commitInfo.epoch, li.commitInfo.executedStateId, li.commitInfo.version, li.commitInfo.timestamp,
                 li.commitInfo.nextEpochState)
  }

  /** `Waypoint::new_any`. */
  function WaypointOf(li: LedgerInfo): Waypoint {
    Waypoint(li.commitInfo.version, Content(li))
  }

  /** A waypoint determines epoch, state root, version, time and next epoch state of a ledger info, and nothing
      else: not the block, its round, or the votes. */
  lemma WaypointBinds(x: LedgerInfo, y: LedgerInfo)
    ensures WaypointOf(x) == WaypointOf(y)
       <==> y.commitInfo == x.commitInfo.(round := y.commitInfo.round, id := y.commitInfo.id)
  {
  }

  function NextEpochState(x: LedgerInfoWithSignatures): Option<EpochState> {
    x.ledgerInfo.commitInfo.nextEpochState
  }

  /** The implementations of the `Verifier` trait. */
  datatype Verifier = OfWaypoint(waypoint: Waypoint) | OfEpochState(epochState: EpochState)
  {
    predicate Verifies(x: LedgerInfoWithSignatures) {
      match this
      case OfWaypoint(w) => x.ledgerInfo.commitInfo.version == w.version && Content(x.ledgerInfo) == w.value
      case OfEpochState(es) =>
        es.epoch == x.ledgerInfo.commitInfo.epoch
        && MultiSignatureVerdict(es.verifier, LedgerInfoMessage(x.ledgerInfo), x.signatures).Ok?
    }

    predicate IsStale(li: LedgerInfo) {
      match this
      case OfWaypoint(w) => li.commitInfo.version < w.version
      case OfEpochState(es) => li.commitInfo.epoch < es.epoch
    }

    predicate VerificationRequired(epoch: Epoch) {
      match this
      case OfWaypoint(_) => true
      case OfEpochState(es) => es.epoch < epoch
    }
  }

  datatype EpochChangeProof = EpochChangeProof(ledgerInfos: seq<LedgerInfoWithSignatures>, more: bool)

  datatype ProofError = EmptyProof | StaleProof | NotVerified | NoValidatorSet

  /** The verifier of entry `j` when the walk starts at entry `from`: the starting verifier, then the
      epoch state carried by the entry before. */
  function VerifierAt(start: Verifier, xs: seq<LedgerInfoWithSignatures>, from: nat, j: nat): Option<Verifier>
    requires from <= j <= |xs|
  {
    if j == from then Some(start)
    else match NextEpochState(xs[j - 1]) case Some(es) => Some(OfEpochState(es)) case None => None
  }

  predicate EntryAccepted(start: Verifier, xs: seq<LedgerInfoWithSignatures>, from: nat, j: nat)
    requires from <= j < |xs|
  {
    var v := VerifierAt(start, xs, from, j);
    v.Some? && v.value.Verifies(xs[j]) && NextEpochState(xs[j]).Some?
  }

  /** Entries before `from` are stale; the one at `from`, if any, is not. */
  predicate StalePrefix(start: Verifier, xs: seq<LedgerInfoWithSignatures>, from: nat) {
    && from <= |xs|
    && (forall j :: 0 <= j < from ==> start.IsStale(xs[j].ledgerInfo))
    && (from < |xs| ==> !start.IsStale(xs[from].ledgerInfo))
  }

  /** Non-empty, not stale at the end, and past the stale prefix a chain in which every entry is accepted
      by what the entry before it installed. */
  predicate Accepted(start: Verifier, xs: seq<LedgerInfoWithSignatures>, from: nat) {
    && StalePrefix(start, xs, from) && xs != [] && !start.IsStale(xs[|xs| - 1].ledgerInfo)
    && forall j :: from <= j < |xs| ==> EntryAccepted(start, xs, from, j)
  }

  function StaleCount(start: Verifier, xs: seq<LedgerInfoWithSignatures>): (from: nat)
    ensures StalePrefix(start, xs, from)
  {
    if xs == [] || !start.IsStale(xs[0].ledgerInfo) then 0
    else
      var rest := StaleCount(start, xs[1..]);
      assert forall j :: 0 < j <= rest ==> xs[j] == xs[1..][j - 1];
      rest + 1
  }

  /** Outcome of `EpochChangeProof::verify`. */
  function ProofVerdict(p: EpochChangeProof, start: Verifier): Option<LedgerInfoWithSignatures> {
    var xs := p.ledgerInfos;
    if Accepted(start, xs, StaleCount(start, xs)) then Some(xs[|xs| - 1]) else None
  }

  method VerifyProof(p: EpochChangeProof, start: Verifier) returns (r: Result<LedgerInfoWithSignatures, ProofError>)
    ensures r.Ok? <==> ProofVerdict(p, start).Some?
    ensures r.Ok? ==> r.value == ProofVerdict(p, start).value
    ensures r == Err(EmptyProof) <==> p.ledgerInfos == []
    ensures r == Err(StaleProof)
       <==> p.ledgerInfos != [] && start.IsStale(p.ledgerInfos[|p.ledgerInfos| - 1].ledgerInfo)
  {
    hide MultiSignatureVerdict, StaleCount;
    var xs := p.ledgerInfos;
    if xs == [] {
      return Err(EmptyProof);
    }
    if start.IsStale(xs[|xs| - 1].ledgerInfo) {
      return Err(StaleProof);
    }
    var from := 0;
    while start.IsStale(xs[from].ledgerInfo)
      invariant 0 <= from < |xs|
      invariant forall j :: 0 <= j < from ==> start.IsStale(xs[j].ledgerInfo)
      decreases |xs| - from
    {
      from := from + 1;
    }
    assert from == StaleCount(start, xs);
    var verifier := start;
    for i := from to |xs|
      invariant VerifierAt(start, xs, from, i) == Some(verifier)
      invariant forall j :: from <= j < i ==> EntryAccepted(start, xs, from, j)
    {
      if !verifier.Verifies(xs[i]) {
        assert !EntryAccepted(start, xs, from, i);
        return Err(NotVerified);
      }
      if NextEpochState(xs[i]).None? {
        assert !EntryAccepted(start, xs, from, i);
        return Err(NoValidatorSet);
      }
      verifier := OfEpochState(NextEpochState(xs[i]).value);
    }
    return Ok(xs[|xs| - 1]);
  }

  /** The returned entry was itself verified and carries the next epoch state, so the caller's own check
      for a missing epoch state never fires. */
  lemma VerifiedProofEndsEpoch(p: EpochChangeProof, start: Verifier)
    requires ProofVerdict(p, start).Some?
    ensures NextEpochState(ProofVerdict(p, start).value).Some?
    ensures var n := |p.ledgerInfos|;
      n > 0 && EntryAccepted(start, p.ledgerInfos, StaleCount(start, p.ledgerInfos), n - 1)
  {
    hide MultiSignatureVerdict, StaleCount;
    var xs, from := p.ledgerInfos, StaleCount(start, p.ledgerInfos);
    assert Accepted(start, xs, from) && from <= |xs| - 1;
    assert EntryAccepted(start, xs, from, |xs| - 1);
  }
}
