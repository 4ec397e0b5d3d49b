/** The light client's trusted state (`types/src/trusted_state.rs`) against a canonical ledger. */
module TrustedStates {
  import opened Types
  import opened MultiSignatures
  import opened EpochChanges

  datatype TrustedState =
    | EpochWaypoint(waypoint: Waypoint)
    | InEpoch(waypoint: Waypoint, epochState: EpochState)
  {
    function AsVerifier(): Verifier {
      match this
      case EpochWaypoint(w) => OfWaypoint(w)
      case InEpoch(_, es) => OfEpochState(es)
    }
  }

  datatype Change =
    | VersionChange(state: TrustedState)
    | EpochChange(state: TrustedState, epochChangeLi: LedgerInfoWithSignatures)
    | NoChange

  datatype RatchetError =
    | StaleTarget
    | BadProof
    | MissingEpochState
    | UnverifiedTarget
    | Inconsistent
    | WaypointNeedsEpochChange
    | Mismatch

  /** `verify_and_ratchet_inner`. */
  function Ratchet(s: TrustedState, latest: LedgerInfoWithSignatures, proof: EpochChangeProof)
    : Result<Change, RatchetError>
  {
    var target := latest.ledgerInfo.commitInfo;
    if target.version < s.waypoint.version then Err(StaleTarget)
    else if s.AsVerifier().VerificationRequired(target.NextBlockEpoch()) then EpochRatchet(s, latest, proof)
    else if s.EpochWaypoint? then Err(WaypointNeedsEpochChange)
    else if target.version == s.waypoint.version then
      if WaypointOf(latest.ledgerInfo) == s.waypoint then Ok(NoChange) else Err(Mismatch)
    else if !OfEpochState(s.epochState).Verifies(latest) then Err(UnverifiedTarget)
    else Ok(VersionChange(InEpoch(WaypointOf(latest.ledgerInfo), s.epochState)))
  }

  function EpochRatchet(s: TrustedState, latest: LedgerInfoWithSignatures, proof: EpochChangeProof)
    : Result<Change, RatchetError>
  {
    var verdict := ProofVerdict(proof, s.AsVerifier());
    if verdict.None? then Err(BadProof)
    else
      var li := verdict.value;
      var next := NextEpochState(li);
      if next.None? then Err(MissingEpochState)
      else
        var epoch := latest.ledgerInfo.commitInfo.epoch;
        if li == latest then Ok(EpochChange(InEpoch(WaypointOf(latest.ledgerInfo), next.value), li))
        else if epoch == next.value.epoch then
          if OfEpochState(next.value).Verifies(latest) then
            Ok(EpochChange(InEpoch(WaypointOf(latest.ledgerInfo), next.value), li))
          else Err(UnverifiedTarget)
        else if epoch > next.value.epoch && proof.more then
          Ok(EpochChange(InEpoch(WaypointOf(li.ledgerInfo), next.value), li))
        else Err(Inconsistent)
  }

  /** The client's state after a response; a rejected response leaves it alone. */
  function Apply(s: TrustedState, latest: LedgerInfoWithSignatures, proof: EpochChangeProof): TrustedState {
    match Ratchet(s, latest, proof)
    case Ok(VersionChange(t)) => t
    case Ok(EpochChange(t, _)) => t
    case _ => s
  }

  datatype Response = Response(latest: LedgerInfoWithSignatures, proof: EpochChangeProof)

  // Any response

  /** Fork detection: in the client's epoch, a ledger info of its own version is accepted exactly if it is the
      one the client trusts; another one is an error. */
  lemma ForkIsDetected(s: TrustedState, r: Response)
    requires !s.AsVerifier().VerificationRequired(r.latest.ledgerInfo.commitInfo.NextBlockEpoch())
    requires r.latest.ledgerInfo.commitInfo.version == s.waypoint.version
    ensures Ratchet(s, r.latest, r.proof)
         == if WaypointOf(r.latest.ledgerInfo) == s.waypoint then Ok(NoChange) else Err(Mismatch)
  {
    hide MultiSignatureVerdict, ProofVerdict;
  }

  /** An accepted response takes the client to the latest ledger info, or, if it says that there is more, to
      the end of its proof when that is in an earlier epoch. */
  lemma AcceptedReaches(s: TrustedState, r: Response)
    requires Ratchet(s, r.latest, r.proof).Ok?
    ensures var t := Apply(s, r.latest, r.proof);
      && t.InEpoch?
      && (|| t.waypoint == WaypointOf(r.latest.ledgerInfo)
          || (r.proof.more && r.proof.ledgerInfos != []
              && t.waypoint == WaypointOf(r.proof.ledgerInfos[|r.proof.ledgerInfos| - 1].ledgerInfo)
              && t.epochState.epoch < r.latest.ledgerInfo.commitInfo.epoch))
  {
    hide MultiSignatureVerdict, StaleCount;
  }

  /** A rejected response: the error names something that is indeed wrong.  Two errors that the code has cannot
      occur: a waypoint always asks for an epoch change, and a verified proof ends with an epoch state. */
  lemma RejectionIsTrue(s: TrustedState, r: Response)
    requires Ratchet(s, r.latest, r.proof).Err?
    ensures var target, verdict := r.latest.ledgerInfo.commitInfo, ProofVerdict(r.proof, s.AsVerifier());
      var next := if verdict.Some? then NextEpochState(verdict.value) else None;
      match Ratchet(s, r.latest, r.proof).error
      case StaleTarget => target.version < s.waypoint.version
      case BadProof =>
        s.AsVerifier().VerificationRequired(target.NextBlockEpoch()) && verdict.None?
      case Mismatch => target.version == s.waypoint.version && WaypointOf(r.latest.ledgerInfo) != s.waypoint
      case UnverifiedTarget =>
        || (s.InEpoch? && !OfEpochState(s.epochState).Verifies(r.latest))
        || (next.Some? && !OfEpochState(next.value).Verifies(r.latest))
      case Inconsistent =>
        && next.Some? && verdict.value != r.latest
        && (target.epoch < next.value.epoch || (target.epoch > next.value.epoch && !r.proof.more))
      case MissingEpochState => false
      case WaypointNeedsEpochChange => false
  {
    hide MultiSignatureVerdict, StaleCount;
    if ProofVerdict(r.proof, s.AsVerifier()).Some? {
      VerifiedProofEndsEpoch(r.proof, s.AsVerifier());
    }
  }

  /** The same response again changes nothing and is no error, exactly if the client took its latest ledger
      info and that does not end the client's epoch. */
  lemma RepeatedResponse(s: TrustedState, r: Response)
    requires Ratchet(s, r.latest, r.proof).Ok?
    ensures var t := Apply(s, r.latest, r.proof);
      Ratchet(t, r.latest, r.proof) == Ok(NoChange)
      <==> && t.waypoint == WaypointOf(r.latest.ledgerInfo)
           && r.latest.ledgerInfo.commitInfo.NextBlockEpoch() <= t.epochState.epoch
  {
    hide MultiSignatureVerdict, ProofVerdict;
  }

  // The canonical ledger

  function Info(ledger: seq<LedgerInfo>, k: nat): BlockInfo
    requires k < |ledger|
  {
    ledger[k].commitInfo
  }

  /** Committed ledger infos in order: versions increase, an epoch ends with a ledger info that carries
      the next epoch's state, and genesis ends epoch 0. */
  predicate ValidLedger(ledger: seq<LedgerInfo>) {
    && ledger != [] && Info(ledger, 0).epoch == 0 && Info(ledger, 0).nextEpochState.Some?
    && (forall k :: 0 <= k < |ledger| && Info(ledger, k).nextEpochState.Some? ==>
          Info(ledger, k).nextEpochState.value.epoch == Info(ledger, k).epoch + 1)
    && (forall k :: 0 < k < |ledger| ==>
          && Info(ledger, k).epoch == Info(ledger, k - 1).NextBlockEpoch()
          && Info(ledger, k - 1).version < Info(ledger, k).version)
  }

  /** `k` is the position of a ledger info with the same content. */
  predicate At(ledger: seq<LedgerInfo>, k: nat, li: LedgerInfo) {
    k < |ledger| && Content(ledger[k]) == Content(li)
  }

  ghost predicate Canonical(ledger: seq<LedgerInfo>, li: LedgerInfo) {
    exists k: nat :: At(ledger, k, li)
  }

  predicate Installs(ledger: seq<LedgerInfo>, m: nat, es: EpochState) {
    m < |ledger| && Info(ledger, m).nextEpochState == Some(es)
  }

  ghost predicate CanonicalEpochState(ledger: seq<LedgerInfo>, es: EpochState) {
    exists m: nat :: Installs(ledger, m, es)
  }

  /** `k` is where the trusted waypoint sits; the trusted epoch is that ledger info's own or the next. */
  ghost predicate TrustedAt(ledger: seq<LedgerInfo>, s: TrustedState, k: nat) {
    && k < |ledger| && s.waypoint == WaypointOf(ledger[k])
    && (s.InEpoch? ==>
          && CanonicalEpochState(ledger, s.epochState)
          && Info(ledger, k).epoch <= s.epochState.epoch <= Info(ledger, k).NextBlockEpoch())
  }

  ghost predicate Trusted(ledger: seq<LedgerInfo>, s: TrustedState) {
    exists k: nat :: TrustedAt(ledger, s, k)
  }

  /** What a quorum of a canonical epoch may have signed: a ledger info of the ledger, a vote on a block that
      is ordered and not executed, or a vote on an info of round 0, which nobody signed before. */
  ghost predicate Accounted(ledger: seq<LedgerInfo>, li: LedgerInfo) {
    || Canonical(ledger, li) || li.commitInfo.IsOrderedOnly()
    || (li.commitInfo.round == 0 && li.commitInfo.nextEpochState.None?)
  }

  ghost predicate QuorumsAccounted(ledger: seq<LedgerInfo>, x: LedgerInfoWithSignatures) {
    forall es :: CanonicalEpochState(ledger, es) && OfEpochState(es).Verifies(x) ==> Accounted(ledger, x.ledgerInfo)
  }

  ghost predicate ResponseAccounted(ledger: seq<LedgerInfo>, r: Response) {
    QuorumsAccounted(ledger, r.latest)
    && forall j :: 0 <= j < |r.proof.ledgerInfos| ==> QuorumsAccounted(ledger, r.proof.ledgerInfos[j])
  }

  predicate SameState(a: BlockInfo, b: BlockInfo) {
    a.version == b.version && a.executedStateId == b.executedStateId
  }

  /** What a quorum signs as an info of round 0 has a state of the ledger only if that is the state in which
      the epoch started. */
  ghost predicate RoundZeroApart(ledger: seq<LedgerInfo>, x: LedgerInfoWithSignatures) {
    x.ledgerInfo.commitInfo.round == 0 ==>
      forall es, k: nat ::
        (CanonicalEpochState(ledger, es) && OfEpochState(es).Verifies(x)
         && k < |ledger| && SameState(Info(ledger, k), x.ledgerInfo.commitInfo)) ==> Installs(ledger, k, es)
  }

  // States of a client

  /** Version and state root of the ledger info at `k`. */
  predicate HoldsStateAt(ledger: seq<LedgerInfo>, s: TrustedState, k: nat) {
    && k < |ledger| && s.waypoint.version == Info(ledger, k).version
    && s.waypoint.value.WaypointHash? && s.waypoint.value.rootHash == Info(ledger, k).executedStateId
  }

  ghost predicate HoldsState(ledger: seq<LedgerInfo>, s: TrustedState) {
    exists k: nat :: HoldsStateAt(ledger, s, k)
  }

  /** The waypoint has the version and state of the epoch end before the client's epoch, as its genesis does. */
  predicate RestsOnGenesis(ledger: seq<LedgerInfo>, s: TrustedState, m: nat) {
    HoldsStateAt(ledger, s, m) && s.InEpoch? && Installs(ledger, m, s.epochState)
  }

  /** The waypoint is that of a vote, which has version 0. */
  ghost predicate RestsOnOrdering(s: TrustedState) {
    s.InEpoch? && exists li: LedgerInfo ::
      li.commitInfo.IsOrderedOnly() && li.commitInfo.epoch == s.epochState.epoch && s.waypoint == WaypointOf(li)
  }

  /** The waypoint is that of an info of round 0, whatever it says. */
  ghost predicate RestsOnRoundZero(s: TrustedState) {
    s.InEpoch? && exists li: LedgerInfo ::
      && li.commitInfo.round == 0 && li.commitInfo.nextEpochState.None?
      && li.commitInfo.epoch == s.epochState.epoch && s.waypoint == WaypointOf(li)
  }

  /** The client's epoch is canonical; its waypoint is on the ledger, its epoch's genesis, or a vote. */
  ghost predicate Sound(ledger: seq<LedgerInfo>, s: TrustedState) {
    || Trusted(ledger, s)
    || (s.InEpoch? && CanonicalEpochState(ledger, s.epochState)
        && ((exists m: nat :: RestsOnGenesis(ledger, s, m)) || RestsOnOrdering(s)))
  }

  /** The client's epoch is canonical; its waypoint may also be any info of round 0. */
  ghost predicate Grounded(ledger: seq<LedgerInfo>, s: TrustedState) {
    Sound(ledger, s) || (s.InEpoch? && CanonicalEpochState(ledger, s.epochState) && RestsOnRoundZero(s))
  }

  /** Past version 0, a sound client holds the version and the state root of a committed ledger info. */
  lemma SoundState(ledger: seq<LedgerInfo>, s: TrustedState)
    requires Sound(ledger, s) && s.waypoint.version > 0
    ensures HoldsState(ledger, s)
  {
    if Trusted(ledger, s) {
      var k: nat :| TrustedAt(ledger, s, k);
      assert HoldsStateAt(ledger, s, k);
    } else {
      assert !RestsOnOrdering(s);
      var m: nat :| RestsOnGenesis(ledger, s, m);
    }
  }

  // Order on the ledger

  lemma {:induction false} LedgerOrder(ledger: seq<LedgerInfo>, i: nat, j: nat)
    requires ValidLedger(ledger) && i < j < |ledger|
    ensures Info(ledger, i).version < Info(ledger, j).version
    ensures Info(ledger, i).epoch <= Info(ledger, i).NextBlockEpoch() <= Info(ledger, j).epoch
    decreases j
  {
    if i + 1 < j {
      LedgerOrder(ledger, i, j - 1);
    }
  }

  /** Nothing of the same or an earlier epoch comes after the end of an epoch. */
  lemma EpochEndIsLast(ledger: seq<LedgerInfo>, k: nat, m: nat)
    requires ValidLedger(ledger) && k < |ledger| && m < |ledger|
    requires Info(ledger, m).nextEpochState.Some? && Info(ledger, k).epoch <= Info(ledger, m).epoch
    ensures k <= m && Info(ledger, k).version <= Info(ledger, m).version
  {
    if m < k {
      LedgerOrder(ledger, m, k);
    } else if k < m {
      LedgerOrder(ledger, k, m);
    }
  }

  lemma VersionOrdersPositions(ledger: seq<LedgerInfo>, i: nat, j: nat)
    requires ValidLedger(ledger) && i < |ledger| && j < |ledger|
    ensures Info(ledger, i).version <= Info(ledger, j).version <==> i <= j
  {
    if i < j {
      LedgerOrder(ledger, i, j);
    } else if j < i {
      LedgerOrder(ledger, j, i);
    }
  }

  /** There is one state per epoch. */
  lemma OneStatePerEpoch(ledger: seq<LedgerInfo>, m1: nat, es1: EpochState, m2: nat, es2: EpochState)
    requires ValidLedger(ledger) && Installs(ledger, m1, es1) && Installs(ledger, m2, es2)
    requires es1.epoch == es2.epoch
    ensures m1 == m2 && es1 == es2
  {
    EpochEndIsLast(ledger, m1, m2);
    EpochEndIsLast(ledger, m2, m1);
  }

  // Soundness of one response

  /** Every accepted entry of a proof is canonical and installs a canonical epoch state. */
  lemma {:induction false} ProofEntryCanonical(ledger: seq<LedgerInfo>, s: TrustedState, proof: EpochChangeProof,
                                               j: nat)
    requires ValidLedger(ledger) && Grounded(ledger, s)
    requires forall i :: 0 <= i < |proof.ledgerInfos| ==> QuorumsAccounted(ledger, proof.ledgerInfos[i])
    requires var xs, from := proof.ledgerInfos, StaleCount(s.AsVerifier(), proof.ledgerInfos);
      Accepted(s.AsVerifier(), xs, from) && from <= j < |xs|
    ensures var x := proof.ledgerInfos[j];
      && Canonical(ledger, x.ledgerInfo)
      && NextEpochState(x).Some? && CanonicalEpochState(ledger, NextEpochState(x).value)
      && NextEpochState(x).value.epoch == x.ledgerInfo.commitInfo.epoch + 1
    decreases j
  {
    hide MultiSignatureVerdict, StaleCount;
    var xs, from := proof.ledgerInfos, StaleCount(s.AsVerifier(), proof.ledgerInfos);
    var x := xs[j];
    assert EntryAccepted(s.AsVerifier(), xs, from, j);
    assert QuorumsAccounted(ledger, x);
    if j > from {
      ProofEntryCanonical(ledger, s, proof, j - 1);
      EndIsCanonical(ledger, x, NextEpochState(xs[j - 1]).value);
    } else if s.EpochWaypoint? {
      var k: nat :| TrustedAt(ledger, s, k);
      assert At(ledger, k, x.ledgerInfo);
    } else {
      assert CanonicalEpochState(ledger, s.epochState);
      EndIsCanonical(ledger, x, s.epochState);
    }
    assert Canonical(ledger, x.ledgerInfo);
    var k: nat :| At(ledger, k, x.ledgerInfo);
    assert Installs(ledger, k, NextEpochState(x).value);
  }

  /** Of what a quorum may have signed, only ledger infos of the ledger end an epoch. */
  lemma EndIsCanonical(ledger: seq<LedgerInfo>, x: LedgerInfoWithSignatures, es: EpochState)
    requires QuorumsAccounted(ledger, x) && CanonicalEpochState(ledger, es) && OfEpochState(es).Verifies(x)
    requires NextEpochState(x).Some?
    ensures Canonical(ledger, x.ledgerInfo)
  {
    hide MultiSignatureVerdict;
  }

  /** An epoch end that is not stale is not before the waypoint of a sound client. */
  lemma EpochEndNotBefore(ledger: seq<LedgerInfo>, s: TrustedState, m: nat)
    requires ValidLedger(ledger) && Sound(ledger, s) && m < |ledger| && Info(ledger, m).nextEpochState.Some?
    requires !s.AsVerifier().IsStale(ledger[m])
    ensures Info(ledger, m).version >= s.waypoint.version
  {
    if Trusted(ledger, s) {
      var k: nat :| TrustedAt(ledger, s, k);
      if s.InEpoch? {
        EpochEndIsLast(ledger, k, m);
      }
    } else if k: nat :| RestsOnGenesis(ledger, s, k) {
      EpochEndIsLast(ledger, k, m);
    }
  }

  // Which responses are taken

  /** The guard of the branch that takes the latest ledger info into the epoch that the proof leads to. */
  predicate TakesIntoEpoch(s: TrustedState, r: Response) {
    var target, verdict := r.latest.ledgerInfo.commitInfo, ProofVerdict(r.proof, s.AsVerifier());
    && target.version >= s.waypoint.version && s.AsVerifier().VerificationRequired(target.NextBlockEpoch())
    && verdict.Some? && verdict.value != r.latest
    && var next := NextEpochState(verdict.value);
    next.Some? && target.epoch == next.value.epoch && OfEpochState(next.value).Verifies(r.latest)
  }

  /** The guard of the branch that takes the latest ledger info inside the client's epoch. */
  predicate TakesInEpoch(s: TrustedState, r: Response) {
    var target := r.latest.ledgerInfo.commitInfo;
    && s.InEpoch? && target.version > s.waypoint.version
    && !s.AsVerifier().VerificationRequired(target.NextBlockEpoch()) && OfEpochState(s.epochState).Verifies(r.latest)
  }

  /** The latest ledger info that is taken is of round 0, or no newer than the epoch change it comes with. */
  predicate Leaves(s: TrustedState, r: Response) {
    var target := r.latest.ledgerInfo.commitInfo;
    || (TakesIntoEpoch(s, r)
        && (target.round == 0
            || target.version <= ProofVerdict(r.proof, s.AsVerifier()).value.ledgerInfo.commitInfo.version))
    || (TakesInEpoch(s, r) && target.round == 0)
  }

  /** The latest ledger info that is taken is of round 0, and does not have the state of the epoch change. */
  predicate TakesMadeUp(s: TrustedState, r: Response) {
    r.latest.ledgerInfo.commitInfo.round == 0
    && (|| TakesInEpoch(s, r)
        || (TakesIntoEpoch(s, r)
            && !SameState(ProofVerdict(r.proof, s.AsVerifier()).value.ledgerInfo.commitInfo,
                          r.latest.ledgerInfo.commitInfo)))
  }

  /** A ledger info that verifies under the state an epoch end installs, and is not of round 0, is on the
      ledger exactly when it is newer than that epoch end. */
  lemma CanonicalIffNewer(ledger: seq<LedgerInfo>, m: nat, es: EpochState, x: LedgerInfoWithSignatures)
    requires ValidLedger(ledger) && Installs(ledger, m, es) && QuorumsAccounted(ledger, x)
    requires OfEpochState(es).Verifies(x)
    ensures Canonical(ledger, x.ledgerInfo) ==> x.ledgerInfo.commitInfo.version > Info(ledger, m).version
    ensures x.ledgerInfo.commitInfo.round > 0 && x.ledgerInfo.commitInfo.version > Info(ledger, m).version ==>
      Canonical(ledger, x.ledgerInfo)
  {
    hide MultiSignatureVerdict;
    assert CanonicalEpochState(ledger, es);
    if Canonical(ledger, x.ledgerInfo) {
      var k: nat :| At(ledger, k, x.ledgerInfo);
      if k < m {
        LedgerOrder(ledger, k, m);
      } else if m < k {
        LedgerOrder(ledger, m, k);
      }
    }
  }

  lemma TrustedIsCanonical(ledger: seq<LedgerInfo>, t: TrustedState, li: LedgerInfo)
    requires t.waypoint == WaypointOf(li)
    ensures Trusted(ledger, t) ==> Canonical(ledger, li)
  {
    if Trusted(ledger, t) {
      var k: nat :| TrustedAt(ledger, t, k);
      assert At(ledger, k, li);
    }
  }

  lemma NextIsNotBefore(ledger: seq<LedgerInfo>, k: nat)
    requires ValidLedger(ledger) && k < |ledger|
    ensures Info(ledger, k).epoch <= Info(ledger, k).NextBlockEpoch()
  {
  }

  lemma InstallsNext(ledger: seq<LedgerInfo>, m: nat, es: EpochState)
    requires ValidLedger(ledger) && Installs(ledger, m, es)
    ensures es.epoch == Info(ledger, m).epoch + 1
  {
  }

  /** What a client rests on that takes a latest ledger info. */
  lemma TakenState(ledger: seq<LedgerInfo>, t: TrustedState, x: LedgerInfoWithSignatures)
    requires ValidLedger(ledger) && t.InEpoch? && CanonicalEpochState(ledger, t.epochState)
    requires QuorumsAccounted(ledger, x) && OfEpochState(t.epochState).Verifies(x)
    requires t.waypoint == WaypointOf(x.ledgerInfo)
    ensures Grounded(ledger, t)
    ensures x.ledgerInfo.commitInfo.round > 0 ==> Sound(ledger, t)
    ensures Trusted(ledger, t) <==> Canonical(ledger, x.ledgerInfo)
  {
    hide MultiSignatureVerdict, ValidLedger;
    if Canonical(ledger, x.ledgerInfo) {
      var k: nat :| At(ledger, k, x.ledgerInfo);
      NextIsNotBefore(ledger, k);
      assert TrustedAt(ledger, t, k);
    } else {
      TrustedIsCanonical(ledger, t, x.ledgerInfo);
      if x.ledgerInfo.commitInfo.IsOrderedOnly() {
        assert RestsOnOrdering(t);
      } else {
        assert RestsOnRoundZero(t);
      }
    }
  }

  lemma TakenGenesis(ledger: seq<LedgerInfo>, t: TrustedState, m: nat, end: LedgerInfo, x: LedgerInfoWithSignatures)
    requires ValidLedger(ledger) && t.InEpoch? && Installs(ledger, m, t.epochState) && At(ledger, m, end)
    requires SameState(end.commitInfo, x.ledgerInfo.commitInfo) && t.waypoint == WaypointOf(x.ledgerInfo)
    ensures Sound(ledger, t)
  {
    assert CanonicalEpochState(ledger, t.epochState);
    assert RestsOnGenesis(ledger, t, m);
  }

  lemma TrustedAtEnd(ledger: seq<LedgerInfo>, t: TrustedState, m: nat, li: LedgerInfo)
    requires ValidLedger(ledger) && At(ledger, m, li) && t.InEpoch? && Installs(ledger, m, t.epochState)
    requires t.waypoint == WaypointOf(li)
    ensures Trusted(ledger, t) && Sound(ledger, t)
  {
    assert CanonicalEpochState(ledger, t.epochState);
    assert TrustedAt(ledger, t, m);
  }

  // Soundness of one response

  /** The epoch end that a verified proof leads to. */
  lemma VerdictAt(ledger: seq<LedgerInfo>, s: TrustedState, r: Response) returns (m: nat)
    requires ValidLedger(ledger) && Grounded(ledger, s) && ResponseAccounted(ledger, r)
    requires ProofVerdict(r.proof, s.AsVerifier()).Some?
    ensures var li := ProofVerdict(r.proof, s.AsVerifier()).value;
      && NextEpochState(li).Some? && At(ledger, m, li.ledgerInfo) && Installs(ledger, m, NextEpochState(li).value)
      && !s.AsVerifier().IsStale(ledger[m])
      && (s.InEpoch? ==> NextEpochState(li).value.epoch > s.epochState.epoch)
  {
    hide MultiSignatureVerdict, StaleCount, Grounded;
    var n := |r.proof.ledgerInfos| - 1;
    var li := r.proof.ledgerInfos[n];
    VerifiedProofEndsEpoch(r.proof, s.AsVerifier());
    ProofEntryCanonical(ledger, s, r.proof, n);
    m :| At(ledger, m, li.ledgerInfo);
  }

  /** An epoch change leads to a later epoch of the ledger; from a sound state, without a made-up info of
      round 0, to a sound state that is not older, also in the branch for truncated proofs, where the code
      compares no versions. */
  lemma EpochRatchetSound(ledger: seq<LedgerInfo>, s: TrustedState, r: Response)
    requires ValidLedger(ledger) && Grounded(ledger, s) && ResponseAccounted(ledger, r)
    requires r.latest.ledgerInfo.commitInfo.version >= s.waypoint.version
    requires s.AsVerifier().VerificationRequired(r.latest.ledgerInfo.commitInfo.NextBlockEpoch())
    requires EpochRatchet(s, r.latest, r.proof).Ok?
    ensures EpochRatchet(s, r.latest, r.proof).value.EpochChange?
    ensures var t := EpochRatchet(s, r.latest, r.proof).value.state;
      && Grounded(ledger, t) && t.InEpoch? && (s.InEpoch? ==> t.epochState.epoch > s.epochState.epoch)
      && (Sound(ledger, s) && !TakesMadeUp(s, r) ==> Sound(ledger, t) && t.waypoint.version >= s.waypoint.version)
      && (Trusted(ledger, t) <==> (TakesIntoEpoch(s, r) ==> Canonical(ledger, r.latest.ledgerInfo)))
  {
    hide MultiSignatureVerdict, ProofVerdict, Grounded, Sound, Trusted, SameState, ValidLedger;
    var li := ProofVerdict(r.proof, s.AsVerifier()).value;
    var t := EpochRatchet(s, r.latest, r.proof).value.state;
    var m := VerdictAt(ledger, s, r);
    assert CanonicalEpochState(ledger, t.epochState);
    if TakesIntoEpoch(s, r) {
      TakenState(ledger, t, r.latest);
      if SameState(li.ledgerInfo.commitInfo, r.latest.ledgerInfo.commitInfo) {
        TakenGenesis(ledger, t, m, li.ledgerInfo, r.latest);
      }
    } else {
      TrustedAtEnd(ledger, t, m, li.ledgerInfo);
      SoundIsGrounded(ledger, t);
      if Sound(ledger, s) {
        EpochEndNotBefore(ledger, s, m);
      }
    }
  }

  lemma SoundIsGrounded(ledger: seq<LedgerInfo>, s: TrustedState)
    requires Sound(ledger, s)
    ensures Grounded(ledger, s)
  {
  }

  lemma CanonicalEpoch(ledger: seq<LedgerInfo>, s: TrustedState)
    requires Grounded(ledger, s) && s.InEpoch?
    ensures CanonicalEpochState(ledger, s.epochState)
  {
    hide RestsOnOrdering, RestsOnRoundZero;
  }

  ghost predicate Advances(s: TrustedState, c: Change) {
    match c
    case VersionChange(t) =>
      s.InEpoch? && t.InEpoch? && t.epochState == s.epochState && t.waypoint.version > s.waypoint.version
    case EpochChange(t, _) => t.InEpoch? && (s.InEpoch? ==> t.epochState.epoch > s.epochState.epoch)
    case NoChange => true
  }

  lemma EndsNoEpoch(ledger: seq<LedgerInfo>, li: LedgerInfo)
    requires ValidLedger(ledger) && Accounted(ledger, li) && li.commitInfo.NextBlockEpoch() <= li.commitInfo.epoch
    ensures li.commitInfo.nextEpochState.None?
  {
    if Canonical(ledger, li) {
      var k: nat :| At(ledger, k, li);
      assert Info(ledger, k).nextEpochState == li.commitInfo.nextEpochState;
    }
  }

  /** Inside the epoch the client takes the latest ledger info exactly under the guard. */
  lemma VersionRatchetSound(ledger: seq<LedgerInfo>, s: TrustedState, r: Response)
    requires ValidLedger(ledger) && Grounded(ledger, s) && ResponseAccounted(ledger, r) && TakesInEpoch(s, r)
    ensures var t := InEpoch(WaypointOf(r.latest.ledgerInfo), s.epochState);
      && Grounded(ledger, t) && (!TakesMadeUp(s, r) ==> Sound(ledger, t))
      && (Trusted(ledger, t) <==> Canonical(ledger, r.latest.ledgerInfo))
      && r.latest.ledgerInfo.commitInfo.epoch == s.epochState.epoch
      && r.latest.ledgerInfo.commitInfo.nextEpochState.None?
  {
    hide MultiSignatureVerdict, Grounded, Sound, Trusted, ValidLedger;
    CanonicalEpoch(ledger, s);
    EndsNoEpoch(ledger, r.latest.ledgerInfo);
    TakenState(ledger, InEpoch(WaypointOf(r.latest.ledgerInfo), s.epochState), r.latest);
  }

  /** One response, honest or not: the client's epoch stays canonical and it advances; from a sound state, and
      without a made-up info of round 0, it stays sound and never goes back; on the ledger, it stays there
      exactly if what it takes is on the ledger. */
  lemma RatchetSound(ledger: seq<LedgerInfo>, s: TrustedState, r: Response)
    requires ValidLedger(ledger) && Grounded(ledger, s) && ResponseAccounted(ledger, r)
    ensures Grounded(ledger, Apply(s, r.latest, r.proof))
    ensures Ratchet(s, r.latest, r.proof).Ok? ==> Advances(s, Ratchet(s, r.latest, r.proof).value)
    ensures Sound(ledger, s) && !TakesMadeUp(s, r) ==>
      Sound(ledger, Apply(s, r.latest, r.proof)) && Apply(s, r.latest, r.proof).waypoint.version >= s.waypoint.version
    ensures Trusted(ledger, s) ==>
      (Trusted(ledger, Apply(s, r.latest, r.proof))
       <==> (TakesIntoEpoch(s, r) || TakesInEpoch(s, r) ==> Canonical(ledger, r.latest.ledgerInfo)))
    ensures r.latest.ledgerInfo.commitInfo.IsOrderedOnly() && s.waypoint.version > 0 ==>
      Apply(s, r.latest, r.proof) == s
    ensures Ratchet(s, r.latest, r.proof).Ok? && Ratchet(s, r.latest, r.proof).value.VersionChange? ==>
      r.latest.ledgerInfo.commitInfo.epoch == s.epochState.epoch && r.latest.ledgerInfo.commitInfo.nextEpochState.None?
  {
    hide MultiSignatureVerdict, ProofVerdict, Grounded, Sound, Trusted, ValidLedger, Canonical, TakesMadeUp,
         ResponseAccounted;
    var target := r.latest.ledgerInfo.commitInfo;
    if target.version >= s.waypoint.version && s.AsVerifier().VerificationRequired(target.NextBlockEpoch()) {
      if EpochRatchet(s, r.latest, r.proof).Ok? {
        EpochRatchetSound(ledger, s, r);
      }
    } else if TakesInEpoch(s, r) {
      VersionRatchetSound(ledger, s, r);
    }
  }

  /** What is signed as an info of round 0 is then not on the ledger. */
  lemma ApartIsOffLedger(ledger: seq<LedgerInfo>, es: EpochState, x: LedgerInfoWithSignatures)
    requires ValidLedger(ledger) && CanonicalEpochState(ledger, es) && OfEpochState(es).Verifies(x)
    requires RoundZeroApart(ledger, x) && x.ledgerInfo.commitInfo.round == 0
    ensures !Canonical(ledger, x.ledgerInfo)
  {
    hide MultiSignatureVerdict;
    forall k: nat ensures !At(ledger, k, x.ledgerInfo) {
      assert At(ledger, k, x.ledgerInfo) ==> SameState(Info(ledger, k), x.ledgerInfo.commitInfo);
    }
  }

  /** Receiving a response twice is receiving it once. */
  lemma ApplyTwice(ledger: seq<LedgerInfo>, s: TrustedState, r: Response)
    requires ValidLedger(ledger) && Grounded(ledger, s) && ResponseAccounted(ledger, r)
    ensures Apply(Apply(s, r.latest, r.proof), r.latest, r.proof) == Apply(s, r.latest, r.proof)
  {
    hide MultiSignatureVerdict, ProofVerdict, Grounded, ValidLedger, ResponseAccounted;
    var t := Apply(s, r.latest, r.proof);
    if Ratchet(s, r.latest, r.proof).Ok? {
      if ProofVerdict(r.proof, s.AsVerifier()).Some? {
        ProofIsStaleAfter(ledger, s, r);
      }
      AcceptedReaches(s, r);
    }
  }

  /** The epoch state that a verified proof installs has no use for the proof. */
  lemma ProofIsStaleAfter(ledger: seq<LedgerInfo>, s: TrustedState, r: Response)
    requires ValidLedger(ledger) && Grounded(ledger, s) && ResponseAccounted(ledger, r)
    requires ProofVerdict(r.proof, s.AsVerifier()).Some?
    ensures var next := NextEpochState(ProofVerdict(r.proof, s.AsVerifier()).value);
      next.Some? && ProofVerdict(r.proof, OfEpochState(next.value)).None?
  {
    hide MultiSignatureVerdict, StaleCount, Grounded, ResponseAccounted;
    var m := VerdictAt(ledger, s, r);
  }

  /** On the ledger, the client leaves it only under a guard that it could check before; exactly under that
      guard if infos of round 0 keep apart from the ledger. */
  lemma StaysIff(ledger: seq<LedgerInfo>, s: TrustedState, r: Response)
    requires ValidLedger(ledger) && Trusted(ledger, s) && ResponseAccounted(ledger, r)
    ensures !Leaves(s, r) ==> Trusted(ledger, Apply(s, r.latest, r.proof))
    ensures RoundZeroApart(ledger, r.latest) && Leaves(s, r) ==> !Trusted(ledger, Apply(s, r.latest, r.proof))
  {
    hide MultiSignatureVerdict, ProofVerdict, Grounded, Trusted, ValidLedger, Apply, Canonical, Accounted;
    TrustedIsGrounded(ledger, s);
    RatchetSound(ledger, s, r);
    if TakesIntoEpoch(s, r) {
      var m := VerdictAt(ledger, s, r);
      var es := NextEpochState(ProofVerdict(r.proof, s.AsVerifier()).value).value;
      assert CanonicalEpochState(ledger, es);
      CanonicalIffNewer(ledger, m, es, r.latest);
      if RoundZeroApart(ledger, r.latest) && r.latest.ledgerInfo.commitInfo.round == 0 {
        ApartIsOffLedger(ledger, es, r.latest);
      }
    } else if TakesInEpoch(s, r) {
      CanonicalEpoch(ledger, s);
      var m: nat :| Installs(ledger, m, s.epochState);
      CanonicalIffNewer(ledger, m, s.epochState, r.latest);
      NotBeforeEpoch(ledger, s, m);
      if RoundZeroApart(ledger, r.latest) && r.latest.ledgerInfo.commitInfo.round == 0 {
        ApartIsOffLedger(ledger, s.epochState, r.latest);
      }
    }
  }

  /** A client on the ledger is not before the epoch end that installed its epoch. */
  lemma NotBeforeEpoch(ledger: seq<LedgerInfo>, s: TrustedState, m: nat)
    requires ValidLedger(ledger) && Trusted(ledger, s) && s.InEpoch? && Installs(ledger, m, s.epochState)
    ensures s.waypoint.version >= Info(ledger, m).version
  {
    var k: nat :| TrustedAt(ledger, s, k);
    if k < m {
      LedgerOrder(ledger, k, m);
    } else if m < k {
      LedgerOrder(ledger, m, k);
    }
  }

  lemma SoundNotBeforeEpoch(ledger: seq<LedgerInfo>, s: TrustedState, m: nat)
    requires ValidLedger(ledger) && Sound(ledger, s) && s.waypoint.version > 0
    requires s.InEpoch? && Installs(ledger, m, s.epochState)
    ensures s.waypoint.version >= Info(ledger, m).version
  {
    hide ValidLedger;
    if Trusted(ledger, s) {
      NotBeforeEpoch(ledger, s, m);
    } else {
      var k: nat :| RestsOnGenesis(ledger, s, k);
      OneStatePerEpoch(ledger, k, s.epochState, m, s.epochState);
    }
  }

  /** Past version 0, a client that holds a state of the ledger holds one after a response exactly if it does
      not take a made-up one. */
  lemma HoldsStateIff(ledger: seq<LedgerInfo>, s: TrustedState, r: Response)
    requires ValidLedger(ledger) && Sound(ledger, s) && s.waypoint.version > 0 && ResponseAccounted(ledger, r)
    requires RoundZeroApart(ledger, r.latest)
    ensures HoldsState(ledger, Apply(s, r.latest, r.proof)) <==> !TakesMadeUp(s, r)
  {
    hide MultiSignatureVerdict, ProofVerdict, Grounded, Sound, ValidLedger, Ratchet, HoldsState, TakesMadeUp;
    SoundIsGrounded(ledger, s);
    RatchetSound(ledger, s, r);
    if TakesMadeUp(s, r) {
      MadeUpHoldsNone(ledger, s, r);
    } else {
      SoundState(ledger, Apply(s, r.latest, r.proof));
    }
  }

  lemma MadeUpHoldsNone(ledger: seq<LedgerInfo>, s: TrustedState, r: Response)
    requires ValidLedger(ledger) && Sound(ledger, s) && s.waypoint.version > 0 && ResponseAccounted(ledger, r)
    requires RoundZeroApart(ledger, r.latest) && TakesMadeUp(s, r)
    ensures !HoldsState(ledger, Apply(s, r.latest, r.proof))
  {
    hide MultiSignatureVerdict, ProofVerdict, Grounded, Sound, ValidLedger;
    SoundIsGrounded(ledger, s);
    var t := Apply(s, r.latest, r.proof);
    assert t.waypoint == WaypointOf(r.latest.ledgerInfo);
    forall k: nat ensures !HoldsStateAt(ledger, t, k) {
      assert HoldsStateAt(ledger, t, k) ==> SameState(Info(ledger, k), r.latest.ledgerInfo.commitInfo);
      if TakesInEpoch(s, r) {
        CanonicalEpoch(ledger, s);
        if Installs(ledger, k, s.epochState) {
          SoundNotBeforeEpoch(ledger, s, k);
        }
      } else {
        var m := VerdictAt(ledger, s, r);
        var es := NextEpochState(ProofVerdict(r.proof, s.AsVerifier()).value).value;
        assert CanonicalEpochState(ledger, es);
        if Installs(ledger, k, es) {
          OneStatePerEpoch(ledger, k, es, m, es);
        }
      }
    }
  }

  lemma TrustedIsGrounded(ledger: seq<LedgerInfo>, s: TrustedState)
    requires Trusted(ledger, s)
    ensures Sound(ledger, s) && Grounded(ledger, s)
  {
  }

  // Whole runs

  function ApplyAll(s: TrustedState, responses: seq<Response>): TrustedState {
    if responses == [] then s
    else
      var n := |responses| - 1;
      Apply(ApplyAll(s, responses[..n]), responses[n].latest, responses[n].proof)
  }

  ghost predicate AllAccounted(ledger: seq<LedgerInfo>, responses: seq<Response>) {
    forall i :: 0 <= i < |responses| ==> ResponseAccounted(ledger, responses[i])
  }

  ghost predicate AllApart(ledger: seq<LedgerInfo>, responses: seq<Response>) {
    forall i :: 0 <= i < |responses| ==> RoundZeroApart(ledger, responses[i].latest)
  }

  /** No response meets `bad` in the state in which it arrives. */
  predicate Never(s: TrustedState, responses: seq<Response>, bad: (TrustedState, Response) -> bool) {
    responses == [] ||
    var n := |responses| - 1;
    Never(s, responses[..n], bad) && !bad(ApplyAll(s, responses[..n]), responses[n])
  }

  /** Any sequence of responses whose quorums are accounted for: the client's epoch is canonical and never
      decreases; without made-up infos of round 0 the client stays sound and its version never decreases. */
  lemma {:induction false} RatchetRunSound(ledger: seq<LedgerInfo>, s: TrustedState, responses: seq<Response>)
    requires ValidLedger(ledger) && Grounded(ledger, s) && AllAccounted(ledger, responses)
    ensures Grounded(ledger, ApplyAll(s, responses))
    ensures s.InEpoch? ==>
      ApplyAll(s, responses).InEpoch? && ApplyAll(s, responses).epochState.epoch >= s.epochState.epoch
    ensures Sound(ledger, s) && Never(s, responses, TakesMadeUp) ==>
      Sound(ledger, ApplyAll(s, responses)) && ApplyAll(s, responses).waypoint.version >= s.waypoint.version
  {
    hide Grounded, Sound, Trusted, Ratchet, ValidLedger, ResponseAccounted, TakesMadeUp, TakesIntoEpoch, TakesInEpoch;
    if responses != [] {
      var n := |responses| - 1;
      RatchetRunSound(ledger, s, responses[..n]);
      RatchetSound(ledger, ApplyAll(s, responses[..n]), responses[n]);
    }
  }

  /** `good` holds before, between and after the responses. */
  ghost predicate Throughout(s: TrustedState, responses: seq<Response>, good: TrustedState -> bool) {
    forall i :: 0 <= i <= |responses| ==> good(ApplyAll(s, responses[..i]))
  }

  lemma ThroughoutStep(s: TrustedState, responses: seq<Response>, good: TrustedState -> bool)
    requires responses != []
    ensures Throughout(s, responses, good)
       <==> Throughout(s, responses[..|responses| - 1], good) && good(ApplyAll(s, responses))
  {
    hide ApplyAll;
    var n := |responses| - 1;
    assert responses[..n + 1] == responses;
    forall i | 0 <= i <= n ensures responses[..n][..i] == responses[..i] {
    }
  }

  ghost function OnLedger(ledger: seq<LedgerInfo>): TrustedState -> bool {
    s => Trusted(ledger, s)
  }

  ghost function Holding(ledger: seq<LedgerInfo>): TrustedState -> bool {
    s => HoldsState(ledger, s)
  }

  /** A client on the ledger is there all the way if it never takes a latest ledger info that is of round 0 or
      no newer than the epoch change it comes with, and only then if infos of round 0 keep apart. */
  lemma {:induction false} OnLedgerThroughoutIff(ledger: seq<LedgerInfo>, s: TrustedState, responses: seq<Response>)
    requires ValidLedger(ledger) && Trusted(ledger, s) && AllAccounted(ledger, responses)
    ensures Never(s, responses, Leaves) ==> Throughout(s, responses, OnLedger(ledger))
    ensures AllApart(ledger, responses) && Throughout(s, responses, OnLedger(ledger)) ==> Never(s, responses, Leaves)
  {
    hide Trusted, ValidLedger, ResponseAccounted, RoundZeroApart, Leaves, Apply;
    if responses != [] {
      var n := |responses| - 1;
      var before := responses[..n];
      OnLedgerThroughoutIff(ledger, s, before);
      ThroughoutStep(s, responses, OnLedger(ledger));
      assert before[..n] == before;
      if Trusted(ledger, ApplyAll(s, before)) {
        StaysIff(ledger, ApplyAll(s, before), responses[n]);
      }
    }
  }

  /** A client on the ledger and past version 0 holds a state of the ledger all the way exactly when it never
      takes a made-up one. */
  lemma {:induction false} HoldsStateThroughoutIff(ledger: seq<LedgerInfo>, s: TrustedState, responses: seq<Response>)
    requires ValidLedger(ledger) && Sound(ledger, s) && s.waypoint.version > 0
    requires AllAccounted(ledger, responses) && AllApart(ledger, responses)
    ensures Never(s, responses, TakesMadeUp) <==> Throughout(s, responses, Holding(ledger))
  {
    hide Sound, Grounded, HoldsState, ValidLedger, ResponseAccounted, RoundZeroApart, TakesMadeUp, Apply;
    if responses == [] {
      SoundState(ledger, s);
    } else {
      var n := |responses| - 1;
      var before := responses[..n];
      HoldsStateThroughoutIff(ledger, s, before);
      ThroughoutStep(s, responses, Holding(ledger));
      if Never(s, before, TakesMadeUp) {
        SoundIsGrounded(ledger, s);
        RatchetRunSound(ledger, s, before);
        HoldsStateIff(ledger, ApplyAll(s, before), responses[n]);
      }
    }
  }
}
