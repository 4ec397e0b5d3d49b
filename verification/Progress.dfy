/** Runs that commit: for every height there is a run of the protocol that commits a block there, so the
    agreement theorem is never about nothing. */
module Progress {
  import opened Types
  import opened BitVectors
  import opened VotingPower
  import opened MultiSignatures
  import opened Certificates
  import opened TwoChainRules
  import opened TwoChain
  import opened EpochChanges
  import opened TrustedStates
  import opened LedgerOfRun
  import opened VoteCollection
  import opened CollectorRuns
  import opened CollectorCertificates
  import Agreement
  import CatchUp

  /** The genesis block of epoch 1, and above it one ordered block per round. */
  function InfoAt(r: Round): BlockInfo {
    if r == 0 then GenesisInfo(CatchUp.SampleLedgerInfo(0))
    else BlockInfo(1, r, Raw(r), AccumulatorPlaceholder, 0, r, None)
  }

  const SOLO_CONFIG := Config({1}, map[1 := LONE_VALIDATOR])

  function DataAt(r: Round): VoteData {
    VoteData(InfoAt(r), InfoAt(if r == 0 then 0 else r - 1))
  }

  function LedgerInfoAt(r: Round): LedgerInfo {
    LedgerInfo(DataAt(r).parent, VoteDataHash(DataAt(r)))
  }

  function SignaturesAt(r: Round): AggregateSignature {
    if r == 0 then AggregateSignature(BitVec([]), None) else SoloSignature(LedgerInfoAt(r))
  }

  function QcAt(r: Round): QuorumCert {
    QuorumCert(DataAt(r), LedgerInfoWithSignatures(LedgerInfoAt(r), SignaturesAt(r)))
  }

  function ProposalAt(r: Round): VoteProposal
    requires r > 0
  {
    VoteProposal(Block(1, r, Raw(r), r, QcAt(r - 1)), true, None, None, true)
  }

  function StateAt(r: Round): SafetyState {
    var data :=
      if r == 0 then SafetyData(1, 0, 0, 0, None)
      else SafetyData(1, r, if r > 2 then r - 2 else 0, r - 1, Some(VoteAt(r)));
    SafetyState(data, Some(Signer(1, 1)), Some(EpochState(1, LONE_VALIDATOR)))
  }

  function VoteAt(r: Round): Vote
    requires r > 0
  {
    Vote(DataAt(r), 1, LedgerInfoAt(r), Sign(1, LedgerInfoMessage(LedgerInfoAt(r))), None)
  }

  ghost function NetworkAt(r: Round): Network {
    var voted := iset q: Round | 0 < q <= r :: Atom(1, LedgerInfoMessage(LedgerInfoAt(q)));
    Network(map[1 := StateAt(r)], voted, voted)
  }

  lemma LoneValidatorIsValid()
    ensures WellFormed(LONE_VALIDATOR) && SuperMajority(LONE_VALIDATOR) && FaultBound(LONE_VALIDATOR, {1})
    ensures ValidConfig(SOLO_CONFIG)
    ensures Addresses(LONE_VALIDATOR.infos) == {1} && PowerOf(LONE_VALIDATOR.infos, {1}) == 1 == LONE_VALIDATOR.quorum
    ensures GetPublicKey(LONE_VALIDATOR, 1) == Some(1)
  {
    assert LONE_VALIDATOR.infos[0].address == 1;
    PowerOfOne(LONE_VALIDATOR.infos, 0);
    IndexOfAddress(LONE_VALIDATOR, 0);
    assert SumPower(LONE_VALIDATOR.infos) == 1;
    assert Byzantine(LONE_VALIDATOR, {1}) == {};
  }

  function SoloSignature(li: LedgerInfo): AggregateSignature {
    match Aggregated(LONE_VALIDATOR, map[1 := Sign(1, LedgerInfoMessage(li))])
    case Ok(sig) => sig
    case Err(_) => AggregateSignature(BitVec([]), None)
  }

  lemma SoloSignatureVerifies(li: LedgerInfo)
    ensures MultiSignatureVerdict(LONE_VALIDATOR, LedgerInfoMessage(li), SoloSignature(li)).Ok?
    ensures SoloSignature(li).sig.Some? ==>
      forall a :: a in SoloSignature(li).sig.value.atoms ==> a == Atom(1, LedgerInfoMessage(li))
  {
    hide MultiSignatureVerdict, Aggregated, IsSet;
    LoneValidatorIsValid();
    var m := LedgerInfoMessage(li);
    var sigs := map[1 := Sign(1, m)];
    assert sigs.Keys == {1};
    MultiSignatureRoundTrip(LONE_VALIDATOR, sigs, m);
    if SoloSignature(li).sig.Some? {
      forall a | a in SoloSignature(li).sig.value.atoms ensures a == Atom(1, m) {
        var i := Agreement.BundledAtom(LONE_VALIDATOR, m, SoloSignature(li), a);
      }
    }
  }

  /** The certificate of every round verifies and bundles only the lone validator's signature. */
  lemma QcIsValid(r: Round)
    ensures QcVerifies(LONE_VALIDATOR, QcAt(r))
    ensures SignaturesAt(r).sig.Some? ==>
      forall a :: a in SignaturesAt(r).sig.value.atoms ==> r > 0 && a == Atom(1, LedgerInfoMessage(LedgerInfoAt(r)))
  {
    hide MultiSignatureVerdict, SoloSignature;
    if r > 0 {
      SoloSignatureVerifies(LedgerInfoAt(r));
    }
  }

  lemma SignsNext(r: Round)
    requires r < U64_MAX
    ensures SignVote(StateAt(r), ProposalAt(r + 1), None, true) == (StateAt(r + 1), Ok(VoteAt(r + 1)))
  {
    hide QcVerifies, SignaturesAt;
    QcIsValid(r);
  }

  ghost function Trace(r: Round): seq<Network> {
    seq(r + 2, i requires 0 <= i < r + 2 =>
      if i == 0 then NetworkAt(0).(nodes := map[1 := StateAt(0).(epochState := None)]) else NetworkAt(i - 1))
  }

  function Steps(r: Round): seq<Step> {
    seq(r + 1, i requires 0 <= i < r + 1 =>
      if i == 0 then EpochStep(1, 1) else VoteStep(1, ProposalAt(i), None, true))
  }

  lemma SignedGrows(r: Round)
    ensures NetworkAt(r).signed + AtomSet(VoteAt(r + 1).signature.atoms) == NetworkAt(r + 1).signed
  {
  }

  lemma OwnVotesCertify(r: Round)
    ensures FromBlockStore(SOLO_CONFIG, NetworkAt(r), VoteStep(1, ProposalAt(r + 1), None, true))
  {
    hide SignaturesAt, QcVerifies, StateAt;
    QcIsValid(r);
  }

  lemma VoteStepHappens(r: Round)
    requires r < U64_MAX
    ensures Next(SOLO_CONFIG, NetworkAt(r), VoteStep(1, ProposalAt(r + 1), None, true), NetworkAt(r + 1))
  {
    hide SignVote, SignaturesAt, FromBlockStore, StateAt, LedgerInfoAt;
    SignsNext(r);
    OwnVotesCertify(r);
    SignedGrows(r);
    assert NetworkAt(r).nodes[1 := StateAt(r + 1)] == NetworkAt(r + 1).nodes;
    assert NetworkAt(r).signed == NetworkAt(r).voted && NetworkAt(r + 1).signed == NetworkAt(r + 1).voted;
  }

  lemma SoloRun(r: Round)
    requires r <= U64_MAX
    ensures IsRun(SOLO_CONFIG, Trace(r), Steps(r))
  {
    hide Next, NetworkAt, StateAt;
    FirstStep();
    forall i | 0 <= i < |Steps(r)| ensures Next(SOLO_CONFIG, Trace(r)[i], Steps(r)[i], Trace(r)[i + 1]) {
      if i > 0 {
        VoteStepHappens(i - 1);
      }
    }
  }

  lemma FirstStep()
    ensures Initial(SOLO_CONFIG, Trace(0)[0]) && Next(SOLO_CONFIG, Trace(0)[0], EpochStep(1, 1), NetworkAt(0))
  {
  }

  /** For every round there is a run with a certificate that commits the block of that round. */
  lemma EveryHeightCommits(r: Round) returns (c: Config, trace: seq<Network>, steps: seq<Step>, e: Epoch,
                           qc: QuorumCert)
    requires r < U64_MAX
    ensures ValidConfig(c) && IsRun(c, trace, steps)
    ensures Commits(c, trace[|trace| - 1], e, qc) && qc.CommitInfo().round == r
  {
    hide QcVerifies, SignaturesAt, Next, Initial;
    LoneValidatorIsValid();
    SoloRun(r + 1);
    QcIsValid(r + 1);
    c, trace, steps, e, qc := SOLO_CONFIG, Trace(r + 1), Steps(r + 1), 1, QcAt(r + 1);
  }

  // Commit votes

  function ExecutedAt(r: Round): BlockInfo {
    InfoAt(r).(executedStateId := Raw(r), version := r)
  }

  /** The commit vote for the block of round `r`, ordered by the certificate of the round after. */
  function CommitLedgerInfoAt(r: Round): LedgerInfo {
    LedgerInfo(ExecutedAt(r), VoteDataHash(DataAt(r + 1)))
  }

  ghost function CommittedNetworkAt(r: Round): Network {
    var n := NetworkAt(r + 1);
    n.(signed := n.signed + iset{Atom(1, LedgerInfoMessage(CommitLedgerInfoAt(r)))})
  }

  lemma CommitVoteHappens(r: Round)
    requires 0 < r < U64_MAX
    ensures Next(SOLO_CONFIG, NetworkAt(r + 1), CommitStep(1, QcAt(r + 1).signedLedgerInfo, CommitLedgerInfoAt(r)),
                 CommittedNetworkAt(r))
  {
    hide MultiSignatureVerdict, SignaturesAt;
    QcIsValid(r + 1);
    var li := CommitLedgerInfoAt(r);
    assert AtomSet(Sign(1, LedgerInfoMessage(li)).atoms) == iset{Atom(1, LedgerInfoMessage(li))};
  }

  /** The run up to the certificate of round `r + 1`, and the commit vote. */
  lemma CommittedRun(r: Round) returns (trace: seq<Network>, steps: seq<Step>)
    requires 0 < r < U64_MAX
    ensures IsRun(SOLO_CONFIG, trace, steps) && trace[|trace| - 1] == CommittedNetworkAt(r)
  {
    hide Next, NetworkAt, CommittedNetworkAt, Initial, SignaturesAt;
    SoloRun(r + 1);
    CommitVoteHappens(r);
    trace := Trace(r + 1) + [CommittedNetworkAt(r)];
    steps := Steps(r + 1) + [CommitStep(1, QcAt(r + 1).signedLedgerInfo, CommitLedgerInfoAt(r))];
    forall i | 0 <= i < |steps| ensures Next(SOLO_CONFIG, trace[i], steps[i], trace[i + 1]) {
      if i < |Steps(r + 1)| {
        assert Next(SOLO_CONFIG, Trace(r + 1)[i], Steps(r + 1)[i], Trace(r + 1)[i + 1]);
      }
    }
  }

  /** The certificate of the commit vote: the same block, with the executed info. */
  function CommitCertAt(r: Round): QuorumCert {
    QuorumCert(DataAt(r + 1), LedgerInfoWithSignatures(CommitLedgerInfoAt(r), SoloSignature(CommitLedgerInfoAt(r))))
  }

  /** For every round there is a run with a certificate of votes and one of commit votes that commit the
      same block with different infos. */
  lemma EveryHeightIsExecuted(r: Round) returns (trace: seq<Network>, steps: seq<Step>)
    requires 0 < r < U64_MAX
    ensures IsRun(SOLO_CONFIG, trace, steps)
    ensures Commits(SOLO_CONFIG, trace[|trace| - 1], 1, QcAt(r + 1))
    ensures Commits(SOLO_CONFIG, trace[|trace| - 1], 1, CommitCertAt(r))
    ensures QcAt(r + 1).CommitInfo() == InfoAt(r) && CommitCertAt(r).CommitInfo() == ExecutedAt(r) != InfoAt(r)
  {
    hide MultiSignatureVerdict, SoloSignature, IsRun;
    trace, steps := CommittedRun(r);
    QcIsValid(r + 1);
    SoloSignatureVerifies(CommitLedgerInfoAt(r));
  }

  /** The commit vote as a vote. */
  function DisguisedVoteAt(r: Round): Vote {
    VoteAt(r + 1).(ledgerInfo := CommitLedgerInfoAt(r), signature := Sign(1, LedgerInfoMessage(CommitLedgerInfoAt(r))))
  }

  lemma VotesVerify(r: Round)
    requires r > 0
    ensures VoteVerifies(LONE_VALIDATOR, VoteAt(r + 1)) && VoteVerifies(LONE_VALIDATOR, DisguisedVoteAt(r))
    ensures VoteAt(r + 1).Digest() != DisguisedVoteAt(r).Digest()
    ensures VoteAt(r + 1).Round() == r + 1 == DisguisedVoteAt(r).Round()
    ensures VoteAt(r + 1).Epoch() == 1 == DisguisedVoteAt(r).Epoch()
    ensures Agreement.VotesUnforged(SOLO_CONFIG, CommittedNetworkAt(r),
                                    [InsertOp(VoteAt(r + 1)), InsertOp(DisguisedVoteAt(r))])
  {
    hide PowerOf;
    LoneValidatorIsValid();
  }

  /** A collector that is handed a commit vote as a vote accuses its honest author. */
  lemma CommitVoteCanAccuse(r: Round)
    requires 0 < r < U64_MAX
    ensures var ops := [InsertOp(VoteAt(r + 1)), InsertOp(DisguisedVoteAt(r))];
      && AllVerified(LONE_VALIDATOR, ops, 1, r + 1) && Agreement.VotesUnforged(SOLO_CONFIG, CommittedNetworkAt(r), ops)
      && ResultAt(LONE_VALIDATOR, ops, 1).EquivocateVote?
  {
    VotesVerify(r);
    hide CertifyStep, PowerOf, VoteVerifies, LedgerInfoAt, CommitLedgerInfoAt;
    var v := LONE_VALIDATOR;
    var vote, other := VoteAt(r + 1), DisguisedVoteAt(r);
    var ops := [InsertOp(vote), InsertOp(other)];
    Agreement.StateAfterInsert(v, ops, 0);
    assert ops[..0] == [];
    var s := StateAfter(v, ops[..1]);
    CertifyStepFrame(Stored(NO_VOTES, vote), vote, v);
    Agreement.EquivocationMeansOtherDigest(s, other, v);
  }

  // A ledger for the run

  function ExecutionOf(id: HashValue): BlockInfo {
    match id
    case Raw(r) => ExecutedAt(r)
    case _ => InfoAt(0)
  }

  /** Genesis, and the execution of the blocks of rounds 1 to `r`. */
  function LedgerAt(r: Round): seq<LedgerInfo> {
    seq(r + 1, k requires 0 <= k < r + 1 => if k == 0 then CatchUp.SampleLedgerInfo(0) else CommitLedgerInfoAt(k))
  }

  lemma CertifiedInSoloRun(r: Round, e: Epoch, d: VoteData) returns (q: Round)
    requires Certified(SOLO_CONFIG, NetworkAt(r).voted, e, d)
    ensures 0 < q <= r && d == DataAt(q)
  {
    hide PowerOf;
    LoneValidatorIsValid();
    var authors, li :| CertifiedBy(SOLO_CONFIG, NetworkAt(r).voted, e, d, authors, li);
    var k := HonestSigner(SOLO_CONFIG, NetworkAt(r), e, d, authors, li);
    q :| 0 < q <= r && Atom(k, LedgerInfoMessage(li)) == Atom(1, LedgerInfoMessage(LedgerInfoAt(q)));
  }

  /** The hypotheses of the light client's theorem hold together, for runs of every length. */
  lemma LedgerHoldsAt(r: Round)
    ensures LedgerHolds(SOLO_CONFIG, NetworkAt(r), LedgerAt(r), ExecutionOf)
  {
    hide Certified, SignaturesAt, StateAt;
    var n, ledger := NetworkAt(r), LedgerAt(r);
    forall e, d | CommittedBy(SOLO_CONFIG, n, e, d)
      ensures Canonical(ledger, LedgerInfo(ExecutionOf(d.parent.id), VoteDataHash(d)))
    {
      var q := CertifiedInSoloRun(r, e, d);
      assert At(ledger, q - 1, LedgerInfo(ExecutionOf(d.parent.id), VoteDataHash(d)));
    }
    LedgerIsValid(r);
    forall a | a in n.voted ensures exists q: Round :: 0 < q && a == Atom(1, LedgerInfoMessage(LedgerInfoAt(q))) {
      var q: Round :| 0 < q <= r && a == Atom(1, LedgerInfoMessage(LedgerInfoAt(q)));
    }
  }

  lemma LedgerIsValid(r: Round)
    ensures ValidLedger(LedgerAt(r)) && EpochsAgree(SOLO_CONFIG, LedgerAt(r))
  {
    var ledger := LedgerAt(r);
    assert ledger[0] == CatchUp.SampleLedgerInfo(0);
    assert forall k :: 0 < k < |ledger| ==> ledger[k] == CommitLedgerInfoAt(k);
  }

  /** Its votes keep apart from the ledger. */
  lemma VotesApartAt(r: Round)
    ensures VotesApart(NetworkAt(r), LedgerAt(r))
  {
    var ledger := LedgerAt(r);
    assert forall k :: 0 < k < |ledger| ==> ledger[k] == CommitLedgerInfoAt(k);
    forall a, k: nat | a in NetworkAt(r).voted && k < |ledger| && IsRoundZeroVote(a, Info(ledger, k))
      ensures ledger[k].EndsEpoch() && Info(ledger, k).epoch + 1 == a.message.ledgerInfo.commitInfo.epoch
    {
      var q: Round :| 0 < q <= r && a == Atom(1, LedgerInfoMessage(LedgerInfoAt(q)));
      assert q == 1;
    }
  }

  /** A client that trusts genesis, and a response with the certificate of round `r` as latest ledger info. */
  const AT_GENESIS := EpochWaypoint(WaypointOf(CatchUp.SampleLedgerInfo(0)))

  function StaleResponse(r: Round): Response {
    var genesis := LedgerInfoWithSignatures(CatchUp.SampleLedgerInfo(0), AggregateSignature(BitVec([]), None));
    Response(QcAt(r).signedLedgerInfo, EpochChangeProof([genesis], false))
  }

  lemma StaleResponseVerdict(r: Round)
    ensures var p := StaleResponse(r).proof;
      ProofVerdict(p, OfWaypoint(AT_GENESIS.waypoint)) == Some(p.ledgerInfos[0])
  {
    var p, start := StaleResponse(r).proof, OfWaypoint(AT_GENESIS.waypoint);
    assert !start.IsStale(p.ledgerInfos[0].ledgerInfo);
    assert StaleCount(start, p.ledgerInfos) == 0;
    assert EntryAccepted(start, p.ledgerInfos, 0, 0);
  }

  /** The client takes it, whatever the round, and leaves the ledger: with the genesis of the epoch for the
      first round, with a block that is ordered only for every later one. */
  lemma StaleResponseIsTaken(r: Round)
    requires 0 < r <= U64_MAX
    ensures IsRun(SOLO_CONFIG, Trace(r), Steps(r)) && LedgerHolds(SOLO_CONFIG, NetworkAt(r), LedgerAt(r), ExecutionOf)
    ensures ResponseUnforged(SOLO_CONFIG, NetworkAt(r), StaleResponse(r)) && Trusted(LedgerAt(r), AT_GENESIS)
    ensures var t := Apply(AT_GENESIS, StaleResponse(r).latest, StaleResponse(r).proof);
      t != AT_GENESIS && t.waypoint == WaypointOf(StaleResponse(r).latest.ledgerInfo) && !Trusted(LedgerAt(r), t)
  {
    hide MultiSignatureVerdict, ProofVerdict, SignaturesAt, IsRun, Records, ExecutesBy;
    SoloRun(r);
    LedgerHoldsAt(r);
    QcIsValid(r);
    StaleResponseVerdict(r);
    assert LedgerAt(r)[0] == CatchUp.SampleLedgerInfo(0);
    assert TrustedAt(LedgerAt(r), AT_GENESIS, 0);
    var t := Apply(AT_GENESIS, StaleResponse(r).latest, StaleResponse(r).proof);
    forall k: nat ensures !TrustedAt(LedgerAt(r), t, k) {
    }
  }
}
