/** Certificates handed out by a collector verify under its own verifier; its arithmetic is safe. */
module CollectorCertificates {
  import opened Types
  import opened BitVectors
  import opened VotingPower
  import opened MultiSignatures
  import opened Certificates
  import opened VoteCollection
  import opened CollectorRuns
  import opened CollectorOutcomes

  /** Every inserted vote passed `Vote::verify` and is for this epoch and round. */
  predicate AllVerified(v: ValidatorVerifier, ops: seq<Op>, epoch: Epoch, round: Round) {
    forall k :: 0 <= k < |ops| && ops[k].InsertOp? ==>
      VoteVerifies(v, ops[k].vote) && ops[k].vote.Epoch() == epoch && ops[k].vote.Round() == round
  }

  predicate EntrySigned(v: ValidatorVerifier, e: PartialLedgerInfo) {
    forall a :: a in e.signatures ==> SignatureVerifies(v, a, LedgerInfoMessage(e.ledgerInfo), e.signatures[a])
  }

  ghost predicate Signed(s: Votes, v: ValidatorVerifier, epoch: Epoch, round: Round) {
    && (forall d :: d in s.ledgerInfos ==> EntrySigned(v, s.ledgerInfos[d]))
    && (s.partialTc.Some? ==>
          TimeoutsSigned(v, s.partialTc.value)
          && s.partialTc.value.timeout.epoch == epoch && s.partialTc.value.timeout.round == round)
  }

  lemma StoredKeepsSigned(s: Votes, vote: Vote, v: ValidatorVerifier, epoch: Epoch, round: Round)
    requires Consistent(s) && Signed(s, v, epoch, round) && VoteVerifies(v, vote)
    ensures Signed(Stored(s, vote), v, epoch, round)
  {
    hide TimeoutVerifies, TimeoutsSigned, SignatureVerifies, VoteDataVerifies;
    var d := vote.Digest();
    if d in s.ledgerInfos {
      assert s.ledgerInfos[d].ledgerInfo == vote.ledgerInfo;
    }
    assert EntrySigned(v, Stored(s, vote).ledgerInfos[d]);
  }

  lemma TimeoutAddSigned(s: Votes, vote: Vote, v: ValidatorVerifier, epoch: Epoch, round: Round)
    requires Signed(s, v, epoch, round) && VoteVerifies(v, vote) && vote.timeout.Some?
    requires vote.Epoch() == epoch && vote.Round() == round && vote.author !in TimeoutSigners(s)
    ensures var (t, sig) := vote.timeout.value;
      var before := if s.partialTc.Some? then s.partialTc.value else PartialTimeoutCert(t, map[]);
      var tc := before.Add(vote.author, t, sig);
      TimeoutsSigned(v, tc) && tc.timeout.epoch == epoch && tc.timeout.round == round
  {
    hide TimeoutVerifies, TimeoutsSigned, SignatureVerifies, VoteDataVerifies, EntrySigned;
    var (t, sig) := vote.timeout.value;
    var before := if s.partialTc.Some? then s.partialTc.value else PartialTimeoutCert(t, map[]);
    AddKeepsTimeoutsSigned(v, before, vote.author, t, sig);
  }

  /** A vote that gets past the duplicate check has not signed the pending timeout certificate. */
  lemma NewTimeoutAuthor(s: Votes, vote: Vote)
    requires Consistent(s)
    requires vote.author in s.byAuthor ==> IsNewTimeout(s, vote)
    ensures vote.author !in TimeoutSigners(s)
  {
  }

  lemma StepKeepsSigned(s: Votes, vote: Vote, v: ValidatorVerifier, epoch: Epoch, round: Round)
    requires Consistent(s) && Signed(s, v, epoch, round)
    requires VoteVerifies(v, vote) && vote.Epoch() == epoch && vote.Round() == round
    ensures Signed(Insert(s, vote, v).0, v, epoch, round)
  {
    hide CertifyStep, VoteVerifies, TimeoutsSigned, EntrySigned;
    if !(vote.author in s.byAuthor && (s.byAuthor[vote.author].1 != vote.Digest() || !IsNewTimeout(s, vote))) {
      var t := Stored(s, vote);
      StoredKeepsSigned(s, vote, v, epoch, round);
      NewTimeoutAuthor(s, vote);
      CertifyStepFrame(t, vote, v);
      if vote.timeout.Some? {
        TimeoutAddSigned(t, vote, v, epoch, round);
      }
    }
  }

  lemma {:induction false} RunSigned(v: ValidatorVerifier, ops: seq<Op>, epoch: Epoch, round: Round)
    requires AllVerified(v, ops, epoch, round)
    ensures Signed(StateAfter(v, ops), v, epoch, round)
  {
    hide Insert, VoteVerifies, EntrySigned, TimeoutsSigned;
    if ops != [] {
      var n := |ops| - 1;
      RunSigned(v, ops[..n], epoch, round);
      RunConsistent(v, ops[..n]);
      if ops[n].InsertOp? {
        StepKeepsSigned(StateAfter(v, ops[..n]), ops[n].vote, v, epoch, round);
      }
    }
  }

  lemma EntryCertificateVerifies(v: ValidatorVerifier, e: PartialLedgerInfo)
    requires WellFormed(v) && EntrySigned(v, e) && e.signatures != map[]
    requires PowerOf(v.infos, e.signatures.Keys) >= v.quorum
    ensures e.Aggregate(v).Ok? && e.Aggregate(v).value.ledgerInfo == e.ledgerInfo
    ensures var sig := e.Aggregate(v).value.signatures;
      && MultiSignatureVerdict(v, LedgerInfoMessage(e.ledgerInfo), sig).Ok?
      && VotingPowerVerdict(v, GetVoterAddresses(sig.bitmask, OrderedAddresses(v))).Ok?
  {
    hide Aggregated, MultiSignatureVerdict, PowerOf, Index, GetVoterAddresses, IsSet;
    assert e.signatures.Keys <= Addresses(v.infos);
    MultiSignatureRoundTrip(v, e.signatures, LedgerInfoMessage(e.ledgerInfo));
    MaskRoundTrip(v, e.signatures);
    var b := e.Aggregate(v).value.signatures.bitmask;
    VoterAddressesAreVoters(v, b);
    VerdictOfDistinctAuthors(v, GetVoterAddresses(b, OrderedAddresses(v)));
  }

  /** The certificate handed out by an insert: it verifies, and so does its voting power. */
  lemma CertifiedEntry(s: Votes, vote: Vote, v: ValidatorVerifier, epoch: Epoch, round: Round)
    requires WellFormed(v) && Consistent(s) && Signed(s, v, epoch, round) && VoteVerifies(v, vote)
    requires Insert(s, vote, v).1.NewQuorumCertificate?
    ensures var qc := Insert(s, vote, v).1.qc;
      && QcVerifies(v, qc)
      && VotingPowerVerdict(v, GetVoterAddresses(qc.signedLedgerInfo.signatures.bitmask, OrderedAddresses(v))).Ok?
  {
    hide Signers, Aggregated, TimeoutStep, MultiSignatureVerdict, PowerOf, TimeoutVerifies, SignatureVerifies,
         GetVoterAddresses, VotingPowerVerdict;
    var t := Stored(s, vote);
    StoredKeepsSigned(s, vote, v, epoch, round);
    var e := t.ledgerInfos[vote.Digest()];
    assert vote.author in e.signatures;
    SignersVerdict(v, e.signatures.Keys);
    var verdict := Signers(v, e.signatures.Keys);
    if verdict.Err? && verdict.error.TooLittleVotingPower? {
      TimeoutStepNeverCertifies(t, vote, v, verdict.error.votingPower);
    }
    CertificateMeansRecordedQuorum(s, vote, v);
    EntryCertificateVerifies(v, e);
  }

  /** Every quorum certificate a collector hands out verifies under the same verifier. */
  lemma EmittedQcVerifies(v: ValidatorVerifier, ops: seq<Op>, epoch: Epoch, round: Round, i: nat, qc: QuorumCert)
    requires WellFormed(v) && AllVerified(v, ops, epoch, round) && CertifiesAt(v, ops, i, qc)
    ensures QcVerifies(v, qc)
    ensures VotingPowerVerdict(v, GetVoterAddresses(qc.signedLedgerInfo.signatures.bitmask, OrderedAddresses(v))).Ok?
  {
    hide Insert, QcVerifies, VotingPowerVerdict, GetVoterAddresses, StateAfter, WellFormed, VoteVerifies;
    RunSigned(v, ops[..i], epoch, round);
    RunConsistent(v, ops[..i]);
    CertifiedEntry(StateAfter(v, ops[..i]), ops[i].vote, v, epoch, round);
  }

  lemma TimeoutStepCertificate(s: Votes, vote: Vote, v: ValidatorVerifier, power: nat, epoch: Epoch, round: Round)
    requires WellFormed(v) && Signed(s, v, epoch, round) && VoteVerifies(v, vote)
    requires vote.Epoch() == epoch && vote.Round() == round && vote.author !in TimeoutSigners(s)
    requires TimeoutStep(s, vote, v, power).1.New2ChainTimeoutCertificate?
    ensures TcVerifies(v, TimeoutStep(s, vote, v, power).1.tc)
    ensures TimeoutStep(s, vote, v, power).1.tc.timeout.epoch == epoch
    ensures TimeoutStep(s, vote, v, power).1.tc.timeout.round == round
  {
    hide Signers, Aggregated, PowerOf, VoteVerifies, TcVerifies, TimeoutsSigned, EntrySigned;
    var (t, sig) := vote.timeout.value;
    var tc := (if s.partialTc.Some? then s.partialTc.value else PartialTimeoutCert(t, map[])).Add(vote.author, t, sig);
    TimeoutAddSigned(s, vote, v, epoch, round);
    SignersVerdict(v, tc.signatures.Keys);
    TimeoutCertRoundTrip(v, tc);
  }

  lemma CertifiedTimeout(s: Votes, vote: Vote, v: ValidatorVerifier, epoch: Epoch, round: Round)
    requires WellFormed(v) && Consistent(s) && Signed(s, v, epoch, round) && VoteVerifies(v, vote)
    requires vote.Epoch() == epoch && vote.Round() == round
    requires Insert(s, vote, v).1.New2ChainTimeoutCertificate?
    ensures TcVerifies(v, Insert(s, vote, v).1.tc) && Insert(s, vote, v).1.tc.timeout.round == round
    ensures Insert(s, vote, v).1.tc.timeout.epoch == epoch
  {
    hide Signers, Aggregated, TimeoutStep, TcVerifies, VoteVerifies, TimeoutsSigned, EntrySigned, WellFormed;
    var t := Stored(s, vote);
    StoredKeepsSigned(s, vote, v, epoch, round);
    NewTimeoutAuthor(s, vote);
    var verdict := Signers(v, t.ledgerInfos[vote.Digest()].signatures.Keys);
    TimeoutStepCertificate(t, vote, v, verdict.error.votingPower, epoch, round);
  }

  /** Every timeout certificate a collector hands out verifies under the same verifier. */
  lemma EmittedTcVerifies(v: ValidatorVerifier, ops: seq<Op>, epoch: Epoch, round: Round, i: nat)
    requires WellFormed(v) && AllVerified(v, ops, epoch, round)
    requires i < |ops| && ops[i].InsertOp? && ResultAt(v, ops, i).New2ChainTimeoutCertificate?
    ensures TcVerifies(v, ResultAt(v, ops, i).tc)
    ensures ResultAt(v, ops, i).tc.timeout.epoch == epoch && ResultAt(v, ops, i).tc.timeout.round == round
  {
    hide Insert, TcVerifies, StateAfter, WellFormed, VoteVerifies;
    RunSigned(v, ops[..i], epoch, round);
    RunConsistent(v, ops[..i]);
    CertifiedTimeout(StateAfter(v, ops[..i]), ops[i].vote, v, epoch, round);
  }

  // The echo threshold `total - quorum + 1` on a default verifier

  lemma {:induction false} PowerlessSums(infos: seq<ValidatorInfo>, s: set<Author>)
    requires SumPower(infos) == 0
    ensures PowerOf(infos, s) == 0
  {
    PowerAtMostTotal(infos, s);
  }

  /** A signed vote of the given validator in the first round of an epoch, with a signed timeout. */
  function FirstTimeoutVote(v: ValidatorInfo, epoch: Epoch): Vote {
    var genesis := EMPTY_BLOCK_INFO.(epoch := epoch);
    var root := VoteData(genesis, genesis);
    var qc := QuorumCert(root, LedgerInfoWithSignatures(LedgerInfo(genesis, VoteDataHash(root)),
                                                        AggregateSignature(BitVec([]), None)));
    var voteData := VoteData(genesis.(round := 1, id := Raw(1)), genesis);
    var li := LedgerInfo(genesis, VoteDataHash(voteData));
    var t := TwoChainTimeout(epoch, 1, qc);
    Vote(voteData, v.address, li, Sign(v.publicKey, LedgerInfoMessage(li)),
         Some((t, Sign(v.publicKey, t.SigningFormat()))))
  }

  lemma FirstTimeoutVoteVerifies(v: ValidatorVerifier, i: nat, epoch: Epoch)
    requires UniqueAddresses(v.infos) && i < |v.infos|
    ensures AllVerified(v, [InsertOp(FirstTimeoutVote(v.infos[i], epoch))], epoch, 1)
  {
    IndexOfAddress(v, i);
  }

  /** The subtraction underflows in some run of verified votes exactly when the validators have no power at
      all: then it does so on the first timeout vote, and otherwise never, verified or not. */
  lemma UnderflowIffPowerless(infos: seq<ValidatorInfo>, epoch: Epoch)
    requires UniqueAddresses(infos) && 0 < |infos| < U16_MODULUS
    ensures AllVerified(New(infos), [InsertOp(FirstTimeoutVote(infos[0], epoch))], epoch, 1)
    ensures SumPower(infos) == 0 ==>
      ResultAt(New(infos), [InsertOp(FirstTimeoutVote(infos[0], epoch))], 0).PowerUnderflow?
    ensures SumPower(infos) > 0 ==>
      forall ops: seq<Op>, i: nat :: i < |ops| && ops[i].InsertOp? ==> !ResultAt(New(infos), ops, i).PowerUnderflow?
  {
    hide Insert, StepState, AllVerified, FirstTimeoutVote;
    var v := New(infos);
    DefaultQuorumIsSuperMajority(infos);
    FirstTimeoutVoteVerifies(v, 0, epoch);
    if SumPower(infos) == 0 {
      PowerlessFirstVote(infos, epoch);
      assert [InsertOp(FirstTimeoutVote(infos[0], epoch))][..0] == [];
    } else {
      forall ops: seq<Op>, i: nat | i < |ops| && ops[i].InsertOp? ensures !ResultAt(v, ops, i).PowerUnderflow? {
        EchoInvariantHolds(v, ops[..i]);
        EchoInStep(StateAfter(v, ops[..i]), ops[i].vote, v);
      }
    }
  }

  lemma PowerlessFirstVote(infos: seq<ValidatorInfo>, epoch: Epoch)
    requires UniqueAddresses(infos) && 0 < |infos| < U16_MODULUS && SumPower(infos) == 0
    ensures Insert(NO_VOTES, FirstTimeoutVote(infos[0], epoch), New(infos)).1.PowerUnderflow?
  {
    hide Signers, Aggregated;
    var v, vote := New(infos), FirstTimeoutVote(infos[0], epoch);
    var keys := {infos[0].address};
    assert keys <= Addresses(infos);
    PowerlessSums(infos, keys);
    SignersVerdict(v, keys);
    assert Stored(NO_VOTES, vote).ledgerInfos[vote.Digest()].signatures.Keys == keys;
    var (t, sig) := vote.timeout.value;
    assert PartialTimeoutCert(t, map[]).Add(vote.author, t, sig).signatures.Keys == keys;
  }
}
