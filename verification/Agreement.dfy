/** From votes on the wire to committed blocks: certificates assembled by any collectors of an epoch
    never commit different branches. */
module Agreement {
  import opened Types
  import opened BitVectors
  import opened VotingPower
  import opened MultiSignatures
  import opened Certificates
  import opened VoteCollection
  import opened CollectorRuns
  import opened CollectorCertificates
  import TwoChain
  import VotingNode

  /** No honest signature on an inserted vote is forged. */
  ghost predicate VotesUnforged(c: TwoChain.Config, n: TwoChain.Network, ops: seq<Op>) {
    forall k :: 0 <= k < |ops| && ops[k].InsertOp? ==> TwoChain.Unforged(c, n, Some(ops[k].vote.signature))
  }

  /** A certificate is the aggregate of signatures of authors recorded for its digest. */
  lemma CertificateAggregatesRecorded(s: Votes, vote: Vote, v: ValidatorVerifier) returns (sigs: map<Author, Signature>)
    requires Consistent(s) && Insert(s, vote, v).1.NewQuorumCertificate?
    ensures Aggregated(v, sigs) == Ok(Insert(s, vote, v).1.qc.signedLedgerInfo.signatures)
    ensures sigs.Keys <= Recorded(Insert(s, vote, v).0, vote.Digest())
  {
    hide Signers, Aggregated, TimeoutStep;
    var t := Stored(s, vote);
    StoredKeepsConsistent(s, vote);
    sigs := t.ledgerInfos[vote.Digest()].signatures;
    var verdict := Signers(v, sigs.Keys);
    if verdict.Err? && verdict.error.TooLittleVotingPower? {
      TimeoutStepNeverCertifies(t, vote, v, verdict.error.votingPower);
    }
    CertifyStepFrame(t, vote, v);
  }

  /** Every signature bundled in a verified certificate is one of a masked voter on its ledger info. */
  lemma BundledAtom(v: ValidatorVerifier, m: Message, agg: AggregateSignature, a: Atom) returns (i: nat)
    requires WellFormed(v) && MultiSignatureVerdict(v, m, agg).Ok? && a in agg.sig.value.atoms
    ensures i < |v.infos| && v.infos[i].address in Voters(v, agg.bitmask)
    ensures a == Atom(v.infos[i].publicKey, m)
  {
    hide IsSet, PowerOf;
    var ones := IterOnes(agg.bitmask);
    var pairs := Pairs(KeysAt(v, ones), seq(|ones|, _ => m));
    assert a in multiset(pairs);
    var k :| 0 <= k < |pairs| && pairs[k] == a;
    i := ones[k];
    IterOnesMembers(agg.bitmask, i);
  }

  lemma RecordedVoteIsSigned(c: TwoChain.Config, n: TwoChain.Network, v: ValidatorVerifier, ops: seq<Op>,
                             epoch: Epoch, round: Round, i: nat, li: LedgerInfo)
    requires WellFormed(v) && AllVerified(v, ops, epoch, round) && VotesUnforged(c, n, ops)
    requires i < |v.infos| && v.infos[i].address in Recorded(StateAfter(v, ops), LedgerInfoHash(li))
    requires v.infos[i].publicKey in c.honest
    ensures Atom(v.infos[i].publicKey, LedgerInfoMessage(li)) in n.signed
  {
    hide StateAfter, TimeoutVerifies;
    var a := v.infos[i].address;
    RecordedWasDelivered(v, ops, a);
    var k :| 0 <= k < |ops| && ops[k].InsertOp? && ops[k].vote.author == a
          && ops[k].vote.Digest() == LedgerInfoHash(li);
    IndexOfAddress(v, i);
    var atom := Atom(v.infos[i].publicKey, LedgerInfoMessage(li));
    assert VoteVerifies(v, ops[k].vote);
    assert atom in ops[k].vote.signature.atoms;
  }

  /** A certificate assembled from unforged votes is unforged. */
  lemma EmittedQcUnforged(c: TwoChain.Config, n: TwoChain.Network, v: ValidatorVerifier, ops: seq<Op>,
                          epoch: Epoch, round: Round, i: nat, qc: QuorumCert)
    requires WellFormed(v) && AllVerified(v, ops, epoch, round) && VotesUnforged(c, n, ops)
    requires CertifiesAt(v, ops, i, qc)
    ensures TwoChain.UnforgedQc(c, n, qc)
  {
    hide StateAfter, Insert, MultiSignatureVerdict, Aggregated, IsSet, VoteVerifies;
    var agg, li := qc.signedLedgerInfo.signatures, qc.signedLedgerInfo.ledgerInfo;
    var vote := ops[i].vote;
    CertificateInRun(v, ops, i, qc);
    EmittedQcVerifies(v, ops, epoch, round, i, qc);
    RunConsistent(v, ops[..i]);
    var sigs := CertificateAggregatesRecorded(StateAfter(v, ops[..i]), vote, v);
    MaskRoundTrip(v, sigs);
    StateAfterInsert(v, ops, i);
    CertificateMeansRecordedQuorum(StateAfter(v, ops[..i]), vote, v);
    EmittedRound(v, ops, epoch, round, i, qc);
    if agg.sig.Some? {
      forall a | a in agg.sig.value.atoms && a.key in c.honest ensures a in n.signed {
        var j := BundledAtom(v, LedgerInfoMessage(li), agg, a);
        RecordedVoteIsSigned(c, n, v, ops[..i + 1], epoch, round, j, li);
      }
    }
  }

  lemma StateAfterInsert(v: ValidatorVerifier, ops: seq<Op>, i: nat)
    requires i < |ops| && ops[i].InsertOp?
    ensures StateAfter(v, ops[..i + 1]) == Insert(StateAfter(v, ops[..i]), ops[i].vote, v).0
  {
    hide Insert;
    assert ops[..i + 1][..i] == ops[..i];
  }

  lemma EmittedRound(v: ValidatorVerifier, ops: seq<Op>, epoch: Epoch, round: Round, i: nat, qc: QuorumCert)
    requires WellFormed(v) && AllVerified(v, ops, epoch, round) && CertifiesAt(v, ops, i, qc)
    ensures qc.Certified().epoch == epoch && qc.Certified().round == round && round != 0
  {
    hide StateAfter, Insert, TimeoutVerifies, SignatureVerifies;
    RunConsistent(v, ops[..i]);
    CertificateMeansRecordedQuorum(StateAfter(v, ops[..i]), ops[i].vote, v);
    assert VoteVerifies(v, ops[i].vote);
  }

  /** Collectors of one epoch, at any rounds, fed any verified and unforged votes of a run, in any order:
      if two of them answer with certificates that commit, the committed blocks are on one branch. */
  lemma CollectedCertificatesAgree(c: TwoChain.Config, trace: seq<TwoChain.Network>, steps: seq<TwoChain.Step>,
                                   e: Epoch, t1: nat, ops1: seq<Op>, r1: Round, i1: nat, qc1: QuorumCert,
                                   t2: nat, ops2: seq<Op>, r2: Round, i2: nat, qc2: QuorumCert)
    requires TwoChain.ValidConfig(c) && TwoChain.IsRun(c, trace, steps) && e in c.committees
    requires t1 < |trace| && AllVerified(c.committees[e], ops1, e, r1) && VotesUnforged(c, trace[t1], ops1)
    requires t2 < |trace| && AllVerified(c.committees[e], ops2, e, r2) && VotesUnforged(c, trace[t2], ops2)
    requires CertifiesAt(c.committees[e], ops1, i1, qc1) && qc1.Parent().round + 1 == qc1.Certified().round
    requires CertifiesAt(c.committees[e], ops2, i2, qc2) && qc2.Parent().round + 1 == qc2.Certified().round
    ensures TwoChain.Realizes(qc1.Parent(), qc1.CommitInfo()) && TwoChain.Realizes(qc2.Parent(), qc2.CommitInfo())
    ensures (qc1.Parent().round == 0 <==> qc2.Parent().round == 0) ==>
      TwoChain.OneBranch(c, trace[|trace| - 1], e, qc1.Parent(), qc2.Parent())
  {
    hide AllVerified, CertifiesAt, VotesUnforged, TwoChain.IsRun, QcVerifies, TwoChain.OneBranch, TwoChain.UnforgedQc,
         VotingPowerVerdict, GetVoterAddresses, FaultBound, SuperMajority, TwoChain.Realizes;
    var v := c.committees[e];
    CollectedQc(c, trace[t1], e, ops1, r1, i1, qc1);
    CollectedQc(c, trace[t2], e, ops2, r2, i2, qc2);
    TwoChain.CommitSafety(c, trace, steps, e, t1, qc1, t2, qc2);
  }

  lemma CollectedQc(c: TwoChain.Config, n: TwoChain.Network, e: Epoch, ops: seq<Op>, round: Round, i: nat,
                    qc: QuorumCert)
    requires TwoChain.ValidConfig(c) && e in c.committees
    requires AllVerified(c.committees[e], ops, e, round) && VotesUnforged(c, n, ops)
    requires CertifiesAt(c.committees[e], ops, i, qc)
    ensures QcVerifies(c.committees[e], qc) && TwoChain.UnforgedQc(c, n, qc)
    ensures qc.Certified().epoch == e && qc.Certified().round == round && round != 0
  {
    hide AllVerified, CertifiesAt, VotesUnforged, QcVerifies, TwoChain.UnforgedQc, VotingPowerVerdict,
         GetVoterAddresses, FaultBound, SuperMajority;
    EmittedQcVerifies(c.committees[e], ops, e, round, i, qc);
    EmittedQcUnforged(c, n, c.committees[e], ops, e, round, i, qc);
    EmittedRound(c.committees[e], ops, e, round, i, qc);
  }

  /** The state in which only what was released as a vote or timeout counts as signed. */
  ghost function VotesOnly(n: TwoChain.Network): TwoChain.Network {
    n.(signed := n.voted)
  }

  /** Two collectors of one round certify the same block, and the same ledger info unless a signature that
      was released as a commit vote is passed off as a vote. */
  lemma RoundCollectorsAgree(c: TwoChain.Config, trace: seq<TwoChain.Network>, steps: seq<TwoChain.Step>, e: Epoch,
                             round: Round,
                             t: nat, ops1: seq<Op>, i1: nat, qc1: QuorumCert, ops2: seq<Op>, i2: nat, qc2: QuorumCert)
    requires TwoChain.ValidConfig(c) && TwoChain.IsRun(c, trace, steps) && e in c.committees && t < |trace|
    requires AllVerified(c.committees[e], ops1, e, round) && VotesUnforged(c, trace[t], ops1)
    requires AllVerified(c.committees[e], ops2, e, round) && VotesUnforged(c, trace[t], ops2)
    requires CertifiesAt(c.committees[e], ops1, i1, qc1) && CertifiesAt(c.committees[e], ops2, i2, qc2)
    ensures qc1.voteData == qc2.voteData
    ensures VotesUnforged(c, VotesOnly(trace[t]), ops1) && VotesUnforged(c, VotesOnly(trace[t]), ops2) ==>
      qc1.signedLedgerInfo.ledgerInfo == qc2.signedLedgerInfo.ledgerInfo
  {
    hide AllVerified, CertifiesAt, VotesUnforged, TwoChain.IsRun, QcVerifies, TwoChain.UnforgedQc, TwoChain.Invariant,
         TwoChain.ValidConfig, TwoChain.Certified, TwoChain.CertifiedBy;
    var n := trace[t];
    TwoChain.RunInvariant(c, trace, steps, t);
    CollectedQc(c, n, e, ops1, round, i1, qc1);
    CollectedQc(c, n, e, ops2, round, i2, qc2);
    TwoChain.QcCertifies(c, n, e, qc1);
    TwoChain.QcCertifies(c, n, e, qc2);
    TwoChain.OneBlockPerRound(c, n, e, qc1.voteData, qc2.voteData);
    if VotesUnforged(c, VotesOnly(n), ops1) && VotesUnforged(c, VotesOnly(n), ops2) {
      CollectedQc(c, VotesOnly(n), e, ops1, round, i1, qc1);
      CollectedQc(c, VotesOnly(n), e, ops2, round, i2, qc2);
      TwoChain.QcSigned(c, VotesOnly(n), e, qc1);
      TwoChain.QcSigned(c, VotesOnly(n), e, qc2);
      var v := c.committees[e];
      TwoChain.OneLedgerInfoPerRound(
        c, n, e, qc1.voteData, Voters(v, qc1.signedLedgerInfo.signatures.bitmask), qc1.signedLedgerInfo.ledgerInfo,
        qc2.voteData, Voters(v, qc2.signedLedgerInfo.signatures.bitmask), qc2.signedLedgerInfo.ledgerInfo);
    }
  }

  /** The collector calls a vote an equivocation exactly when another digest is on record. */
  lemma EquivocationMeansOtherDigest(s: Votes, vote: Vote, v: ValidatorVerifier)
    ensures Insert(s, vote, v).1.EquivocateVote?
        <==> vote.author in s.byAuthor && s.byAuthor[vote.author].1 != vote.Digest()
  {
    hide Signers, Aggregated;
  }

  /** Whatever an honest node goes through, no collector that hears only what the node sent ever accuses
      it of equivocating. */
  lemma HonestNodeNeverEquivocates(start: VotingNode.Node, events: seq<VotingNode.Event>, author: Author,
                                   v: ValidatorVerifier, ops: seq<Op>, epoch: Epoch, round: Round, i: nat)
    requires VotingNode.FreshNode(start)
    requires forall k :: 0 <= k < |ops| && ops[k].InsertOp? && ops[k].vote.author == author ==>
      && ops[k].vote in VotingNode.HistoryAfter(start, events).sent
      && ops[k].vote.Epoch() == epoch && ops[k].vote.Round() == round
    requires i < |ops| && ops[i].InsertOp? && ops[i].vote.author == author
    ensures !ResultAt(v, ops, i).EquivocateVote?
  {
    hide StateAfter, Insert, VotingNode.HistoryAfter;
    var s := StateAfter(v, ops[..i]);
    EquivocationMeansOtherDigest(s, ops[i].vote, v);
    if author in s.byAuthor {
      RecordedWasDelivered(v, ops[..i], author);
      var k :| 0 <= k < i && ops[..i][k].InsertOp? && ops[..i][k].vote.author == author
            && ops[..i][k].vote.Digest() == s.byAuthor[author].1;
      assert ops[k] == ops[..i][k];
      VotingNode.OneBallotPerRound(start, events, ops[k].vote, ops[i].vote);
    }
  }

  function SignedAtom(c: TwoChain.Config, e: Epoch, vote: Vote): Atom
    requires e in c.committees && GetPublicKey(c.committees[e], vote.author).Some?
  {
    Atom(GetPublicKey(c.committees[e], vote.author).value, LedgerInfoMessage(vote.ledgerInfo))
  }

  predicate HonestAuthor(c: TwoChain.Config, e: Epoch, a: Author) {
    && e in c.committees && GetPublicKey(c.committees[e], a).Some?
    && GetPublicKey(c.committees[e], a).value in c.honest
  }

  /** The vote carries a signature that its author released only as a commit vote. */
  ghost predicate IsCommitVote(c: TwoChain.Config, e: Epoch, n: TwoChain.Network, vote: Vote) {
    && e in c.committees && GetPublicKey(c.committees[e], vote.author).Some?
    && SignedAtom(c, e, vote) in n.signed && SignedAtom(c, e, vote) !in n.voted
  }

  /** Insert `f` is the first of its author. */
  predicate FirstOfAuthor(ops: seq<Op>, f: nat) {
    && f < |ops| && ops[f].InsertOp?
    && forall k :: 0 <= k < f && ops[k].InsertOp? ==> ops[k].vote.author != ops[f].vote.author
  }

  /** The first vote of an author is recorded, and is no ground for an accusation. */
  lemma FirstIsRecorded(v: ValidatorVerifier, ops: seq<Op>, f: nat)
    requires FirstOfAuthor(ops, f)
    ensures var s := StateAfter(v, ops[..f + 1]);
      ops[f].vote.author in s.byAuthor && s.byAuthor[ops[f].vote.author].1 == ops[f].vote.Digest()
    ensures !ResultAt(v, ops, f).EquivocateVote?
  {
    hide StateAfter, CertifyStep;
    EquivocationMeansOtherDigest(StateAfter(v, ops[..f]), ops[f].vote, v);
    var s, vote := StateAfter(v, ops[..f]), ops[f].vote;
    StateAfterInsert(v, ops, f);
    if vote.author in s.byAuthor {
      RecordedWasDelivered(v, ops[..f], vote.author);
    } else {
      CertifyStepFrame(Stored(s, vote), vote, v);
    }
  }

  /** Through any inserts and drains: an author is accused exactly when its vote differs in digest from the
      first vote of its that was inserted. */
  lemma AccusedIff(v: ValidatorVerifier, ops: seq<Op>, f: nat, i: nat)
    requires FirstOfAuthor(ops, f) && f < i < |ops| && ops[i].InsertOp? && ops[i].vote.author == ops[f].vote.author
    ensures ResultAt(v, ops, i).EquivocateVote? <==> ops[i].vote.Digest() != ops[f].vote.Digest()
  {
    hide StateAfter, Insert;
    FirstIsRecorded(v, ops, f);
    assert ops[..i][..f + 1] == ops[..f + 1];
    RecordedPersists(v, ops[..i], f + 1, ops[f].vote.author);
    EquivocationMeansOtherDigest(StateAfter(v, ops[..i]), ops[i].vote, v);
  }

  /** In a run, an honest validator is accused exactly when its vote and the first one inserted carry different
      ledger infos; then one of them carries a signature that was released as a commit vote. */
  lemma HonestAccusedIff(c: TwoChain.Config, trace: seq<TwoChain.Network>, steps: seq<TwoChain.Step>, e: Epoch,
                         t: nat, ops: seq<Op>, round: Round, f: nat, i: nat)
    requires TwoChain.ValidConfig(c) && TwoChain.IsRun(c, trace, steps) && e in c.committees && t < |trace|
    requires AllVerified(c.committees[e], ops, e, round) && VotesUnforged(c, trace[t], ops)
    requires FirstOfAuthor(ops, f) && f < i < |ops| && ops[i].InsertOp? && ops[i].vote.author == ops[f].vote.author
    requires HonestAuthor(c, e, ops[f].vote.author)
    ensures ResultAt(c.committees[e], ops, i).EquivocateVote? <==> ops[i].vote.ledgerInfo != ops[f].vote.ledgerInfo
    ensures ops[i].vote.ledgerInfo != ops[f].vote.ledgerInfo ==>
      IsCommitVote(c, e, trace[t], ops[f].vote) || IsCommitVote(c, e, trace[t], ops[i].vote)
  {
    hide StateAfter, ResultAt, TwoChain.IsRun, TwoChain.ValidConfig, TwoChain.Invariant, TwoChain.Unforged,
         VoteVerifies;
    var n := trace[t];
    TwoChain.RunInvariant(c, trace, steps, t);
    AccusedIff(c.committees[e], ops, f, i);
    SignatureIsReleased(c, e, n, ops[f].vote);
    SignatureIsReleased(c, e, n, ops[i].vote);
    if SignedAtom(c, e, ops[f].vote) in n.voted && SignedAtom(c, e, ops[i].vote) in n.voted {
      VotesAgree(c, e, n, ops[f].vote, ops[i].vote);
    }
  }

  lemma SignatureIsReleased(c: TwoChain.Config, e: Epoch, n: TwoChain.Network, vote: Vote)
    requires e in c.committees && VoteVerifies(c.committees[e], vote) && TwoChain.Unforged(c, n, Some(vote.signature))
    ensures HonestAuthor(c, e, vote.author) ==> SignedAtom(c, e, vote) in n.signed
  {
    hide TimeoutVerifies;
    if HonestAuthor(c, e, vote.author) {
      assert SignedAtom(c, e, vote) in vote.signature.atoms;
    }
  }

  /** What a validator released as votes of one round agrees. */
  lemma VotesAgree(c: TwoChain.Config, e: Epoch, n: TwoChain.Network, vote: Vote, other: Vote)
    requires TwoChain.Invariant(c, n) && HonestAuthor(c, e, vote.author) && vote.author == other.author
    requires VoteVerifies(c.committees[e], vote) && VoteVerifies(c.committees[e], other)
    requires vote.Epoch() == other.Epoch() && vote.Round() == other.Round()
    requires SignedAtom(c, e, vote) in n.voted && SignedAtom(c, e, other) in n.voted
    ensures vote.Digest() == other.Digest()
  {
    hide TimeoutVerifies, SignatureVerifies, TwoChain.NodeInvariant, TwoChain.AtomInvariant,
         TwoChain.CommitVoteInvariant;
    var a, b := SignedAtom(c, e, vote), SignedAtom(c, e, other);
    assert TwoChain.Compatible(a.message, b.message);
  }
}
