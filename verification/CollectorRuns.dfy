/** What a vote collector guarantees over whole runs of inserts and drains. */
module CollectorRuns {
  import opened Types
  import opened VotingPower
  import opened MultiSignatures
  import opened Certificates
  import opened VoteCollection

  datatype Op = InsertOp(vote: Vote) | DrainOp

  function StepState(s: Votes, op: Op, v: ValidatorVerifier): Votes {
    match op
    case InsertOp(vote) => Insert(s, vote, v).0
    case DrainOp => Drained(s)
  }

  /** State of a fresh collector after `ops`. */
  function StateAfter(v: ValidatorVerifier, ops: seq<Op>): Votes {
    if ops == [] then NO_VOTES
    else StepState(StateAfter(v, ops[..|ops| - 1]), ops[|ops| - 1], v)
  }

  /** Answer given to the `i`-th operation. */
  function ResultAt(v: ValidatorVerifier, ops: seq<Op>, i: nat): VoteReceptionResult
    requires i < |ops| && ops[i].InsertOp?
  {
    Insert(StateAfter(v, ops[..i]), ops[i].vote, v).1
  }

  ghost predicate CertifiesAt(v: ValidatorVerifier, ops: seq<Op>, i: nat, qc: QuorumCert) {
    i < |ops| && ops[i].InsertOp? && ResultAt(v, ops, i) == NewQuorumCertificate(qc)
  }

  function Recorded(s: Votes, d: HashValue): set<Author> {
    set a | a in s.byAuthor && s.byAuthor[a].1 == d
  }

  function SignersOf(s: Votes, d: HashValue): set<Author> {
    if d in s.ledgerInfos then s.ledgerInfos[d].signatures.Keys else {}
  }

  // One digest per author

  predicate AuthorsConsistent(s: Votes) {
    forall a :: a in s.byAuthor ==> s.byAuthor[a].0.author == a && s.byAuthor[a].1 == s.byAuthor[a].0.Digest()
  }

  predicate EntriesConsistent(s: Votes) {
    forall d :: d in s.ledgerInfos ==>
      && LedgerInfoHash(s.ledgerInfos[d].ledgerInfo) == d
      && s.ledgerInfos[d].signatures.Keys <= Recorded(s, d)
  }

  predicate TimeoutsConsistent(s: Votes) {
    s.partialTc.Some? ==> forall a :: a in s.partialTc.value.signatures ==>
      a in s.byAuthor && s.byAuthor[a].0.IsTimeout()
  }

  predicate Consistent(s: Votes) {
    AuthorsConsistent(s) && EntriesConsistent(s) && TimeoutsConsistent(s)
  }

  lemma StoredKeepsConsistent(s: Votes, vote: Vote)
    requires Consistent(s)
    requires vote.author in s.byAuthor ==> s.byAuthor[vote.author].1 == vote.Digest() && IsNewTimeout(s, vote)
    ensures Consistent(Stored(s, vote))
  {
    StoredKeepsEntries(s, vote);
    hide EntriesConsistent;
  }

  lemma StoredKeepsEntries(s: Votes, vote: Vote)
    requires EntriesConsistent(s) && (vote.author in s.byAuthor ==> s.byAuthor[vote.author].1 == vote.Digest())
    ensures EntriesConsistent(Stored(s, vote))
  {
    var r := Stored(s, vote);
    forall d | d in r.ledgerInfos
      ensures LedgerInfoHash(r.ledgerInfos[d].ledgerInfo) == d && r.ledgerInfos[d].signatures.Keys <= Recorded(r, d)
    {
      forall a | a in r.ledgerInfos[d].signatures ensures a in Recorded(r, d) {
        if d in s.ledgerInfos && a in s.ledgerInfos[d].signatures {
          assert a in Recorded(s, d);
        }
      }
    }
  }

  lemma TimeoutStepFrame(s: Votes, vote: Vote, v: ValidatorVerifier, power: nat)
    ensures var r := TimeoutStep(s, vote, v, power).0;
      && r.ledgerInfos == s.ledgerInfos && r.byAuthor == s.byAuthor && (s.echoed ==> r.echoed)
      && (r.partialTc == s.partialTc
          || (vote.timeout.Some? && r.partialTc.Some?
              && r.partialTc.value
                 == (if s.partialTc.Some? then s.partialTc.value else PartialTimeoutCert(vote.timeout.value.0, map[]))
                    .Add(vote.author, vote.timeout.value.0, vote.timeout.value.1)))
  {
    hide Signers, Aggregated;
  }

  lemma CertifyStepFrame(s: Votes, vote: Vote, v: ValidatorVerifier)
    requires vote.Digest() in s.ledgerInfos
    ensures var r := CertifyStep(s, vote, v).0;
      && r.ledgerInfos == s.ledgerInfos && r.byAuthor == s.byAuthor && (s.echoed ==> r.echoed)
      && (r.partialTc == s.partialTc
          || (vote.timeout.Some? && r.partialTc.Some?
              && r.partialTc.value
                 == (if s.partialTc.Some? then s.partialTc.value else PartialTimeoutCert(vote.timeout.value.0, map[]))
                    .Add(vote.author, vote.timeout.value.0, vote.timeout.value.1)))
  {
    hide Signers, Aggregated, TimeoutStep;
    var verdict := Signers(v, s.ledgerInfos[vote.Digest()].signatures.Keys);
    if verdict.Err? && verdict.error.TooLittleVotingPower? {
      TimeoutStepFrame(s, vote, v, verdict.error.votingPower);
    }
  }

  lemma CertifyStepKeeps(s: Votes, vote: Vote, v: ValidatorVerifier)
    requires Consistent(s) && vote.Digest() in s.ledgerInfos
    requires vote.author in s.byAuthor && s.byAuthor[vote.author].0 == vote
    ensures Consistent(CertifyStep(s, vote, v).0)
  {
    hide CertifyStep;
    CertifyStepFrame(s, vote, v);
    var r := CertifyStep(s, vote, v).0;
    assert forall d :: Recorded(r, d) == Recorded(s, d);
  }

  /** Every operation keeps the collector consistent and every author's recorded digest. */
  lemma StepKeeps(s: Votes, op: Op, v: ValidatorVerifier)
    requires Consistent(s)
    ensures Consistent(StepState(s, op, v))
    ensures forall a :: a in s.byAuthor ==>
      a in StepState(s, op, v).byAuthor && StepState(s, op, v).byAuthor[a].1 == s.byAuthor[a].1
    ensures s.echoed ==> StepState(s, op, v).echoed
  {
    hide CertifyStep, Consistent;
    if op.DrainOp? {
      DrainKeeps(s);
    } else {
      var vote := op.vote;
      if vote.author in s.byAuthor && (s.byAuthor[vote.author].1 != vote.Digest() || !IsNewTimeout(s, vote)) {
      } else {
        StoredKeepsConsistent(s, vote);
        CertifyStepFrame(Stored(s, vote), vote, v);
        CertifyStepKeeps(Stored(s, vote), vote, v);
      }
    }
  }

  lemma DrainKeeps(s: Votes)
    requires Consistent(s)
    ensures Consistent(Drained(s))
  {
  }

  lemma {:induction false} RunConsistent(v: ValidatorVerifier, ops: seq<Op>)
    ensures Consistent(StateAfter(v, ops))
  {
    if ops != [] {
      RunConsistent(v, ops[..|ops| - 1]);
      StepKeeps(StateAfter(v, ops[..|ops| - 1]), ops[|ops| - 1], v);
    }
  }

  /** What a prefix of a run recorded stays recorded. */
  lemma {:induction false} RecordedPersists(v: ValidatorVerifier, ops: seq<Op>, i: nat, a: Author)
    requires i <= |ops| && a in StateAfter(v, ops[..i]).byAuthor
    ensures a in StateAfter(v, ops).byAuthor
    ensures StateAfter(v, ops).byAuthor[a].1 == StateAfter(v, ops[..i]).byAuthor[a].1
    decreases |ops|
  {
    hide StepState, Consistent;
    if i == |ops| {
      assert ops[..i] == ops;
    } else {
      var n := |ops| - 1;
      assert ops[..n][..i] == ops[..i];
      RecordedPersists(v, ops[..n], i, a);
      RunConsistent(v, ops[..n]);
      StepKeeps(StateAfter(v, ops[..n]), ops[n], v);
    }
  }

  /** Signatures under different digests come from different authors, and together weigh at most the
      total. */
  lemma SignerSetsDisjoint(v: ValidatorVerifier, ops: seq<Op>, d: HashValue, e: HashValue)
    requires d != e
    ensures SignersOf(StateAfter(v, ops), d) !! SignersOf(StateAfter(v, ops), e)
    ensures PowerOf(v.infos, SignersOf(StateAfter(v, ops), d)) + PowerOf(v.infos, SignersOf(StateAfter(v, ops), e))
         <= Total(v)
  {
    var s := StateAfter(v, ops);
    RunConsistent(v, ops);
    assert SignersOf(s, d) <= Recorded(s, d) && SignersOf(s, e) <= Recorded(s, e);
    assert SignersOf(s, d) * SignersOf(s, e) == {};
    PowerOfNobody(v.infos, {});
    PowerUnion(v.infos, SignersOf(s, d), SignersOf(s, e));
    PowerAtMostTotal(v.infos, SignersOf(s, d) + SignersOf(s, e));
  }

  // Certificates

  lemma SignersVerdict(v: ValidatorVerifier, authors: set<Author>)
    requires WellFormed(v)
    ensures Signers(v, authors)
         == if authors <= Addresses(v.infos) then PowerVerdict(v, PowerOf(v.infos, authors)) else Err(UnknownAuthor)
  {
    VerdictOfDistinctAuthors(v, SortedKeys(authors));
  }

  /** A certificate is for the inserted vote's ledger info, and the authors recorded for it hold a
      quorum. */
  lemma CertificateMeansRecordedQuorum(s: Votes, vote: Vote, v: ValidatorVerifier)
    requires WellFormed(v) && Consistent(s) && Insert(s, vote, v).1.NewQuorumCertificate?
    ensures var (r, answer) := Insert(s, vote, v);
      && answer.qc.signedLedgerInfo.ledgerInfo == vote.ledgerInfo && answer.qc.voteData == vote.voteData
      && PowerOf(v.infos, Recorded(r, vote.Digest())) >= v.quorum
  {
    hide Signers, Aggregated, TimeoutStep;
    var t := Stored(s, vote);
    StoredKeepsConsistent(s, vote);
    var keys := t.ledgerInfos[vote.Digest()].signatures.Keys;
    SignersVerdict(v, keys);
    var verdict := Signers(v, keys);
    if verdict.Err? && verdict.error.TooLittleVotingPower? {
      TimeoutStepNeverCertifies(t, vote, v, verdict.error.votingPower);
    }
    CertifyStepFrame(t, vote, v);
    PowerSubset(v.infos, keys, Recorded(t, vote.Digest()));
  }

  lemma TimeoutStepNeverCertifies(s: Votes, vote: Vote, v: ValidatorVerifier, power: nat)
    ensures !TimeoutStep(s, vote, v, power).1.NewQuorumCertificate?
  {
    hide Signers, Aggregated;
  }

  lemma CertificateInRun(v: ValidatorVerifier, ops: seq<Op>, i: nat, qc: QuorumCert)
    requires WellFormed(v) && CertifiesAt(v, ops, i, qc)
    ensures qc.signedLedgerInfo.ledgerInfo == ops[i].vote.ledgerInfo
    ensures PowerOf(v.infos, Recorded(StateAfter(v, ops), LedgerInfoHash(qc.signedLedgerInfo.ledgerInfo))) >= v.quorum
  {
    hide Insert;
    var s := StateAfter(v, ops[..i]);
    var d := ops[i].vote.Digest();
    RunConsistent(v, ops[..i]);
    CertificateMeansRecordedQuorum(s, ops[i].vote, v);
    assert ops[..i + 1][..i] == ops[..i];
    var r := StateAfter(v, ops[..i + 1]);
    forall a | a in Recorded(r, d) ensures a in Recorded(StateAfter(v, ops), d) {
      RecordedPersists(v, ops, i + 1, a);
    }
    PowerSubset(v.infos, Recorded(r, d), Recorded(StateAfter(v, ops), d));
  }

  /** One collector certifies at most one ledger info, whatever it is fed and however often it is
      drained. */
  lemma OneCertifiedDigest(v: ValidatorVerifier, ops: seq<Op>, i: nat, j: nat, qc: QuorumCert, other: QuorumCert)
    requires WellFormed(v) && 2 * v.quorum > Total(v)
    requires CertifiesAt(v, ops, i, qc) && CertifiesAt(v, ops, j, other)
    ensures qc.signedLedgerInfo.ledgerInfo == other.signedLedgerInfo.ledgerInfo
  {
    hide CertifiesAt;
    CertificateInRun(v, ops, i, qc);
    CertificateInRun(v, ops, j, other);
    var s := StateAfter(v, ops);
    var d, e := LedgerInfoHash(qc.signedLedgerInfo.ledgerInfo), LedgerInfoHash(other.signedLedgerInfo.ledgerInfo);
    assert d != e ==> Recorded(s, d) * Recorded(s, e) == {};
    PowerUnion(v.infos, Recorded(s, d), Recorded(s, e));
    PowerAtMostTotal(v.infos, Recorded(s, d) + Recorded(s, e));
    PowerOfNobody(v.infos, {});
  }

  // Two collectors

  ghost predicate Delivers(ops: seq<Op>, a: Author, d: HashValue) {
    exists k :: 0 <= k < |ops| && ops[k].InsertOp? && ops[k].vote.author == a && ops[k].vote.Digest() == d
  }

  lemma {:induction false} RecordedWasDelivered(v: ValidatorVerifier, ops: seq<Op>, a: Author)
    requires a in StateAfter(v, ops).byAuthor
    ensures Delivers(ops, a, StateAfter(v, ops).byAuthor[a].1)
  {
    hide CertifyStep;
    if ops != [] {
      var n := |ops| - 1;
      var s := StateAfter(v, ops[..n]);
      RunConsistent(v, ops[..n]);
      StepKeeps(s, ops[n], v);
      if a in s.byAuthor {
        RecordedWasDelivered(v, ops[..n], a);
        var k :| 0 <= k < n && ops[k].InsertOp? && ops[k].vote.author == a && ops[k].vote.Digest() == s.byAuthor[a].1;
      } else {
        var vote := ops[n].vote;
        CertifyStepFrame(Stored(s, vote), vote, v);
        assert vote.author == a;
      }
    }
  }

  /** Across both runs, no honest validator's votes carry two digests. */
  ghost predicate HonestVoteOnce(v: ValidatorVerifier, honest: set<PublicKey>, ops: seq<Op>, others: seq<Op>) {
    forall i, d, e ::
      (0 <= i < |v.infos| && v.infos[i].publicKey in honest
       && Delivers(ops, v.infos[i].address, d) && Delivers(others, v.infos[i].address, e))
      ==> d == e
  }

  /** Agreement within a round: two collectors fed different, reordered or repeated votes never
      certify different ledger infos. */
  lemma CollectorsAgree(v: ValidatorVerifier, honest: set<PublicKey>, ops: seq<Op>, i: nat, qc: QuorumCert,
                        others: seq<Op>, j: nat, other: QuorumCert)
    requires WellFormed(v) && SuperMajority(v) && FaultBound(v, honest)
    requires HonestVoteOnce(v, honest, ops, others)
    requires CertifiesAt(v, ops, i, qc) && CertifiesAt(v, others, j, other)
    ensures qc.signedLedgerInfo.ledgerInfo == other.signedLedgerInfo.ledgerInfo
  {
    hide CertifiesAt, FaultBound, SuperMajority, PowerOf, WellFormed, StateAfter;
    CertificateInRun(v, ops, i, qc);
    CertificateInRun(v, others, j, other);
    var d, e := LedgerInfoHash(qc.signedLedgerInfo.ledgerInfo), LedgerInfoHash(other.signedLedgerInfo.ledgerInfo);
    var k := HonestInBoth(v, honest, Recorded(StateAfter(v, ops), d), Recorded(StateAfter(v, others), e));
    RecordedWasDelivered(v, ops, v.infos[k].address);
    RecordedWasDelivered(v, others, v.infos[k].address);
  }
}
