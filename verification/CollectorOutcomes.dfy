/** When certificates and echoes are produced, and that what is produced verifies. */
module CollectorOutcomes {
  import opened Types
  import opened VotingPower
  import opened MultiSignatures
  import opened Certificates
  import opened VoteCollection
  import opened CollectorRuns

  // Delivery-order independence

  predicate OnlyKnownInserts(v: ValidatorVerifier, ops: seq<Op>) {
    forall k :: 0 <= k < |ops| ==> ops[k].InsertOp? && ops[k].vote.author in Addresses(v.infos)
  }

  predicate OneDigestPerAuthor(ops: seq<Op>) {
    forall i, j ::
      (0 <= i < |ops| && 0 <= j < |ops| && ops[i].InsertOp? && ops[j].InsertOp?
       && ops[i].vote.author == ops[j].vote.author)
      ==> ops[i].vote.Digest() == ops[j].vote.Digest()
  }

  /** Distinct authors whose vote for `d` was delivered. */
  function Delivered(ops: seq<Op>, d: HashValue): set<Author> {
    set k | 0 <= k < |ops| && ops[k].InsertOp? && ops[k].vote.Digest() == d :: ops[k].vote.author
  }

  lemma DeliveredStep(ops: seq<Op>, d: HashValue)
    requires ops != [] && ops[|ops| - 1].InsertOp?
    ensures var n := |ops| - 1;
      Delivered(ops, d) == Delivered(ops[..n], d) + if ops[n].vote.Digest() == d then {ops[n].vote.author} else {}
  {
    var n := |ops| - 1;
    forall a | a in Delivered(ops, d)
      ensures a in Delivered(ops[..n], d) || (ops[n].vote.Digest() == d && a == ops[n].vote.author)
    {
      var k :| 0 <= k < |ops| && ops[k].InsertOp? && ops[k].vote.Digest() == d && ops[k].vote.author == a;
      assert k < n ==> ops[..n][k] == ops[k];
    }
    forall a | a in Delivered(ops[..n], d) ensures a in Delivered(ops, d) {
      var k :| 0 <= k < n && ops[..n][k].InsertOp? && ops[..n][k].vote.Digest() == d && ops[..n][k].vote.author == a;
      assert ops[k] == ops[..n][k];
    }
  }

  lemma DeliveredMonotone(ops: seq<Op>, i: nat, d: HashValue)
    requires i <= |ops|
    ensures Delivered(ops[..i], d) <= Delivered(ops, d)
  {
    forall a | a in Delivered(ops[..i], d) ensures a in Delivered(ops, d) {
      var k :| 0 <= k < i && ops[..i][k].InsertOp? && ops[..i][k].vote.Digest() == d && ops[..i][k].vote.author == a;
      assert ops[k] == ops[..i][k];
    }
  }

  /** Without drains or equivocation the collector holds exactly the delivered votes. */
  lemma {:induction false} HoldsWhatWasDelivered(v: ValidatorVerifier, ops: seq<Op>, d: HashValue)
    requires OnlyKnownInserts(v, ops) && OneDigestPerAuthor(ops)
    ensures Recorded(StateAfter(v, ops), d) == Delivered(ops, d) == SignersOf(StateAfter(v, ops), d)
  {
    hide CertifyStep;
    if ops != [] {
      var n := |ops| - 1;
      var s, vote := StateAfter(v, ops[..n]), ops[n].vote;
      HoldsWhatWasDelivered(v, ops[..n], d);
      DeliveredStep(ops, d);
      if vote.author in s.byAuthor {
        RecordedIsOnlyDigest(v, ops);
      }
      if !(vote.author in s.byAuthor && !IsNewTimeout(s, vote)) {
        CertifyStepFrame(Stored(s, vote), vote, v);
      }
    }
  }

  lemma RecordedIsOnlyDigest(v: ValidatorVerifier, ops: seq<Op>)
    requires ops != [] && OnlyKnownInserts(v, ops) && OneDigestPerAuthor(ops)
    requires ops[|ops| - 1].vote.author in StateAfter(v, ops[..|ops| - 1]).byAuthor
    ensures StateAfter(v, ops[..|ops| - 1]).byAuthor[ops[|ops| - 1].vote.author].1 == ops[|ops| - 1].vote.Digest()
  {
    hide StateAfter;
    var n := |ops| - 1;
    var s := StateAfter(v, ops[..n]);
    RecordedWasDelivered(v, ops[..n], ops[n].vote.author);
    var k :| 0 <= k < n && ops[..n][k].InsertOp? && ops[..n][k].vote.author == ops[n].vote.author
          && ops[..n][k].vote.Digest() == s.byAuthor[ops[n].vote.author].1;
    assert ops[k] == ops[..n][k];
  }

  /** The answer to a vote that is stored, in terms of the power delivered for its digest. */
  lemma AnswerToStoredVote(s: Votes, vote: Vote, v: ValidatorVerifier)
    requires WellFormed(v) && Consistent(s)
    requires vote.author in s.byAuthor ==> s.byAuthor[vote.author].1 == vote.Digest() && IsNewTimeout(s, vote)
    requires SignersOf(Stored(s, vote), vote.Digest()) <= Addresses(v.infos)
    ensures var power := PowerOf(v.infos, SignersOf(Stored(s, vote), vote.Digest()));
      var answer := Insert(s, vote, v).1;
      && (answer.NewQuorumCertificate? <==> power >= v.quorum)
      && (answer.VoteAdded? ==> answer.power == power && power < v.quorum)
  {
    hide CertifyStep, PowerOf, Consistent;
    var t := Stored(s, vote);
    assert vote.author in t.ledgerInfos[vote.Digest()].signatures;
    CertifyAnswer(t, vote, v);
  }

  lemma CertifyAnswer(s: Votes, vote: Vote, v: ValidatorVerifier)
    requires WellFormed(v) && vote.Digest() in s.ledgerInfos
    requires vote.author in s.ledgerInfos[vote.Digest()].signatures
    requires s.ledgerInfos[vote.Digest()].signatures.Keys <= Addresses(v.infos)
    ensures var power := PowerOf(v.infos, s.ledgerInfos[vote.Digest()].signatures.Keys);
      var answer := CertifyStep(s, vote, v).1;
      && (answer.NewQuorumCertificate? <==> power >= v.quorum)
      && (answer.VoteAdded? ==> answer.power == power && power < v.quorum)
  {
    hide TimeoutStep, Aggregated, PowerOf, SortedKeys;
    var entry := s.ledgerInfos[vote.Digest()];
    SignersVerdict(v, entry.signatures.Keys);
    KnownKeysAggregate(v, entry.signatures);
    var verdict := Signers(v, entry.signatures.Keys);
    hide Signers;
    if verdict.Err? {
      TimeoutStepNeverCertifies(s, vote, v, verdict.error.votingPower);
      TimeoutStepReports(s, vote, v, verdict.error.votingPower);
    }
  }

  lemma TimeoutStepReports(s: Votes, vote: Vote, v: ValidatorVerifier, power: nat)
    ensures TimeoutStep(s, vote, v, power).1.VoteAdded? ==> TimeoutStep(s, vote, v, power).1.power == power
  {
    hide Signers, Aggregated;
  }

  lemma AnswerInRun(v: ValidatorVerifier, ops: seq<Op>, i: nat)
    requires WellFormed(v) && OnlyKnownInserts(v, ops) && OneDigestPerAuthor(ops) && i < |ops|
    ensures var power := PowerOf(v.infos, Delivered(ops[..i + 1], ops[i].vote.Digest()));
      var answer := ResultAt(v, ops, i);
      && (answer.NewQuorumCertificate? ==> power >= v.quorum)
      && (answer.VoteAdded? ==> answer.power == power && power < v.quorum)
      && (power >= v.quorum ==>
            answer.NewQuorumCertificate? || PowerOf(v.infos, Delivered(ops[..i], ops[i].vote.Digest())) >= v.quorum)
  {
    hide CertifyStep, PowerOf;
    var s, vote := StateAfter(v, ops[..i]), ops[i].vote;
    var d := vote.Digest();
    assert ops[..i + 1][..i] == ops[..i];
    RunConsistent(v, ops[..i]);
    HoldsWhatWasDelivered(v, ops[..i], d);
    DeliveredStep(ops[..i + 1], d);
    if vote.author in s.byAuthor {
      RecordedIsOnlyDigest(v, ops[..i + 1]);
      assert vote.author in Recorded(s, d);
      assert Delivered(ops[..i + 1], d) == Delivered(ops[..i], d);
    }
    if !(vote.author in s.byAuthor && !IsNewTimeout(s, vote)) {
      assert SignersOf(Stored(s, vote), d) == Delivered(ops[..i + 1], d);
      assert Delivered(ops[..i + 1], d) <= Addresses(v.infos);
      AnswerToStoredVote(s, vote, v);
    }
  }

  ghost predicate Certified(v: ValidatorVerifier, ops: seq<Op>, d: HashValue) {
    exists i: nat, qc :: CertifiesAt(v, ops, i, qc) && LedgerInfoHash(qc.signedLedgerInfo.ledgerInfo) == d
  }

  lemma CertifiedMeansQuorumDelivered(v: ValidatorVerifier, ops: seq<Op>, d: HashValue)
    requires WellFormed(v) && OnlyKnownInserts(v, ops) && OneDigestPerAuthor(ops) && Certified(v, ops, d)
    ensures PowerOf(v.infos, Delivered(ops, d)) >= v.quorum
  {
    hide StateAfter, PowerOf, Insert;
    var i: nat, qc :| CertifiesAt(v, ops, i, qc) && LedgerInfoHash(qc.signedLedgerInfo.ledgerInfo) == d;
    CertificateInRun(v, ops, i, qc);
    AnswerInRun(v, ops, i);
    DeliveredMonotone(ops, i + 1, d);
    PowerSubset(v.infos, Delivered(ops[..i + 1], d), Delivered(ops, d));
  }

  lemma {:induction false} QuorumDeliveredMeansCertified(v: ValidatorVerifier, ops: seq<Op>, d: HashValue)
    requires WellFormed(v) && v.quorum > 0 && OnlyKnownInserts(v, ops) && OneDigestPerAuthor(ops)
    requires PowerOf(v.infos, Delivered(ops, d)) >= v.quorum
    ensures Certified(v, ops, d)
  {
    hide StateAfter, PowerOf, Insert, WellFormed;
    PowerOfNobody(v.infos, {});
    assert ops == [] ==> Delivered(ops, d) == {};
    var n := |ops| - 1;
    DeliveredStep(ops, d);
    assert ops[..n + 1] == ops;
    if PowerOf(v.infos, Delivered(ops[..n], d)) >= v.quorum {
      QuorumDeliveredMeansCertified(v, ops[..n], d);
      var i: nat, qc :| CertifiesAt(v, ops[..n], i, qc) && LedgerInfoHash(qc.signedLedgerInfo.ledgerInfo) == d;
      assert ops[..n][..i] == ops[..i];
      assert CertifiesAt(v, ops, i, qc);
    } else {
      assert ops[n].vote.Digest() == d by {
        assert Delivered(ops[..n], d) + {} == Delivered(ops[..n], d);
      }
      AnswerInRun(v, ops, n);
      var qc := ResultAt(v, ops, n).qc;
      assert CertifiesAt(v, ops, n, qc);
      CertificateInRun(v, ops, n, qc);
    }
  }

  /** Whatever the order, repetition or timeout upgrades: a digest is certified exactly when the
      distinct authors delivered for it hold a quorum. */
  lemma CertifiedIffQuorumDelivered(v: ValidatorVerifier, ops: seq<Op>, d: HashValue)
    requires WellFormed(v) && v.quorum > 0 && OnlyKnownInserts(v, ops) && OneDigestPerAuthor(ops)
    ensures Certified(v, ops, d) <==> PowerOf(v.infos, Delivered(ops, d)) >= v.quorum
  {
    hide StateAfter, PowerOf, Insert, WellFormed, Certified;
    if Certified(v, ops, d) {
      CertifiedMeansQuorumDelivered(v, ops, d);
    }
    if PowerOf(v.infos, Delivered(ops, d)) >= v.quorum {
      QuorumDeliveredMeansCertified(v, ops, d);
    }
  }

  // Timeout echo

  function FPlusOne(v: ValidatorVerifier): int {
    Total(v) - v.quorum + 1
  }

  function TimeoutSigners(s: Votes): set<Author> {
    if s.partialTc.Some? then s.partialTc.value.signatures.Keys else {}
  }

  predicate EchoInvariant(s: Votes, v: ValidatorVerifier) {
    && TimeoutSigners(s) <= Addresses(v.infos)
    && (FPlusOne(v) <= PowerOf(v.infos, TimeoutSigners(s)) < v.quorum ==> s.echoed)
  }

  lemma EchoInTimeoutStep(s: Votes, vote: Vote, v: ValidatorVerifier, power: nat)
    requires WellFormed(v) && v.quorum <= Total(v) && EchoInvariant(s, v) && vote.author in Addresses(v.infos)
    ensures var (r, answer) := TimeoutStep(s, vote, v, power);
      && EchoInvariant(r, v) && !answer.PowerUnderflow?
      && (answer.EchoTimeout? ==>
            !s.echoed && r.echoed && answer.power == PowerOf(v.infos, TimeoutSigners(r))
            && FPlusOne(v) <= answer.power < v.quorum)
  {
    hide PowerOf, Signers, Aggregated;
    if vote.timeout.Some? {
      var (t, sig) := vote.timeout.value;
      var before := if s.partialTc.Some? then s.partialTc.value else PartialTimeoutCert(t, map[]);
      var tc := before.Add(vote.author, t, sig);
      SignersVerdict(v, tc.signatures.Keys);
    }
  }

  /** The author of a vote that reaches the timeout step is known. */
  lemma EchoInStep(s: Votes, vote: Vote, v: ValidatorVerifier)
    requires WellFormed(v) && v.quorum <= Total(v) && EchoInvariant(s, v)
    ensures var (r, answer) := Insert(s, vote, v);
      && EchoInvariant(r, v) && !answer.PowerUnderflow?
      && (answer.EchoTimeout? ==>
            !s.echoed && r.echoed && answer.power == PowerOf(v.infos, TimeoutSigners(r))
            && FPlusOne(v) <= answer.power < v.quorum)
  {
    hide PowerOf, Signers, Aggregated, TimeoutStep;
    if !(vote.author in s.byAuthor && (s.byAuthor[vote.author].1 != vote.Digest() || !IsNewTimeout(s, vote))) {
      var t := Stored(s, vote);
      var keys := t.ledgerInfos[vote.Digest()].signatures.Keys;
      assert vote.author in keys;
      SignersVerdict(v, keys);
      var verdict := Signers(v, keys);
      if verdict.Err? && verdict.error.TooLittleVotingPower? {
        EchoInTimeoutStep(t, vote, v, verdict.error.votingPower);
      }
    }
  }

  /** After every operation, f+1 timeouts short of a quorum have been echoed. */
  lemma {:induction false} EchoInvariantHolds(v: ValidatorVerifier, ops: seq<Op>)
    requires WellFormed(v) && v.quorum <= Total(v)
    ensures EchoInvariant(StateAfter(v, ops), v)
  {
    hide Insert;
    if ops == [] || ops[|ops| - 1].DrainOp? {
      PowerOfNobody(v.infos, {});
    } else {
      EchoInvariantHolds(v, ops[..|ops| - 1]);
      EchoInStep(StateAfter(v, ops[..|ops| - 1]), ops[|ops| - 1].vote, v);
    }
  }

  lemma {:induction false} EchoPersists(v: ValidatorVerifier, ops: seq<Op>, i: nat)
    requires i <= |ops| && StateAfter(v, ops[..i]).echoed
    ensures StateAfter(v, ops).echoed
    decreases |ops|
  {
    hide StepState, Consistent;
    if i == |ops| {
      assert ops[..i] == ops;
    } else {
      var n := |ops| - 1;
      assert ops[..n][..i] == ops[..i];
      EchoPersists(v, ops[..n], i);
      RunConsistent(v, ops[..n]);
      StepKeeps(StateAfter(v, ops[..n]), ops[n], v);
    }
  }

  predicate EchoesAt(v: ValidatorVerifier, ops: seq<Op>, i: nat) {
    i < |ops| && ops[i].InsertOp? && ResultAt(v, ops, i).EchoTimeout?
  }

  /** An echo reports the power of the timeout signers: at least f+1, below the quorum, never only
      Byzantine, and meeting every quorum. */
  lemma EchoMeaning(v: ValidatorVerifier, honest: set<PublicKey>, ops: seq<Op>, i: nat, q: set<Author>)
    requires WellFormed(v) && v.quorum <= Total(v) && FaultBound(v, honest) && EchoesAt(v, ops, i)
    requires PowerOf(v.infos, q) >= v.quorum
    ensures var signers := TimeoutSigners(StateAfter(v, ops[..i + 1]));
      && ResultAt(v, ops, i).power == PowerOf(v.infos, signers)
      && FPlusOne(v) <= ResultAt(v, ops, i).power < v.quorum
      && signers * q != {}
      && exists k :: 0 <= k < |v.infos| && v.infos[k].publicKey in honest && v.infos[k].address in signers
  {
    hide Insert, PowerOf, WellFormed, FaultBound;
    assert ops[..i + 1][..i] == ops[..i];
    EchoInvariantHolds(v, ops[..i]);
    EchoInStep(StateAfter(v, ops[..i]), ops[i].vote, v);
    var signers := TimeoutSigners(StateAfter(v, ops[..i + 1]));
    var k := HonestInFPlusOne(v, honest, signers);
    FPlusOneMeetsQuorum(v, signers, q);
  }

  /** At most one echo per collector, drains included. */
  lemma EchoAtMostOnce(v: ValidatorVerifier, ops: seq<Op>, i: nat, j: nat)
    requires WellFormed(v) && v.quorum <= Total(v)
    requires EchoesAt(v, ops, i) && EchoesAt(v, ops, j)
    ensures i == j
  {
    if i != j {
      var first, second := if i < j then i else j, if i < j then j else i;
      SecondEchoImpossible(v, ops, first, second);
    }
  }

  lemma SecondEchoImpossible(v: ValidatorVerifier, ops: seq<Op>, i: nat, j: nat)
    requires WellFormed(v) && v.quorum <= Total(v) && EchoesAt(v, ops, i)
    requires i < j < |ops| && ops[j].InsertOp?
    ensures !EchoesAt(v, ops, j)
  {
    hide Insert, PowerOf, WellFormed, EchoInvariant;
    assert ops[..i + 1][..i] == ops[..i];
    EchoInvariantHolds(v, ops[..i]);
    EchoInStep(StateAfter(v, ops[..i]), ops[i].vote, v);
    assert StateAfter(v, ops[..i + 1]).echoed;
    assert ops[..j][..i + 1] == ops[..i + 1];
    EchoPersists(v, ops[..j], i + 1);
    EchoInvariantHolds(v, ops[..j]);
    EchoInStep(StateAfter(v, ops[..j]), ops[j].vote, v);
  }
}
