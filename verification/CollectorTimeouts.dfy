/** What a vote collector answers, exactly, in terms of the votes and timeouts delivered to it. */
module CollectorTimeouts {
  import opened Types
  import opened VotingPower
  import opened MultiSignatures
  import opened Certificates
  import opened VoteCollection
  import opened CollectorRuns
  import opened CollectorOutcomes

  /** Authors of the delivered votes, and of those among them that carry a timeout. */
  function Heard(ops: seq<Op>): set<Author> {
    set k | 0 <= k < |ops| && ops[k].InsertOp? :: ops[k].vote.author
  }

  function HeardTimeout(ops: seq<Op>): set<Author> {
    set k | 0 <= k < |ops| && ops[k].InsertOp? && ops[k].vote.IsTimeout() :: ops[k].vote.author
  }

  /** The vote at `i` brings nothing new: its author was heard before, and it adds no first timeout. */
  predicate IsRepeat(ops: seq<Op>, i: nat)
    requires i < |ops| && ops[i].InsertOp?
  {
    var vote := ops[i].vote;
    vote.author in Heard(ops[..i]) && (vote.IsTimeout() ==> vote.author in HeardTimeout(ops[..i]))
  }

  /** Power of the distinct authors delivered for the digest of vote `i`, up to that vote. */
  function PowerAt(v: ValidatorVerifier, ops: seq<Op>, i: nat): nat
    requires i < |ops| && ops[i].InsertOp?
  {
    PowerOf(v.infos, Delivered(ops[..i + 1], ops[i].vote.Digest()))
  }

  predicate CountsAsTimeout(v: ValidatorVerifier, ops: seq<Op>, i: nat) {
    i < |ops| && ops[i].InsertOp? && ops[i].vote.IsTimeout() && PowerAt(v, ops, i) < v.quorum
  }

  /** Distinct authors whose timeout was delivered while their digest was short of a quorum. */
  function TimeoutAuthors(v: ValidatorVerifier, ops: seq<Op>): set<Author> {
    set k: nat | k < |ops| && CountsAsTimeout(v, ops, k) :: ops[k].vote.author
  }

  function TimeoutPower(v: ValidatorVerifier, ops: seq<Op>): nat {
    PowerOf(v.infos, TimeoutAuthors(v, ops))
  }

  // One more vote

  lemma HeardStep(ops: seq<Op>)
    requires ops != [] && ops[|ops| - 1].InsertOp?
    ensures var n := |ops| - 1;
      && Heard(ops) == Heard(ops[..n]) + {ops[n].vote.author}
      && HeardTimeout(ops) == HeardTimeout(ops[..n]) + if ops[n].vote.IsTimeout() then {ops[n].vote.author} else {}
  {
    var n := |ops| - 1;
    assert forall k :: 0 <= k < n ==> ops[..n][k] == ops[k];
    assert ops == ops[..n] + [ops[n]];
  }

  lemma PowerAtPrefix(v: ValidatorVerifier, ops: seq<Op>, n: nat, i: nat)
    requires i < n <= |ops| && ops[i].InsertOp?
    ensures PowerAt(v, ops[..n], i) == PowerAt(v, ops, i)
  {
    assert ops[..n][..i + 1] == ops[..i + 1];
  }

  lemma TimeoutAuthorsStep(v: ValidatorVerifier, ops: seq<Op>)
    requires ops != [] && ops[|ops| - 1].InsertOp?
    ensures var n := |ops| - 1;
      TimeoutAuthors(v, ops)
      == TimeoutAuthors(v, ops[..n]) + if CountsAsTimeout(v, ops, n) then {ops[n].vote.author} else {}
  {
    hide PowerAt;
    var n := |ops| - 1;
    forall k: nat | k < n ensures CountsAsTimeout(v, ops[..n], k) <==> CountsAsTimeout(v, ops, k) {
      if ops[k].InsertOp? {
        PowerAtPrefix(v, ops, n, k);
      }
    }
    forall a | a in TimeoutAuthors(v, ops)
      ensures a in TimeoutAuthors(v, ops[..n]) || (CountsAsTimeout(v, ops, n) && a == ops[n].vote.author)
    {
      var k: nat :| k < |ops| && CountsAsTimeout(v, ops, k) && ops[k].vote.author == a;
      assert k < n ==> ops[..n][k] == ops[k];
    }
    forall a | a in TimeoutAuthors(v, ops[..n]) ensures a in TimeoutAuthors(v, ops) {
      var k: nat :| k < n && CountsAsTimeout(v, ops[..n], k) && ops[..n][k].vote.author == a;
      assert ops[k] == ops[..n][k];
    }
  }

  /** A repeated timeout adds nobody: the first one was delivered with no more power behind its digest. */
  lemma RepeatAddsNobody(v: ValidatorVerifier, ops: seq<Op>)
    requires ops != [] && OnlyKnownInserts(v, ops) && OneDigestPerAuthor(ops) && IsRepeat(ops, |ops| - 1)
    ensures TimeoutAuthors(v, ops) == TimeoutAuthors(v, ops[..|ops| - 1])
  {
    hide PowerOf;
    var n := |ops| - 1;
    var d := ops[n].vote.Digest();
    TimeoutAuthorsStep(v, ops);
    if CountsAsTimeout(v, ops, n) {
      var k :| 0 <= k < n && ops[..n][k].InsertOp? && ops[..n][k].vote.IsTimeout()
            && ops[..n][k].vote.author == ops[n].vote.author;
      assert ops[k] == ops[..n][k] && ops[k].vote.Digest() == d;
      assert ops[..n + 1][..k + 1] == ops[..k + 1];
      DeliveredMonotone(ops[..n + 1], k + 1, d);
      PowerSubset(v.infos, Delivered(ops[..k + 1], d), Delivered(ops[..n + 1], d));
      PowerAtPrefix(v, ops, n, k);
      assert CountsAsTimeout(v, ops[..n], k);
    }
  }

  // The collector's records

  /** Who is recorded, and with a timeout, is who was heard. */
  lemma {:induction false} RecordsWhoWasHeard(v: ValidatorVerifier, ops: seq<Op>)
    requires OnlyKnownInserts(v, ops) && OneDigestPerAuthor(ops)
    ensures StateAfter(v, ops).byAuthor.Keys == Heard(ops)
    ensures forall a :: a in StateAfter(v, ops).byAuthor ==>
      (StateAfter(v, ops).byAuthor[a].0.IsTimeout() <==> a in HeardTimeout(ops))
  {
    hide CertifyStep;
    if ops != [] {
      var n := |ops| - 1;
      var s, vote := StateAfter(v, ops[..n]), ops[n].vote;
      RecordsWhoWasHeard(v, ops[..n]);
      HeardStep(ops);
      if vote.author in s.byAuthor {
        RecordedIsOnlyDigest(v, ops);
      }
      if !(vote.author in s.byAuthor && !IsNewTimeout(s, vote)) {
        CertifyStepFrame(Stored(s, vote), vote, v);
      }
    }
  }

  /** So a vote is a repeat exactly if the collector takes it for one. */
  lemma RepeatIsRecorded(v: ValidatorVerifier, ops: seq<Op>, i: nat)
    requires OnlyKnownInserts(v, ops) && OneDigestPerAuthor(ops) && i < |ops|
    ensures var s := StateAfter(v, ops[..i]);
      && (IsRepeat(ops, i) <==> ops[i].vote.author in s.byAuthor && !IsNewTimeout(s, ops[i].vote))
      && (ops[i].vote.author in s.byAuthor ==> s.byAuthor[ops[i].vote.author].1 == ops[i].vote.Digest())
  {
    hide StateAfter;
    RecordsWhoWasHeard(v, ops[..i]);
    var upTo := ops[..i + 1];
    assert upTo[..i] == ops[..i];
    if ops[i].vote.author in StateAfter(v, ops[..i]).byAuthor {
      RecordedIsOnlyDigest(v, upTo);
    }
  }

  lemma RepeatIsDuplicate(v: ValidatorVerifier, ops: seq<Op>, i: nat)
    requires OnlyKnownInserts(v, ops) && OneDigestPerAuthor(ops) && i < |ops| && IsRepeat(ops, i)
    ensures Insert(StateAfter(v, ops[..i]), ops[i].vote, v) == (StateAfter(v, ops[..i]), DuplicateVote)
  {
    hide StateAfter, CertifyStep, IsRepeat;
    RepeatIsRecorded(v, ops, i);
  }

  /** Power short of a quorum, for known authors, is the one way not to have one. */
  lemma KnownSigners(v: ValidatorVerifier, authors: set<Author>)
    requires WellFormed(v) && authors <= Addresses(v.infos)
    ensures var power := PowerOf(v.infos, authors);
      Signers(v, authors) == if power >= v.quorum then Ok(()) else Err(TooLittleVotingPower(power, v.quorum))
  {
    hide PowerOf, Signers;
    SignersVerdict(v, authors);
  }

  /** What is left of a vote that is not a repeat: a certificate, or the timeout step. */
  lemma FreshVoteCertifies(v: ValidatorVerifier, ops: seq<Op>, i: nat)
    requires WellFormed(v) && OnlyKnownInserts(v, ops) && OneDigestPerAuthor(ops) && i < |ops| && !IsRepeat(ops, i)
    ensures var s, vote := StateAfter(v, ops[..i]), ops[i].vote;
      var power := PowerAt(v, ops, i);
      if power >= v.quorum then
        Insert(s, vote, v).0 == Stored(s, vote) && Insert(s, vote, v).1.NewQuorumCertificate?
      else Insert(s, vote, v) == TimeoutStep(Stored(s, vote), vote, v, power)
  {
    hide TimeoutStep, PowerOf, Signers, Aggregated, StateAfter, IsRepeat;
    var s, vote := StateAfter(v, ops[..i]), ops[i].vote;
    var d := vote.Digest();
    assert ops[..i + 1][..i] == ops[..i];
    RepeatIsRecorded(v, ops, i);
    HoldsWhatWasDelivered(v, ops[..i], d);
    DeliveredStep(ops[..i + 1], d);
    var keys := Stored(s, vote).ledgerInfos[d].signatures.Keys;
    assert keys == Delivered(ops[..i + 1], d);
    assert keys <= Addresses(v.infos);
    KnownSigners(v, keys);
    assert vote.author in keys;
    KnownKeysAggregate(v, Stored(s, vote).ledgerInfos[d].signatures);
  }

  /** The collector's timeout signers are exactly the authors whose timeout counts. */
  lemma {:induction false} TimeoutSignersAre(v: ValidatorVerifier, ops: seq<Op>)
    requires WellFormed(v) && OnlyKnownInserts(v, ops) && OneDigestPerAuthor(ops)
    ensures TimeoutSigners(StateAfter(v, ops)) == TimeoutAuthors(v, ops)
  {
    hide Insert, PowerAt, IsRepeat, WellFormed, TimeoutStep;
    if ops != [] {
      var n := |ops| - 1;
      var s, vote := StateAfter(v, ops[..n]), ops[n].vote;
      TimeoutSignersAre(v, ops[..n]);
      if IsRepeat(ops, n) {
        RepeatIsDuplicate(v, ops, n);
        RepeatAddsNobody(v, ops);
      } else {
        FreshVoteCertifies(v, ops, n);
        TimeoutAuthorsStep(v, ops);
        TimeoutStepSigners(Stored(s, vote), vote, v, PowerAt(v, ops, n));
      }
    }
  }

  lemma TimeoutStepSigners(s: Votes, vote: Vote, v: ValidatorVerifier, power: nat)
    ensures TimeoutSigners(TimeoutStep(s, vote, v, power).0)
         == TimeoutSigners(s) + if vote.IsTimeout() then {vote.author} else {}
  {
    hide Signers, Aggregated;
  }

  // Echoes

  lemma TimeoutAuthorsGrow(v: ValidatorVerifier, ops: seq<Op>)
    requires ops != [] && ops[|ops| - 1].InsertOp?
    ensures TimeoutPower(v, ops[..|ops| - 1]) <= TimeoutPower(v, ops)
  {
    hide PowerOf, CountsAsTimeout;
    TimeoutAuthorsStep(v, ops);
    PowerSubset(v.infos, TimeoutAuthors(v, ops[..|ops| - 1]), TimeoutAuthors(v, ops));
  }

  /** Once echoed, f+1 have timed out. */
  lemma {:induction false} EchoedMeansFPlusOne(v: ValidatorVerifier, ops: seq<Op>)
    requires WellFormed(v) && v.quorum <= Total(v) && OnlyKnownInserts(v, ops) && OneDigestPerAuthor(ops)
    ensures StateAfter(v, ops).echoed ==> TimeoutPower(v, ops) >= FPlusOne(v)
  {
    hide Insert, PowerOf, WellFormed, TimeoutAuthors, EchoInvariant, FPlusOne;
    if ops != [] {
      var n := |ops| - 1;
      var s, vote := StateAfter(v, ops[..n]), ops[n].vote;
      EchoedMeansFPlusOne(v, ops[..n]);
      TimeoutAuthorsGrow(v, ops);
      TimeoutSignersAre(v, ops);
      EchoInvariantHolds(v, ops[..n]);
      EchoInStep(s, vote, v);
      EchoIsAnswered(s, vote, v);
    }
  }

  /** The flag changes only with an echo. */
  lemma EchoIsAnswered(s: Votes, vote: Vote, v: ValidatorVerifier)
    ensures Insert(s, vote, v).0.echoed ==> s.echoed || Insert(s, vote, v).1.EchoTimeout?
  {
    hide Signers, Aggregated;
  }

  // The answer

  /** Short of a quorum for its digest, a vote with a timeout is answered by what the timeouts amount to. */
  lemma TimeoutStepAnswer(s: Votes, vote: Vote, v: ValidatorVerifier, power: nat)
    requires WellFormed(v) && v.quorum <= Total(v) && vote.IsTimeout()
    requires TimeoutSigners(s) <= Addresses(v.infos) && vote.author in Addresses(v.infos)
    ensures var tcPower := PowerOf(v.infos, TimeoutSigners(s) + {vote.author});
      var answer := TimeoutStep(s, vote, v, power).1;
      if tcPower >= v.quorum then answer.New2ChainTimeoutCertificate?
      else answer == if !s.echoed && tcPower >= FPlusOne(v) then EchoTimeout(tcPower) else VoteAdded(power)
  {
    hide PowerOf, Signers, PartialTimeoutCert.Aggregate, PartialTimeoutCert.Add;
    var (t, sig) := vote.timeout.value;
    var before := if s.partialTc.Some? then s.partialTc.value else PartialTimeoutCert(t, map[]);
    var tc := before.Add(vote.author, t, sig);
    AddedSigner(before, vote.author, t, sig);
    assert before.signatures.Keys == TimeoutSigners(s);
    KnownSigners(v, tc.signatures.Keys);
    KnownTimeoutsAggregate(v, tc);
  }

  lemma AddedSigner(tc: PartialTimeoutCert, author: Author, t: TwoChainTimeout, sig: Signature)
    ensures tc.Add(author, t, sig).signatures.Keys == tc.signatures.Keys + {author}
    ensures tc.Add(author, t, sig).signatures != map[]
  {
    assert author in tc.Add(author, t, sig).signatures;
  }

  lemma KnownTimeoutsAggregate(v: ValidatorVerifier, tc: PartialTimeoutCert)
    requires WellFormed(v) && tc.signatures.Keys <= Addresses(v.infos) && tc.signatures != map[]
    ensures tc.Aggregate(v).Ok?
  {
    hide Aggregated, Index, SortedKeys;
    var sigs := tc.KnownSignatures(v);
    var a :| a in tc.signatures;
    IndexedAddresses(v);
    assert a in sigs;
    KnownKeysAggregate(v, sigs);
  }

  lemma IndexedAddresses(v: ValidatorVerifier)
    requires WellFormed(v)
    ensures Index(v.infos).Keys == Addresses(v.infos)
  {
  }

  /** The answer to every vote of a run, by what was delivered up to it. */
  lemma AnswerIs(v: ValidatorVerifier, ops: seq<Op>, i: nat)
    requires WellFormed(v) && v.quorum <= Total(v) && OnlyKnownInserts(v, ops) && OneDigestPerAuthor(ops) && i < |ops|
    ensures var answer, power := ResultAt(v, ops, i), PowerAt(v, ops, i);
      var before, after := TimeoutPower(v, ops[..i]), TimeoutPower(v, ops[..i + 1]);
      if IsRepeat(ops, i) then answer == DuplicateVote
      else if power >= v.quorum then answer.NewQuorumCertificate?
      else if ops[i].vote.IsTimeout() && after >= v.quorum then answer.New2ChainTimeoutCertificate?
      else if ops[i].vote.IsTimeout() && before < FPlusOne(v) <= after then answer == EchoTimeout(after)
      else answer == VoteAdded(power)
  {
    hide Insert, IsRepeat, PowerOf, WellFormed, TimeoutStep, PowerAt, Delivered, TimeoutAuthors;
    var s, vote := StateAfter(v, ops[..i]), ops[i].vote;
    assert ops[..i + 1][..i] == ops[..i];
    if IsRepeat(ops, i) {
      RepeatIsDuplicate(v, ops, i);
    } else {
      FreshVoteCertifies(v, ops, i);
      if PowerAt(v, ops, i) < v.quorum {
        if vote.IsTimeout() {
          TimeoutAnswerIs(v, ops, i);
        } else {
          PlainVoteIsAdded(Stored(s, vote), vote, v, PowerAt(v, ops, i));
        }
      }
    }
  }

  lemma PlainVoteIsAdded(s: Votes, vote: Vote, v: ValidatorVerifier, power: nat)
    requires !vote.IsTimeout()
    ensures TimeoutStep(s, vote, v, power).1 == VoteAdded(power)
  {
  }

  lemma TimeoutAnswerIs(v: ValidatorVerifier, ops: seq<Op>, i: nat)
    requires WellFormed(v) && v.quorum <= Total(v) && OnlyKnownInserts(v, ops) && OneDigestPerAuthor(ops) && i < |ops|
    requires CountsAsTimeout(v, ops, i)
    ensures var s, vote := StateAfter(v, ops[..i]), ops[i].vote;
      var answer := TimeoutStep(Stored(s, vote), vote, v, PowerAt(v, ops, i)).1;
      var before, after := TimeoutPower(v, ops[..i]), TimeoutPower(v, ops[..i + 1]);
      if after >= v.quorum then answer.New2ChainTimeoutCertificate?
      else answer == if before < FPlusOne(v) <= after then EchoTimeout(after) else VoteAdded(PowerAt(v, ops, i))
  {
    hide PowerOf, WellFormed, TimeoutStep, PowerAt, Delivered, TimeoutAuthors;
    var s, vote := StateAfter(v, ops[..i]), ops[i].vote;
    var upTo := ops[..i + 1];
    assert upTo[..i] == ops[..i];
    PowerAtPrefix(v, ops, i + 1, i);
    TimeoutSignersAre(v, ops[..i]);
    TimeoutAuthorsStep(v, upTo);
    TimeoutAuthorsGrow(v, upTo);
    EchoInvariantHolds(v, ops[..i]);
    EchoedMeansFPlusOne(v, ops[..i]);
    TimeoutStepAnswer(Stored(s, vote), vote, v, PowerAt(v, ops, i));
  }

  ghost predicate TimesOutAt(v: ValidatorVerifier, ops: seq<Op>, i: nat) {
    i < |ops| && ops[i].InsertOp? && ResultAt(v, ops, i).New2ChainTimeoutCertificate?
  }

  /** Whatever the order, repetition or echoes: a timeout certificate is handed out exactly when the authors
      whose timeouts count hold a quorum. */
  lemma {:induction false} TimedOutIffQuorumDelivered(v: ValidatorVerifier, ops: seq<Op>)
    requires WellFormed(v) && 0 < v.quorum <= Total(v) && OnlyKnownInserts(v, ops) && OneDigestPerAuthor(ops)
    ensures (exists i: nat :: TimesOutAt(v, ops, i)) <==> TimeoutPower(v, ops) >= v.quorum
  {
    hide StateAfter, PowerOf, Insert, WellFormed, PowerAt;
    if ops == [] {
      PowerOfNobody(v.infos, {});
      assert TimeoutAuthors(v, ops) == {};
    } else {
      var n := |ops| - 1;
      TimedOutIffQuorumDelivered(v, ops[..n]);
      TimeoutAuthorsGrow(v, ops);
      TimeoutAuthorsStep(v, ops);
      assert ops[..n + 1] == ops;
      AnswerIs(v, ops, n);
      forall i: nat | i < n ensures TimesOutAt(v, ops[..n], i) <==> TimesOutAt(v, ops, i) {
        assert ops[..n][..i] == ops[..i];
      }
      if IsRepeat(ops, n) {
        RepeatAddsNobody(v, ops);
      }
      if !CountsAsTimeout(v, ops, n) {
        assert TimeoutAuthors(v, ops) == TimeoutAuthors(v, ops[..n]);
      }
      assert TimeoutPower(v, ops) >= v.quorum > TimeoutPower(v, ops[..n]) ==> TimesOutAt(v, ops, n);
    }
  }
}
