/** Checks on votes, quorum certificates and two-chain timeout certificates. */
module Certificates {
  import opened Types
  import opened BitVectors
  import opened VotingPower
  import opened MultiSignatures

  predicate VoteDataVerifies(d: VoteData) {
    && d.parent.epoch == d.proposed.epoch
    && d.parent.round < d.proposed.round
    && d.parent.timestamp <= d.proposed.timestamp
    && (d.proposed.version == 0 || d.parent.version <= d.proposed.version)
  }

  function NumVoters(sig: AggregateSignature): nat {
    |IterOnes(sig.bitmask)|
  }

  /** `QuorumCert::verify`.  A round-0 certificate needs no signature, only internal consistency. */
  predicate QcVerifies(v: ValidatorVerifier, qc: QuorumCert) {
    var li := qc.signedLedgerInfo.ledgerInfo;
    && li.consensusDataHash == VoteDataHash(qc.voteData)
    && if qc.Certified().round == 0 then
         qc.Parent() == qc.Certified() == qc.CommitInfo() && NumVoters(qc.signedLedgerInfo.signatures) == 0
       else
         MultiSignatureVerdict(v, LedgerInfoMessage(li), qc.signedLedgerInfo.signatures).Ok?
         && VoteDataVerifies(qc.voteData)
  }

  predicate TimeoutVerifies(v: ValidatorVerifier, t: TwoChainTimeout) {
    t.HqcRound() < t.round && QcVerifies(v, t.quorumCert)
  }

  predicate SignatureVerifies(v: ValidatorVerifier, author: Author, message: Message, sig: Signature) {
    GetPublicKey(v, author).Some? && sig == Sign(GetPublicKey(v, author).value, message)
  }

  /** `Vote::verify`. */
  predicate VoteVerifies(v: ValidatorVerifier, vote: Vote) {
    && vote.ledgerInfo.consensusDataHash == VoteDataHash(vote.voteData)
    && SignatureVerifies(v, vote.author, LedgerInfoMessage(vote.ledgerInfo), vote.signature)
    && (vote.timeout.Some? ==>
          var (t, sig) := vote.timeout.value;
          && t.epoch == vote.Epoch() && t.round == vote.Round()
          && TimeoutVerifies(v, t)
          && SignatureVerifies(v, vote.author, t.SigningFormat(), sig))
    && VoteDataVerifies(vote.voteData)
  }

  /** Each certificate is for a child of the block that the one before certifies. */
  predicate IsCertifiedChain(v: ValidatorVerifier, qcs: seq<QuorumCert>) {
    && (forall i :: 0 <= i < |qcs| ==> QcVerifies(v, qcs[i]))
    && forall i :: 0 < i < |qcs| ==> qcs[i].Parent() == qcs[i - 1].Certified() && qcs[i].Certified().round > 0
  }

  /** Along a chain of verified certificates the epoch stays, rounds grow, and neither time nor, where blocks
      are executed, the version goes back. */
  lemma {:induction false} ChainAscends(v: ValidatorVerifier, qcs: seq<QuorumCert>, i: nat, j: nat)
    requires IsCertifiedChain(v, qcs) && i < j < |qcs|
    ensures var a, b := qcs[i].Certified(), qcs[j].Certified();
      && a.epoch == b.epoch && a.round < b.round && a.timestamp <= b.timestamp
      && ((forall k :: i < k <= j ==> qcs[k].Certified().version > 0) ==> a.version <= b.version)
    decreases j
  {
    hide MultiSignatureVerdict, IterOnes;
    if i < j - 1 {
      ChainAscends(v, qcs, i, j - 1);
    }
  }

  // Timeout certificates

  function MaxRound(rounds: seq<Round>): Round {
    if rounds == [] then 0
    else
      var n := |rounds| - 1;
      var m := MaxRound(rounds[..n]);
      if m < rounds[n] then rounds[n] else m
  }

  lemma {:induction false} MaxRoundBounds(rounds: seq<Round>)
    ensures forall k :: 0 <= k < |rounds| ==> rounds[k] <= MaxRound(rounds)
    ensures rounds != [] ==> MaxRound(rounds) in rounds
  {
    if rounds != [] {
      var n := |rounds| - 1;
      MaxRoundBounds(rounds[..n]);
      assert n > 0 ==> MaxRound(rounds[..n]) in rounds[..n];
    }
  }

  /** One timeout message per masked voter; the list of rounds is cut to the number of voters. */
  function TimeoutMessages(tc: TimeoutCert, voters: nat): seq<Message> {
    var n := if voters < |tc.rounds| then voters else |tc.rounds|;
    seq(n, k requires 0 <= k < n => TimeoutMessage(tc.timeout.epoch, tc.timeout.round, tc.rounds[k]))
  }

  /** `TwoChainTimeoutCertificate::verify`. */
  predicate TcVerifies(v: ValidatorVerifier, tc: TimeoutCert) {
    var voters := GetVoterAddresses(tc.sig.bitmask, OrderedAddresses(v));
    && TimeoutVerifies(v, tc.timeout)
    && AggregateVerdict(v, TimeoutMessages(tc, |voters|), tc.sig).Ok?
    && tc.timeout.HqcRound() == MaxRound(tc.rounds)
  }

  /** The holder of `key` signed a timeout of this round with a certificate of round at most `bound`. */
  ghost predicate TimedOut(atoms: iset<Atom>, key: PublicKey, epoch: Epoch, round: Round, bound: Round) {
    exists h: Round :: h <= bound && Atom(key, TimeoutMessage(epoch, round, h)) in atoms
  }

  ghost function AtomSet(atoms: multiset<Atom>): iset<Atom> {
    iset a | a in atoms
  }

  /** A verified timeout certificate carries a quorum that timed out in its round, none of them with a
      quorum certificate above the certificate's own. */
  lemma TcSound(v: ValidatorVerifier, tc: TimeoutCert)
    requires WellFormed(v) && TcVerifies(v, tc)
    ensures tc.sig.sig.Some? && PowerOf(v.infos, Voters(v, tc.sig.bitmask)) >= v.quorum
    ensures forall i :: 0 <= i < |v.infos| && IsSet(tc.sig.bitmask, i) ==>
      TimedOut(AtomSet(tc.sig.sig.value.atoms), v.infos[i].publicKey, tc.timeout.epoch, tc.timeout.round,
               tc.timeout.HqcRound())
  {
    hide IsSet, AggregateVerdict, QcVerifies, GetVoterAddresses, Voters, PowerOf;
    var messages := TimeoutMessages(tc, |GetVoterAddresses(tc.sig.bitmask, OrderedAddresses(v))|);
    AggregateSound(v, messages, tc.sig);
    forall i | 0 <= i < |v.infos| && IsSet(tc.sig.bitmask, i)
      ensures TimedOut(AtomSet(tc.sig.sig.value.atoms), v.infos[i].publicKey, tc.timeout.epoch,
                       tc.timeout.round, tc.timeout.HqcRound())
    {
      var k :| 0 <= k < |messages| && Atom(v.infos[i].publicKey, messages[k]) in tc.sig.sig.value.atoms;
      assert messages[k] == TimeoutMessage(tc.timeout.epoch, tc.timeout.round, tc.rounds[k]);
      MaxRoundBounds(tc.rounds);
    }
  }

  /** `TwoChainTimeoutWithPartialSignatures`. */
  datatype PartialTimeoutCert = PartialTimeoutCert(
    timeout: TwoChainTimeout,
    signatures: map<Author, (Round, Signature)>)
  {
    /** Keeps the timeout with the highest certificate, and each author's first signature. */
    function Add(author: Author, t: TwoChainTimeout, sig: Signature): PartialTimeoutCert {
      PartialTimeoutCert(
        if t.HqcRound() > timeout.HqcRound() then t else timeout,
        if author in signatures then signatures else signatures[author := (t.HqcRound(), sig)])
    }

    function KnownSignatures(v: ValidatorVerifier): map<Author, Signature> {
      map a | a in signatures && a in Index(v.infos) :: signatures[a].1
    }

    function Positions(v: ValidatorVerifier): set<nat> {
      set a | a in signatures && a in Index(v.infos) :: Index(v.infos)[a]
    }

    /** Rounds in the order of the voters' positions. */
    function OrderedRounds(v: ValidatorVerifier): seq<Round> {
      var positions := SortedKeys(Positions(v));
      assert forall k :: 0 <= k < |positions| ==> positions[k] in SetOf(positions);
      seq(|positions|, k requires 0 <= k < |positions| => signatures[v.infos[positions[k]].address].0)
    }

    function Aggregate(v: ValidatorVerifier): Result<TimeoutCert, VerifyError> {
      var sig := Aggregated(v, KnownSignatures(v));
      if sig.Err? then Err(sig.error) else Ok(TimeoutCert(timeout, sig.value, OrderedRounds(v)))
    }
  }

  /** What repeated `Add` of verified timeouts by distinct authors maintains. */
  ghost predicate TimeoutsSigned(v: ValidatorVerifier, p: PartialTimeoutCert) {
    && TimeoutVerifies(v, p.timeout)
    && (forall a :: a in p.signatures ==>
          && p.signatures[a].0 <= p.timeout.HqcRound()
          && SignatureVerifies(v, a, TimeoutMessage(p.timeout.epoch, p.timeout.round, p.signatures[a].0),
                               p.signatures[a].1))
    && exists a :: a in p.signatures && p.signatures[a].0 == p.timeout.HqcRound()
  }

  lemma AddKeepsTimeoutsSigned(v: ValidatorVerifier, p: PartialTimeoutCert, author: Author,
                               t: TwoChainTimeout, sig: Signature)
    requires p == PartialTimeoutCert(t, map[])
          || (TimeoutsSigned(v, p) && p.timeout.epoch == t.epoch && p.timeout.round == t.round)
    requires author !in p.signatures
    requires TimeoutVerifies(v, t) && SignatureVerifies(v, author, t.SigningFormat(), sig)
    ensures TimeoutsSigned(v, p.Add(author, t, sig))
  {
    hide QcVerifies, Index;
    var q := p.Add(author, t, sig);
    assert author in q.signatures;
    if q.timeout != t {
      var a :| a in p.signatures && p.signatures[a].0 == p.timeout.HqcRound();
      assert a in q.signatures;
    }
  }

  lemma PositionsAreOnes(v: ValidatorVerifier, p: PartialTimeoutCert)
    requires WellFormed(v) && Aggregated(v, p.KnownSignatures(v)).Ok?
    ensures SortedKeys(p.Positions(v)) == IterOnes(Aggregated(v, p.KnownSignatures(v)).value.bitmask)
  {
    hide IsSet, Set, LastSetBit, IterOnes, MasksOver, AtomsOver, SortedKeys, Aggregated;
    var sigs := p.KnownSignatures(v);
    var b := Aggregated(v, sigs).value.bitmask;
    var positions, ones := SortedKeys(p.Positions(v)), IterOnes(b);
    MaskRoundTrip(v, sigs);
    OnesAreVoters(v, b);
    OnesAscend(b);
    forall i | i in p.Positions(v) ensures i in SetOf(ones) {
      var a :| a in p.signatures && a in Index(v.infos) && Index(v.infos)[a] == i;
      assert a in Voters(v, b);
      assert a in SetOf(AuthorsAt(v, ones));
      var k :| 0 <= k < |ones| && AuthorsAt(v, ones)[k] == a;
      IndexOfAddress(v, ones[k]);
    }
    forall k | 0 <= k < |ones| ensures ones[k] in p.Positions(v) {
      MaskedAreSigners(v, sigs, k);
      IndexOfAddress(v, ones[k]);
    }
    assert SetOf(ones) == p.Positions(v);
    AscendingIsUnique(positions, ones);
  }

  lemma OnesAscend(b: BitVec)
    ensures Ascending(IterOnes(b))
  {
    OnesBelowAscending(b, BUCKET_SIZE * |b.inner|);
  }

  lemma CarriedRoundsAreSigned(v: ValidatorVerifier, p: PartialTimeoutCert, k: nat)
    requires WellFormed(v) && TimeoutsSigned(v, p) && p.Aggregate(v).Ok?
    requires k < |IterOnes(p.Aggregate(v).value.sig.bitmask)| == |p.OrderedRounds(v)|
    ensures var tc := p.Aggregate(v).value;
      var i := IterOnes(tc.sig.bitmask)[k];
      && i < |v.infos| && v.infos[i].address in p.KnownSignatures(v)
      && p.KnownSignatures(v)[v.infos[i].address]
         == Sign(v.infos[i].publicKey, TimeoutMessage(tc.timeout.epoch, tc.timeout.round, tc.rounds[k]))
  {
    hide IsSet, Set, LastSetBit, IterOnes, MasksOver, AtomsOver, SortedKeys, QcVerifies, Aggregated;
    PositionsAreOnes(v, p);
    MaskedAreSigners(v, p.KnownSignatures(v), k);
  }

  lemma TimeoutAggregateVerifies(v: ValidatorVerifier, p: PartialTimeoutCert)
    requires WellFormed(v) && TimeoutsSigned(v, p) && p.Aggregate(v).Ok?
    requires PowerOf(v.infos, p.KnownSignatures(v).Keys) >= v.quorum
    ensures var tc := p.Aggregate(v).value;
      AggregateVerdict(v, TimeoutMessages(tc, |IterOnes(tc.sig.bitmask)|), tc.sig).Ok?
  {
    hide IsSet, Set, LastSetBit, IterOnes, MasksOver, AtomsOver, SortedKeys, QcVerifies, Aggregated, PowerOf,
         VotersVerdict, TimeoutsSigned;
    var sigs := p.KnownSignatures(v);
    var tc := p.Aggregate(v).value;
    var ones := IterOnes(tc.sig.bitmask);
    PositionsAreOnes(v, p);
    AggregatedVoters(v, sigs);
    AggregateIsNotEmpty(v, sigs);
    var messages := TimeoutMessages(tc, |ones|);
    forall k | 0 <= k < |ones|
      ensures v.infos[ones[k]].address in sigs
      ensures sigs[v.infos[ones[k]].address] == Sign(v.infos[ones[k]].publicKey, messages[k])
    {
      CarriedRoundsAreSigned(v, p, k);
    }
    AggregatedAtoms(v, sigs, messages);
  }

  /** Round trip: signed timeouts by a quorum aggregate to a certificate that verifies. */
  lemma TimeoutCertRoundTrip(v: ValidatorVerifier, p: PartialTimeoutCert)
    requires WellFormed(v) && TimeoutsSigned(v, p)
    requires PowerOf(v.infos, p.signatures.Keys) >= v.quorum
    ensures p.Aggregate(v).Ok? && TcVerifies(v, p.Aggregate(v).value)
  {
    hide IsSet, Set, LastSetBit, IterOnes, MasksOver, AtomsOver, SortedKeys, PowerOf, QcVerifies, Aggregated,
         AggregateVerdict, MaxRound, TimeoutMessages, Index;
    var sigs := p.KnownSignatures(v);
    assert sigs.Keys == p.signatures.Keys;
    KnownKeysAggregate(v, sigs);
    TimeoutAggregateVerifies(v, p);
    MaskRoundTrip(v, sigs);
    VoterAddressesInOrder(v, p.Aggregate(v).value.sig.bitmask);
    HighestRoundIsCarried(v, p);
  }

  lemma HighestRoundIsCarried(v: ValidatorVerifier, p: PartialTimeoutCert)
    requires TimeoutsSigned(v, p)
    ensures MaxRound(p.OrderedRounds(v)) == p.timeout.HqcRound()
  {
    hide QcVerifies, SortedKeys;
    var positions := SortedKeys(p.Positions(v));
    var rounds := p.OrderedRounds(v);
    MaxRoundBounds(rounds);
    var a :| a in p.signatures && p.signatures[a].0 == p.timeout.HqcRound();
    assert Index(v.infos)[a] in SetOf(positions);
    var k :| 0 <= k < |positions| && positions[k] == Index(v.infos)[a];
    assert rounds[k] == p.timeout.HqcRound();
    forall j | 0 <= j < |rounds| ensures rounds[j] <= p.timeout.HqcRound() {
      assert positions[j] in SetOf(positions);
    }
  }
}
