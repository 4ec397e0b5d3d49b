/** Agreement of the two-chain protocol over whole runs.

Honest validators run `TwoChainRules`: they vote, time out and, once a block is ordered and executed,
cast commit votes, all with one key.  Everybody else may sign anything and present any block or
certificate, as long as no honest signature is forged. */
module TwoChain {
  import opened Types
  import opened BitVectors
  import opened VotingPower
  import opened MultiSignatures
  import opened Certificates
  import opened TwoChainRules

  /** Honest keys, and the validators of each epoch. */
  datatype Config = Config(honest: set<PublicKey>, committees: map<Epoch, ValidatorVerifier>)

  predicate ValidConfig(c: Config) {
    forall e :: e in c.committees ==>
      WellFormed(c.committees[e]) && SuperMajority(c.committees[e]) && FaultBound(c.committees[e], c.honest)
  }

  /** The honest validators' persisted state, every signature they ever released, and those among them
      that were released as votes or timeouts; the others are commit votes. */
  datatype Network = Network(nodes: map<PublicKey, SafetyState>, signed: iset<Atom>, voted: iset<Atom>)

  ghost predicate Unforged(c: Config, n: Network, sig: Option<Signature>) {
    sig.Some? ==> forall a :: a in sig.value.atoms && a.key in c.honest ==> a in n.signed
  }

  ghost predicate UnforgedQc(c: Config, n: Network, qc: QuorumCert) {
    Unforged(c, n, qc.signedLedgerInfo.signatures.sig)
  }

  // Steps

  datatype Step =
    | VoteStep(key: PublicKey, proposal: VoteProposal, tc: Option<TimeoutCert>, stored: bool)
    | TimeoutStep(key: PublicKey, timeout: TwoChainTimeout, tc: Option<TimeoutCert>, stored: bool)
    | CommitStep(key: PublicKey, ordered: LedgerInfoWithSignatures, executed: LedgerInfo)
    | EpochStep(key: PublicKey, epoch: Epoch)

  ghost function Released<T>(n: Network, key: PublicKey, s: SafetyState, r: Result<T, Error>, sig: T -> Signature)
    : Network
  {
    var more := if r.Ok? then AtomSet(sig(r.value).atoms) else iset{};
    Network(n.nodes[key := s], n.signed + more, n.voted + more)
  }

  /** What the block store guarantees about the data it hands to the safety rules: timeout certificates
      are of the block's epoch.  Nothing is known of a round-0 parent, which carries no signatures. */
  ghost predicate FromBlockStore(c: Config, n: Network, step: Step)
    requires step.VoteStep?
  {
    var b := step.proposal.block;
    && (step.tc.Some? ==>
          step.tc.value.timeout.epoch == b.epoch && Unforged(c, n, step.tc.value.sig.sig)
          && UnforgedQc(c, n, step.tc.value.timeout.quorumCert))
    && UnforgedQc(c, n, b.quorumCert)
  }

  /** What the buffer manager guarantees about a request for a commit vote: the ordered ledger info is of
      the validator's epoch and above its root, and the executed one keeps its data hash. */
  ghost predicate FromBufferManager(c: Config, n: Network, step: Step)
    requires step.CommitStep? && step.key in n.nodes
  {
    && Unforged(c, n, step.ordered.signatures.sig)
    && step.ordered.ledgerInfo.commitInfo.epoch == n.nodes[step.key].data.epoch
    && step.ordered.ledgerInfo.commitInfo.round > 0
    && step.executed.consensusDataHash == step.ordered.ledgerInfo.consensusDataHash
  }

  ghost predicate Next(c: Config, n: Network, step: Step, n': Network) {
    step.key in n.nodes &&
    match step
    case VoteStep(key, p, tc, stored) =>
      var (s, r) := SignVote(n.nodes[key], p, tc, stored);
      FromBlockStore(c, n, step) && n' == Released(n, key, s, r, (v: Vote) => v.signature)
    case TimeoutStep(key, t, tc, stored) =>
      var (s, r) := SignTimeout(n.nodes[key], t, tc, stored);
      n' == Released(n, key, s, r, (g: Signature) => g)
    case CommitStep(key, ordered, executed) =>
      var r := SignCommitVote(n.nodes[key], ordered, executed);
      FromBufferManager(c, n, step)
      && n' == n.(signed := if r.Ok? then n.signed + AtomSet(r.value.atoms) else n.signed)
    case EpochStep(key, e) =>
      e in c.committees
      && n' == n.(nodes := n.nodes[key := StartEpoch(n.nodes[key], EpochState(e, c.committees[e]))])
  }

  ghost predicate Initial(c: Config, n: Network) {
    && n.nodes.Keys == c.honest && n.signed == n.voted == iset{}
    && forall k :: k in n.nodes ==>
         && n.nodes[k].data == SafetyData(n.nodes[k].data.epoch, 0, 0, 0, None)
         && n.nodes[k].epochState.None?
         && (n.nodes[k].signer.Some? ==> n.nodes[k].signer.value.key == k)
  }

  ghost predicate IsRun(c: Config, trace: seq<Network>, steps: seq<Step>) {
    && |trace| == |steps| + 1 && Initial(c, trace[0])
    && forall i :: 0 <= i < |steps| ==> Next(c, trace[i], steps[i], trace[i + 1])
  }

  // Certification, as a property of what was signed

  /** The validators in `q` hold a quorum, and the honest ones among them signed `m`. */
  ghost predicate QuorumSigned(c: Config, signed: iset<Atom>, e: Epoch, q: set<Author>, m: Message) {
    e in c.committees && PowerOf(c.committees[e].infos, q) >= c.committees[e].quorum
    && forall i :: 0 <= i < |c.committees[e].infos| ==>
         var v := c.committees[e].infos[i];
         v.address in q && v.publicKey in c.honest ==> Atom(v.publicKey, m) in signed
  }

  ghost predicate CertifiedBy(c: Config, signed: iset<Atom>, e: Epoch, d: VoteData, q: set<Author>, li: LedgerInfo) {
    d.proposed.epoch == e && li.consensusDataHash == VoteDataHash(d)
    && QuorumSigned(c, signed, e, q, LedgerInfoMessage(li))
  }

  ghost predicate Certified(c: Config, signed: iset<Atom>, e: Epoch, d: VoteData) {
    exists q: set<Author>, li: LedgerInfo :: CertifiedBy(c, signed, e, d, q, li)
  }

  /** A quorum timed out in `round`, none of the honest ones with a certificate above `bound`. */
  ghost predicate TimedOutBy(c: Config, signed: iset<Atom>, e: Epoch, round: Round, bound: Round, q: set<Author>) {
    e in c.committees && PowerOf(c.committees[e].infos, q) >= c.committees[e].quorum
    && forall i :: 0 <= i < |c.committees[e].infos| ==>
         var v := c.committees[e].infos[i];
         v.address in q && v.publicKey in c.honest ==> TimedOut(signed, v.publicKey, e, round, bound)
  }

  ghost predicate RoundTimedOut(c: Config, signed: iset<Atom>, e: Epoch, round: Round, bound: Round) {
    exists q: set<Author> :: TimedOutBy(c, signed, e, round, bound, q)
  }

  ghost predicate ParentCertified(c: Config, signed: iset<Atom>, e: Epoch, parent: BlockInfo) {
    if parent.round == 0 then parent.epoch == e && parent.nextEpochState.None?
    else exists d: VoteData :: d.proposed == parent && Certified(c, signed, e, d)
  }

  // Invariant

  /** Everything an honest vote stands for, apart from its signer's state. */
  ghost predicate VoteJustified(c: Config, signed: iset<Atom>, li: LedgerInfo) {
    && li.consensusDataHash.VoteDataHash?
    && var d := li.consensusDataHash.voteData;
       var e := d.proposed.epoch;
       && d.parent.epoch == e && d.parent.round < d.proposed.round
       && li.commitInfo == (if d.parent.round + 1 == d.proposed.round then d.parent else EMPTY_BLOCK_INFO)
       && ParentCertified(c, signed, e, d.parent)
       && (d.parent.round + 1 == d.proposed.round
           || RoundTimedOut(c, signed, e, d.proposed.round - 1, d.parent.round))
  }

  /** A signature is covered by its signer's persisted state. */
  predicate Covered(data: SafetyData, m: Message) {
    match m
    case LedgerInfoMessage(li) =>
      li.consensusDataHash.VoteDataHash? &&
      var d := li.consensusDataHash.voteData;
      d.proposed.epoch <= data.epoch
      && (d.proposed.epoch == data.epoch ==>
            d.proposed.round <= data.lastVotedRound && d.parent.round <= data.oneChainRound)
    case TimeoutMessage(e, r, _) => e <= data.epoch && (e == data.epoch ==> r <= data.lastVotedRound)
  }

  /** Two signatures of one validator: one vote per round, and a timeout at or after a vote reports a
      certificate at least as high as the vote's parent. */
  predicate Compatible(m1: Message, m2: Message) {
    m1.LedgerInfoMessage? && m1.ledgerInfo.consensusDataHash.VoteDataHash? ==>
      var d := m1.ledgerInfo.consensusDataHash.voteData;
      match m2
      case LedgerInfoMessage(li) =>
        (li.consensusDataHash.VoteDataHash?
         && li.consensusDataHash.voteData.proposed.epoch == d.proposed.epoch
         && li.consensusDataHash.voteData.proposed.round == d.proposed.round)
        ==> m1 == m2
      case TimeoutMessage(e, r, h) => e == d.proposed.epoch && r >= d.proposed.round ==> h >= d.parent.round
  }

  ghost predicate NodeInvariant(c: Config, n: Network, k: PublicKey)
    requires k in n.nodes
  {
    var s := n.nodes[k];
    && (s.signer.Some? ==> s.signer.value.key == k)
    && (s.epochState.Some? ==>
          s.data.epoch in c.committees && s.epochState.value == EpochState(s.data.epoch, c.committees[s.data.epoch]))
    && (s.data.lastVote.Some? ==>
          var vote := s.data.lastVote.value;
          && vote.Epoch() == s.data.epoch && vote.ledgerInfo.consensusDataHash == VoteDataHash(vote.voteData)
          && vote.signature == Sign(k, LedgerInfoMessage(vote.ledgerInfo))
          && Atom(k, LedgerInfoMessage(vote.ledgerInfo)) in n.voted)
  }

  ghost predicate AtomInvariant(c: Config, n: Network, a: Atom) {
    && a.key in n.nodes && Covered(n.nodes[a.key].data, a.message)
    && (a.message.LedgerInfoMessage? ==> VoteJustified(c, n.voted, a.message.ledgerInfo))
  }

  /** Votes of a quorum certify `d` with a ledger info that orders what `li` commits. */
  ghost predicate OrderedBy(c: Config, voted: iset<Atom>, li: LedgerInfo, d: VoteData, q: set<Author>,
                            ordered: LedgerInfo) {
    && li.consensusDataHash == VoteDataHash(d) && CertifiedBy(c, voted, d.proposed.epoch, d, q, ordered)
    && ordered.commitInfo.IsOrderedOnly() && MatchOrderedOnly(ordered.commitInfo, li.commitInfo)
  }

  /** What a commit vote stands for. */
  ghost predicate CommitJustified(c: Config, voted: iset<Atom>, li: LedgerInfo) {
    exists d: VoteData, q: set<Author>, ordered: LedgerInfo :: OrderedBy(c, voted, li, d, q, ordered)
  }

  ghost predicate CommitVoteInvariant(c: Config, n: Network, a: Atom) {
    && a.key in n.nodes && a.message.LedgerInfoMessage? && a.message.ledgerInfo.commitInfo.round > 0
    && CommitJustified(c, n.voted, a.message.ledgerInfo)
  }

  ghost predicate Invariant(c: Config, n: Network) {
    && n.nodes.Keys == c.honest && n.voted <= n.signed
    && (forall k :: k in n.nodes ==> NodeInvariant(c, n, k))
    && (forall a :: a in n.voted ==> AtomInvariant(c, n, a))
    && (forall a, b :: a in n.voted && b in n.voted && a.key == b.key ==> Compatible(a.message, b.message))
    && (forall a :: a in n.signed && a !in n.voted ==> CommitVoteInvariant(c, n, a))
  }

  // Verified certificates stand for quorums of signatures

  lemma QcSigned(c: Config, n: Network, e: Epoch, qc: QuorumCert)
    requires ValidConfig(c) && e in c.committees && QcVerifies(c.committees[e], qc) && UnforgedQc(c, n, qc)
    requires qc.Certified().epoch == e && qc.Certified().round != 0
    ensures CertifiedBy(c, n.signed, e, qc.voteData,
                        Voters(c.committees[e], qc.signedLedgerInfo.signatures.bitmask), qc.signedLedgerInfo.ledgerInfo)
  {
    hide MultiSignatureVerdict, IsSet, PowerOf, WellFormed;
    var li := qc.signedLedgerInfo;
    VerifiedIsQuorumSigned(c, n, e, li);
  }

  lemma VerifiedIsQuorumSigned(c: Config, n: Network, e: Epoch, x: LedgerInfoWithSignatures)
    requires ValidConfig(c) && e in c.committees && Unforged(c, n, x.signatures.sig)
    requires MultiSignatureVerdict(c.committees[e], LedgerInfoMessage(x.ledgerInfo), x.signatures).Ok?
    ensures QuorumSigned(c, n.signed, e, Voters(c.committees[e], x.signatures.bitmask), LedgerInfoMessage(x.ledgerInfo))
  {
    hide MultiSignatureVerdict, IsSet, PowerOf, WellFormed;
    MultiSignatureSound(c.committees[e], LedgerInfoMessage(x.ledgerInfo), x.signatures);
    VotersAreMasked(c.committees[e], x.signatures.bitmask);
  }

  /** A quorum that signed a ledger info voted for its block: for that ledger info, or for the one that
      ordered what it commits. */
  lemma SignedIsVoted(c: Config, n: Network, e: Epoch, d: VoteData, q: set<Author>, li: LedgerInfo)
    returns (q': set<Author>, ordered: LedgerInfo)
    requires Invariant(c, n) && CertifiedBy(c, n.signed, e, d, q, li)
    ensures CertifiedBy(c, n.voted, e, d, q', ordered)
    ensures ordered == li || OrderedBy(c, n.voted, li, d, q', ordered)
  {
    hide PowerOf, VoteJustified;
    var v, m := c.committees[e].infos, LedgerInfoMessage(li);
    if i :| 0 <= i < |v| && v[i].address in q && v[i].publicKey in c.honest && Atom(v[i].publicKey, m) !in n.voted {
      var a := Atom(v[i].publicKey, m);
      assert a in n.signed;
      assert CommitVoteInvariant(c, n, a);
      var d' :| exists p: set<Author>, o: LedgerInfo :: OrderedBy(c, n.voted, li, d', p, o);
      q', ordered :| OrderedBy(c, n.voted, li, d', q', ordered);
    } else {
      q', ordered := q, li;
    }
  }

  /** A verified certificate certifies its block by votes. */
  lemma QcCertifies(c: Config, n: Network, e: Epoch, qc: QuorumCert)
    requires ValidConfig(c) && Invariant(c, n)
    requires e in c.committees && QcVerifies(c.committees[e], qc) && UnforgedQc(c, n, qc)
    requires qc.Certified().epoch == e && qc.Certified().round != 0
    ensures Certified(c, n.voted, e, qc.voteData)
  {
    hide QcVerifies, PowerOf, WellFormed, Invariant, Unforged;
    QcSigned(c, n, e, qc);
    var q, ordered := SignedIsVoted(c, n, e, qc.voteData,
                                    Voters(c.committees[e], qc.signedLedgerInfo.signatures.bitmask),
                                    qc.signedLedgerInfo.ledgerInfo);
  }

  lemma VotersAreMasked(v: ValidatorVerifier, b: BitVec)
    requires WellFormed(v)
    ensures forall i :: 0 <= i < |v.infos| && v.infos[i].address in Voters(v, b) ==> IsSet(b, i)
  {
    hide IsSet;
  }

  lemma TcTimesOut(c: Config, n: Network, e: Epoch, tc: TimeoutCert)
    requires ValidConfig(c) && e in c.committees && TcVerifies(c.committees[e], tc) && Unforged(c, n, tc.sig.sig)
    requires tc.timeout.epoch == e && Invariant(c, n)
    ensures RoundTimedOut(c, n.voted, e, tc.timeout.round, tc.timeout.HqcRound())
  {
    hide TcVerifies, IsSet, PowerOf, WellFormed;
    var v, q := c.committees[e], Voters(c.committees[e], tc.sig.bitmask);
    TcSound(v, tc);
    VotersAreMasked(v, tc.sig.bitmask);
    forall i | 0 <= i < |v.infos| && v.infos[i].address in q && v.infos[i].publicKey in c.honest
      ensures TimedOut(n.voted, v.infos[i].publicKey, e, tc.timeout.round, tc.timeout.HqcRound())
    {
      var key := v.infos[i].publicKey;
      assert TimedOut(AtomSet(tc.sig.sig.value.atoms), key, e, tc.timeout.round, tc.timeout.HqcRound());
      var h: Round :| h <= tc.timeout.HqcRound()
        && Atom(key, TimeoutMessage(e, tc.timeout.round, h)) in AtomSet(tc.sig.sig.value.atoms);
      TimeoutsAreVoted(c, n, Atom(key, TimeoutMessage(e, tc.timeout.round, h)));
    }
    assert TimedOutBy(c, n.voted, e, tc.timeout.round, tc.timeout.HqcRound(), q);
  }

  lemma TimeoutsAreVoted(c: Config, n: Network, a: Atom)
    requires Invariant(c, n) && a in n.signed && a.message.TimeoutMessage?
    ensures a in n.voted
  {
    assert a !in n.voted ==> CommitVoteInvariant(c, n, a);
  }

  // Signing more takes nothing away

  lemma CertifiedGrows(c: Config, signed: iset<Atom>, more: iset<Atom>, e: Epoch, d: VoteData)
    requires signed <= more && Certified(c, signed, e, d)
    ensures Certified(c, more, e, d)
  {
    hide PowerOf;
    var q, li :| CertifiedBy(c, signed, e, d, q, li);
    assert CertifiedBy(c, more, e, d, q, li);
  }

  lemma TimedOutGrows(c: Config, signed: iset<Atom>, more: iset<Atom>, e: Epoch, round: Round, bound: Round,
                      higher: Round)
    requires signed <= more && RoundTimedOut(c, signed, e, round, bound) && bound <= higher
    ensures RoundTimedOut(c, more, e, round, higher)
  {
    hide PowerOf;
    var q :| TimedOutBy(c, signed, e, round, bound, q);
    assert TimedOutBy(c, more, e, round, higher, q);
  }

  lemma JustifiedGrows(c: Config, signed: iset<Atom>, more: iset<Atom>, li: LedgerInfo)
    requires signed <= more && VoteJustified(c, signed, li)
    ensures VoteJustified(c, more, li)
  {
    hide Certified, RoundTimedOut;
    var d := li.consensusDataHash.voteData;
    var e := d.proposed.epoch;
    if d.parent.round != 0 {
      var parent: VoteData :| parent.proposed == d.parent && Certified(c, signed, e, parent);
      CertifiedGrows(c, signed, more, e, parent);
    }
    if d.parent.round + 1 != d.proposed.round {
      TimedOutGrows(c, signed, more, e, d.proposed.round - 1, d.parent.round, d.parent.round);
    }
  }

  lemma CommitJustifiedGrows(c: Config, voted: iset<Atom>, more: iset<Atom>, li: LedgerInfo)
    requires voted <= more && CommitJustified(c, voted, li)
    ensures CommitJustified(c, more, li)
  {
    hide PowerOf;
    var d, q, ordered :| OrderedBy(c, voted, li, d, q, ordered);
    assert OrderedBy(c, more, li, d, q, ordered);
  }

  // Preservation

  predicate DataGrows(before: SafetyData, after: SafetyData) {
    before.epoch < after.epoch
    || (before.epoch == after.epoch && before.lastVotedRound <= after.lastVotedRound
        && before.oneChainRound <= after.oneChainRound)
  }

  /** Changing one validator's state and releasing at most one vote or timeout of it. */
  lemma UpdateKeeps(c: Config, n: Network, k: PublicKey, s: SafetyState, released: iset<Atom>)
    requires Invariant(c, n) && k in n.nodes && DataGrows(n.nodes[k].data, s.data)
    requires NodeInvariant(c, Network(n.nodes[k := s], n.signed + released, n.voted + released), k)
    requires forall a :: a in released ==>
      && a.key == k && Covered(s.data, a.message) && Compatible(a.message, a.message)
      && (a.message.LedgerInfoMessage? ==> VoteJustified(c, n.voted, a.message.ledgerInfo))
    requires forall a, b :: a in released && b in n.voted && b.key == k ==>
      Compatible(a.message, b.message) && Compatible(b.message, a.message)
    requires forall a, b :: a in released && b in released ==> a == b
    ensures Invariant(c, Network(n.nodes[k := s], n.signed + released, n.voted + released))
  {
    hide VoteJustified, Compatible, CommitJustified;
    var n' := Network(n.nodes[k := s], n.signed + released, n.voted + released);
    forall a | a in n'.voted ensures AtomInvariant(c, n', a) {
      if a in n.voted {
        assert AtomInvariant(c, n, a);
      }
      if a.message.LedgerInfoMessage? {
        JustifiedGrows(c, n.voted, n'.voted, a.message.ledgerInfo);
      }
    }
    forall a | a in n'.signed && a !in n'.voted ensures CommitVoteInvariant(c, n', a) {
      assert CommitVoteInvariant(c, n, a);
      CommitJustifiedGrows(c, n.voted, n'.voted, a.message.ledgerInfo);
    }
    forall j | j in n'.nodes ensures NodeInvariant(c, n', j) {
      if j != k {
        assert NodeInvariant(c, n, j);
      }
    }
  }

  lemma NoChangeKeeps(c: Config, n: Network, k: PublicKey, released: iset<Atom>)
    requires Invariant(c, n) && k in n.nodes && released <= n.voted
    ensures Invariant(c, Network(n.nodes[k := n.nodes[k]], n.signed + released, n.voted + released))
  {
    assert n.voted <= n.signed;
    hide Invariant;
    assert Network(n.nodes[k := n.nodes[k]], n.signed + released, n.voted + released) == n;
  }

  lemma FreshVoteJustified(c: Config, n: Network, step: Step)
    requires ValidConfig(c) && step.VoteStep? && step.key in n.nodes && FromBlockStore(c, n, step)
    requires Invariant(c, n)
    requires var s := n.nodes[step.key];
      SignVote(s, step.proposal, step.tc, step.stored).1.Ok?
      && (s.data.lastVote.None? || s.data.lastVote.value.Round() != step.proposal.block.round)
    ensures VoteJustified(c, n.voted,
                          SignVote(n.nodes[step.key], step.proposal, step.tc, step.stored).1.value.ledgerInfo)
  {
    hide QcVerifies, TcVerifies, Certified, RoundTimedOut;
    var s, b := n.nodes[step.key], step.proposal.block;
    assert NodeInvariant(c, n, step.key);
    FreshVote(s, step.proposal, step.tc, step.stored);
    RoundZeroParent(s, step.proposal, step.tc, step.stored);
    var d := SignVote(s, step.proposal, step.tc, step.stored).1.value.voteData;
    var e := d.proposed.epoch;
    if d.parent.round != 0 {
      QcCertifies(c, n, e, b.quorumCert);
    }
    if d.parent.round + 1 != d.proposed.round {
      TimeoutJustifies(c, n, step, d.parent.round, d.proposed.round);
    }
  }

  lemma TimeoutJustifies(c: Config, n: Network, step: Step, parentRound: Round, round: Round)
    requires ValidConfig(c) && Invariant(c, n) && step.VoteStep? && FromBlockStore(c, n, step)
    requires step.proposal.block.epoch in c.committees
    requires step.tc.Some? ==> TcVerifies(c.committees[step.proposal.block.epoch], step.tc.value)
    requires round == TcRound(step.tc) + 1 && parentRound >= TcHqcRound(step.tc)
    requires parentRound < round && parentRound + 1 != round
    ensures RoundTimedOut(c, n.voted, step.proposal.block.epoch, round - 1, parentRound)
  {
    hide TcVerifies, RoundTimedOut;
    TcTimesOut(c, n, step.proposal.block.epoch, step.tc.value);
    TimedOutGrows(c, n.voted, n.voted, step.proposal.block.epoch, round - 1, TcHqcRound(step.tc), parentRound);
  }

  lemma VoteStepKeeps(c: Config, n: Network, step: Step, n': Network)
    requires ValidConfig(c) && Invariant(c, n) && step.VoteStep? && Next(c, n, step, n')
    ensures Invariant(c, n')
  {
    hide VoteJustified, SignVote;
    var s := n.nodes[step.key];
    var (s', r) := SignVote(s, step.proposal, step.tc, step.stored);
    assert NodeInvariant(c, n, step.key);
    if r.Ok? && (s.data.lastVote.None? || s.data.lastVote.value.Round() != step.proposal.block.round) {
      FreshVote(s, step.proposal, step.tc, step.stored);
      FreshVoteJustified(c, n, step);
      FreshVoteKeeps(c, n, step.key, s', r.value);
    } else {
      RepeatedVote(s, step.proposal, step.tc, step.stored);
      NoChangeKeeps(c, n, step.key, if r.Ok? then AtomSet(r.value.signature.atoms) else iset{});
    }
  }

  lemma FreshVoteKeeps(c: Config, n: Network, k: PublicKey, s: SafetyState, vote: Vote)
    requires Invariant(c, n) && k in n.nodes
    requires var before := n.nodes[k].data;
      var d := vote.voteData;
      && s.signer == n.nodes[k].signer && s.epochState == n.nodes[k].epochState
      && s.data.epoch == before.epoch == d.proposed.epoch && s.data.lastVote == Some(vote)
      && before.lastVotedRound < d.proposed.round == s.data.lastVotedRound
      && s.data.oneChainRound >= before.oneChainRound && s.data.oneChainRound >= d.parent.round
      && vote.ledgerInfo.consensusDataHash == VoteDataHash(d)
      && vote.signature == Sign(k, LedgerInfoMessage(vote.ledgerInfo))
      && VoteJustified(c, n.voted, vote.ledgerInfo)
    ensures var more := AtomSet(vote.signature.atoms);
      Invariant(c, Network(n.nodes[k := s], n.signed + more, n.voted + more))
  {
    hide VoteJustified;
    var released := AtomSet(vote.signature.atoms);
    var a := Atom(k, LedgerInfoMessage(vote.ledgerInfo));
    assert released == iset{a};
    assert NodeInvariant(c, n, k);
    forall b | b in n.voted && b.key == k
      ensures Compatible(a.message, b.message) && Compatible(b.message, a.message)
    {
      assert AtomInvariant(c, n, b);
    }
    UpdateKeeps(c, n, k, s, released);
  }

  lemma TimeoutStepKeeps(c: Config, n: Network, step: Step, n': Network)
    requires ValidConfig(c) && Invariant(c, n) && step.TimeoutStep? && Next(c, n, step, n')
    ensures Invariant(c, n')
  {
    hide VoteJustified, SignTimeout;
    var k, s, t := step.key, n.nodes[step.key], step.timeout;
    var (s', r) := SignTimeout(s, t, step.tc, step.stored);
    assert NodeInvariant(c, n, k);
    if r.Ok? {
      SignedTimeout(s, t, step.tc, step.stored);
      var a := Atom(k, t.SigningFormat());
      assert AtomSet(r.value.atoms) == iset{a};
      forall b | b in n.voted && b.key == k
        ensures Compatible(a.message, b.message) && Compatible(b.message, a.message)
      {
        assert AtomInvariant(c, n, b);
      }
      UpdateKeeps(c, n, k, s', iset{a});
    } else {
      FailedTimeout(s, t, step.tc, step.stored);
      NoChangeKeeps(c, n, k, iset{});
      assert n.voted + iset{} == n.voted && n.signed + iset{} == n.signed;
    }
  }

  lemma FailedTimeout(s: SafetyState, t: TwoChainTimeout, tc: Option<TimeoutCert>, stored: bool)
    requires SignTimeout(s, t, tc, stored).1.Err?
    ensures SignTimeout(s, t, tc, stored).0 == s
  {
    hide QcVerifies, TcVerifies;
  }

  lemma EpochStepKeeps(c: Config, n: Network, step: Step, n': Network)
    requires ValidConfig(c) && Invariant(c, n) && step.EpochStep? && Next(c, n, step, n')
    ensures Invariant(c, n')
  {
    hide VoteJustified, CommitJustified, Compatible;
    assert NodeInvariant(c, n, step.key);
    assert n.voted + iset{} == n.voted && n.signed + iset{} == n.signed;
    UpdateKeeps(c, n, step.key, n'.nodes[step.key], iset{});
  }

  /** What a quorum of the epoch signed as ordered was ordered by votes. */
  lemma OrderedIsVoted(c: Config, n: Network, e: Epoch, q: set<Author>, li: LedgerInfo)
    requires ValidConfig(c) && Invariant(c, n) && QuorumSigned(c, n.signed, e, q, LedgerInfoMessage(li))
    requires li.commitInfo.IsOrderedOnly() && li.commitInfo.epoch == e
    ensures CommitJustified(c, n.voted, li)
  {
    hide PowerOf, ParentCertified, RoundTimedOut, WellFormed, SuperMajority, FaultBound;
    var i := HonestInBoth(c.committees[e], c.honest, q, q);
    var a := Atom(c.committees[e].infos[i].publicKey, LedgerInfoMessage(li));
    assert a in n.signed;
    if a in n.voted {
      assert AtomInvariant(c, n, a);
      var d := li.consensusDataHash.voteData;
      assert CertifiedBy(c, n.signed, e, d, q, li);
      var q', ordered := SignedIsVoted(c, n, e, d, q, li);
      assert OrderedBy(c, n.voted, li, d, q', ordered);
    } else {
      assert CommitVoteInvariant(c, n, a);
    }
  }

  lemma MatchIsTransitive(a: BlockInfo, b: BlockInfo, d: BlockInfo)
    requires MatchOrderedOnly(a, b) && MatchOrderedOnly(b, d) && b.nextEpochState.None?
    ensures MatchOrderedOnly(a, d)
  {
  }

  lemma CommitStepKeeps(c: Config, n: Network, step: Step, n': Network)
    requires ValidConfig(c) && Invariant(c, n) && step.CommitStep? && Next(c, n, step, n')
    ensures Invariant(c, n')
  {
    var k, li := step.key, step.ordered.ledgerInfo;
    var r := SignCommitVote(n.nodes[k], step.ordered, step.executed);
    assert NodeInvariant(c, n, k);
    if r.Ok? {
      CommitVoteJustified(c, n, step);
      CommitVoteKeeps(c, n, Atom(k, LedgerInfoMessage(step.executed)));
      assert AtomSet(r.value.atoms) == iset{Atom(k, LedgerInfoMessage(step.executed))} by {
        hide Invariant, CommitJustified;
      }
    }
  }

  lemma CommitVoteJustified(c: Config, n: Network, step: Step)
    requires ValidConfig(c) && Invariant(c, n) && step.CommitStep? && step.key in n.nodes
    requires FromBufferManager(c, n, step)
    requires SignCommitVote(n.nodes[step.key], step.ordered, step.executed).Ok?
    ensures CommitJustified(c, n.voted, step.executed)
    ensures SignCommitVote(n.nodes[step.key], step.ordered, step.executed).value
         == Sign(step.key, LedgerInfoMessage(step.executed))
    ensures step.executed.commitInfo.round > 0
  {
    hide MultiSignatureVerdict, CertifiedBy, VoteJustified;
    var s, li := n.nodes[step.key], step.ordered.ledgerInfo;
    var e := s.data.epoch;
    assert NodeInvariant(c, n, step.key);
    VerifiedIsQuorumSigned(c, n, e, step.ordered);
    OrderedIsVoted(c, n, e, Voters(c.committees[e], step.ordered.signatures.bitmask), li);
    var d, q, ordered :| OrderedBy(c, n.voted, li, d, q, ordered);
    MatchIsTransitive(ordered.commitInfo, li.commitInfo, step.executed.commitInfo);
    assert OrderedBy(c, n.voted, step.executed, d, q, ordered);
  }

  lemma CommitVoteKeeps(c: Config, n: Network, a: Atom)
    requires Invariant(c, n) && CommitVoteInvariant(c, n, a)
    ensures Invariant(c, n.(signed := n.signed + iset{a}))
  {
    hide VoteJustified, Compatible, CommitJustified;
    var n' := n.(signed := n.signed + iset{a});
    forall b | b in n'.voted ensures AtomInvariant(c, n', b) {
      assert AtomInvariant(c, n, b);
    }
    forall b | b in n'.signed && b !in n'.voted ensures CommitVoteInvariant(c, n', b) {
      assert b != a ==> CommitVoteInvariant(c, n, b);
    }
    forall j | j in n'.nodes ensures NodeInvariant(c, n', j) {
      assert NodeInvariant(c, n, j);
    }
  }

  lemma {:induction false} RunInvariant(c: Config, trace: seq<Network>, steps: seq<Step>, i: nat)
    requires ValidConfig(c) && IsRun(c, trace, steps) && i < |trace|
    ensures Invariant(c, trace[i])
  {
    hide Invariant, Next, ValidConfig;
    if i == 0 {
      InitialInvariant(c, trace[0]);
    } else {
      RunInvariant(c, trace, steps, i - 1);
      var step := steps[i - 1];
      assert Next(c, trace[i - 1], step, trace[i - 1 + 1]);
      match step
      case VoteStep(_, _, _, _) => VoteStepKeeps(c, trace[i - 1], step, trace[i]);
      case TimeoutStep(_, _, _, _) => TimeoutStepKeeps(c, trace[i - 1], step, trace[i]);
      case CommitStep(_, _, _) => CommitStepKeeps(c, trace[i - 1], step, trace[i]);
      case EpochStep(_, _) => EpochStepKeeps(c, trace[i - 1], step, trace[i]);
    }
  }

  lemma InitialInvariant(c: Config, n: Network)
    requires Initial(c, n)
    ensures Invariant(c, n)
  {
  }

  // Agreement

  lemma HonestSigner(c: Config, n: Network, e: Epoch, d: VoteData, q: set<Author>,
                     li: LedgerInfo) returns (k: PublicKey)
    requires ValidConfig(c) && CertifiedBy(c, n.voted, e, d, q, li)
    ensures Atom(k, LedgerInfoMessage(li)) in n.voted
  {
    var i := HonestInBoth(c.committees[e], c.honest, q, q);
    k := c.committees[e].infos[i].publicKey;
  }

  /** A certified block was voted for under the rules. */
  lemma CertifiedIsJustified(c: Config, n: Network, e: Epoch, d: VoteData, q: set<Author>, li: LedgerInfo)
    requires ValidConfig(c) && Invariant(c, n) && CertifiedBy(c, n.voted, e, d, q, li)
    ensures VoteJustified(c, n.voted, li) && li.consensusDataHash.voteData == d
  {
    hide VoteJustified, ValidConfig;
    var k := HonestSigner(c, n, e, d, q, li);
    assert AtomInvariant(c, n, Atom(k, LedgerInfoMessage(li)));
  }

  /** Votes certify at most one ledger info per round. */
  lemma OneLedgerInfoPerRound(c: Config, n: Network, e: Epoch, d1: VoteData, q1: set<Author>, li1: LedgerInfo,
                              d2: VoteData, q2: set<Author>, li2: LedgerInfo)
    requires ValidConfig(c) && Invariant(c, n) && d1.proposed.round == d2.proposed.round
    requires CertifiedBy(c, n.voted, e, d1, q1, li1) && CertifiedBy(c, n.voted, e, d2, q2, li2)
    ensures li1 == li2
  {
    hide PowerOf, VoteJustified;
    var i := HonestInBoth(c.committees[e], c.honest, q1, q2);
    var k := c.committees[e].infos[i].publicKey;
    var a, b := Atom(k, LedgerInfoMessage(li1)), Atom(k, LedgerInfoMessage(li2));
    assert a in n.voted && b in n.voted;
    assert Compatible(a.message, b.message);
  }

  /** At most one block is certified per round. */
  lemma OneBlockPerRound(c: Config, n: Network, e: Epoch, d1: VoteData, d2: VoteData)
    requires ValidConfig(c) && Invariant(c, n)
    requires Certified(c, n.voted, e, d1) && Certified(c, n.voted, e, d2)
    requires d1.proposed.round == d2.proposed.round
    ensures d1 == d2
  {
    hide PowerOf, Invariant, ValidConfig;
    var q1, li1 :| CertifiedBy(c, n.voted, e, d1, q1, li1);
    var q2, li2 :| CertifiedBy(c, n.voted, e, d2, q2, li2);
    OneLedgerInfoPerRound(c, n, e, d1, q1, li1, d2, q2, li2);
  }

  /** `b` has `a` as an ancestor, through certified blocks. */
  ghost predicate Extends(c: Config, n: Network, e: Epoch, b: BlockInfo, a: BlockInfo)
    decreases b.round
  {
    b == a || exists d: VoteData :: Link(c, n, e, d, b) && Extends(c, n, e, d.parent, a)
  }

  ghost predicate Link(c: Config, n: Network, e: Epoch, d: VoteData, b: BlockInfo) {
    Certified(c, n.voted, e, d) && d.proposed == b && d.parent.round < b.round
  }

  /** A later vote on a timeout certificate respects the vote of a committing round. */
  lemma TimeoutRespectsCommit(c: Config, n: Network, e: Epoch, commit: VoteData, round: Round, bound: Round)
    requires ValidConfig(c) && Invariant(c, n) && Certified(c, n.voted, e, commit)
    requires RoundTimedOut(c, n.voted, e, round, bound) && round >= commit.proposed.round
    ensures bound >= commit.parent.round
  {
    hide PowerOf, VoteJustified;
    var q1, li :| CertifiedBy(c, n.voted, e, commit, q1, li);
    var q2 :| TimedOutBy(c, n.voted, e, round, bound, q2);
    var i := HonestInBoth(c.committees[e], c.honest, q1, q2);
    var k := c.committees[e].infos[i].publicKey;
    var h: Round :| h <= bound && Atom(k, TimeoutMessage(e, round, h)) in n.voted;
    assert Compatible(LedgerInfoMessage(li), TimeoutMessage(e, round, h)) by {
      var a, b := Atom(k, LedgerInfoMessage(li)), Atom(k, TimeoutMessage(e, round, h));
      assert a in n.voted && b in n.voted;
    }
  }

  /** Facts about a certified block, from the rules its honest voters followed. */
  lemma CertifiedFacts(c: Config, n: Network, e: Epoch, d: VoteData)
    requires ValidConfig(c) && Invariant(c, n) && Certified(c, n.voted, e, d)
    ensures d.parent.round < d.proposed.round && ParentCertified(c, n.voted, e, d.parent)
    ensures d.parent.round + 1 == d.proposed.round
         || RoundTimedOut(c, n.voted, e, d.proposed.round - 1, d.parent.round)
  {
    hide CertifiedBy, ParentCertified, RoundTimedOut, Invariant, ValidConfig;
    var q, li :| CertifiedBy(c, n.voted, e, d, q, li);
    CertifiedIsJustified(c, n, e, d, q, li);
    CertifiedEpoch(c, n, e, d, q, li);
  }

  lemma CertifiedEpoch(c: Config, n: Network, e: Epoch, d: VoteData, q: set<Author>, li: LedgerInfo)
    requires CertifiedBy(c, n.voted, e, d, q, li)
    ensures d.proposed.epoch == e
  {
  }

  /** Once a block above round 0 is committed by a certified child in the next round, every certified block
      of the same or a later round extends it. */
  lemma {:induction false} LaterExtendsCommitted(c: Config, n: Network, e: Epoch, commit: VoteData, d: VoteData)
    requires ValidConfig(c) && Invariant(c, n)
    requires Certified(c, n.voted, e, commit) && 0 < commit.parent.round
    requires commit.parent.round + 1 == commit.proposed.round
    requires Certified(c, n.voted, e, d) && d.proposed.round >= commit.parent.round
    ensures Extends(c, n, e, d.proposed, commit.parent)
    decreases d.proposed.round
  {
    hide Invariant, ValidConfig, Certified, RoundTimedOut;
    CertifiedFacts(c, n, e, commit);
    CertifiedFacts(c, n, e, d);
    if d.proposed.round == commit.parent.round {
      var p: VoteData :| p.proposed == commit.parent && Certified(c, n.voted, e, p);
      OneBlockPerRound(c, n, e, p, d);
    } else {
      assert Link(c, n, e, d, d.proposed);
      if d.proposed.round == commit.proposed.round {
        OneBlockPerRound(c, n, e, commit, d);
      } else {
        if d.parent.round + 1 != d.proposed.round {
          TimeoutRespectsCommit(c, n, e, commit, d.proposed.round - 1, d.parent.round);
        }
        ParentExtends(c, n, e, commit, d.parent, d);
      }
    }
  }

  lemma {:induction false} ParentExtends(c: Config, n: Network, e: Epoch, commit: VoteData, parent: BlockInfo,
                                         d: VoteData)
    requires ValidConfig(c) && Invariant(c, n)
    requires Certified(c, n.voted, e, commit) && 0 < commit.parent.round
    requires commit.parent.round + 1 == commit.proposed.round
    requires ParentCertified(c, n.voted, e, parent) && commit.parent.round <= parent.round < d.proposed.round
    ensures Extends(c, n, e, parent, commit.parent)
    decreases d.proposed.round, 0
  {
    hide Invariant, ValidConfig, Certified;
    var p: VoteData :| p.proposed == parent && Certified(c, n.voted, e, p);
    LaterExtendsCommitted(c, n, e, commit, p);
  }

  /** A quorum certificate that commits its parent: verified, unforged, of consecutive rounds. */
  ghost predicate Commits(c: Config, n: Network, e: Epoch, qc: QuorumCert) {
    && e in c.committees && QcVerifies(c.committees[e], qc) && UnforgedQc(c, n, qc)
    && qc.Certified().epoch == e && qc.Parent().round + 1 == qc.Certified().round
  }

  /** `info` is the block as voted for or, if that was ordered only, the block after execution. */
  predicate Realizes(ordered: BlockInfo, info: BlockInfo) {
    info == ordered || (ordered.IsOrderedOnly() && MatchOrderedOnly(ordered, info))
  }

  /** What a certificate commits, as written in its ledger info, is the parent block if the rounds are
      consecutive, and nothing otherwise. */
  lemma CommitInfoIsParent(c: Config, n: Network, e: Epoch, qc: QuorumCert)
    requires ValidConfig(c) && Invariant(c, n) && e in c.committees
    requires QcVerifies(c.committees[e], qc) && UnforgedQc(c, n, qc)
    requires qc.Certified().epoch == e && qc.Certified().round != 0
    ensures if qc.Parent().round + 1 == qc.Certified().round then Realizes(qc.Parent(), qc.CommitInfo())
            else qc.CommitInfo() == EMPTY_BLOCK_INFO
  {
    hide QcVerifies, Invariant, ValidConfig, QuorumSigned, ParentCertified, RoundTimedOut, Unforged;
    QcSigned(c, n, e, qc);
    var q, ordered := SignedIsVoted(c, n, e, qc.voteData,
                                    Voters(c.committees[e], qc.signedLedgerInfo.signatures.bitmask),
                                    qc.signedLedgerInfo.ledgerInfo);
    CertifiedIsJustified(c, n, e, qc.voteData, q, ordered);
  }

  lemma HigherExtendsLower(c: Config, n: Network, e: Epoch, low: QuorumCert, high: QuorumCert)
    requires ValidConfig(c) && Invariant(c, n) && Commits(c, n, e, low) && Commits(c, n, e, high)
    requires 0 < low.Parent().round <= high.Parent().round
    ensures Extends(c, n, e, high.Parent(), low.Parent())
  {
    hide QcVerifies, Invariant, ValidConfig, Certified, Unforged;
    QcCertifies(c, n, e, low);
    QcCertifies(c, n, e, high);
    CertifiedFacts(c, n, e, high.voteData);
    ParentExtends(c, n, e, low.voteData, high.Parent(), high.voteData);
  }

  lemma StepSignsMore(c: Config, n: Network, step: Step, n': Network)
    requires Next(c, n, step, n')
    ensures n.signed <= n'.signed && n.voted <= n'.voted
  {
    hide SignVote, SignTimeout, SignCommitVote, FromBlockStore, FromBufferManager;
  }

  lemma {:induction false} RunSignsMore(c: Config, trace: seq<Network>, steps: seq<Step>, i: nat, j: nat)
    requires IsRun(c, trace, steps) && i <= j < |trace|
    ensures trace[i].signed <= trace[j].signed && trace[i].voted <= trace[j].voted
    decreases j
  {
    hide Next;
    if i < j {
      RunSignsMore(c, trace, steps, i, j - 1);
      assert Next(c, trace[j - 1], steps[j - 1], trace[j - 1 + 1]);
      StepSignsMore(c, trace[j - 1], steps[j - 1], trace[j]);
    }
  }

  /** The blocks behind two committed infos are on one branch. */
  ghost predicate OneBranch(c: Config, n: Network, e: Epoch, a: BlockInfo, b: BlockInfo) {
    Extends(c, n, e, a, b) || Extends(c, n, e, b, a)
  }

  /** Commit safety: in every run, two certificates of an epoch, of votes or of commit votes, whenever they
      appear, commit blocks one of which extends the other, if both are above round 0; and if both are of
      round 0 they are the same. */
  lemma CommitSafety(c: Config, trace: seq<Network>, steps: seq<Step>, e: Epoch,
                     i: nat, qc1: QuorumCert, j: nat, qc2: QuorumCert)
    requires ValidConfig(c) && IsRun(c, trace, steps) && i < |trace| && j < |trace|
    requires Commits(c, trace[i], e, qc1) && Commits(c, trace[j], e, qc2)
    ensures Realizes(qc1.Parent(), qc1.CommitInfo()) && Realizes(qc2.Parent(), qc2.CommitInfo())
    ensures (qc1.Parent().round == 0 <==> qc2.Parent().round == 0) ==>
      OneBranch(c, trace[|trace| - 1], e, qc1.Parent(), qc2.Parent())
    ensures qc1.Parent().round == 0 == qc2.Parent().round ==> qc1.Parent() == qc2.Parent()
  {
    hide QcVerifies, Invariant, ValidConfig, Extends, IsRun, Realizes, Certified;
    var last := |trace| - 1;
    CommitsLater(c, trace, steps, e, i, qc1);
    CommitsLater(c, trace, steps, e, j, qc2);
    RunInvariant(c, trace, steps, last);
    CommitInfoIsParent(c, trace[last], e, qc1);
    CommitInfoIsParent(c, trace[last], e, qc2);
    if qc1.Parent().round == 0 && qc2.Parent().round == 0 {
      QcCertifies(c, trace[last], e, qc1);
      QcCertifies(c, trace[last], e, qc2);
      OneBlockPerRound(c, trace[last], e, qc1.voteData, qc2.voteData);
      ExtendsItself(c, trace[last], e, qc1.Parent());
    } else if 0 < qc1.Parent().round <= qc2.Parent().round {
      HigherExtendsLower(c, trace[last], e, qc1, qc2);
    } else if 0 < qc2.Parent().round <= qc1.Parent().round {
      HigherExtendsLower(c, trace[last], e, qc2, qc1);
    }
  }

  lemma CommitsLater(c: Config, trace: seq<Network>, steps: seq<Step>, e: Epoch, i: nat, qc: QuorumCert)
    requires IsRun(c, trace, steps) && i < |trace| && Commits(c, trace[i], e, qc)
    ensures Commits(c, trace[|trace| - 1], e, qc)
  {
    hide QcVerifies, IsRun;
    RunSignsMore(c, trace, steps, i, |trace| - 1);
  }

  lemma ExtendsItself(c: Config, n: Network, e: Epoch, b: BlockInfo)
    ensures Extends(c, n, e, b, b)
  {
  }

  /** Certified blocks on round 0 name one parent, as they do if they come from block stores with one root. */
  ghost predicate OneGenesisId(c: Config, n: Network, e: Epoch, id: HashValue) {
    forall d :: Certified(c, n.voted, e, d) && d.parent.round == 0 ==> d.parent.id == id
  }

  /** The round-0 info at the bottom of a certified chain. */
  lemma {:induction false} BaseOf(c: Config, n: Network, e: Epoch, b: BlockInfo) returns (base: BlockInfo)
    requires ValidConfig(c) && Invariant(c, n) && ParentCertified(c, n.voted, e, b)
    ensures base.round == 0 && Extends(c, n, e, b, base)
    ensures b.round > 0 ==> forall id :: OneGenesisId(c, n, e, id) ==> base.id == id
    decreases b.round
  {
    hide Invariant, ValidConfig, Certified;
    if b.round == 0 {
      base := b;
    } else {
      var d: VoteData :| d.proposed == b && Certified(c, n.voted, e, d);
      CertifiedFacts(c, n, e, d);
      base := BaseOf(c, n, e, d.parent);
      assert Link(c, n, e, d, b);
    }
  }

  /** A committed info of round 0 and a committed block above it are on one branch exactly when that info is
      what the block's chain of certificates starts from.  By id it always is, if there is one genesis. */
  lemma RoundZeroCommitIff(c: Config, trace: seq<Network>, steps: seq<Step>, e: Epoch,
                           i: nat, low: QuorumCert, j: nat, high: QuorumCert)
    returns (base: BlockInfo)
    requires ValidConfig(c) && IsRun(c, trace, steps) && i < |trace| && j < |trace|
    requires Commits(c, trace[i], e, low) && Commits(c, trace[j], e, high)
    requires low.Parent().round == 0 < high.Parent().round
    ensures base.round == 0 && Extends(c, trace[|trace| - 1], e, high.Parent(), base)
    ensures OneBranch(c, trace[|trace| - 1], e, low.Parent(), high.Parent()) <==> base == low.Parent()
    ensures OneGenesisId(c, trace[|trace| - 1], e, low.Parent().id) ==> base.id == low.Parent().id
  {
    hide QcVerifies, Invariant, ValidConfig, IsRun, Certified, Extends;
    var n := trace[|trace| - 1];
    CommitsLater(c, trace, steps, e, j, high);
    RunInvariant(c, trace, steps, |trace| - 1);
    QcCertifies(c, n, e, high);
    CertifiedFacts(c, n, e, high.voteData);
    base := BaseOf(c, n, e, high.Parent());
    if Extends(c, n, e, low.Parent(), high.Parent()) {
      ExtendsDescends(c, n, e, low.Parent(), high.Parent());
    }
    if Extends(c, n, e, high.Parent(), low.Parent()) {
      AncestorsAreOrdered(c, n, e, high.Parent(), base, low.Parent());
      SameRoundExtends(c, n, e, base, low.Parent());
    }
  }

  lemma SameRoundExtends(c: Config, n: Network, e: Epoch, a: BlockInfo, b: BlockInfo)
    requires OneBranch(c, n, e, a, b) && a.round == b.round
    ensures a == b
  {
    hide Extends;
    if Extends(c, n, e, a, b) {
      ExtendsDescends(c, n, e, a, b);
    } else {
      ExtendsDescends(c, n, e, b, a);
    }
  }

  lemma ExtendsDescends(c: Config, n: Network, e: Epoch, b: BlockInfo, a: BlockInfo)
    requires Extends(c, n, e, b, a)
    ensures b == a || a.round < b.round
    decreases b.round
  {
    if b != a {
      var d: VoteData :| Link(c, n, e, d, b) && Extends(c, n, e, d.parent, a);
      ExtendsDescends(c, n, e, d.parent, a);
    }
  }

  /** In particular, what is committed in one round is one block, before or after execution. */
  lemma OneCommitPerRound(c: Config, trace: seq<Network>, steps: seq<Step>, e: Epoch,
                          i: nat, qc1: QuorumCert, j: nat, qc2: QuorumCert)
    requires ValidConfig(c) && IsRun(c, trace, steps) && i < |trace| && j < |trace|
    requires Commits(c, trace[i], e, qc1) && Commits(c, trace[j], e, qc2)
    requires qc1.CommitInfo().round == qc2.CommitInfo().round
    ensures qc1.Parent() == qc2.Parent() && qc1.CommitInfo().id == qc2.CommitInfo().id
    ensures qc1.CommitInfo().nextEpochState.None? && qc2.CommitInfo().nextEpochState.None? ==>
      qc1.CommitInfo().timestamp == qc2.CommitInfo().timestamp
  {
    hide IsRun, ValidConfig, Commits, OneBranch;
    CommitSafety(c, trace, steps, e, i, qc1, j, qc2);
    if qc1.Parent().round > 0 {
      SameRoundExtends(c, trace[|trace| - 1], e, qc1.Parent(), qc2.Parent());
    }
  }

  /** The ancestors of a block form a chain, so committed blocks are totally ordered. */
  lemma {:induction false} AncestorsAreOrdered(c: Config, n: Network, e: Epoch, b: BlockInfo, a1: BlockInfo,
                                               a2: BlockInfo)
    requires ValidConfig(c) && Invariant(c, n)
    requires Extends(c, n, e, b, a1) && Extends(c, n, e, b, a2)
    ensures Extends(c, n, e, a1, a2) || Extends(c, n, e, a2, a1)
    decreases b.round
  {
    hide Invariant, ValidConfig, Certified;
    if b != a1 && b != a2 {
      var d1: VoteData :| Link(c, n, e, d1, b) && Extends(c, n, e, d1.parent, a1);
      var d2: VoteData :| Link(c, n, e, d2, b) && Extends(c, n, e, d2.parent, a2);
      OneBlockPerRound(c, n, e, d1, d2);
      AncestorsAreOrdered(c, n, e, d1.parent, a1, a2);
    }
  }
}
