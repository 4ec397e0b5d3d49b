/** The two-chain voting rules of one validator (`consensus/safety-rules`). */
module TwoChainRules {
  import opened Types
  import opened MultiSignatures
  import opened Certificates

  datatype SafetyData = SafetyData(
    epoch: Epoch,
    lastVotedRound: Round,
    preferredRound: Round,
    oneChainRound: Round,
    lastVote: Option<Vote>)

  datatype Signer = Signer(author: Author, key: PublicKey)

  datatype Block = Block(epoch: Epoch, round: Round, id: HashValue, timestamp: nat, quorumCert: QuorumCert)

  datatype Executed = Executed(stateId: HashValue, version: Version)

  /** A proposal.  `executed` is what the accumulator extension proof yields, if it verifies, and is not
      looked at when execution is decoupled from ordering; `otherChecks` stands for the checks on
      signature, payload, timestamps and failed authors. */
  datatype VoteProposal = VoteProposal(
    block: Block,
    decoupled: bool,
    executed: Option<Executed>,
    nextEpochState: Option<EpochState>,
    otherChecks: bool)

  datatype Error =
    | NotInitialized
    | IncorrectEpoch(got: Epoch, expected: Epoch)
    | InvalidQuorumCertificate
    | InvalidProposal
    | InvalidAccumulatorExtension
    | InvalidTimeout
    | InvalidTimeoutCertificate
    | IncorrectLastVotedRound(round: Round, lastVotedRound: Round)
    | IncorrectRound(round: Round)
    | NotSafeToVote(round: Round, qcRound: Round, tcRound: Round, hqcRound: Round)
    | NotSafeToTimeout(round: Round, qcRound: Round, tcRound: Round, oneChainRound: Round)
    | InvalidOrderedLedgerInfo
    | InconsistentExecutionResult
    | StorageError

  datatype SafetyState = SafetyState(data: SafetyData, signer: Option<Signer>, epochState: Option<EpochState>)

  /** `next_round`: checked u64 increment. */
  function NextRound(round: Round): Result<Round, Error> {
    if round >= U64_MAX then Err(IncorrectRound(round)) else Ok(round + 1)
  }

  function TcRound(tc: Option<TimeoutCert>): Round {
    if tc.Some? then tc.value.timeout.round else 0
  }

  function TcHqcRound(tc: Option<TimeoutCert>): Round {
    if tc.Some? then tc.value.timeout.HqcRound() else 0
  }

  function SafeToVote(block: Block, tc: Option<TimeoutCert>): Result<(), Error> {
    var qcRound := block.quorumCert.Certified().round;
    var afterQc := NextRound(qcRound);
    if afterQc.Err? then Err(afterQc.error)
    else if block.round == afterQc.value then Ok(())
    else
      var afterTc := NextRound(TcRound(tc));
      if afterTc.Err? then Err(afterTc.error)
      else if block.round == afterTc.value && qcRound >= TcHqcRound(tc) then Ok(())
      else Err(NotSafeToVote(block.round, qcRound, TcRound(tc), TcHqcRound(tc)))
  }

  function SafeToTimeout(t: TwoChainTimeout, tc: Option<TimeoutCert>, data: SafetyData): Result<(), Error> {
    var afterQc, afterTc := NextRound(t.HqcRound()), NextRound(TcRound(tc));
    if afterQc.Err? then Err(afterQc.error)
    else if t.round != afterQc.value && afterTc.Err? then Err(afterTc.error)
    else if (t.round == afterQc.value || t.round == afterTc.value) && t.HqcRound() >= data.oneChainRound then Ok(())
    else Err(NotSafeToTimeout(t.round, t.HqcRound(), TcRound(tc), data.oneChainRound))
  }

  function Max(a: Round, b: Round): Round {
    if a > b then a else b
  }

  function ObserveQc(qc: QuorumCert, data: SafetyData): SafetyData {
    data.(oneChainRound := Max(qc.Certified().round, data.oneChainRound),
          preferredRound := Max(qc.Parent().round, data.preferredRound))
  }

  predicate WellFormedBlock(block: Block) {
    var parent := block.quorumCert.Certified();
    && parent.round < block.round
    && parent.epoch == block.epoch
    && !block.quorumCert.signedLedgerInfo.ledgerInfo.EndsEpoch()
  }

  /** `verify_proposal`: the vote data to sign, or why there is none. */
  function VerifyProposal(s: SafetyState, p: VoteProposal): Result<VoteData, Error> {
    var b := p.block;
    if b.epoch != s.data.epoch then Err(IncorrectEpoch(b.epoch, s.data.epoch))
    else if s.epochState.None? then Err(NotInitialized)
    else if !QcVerifies(s.epochState.value.verifier, b.quorumCert) then Err(InvalidQuorumCertificate)
    else if !p.otherChecks || !WellFormedBlock(b) then Err(InvalidProposal)
    else if !p.decoupled && p.executed.None? then Err(InvalidAccumulatorExtension)
    else
      var x := if p.decoupled then Executed(AccumulatorPlaceholder, 0) else p.executed.value;
      Ok(VoteData(BlockInfo(b.epoch, b.round, b.id, x.stateId, x.version, b.timestamp, p.nextEpochState),
                  b.quorumCert.Certified()))
  }

  predicate TcAccepted(s: SafetyState, tc: Option<TimeoutCert>)
    requires s.epochState.Some?
  {
    tc.Some? ==> TcVerifies(s.epochState.value.verifier, tc.value)
  }

  /** The two-chain rule: a vote for a child in the next round commits the parent. */
  function TwoChainLedgerInfo(block: Block, consensusDataHash: HashValue): Result<LedgerInfo, Error> {
    var parent := block.quorumCert.Certified();
    var next := NextRound(parent.round);
    if next.Err? then Err(next.error)
    else Ok(LedgerInfo(if next.value == block.round then parent else EMPTY_BLOCK_INFO, consensusDataHash))
  }

  /** `guarded_construct_and_sign_vote_two_chain`; `stored` says whether persisting succeeded. */
  function SignVote(s: SafetyState, p: VoteProposal, tc: Option<TimeoutCert>, stored: bool)
    : (SafetyState, Result<Vote, Error>)
  {
    if s.signer.None? then (s, Err(NotInitialized))
    else
      var voteData := VerifyProposal(s, p);
      if voteData.Err? then (s, Err(voteData.error))
      else if !TcAccepted(s, tc) then (s, Err(InvalidTimeoutCertificate))
      else if s.data.lastVote.Some? && s.data.lastVote.value.Round() == p.block.round then
        (s, Ok(s.data.lastVote.value))
      else if p.block.round <= s.data.lastVotedRound then
        (s, Err(IncorrectLastVotedRound(p.block.round, s.data.lastVotedRound)))
      else
        var safe := SafeToVote(p.block, tc);
        if safe.Err? then (s, Err(safe.error))
        else
          var li := TwoChainLedgerInfo(p.block, VoteDataHash(voteData.value));
          if li.Err? then (s, Err(li.error))
          else if !stored then (s, Err(StorageError))
          else
            var vote := Vote(voteData.value, s.signer.value.author, li.value,
                             Sign(s.signer.value.key, LedgerInfoMessage(li.value)), None);
            var data := ObserveQc(p.block.quorumCert, s.data.(lastVotedRound := p.block.round));
            (s.(data := data.(lastVote := Some(vote))), Ok(vote))
  }

  /** `guarded_sign_timeout_with_qc`. */
  function SignTimeout(s: SafetyState, t: TwoChainTimeout, tc: Option<TimeoutCert>, stored: bool)
    : (SafetyState, Result<Signature, Error>)
  {
    if s.signer.None? then (s, Err(NotInitialized))
    else if t.epoch != s.data.epoch then (s, Err(IncorrectEpoch(t.epoch, s.data.epoch)))
    else if s.epochState.None? then (s, Err(NotInitialized))
    else if !TimeoutVerifies(s.epochState.value.verifier, t) then (s, Err(InvalidTimeout))
    else if !TcAccepted(s, tc) then (s, Err(InvalidTimeoutCertificate))
    else
      var safe := SafeToTimeout(t, tc, s.data);
      if safe.Err? then (s, Err(safe.error))
      else if t.round < s.data.lastVotedRound then (s, Err(IncorrectLastVotedRound(t.round, s.data.lastVotedRound)))
      else if t.round > s.data.lastVotedRound && !stored then (s, Err(StorageError))
      else (s.(data := s.data.(lastVotedRound := t.round)), Ok(Sign(s.signer.value.key, t.SigningFormat())))
  }

  /** `guarded_sign_commit_vote`: after execution, sign `executed` for what a quorum ordered. */
  function SignCommitVote(s: SafetyState, ordered: LedgerInfoWithSignatures, executed: LedgerInfo)
    : Result<Signature, Error>
  {
    var info, message := ordered.ledgerInfo.commitInfo, LedgerInfoMessage(ordered.ledgerInfo);
    if s.signer.None? then Err(NotInitialized)
    else if !info.IsOrderedOnly() then Err(InvalidOrderedLedgerInfo)
    else if !MatchOrderedOnly(info, executed.commitInfo) then Err(InconsistentExecutionResult)
    else if s.epochState.None? then Err(NotInitialized)
    else if MultiSignatureVerdict(s.epochState.value.verifier, message, ordered.signatures).Err? then
      Err(InvalidQuorumCertificate)
    else Ok(Sign(s.signer.value.key, LedgerInfoMessage(executed)))
  }

  /** The epoch part of `guarded_initialize`: safety data restarts only in a later epoch. */
  function StartEpoch(s: SafetyState, e: EpochState): SafetyState {
    if s.data.epoch > e.epoch then s
    else if s.data.epoch < e.epoch then
      s.(data := SafetyData(e.epoch, 0, 0, 0, None), epochState := Some(e))
    else s.(epochState := Some(e))
  }

  class SafetyRules {
    var data: SafetyData // as persisted
    var signer: Option<Signer>
    var epochState: Option<EpochState>

    function State(): SafetyState
      reads this
    {
      SafetyState(data, signer, epochState)
    }

    constructor (epoch: Epoch, signer: Option<Signer>)
      ensures State() == SafetyState(SafetyData(epoch, 0, 0, 0, None), signer, None)
    {
      this.data, this.signer, this.epochState := SafetyData(epoch, 0, 0, 0, None), signer, None;
    }

    method ConstructAndSignVote(p: VoteProposal, tc: Option<TimeoutCert>, stored: bool)
      returns (r: Result<Vote, Error>)
      modifies this`data
      ensures (State(), r) == SignVote(old(State()), p, tc, stored)
    {
      hide QcVerifies, TcVerifies;
      if signer.None? {
        return Err(NotInitialized);
      }
      var voteData := VerifyProposal(State(), p);
      if voteData.Err? {
        return Err(voteData.error);
      }
      if tc.Some? && !TcVerifies(epochState.value.verifier, tc.value) {
        return Err(InvalidTimeoutCertificate);
      }
      var next := data;
      if next.lastVote.Some? && next.lastVote.value.Round() == p.block.round {
        return Ok(next.lastVote.value);
      }
      if p.block.round <= next.lastVotedRound {
        return Err(IncorrectLastVotedRound(p.block.round, next.lastVotedRound));
      }
      next := next.(lastVotedRound := p.block.round);
      var safe := SafeToVote(p.block, tc);
      if safe.Err? {
        return Err(safe.error);
      }
      next := ObserveQc(p.block.quorumCert, next);
      var li := TwoChainLedgerInfo(p.block, VoteDataHash(voteData.value));
      if li.Err? {
        return Err(li.error);
      }
      var vote := Vote(voteData.value, signer.value.author, li.value,
                       Sign(signer.value.key, LedgerInfoMessage(li.value)), None);
      next := next.(lastVote := Some(vote));
      if !stored {
        return Err(StorageError);
      }
      data := next;
      return Ok(vote);
    }

    method SignTimeoutWithQc(t: TwoChainTimeout, tc: Option<TimeoutCert>, stored: bool)
      returns (r: Result<Signature, Error>)
      modifies this`data
      ensures (State(), r) == SignTimeout(old(State()), t, tc, stored)
    {
      hide QcVerifies, TcVerifies, SafeToTimeout;
      if signer.None? {
        return Err(NotInitialized);
      }
      if t.epoch != data.epoch {
        return Err(IncorrectEpoch(t.epoch, data.epoch));
      }
      if epochState.None? {
        return Err(NotInitialized);
      }
      if !TimeoutVerifies(epochState.value.verifier, t) {
        return Err(InvalidTimeout);
      }
      if tc.Some? && !TcVerifies(epochState.value.verifier, tc.value) {
        return Err(InvalidTimeoutCertificate);
      }
      var safe := SafeToTimeout(t, tc, data);
      if safe.Err? {
        return Err(safe.error);
      }
      if t.round < data.lastVotedRound {
        return Err(IncorrectLastVotedRound(t.round, data.lastVotedRound));
      }
      if t.round > data.lastVotedRound {
        if !stored {
          return Err(StorageError);
        }
        data := data.(lastVotedRound := t.round);
      }
      return Ok(Sign(signer.value.key, t.SigningFormat()));
    }

    method SignCommit(ordered: LedgerInfoWithSignatures, executed: LedgerInfo) returns (r: Result<Signature, Error>)
      ensures r == SignCommitVote(State(), ordered, executed)
    {
      hide MultiSignatureVerdict;
      if signer.None? {
        return Err(NotInitialized);
      }
      if !ordered.ledgerInfo.commitInfo.IsOrderedOnly() {
        return Err(InvalidOrderedLedgerInfo);
      }
      if !MatchOrderedOnly(ordered.ledgerInfo.commitInfo, executed.commitInfo) {
        return Err(InconsistentExecutionResult);
      }
      if epochState.None? {
        return Err(NotInitialized);
      }
      var message := LedgerInfoMessage(ordered.ledgerInfo);
      var verified := VerifyMultiSignatures(epochState.value.verifier, message, ordered.signatures);
      if verified.Err? {
        return Err(InvalidQuorumCertificate);
      }
      return Ok(Sign(signer.value.key, LedgerInfoMessage(executed)));
    }

    method EnterEpoch(e: EpochState)
      modifies this`data, this`epochState
      ensures State() == StartEpoch(old(State()), e)
    {
      if data.epoch > e.epoch {
        return;
      }
      if data.epoch < e.epoch {
        data := SafetyData(e.epoch, 0, 0, 0, None);
      }
      epochState := Some(e);
    }
  }

  /** What a fresh signature commits its signer to. */
  lemma FreshVote(s: SafetyState, p: VoteProposal, tc: Option<TimeoutCert>, stored: bool)
    requires SignVote(s, p, tc, stored).1.Ok?
    requires s.data.lastVote.None? || s.data.lastVote.value.Round() != p.block.round
    ensures var (s', r) := SignVote(s, p, tc, stored);
      var d := r.value.voteData;
      && s.signer.Some?
      && d.proposed.epoch == s.data.epoch == d.parent.epoch && d.proposed.round == p.block.round
      && d.parent == p.block.quorumCert.Certified() && d.parent.round < d.proposed.round
      && s.data.lastVotedRound < d.proposed.round
      && r.value.signature == Sign(s.signer.value.key, LedgerInfoMessage(r.value.ledgerInfo))
      && r.value.ledgerInfo
         == LedgerInfo(if d.parent.round + 1 == d.proposed.round then d.parent else EMPTY_BLOCK_INFO, VoteDataHash(d))
      && (d.parent.round + 1 == d.proposed.round
          || (d.proposed.round == TcRound(tc) + 1 && d.parent.round >= TcHqcRound(tc)))
      && s'.data.lastVotedRound == d.proposed.round && s'.data.oneChainRound >= d.parent.round
      && s'.data.oneChainRound >= s.data.oneChainRound && s'.data.epoch == s.data.epoch
      && s'.data.oneChainRound in {d.parent.round, s.data.oneChainRound}
      && s'.data.lastVote == Some(r.value) && s'.signer == s.signer && s'.epochState == s.epochState
  {
    hide QcVerifies, TcVerifies;
  }

  /** What a new vote says about the block: its own fields, and the execution result it was proposed with, or
      placeholders when execution comes later. */
  lemma VoteSays(s: SafetyState, p: VoteProposal, tc: Option<TimeoutCert>, stored: bool)
    requires SignVote(s, p, tc, stored).1.Ok?
    requires s.data.lastVote.None? || s.data.lastVote.value.Round() != p.block.round
    ensures var vote, b := SignVote(s, p, tc, stored).1.value, p.block;
      var info := vote.voteData.proposed;
      && vote.author == s.signer.value.author && !vote.IsTimeout()
      && info.epoch == b.epoch && info.round == b.round && info.id == b.id
      && info.timestamp == b.timestamp && info.nextEpochState == p.nextEpochState
      && (p.decoupled ==> info.version == 0 && info.executedStateId == AccumulatorPlaceholder)
      && (!p.decoupled ==> p.executed == Some(Executed(info.executedStateId, info.version)))
  {
    hide QcVerifies, TcVerifies;
  }

  // When there is a signature

  /** A proposal of the validator's epoch, on a verified certificate of an earlier round of the same epoch
      that does not end the epoch. */
  predicate Acceptable(s: SafetyState, p: VoteProposal) {
    var qc := p.block.quorumCert;
    && s.signer.Some? && s.epochState.Some? && p.block.epoch == s.data.epoch == qc.Certified().epoch
    && QcVerifies(s.epochState.value.verifier, qc) && qc.Certified().round < p.block.round
    && !qc.signedLedgerInfo.ledgerInfo.EndsEpoch() && p.otherChecks && (p.decoupled || p.executed.Some?)
  }

  /** The first voting rule: the round after the certificate, or the round after a timed-out round, on a
      certificate at least as high as any that the timed-out quorum had. */
  predicate Follows(block: Block, tc: Option<TimeoutCert>) {
    var qcRound := block.quorumCert.Certified().round;
    || block.round == qcRound + 1
    || (tc.Some? && block.round == tc.value.timeout.round + 1 && qcRound >= tc.value.timeout.HqcRound())
  }

  /** A vote is given exactly to an acceptable proposal that repeats the round of the last vote, or that is
      above every earlier round, follows, and can be persisted. */
  lemma VoteGivenIff(s: SafetyState, p: VoteProposal, tc: Option<TimeoutCert>, stored: bool)
    requires p.block.round <= U64_MAX
    ensures SignVote(s, p, tc, stored).1.Ok?
       <==> && Acceptable(s, p) && (tc.Some? ==> TcVerifies(s.epochState.value.verifier, tc.value))
            && (|| (s.data.lastVote.Some? && s.data.lastVote.value.Round() == p.block.round)
                || (p.block.round > s.data.lastVotedRound && Follows(p.block, tc) && stored))
  {
    hide QcVerifies, TcVerifies;
  }

  /** A timeout is signed exactly if it is of the validator's epoch, verifies, is of the round after its
      certificate or after a timed-out round, reports a certificate at least as high as the validator has
      seen, and is not below the last vote; a new round has to be persisted. */
  lemma TimeoutSignedIff(s: SafetyState, t: TwoChainTimeout, tc: Option<TimeoutCert>, stored: bool)
    requires t.round <= U64_MAX
    ensures SignTimeout(s, t, tc, stored).1.Ok?
       <==> && s.signer.Some? && s.epochState.Some? && t.epoch == s.data.epoch
            && t.HqcRound() < t.round && QcVerifies(s.epochState.value.verifier, t.quorumCert)
            && (tc.Some? ==> TcVerifies(s.epochState.value.verifier, tc.value))
            && (t.round == t.HqcRound() + 1 || (tc.Some? && t.round == tc.value.timeout.round + 1))
            && t.HqcRound() >= s.data.oneChainRound
            && (t.round == s.data.lastVotedRound || (t.round > s.data.lastVotedRound && stored))
  {
    hide QcVerifies, TcVerifies;
  }

  /** A commit vote is signed exactly for an execution of what a quorum ordered without one. */
  lemma CommitVoteSignedIff(s: SafetyState, ordered: LedgerInfoWithSignatures, executed: LedgerInfo)
    ensures SignCommitVote(s, ordered, executed).Ok?
       <==> && s.signer.Some? && s.epochState.Some?
            && ordered.ledgerInfo.commitInfo.IsOrderedOnly()
            && MatchOrderedOnly(ordered.ledgerInfo.commitInfo, executed.commitInfo)
            && MultiSignatureVerdict(s.epochState.value.verifier, LedgerInfoMessage(ordered.ledgerInfo),
                                     ordered.signatures).Ok?
    ensures SignCommitVote(s, ordered, executed).Ok? ==>
      SignCommitVote(s, ordered, executed).value == Sign(s.signer.value.key, LedgerInfoMessage(executed))
  {
    hide MultiSignatureVerdict;
  }

  /** A refused proposal: the error names something that is indeed wrong. */
  lemma RefusalIsTrue(s: SafetyState, p: VoteProposal, tc: Option<TimeoutCert>, stored: bool)
    requires p.block.round <= U64_MAX && SignVote(s, p, tc, stored).1.Err?
    ensures SignVote(s, p, tc, stored).0 == s
    ensures var qcRound := p.block.quorumCert.Certified().round;
      match SignVote(s, p, tc, stored).1.error
      case NotInitialized => s.signer.None? || s.epochState.None?
      case IncorrectEpoch(got, expected) => got == p.block.epoch && expected == s.data.epoch && got != expected
      case InvalidQuorumCertificate => !QcVerifies(s.epochState.value.verifier, p.block.quorumCert)
      case InvalidProposal => !p.otherChecks || !WellFormedBlock(p.block)
      case InvalidAccumulatorExtension => !p.decoupled && p.executed.None?
      case InvalidTimeoutCertificate => tc.Some? && !TcVerifies(s.epochState.value.verifier, tc.value)
      case IncorrectLastVotedRound(round, last) => round == p.block.round <= last == s.data.lastVotedRound
      case IncorrectRound(round) => round == TcRound(tc) >= U64_MAX && p.block.round != qcRound + 1
      case NotSafeToVote(round, qc, tcRound, hqc) =>
        !Follows(p.block, tc) && (round, qc, tcRound, hqc) == (p.block.round, qcRound, TcRound(tc), TcHqcRound(tc))
      case StorageError => !stored
      case _ => false
  {
    hide QcVerifies, TcVerifies;
  }

  /** A later epoch starts from round 0, whatever the rounds before: any acceptable proposal that follows is
      voted for. */
  lemma NewEpochVotes(s: SafetyState, es: EpochState, p: VoteProposal, tc: Option<TimeoutCert>, stored: bool)
    requires s.data.epoch < es.epoch && 0 < p.block.round <= U64_MAX
    ensures var s' := StartEpoch(s, es);
      && s'.data == SafetyData(es.epoch, 0, 0, 0, None) && s'.epochState == Some(es) && s'.signer == s.signer
      && (SignVote(s', p, tc, stored).1.Ok?
          <==> Acceptable(s', p) && (tc.Some? ==> TcVerifies(es.verifier, tc.value)) && Follows(p.block, tc) && stored)
  {
    hide QcVerifies, TcVerifies, SignVote;
    VoteGivenIff(StartEpoch(s, es), p, tc, stored);
  }

  /** A round-0 parent of a vote, which nobody signed, ends no epoch. */
  lemma RoundZeroParent(s: SafetyState, p: VoteProposal, tc: Option<TimeoutCert>, stored: bool)
    requires SignVote(s, p, tc, stored).1.Ok?
    ensures var parent := p.block.quorumCert.Certified();
      parent.round == 0 ==> parent.epoch == s.data.epoch && parent.nextEpochState.None?
  {
    hide TcVerifies, MultiSignatureVerdict;
  }

  /** Anything but a fresh vote leaves the state alone and returns at most the recorded vote. */
  lemma RepeatedVote(s: SafetyState, p: VoteProposal, tc: Option<TimeoutCert>, stored: bool)
    requires SignVote(s, p, tc, stored).1.Err?
          || (s.data.lastVote.Some? && s.data.lastVote.value.Round() == p.block.round)
    ensures SignVote(s, p, tc, stored).0 == s
    ensures SignVote(s, p, tc, stored).1.Ok? ==>
      s.data.lastVote.Some? && SignVote(s, p, tc, stored).1.value == s.data.lastVote.value
  {
    hide QcVerifies, TcVerifies;
  }

  lemma SignedTimeout(s: SafetyState, t: TwoChainTimeout, tc: Option<TimeoutCert>, stored: bool)
    requires SignTimeout(s, t, tc, stored).1.Ok?
    ensures var (s', r) := SignTimeout(s, t, tc, stored);
      && s.signer.Some? && t.epoch == s.data.epoch
      && t.HqcRound() >= s.data.oneChainRound && t.round >= s.data.lastVotedRound
      && s' == s.(data := s.data.(lastVotedRound := t.round))
      && r.value == Sign(s.signer.value.key, TimeoutMessage(t.epoch, t.round, t.HqcRound()))
  {
    hide QcVerifies, TcVerifies;
  }
}
