/** What an unsigned certificate of round 0 can bring about.

A round-0 certificate needs no signatures, and a validator votes on whatever block info it carries.
So votes of the first round can be collected on any version and state root. */
module RoundZero {
  import opened Types
  import opened VotingPower
  import opened MultiSignatures
  import opened Certificates
  import opened TwoChainRules
  import opened TwoChain
  import opened EpochChanges
  import opened TrustedStates
  import opened LedgerOfRun
  import opened Progress
  import opened TimeoutRuns

  /** The id of the real genesis with a made-up version and state root. */
  function MadeUpInfo(version: Version): BlockInfo {
    InfoAt(0).(version := version, executedStateId := Raw(version + 1))
  }

  function UnsignedQc(info: BlockInfo): QuorumCert {
    var d := VoteData(info, info);
    QuorumCert(d, LedgerInfoWithSignatures(LedgerInfo(info, VoteDataHash(d)), AggregateSignature(BitVec([]), None)))
  }

  // A client off the ledger

  function FirstVote(v: Version): Vote {
    SoloVote(VoteData(InfoAt(1), MadeUpInfo(v)), MadeUpInfo(v))
  }

  function FirstState(v: Version): SafetyState {
    SafetyState(SafetyData(1, 1, 0, 0, Some(FirstVote(v))), Some(Signer(1, 1)), Some(EpochState(1, LONE_VALIDATOR)))
  }

  ghost function FirstNetwork(v: Version): Network {
    WithAtom(NetworkAt(0), FirstState(v), LedgerInfoMessage(FirstVote(v).ledgerInfo))
  }

  /** The validator votes for a block of round 1 on the made-up info. */
  lemma VotesOnMadeUp(v: Version)
    ensures SignVote(StateAt(0), Proposal(1, UnsignedQc(MadeUpInfo(v))), None, true)
         == (FirstState(v), Ok(FirstVote(v)))
  {
  }

  lemma MadeUpRun(v: Version) returns (trace: seq<Network>, steps: seq<Step>)
    ensures IsRun(SOLO_CONFIG, trace, steps) && trace[|trace| - 1] == FirstNetwork(v)
  {
    hide SignVote;
    var p := Proposal(1, UnsignedQc(MadeUpInfo(v)));
    SoloRun(0);
    VotesOnMadeUp(v);
    SoloVoteStep(NetworkAt(0), p, None, FirstState(v), FirstVote(v));
    trace, steps := Trace(0) + [FirstNetwork(v)], Steps(0) + [VoteStep(1, p, None, true)];
    hide Next;
    assert trace[0] == Trace(0)[0] && trace[1] == Trace(0)[1] == NetworkAt(0) && steps[0] == Steps(0)[0];
  }

  /** The ledger after `r` blocks holds for the run, which commits none of them. */
  lemma MadeUpLedgerHolds(v: Version, r: Round)
    ensures LedgerHolds(SOLO_CONFIG, FirstNetwork(v), LedgerAt(r), ExecutionOf)
  {
    hide PowerOf, SoloSignature;
    var n, ledger := FirstNetwork(v), LedgerAt(r);
    LoneValidatorIsValid();
    assert forall a :: a in n.voted ==> a == Atom(1, LedgerInfoMessage(FirstVote(v).ledgerInfo));
    forall e, d ensures !CommittedBy(SOLO_CONFIG, n, e, d) {
      if Certified(SOLO_CONFIG, n.voted, e, d) {
        var q, li :| CertifiedBy(SOLO_CONFIG, n.voted, e, d, q, li);
        var k := HonestSigner(SOLO_CONFIG, n, e, d, q, li);
      }
    }
  }

  const IN_EPOCH_ONE := InEpoch(WaypointOf(CatchUp.SampleLedgerInfo(0)), EpochState(1, LONE_VALIDATOR))

  function MadeUpResponse(v: Version): Response {
    var d := VoteData(InfoAt(1), MadeUpInfo(v));
    Response(SoloQc(d, MadeUpInfo(v)).signedLedgerInfo, EpochChangeProof([], false))
  }

  /** Whatever the ledger: a client in epoch 1 takes the made-up version and state root. */
  lemma MadeUpIsTaken(v: Version, r: Round) returns (trace: seq<Network>, steps: seq<Step>)
    requires v > 0
    ensures IsRun(SOLO_CONFIG, trace, steps)
    ensures LedgerHolds(SOLO_CONFIG, trace[|trace| - 1], LedgerAt(r), ExecutionOf) && Trusted(LedgerAt(r), IN_EPOCH_ONE)
    ensures ResponseUnforged(SOLO_CONFIG, trace[|trace| - 1], MadeUpResponse(v))
    ensures var t := Apply(IN_EPOCH_ONE, MadeUpResponse(v).latest, MadeUpResponse(v).proof);
      t.waypoint.version == v && !HoldsState(LedgerAt(r), t)
  {
    hide MultiSignatureVerdict, SoloSignature, IsRun, LedgerHolds;
    trace, steps := MadeUpRun(v);
    MadeUpLedgerHolds(v, r);
    SoloSignatureVerifies(FirstVote(v).ledgerInfo);
    assert LedgerAt(r)[0] == CatchUp.SampleLedgerInfo(0);
    assert Installs(LedgerAt(r), 0, IN_EPOCH_ONE.epochState);
    assert TrustedAt(LedgerAt(r), IN_EPOCH_ONE, 0);
  }

  // A committed round 0 beside a committed block

  function SecondData(v: Version): VoteData {
    VoteData(InfoAt(2), MadeUpInfo(v))
  }

  function SecondState(v: Version): SafetyState {
    StateAt(0).(data := SafetyData(1, 2, 0, 0, Some(SoloVote(SecondData(v), EMPTY_BLOCK_INFO))))
  }

  function ThirdState(v: Version): SafetyState {
    StateAt(0).(data := SafetyData(1, 3, 0, 2, Some(SoloVote(DataAt(3), InfoAt(2)))))
  }

  /** Times out in round 1, votes in round 2 on the made-up info and in round 3 on that. */
  lemma SignsTimeout()
    ensures SignTimeout(StateAt(1), TimeoutAt(1), None, true) == (StateAt(1), Ok(Sign(1, TimeoutAt(1).SigningFormat())))
  {
    hide QcVerifies, VoteAt;
    QcIsValid(0);
  }

  lemma SignsSecond(v: Version)
    ensures SignVote(StateAt(1), Proposal(2, UnsignedQc(MadeUpInfo(v))), Some(TcAt(1)), true)
         == (SecondState(v), Ok(SoloVote(SecondData(v), EMPTY_BLOCK_INFO)))
  {
    hide TcVerifies, TcAt, QcVerifies, SignaturesAt, LedgerInfoAt;
    TcIsValid(1);
    UnsignedVerifies(v);
  }

  lemma UnsignedVerifies(v: Version)
    ensures QcVerifies(LONE_VALIDATOR, UnsignedQc(MadeUpInfo(v)))
  {
  }

  lemma SignsThird(v: Version)
    ensures SignVote(SecondState(v), Proposal(3, SoloQc(SecondData(v), EMPTY_BLOCK_INFO)), None, true)
         == (ThirdState(v), Ok(SoloVote(DataAt(3), InfoAt(2))))
  {
    hide MultiSignatureVerdict, SoloSignature;
    SoloSignatureVerifies(LedgerInfo(EMPTY_BLOCK_INFO, VoteDataHash(SecondData(v))));
  }

  // The run

  ghost function ForkNetwork(v: Version, i: nat): Network {
    var timedOut := WithAtom(NetworkAt(1), StateAt(1), TimeoutAt(1).SigningFormat());
    var secondVote := SoloVote(SecondData(v), EMPTY_BLOCK_INFO);
    var second := WithAtom(timedOut, SecondState(v), LedgerInfoMessage(secondVote.ledgerInfo));
    if i == 0 then timedOut
    else if i == 1 then second
    else WithAtom(second, ThirdState(v), LedgerInfoMessage(SoloVote(DataAt(3), InfoAt(2)).ledgerInfo))
  }

  function ForkStep(v: Version, i: nat): Step {
    if i == 0 then TwoChain.TimeoutStep(1, TimeoutAt(1), None, true)
    else if i == 1 then VoteStep(1, Proposal(2, UnsignedQc(MadeUpInfo(v))), Some(TcAt(1)), true)
    else VoteStep(1, Proposal(3, SoloQc(SecondData(v), EMPTY_BLOCK_INFO)), None, true)
  }

  lemma FirstForkStep(v: Version)
    ensures Next(SOLO_CONFIG, NetworkAt(1), ForkStep(v, 0), ForkNetwork(v, 0))
  {
    hide SignTimeout, StateAt, SecondState, ThirdState;
    SignsTimeout();
    SoloTimeoutStep(NetworkAt(1), TimeoutAt(1), None, StateAt(1));
  }

  lemma TcFromBlockStore(v: Version)
    ensures FromBlockStore(SOLO_CONFIG, ForkNetwork(v, 0), ForkStep(v, 1))
  {
    hide TcAt, StateAt, SecondState, ThirdState, TcVerifies;
    TcIsValid(1);
    TcAtoms(1);
  }

  lemma SecondForkStep(v: Version)
    ensures Next(SOLO_CONFIG, ForkNetwork(v, 0), ForkStep(v, 1), ForkNetwork(v, 1))
  {
    hide SignVote, TcAt, StateAt, SecondState, ThirdState, FromBlockStore;
    SignsSecond(v);
    TcFromBlockStore(v);
    SoloVoteStep(ForkNetwork(v, 0), Proposal(2, UnsignedQc(MadeUpInfo(v))), Some(TcAt(1)), SecondState(v),
                 SoloVote(SecondData(v), EMPTY_BLOCK_INFO));
  }

  lemma ThirdForkStep(v: Version)
    ensures Next(SOLO_CONFIG, ForkNetwork(v, 1), ForkStep(v, 2), ForkNetwork(v, 2))
  {
    hide SignVote, SoloSignature;
    SignsThird(v);
    SoloSignatureVerifies(LedgerInfo(EMPTY_BLOCK_INFO, VoteDataHash(SecondData(v))));
    SoloVoteStep(ForkNetwork(v, 1), Proposal(3, SoloQc(SecondData(v), EMPTY_BLOCK_INFO)), None, ThirdState(v),
                 SoloVote(DataAt(3), InfoAt(2)));
  }

  lemma ForkRun(v: Version) returns (trace: seq<Network>, steps: seq<Step>)
    ensures IsRun(SOLO_CONFIG, trace, steps) && |trace| == 6 && trace[|trace| - 1] == ForkNetwork(v, 2)
  {
    hide Next, ForkNetwork, ForkStep, NetworkAt, Initial;
    SoloRun(1);
    FirstForkStep(v);
    SecondForkStep(v);
    ThirdForkStep(v);
    trace := Trace(1) + [ForkNetwork(v, 0), ForkNetwork(v, 1), ForkNetwork(v, 2)];
    steps := Steps(1) + [ForkStep(v, 0), ForkStep(v, 1), ForkStep(v, 2)];
    assert trace[..3] == Trace(1) && steps[..2] == Steps(1);
    assert trace[2] == Trace(1)[2] == NetworkAt(1);
    forall i | 0 <= i < |steps| ensures Next(SOLO_CONFIG, trace[i], steps[i], trace[i + 1]) {
      if i < 2 {
        assert Next(SOLO_CONFIG, Trace(1)[i], Steps(1)[i], Trace(1)[i + 1]);
      }
    }
  }

  /** A run that commits genesis in round 1 and, on other contents of genesis, a block of round 2: the two
      are not on one branch. */
  lemma RoundZeroCanFork(v: Version) returns (trace: seq<Network>, steps: seq<Step>, low: QuorumCert, high: QuorumCert)
    requires v > 0
    ensures IsRun(SOLO_CONFIG, trace, steps) && ValidConfig(SOLO_CONFIG) && |trace| > 0
    ensures Commits(SOLO_CONFIG, trace[|trace| - 1], 1, low) && Commits(SOLO_CONFIG, trace[|trace| - 1], 1, high)
    ensures low.Parent().id == MadeUpInfo(v).id && low.Parent().round == 0 && high.Parent().round == 2
    ensures !OneBranch(SOLO_CONFIG, trace[|trace| - 1], 1, low.Parent(), high.Parent())
  {
    hide IsRun, SoloSignature, MultiSignatureVerdict, Extends, Certified, ValidConfig, Invariant;
    LoneValidatorIsValid();
    trace, steps := ForkRun(v);
    var n := trace[|trace| - 1];
    low, high := QcAt(1), SoloQc(DataAt(3), InfoAt(2));
    QcIsValid(1);
    SoloSignatureVerifies(LedgerInfo(InfoAt(2), VoteDataHash(DataAt(3))));
    SecondIsCertified(v);
    RunInvariant(SOLO_CONFIG, trace, steps, |trace| - 1);
    var base := RoundZeroCommitIff(SOLO_CONFIG, trace, steps, 1, |trace| - 1, low, |trace| - 1, high);
    ExtendsItself(SOLO_CONFIG, n, 1, MadeUpInfo(v));
    assert Link(SOLO_CONFIG, n, 1, SecondData(v), InfoAt(2));
    OneStep(n, SecondData(v), InfoAt(2));
    AncestorsAreOrdered(SOLO_CONFIG, n, 1, InfoAt(2), base, MadeUpInfo(v));
    SameRoundExtends(SOLO_CONFIG, n, 1, base, MadeUpInfo(v));
  }

  lemma OneStep(n: Network, d: VoteData, b: BlockInfo)
    requires Link(SOLO_CONFIG, n, 1, d, b)
    ensures Extends(SOLO_CONFIG, n, 1, b, d.parent)
  {
    ExtendsItself(SOLO_CONFIG, n, 1, d.parent);
  }

  lemma SecondIsCertified(v: Version)
    ensures Certified(SOLO_CONFIG, ForkNetwork(v, 2).voted, 1, SecondData(v))
  {
    hide PowerOf;
    LoneValidatorIsValid();
    assert CertifiedBy(SOLO_CONFIG, ForkNetwork(v, 2).voted, 1, SecondData(v), {1},
                       SoloVote(SecondData(v), EMPTY_BLOCK_INFO).ledgerInfo);
  }
}
