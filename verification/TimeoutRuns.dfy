/** Rounds that time out, one after the other, and a commit after them. */
module TimeoutRuns {
  import opened Types
  import opened VotingPower
  import opened MultiSignatures
  import opened Certificates
  import opened TwoChainRules
  import opened TwoChain
  import opened Progress

  // Every reachable state

  /** An initialised validator in a state of a run, and the verifier of its epoch. */
  ghost predicate Ready(c: Config, n: Network, key: PublicKey) {
    && key in n.nodes && n.nodes[key].signer.Some? && n.nodes[key].epochState.Some?
    && n.nodes[key].data.epoch in c.committees
  }

  lemma ReadyKnowsCommittee(c: Config, trace: seq<Network>, steps: seq<Step>, i: nat, key: PublicKey)
    requires ValidConfig(c) && IsRun(c, trace, steps) && i < |trace| && Ready(c, trace[i], key)
    ensures var s := trace[i].nodes[key]; s.epochState.value.verifier == c.committees[s.data.epoch]
    ensures trace[i].nodes[key].signer.value.key == key
  {
    hide IsRun, ValidConfig, AtomInvariant, CommitVoteInvariant, Compatible;
    RunInvariant(c, trace, steps, i);
    assert NodeInvariant(c, trace[i], key);
  }

  /** After a timed-out round, with a certificate that is not below what it has seen, a validator times out
      of the next round unless it has voted above it or cannot persist. */
  lemma TimeoutFollowsTc(c: Config, trace: seq<Network>, steps: seq<Step>, i: nat, key: PublicKey,
                         t: TwoChainTimeout, tc: TimeoutCert, stored: bool)
    requires ValidConfig(c) && IsRun(c, trace, steps) && i < |trace| && Ready(c, trace[i], key)
    requires var s := trace[i].nodes[key];
      && t.epoch == s.data.epoch && t.round == tc.timeout.round + 1 <= U64_MAX
      && QcVerifies(c.committees[t.epoch], t.quorumCert) && TcVerifies(c.committees[t.epoch], tc)
      && s.data.oneChainRound <= t.HqcRound() <= tc.timeout.round
    ensures var s, step := trace[i].nodes[key], TwoChain.TimeoutStep(key, t, Some(tc), stored);
      (exists n' :: Next(c, trace[i], step, n') && Atom(key, t.SigningFormat()) in n'.voted)
      <==> || Atom(key, t.SigningFormat()) in trace[i].voted
           || s.data.lastVotedRound == t.round || (s.data.lastVotedRound < t.round && stored)
  {
    hide IsRun, ValidConfig, QcVerifies, TcVerifies, SignTimeout;
    ReadyKnowsCommittee(c, trace, steps, i, key);
    var s := trace[i].nodes[key];
    TimeoutSignedIff(s, t, Some(tc), stored);
    var (s', r) := SignTimeout(s, t, Some(tc), stored);
    if r.Ok? {
      SignedTimeout(s, t, Some(tc), stored);
    }
    var n' := Released(trace[i], key, s', r, (g: Signature) => g);
    assert Next(c, trace[i], TwoChain.TimeoutStep(key, t, Some(tc), stored), n');
    assert r.Ok? ==> Atom(key, t.SigningFormat()) in AtomSet(r.value.atoms);
  }

  // A run of timeouts, by the only validator

  function SoloQc(d: VoteData, commit: BlockInfo): QuorumCert {
    var li := LedgerInfo(commit, VoteDataHash(d));
    QuorumCert(d, LedgerInfoWithSignatures(li, SoloSignature(li)))
  }

  function SoloVote(d: VoteData, commit: BlockInfo): Vote {
    var li := LedgerInfo(commit, VoteDataHash(d));
    Vote(d, 1, li, Sign(1, LedgerInfoMessage(li)), None)
  }

  function Proposal(r: Round, qc: QuorumCert): VoteProposal {
    VoteProposal(Block(1, r, Raw(r), r, qc), true, None, None, true)
  }

  ghost function WithAtom(n: Network, s: SafetyState, m: Message): Network {
    Network(map[1 := s], n.signed + iset{Atom(1, m)}, n.voted + iset{Atom(1, m)})
  }

  lemma SoloVoteStep(n: Network, p: VoteProposal, tc: Option<TimeoutCert>, s': SafetyState, vote: Vote)
    requires n.nodes.Keys == {1} && SignVote(n.nodes[1], p, tc, true) == (s', Ok(vote))
    requires vote.signature == Sign(1, LedgerInfoMessage(vote.ledgerInfo))
    requires FromBlockStore(SOLO_CONFIG, n, VoteStep(1, p, tc, true))
    ensures Next(SOLO_CONFIG, n, VoteStep(1, p, tc, true), WithAtom(n, s', LedgerInfoMessage(vote.ledgerInfo)))
  {
    hide SignVote, FromBlockStore;
    assert AtomSet(vote.signature.atoms) == iset{Atom(1, LedgerInfoMessage(vote.ledgerInfo))};
    assert n.nodes[1 := s'] == map[1 := s'];
  }

  lemma SoloTimeoutStep(n: Network, t: TwoChainTimeout, tc: Option<TimeoutCert>, s': SafetyState)
    requires n.nodes.Keys == {1} && SignTimeout(n.nodes[1], t, tc, true) == (s', Ok(Sign(1, t.SigningFormat())))
    ensures Next(SOLO_CONFIG, n, TwoChain.TimeoutStep(1, t, tc, true), WithAtom(n, s', t.SigningFormat()))
  {
    hide SignTimeout;
    assert AtomSet(Sign(1, t.SigningFormat()).atoms) == iset{Atom(1, t.SigningFormat())};
    assert n.nodes[1 := s'] == map[1 := s'];
  }

  /** The timeout of round `r`, with the certificate of genesis, and its certificate. */
  function TimeoutAt(r: Round): TwoChainTimeout {
    TwoChainTimeout(1, r, QcAt(0))
  }

  function PartialAt(r: Round): PartialTimeoutCert {
    PartialTimeoutCert(TimeoutAt(r), map[1 := (0, Sign(1, TimeoutAt(r).SigningFormat()))])
  }

  function TcAt(r: Round): TimeoutCert {
    match PartialAt(r).Aggregate(LONE_VALIDATOR)
    case Ok(tc) => tc
    case Err(_) => TimeoutCert(TimeoutAt(r), AggregateSignature(BitVec([]), None), [])
  }

  lemma TcIsValid(r: Round)
    requires r > 0
    ensures PartialAt(r).Aggregate(LONE_VALIDATOR) == Ok(TcAt(r)) && TcVerifies(LONE_VALIDATOR, TcAt(r))
    ensures TcAt(r).timeout == TimeoutAt(r)
  {
    hide TcVerifies, PowerOf, PartialTimeoutCert.Aggregate, PartialTimeoutCert.OrderedRounds;
    LoneValidatorIsValid();
    QcIsValid(0);
    assert PartialAt(r).signatures.Keys == {1};
    TimeoutCertRoundTrip(LONE_VALIDATOR, PartialAt(r));
    KeepsTimeout(PartialAt(r));
  }

  lemma KeepsTimeout(p: PartialTimeoutCert)
    requires p.Aggregate(LONE_VALIDATOR).Ok?
    ensures p.Aggregate(LONE_VALIDATOR).value.timeout == p.timeout
    ensures p.Aggregate(LONE_VALIDATOR).value.rounds == p.OrderedRounds(LONE_VALIDATOR)
  {
    hide Aggregated, PartialTimeoutCert.OrderedRounds;
  }

  lemma RoundsAreZero(r: Round, k: nat)
    requires k < |PartialAt(r).OrderedRounds(LONE_VALIDATOR)|
    ensures PartialAt(r).OrderedRounds(LONE_VALIDATOR)[k] == 0
  {
    hide SortedKeys, Index;
    var positions := SortedKeys(PartialAt(r).Positions(LONE_VALIDATOR));
    assert positions[k] in SetOf(positions);
    var index := Index(LONE_VALIDATOR.infos);
    var a :| a in PartialAt(r).signatures && a in index && index[a] == positions[k];
    assert a == 1;
  }

  lemma TcAtoms(r: Round)
    requires r > 0
    ensures TcAt(r).sig.sig.Some? ==>
      forall a :: a in TcAt(r).sig.sig.value.atoms ==> a == Atom(1, TimeoutAt(r).SigningFormat())
  {
    hide Aggregated, SortedKeys, QcVerifies, MultiSignatureVerdict, VotersVerdict;
    TcIsValid(r);
    KeepsTimeout(PartialAt(r));
    var tc := TcAt(r);
    var messages := TimeoutMessages(tc, |GetVoterAddresses(tc.sig.bitmask, OrderedAddresses(LONE_VALIDATOR))|);
    if tc.sig.sig.Some? {
      forall a | a in tc.sig.sig.value.atoms ensures a == Atom(1, TimeoutAt(r).SigningFormat()) {
        var i, k := AggregatedAtom(LONE_VALIDATOR, messages, tc.sig, a);
        assert LONE_VALIDATOR.infos[i].publicKey == 1 && messages[k] == TimeoutMessage(1, r, tc.rounds[k]);
        RoundsAreZero(r, k);
      }
    }
  }

  /** What is handed to the safety rules with the timeout of round `r`: the certificate of the round before. */
  function TcBefore(r: Round): Option<TimeoutCert> {
    if r <= 1 then None else Some(TcAt(r - 1))
  }

  function TimedOutState(r: Round): SafetyState {
    StateAt(0).(data := SafetyData(1, r, 0, 0, None))
  }

  ghost function TimedOutNetwork(r: Round): Network {
    if r == 0 then NetworkAt(0) else WithAtom(TimedOutNetwork(r - 1), TimedOutState(r), TimeoutAt(r).SigningFormat())
  }

  lemma TimesOutNext(r: Round)
    requires 0 < r <= U64_MAX
    ensures SignTimeout(TimedOutState(r - 1), TimeoutAt(r), TcBefore(r), true)
         == (TimedOutState(r), Ok(Sign(1, TimeoutAt(r).SigningFormat())))
  {
    hide QcVerifies, TcVerifies, TcAt, DataAt, SignaturesAt, InfoAt;
    QcIsValid(0);
    assert TimeoutAt(r).HqcRound() == 0 by { GenesisRound(); }
    if r > 1 {
      TcIsValid(r - 1);
    }
  }

  lemma GenesisRound()
    ensures QcAt(0).Certified().round == 0
  {
  }

  function TimeoutStepAt(r: Round): Step {
    TwoChain.TimeoutStep(1, TimeoutAt(r), TcBefore(r), true)
  }

  lemma TimedOutNodes(r: Round)
    ensures TimedOutNetwork(r).nodes == map[1 := TimedOutState(r)]
  {
  }

  lemma TimeoutHappens(r: Round)
    requires 0 < r <= U64_MAX
    ensures Next(SOLO_CONFIG, TimedOutNetwork(r - 1), TimeoutStepAt(r), TimedOutNetwork(r))
  {
    hide SignTimeout, TimedOutState, TcBefore;
    TimesOutNext(r);
    TimedOutNodes(r - 1);
    SoloTimeoutStep(TimedOutNetwork(r - 1), TimeoutAt(r), TcBefore(r), TimedOutState(r));
  }

  /** Every certificate that a timeout of the run is justified by is made of signatures of the run. */
  lemma {:induction false} TcIsUnforged(r: Round, q: Round)
    requires 0 < q <= r
    ensures Unforged(SOLO_CONFIG, TimedOutNetwork(r), TcAt(q).sig.sig)
    ensures Atom(1, TimeoutAt(q).SigningFormat()) in TimedOutNetwork(r).voted
  {
    hide TcAt, TimedOutState;
    TcAtoms(q);
    if q < r {
      TcIsUnforged(r - 1, q);
    }
  }

  ghost function TimeoutTrace(k: nat): seq<Network> {
    [Trace(0)[0]] + seq(k + 1, i requires 0 <= i < k + 1 => TimedOutNetwork(i))
  }

  function TimeoutSteps(k: nat): seq<Step> {
    [EpochStep(1, 1)] + seq(k, i requires 0 <= i < k => TimeoutStepAt(i + 1))
  }

  lemma TimeoutsAreARun(k: nat)
    requires k <= U64_MAX
    ensures IsRun(SOLO_CONFIG, TimeoutTrace(k), TimeoutSteps(k))
  {
    hide Next, Initial, TimedOutNetwork, NetworkAt, TimeoutStepAt;
    FirstStep();
    assert TimedOutNetwork(0) == NetworkAt(0) by { StartsFromGenesis(); }
    var trace, steps := TimeoutTrace(k), TimeoutSteps(k);
    forall i | 0 <= i < |steps| ensures Next(SOLO_CONFIG, trace[i], steps[i], trace[i + 1]) {
      if i > 0 {
        TimeoutHappens(i);
      }
    }
  }

  lemma StartsFromGenesis()
    ensures TimedOutNetwork(0) == NetworkAt(0)
  {
  }

  predicate IsTimeoutStep(step: Step, r: Round)
    requires r > 0
  {
    step == TwoChain.TimeoutStep(1, TimeoutAt(r), if r == 1 then None else Some(TcAt(r - 1)), true)
  }

  /** For every number of rounds there is a run in which they all time out, each on the certificate of the
      one before. */
  lemma EveryRoundCanTimeOut(k: nat)
    requires k <= U64_MAX
    ensures IsRun(SOLO_CONFIG, TimeoutTrace(k), TimeoutSteps(k))
    ensures forall q :: 0 < q <= k ==>
      && TcVerifies(LONE_VALIDATOR, TcAt(q)) && Unforged(SOLO_CONFIG, TimeoutTrace(k)[k + 1], TcAt(q).sig.sig)
      && TcAt(q).timeout.round == q && IsTimeoutStep(TimeoutSteps(k)[q], q)
      && Atom(1, TimeoutAt(q).SigningFormat()) in TimeoutTrace(k)[k + 1].voted
  {
    hide IsRun, TcVerifies, TimedOutNetwork, TcAt, Unforged;
    TimeoutsAreARun(k);
    forall q | 0 < q <= k
      ensures TcVerifies(LONE_VALIDATOR, TcAt(q)) && TcAt(q).timeout == TimeoutAt(q)
      ensures Unforged(SOLO_CONFIG, TimedOutNetwork(k), TcAt(q).sig.sig)
      ensures Atom(1, TimeoutAt(q).SigningFormat()) in TimedOutNetwork(k).voted
    {
      TcIsValid(q);
      TcIsUnforged(k, q);
    }
  }

  // A commit after the timeouts

  /** The block of round `r` on genesis, after all rounds before it timed out. */
  function LateData(r: Round): VoteData {
    VoteData(InfoAt(r), InfoAt(0))
  }

  function LateState(r: Round): SafetyState {
    StateAt(0).(data := SafetyData(1, r, 0, 0, Some(SoloVote(LateData(r), EMPTY_BLOCK_INFO))))
  }

  function LateQc(r: Round): QuorumCert {
    SoloQc(LateData(r), EMPTY_BLOCK_INFO)
  }

  function LastState(r: Round): SafetyState
    requires r > 0
  {
    StateAt(0).(data := SafetyData(1, r, 0, r - 1, Some(SoloVote(DataAt(r), InfoAt(r - 1)))))
  }

  lemma VotesAfterTimeouts(k: nat)
    requires 0 < k < U64_MAX
    ensures SignVote(TimedOutState(k), Proposal(k + 1, QcAt(0)), Some(TcAt(k)), true)
         == (LateState(k + 1), Ok(SoloVote(LateData(k + 1), EMPTY_BLOCK_INFO)))
  {
    hide TcVerifies, TcAt, QcVerifies;
    TcIsValid(k);
    QcIsValid(0);
  }

  lemma VotesOnLateBlock(r: Round)
    requires 0 < r < U64_MAX
    ensures SignVote(LateState(r), Proposal(r + 1, LateQc(r)), None, true)
         == (LastState(r + 1), Ok(SoloVote(DataAt(r + 1), InfoAt(r))))
  {
    hide MultiSignatureVerdict, SoloSignature;
    SoloSignatureVerifies(LedgerInfo(EMPTY_BLOCK_INFO, VoteDataHash(LateData(r))));
  }

  ghost function LateNetwork(k: nat): Network {
    WithAtom(TimedOutNetwork(k), LateState(k + 1),
             LedgerInfoMessage(SoloVote(LateData(k + 1), EMPTY_BLOCK_INFO).ledgerInfo))
  }

  ghost function LastNetwork(k: nat): Network {
    WithAtom(LateNetwork(k), LastState(k + 2), LedgerInfoMessage(SoloVote(DataAt(k + 2), InfoAt(k + 1)).ledgerInfo))
  }

  lemma LateVoteHappens(k: nat)
    requires 0 < k < U64_MAX
    ensures Next(SOLO_CONFIG, TimedOutNetwork(k), VoteStep(1, Proposal(k + 1, QcAt(0)), Some(TcAt(k)), true),
                 LateNetwork(k))
  {
    hide SignVote, TcAt, TimedOutState, LateState, Unforged, TcVerifies;
    VotesAfterTimeouts(k);
    TimedOutNodes(k);
    TcIsValid(k);
    TcIsUnforged(k, k);
    GenesisIsUnforged(TimedOutNetwork(k));
    SoloVoteStep(TimedOutNetwork(k), Proposal(k + 1, QcAt(0)), Some(TcAt(k)), LateState(k + 1),
                 SoloVote(LateData(k + 1), EMPTY_BLOCK_INFO));
  }

  lemma GenesisIsUnforged(n: Network)
    ensures UnforgedQc(SOLO_CONFIG, n, QcAt(0))
  {
  }

  lemma LastVoteHappens(k: nat)
    requires 0 < k && k + 2 <= U64_MAX
    ensures Next(SOLO_CONFIG, LateNetwork(k), VoteStep(1, Proposal(k + 2, LateQc(k + 1)), None, true), LastNetwork(k))
  {
    hide SignVote, SoloSignature, TimedOutNetwork;
    VotesOnLateBlock(k + 1);
    SoloSignatureVerifies(LedgerInfo(EMPTY_BLOCK_INFO, VoteDataHash(LateData(k + 1))));
    SoloVoteStep(LateNetwork(k), Proposal(k + 2, LateQc(k + 1)), None, LastState(k + 2),
                 SoloVote(DataAt(k + 2), InfoAt(k + 1)));
  }

  /** However many rounds time out, a block can be committed in the round after them. */
  lemma CommitsAfterTimeouts(k: nat) returns (trace: seq<Network>, steps: seq<Step>, qc: QuorumCert)
    requires 0 < k && k + 2 <= U64_MAX
    ensures IsRun(SOLO_CONFIG, trace, steps) && |steps| == k + 3 && steps[..k + 1] == TimeoutSteps(k)
    ensures Commits(SOLO_CONFIG, trace[|trace| - 1], 1, qc) && qc.CommitInfo() == InfoAt(k + 1)
  {
    hide Next, Initial, LateNetwork, LastNetwork, TimedOutNetwork, SoloSignature, MultiSignatureVerdict, TcAt,
         TimeoutStepAt;
    TimeoutsAreARun(k);
    LateVoteHappens(k);
    LastVoteHappens(k);
    trace := TimeoutTrace(k) + [LateNetwork(k), LastNetwork(k)];
    steps := TimeoutSteps(k) + [VoteStep(1, Proposal(k + 1, QcAt(0)), Some(TcAt(k)), true),
                                VoteStep(1, Proposal(k + 2, LateQc(k + 1)), None, true)];
    forall i | 0 <= i < |steps| ensures Next(SOLO_CONFIG, trace[i], steps[i], trace[i + 1]) {
      if i < k + 1 {
        assert Next(SOLO_CONFIG, TimeoutTrace(k)[i], TimeoutSteps(k)[i], TimeoutTrace(k)[i + 1]);
      }
    }
    qc := SoloQc(DataAt(k + 2), InfoAt(k + 1));
    LastCommits(k, qc);
  }

  lemma LastCommits(k: nat, qc: QuorumCert)
    requires 0 < k && qc == SoloQc(DataAt(k + 2), InfoAt(k + 1))
    ensures Commits(SOLO_CONFIG, LastNetwork(k), 1, qc)
  {
    hide MultiSignatureVerdict, SoloSignature, LateNetwork, LastState;
    SoloSignatureVerifies(LedgerInfo(InfoAt(k + 1), VoteDataHash(DataAt(k + 2))));
  }
}
