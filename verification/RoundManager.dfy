/** The voting half of `RoundManager`: what one validator sends, across proposals, timeouts, failures,
    restarts and epochs. */
module VotingNode {
  import opened Types
  import opened Certificates
  import opened TwoChainRules

  /** Outcomes of the calls a handler makes: block insertion, `sync_only`, the safety store, the vote
      store, and the timeout certificate handed to the safety rules. */
  datatype Env = Env(inserted: bool, syncOnly: bool, stored: bool, saved: bool, tc: Option<TimeoutCert>)

  datatype Node = Node(
    rules: SafetyState,
    currentRound: Round,
    voteSent: Option<Vote>,
    persisted: Option<Vote>)

  datatype Event =
    | Proposal(proposal: VoteProposal, env: Env)
    | LocalTimeout(round: Round, nil: VoteProposal, qc: QuorumCert, timeoutStored: bool, env: Env)
    | EchoedTimeout(round: Round, nil: VoteProposal, qc: QuorumCert, timeoutStored: bool, env: Env)
    | NewRound(round: Round)
    | Restart(round: Round)
    | NewEpoch(epochState: EpochState, round: Round)

  /** `RoundState::record_vote`. */
  function RecordVote(n: Node, vote: Vote): Node {
    if vote.Round() == n.currentRound then n.(voteSent := Some(vote)) else n
  }

  /** `execute_and_vote`: at most one vote while a vote of the round is remembered. */
  function ExecuteAndVote(n: Node, p: VoteProposal, env: Env): (Node, Option<Vote>) {
    if !env.inserted || n.voteSent.Some? || env.syncOnly then (n, None)
    else
      var (rules, r) := SignVote(n.rules, p, env.tc, env.stored);
      var signed := n.(rules := rules);
      if r.Err? || !env.saved then (signed, None)
      else (signed.(persisted := Some(r.value)), Some(r.value))
  }

  function OnProposal(n: Node, p: VoteProposal, env: Env): (Node, Option<Vote>) {
    if p.block.round != n.currentRound then (n, None)
    else
      var (next, vote) := ExecuteAndVote(n, p, env);
      if vote.None? then (next, None) else (RecordVote(next, vote.value), vote)
  }

  /** Sign a timeout onto `vote`, unless it already carries one; remember it and send it. */
  function SendTimeout(n: Node, vote: Vote, qc: QuorumCert, timeoutStored: bool, tc: Option<TimeoutCert>)
    : (Node, Option<Vote>)
  {
    if vote.IsTimeout() then (RecordVote(n, vote), Some(vote))
    else
      var t := TwoChainTimeout(vote.Epoch(), vote.Round(), qc);
      var (rules, r) := SignTimeout(n.rules, t, tc, timeoutStored);
      if r.Err? then (n.(rules := rules), None)
      else
        var signed := vote.(timeout := Some((t, r.value)));
        (RecordVote(n.(rules := rules), signed), Some(signed))
  }

  /** `process_local_timeout`: repeat the round's vote with a timeout, or vote for a NIL block first. */
  function OnTimeout(n: Node, round: Round, nil: VoteProposal, qc: QuorumCert, timeoutStored: bool, env: Env)
    : (Node, Option<Vote>)
  {
    if round != n.currentRound || env.syncOnly then (n, None)
    else if n.voteSent.Some? && n.voteSent.value.Round() == round then
      SendTimeout(n, n.voteSent.value, qc, timeoutStored, env.tc)
    else
      var (next, vote) := ExecuteAndVote(n, nil.(block := nil.block.(round := round)), env);
      if vote.None? then (next, None) else SendTimeout(next, vote.value, qc, timeoutStored, env.tc)
  }

  /** `init` on a fresh `RoundState`: the stored vote is taken up if it is of this epoch and round. */
  function Restarted(n: Node, round: Round): Node {
    var fromStore := if n.persisted.Some? && n.persisted.value.Epoch() == n.rules.data.epoch then n.persisted else None;
    var empty := n.(currentRound := round, voteSent := None, persisted := fromStore);
    if fromStore.Some? then RecordVote(empty, fromStore.value) else empty
  }

  /** State after an event, and the vote sent, if any. */
  function Handle(n: Node, e: Event): (Node, Option<Vote>) {
    match e
    case Proposal(p, env) => OnProposal(n, p, env)
    case LocalTimeout(round, nil, qc, stored, env) => OnTimeout(n, round, nil, qc, stored, env)
    case EchoedTimeout(round, nil, qc, stored, env) =>
      if n.voteSent.Some? && n.voteSent.value.IsTimeout() then (n, None)
      else OnTimeout(n, round, nil, qc, stored, env)
    case NewRound(round) => (if round > n.currentRound then n.(currentRound := round, voteSent := None) else n, None)
    case Restart(round) => (Restarted(n, round), None)
    case NewEpoch(es, round) =>
      (n.(rules := StartEpoch(n.rules, es), currentRound := round, voteSent := None), None)
  }

  class RoundManager {
    const safetyRules: SafetyRules
    var currentRound: Round
    var voteSent: Option<Vote>
    var persisted: Option<Vote> // in the consensus database

    function State(): Node
      reads this, safetyRules
    {
      Node(safetyRules.State(), currentRound, voteSent, persisted)
    }

    constructor (rules: SafetyRules)
      ensures safetyRules == rules && State() == Node(rules.State(), 0, None, None)
    {
      safetyRules := rules;
      currentRound, voteSent, persisted := 0, None, None;
    }

    method Record(vote: Vote)
      modifies this`voteSent
      ensures State() == RecordVote(old(State()), vote)
    {
      if vote.Round() == currentRound {
        voteSent := Some(vote);
      }
    }

    method Vote(p: VoteProposal, env: Env) returns (vote: Option<Types.Vote>)
      modifies this`persisted, safetyRules`data
      ensures (State(), vote) == ExecuteAndVote(old(State()), p, env)
    {
      hide SignVote;
      if !env.inserted || voteSent.Some? || env.syncOnly {
        return None;
      }
      var r := safetyRules.ConstructAndSignVote(p, env.tc, env.stored);
      if r.Err? || !env.saved {
        return None;
      }
      persisted := Some(r.value);
      return Some(r.value);
    }

    method ProcessProposal(p: VoteProposal, env: Env) returns (sent: Option<Types.Vote>)
      modifies this`persisted, this`voteSent, safetyRules`data
      ensures (State(), sent) == OnProposal(old(State()), p, env)
    {
      hide SignVote;
      if p.block.round != currentRound {
        return None;
      }
      sent := Vote(p, env);
      if sent.Some? {
        Record(sent.value);
      }
    }

    method BroadcastTimeout(vote: Types.Vote, qc: QuorumCert, timeoutStored: bool, tc: Option<TimeoutCert>)
      returns (sent: Option<Types.Vote>)
      modifies this`voteSent, safetyRules`data
      ensures (State(), sent) == SendTimeout(old(State()), vote, qc, timeoutStored, tc)
    {
      hide SignTimeout;
      var timeoutVote := vote;
      if !timeoutVote.IsTimeout() {
        var t := TwoChainTimeout(vote.Epoch(), vote.Round(), qc);
        var r := safetyRules.SignTimeoutWithQc(t, tc, timeoutStored);
        if r.Err? {
          return None;
        }
        timeoutVote := timeoutVote.(timeout := Some((t, r.value)));
      }
      Record(timeoutVote);
      return Some(timeoutVote);
    }

    method ProcessLocalTimeout(round: Round, nil: VoteProposal, qc: QuorumCert, timeoutStored: bool, env: Env)
      returns (sent: Option<Types.Vote>)
      modifies this`persisted, this`voteSent, safetyRules`data
      ensures (State(), sent) == OnTimeout(old(State()), round, nil, qc, timeoutStored, env)
    {
      hide SignVote, SignTimeout;
      if round != currentRound || env.syncOnly {
        return None;
      }
      if voteSent.Some? && voteSent.value.Round() == round {
        sent := BroadcastTimeout(voteSent.value, qc, timeoutStored, env.tc);
      } else {
        var vote := Vote(nil.(block := nil.block.(round := round)), env);
        if vote.None? {
          return None;
        }
        sent := BroadcastTimeout(vote.value, qc, timeoutStored, env.tc);
      }
    }
  }

  // Whole runs

  /** The vote without the timeout that may be attached to it. */
  function BallotOf(vote: Vote): Vote {
    vote.(timeout := None)
  }

  /** A node with the ballots its safety rules ever signed and the votes it ever sent. */
  datatype History = History(node: Node, ballots: set<Vote>, sent: set<Vote>)

  /** The ballot signed while handling `e`, if any: the last vote of the safety rules. */
  function BallotsOf(rules: SafetyState): set<Vote> {
    if rules.data.lastVote.Some? then {BallotOf(rules.data.lastVote.value)} else {}
  }

  function Extend(h: History, e: Event): History {
    var (node, vote) := Handle(h.node, e);
    History(node, h.ballots + BallotsOf(node.rules), if vote.Some? then h.sent + {vote.value} else h.sent)
  }

  function HistoryAfter(start: Node, events: seq<Event>): History {
    if events == [] then History(start, {}, {})
    else Extend(HistoryAfter(start, events[..|events| - 1]), events[|events| - 1])
  }

  predicate FreshNode(n: Node) {
    n.rules.data == SafetyData(n.rules.data.epoch, 0, 0, 0, None) && n.voteSent.None? && n.persisted.None?
  }

  /** One ballot per epoch and round, all covered by the persisted safety data. */
  predicate BallotsConsistent(ballots: set<Vote>, data: SafetyData) {
    && (forall b, c ::
          (b in ballots && c in ballots
           && b.voteData.proposed.epoch == c.voteData.proposed.epoch
           && b.voteData.proposed.round == c.voteData.proposed.round)
          ==> b == c)
    && (forall b :: b in ballots ==>
          b.voteData.proposed.epoch <= data.epoch
          && (b.voteData.proposed.epoch == data.epoch ==> b.voteData.proposed.round <= data.lastVotedRound))
    && (data.lastVote.Some? ==>
          BallotOf(data.lastVote.value) in ballots && data.lastVote.value.Epoch() == data.epoch)
  }

  predicate HistoryInvariant(h: History) {
    && BallotsConsistent(h.ballots, h.node.rules.data)
    && (h.node.voteSent.Some? ==> BallotOf(h.node.voteSent.value) in h.ballots)
    && (h.node.persisted.Some? ==> BallotOf(h.node.persisted.value) in h.ballots)
    && (forall v :: v in h.sent ==> BallotOf(v) in h.ballots)
  }

  lemma SignVoteKeepsBallots(s: SafetyState, ballots: set<Vote>, p: VoteProposal, tc: Option<TimeoutCert>,
                             stored: bool)
    requires BallotsConsistent(ballots, s.data)
    ensures var (s', r) := SignVote(s, p, tc, stored);
      && BallotsConsistent(ballots + BallotsOf(s'), s'.data)
      && (r.Ok? ==> BallotOf(r.value) in ballots + BallotsOf(s'))
  {
    hide SignVote;
    var (s', r) := SignVote(s, p, tc, stored);
    if r.Ok? && (s.data.lastVote.None? || s.data.lastVote.value.Round() != p.block.round) {
      FreshVote(s, p, tc, stored);
    } else {
      RepeatedVote(s, p, tc, stored);
      assert ballots + BallotsOf(s') == ballots;
    }
  }

  lemma SignTimeoutKeepsBallots(s: SafetyState, ballots: set<Vote>, t: TwoChainTimeout, tc: Option<TimeoutCert>,
                                stored: bool)
    requires BallotsConsistent(ballots, s.data)
    ensures var (s', r) := SignTimeout(s, t, tc, stored);
      BallotsConsistent(ballots, s'.data) && s'.data.lastVote == s.data.lastVote
  {
    hide QcVerifies, TcVerifies;
  }

  lemma ExecuteKeeps(n: Node, ballots: set<Vote>, p: VoteProposal, env: Env)
    requires BallotsConsistent(ballots, n.rules.data)
    requires n.voteSent.Some? ==> BallotOf(n.voteSent.value) in ballots
    requires n.persisted.Some? ==> BallotOf(n.persisted.value) in ballots
    ensures var (n', vote) := ExecuteAndVote(n, p, env);
      var all := ballots + BallotsOf(n'.rules);
      && BallotsConsistent(all, n'.rules.data)
      && (n'.voteSent.Some? ==> BallotOf(n'.voteSent.value) in all)
      && (n'.persisted.Some? ==> BallotOf(n'.persisted.value) in all)
      && (vote.Some? ==> BallotOf(vote.value) in all)
  {
    hide SignVote, BallotsConsistent;
    if !env.inserted || n.voteSent.Some? || env.syncOnly {
      KnownBallots(ballots, n.rules);
    } else {
      SignVoteKeepsBallots(n.rules, ballots, p, env.tc, env.stored);
      var (rules, r) := SignVote(n.rules, p, env.tc, env.stored);
      assert ExecuteAndVote(n, p, env).0.persisted == if r.Err? || !env.saved then n.persisted else Some(r.value);
    }
  }

  lemma KnownBallots(ballots: set<Vote>, rules: SafetyState)
    requires BallotsConsistent(ballots, rules.data)
    ensures ballots + BallotsOf(rules) == ballots
  {
  }

  lemma TimeoutKeeps(n: Node, ballots: set<Vote>, vote: Vote, qc: QuorumCert, stored: bool, tc: Option<TimeoutCert>)
    requires BallotsConsistent(ballots, n.rules.data) && BallotOf(vote) in ballots
    requires n.voteSent.Some? ==> BallotOf(n.voteSent.value) in ballots
    requires n.persisted.Some? ==> BallotOf(n.persisted.value) in ballots
    ensures var (n', sent) := SendTimeout(n, vote, qc, stored, tc);
      && BallotsConsistent(ballots, n'.rules.data) && ballots + BallotsOf(n'.rules) == ballots
      && (n'.voteSent.Some? ==> BallotOf(n'.voteSent.value) in ballots)
      && (n'.persisted.Some? ==> BallotOf(n'.persisted.value) in ballots)
      && (sent.Some? ==> BallotOf(sent.value) == BallotOf(vote))
  {
    hide SignTimeout, BallotsConsistent;
    KnownBallots(ballots, n.rules);
    if !vote.IsTimeout() {
      SignTimeoutKeepsBallots(n.rules, ballots, TwoChainTimeout(vote.Epoch(), vote.Round(), qc), tc, stored);
      KnownBallots(ballots, SendTimeout(n, vote, qc, stored, tc).0.rules);
    }
  }

  lemma OnTimeoutKeeps(n: Node, ballots: set<Vote>, round: Round, nil: VoteProposal, qc: QuorumCert, stored: bool,
                       env: Env)
    requires BallotsConsistent(ballots, n.rules.data)
    requires n.voteSent.Some? ==> BallotOf(n.voteSent.value) in ballots
    requires n.persisted.Some? ==> BallotOf(n.persisted.value) in ballots
    ensures var (n', sent) := OnTimeout(n, round, nil, qc, stored, env);
      var all := ballots + BallotsOf(n'.rules);
      && BallotsConsistent(all, n'.rules.data)
      && (n'.voteSent.Some? ==> BallotOf(n'.voteSent.value) in all)
      && (n'.persisted.Some? ==> BallotOf(n'.persisted.value) in all)
      && (sent.Some? ==> BallotOf(sent.value) in all)
  {
    hide SendTimeout, ExecuteAndVote, BallotsConsistent;
    KnownBallots(ballots, n.rules);
    if round != n.currentRound || env.syncOnly {
    } else if n.voteSent.Some? && n.voteSent.value.Round() == round {
      TimeoutKeeps(n, ballots, n.voteSent.value, qc, stored, env.tc);
    } else {
      var p := nil.(block := nil.block.(round := round));
      ExecuteKeeps(n, ballots, p, env);
      var (next, vote) := ExecuteAndVote(n, p, env);
      if vote.Some? {
        var all := ballots + BallotsOf(next.rules);
        TimeoutKeeps(next, all, vote.value, qc, stored, env.tc);
        TimeoutKeepsLastVote(next, vote.value, qc, stored, env.tc);
      }
    }
  }

  lemma TimeoutKeepsLastVote(n: Node, vote: Vote, qc: QuorumCert, stored: bool, tc: Option<TimeoutCert>)
    ensures BallotsOf(SendTimeout(n, vote, qc, stored, tc).0.rules) == BallotsOf(n.rules)
  {
    hide QcVerifies, TcVerifies;
  }

  /** Every event keeps the history consistent. */
  lemma EventKeeps(h: History, e: Event)
    requires HistoryInvariant(h)
    ensures HistoryInvariant(Extend(h, e))
  {
    hide OnTimeout, ExecuteAndVote, BallotsConsistent;
    KnownBallots(h.ballots, h.node.rules);
    match e
    case Proposal(p, env) => ExecuteKeeps(h.node, h.ballots, p, env);
    case LocalTimeout(round, nil, qc, stored, env) => OnTimeoutKeeps(h.node, h.ballots, round, nil, qc, stored, env);
    case EchoedTimeout(round, nil, qc, stored, env) => OnTimeoutKeeps(h.node, h.ballots, round, nil, qc, stored, env);
    case NewRound(_) =>
    case Restart(_) =>
    case NewEpoch(es, round) => EpochKeepsBallots(h.node.rules, h.ballots, es);
  }

  lemma EpochKeepsBallots(s: SafetyState, ballots: set<Vote>, es: EpochState)
    requires BallotsConsistent(ballots, s.data)
    ensures BallotsConsistent(ballots, StartEpoch(s, es).data)
    ensures ballots + BallotsOf(StartEpoch(s, es)) == ballots
  {
  }

  lemma {:induction false} RunKeeps(start: Node, events: seq<Event>)
    requires FreshNode(start)
    ensures HistoryInvariant(HistoryAfter(start, events))
  {
    hide Extend;
    if events != [] {
      RunKeeps(start, events[..|events| - 1]);
      EventKeeps(HistoryAfter(start, events[..|events| - 1]), events[|events| - 1]);
    }
  }

  /** Whatever happens to a node, all votes it ever sends for one round of an epoch say the same. */
  lemma OneBallotPerRound(start: Node, events: seq<Event>, v: Vote, w: Vote)
    requires FreshNode(start)
    requires v in HistoryAfter(start, events).sent && w in HistoryAfter(start, events).sent
    requires v.Epoch() == w.Epoch() && v.Round() == w.Round()
    ensures BallotOf(v) == BallotOf(w) && v.Digest() == w.Digest()
  {
    hide HistoryAfter;
    RunKeeps(start, events);
    assert BallotOf(v) == BallotOf(w);
  }
}
