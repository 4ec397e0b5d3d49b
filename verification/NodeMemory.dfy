/** When a validator sends a vote, and what it remembers of it: over any sequence of proposals, timeouts,
    failures, restarts and epochs. */
module NodeMemory {
  import opened Types
  import opened Certificates
  import opened TwoChainRules
  import opened VotingNode

  /** The vote sent at event `i`, if any. */
  function SentAt(start: Node, events: seq<Event>, i: nat): Option<Vote>
    requires i < |events|
  {
    Handle(HistoryAfter(start, events[..i]).node, events[i]).1
  }

  /** The last vote sent since the round began, or found in the database by a restart since. */
  function Remembered(start: Node, events: seq<Event>): Option<Vote> {
    if events == [] then None
    else
      var i := |events| - 1;
      var n, before := HistoryAfter(start, events[..i]).node, Remembered(start, events[..i]);
      if SentAt(start, events, i).Some? then SentAt(start, events, i)
      else
        match events[i]
        case NewRound(round) => if round > n.currentRound then None else before
        case NewEpoch(_, _) => None
        case Restart(round) => if IsSaved(n, round) then n.persisted else None
        case _ => before
  }

  /** The database holds a vote of this round, in the epoch of the safety rules. */
  predicate IsSaved(n: Node, round: Round) {
    n.persisted.Some? && n.persisted.value.Epoch() == n.rules.data.epoch && n.persisted.value.Round() == round
  }

  // Invariant

  /** A vote of this round or a later one of the epoch is in the database. */
  predicate SavedUpTo(n: Node, round: Round) {
    n.persisted.Some? && n.persisted.value.Epoch() == n.rules.data.epoch && n.persisted.value.Round() >= round
  }

  predicate LastVoteInvariant(d: SafetyData) {
    d.lastVote.Some? ==>
      && !d.lastVote.value.IsTimeout() && d.lastVote.value.Epoch() == d.epoch
      && d.lastVote.value.Round() <= d.lastVotedRound
  }

  predicate PersistedInvariant(n: Node) {
    var d := n.rules.data;
    n.persisted.Some? ==>
      && !n.persisted.value.IsTimeout() && n.persisted.value.Epoch() <= d.epoch
      && (n.persisted.value.Epoch() == d.epoch ==>
            d.lastVote.Some? && n.persisted.value.Round() <= d.lastVote.value.Round())
  }

  predicate VoteSentInvariant(n: Node) {
    var d := n.rules.data;
    n.voteSent.Some? ==>
      var vote := n.voteSent.value;
      && vote.Round() == n.currentRound && vote.Epoch() == d.epoch && SavedUpTo(n, vote.Round())
      && (vote.IsTimeout() ==>
            && vote.timeout.value.0.epoch == vote.Epoch() && vote.timeout.value.0.round == vote.Round()
            && d.lastVotedRound == vote.Round())
  }

  predicate MemoryInvariant(n: Node) {
    LastVoteInvariant(n.rules.data) && PersistedInvariant(n) && VoteSentInvariant(n)
  }

  /** What voting does: the vote is of the block's round and epoch, and is the last vote from then on. */
  lemma SignedVote(s: SafetyState, p: VoteProposal, tc: Option<TimeoutCert>, stored: bool)
    requires LastVoteInvariant(s.data)
    ensures var (s', r) := SignVote(s, p, tc, stored);
      && LastVoteInvariant(s'.data) && s'.data.epoch == s.data.epoch && s'.signer == s.signer
      && s'.data.lastVotedRound >= s.data.lastVotedRound
      && (s.data.lastVote.Some? ==>
            s'.data.lastVote.Some? && s'.data.lastVote.value.Round() >= s.data.lastVote.value.Round())
      && (r.Ok? ==>
            && r.value.Round() == p.block.round && r.value.Epoch() == s.data.epoch && !r.value.IsTimeout()
            && s'.data.lastVote == Some(r.value))
  {
    hide SignVote;
    var (s', r) := SignVote(s, p, tc, stored);
    if r.Ok? && (s.data.lastVote.None? || s.data.lastVote.value.Round() != p.block.round) {
      FreshVote(s, p, tc, stored);
      VoteSays(s, p, tc, stored);
    } else {
      RepeatedVote(s, p, tc, stored);
      if r.Ok? {
        RepeatedRound(s, p, tc, stored);
      }
    }
  }

  lemma RepeatedRound(s: SafetyState, p: VoteProposal, tc: Option<TimeoutCert>, stored: bool)
    requires SignVote(s, p, tc, stored).1.Ok? && SignVote(s, p, tc, stored).0 == s
    requires s.data.lastVote.Some? && SignVote(s, p, tc, stored).1.value == s.data.lastVote.value
    requires LastVoteInvariant(s.data)
    ensures s.data.lastVote.value.Round() == p.block.round
  {
    hide SignVote;
    if s.data.lastVote.value.Round() != p.block.round {
      FreshVote(s, p, tc, stored);
    }
  }

  lemma SignedTimeoutState(s: SafetyState, t: TwoChainTimeout, tc: Option<TimeoutCert>, stored: bool)
    ensures var (s', r) := SignTimeout(s, t, tc, stored);
      && (r.Err? ==> s' == s)
      && (r.Ok? ==>
            && s' == s.(data := s.data.(lastVotedRound := t.round)) && t.round >= s.data.lastVotedRound
            && s.signer.Some? && r.value == Sign(s.signer.value.key, t.SigningFormat()))
  {
    hide QcVerifies, TcVerifies;
  }

  /** Voting for a block: the vote is saved before it is returned, and nothing else changes in the node. */
  lemma ExecuteKeepsMemory(n: Node, p: VoteProposal, env: Env)
    requires MemoryInvariant(n) && (n.voteSent.None? ==> p.block.round == n.currentRound)
    ensures var (n', vote) := ExecuteAndVote(n, p, env);
      && MemoryInvariant(n') && n'.voteSent == n.voteSent && n'.currentRound == n.currentRound
      && n'.rules.data.epoch == n.rules.data.epoch && n'.rules.signer == n.rules.signer
      && (forall round :: SavedUpTo(n, round) ==> SavedUpTo(n', round))
      && (vote.Some? ==>
            && n.voteSent.None? && vote.value.Round() == n.currentRound && vote.value.Epoch() == n.rules.data.epoch
            && !vote.value.IsTimeout() && n'.persisted == vote && IsSaved(n', n.currentRound))
  {
    hide SignVote;
    SignedVote(n.rules, p, env.tc, env.stored);
    var (rules, r) := SignVote(n.rules, p, env.tc, env.stored);
    assert r.Ok? || r.Err?;
  }

  /** Sending a timeout on a saved vote of the round: what is sent is remembered and carries a timeout. */
  lemma TimeoutKeepsMemory(n: Node, vote: Vote, qc: QuorumCert, stored: bool, tc: Option<TimeoutCert>)
    requires MemoryInvariant(n) && vote.Round() == n.currentRound && vote.Epoch() == n.rules.data.epoch
    requires SavedUpTo(n, vote.Round()) && (vote.IsTimeout() ==> n.voteSent == Some(vote))
    ensures var (n', sent) := SendTimeout(n, vote, qc, stored, tc);
      && MemoryInvariant(n') && n'.persisted == n.persisted && n'.currentRound == n.currentRound
      && n'.rules.data.epoch == n.rules.data.epoch
      && (sent.None? ==> n' == n)
      && (sent.Some? ==>
            && n'.voteSent == sent && BallotOf(sent.value) == BallotOf(vote) && sent.value.IsTimeout()
            && IsSaved(n', n.currentRound))
  {
    hide SignTimeout;
    var t := TwoChainTimeout(vote.Epoch(), vote.Round(), qc);
    SignedTimeoutState(n.rules, t, tc, stored);
    var (rules, r) := SignTimeout(n.rules, t, tc, stored);
    assert r.Ok? || r.Err?;
  }

  lemma RoundTimeoutKeepsMemory(n: Node, round: Round, nil: VoteProposal, qc: QuorumCert, stored: bool, env: Env)
    requires MemoryInvariant(n)
    ensures var (n', sent) := OnTimeout(n, round, nil, qc, stored, env);
      && MemoryInvariant(n') && n'.currentRound == n.currentRound && n'.rules.data.epoch == n.rules.data.epoch
      && (forall r :: SavedUpTo(n, r) ==> SavedUpTo(n', r))
      && (sent.None? ==> n'.voteSent == n.voteSent)
      && (sent.Some? ==> n'.voteSent == sent && sent.value.IsTimeout() && IsSaved(n', n.currentRound))
      && (n.voteSent.Some? ==>
            n'.persisted == n.persisted && (sent.Some? ==> BallotOf(sent.value) == BallotOf(n.voteSent.value)))
  {
    hide SendTimeout, ExecuteAndVote, MemoryInvariant, LastVoteInvariant;
    assert VoteSentInvariant(n) by { Parts(n); }
    if round != n.currentRound || env.syncOnly {
    } else if n.voteSent.Some? {
      TimeoutKeepsMemory(n, n.voteSent.value, qc, stored, env.tc);
    } else {
      var p := nil.(block := nil.block.(round := round));
      ExecuteKeepsMemory(n, p, env);
      var (next, vote) := ExecuteAndVote(n, p, env);
      if vote.Some? {
        TimeoutKeepsMemory(next, vote.value, qc, stored, env.tc);
      }
    }
  }

  lemma Parts(n: Node)
    requires MemoryInvariant(n)
    ensures VoteSentInvariant(n) && PersistedInvariant(n) && LastVoteInvariant(n.rules.data)
  {
  }

  lemma ProposalKeepsMemory(n: Node, p: VoteProposal, env: Env)
    requires MemoryInvariant(n)
    ensures var (n', sent) := OnProposal(n, p, env);
      && MemoryInvariant(n') && n'.currentRound == n.currentRound && n'.rules.data.epoch == n.rules.data.epoch
      && (forall r :: SavedUpTo(n, r) ==> SavedUpTo(n', r))
      && (sent.None? ==> n'.voteSent == n.voteSent)
      && (sent.Some? ==> n.voteSent.None? && n'.voteSent == sent && IsSaved(n', n.currentRound))
      && (n.voteSent.Some? ==> n'.persisted == n.persisted)
  {
    hide SignVote;
    if p.block.round == n.currentRound {
      ExecuteKeepsMemory(n, p, env);
    }
  }

  /** Every event keeps the invariant and what was saved in the epoch; a vote that is sent is saved. */
  lemma EventKeepsMemory(n: Node, e: Event)
    requires MemoryInvariant(n)
    ensures var (n', sent) := Handle(n, e);
      && MemoryInvariant(n') && n'.rules.data.epoch >= n.rules.data.epoch
      && (n'.rules.data.epoch == n.rules.data.epoch ==> forall r :: SavedUpTo(n, r) ==> SavedUpTo(n', r))
      && (sent.Some? ==> n'.voteSent == sent && IsSaved(n', n'.currentRound) && n'.currentRound == n.currentRound)
  {
    hide OnTimeout, ExecuteAndVote, OnProposal;
    match e
    case Proposal(p, env) => ProposalKeepsMemory(n, p, env);
    case LocalTimeout(round, nil, qc, stored, env) => RoundTimeoutKeepsMemory(n, round, nil, qc, stored, env);
    case EchoedTimeout(round, nil, qc, stored, env) => RoundTimeoutKeepsMemory(n, round, nil, qc, stored, env);
    case NewRound(_) =>
    case Restart(_) =>
    case NewEpoch(_, _) =>
  }

  ghost predicate SentAreSaved(h: History) {
    && MemoryInvariant(h.node)
    && (forall v :: v in h.sent ==>
          v.Epoch() <= h.node.rules.data.epoch
          && (v.Epoch() == h.node.rules.data.epoch ==> SavedUpTo(h.node, v.Round())))
  }

  lemma {:induction false} RunKeepsMemory(start: Node, events: seq<Event>)
    requires FreshNode(start)
    ensures SentAreSaved(HistoryAfter(start, events))
  {
    hide Handle, MemoryInvariant, SavedUpTo;
    if events == [] {
      FreshIsConsistent(start);
    } else {
      var n := |events| - 1;
      var h := HistoryAfter(start, events[..n]);
      RunKeepsMemory(start, events[..n]);
      EventKeepsMemory(h.node, events[n]);
      var (n', sent) := Handle(h.node, events[n]);
      if sent.Some? {
        Parts(n');
      }
    }
  }

  lemma FreshIsConsistent(n: Node)
    requires FreshNode(n)
    ensures MemoryInvariant(n)
  {
  }

  // What is remembered

  /** The node's memory of the round is what it sent or found. */
  lemma {:induction false} RemembersTheRound(start: Node, events: seq<Event>)
    requires FreshNode(start)
    ensures HistoryAfter(start, events).node.voteSent == Remembered(start, events)
  {
    if events != [] {
      var n := |events| - 1;
      RemembersTheRound(start, events[..n]);
      RunKeepsMemory(start, events[..n]);
      MemoryStep(HistoryAfter(start, events[..n]).node, events[n]);
    }
  }

  lemma MemoryStep(n: Node, e: Event)
    requires MemoryInvariant(n)
    ensures var (n', sent) := Handle(n, e);
      && (sent.Some? ==> n'.voteSent == sent)
      && (sent.None? ==>
            n'.voteSent == match e
                           case NewRound(round) => if round > n.currentRound then None else n.voteSent
                           case NewEpoch(_, _) => None
                           case Restart(round) => if IsSaved(n, round) then n.persisted else None
                           case _ => n.voteSent)
  {
    hide OnTimeout, OnProposal;
    match e
    case Proposal(p, env) => ProposalKeepsMemory(n, p, env);
    case LocalTimeout(round, nil, qc, stored, env) => RoundTimeoutKeepsMemory(n, round, nil, qc, stored, env);
    case EchoedTimeout(round, nil, qc, stored, env) => RoundTimeoutKeepsMemory(n, round, nil, qc, stored, env);
    case NewRound(_) =>
    case Restart(_) =>
    case NewEpoch(_, _) =>
  }

  lemma LastSent(start: Node, events: seq<Event>, e: Event)
    ensures var all := events + [e];
      && SentAt(start, all, |events|) == Handle(HistoryAfter(start, events).node, e).1
      && HistoryAfter(start, all) == Extend(HistoryAfter(start, events), e)
  {
    assert (events + [e])[..|events|] == events;
  }

  /** A proposal is answered with a vote exactly if it is of the current round, no vote of the round is
      remembered, the node is not only syncing, and inserting, signing and saving succeed; the vote is then in
      the database and remembered. */
  lemma ProposalSentIff(start: Node, events: seq<Event>, p: VoteProposal, env: Env)
    requires FreshNode(start)
    ensures var n := HistoryAfter(start, events).node;
      var all := events + [Event.Proposal(p, env)];
      var (rules, r) := SignVote(n.rules, p, env.tc, env.stored);
      && (SentAt(start, all, |events|).Some?
          <==> && p.block.round == n.currentRound && Remembered(start, events).None? && !env.syncOnly
               && env.inserted && r.Ok? && env.saved)
      && (SentAt(start, all, |events|).Some? ==>
            var n' := HistoryAfter(start, all).node;
            && SentAt(start, all, |events|) == Some(r.value) == n'.persisted == Remembered(start, all)
            && n'.rules == rules && r.value in HistoryAfter(start, all).sent)
  {
    hide SignVote;
    RemembersTheRound(start, events);
    RunKeepsMemory(start, events);
    LastSent(start, events, Event.Proposal(p, env));
    RemembersTheRound(start, events + [Event.Proposal(p, env)]);
    var n := HistoryAfter(start, events).node;
    ProposalKeepsMemory(n, p, env);
    if n.voteSent.None? && !env.syncOnly {
      NilVote(n, p, env);
    }
  }

  /** So an acceptable proposal of a new current round that follows is voted for, whatever came before. */
  lemma NewProposalIsVotedFor(start: Node, events: seq<Event>, p: VoteProposal, env: Env)
    requires FreshNode(start) && env.inserted && env.stored && env.saved && !env.syncOnly
    requires Remembered(start, events).None?
    requires var n := HistoryAfter(start, events).node;
      && p.block.round == n.currentRound && n.rules.data.lastVotedRound < p.block.round <= U64_MAX
      && Acceptable(n.rules, p) && Follows(p.block, env.tc)
      && (env.tc.Some? ==> TcVerifies(n.rules.epochState.value.verifier, env.tc.value))
    ensures var sent := SentAt(start, events + [Event.Proposal(p, env)], |events|);
      && sent.Some? && !sent.value.IsTimeout() && sent.value.voteData.proposed.id == p.block.id
      && sent.value.Round() == p.block.round && sent.value.voteData.parent == p.block.quorumCert.Certified()
  {
    hide SignVote, QcVerifies, TcVerifies, MemoryInvariant;
    var s := HistoryAfter(start, events).node.rules;
    VoteGivenIff(s, p, env.tc, env.stored);
    ProposalSentIff(start, events, p, env);
    RunKeepsMemory(start, events);
    Parts(HistoryAfter(start, events).node);
    FreshVote(s, p, env.tc, env.stored);
    VoteSays(s, p, env.tc, env.stored);
  }

  /** What a timeout of the round is signed on: the remembered vote, or a vote for a nil block. */
  ghost predicate TimeoutGoesOut(n: Node, remembered: Option<Vote>, round: Round, nil: VoteProposal, qc: QuorumCert,
                                 stored: bool, env: Env) {
    var t := TwoChainTimeout(n.rules.data.epoch, round, qc);
    var (rules, r) := SignVote(n.rules, nil.(block := nil.block.(round := round)), env.tc, env.stored);
    match remembered
    case Some(vote) => vote.IsTimeout() || SignTimeout(n.rules, t, env.tc, stored).1.Ok?
    case None => env.inserted && r.Ok? && env.saved && SignTimeout(rules, t, env.tc, stored).1.Ok?
  }

  /** A local timeout of the current round sends a vote exactly if one is remembered, or one for a nil block
      can be signed and saved, and a timeout can be signed on it.  It has the ballot of the remembered vote,
      and a timeout of that round with the given certificate; a timeout already sent is repeated. */
  lemma LocalTimeoutSends(start: Node, events: seq<Event>, round: Round, nil: VoteProposal, qc: QuorumCert,
                          stored: bool, env: Env)
    requires FreshNode(start)
    ensures var n, remembered := HistoryAfter(start, events).node, Remembered(start, events);
      var all := events + [LocalTimeout(round, nil, qc, stored, env)];
      var sent := SentAt(start, all, |events|);
      && (sent.Some? <==> && round == n.currentRound && !env.syncOnly
                          && TimeoutGoesOut(n, remembered, round, nil, qc, stored, env))
      && (sent.Some? ==>
            var vote := sent.value;
            && vote.IsTimeout() && vote.Round() == round && vote.Epoch() == n.rules.data.epoch
            && vote.timeout.value.0.epoch == vote.Epoch() && vote.timeout.value.0.round == round
            && Remembered(start, all) == sent
            && (remembered.Some? ==> BallotOf(vote) == BallotOf(remembered.value))
            && (if remembered.Some? && remembered.value.IsTimeout() then vote == remembered.value
                else vote.timeout.value.0.quorumCert == qc && n.rules.signer.Some?
                     && vote.timeout.value.1 == Sign(n.rules.signer.value.key, vote.timeout.value.0.SigningFormat())))
  {
    hide SignVote, SignTimeout, MemoryInvariant, ExecuteAndVote, SendTimeout;
    var n := HistoryAfter(start, events).node;
    var e := LocalTimeout(round, nil, qc, stored, env);
    RemembersTheRound(start, events);
    RunKeepsMemory(start, events);
    LastSent(start, events, e);
    RemembersTheRound(start, events + [e]);
    EventKeepsMemory(n, e);
    Parts(n);
    if round == n.currentRound && !env.syncOnly {
      if n.voteSent.Some? {
        SentTimeout(n, n.voteSent.value, qc, stored, env.tc);
      } else {
        var p := nil.(block := nil.block.(round := round));
        NilVote(n, p, env);
        var (next, vote) := ExecuteAndVote(n, p, env);
        ExecuteKeepsMemory(n, p, env);
        if vote.Some? {
          SentTimeout(next, vote.value, qc, stored, env.tc);
        }
      }
    }
  }

  lemma NilVote(n: Node, p: VoteProposal, env: Env)
    requires n.voteSent.None? && !env.syncOnly
    ensures var (rules, r) := SignVote(n.rules, p, env.tc, env.stored);
      var (next, vote) := ExecuteAndVote(n, p, env);
      (vote.Some? <==> env.inserted && r.Ok? && env.saved) && (vote.Some? ==> next.rules == rules)
  {
    hide SignVote;
    var (rules, r) := SignVote(n.rules, p, env.tc, env.stored);
    assert r.Ok? || r.Err?;
  }

  lemma SentTimeout(n: Node, vote: Vote, qc: QuorumCert, stored: bool, tc: Option<TimeoutCert>)
    ensures var t := TwoChainTimeout(vote.Epoch(), vote.Round(), qc);
      var r := SignTimeout(n.rules, t, tc, stored).1;
      var sent := SendTimeout(n, vote, qc, stored, tc).1;
      && (sent.Some? <==> vote.IsTimeout() || r.Ok?)
      && (vote.IsTimeout() ==> sent == Some(vote))
      && (!vote.IsTimeout() && r.Ok? ==>
            && sent == Some(vote.(timeout := Some((t, r.value)))) && n.rules.signer.Some?
            && r.value == Sign(n.rules.signer.value.key, t.SigningFormat()))
  {
    hide SignTimeout;
    SignedTimeoutState(n.rules, TwoChainTimeout(vote.Epoch(), vote.Round(), qc), tc, stored);
  }

  /** An echoed timeout is taken as a local one, unless a timeout of the round was sent already. */
  lemma EchoSends(start: Node, events: seq<Event>, round: Round, nil: VoteProposal, qc: QuorumCert, stored: bool,
                  env: Env)
    requires FreshNode(start)
    ensures var remembered := Remembered(start, events);
      SentAt(start, events + [EchoedTimeout(round, nil, qc, stored, env)], |events|)
      == if remembered.Some? && remembered.value.IsTimeout() then None
         else SentAt(start, events + [LocalTimeout(round, nil, qc, stored, env)], |events|)
  {
    hide OnTimeout;
    RemembersTheRound(start, events);
    LastSent(start, events, EchoedTimeout(round, nil, qc, stored, env));
    LastSent(start, events, LocalTimeout(round, nil, qc, stored, env));
  }

  // Rounds and epochs

  /** The round that the events lead to, from the given one. */
  function RoundAfter(first: Round, events: seq<Event>): Round {
    if events == [] then first
    else
      var i := |events| - 1;
      var before := RoundAfter(first, events[..i]);
      match events[i]
      case NewRound(round) => Max(round, before)
      case Restart(round) => round
      case NewEpoch(_, round) => round
      case _ => before
  }

  /** The node is in the highest round announced since it last started or entered an epoch. */
  lemma {:induction false} FollowsRounds(start: Node, events: seq<Event>)
    requires FreshNode(start)
    ensures HistoryAfter(start, events).node.currentRound == RoundAfter(start.currentRound, events)
  {
    if events != [] {
      var i := |events| - 1;
      var n := HistoryAfter(start, events[..i]).node;
      FollowsRounds(start, events[..i]);
      RunKeepsMemory(start, events[..i]);
      RoundStep(n, events[i]);
    }
  }

  lemma RoundStep(n: Node, e: Event)
    requires MemoryInvariant(n)
    ensures Handle(n, e).0.currentRound == match e
                                           case NewRound(round) => Max(round, n.currentRound)
                                           case Restart(round) => round
                                           case NewEpoch(_, round) => round
                                           case _ => n.currentRound
  {
    hide OnTimeout, OnProposal;
    match e
    case Proposal(p, env) => ProposalKeepsMemory(n, p, env);
    case LocalTimeout(round, nil, qc, stored, env) => RoundTimeoutKeepsMemory(n, round, nil, qc, stored, env);
    case EchoedTimeout(round, nil, qc, stored, env) => RoundTimeoutKeepsMemory(n, round, nil, qc, stored, env);
    case NewRound(_) =>
    case Restart(_) =>
    case NewEpoch(_, _) =>
  }

  /** In a later epoch a node starts afresh: whatever it did before, it remembers no vote of the round and votes
      for the first acceptable proposal that follows. */
  lemma NewEpochIsVotedIn(start: Node, events: seq<Event>, es: EpochState, p: VoteProposal, env: Env)
    requires FreshNode(start) && HistoryAfter(start, events).node.rules.data.epoch < es.epoch
    requires 0 < p.block.round <= U64_MAX
    requires env.inserted && env.stored && env.saved && !env.syncOnly && Follows(p.block, env.tc)
    requires var s := StartEpoch(HistoryAfter(start, events).node.rules, es);
      Acceptable(s, p) && (env.tc.Some? ==> TcVerifies(es.verifier, env.tc.value))
    ensures var entered := events + [NewEpoch(es, p.block.round)];
      var sent := SentAt(start, entered + [Event.Proposal(p, env)], |entered|);
      sent.Some? && sent.value.voteData.proposed.id == p.block.id && sent.value.Epoch() == es.epoch
  {
    hide SignVote, QcVerifies, TcVerifies, MemoryInvariant;
    var enter := NewEpoch(es, p.block.round);
    LastSent(start, events, enter);
    assert (events + [enter])[..|events|] == events;
    NewProposalIsVotedFor(start, events + [enter], p, env);
    ProposalSentIff(start, events + [enter], p, env);
    FreshVote(HistoryAfter(start, events + [enter]).node.rules, p, env.tc, env.stored);
  }

  // After a vote of the round

  /** The event leaves the node in its round; a restart may come back into it. */
  predicate KeepsRound(n: Node, e: Event) {
    match e
    case NewRound(round) => round <= n.currentRound
    case NewEpoch(_, _) => false
    case Restart(round) => round == n.currentRound
    case _ => true
  }

  ghost predicate StaysInRound(start: Node, events: seq<Event>, i: nat, j: nat)
    requires j <= |events|
  {
    forall k :: i < k < j ==> KeepsRound(HistoryAfter(start, events[..k]).node, events[k])
  }

  /** A vote of the round is remembered and in the database. */
  predicate Holds(n: Node, ballot: Vote) {
    && n.voteSent.Some? && BallotOf(n.voteSent.value) == ballot && n.persisted == Some(ballot)
    && IsSaved(n, n.currentRound)
  }

  lemma HoldsInTimeout(n: Node, round: Round, nil: VoteProposal, qc: QuorumCert, stored: bool, env: Env, ballot: Vote)
    requires MemoryInvariant(n) && Holds(n, ballot)
    ensures var (n', sent) := OnTimeout(n, round, nil, qc, stored, env);
      Holds(n', ballot) && (sent.Some? ==> sent.value.IsTimeout() && BallotOf(sent.value) == ballot)
  {
    hide OnTimeout, MemoryInvariant;
    RoundTimeoutKeepsMemory(n, round, nil, qc, stored, env);
    var (n', sent) := OnTimeout(n, round, nil, qc, stored, env);
    assert sent.Some? || sent.None?;
  }

  lemma HoldsInRound(n: Node, e: Event, ballot: Vote)
    requires MemoryInvariant(n) && Holds(n, ballot) && KeepsRound(n, e)
    ensures var (n', sent) := Handle(n, e);
      Holds(n', ballot) && (sent.Some? ==> sent.value.IsTimeout() && BallotOf(sent.value) == ballot)
  {
    hide OnTimeout, OnProposal;
    assert Handle(n, e).1.Some? || Handle(n, e).1.None?;
    match e
    case Proposal(p, env) => ProposalKeepsMemory(n, p, env);
    case LocalTimeout(round, nil, qc, stored, env) => HoldsInTimeout(n, round, nil, qc, stored, env, ballot);
    case EchoedTimeout(round, nil, qc, stored, env) => HoldsInTimeout(n, round, nil, qc, stored, env, ballot);
    case NewRound(_) =>
    case Restart(_) =>
    case NewEpoch(_, _) =>
  }

  /** A vote that was just sent is held. */
  lemma SentIsHeld(start: Node, events: seq<Event>, i: nat)
    requires FreshNode(start) && i < |events| && SentAt(start, events, i).Some?
    ensures Holds(HistoryAfter(start, events[..i + 1]).node, BallotOf(SentAt(start, events, i).value))
  {
    hide Handle, MemoryInvariant, HistoryInvariant;
    var upTo := events[..i + 1];
    assert upTo[..i] == events[..i];
    RunKeepsMemory(start, events[..i]);
    EventKeepsMemory(HistoryAfter(start, events[..i]).node, events[i]);
    RunKeepsMemory(start, upTo);
    RunKeeps(start, upTo);
    var h := HistoryAfter(start, upTo);
    Parts(h.node);
    OneBallot(h, h.node.voteSent.value, h.node.persisted.value);
  }

  lemma OneBallot(h: History, v: Vote, w: Vote)
    requires HistoryInvariant(h) && h.node.voteSent == Some(v) && h.node.persisted == Some(w)
    requires v.Epoch() == w.Epoch() && v.Round() == w.Round()
    ensures BallotOf(v) == BallotOf(w)
  {
  }

  lemma {:induction false} HeldInRound(start: Node, events: seq<Event>, i: nat, j: nat)
    requires FreshNode(start) && i < j <= |events| && SentAt(start, events, i).Some?
    requires StaysInRound(start, events, i, j)
    ensures Holds(HistoryAfter(start, events[..j]).node, BallotOf(SentAt(start, events, i).value))
  {
    hide Handle, MemoryInvariant, Holds, KeepsRound;
    if j == i + 1 {
      SentIsHeld(start, events, i);
    } else {
      HeldInRound(start, events, i, j - 1);
      assert events[..j][..j - 1] == events[..j - 1];
      RunKeepsMemory(start, events[..j - 1]);
      HoldsInRound(HistoryAfter(start, events[..j - 1]).node, events[j - 1], BallotOf(SentAt(start, events, i).value));
    }
  }

  /** After a vote of the round was sent, and while the node stays in the round, crashes included, it sends
      only that vote again, with a timeout. */
  lemma OnlyTimeoutsAfterVote(start: Node, events: seq<Event>, i: nat, j: nat)
    requires FreshNode(start) && i < j < |events| && SentAt(start, events, i).Some?
    requires StaysInRound(start, events, i, j + 1)
    ensures SentAt(start, events, j).Some? ==>
      && SentAt(start, events, j).value.IsTimeout()
      && BallotOf(SentAt(start, events, j).value) == BallotOf(SentAt(start, events, i).value)
  {
    hide Handle, MemoryInvariant, Holds, KeepsRound;
    HeldInRound(start, events, i, j);
    RunKeepsMemory(start, events[..j]);
    HoldsInRound(HistoryAfter(start, events[..j]).node, events[j], BallotOf(SentAt(start, events, i).value));
  }
}
