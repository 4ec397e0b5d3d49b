/** A validator that votes in every round, one that crashes and recovers, and one that repeats a vote. */
module NodeRuns {
  import opened Types
  import opened Certificates
  import opened TwoChainRules
  import opened VotingNode
  import opened NodeMemory
  import opened Progress
  import Recovery

  // Crash and recovery

  /** The vote in the database is the one sent last, if no later round was voted or timed out in. */
  lemma SentIsInDatabase(start: Node, events: seq<Event>, v: Vote)
    requires FreshNode(start) && v in HistoryAfter(start, events).sent
    requires var d := HistoryAfter(start, events).node.rules.data; v.Epoch() == d.epoch && d.lastVotedRound <= v.Round()
    ensures HistoryAfter(start, events).node.persisted == Some(BallotOf(v))
  {
    hide HistoryAfter;
    RunKeepsMemory(start, events);
    RunKeeps(start, events);
    var h := HistoryAfter(start, events);
    Parts(h.node);
    assert BallotOf(h.node.persisted.value) in h.ballots && BallotOf(v) in h.ballots;
  }

  /** A validator that sent a vote, crashes and recovers in that round takes that very vote out of the
      database, remembers it, and does not vote on any proposal of the round again. */
  lemma RecoveredNodeRemembers(start: Node, events: seq<Event>, committed: LedgerInfoWithSignatures,
                               store: Recovery.Store, v: Vote)
    requires FreshNode(start) && v in HistoryAfter(start, events).sent
    requires var n := HistoryAfter(start, events).node;
      && v.Epoch() == n.rules.data.epoch == Recovery.RootEpoch(committed) && n.rules.data.lastVotedRound <= v.Round()
      && store.lastVote == n.persisted
    requires Recovery.SoundStore(committed, store) && Recovery.Recover(committed, store).Ok?
    requires committed.ledgerInfo.EndsEpoch() || Recovery.RootIdBinds(committed, store.blocks)
    ensures Recovery.Recover(committed, store).value.lastVote == Some(BallotOf(v))
    ensures Remembered(start, events + [Restart(v.Round())]) == Some(BallotOf(v))
    ensures forall p, env ::
      SentAt(start, events + [Restart(v.Round())] + [Event.Proposal(p, env)], |events| + 1).None?
  {
    hide Recovery.Recover, Recovery.SoundStore, HistoryAfter, Remembered, SentAt;
    var restart := events + [Restart(v.Round())];
    SentIsInDatabase(start, events, v);
    Recovery.RecoverCarriesOver(committed, store);
    RestartRemembers(start, events, v);
    forall p, env ensures SentAt(start, restart + [Event.Proposal(p, env)], |restart|).None? {
      ProposalSentIff(start, restart, p, env);
    }
  }

  lemma RestartRemembers(start: Node, events: seq<Event>, v: Vote)
    requires HistoryAfter(start, events).node.persisted == Some(BallotOf(v))
    requires v.Epoch() == HistoryAfter(start, events).node.rules.data.epoch
    ensures Remembered(start, events + [Restart(v.Round())]) == Some(BallotOf(v))
  {
    LastSent(start, events, Restart(v.Round()));
    assert (events + [Restart(v.Round())])[..|events|] == events;
  }

  // A vote in every round

  const START := Node(StateAt(0), 0, None, None)
  const ALL_WELL := Env(true, false, true, true, None)

  function RoundEvents(r: Round): seq<Event> {
    if r == 0 then [] else RoundEvents(r - 1) + [NewRound(r)] + [Event.Proposal(ProposalAt(r), ALL_WELL)]
  }

  function NodeAt(r: Round): Node {
    var vote := if r == 0 then None else Some(VoteAt(r));
    Node(StateAt(r), r, vote, vote)
  }

  lemma VotesInNextRound(r: Round)
    requires r < U64_MAX
    ensures var n := Handle(NodeAt(r), NewRound(r + 1)).0;
      && n == NodeAt(r).(currentRound := r + 1, voteSent := None)
      && Handle(n, Event.Proposal(ProposalAt(r + 1), ALL_WELL)) == (NodeAt(r + 1), Some(VoteAt(r + 1)))
  {
    hide SignVote, StateAt, SignaturesAt, LedgerInfoAt;
    SignsNext(r);
  }

  /** For every round there is a history in which the node sends the vote of every round up to it. */
  lemma {:induction false} VotesInEveryRound(r: Round)
    requires r <= U64_MAX
    ensures FreshNode(START) && HistoryAfter(START, RoundEvents(r)).node == NodeAt(r)
    ensures forall q :: 0 < q <= r ==> VoteAt(q) in HistoryAfter(START, RoundEvents(r)).sent
  {
    hide Handle, StateAt, VoteAt, ProposalAt;
    assert FreshNode(START) by { StartIsFresh(); }
    if r > 0 {
      VotesInEveryRound(r - 1);
      VotesInNextRound(r - 1);
      var before := RoundEvents(r - 1);
      LastSent(START, before, NewRound(r));
      LastSent(START, before + [NewRound(r)], Event.Proposal(ProposalAt(r), ALL_WELL));
    }
  }

  lemma StartIsFresh()
    ensures FreshNode(START)
  {
  }

  /** A node that leaves the round by a restart and comes back to it forgets that it voted, and sends the same
      vote again, without a timeout. */
  lemma VoteCanBeRepeated(r: Round)
    requires 0 < r <= U64_MAX
    ensures var events := RoundEvents(r) + [Restart(r - 1)] + [NewRound(r)];
      && VoteAt(r) in HistoryAfter(START, events).sent && !VoteAt(r).IsTimeout()
      && SentAt(START, events + [Event.Proposal(ProposalAt(r), ALL_WELL)], |events|) == Some(VoteAt(r))
  {
    hide SignaturesAt, LedgerInfoAt, QcVerifies, HistoryAfter;
    VotesInEveryRound(r);
    var one := RoundEvents(r) + [Restart(r - 1)];
    LastSent(START, RoundEvents(r), Restart(r - 1));
    LastSent(START, one, NewRound(r));
    LastSent(START, one + [NewRound(r)], Event.Proposal(ProposalAt(r), ALL_WELL));
    RepeatsVote(r);
  }

  lemma RepeatsVote(r: Round)
    requires 0 < r <= U64_MAX
    ensures var n := Handle(Handle(NodeAt(r), Restart(r - 1)).0, NewRound(r)).0;
      && Handle(NodeAt(r), Restart(r - 1)).1.None? && Handle(Handle(NodeAt(r), Restart(r - 1)).0, NewRound(r)).1.None?
      && Handle(n, Event.Proposal(ProposalAt(r), ALL_WELL)).1 == Some(VoteAt(r))
  {
    hide SignVote, StateAt, SignaturesAt, LedgerInfoAt;
    SignsAgain(r);
    assert StateAt(r).data.epoch == 1 by { EpochOfState(r); }
  }

  lemma EpochOfState(r: Round)
    ensures StateAt(r).data.epoch == 1
  {
  }

  lemma SignsAgain(r: Round)
    requires 0 < r <= U64_MAX
    ensures SignVote(StateAt(r), ProposalAt(r), None, true) == (StateAt(r), Ok(VoteAt(r)))
  {
    hide SignaturesAt, QcVerifies;
    QcIsValid(r - 1);
  }
}
