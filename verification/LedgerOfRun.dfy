/** The light client against the consensus protocol: what a run of the validators signs, and hence what
    any response can make a client accept. */
module LedgerOfRun {
  import opened Types
  import opened BitVectors
  import opened VotingPower
  import opened MultiSignatures
  import opened EpochChanges
  import opened TrustedStates
  import opened TwoChain

  /** The result of executing a block, by block id. */
  type Execution = HashValue -> BlockInfo

  /** The ledger's epochs have the committees of the run. */
  ghost predicate EpochsAgree(c: Config, ledger: seq<LedgerInfo>) {
    forall m: nat, es :: Installs(ledger, m, es) ==> es.epoch in c.committees && c.committees[es.epoch] == es.verifier
  }

  /** Honest validators vote for blocks that are ordered only or for their execution, and cast commit votes
      for their execution. */
  ghost predicate ExecutesBy(n: Network, exec: Execution) {
    && (forall a :: (a in n.voted && a.message.LedgerInfoMessage?
                     && a.message.ledgerInfo.consensusDataHash.VoteDataHash?) ==>
          VotesFor(exec, a.message.ledgerInfo.consensusDataHash.voteData.proposed))
    && forall a :: a in n.signed && a !in n.voted && a.message.LedgerInfoMessage? ==>
         a.message.ledgerInfo.commitInfo == exec(a.message.ledgerInfo.commitInfo.id)
  }

  predicate VotesFor(exec: Execution, b: BlockInfo) {
    b.IsOrderedOnly() || b == exec(b.id)
  }

  /** A certified block of the next round commits the block above genesis with info `d.parent`. */
  ghost predicate CommittedBy(c: Config, n: Network, e: Epoch, d: VoteData) {
    Certified(c, n.voted, e, d) && d.parent.round + 1 == d.proposed.round && d.parent.round > 0
  }

  /** The ledger holds the execution of every block that the run commits. */
  ghost predicate Records(c: Config, n: Network, ledger: seq<LedgerInfo>, exec: Execution) {
    forall e, d :: CommittedBy(c, n, e, d) ==> Canonical(ledger, LedgerInfo(exec(d.parent.id), VoteDataHash(d)))
  }

  /** A vote on an info of round 0 has a state of the ledger only if that is the state in which its epoch
      started.  Nothing in the code makes sure of it. */
  ghost predicate VotesApart(n: Network, ledger: seq<LedgerInfo>) {
    forall a, k: nat :: a in n.voted && k < |ledger| && IsRoundZeroVote(a, Info(ledger, k)) ==>
      ledger[k].EndsEpoch() && Info(ledger, k).epoch + 1 == a.message.ledgerInfo.commitInfo.epoch
  }

  predicate IsRoundZeroVote(a: Atom, state: BlockInfo) {
    && a.message.LedgerInfoMessage? && a.message.ledgerInfo.commitInfo.round == 0
    && SameState(state, a.message.ledgerInfo.commitInfo)
  }

  ghost predicate LedgerHolds(c: Config, n: Network, ledger: seq<LedgerInfo>, exec: Execution) {
    ValidLedger(ledger) && EpochsAgree(c, ledger) && ExecutesBy(n, exec) && Records(c, n, ledger, exec)
  }

  /** What the run commits in an epoch is on one branch, so that there is something to hold. */
  lemma CommittedOnOneBranch(c: Config, n: Network, e: Epoch, d1: VoteData, d2: VoteData)
    requires ValidConfig(c) && Invariant(c, n) && CommittedBy(c, n, e, d1) && CommittedBy(c, n, e, d2)
    ensures OneBranch(c, n, e, d1.parent, d2.parent)
  {
    hide Invariant, ValidConfig, Certified, Extends, ParentCertified;
    CertifiedFacts(c, n, e, d1);
    CertifiedFacts(c, n, e, d2);
    if d1.parent.round <= d2.parent.round {
      ParentExtends(c, n, e, d1, d2.parent, d2);
    } else {
      ParentExtends(c, n, e, d2, d1.parent, d1);
    }
  }

  /** The parent of a certified block, above round 0, was voted for by an honest validator. */
  lemma ParentIsVotedFor(c: Config, n: Network, e: Epoch, parent: BlockInfo, exec: Execution)
    requires ValidConfig(c) && Invariant(c, n) && ExecutesBy(n, exec)
    requires ParentCertified(c, n.voted, e, parent) && parent.round > 0
    ensures VotesFor(exec, parent)
  {
    hide Invariant, VotesFor, PowerOf;
    var p: VoteData :| p.proposed == parent && Certified(c, n.voted, e, p);
    var q, li :| CertifiedBy(c, n.voted, e, p, q, li);
    var k := HonestSigner(c, n, e, p, q, li);
    assert Atom(k, LedgerInfoMessage(li)) in n.voted;
  }

  /** A ledger info that some honest validator voted for, and a quorum signed. */
  lemma VoteIsAccounted(c: Config, n: Network, ledger: seq<LedgerInfo>, exec: Execution, m: nat, es: EpochState,
                        q: set<Author>, li: LedgerInfo)
    requires ValidConfig(c) && Invariant(c, n) && LedgerHolds(c, n, ledger, exec) && Installs(ledger, m, es)
    requires li.commitInfo.epoch == es.epoch && VoteJustified(c, n.voted, li)
    requires QuorumSigned(c, n.signed, es.epoch, q, LedgerInfoMessage(li))
    ensures Accounted(ledger, li)
  {
    hide Invariant, ValidConfig, ValidLedger, ExecutesBy, Records, PowerOf, QuorumSigned, RoundTimedOut, Canonical,
         Certified, OrderedBy;
    var e, d := es.epoch, li.consensusDataHash.voteData;
    LaterThanZero(ledger, m, es);
    assert li.commitInfo == d.parent && d.proposed.epoch == e;
    assert CertifiedBy(c, n.signed, e, d, q, li);
    if d.parent.round > 0 {
      ParentIsVotedFor(c, n, e, d.parent, exec);
      if !d.parent.IsOrderedOnly() {
        var q', ordered := SignedIsVoted(c, n, e, d, q, li);
        VotedIsCertified(c, n, e, d, q', ordered);
        ExecutionIsRecorded(c, n, ledger, exec, e, d, li);
      }
    }
  }

  lemma LaterThanZero(ledger: seq<LedgerInfo>, m: nat, es: EpochState)
    requires ValidLedger(ledger) && Installs(ledger, m, es)
    ensures es.epoch > 0
  {
  }

  lemma VotedIsCertified(c: Config, n: Network, e: Epoch, d: VoteData, q: set<Author>, li: LedgerInfo)
    requires CertifiedBy(c, n.voted, e, d, q, li)
    ensures Certified(c, n.voted, e, d)
  {
  }

  lemma ExecutionIsRecorded(c: Config, n: Network, ledger: seq<LedgerInfo>, exec: Execution, e: Epoch, d: VoteData,
                            li: LedgerInfo)
    requires Records(c, n, ledger, exec) && CommittedBy(c, n, e, d) && li.commitInfo == exec(d.parent.id)
    ensures Canonical(ledger, li)
  {
    hide CommittedBy;
    var recorded := LedgerInfo(exec(d.parent.id), VoteDataHash(d));
    assert Canonical(ledger, recorded);
    var k: nat :| At(ledger, k, recorded);
    assert At(ledger, k, li);
  }

  /** A ledger info that some honest validator released a commit vote for. */
  lemma CommitVoteIsCanonical(c: Config, n: Network, ledger: seq<LedgerInfo>, exec: Execution, li: LedgerInfo, a: Atom)
    requires ValidConfig(c) && Invariant(c, n) && LedgerHolds(c, n, ledger, exec)
    requires a in n.signed && a !in n.voted && a.message == LedgerInfoMessage(li)
    ensures Canonical(ledger, li) && li.commitInfo.round > 0
  {
    hide ValidConfig, ValidLedger, Records, RoundTimedOut, Canonical, Certified, NodeInvariant, AtomInvariant,
         CertifiedBy, EpochsAgree;
    assert CommitVoteInvariant(c, n, a);
    var d, q, ordered :| OrderedBy(c, n.voted, li, d, q, ordered);
    var e := d.proposed.epoch;
    CertifiedIsJustified(c, n, e, d, q, ordered);
    assert ordered.commitInfo == d.parent && d.parent.id == li.commitInfo.id && d.parent.round > 0;
    VotedIsCertified(c, n, e, d, q, ordered);
    ExecutionIsRecorded(c, n, ledger, exec, e, d, li);
  }

  /** In every state of a run: whatever verifies under an epoch state of the ledger is a ledger info of the
      ledger, a vote on a block that is ordered only, or a vote on an info of round 0. */
  lemma RunAccounts(c: Config, trace: seq<Network>, steps: seq<Step>, t: nat, ledger: seq<LedgerInfo>, exec: Execution,
                    x: LedgerInfoWithSignatures)
    requires ValidConfig(c) && IsRun(c, trace, steps) && t < |trace| && LedgerHolds(c, trace[t], ledger, exec)
    requires Unforged(c, trace[t], x.signatures.sig)
    ensures QuorumsAccounted(ledger, x)
    ensures VotesApart(trace[t], ledger) ==> RoundZeroApart(ledger, x)
  {
    hide MultiSignatureVerdict, IsRun, VoteJustified, ExecutesBy, Records, ValidLedger, PowerOf, Accounted, WellFormed,
         Canonical, VotesApart, SameState;
    var n, li := trace[t], x.ledgerInfo;
    RunInvariant(c, trace, steps, t);
    forall es | CanonicalEpochState(ledger, es) && OfEpochState(es).Verifies(x)
      ensures Accounted(ledger, li) && (li.commitInfo.round == 0 ==> exists a :: a in n.voted && VotedAs(a, li))
    {
      var m: nat :| Installs(ledger, m, es);
      var e := es.epoch;
      var q := Voters(c.committees[e], x.signatures.bitmask);
      VerifiedIsQuorumSigned(c, n, e, x);
      var i := HonestInBoth(c.committees[e], c.honest, q, q);
      var a := Atom(c.committees[e].infos[i].publicKey, LedgerInfoMessage(li));
      assert a in n.signed;
      if a in n.voted {
        assert AtomInvariant(c, n, a);
        VoteIsAccounted(c, n, ledger, exec, m, es, q, li);
        LaterThanZero(ledger, m, es);
        assert VotedAs(a, li);
      } else {
        CommitVoteIsCanonical(c, n, ledger, exec, li, a);
        CanonicalIsAccounted(ledger, li);
      }
    }
    if VotesApart(n, ledger) && li.commitInfo.round == 0 {
      forall es, k: nat | CanonicalEpochState(ledger, es) && OfEpochState(es).Verifies(x)
                          && k < |ledger| && SameState(Info(ledger, k), li.commitInfo)
        ensures Installs(ledger, k, es)
      {
        var a :| a in n.voted && VotedAs(a, li);
        ApartAt(n, ledger, a, es, k);
      }
    }
  }

  predicate VotedAs(a: Atom, li: LedgerInfo) {
    a.message == LedgerInfoMessage(li)
  }

  lemma ApartAt(n: Network, ledger: seq<LedgerInfo>, a: Atom, es: EpochState, k: nat)
    requires ValidLedger(ledger) && VotesApart(n, ledger) && CanonicalEpochState(ledger, es)
    requires a in n.voted && k < |ledger| && IsRoundZeroVote(a, Info(ledger, k))
    requires a.message.ledgerInfo.commitInfo.epoch == es.epoch
    ensures Installs(ledger, k, es)
  {
    var m: nat :| Installs(ledger, m, es);
    OneStatePerEpoch(ledger, k, Info(ledger, k).nextEpochState.value, m, es);
  }

  lemma CanonicalIsAccounted(ledger: seq<LedgerInfo>, li: LedgerInfo)
    requires Canonical(ledger, li)
    ensures Accounted(ledger, li)
  {
  }

  /** No honest signature in a response is forged. */
  ghost predicate ResponseUnforged(c: Config, n: Network, r: Response) {
    && Unforged(c, n, r.latest.signatures.sig)
    && forall j :: 0 <= j < |r.proof.ledgerInfos| ==> Unforged(c, n, r.proof.ledgerInfos[j].signatures.sig)
  }

  /** Any sequence of responses put together from the signatures of a run, votes and commit votes included:
      the client's epoch stays canonical and never decreases.  Without made-up infos of round 0 its version
      never decreases either, and past version 0 it holds the version and state root of a committed
      ledger info.  It is on the ledger all the way if it never takes a latest ledger info that is of
      round 0 or no newer than the epoch change it comes with.  If votes on round 0 keep apart from the
      ledger, both conditions are exact. */
  lemma RatchetRunSoundInRun(c: Config, trace: seq<Network>, steps: seq<Step>, t: nat, ledger: seq<LedgerInfo>,
                             exec: Execution, s: TrustedState, responses: seq<Response>)
    requires ValidConfig(c) && IsRun(c, trace, steps) && t < |trace| && LedgerHolds(c, trace[t], ledger, exec)
    requires Trusted(ledger, s) && forall i :: 0 <= i < |responses| ==> ResponseUnforged(c, trace[t], responses[i])
    ensures var final := ApplyAll(s, responses);
      && Grounded(ledger, final)
      && (s.InEpoch? ==> final.InEpoch? && final.epochState.epoch >= s.epochState.epoch)
      && (Never(s, responses, TakesMadeUp) ==>
            && Sound(ledger, final) && final.waypoint.version >= s.waypoint.version
            && (final.waypoint.version > 0 ==> HoldsState(ledger, final)))
    ensures Never(s, responses, Leaves) ==> Throughout(s, responses, OnLedger(ledger))
    ensures VotesApart(trace[t], ledger) ==>
      && (Never(s, responses, Leaves) <==> Throughout(s, responses, OnLedger(ledger)))
      && (s.waypoint.version > 0 ==>
            (Never(s, responses, TakesMadeUp) <==> Throughout(s, responses, Holding(ledger))))
  {
    hide IsRun, Grounded, Sound, Trusted, ValidLedger, ApplyAll, Never, EpochsAgree, ExecutesBy, Records, Unforged,
         ValidConfig, QuorumsAccounted, HoldsState, Throughout, VotesApart, RoundZeroApart, Leaves, TakesMadeUp;
    forall i | 0 <= i < |responses|
      ensures ResponseAccounted(ledger, responses[i])
      ensures VotesApart(trace[t], ledger) ==> RoundZeroApart(ledger, responses[i].latest)
    {
      var r := responses[i];
      RunAccounts(c, trace, steps, t, ledger, exec, r.latest);
      forall j | 0 <= j < |r.proof.ledgerInfos| ensures QuorumsAccounted(ledger, r.proof.ledgerInfos[j]) {
        RunAccounts(c, trace, steps, t, ledger, exec, r.proof.ledgerInfos[j]);
      }
    }
    TrustedIsGrounded(ledger, s);
    RatchetRunSound(ledger, s, responses);
    OnLedgerThroughoutIff(ledger, s, responses);
    if VotesApart(trace[t], ledger) && s.waypoint.version > 0 {
      HoldsStateThroughoutIff(ledger, s, responses);
    }
    var final := ApplyAll(s, responses);
    if Sound(ledger, final) && final.waypoint.version > 0 {
      SoundState(ledger, final);
    }
  }

  // Validators that sign the ledger only

  /** Honest validators sign only ledger infos of the canonical ledger. */
  ghost predicate HonestlySigned(ledger: seq<LedgerInfo>, honest: set<PublicKey>, x: LedgerInfoWithSignatures) {
    x.signatures.sig.Some? ==>
      forall a :: a in x.signatures.sig.value.atoms && a.key in honest ==>
        forall li :: a.message == LedgerInfoMessage(li) ==> Canonical(ledger, li)
  }

  ghost predicate QuorumsCanonical(ledger: seq<LedgerInfo>, x: LedgerInfoWithSignatures) {
    forall es :: CanonicalEpochState(ledger, es) && OfEpochState(es).Verifies(x) ==> Canonical(ledger, x.ledgerInfo)
  }

  ghost predicate FaultsBounded(ledger: seq<LedgerInfo>, honest: set<PublicKey>) {
    forall es :: CanonicalEpochState(ledger, es) ==>
      WellFormed(es.verifier) && SuperMajority(es.verifier) && FaultBound(es.verifier, honest)
  }

  lemma HonestSignersMakeQuorumsCanonical(ledger: seq<LedgerInfo>, honest: set<PublicKey>, x: LedgerInfoWithSignatures)
    requires HonestlySigned(ledger, honest, x) && FaultsBounded(ledger, honest)
    ensures QuorumsCanonical(ledger, x)
  {
    hide MultiSignatureVerdict, PowerOf, IsSet, Canonical;
    forall es | CanonicalEpochState(ledger, es) && OfEpochState(es).Verifies(x)
      ensures Canonical(ledger, x.ledgerInfo)
    {
      var v := es.verifier;
      MultiSignatureSound(v, LedgerInfoMessage(x.ledgerInfo), x.signatures);
      var q := Voters(v, x.signatures.bitmask);
      var i := HonestInBoth(v, honest, q, q);
      var j :| 0 <= j < |v.infos| && IsSet(x.signatures.bitmask, j) && v.infos[j].address == v.infos[i].address;
      assert i == j;
    }
  }

  ghost predicate ResponseHonest(ledger: seq<LedgerInfo>, honest: set<PublicKey>, r: Response) {
    && HonestlySigned(ledger, honest, r.latest)
    && forall j :: 0 <= j < |r.proof.ledgerInfos| ==> HonestlySigned(ledger, honest, r.proof.ledgerInfos[j])
  }

  lemma HonestResponse(ledger: seq<LedgerInfo>, honest: set<PublicKey>, r: Response)
    requires FaultsBounded(ledger, honest) && ResponseHonest(ledger, honest, r)
    ensures ResponseAccounted(ledger, r) && QuorumsCanonical(ledger, r.latest)
  {
    hide FaultsBounded, HonestlySigned;
    HonestSignersMakeQuorumsCanonical(ledger, honest, r.latest);
    forall j | 0 <= j < |r.proof.ledgerInfos| ensures QuorumsAccounted(ledger, r.proof.ledgerInfos[j]) {
      HonestSignersMakeQuorumsCanonical(ledger, honest, r.proof.ledgerInfos[j]);
    }
  }

  /** A response whose latest ledger info is on the ledger keeps the client on the ledger and up to date. */
  lemma CanonicalResponse(ledger: seq<LedgerInfo>, s: TrustedState, r: Response)
    requires ValidLedger(ledger) && Trusted(ledger, s) && ResponseAccounted(ledger, r)
    requires QuorumsCanonical(ledger, r.latest)
    ensures Trusted(ledger, Apply(s, r.latest, r.proof))
    ensures Apply(s, r.latest, r.proof).waypoint.version >= s.waypoint.version
  {
    hide MultiSignatureVerdict, ProofVerdict, Grounded, Sound, Trusted, ValidLedger, Canonical, Accounted;
    TrustedIsGrounded(ledger, s);
    RatchetSound(ledger, s, r);
    if TakesIntoEpoch(s, r) {
      var m := VerdictAt(ledger, s, r);
      assert CanonicalEpochState(ledger, NextEpochState(ProofVerdict(r.proof, s.AsVerifier()).value).value);
    } else if TakesInEpoch(s, r) {
      CanonicalEpoch(ledger, s);
    }
    assert TakesMadeUp(s, r) ==> Apply(s, r.latest, r.proof).waypoint.version >= s.waypoint.version;
  }

  /** If honest validators sign nothing but the ledger, no sequence of responses takes the client off it. */
  lemma {:induction false} RatchetRunSoundAgainstFaults(ledger: seq<LedgerInfo>, honest: set<PublicKey>,
                                                        s: TrustedState, responses: seq<Response>)
    requires ValidLedger(ledger) && Trusted(ledger, s) && FaultsBounded(ledger, honest)
    requires forall i :: 0 <= i < |responses| ==> ResponseHonest(ledger, honest, responses[i])
    ensures Trusted(ledger, ApplyAll(s, responses)) && ApplyAll(s, responses).waypoint.version >= s.waypoint.version
  {
    hide Trusted, FaultsBounded, ResponseHonest, ValidLedger, Ratchet, QuorumsCanonical, ResponseAccounted;
    if responses != [] {
      var n := |responses| - 1;
      RatchetRunSoundAgainstFaults(ledger, honest, s, responses[..n]);
      HonestResponse(ledger, honest, responses[n]);
      CanonicalResponse(ledger, ApplyAll(s, responses[..n]), responses[n]);
    }
  }
}
