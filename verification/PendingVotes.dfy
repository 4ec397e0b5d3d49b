/** The vote collector of one round (`consensus/src/pending_votes.rs`). */
module VoteCollection {
  import opened Types
  import opened VotingPower
  import opened MultiSignatures
  import opened Certificates

  /** `LedgerInfoWithPartialSignatures`. */
  datatype PartialLedgerInfo = PartialLedgerInfo(ledgerInfo: LedgerInfo, signatures: map<Author, Signature>)
  {
    /** An author's first signature is kept. */
    function Add(author: Author, sig: Signature): PartialLedgerInfo {
      if author in signatures then this else this.(signatures := signatures[author := sig])
    }

    function Aggregate(v: ValidatorVerifier): Result<LedgerInfoWithSignatures, VerifyError> {
      var sig := Aggregated(v, signatures);
      if sig.Err? then Err(sig.error) else Ok(LedgerInfoWithSignatures(ledgerInfo, sig.value))
    }
  }

  datatype VoteReceptionResult =
    | VoteAdded(power: nat)
    | DuplicateVote
    | EquivocateVote
    | NewQuorumCertificate(qc: QuorumCert)
    | New2ChainTimeoutCertificate(tc: TimeoutCert)
    | ErrorAddingVote(error: VerifyError)
    | ErrorAggregatingSignature(error: VerifyError)
    | ErrorAggregatingTimeoutCertificate(error: VerifyError)
    | UnexpectedRound(voteRound: Round, currentRound: Round)
    | EchoTimeout(power: nat)
    | PowerUnderflow // the unsigned subtraction `total - quorum` has no result

  datatype Votes = Votes(
    ledgerInfos: map<HashValue, PartialLedgerInfo>,
    partialTc: Option<PartialTimeoutCert>,
    byAuthor: map<Author, (Vote, HashValue)>,
    echoed: bool)

  const NO_VOTES := Votes(map[], None, map[], false)

  function Signers(v: ValidatorVerifier, authors: set<Author>): Result<(), VerifyError> {
    VotingPowerVerdict(v, SortedKeys(authors))
  }

  predicate IsNewTimeout(s: Votes, vote: Vote)
    requires vote.author in s.byAuthor
  {
    vote.IsTimeout() && !s.byAuthor[vote.author].0.IsTimeout()
  }

  function Stored(s: Votes, vote: Vote): (r: Votes)
    ensures vote.Digest() in r.ledgerInfos
  {
    var d := vote.Digest();
    var entry := if d in s.ledgerInfos then s.ledgerInfos[d] else PartialLedgerInfo(vote.ledgerInfo, map[]);
    s.(byAuthor := s.byAuthor[vote.author := (vote, d)],
       ledgerInfos := s.ledgerInfos[d := entry.Add(vote.author, vote.signature)])
  }

  /** Step 4: with a timeout signature, try a timeout certificate, then an echo. */
  function TimeoutStep(s: Votes, vote: Vote, v: ValidatorVerifier, power: nat): (Votes, VoteReceptionResult) {
    if vote.timeout.None? then (s, VoteAdded(power))
    else
      var (t, sig) := vote.timeout.value;
      var before := if s.partialTc.Some? then s.partialTc.value else PartialTimeoutCert(t, map[]);
      var tc := before.Add(vote.author, t, sig);
      var next := s.(partialTc := Some(tc));
      match Signers(v, tc.signatures.Keys)
      case Ok(_) =>
        (match tc.Aggregate(v)
         case Ok(cert) => (next, New2ChainTimeoutCertificate(cert))
         case Err(e) => (next, ErrorAggregatingTimeoutCertificate(e)))
      case Err(TooLittleVotingPower(tcPower, _)) =>
        if s.echoed then (next, VoteAdded(power))
        else if Total(v) < v.quorum then (next, PowerUnderflow)
        else if tcPower >= Total(v) - v.quorum + 1 then (next.(echoed := true), EchoTimeout(tcPower))
        else (next, VoteAdded(power))
      case Err(e) => (next, ErrorAddingVote(e))
  }

  /** Step 3: try a quorum certificate for the vote's ledger info. */
  function CertifyStep(s: Votes, vote: Vote, v: ValidatorVerifier): (Votes, VoteReceptionResult)
    requires vote.Digest() in s.ledgerInfos
  {
    var entry := s.ledgerInfos[vote.Digest()];
    match Signers(v, entry.signatures.Keys)
    case Ok(_) =>
      (match entry.Aggregate(v)
       case Ok(li) => (s, NewQuorumCertificate(QuorumCert(vote.voteData, li)))
       case Err(e) => (s, ErrorAggregatingSignature(e)))
    case Err(TooLittleVotingPower(power, _)) => TimeoutStep(s, vote, v, power)
    case Err(e) => (s, ErrorAddingVote(e))
  }

  function Insert(s: Votes, vote: Vote, v: ValidatorVerifier): (Votes, VoteReceptionResult) {
    if vote.author in s.byAuthor && s.byAuthor[vote.author].1 != vote.Digest() then (s, EquivocateVote)
    else if vote.author in s.byAuthor && !IsNewTimeout(s, vote) then (s, DuplicateVote)
    else CertifyStep(Stored(s, vote), vote, v)
  }

  function Drained(s: Votes): Votes {
    s.(ledgerInfos := map[], partialTc := None)
  }

  class PendingVotes {
    var ledgerInfos: map<HashValue, PartialLedgerInfo>
    var partialTc: Option<PartialTimeoutCert>
    var byAuthor: map<Author, (Vote, HashValue)>
    var echoed: bool

    function State(): Votes
      reads this
    {
      Votes(ledgerInfos, partialTc, byAuthor, echoed)
    }

    constructor ()
      ensures State() == NO_VOTES
    {
      ledgerInfos, partialTc, byAuthor, echoed := map[], None, map[], false;
    }

    method InsertVote(vote: Vote, v: ValidatorVerifier) returns (r: VoteReceptionResult)
      modifies this
      ensures (State(), r) == Insert(old(State()), vote, v)
    {
      hide SortedKeys, VotingPowerVerdict, Aggregated;
      var digest := vote.Digest();
      if vote.author in byAuthor {
        var (seen, seenDigest) := byAuthor[vote.author];
        if digest == seenDigest {
          if !(vote.IsTimeout() && !seen.IsTimeout()) {
            return DuplicateVote;
          }
        } else {
          return EquivocateVote;
        }
      }
      byAuthor := byAuthor[vote.author := (vote, digest)];
      var entry := if digest in ledgerInfos then ledgerInfos[digest] else PartialLedgerInfo(vote.ledgerInfo, map[]);
      entry := entry.Add(vote.author, vote.signature);
      ledgerInfos := ledgerInfos[digest := entry];
      var verdict := CheckVotingPower(v, SortedKeys(entry.signatures.Keys));
      match verdict {
        case Ok(_) =>
          var sig := AggregateSignatures(v, entry.signatures);
          match sig {
            case Ok(s) =>
              return NewQuorumCertificate(QuorumCert(vote.voteData, LedgerInfoWithSignatures(entry.ledgerInfo, s)));
            case Err(e) =>
              return ErrorAggregatingSignature(e);
          }
        case Err(TooLittleVotingPower(power, _)) =>
          r := InsertTimeout(vote, v, power);
        case Err(e) =>
          return ErrorAddingVote(e);
      }
    }

    method InsertTimeout(vote: Vote, v: ValidatorVerifier, power: nat) returns (r: VoteReceptionResult)
      modifies this
      ensures (State(), r) == TimeoutStep(old(State()), vote, v, power)
    {
      hide SortedKeys, VotingPowerVerdict, Aggregated;
      if vote.timeout.Some? {
        var (t, sig) := vote.timeout.value;
        if partialTc.None? {
          partialTc := Some(PartialTimeoutCert(t, map[]));
        }
        partialTc := Some(partialTc.value.Add(vote.author, t, sig));
        var verdict := CheckVotingPower(v, SortedKeys(partialTc.value.signatures.Keys));
        var tcPower;
        match verdict {
          case Ok(_) =>
            var cert := partialTc.value.Aggregate(v);
            match cert {
              case Ok(tc) => return New2ChainTimeoutCertificate(tc);
              case Err(e) => return ErrorAggregatingTimeoutCertificate(e);
            }
          case Err(TooLittleVotingPower(p, _)) => tcPower := p;
          case Err(e) => return ErrorAddingVote(e);
        }
        if !echoed {
          if Total(v) < v.quorum {
            return PowerUnderflow;
          }
          if tcPower >= Total(v) - v.quorum + 1 {
            echoed := true;
            return EchoTimeout(tcPower);
          }
        }
      }
      return VoteAdded(power);
    }

    method DrainVotes() returns (votes: map<HashValue, PartialLedgerInfo>, tc: Option<PartialTimeoutCert>)
      modifies this
      ensures State() == Drained(old(State()))
      ensures votes == old(ledgerInfos) && tc == old(partialTc)
    {
      votes, tc := ledgerInfos, partialTc;
      ledgerInfos, partialTc := map[], None;
    }
  }
}
