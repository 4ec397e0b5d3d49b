/** Data carried between validators, light clients and storage.

Cryptography is symbolic.  A hash is the term that was hashed, so hashing is injective.  A BLS
signature is the bag of (key, message) pairs that were signed to make it, so an aggregate verifies
exactly when its bag is the expected one. */
module Types {
  datatype Option<+T> = None | Some(value: T)

  datatype Result<+T, +E> = Ok(value: T) | Err(error: E)

  type Author = nat
  type PublicKey = nat
  type Epoch = nat
  type Round = nat
  type Version = nat

  const U64_MAX: nat := 0xFFFF_FFFF_FFFF_FFFF
  const U16_MODULUS: nat := 0x1_0000

  datatype HashValue =
    | Raw(bits: nat)
    | AccumulatorPlaceholder
    | VoteDataHash(voteData: VoteData)
    | LedgerInfoHash(ledgerInfo: LedgerInfo)
    | GenesisBlockHash(ledgerInfo: LedgerInfo)
    | WaypointHash(epoch: Epoch, rootHash: HashValue, version: Version, timestamp: nat,
                   nextEpochState: Option<EpochState>)

  datatype ValidatorInfo = ValidatorInfo(address: Author, publicKey: PublicKey, votingPower: nat)

  /** The cached total power and address index of the source are functions of `infos`. */
  datatype ValidatorVerifier = ValidatorVerifier(infos: seq<ValidatorInfo>, quorum: nat)

  datatype EpochState = EpochState(epoch: Epoch, verifier: ValidatorVerifier)

  datatype BlockInfo = BlockInfo(
    epoch: Epoch,
    round: Round,
    id: HashValue,
    executedStateId: HashValue,
    version: Version,
    timestamp: nat,
    nextEpochState: Option<EpochState>)
  {
    function NextBlockEpoch(): Epoch {
      if nextEpochState.Some? then nextEpochState.value.epoch else epoch
    }

    /** The placeholders of a block that is ordered and not executed. */
    predicate IsOrderedOnly() {
      && this != EMPTY_BLOCK_INFO
      && nextEpochState.None? && executedStateId == AccumulatorPlaceholder && version == 0
    }
  }

  const EMPTY_BLOCK_INFO := BlockInfo(0, 0, Raw(0), Raw(0), 0, 0, None)

  /** Same fields, apart from those that execution fills in. */
  predicate MatchOrderedOnly(ordered: BlockInfo, executed: BlockInfo) {
    && ordered.epoch == executed.epoch
    && ordered.round == executed.round
    && ordered.id == executed.id
    && (ordered.timestamp == executed.timestamp
        || (ordered.timestamp > executed.timestamp && executed.nextEpochState.Some?))
  }

  datatype VoteData = VoteData(proposed: BlockInfo, parent: BlockInfo)

  datatype LedgerInfo = LedgerInfo(commitInfo: BlockInfo, consensusDataHash: HashValue)
  {
    predicate EndsEpoch() { commitInfo.nextEpochState.Some? }
  }

  /** What validators sign: ledger infos (votes and commits) and timeouts. */
  datatype Message =
    | LedgerInfoMessage(ledgerInfo: LedgerInfo)
    | TimeoutMessage(epoch: Epoch, round: Round, hqcRound: Round)

  datatype Atom = Atom(key: PublicKey, message: Message)

  datatype Signature = Signature(atoms: multiset<Atom>)

  function Sign(key: PublicKey, message: Message): Signature {
    Signature(multiset{Atom(key, message)})
  }

  /** `BitVec`: eight positions per byte, the most significant bit first. */
  datatype BitVec = BitVec(inner: seq<bv8>)

  datatype AggregateSignature = AggregateSignature(bitmask: BitVec, sig: Option<Signature>)

  datatype LedgerInfoWithSignatures = LedgerInfoWithSignatures(
    ledgerInfo: LedgerInfo,
    signatures: AggregateSignature)

  /** The virtual genesis block of the epoch after the one that `li` ends: built by every node from the
      ledger info alone. */
  function GenesisInfo(li: LedgerInfo): BlockInfo {
    li.commitInfo.(epoch := li.commitInfo.epoch + 1, round := 0, id := GenesisBlockHash(li), nextEpochState := None)
  }

  datatype QuorumCert = QuorumCert(voteData: VoteData, signedLedgerInfo: LedgerInfoWithSignatures)
  {
    function Certified(): BlockInfo { voteData.proposed }
    function Parent(): BlockInfo { voteData.parent }
    function CommitInfo(): BlockInfo { signedLedgerInfo.ledgerInfo.commitInfo }
  }

  datatype TwoChainTimeout = TwoChainTimeout(epoch: Epoch, round: Round, quorumCert: QuorumCert)
  {
    function HqcRound(): Round { quorumCert.Certified().round }
    function SigningFormat(): Message { TimeoutMessage(epoch, round, HqcRound()) }
  }

  datatype TimeoutCert = TimeoutCert(
    timeout: TwoChainTimeout,
    sig: AggregateSignature,
    rounds: seq<Round>)

  datatype Vote = Vote(
    voteData: VoteData,
    author: Author,
    ledgerInfo: LedgerInfo,
    signature: Signature,
    timeout: Option<(TwoChainTimeout, Signature)>)
  {
    predicate IsTimeout() { timeout.Some? }
    function Round(): Round { voteData.proposed.round }
    function Epoch(): Epoch { voteData.proposed.epoch }
    function Digest(): HashValue { LedgerInfoHash(ledgerInfo) }
  }

  datatype VerifyError =
    | UnknownAuthor
    | TooLittleVotingPower(votingPower: nat, expected: nat)
    | EmptySignature
    | InvalidMultiSignature
    | InvalidAggregatedSignature
    | InvalidBitVec
    | FailedToAggregatePubKey
    | FailedToAggregateSignature
}
