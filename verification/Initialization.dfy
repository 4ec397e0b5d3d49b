/** Bringing the safety rules into the current epoch (`guarded_initialize` and `perform_initialize`). */
module Initialization {
  import opened Types
  import opened VotingPower
  import opened MultiSignatures
  import opened TwoChainRules
  import opened EpochChanges
  import opened TrustedStates
  import opened CatchUp

  datatype InitError =
    | InvalidEpochChangeProof
    | InvalidLedgerInfo
    | WaypointOutOfDate(prevVersion: Version, currVersion: Version, currentEpoch: Epoch, providedEpoch: Epoch)
    | ValidatorNotInSet
    | ValidatorKeyNotFound
    | RetrievalFailed

  /** Persisted waypoint and safety state, and the consensus keys in secure storage. */
  datatype Local = Local(waypoint: Waypoint, rules: SafetyState, author: Author, keys: set<PublicKey>)

  /** The signer for an epoch: kept, exported from storage, or none. */
  function Reconcile(s: Local, es: EpochState): (Local, Result<(), InitError>) {
    var expected := GetPublicKey(es.verifier, s.author);
    if expected.None? then (s.(rules := s.rules.(signer := None)), Err(ValidatorNotInSet))
    else if s.rules.signer.Some? && s.rules.signer.value.key == expected.value then (s, Ok(()))
    else if expected.value in s.keys then
      (s.(rules := s.rules.(signer := Some(Signer(s.author, expected.value)))), Ok(()))
    else (s.(rules := s.rules.(signer := None)), Err(ValidatorKeyNotFound))
  }

  /** `guarded_initialize`. */
  function Initialize(s: Local, proof: EpochChangeProof): (Local, Result<(), InitError>) {
    var verdict := ProofVerdict(proof, OfWaypoint(s.waypoint));
    if verdict.None? then (s, Err(InvalidEpochChangeProof))
    else
      var next := NextEpochState(verdict.value);
      if next.None? then (s, Err(InvalidLedgerInfo))
      else
        var w := WaypointOf(verdict.value.ledgerInfo);
        var advanced := s.(waypoint := if w.version > s.waypoint.version then w else s.waypoint);
        var current := s.rules.data.epoch;
        if current > next.value.epoch then
          (advanced, Err(WaypointOutOfDate(s.waypoint.version, w.version, current, next.value.epoch)))
        else Reconcile(advanced.(rules := StartEpoch(s.rules, next.value)), next.value)
  }

  /** What storage answers to the question of the given number for the given version; the answer may
      change from one question to the next. */
  type Retrieve = (nat, Version) -> Option<EpochChangeProof>

  /** Versions are 64-bit. */
  ghost predicate Bounded(retrieve: Retrieve) {
    forall call, v, i :: retrieve(call, v).Some? && 0 <= i < |retrieve(call, v).value.ledgerInfos| ==>
      retrieve(call, v).value.ledgerInfos[i].ledgerInfo.commitInfo.version <= U64_MAX
  }

  predicate Continues(r: Result<(), InitError>) {
    r.Err? && r.error.WaypointOutOfDate? && r.error.prevVersion < r.error.currVersion
  }

  /** When the loop goes round, the stored waypoint has moved up, within 64 bits. */
  lemma ContinuesMeansAdvance(s: Local, retrieve: Retrieve, call: nat)
    requires Bounded(retrieve) && retrieve(call, s.waypoint.version).Some?
    requires Continues(Initialize(s, retrieve(call, s.waypoint.version).value).1)
    ensures var (s', r) := Initialize(s, retrieve(call, s.waypoint.version).value);
      s.waypoint.version < s'.waypoint.version == r.error.currVersion <= U64_MAX
  {
    hide StaleCount, MultiSignatureVerdict;
    var proof := retrieve(call, s.waypoint.version).value;
    var i := |proof.ledgerInfos| - 1;
    assert ProofVerdict(proof, OfWaypoint(s.waypoint)) == Some(proof.ledgerInfos[i]);
  }

  /** What `perform_initialize` computes, from the given question on. */
  function Initialized(s: Local, retrieve: Retrieve, call: nat): (Local, Result<(), InitError>)
    requires Bounded(retrieve)
    decreases U64_MAX - s.waypoint.version
  {
    var proof := retrieve(call, s.waypoint.version);
    if proof.None? then (s, Err(RetrievalFailed))
    else
      var (s', r) := Initialize(s, proof.value);
      if Continues(r) then
        ContinuesMeansAdvance(s, retrieve, call);
        Initialized(s', retrieve, call + 1)
      else (s', r)
  }

  /** `perform_initialize` halts on any storage, honest or not. */
  method PerformInitialize(s: Local, retrieve: Retrieve) returns (t: Local, r: Result<(), InitError>)
    requires Bounded(retrieve)
    ensures (t, r) == Initialized(s, retrieve, 0)
  {
    hide Initialize;
    t := s;
    var waypointVersion, calls := s.waypoint.version, 0;
    while true
      invariant waypointVersion == t.waypoint.version
      invariant Initialized(t, retrieve, calls) == Initialized(s, retrieve, 0)
      decreases U64_MAX - t.waypoint.version
    {
      var proof := retrieve(calls, waypointVersion);
      if proof.None? {
        r := Err(RetrievalFailed);
        return;
      }
      ghost var before := t;
      var step := Initialize(t, proof.value);
      t, r := step.0, step.1;
      if !Continues(r) {
        return;
      }
      ContinuesMeansAdvance(before, retrieve, calls);
      waypointVersion, calls := r.error.currVersion, calls + 1;
    }
  }

  // Honest storage

  /** Storage that holds the first `n` ledger infos answers for every version it knows. */
  ghost predicate Serves(retrieve: Retrieve, chain: seq<LedgerInfoWithSignatures>, n: nat, limit: nat) {
    && ServerReady(chain, n) && Bounded(retrieve)
    && forall call: nat, v: Version :: v <= Info(Plain(chain), n - 1).version ==>
         retrieve(call, v) == Some(Respond(chain, n, v, limit).proof)
  }

  /** The persisted waypoint is the epoch end at position `k` of the ledger. */
  predicate LocalAt(ledger: seq<LedgerInfo>, s: Local, k: nat) {
    k < |ledger| && s.waypoint == WaypointOf(ledger[k]) && Info(ledger, k).nextEpochState.Some?
  }

  predicate CanSign(s: Local, es: EpochState) {
    var expected := GetPublicKey(es.verifier, s.author);
    expected.Some? && (expected.value in s.keys || (s.rules.signer.Some? && s.rules.signer.value.key == expected.value))
  }

  /** The signer holds the validator's key of the epoch, or there is none and the error says why. */
  predicate SignerInstalled(s: Local, es: EpochState, r: Result<(), InitError>) {
    var expected := GetPublicKey(es.verifier, s.author);
    match r
    case Ok(_) => expected.Some? && s.rules.signer.Some? && s.rules.signer.value.key == expected.value
    case Err(e) => s.rules.signer.None? && e == if expected.None? then ValidatorNotInSet else ValidatorKeyNotFound
  }

  /** Safety data of the epoch that is entered is kept; in a later epoch all rounds start from 0. */
  predicate EntersEpoch(before: SafetyData, after: SafetyData, e: Epoch) {
    after == if before.epoch == e then before else SafetyData(e, 0, 0, 0, None)
  }

  predicate OutOfDate(r: Result<(), InitError>) {
    r.Err? && r.error.WaypointOutOfDate?
  }

  function Min(a: nat, b: nat): nat {
    if a < b then a else b
  }

  /** An answer verifies and ends with the last epoch end it has room for. */
  lemma AnswerVerdict(chain: seq<LedgerInfoWithSignatures>, n: nat, limit: nat, w: Waypoint, k: nat)
    requires ServerReady(chain, n) && k < n && limit >= 1
    requires w == WaypointOf(Plain(chain)[k]) && Info(Plain(chain), k).nextEpochState.Some?
    ensures Info(Plain(chain), k).epoch < EndEpoch(Plain(chain), n)
    ensures var own := Info(Plain(chain), k).epoch;
      var to := Min(own + limit, EndEpoch(Plain(chain), n));
      var m := EndOf(Plain(chain), n, to - 1);
      && k <= m && (k == m <==> to == own + 1)
      && ProofVerdict(Respond(chain, n, w.version, limit).proof, OfWaypoint(w)) == Some(chain[m])
  {
    hide MultiSignatureVerdict, ProofVerdict;
    var ledger := Plain(chain);
    var own, last := Info(ledger, k).epoch, EndEpoch(ledger, n);
    var client := EpochWaypoint(w);
    assert ClientAt(ledger, client, k);
    ClientEpoch(ledger, n, client, k);
    GetEpochAt(ledger, n, k);
    var to := Min(own + limit, last);
    var m := EndOf(ledger, n, to - 1);
    HonestProofVerifies(chain, n, client, k, own, to, own + limit < last);
    EpochEndIsLast(ledger, k, m);
    if to == own + 1 {
      EndIsUnique(ledger, k, m, own);
    }
  }

  /** One answer takes the waypoint to the last epoch end it covers. */
  lemma InitializeOnce(chain: seq<LedgerInfoWithSignatures>, n: nat, limit: nat, s: Local, k: nat)
    requires ServerReady(chain, n) && LocalAt(Plain(chain), s, k) && k < n && limit >= 1
    ensures Info(Plain(chain), k).epoch < EndEpoch(Plain(chain), n)
    ensures var own, last := Info(Plain(chain), k).epoch, EndEpoch(Plain(chain), n);
      var to := Min(own + limit, last);
      var m := EndOf(Plain(chain), n, to - 1);
      var es := StateOfEpoch(Plain(chain), n, to);
      var (s', r) := Initialize(s, Respond(chain, n, s.waypoint.version, limit).proof);
      && k <= m && (k == m <==> to == own + 1)
      && s'.waypoint == WaypointOf(Plain(chain)[m])
      && (s.rules.data.epoch > to ==>
            (r == Err(WaypointOutOfDate(s.waypoint.version, s'.waypoint.version, s.rules.data.epoch, to))
             && s' == s.(waypoint := s'.waypoint)))
      && (s.rules.data.epoch <= to ==>
            (EntersEpoch(s.rules.data, s'.rules.data, to) && s'.rules.epochState == Some(es) && s'.author == s.author
             && SignerInstalled(s', es, r) && (r.Ok? <==> CanSign(s, es))))
  {
    hide MultiSignatureVerdict, ProofVerdict, GetPublicKey, Respond;
    var ledger := Plain(chain);
    AnswerVerdict(chain, n, limit, s.waypoint, k);
    var to := Min(Info(ledger, k).epoch + limit, EndEpoch(ledger, n));
    VersionOrdersPositions(ledger, EndOf(ledger, n, to - 1), k);
    hide ValidLedger;
  }

  /** The epoch in which the loop stops: the first end of an answer that is not behind the safety data. */
  function Reached(own: Epoch, current: Epoch, limit: nat, last: Epoch): (e: Epoch)
    requires limit >= 2 && own < last && current <= last
    ensures current <= e <= last && own < e
    decreases last - own
  {
    var to := Min(own + limit, last);
    if to >= current then to else Reached(to - 1, current, limit, last)
  }

  /** With storage that is not behind the safety data, initialisation enters epoch `Reached`, and is ready to
      sign exactly when the validator is in that epoch's set and its key is at hand; safety data of the
      same epoch is kept. */
  lemma {:induction false} InitializationReaches(chain: seq<LedgerInfoWithSignatures>, n: nat, limit: nat,
                                                 retrieve: Retrieve, call: nat, s: Local, k: nat)
    requires Serves(retrieve, chain, n, limit) && LocalAt(Plain(chain), s, k) && k < n && limit >= 2
    requires Info(Plain(chain), k).epoch < EndEpoch(Plain(chain), n) && s.rules.data.epoch <= EndEpoch(Plain(chain), n)
    ensures var e := Reached(Info(Plain(chain), k).epoch, s.rules.data.epoch, limit, EndEpoch(Plain(chain), n));
      var es := StateOfEpoch(Plain(chain), n, e);
      var (t, r) := Initialized(s, retrieve, call);
      && EntersEpoch(s.rules.data, t.rules.data, e) && t.rules.epochState == Some(es)
      && t.waypoint == WaypointOf(Plain(chain)[EndOf(Plain(chain), n, e - 1)])
      && t.author == s.author && SignerInstalled(t, es, r) && (r.Ok? <==> CanSign(s, es))
    decreases EndEpoch(Plain(chain), n) - Info(Plain(chain), k).epoch
  {
    hide MultiSignatureVerdict, Initialize, Bounded, ValidLedger, GetPublicKey, Respond;
    var ledger := Plain(chain);
    var own, last := Info(ledger, k).epoch, EndEpoch(ledger, n);
    VersionOrdersPositions(ledger, k, n - 1);
    InitializeOnce(chain, n, limit, s, k);
    var to := Min(own + limit, last);
    if to < s.rules.data.epoch {
      var m := EndOf(ledger, n, to - 1);
      VersionOrdersPositions(ledger, m, k);
      var s' := Initialize(s, retrieve(call, s.waypoint.version).value).0;
      assert Continues(Initialize(s, retrieve(call, s.waypoint.version).value).1);
      InitializationReaches(chain, n, limit, retrieve, call + 1, s', m);
    }
  }

  /** With storage behind the safety data, or answers of one epoch that do not reach it, initialisation
      gives up with an error after finitely many rounds. */
  lemma {:induction false} InitializationGivesUp(chain: seq<LedgerInfoWithSignatures>, n: nat, limit: nat,
                                                 retrieve: Retrieve, call: nat, s: Local, k: nat)
    requires Serves(retrieve, chain, n, limit) && LocalAt(Plain(chain), s, k) && k < n && limit >= 1
    requires || s.rules.data.epoch > EndEpoch(Plain(chain), n)
             || (limit == 1 && s.rules.data.epoch > Info(Plain(chain), k).epoch + 1)
    ensures OutOfDate(Initialized(s, retrieve, call).1) && Initialized(s, retrieve, call).0.rules == s.rules
    decreases EndEpoch(Plain(chain), n) - Info(Plain(chain), k).epoch
  {
    hide MultiSignatureVerdict, Initialize, Bounded, ValidLedger, GetPublicKey, Respond;
    var ledger := Plain(chain);
    var own, last := Info(ledger, k).epoch, EndEpoch(ledger, n);
    VersionOrdersPositions(ledger, k, n - 1);
    InitializeOnce(chain, n, limit, s, k);
    var to := Min(own + limit, last);
    if to > own + 1 {
      var m := EndOf(ledger, n, to - 1);
      VersionOrdersPositions(ledger, m, k);
      var s' := Initialize(s, retrieve(call, s.waypoint.version).value).0;
      assert Continues(Initialize(s, retrieve(call, s.waypoint.version).value).1);
      InitializationGivesUp(chain, n, limit, retrieve, call + 1, s', m);
    }
  }

  /** Where the answers end when each starts at the epoch the one before ended with. */
  function Boundary(own: Epoch, limit: nat, j: nat): int {
    own + limit + j * (limit - 1)
  }

  /** Initialisation ends in the latest epoch exactly when no answer ends between the epoch of the safety
      data and the latest epoch: the loop stops at the first such answer instead of going on. */
  lemma {:induction false} ReachesLatestIff(own: Epoch, current: Epoch, limit: nat, last: Epoch)
    requires limit >= 2 && own < last && current <= last
    ensures Reached(own, current, limit, last) == last
       <==> forall j: nat :: !(current <= Boundary(own, limit, j) < last)
    decreases last - own
  {
    if own + limit >= last {
      forall j: nat ensures Boundary(own, limit, j) >= last {
        assert j * (limit - 1) >= 0;
      }
    } else if own + limit >= current {
      assert Boundary(own, limit, 0) == own + limit;
    } else {
      var next := own + limit - 1;
      ReachesLatestIff(next, current, limit, last);
      forall j: nat ensures Boundary(own, limit, j + 1) == Boundary(next, limit, j) {
        Shift(own, limit, j);
      }
      assert Boundary(own, limit, 0) < current;
      forall j: nat | current <= Boundary(own, limit, j) < last
        ensures current <= Boundary(next, limit, j - 1) < last && j >= 1
      {
        Shift(own, limit, j - 1);
      }
    }
  }

  /** In terms of the loop itself. */
  lemma InitializationIsLatestIff(chain: seq<LedgerInfoWithSignatures>, n: nat, limit: nat, retrieve: Retrieve,
                                  call: nat, s: Local, k: nat)
    requires Serves(retrieve, chain, n, limit) && LocalAt(Plain(chain), s, k) && k < n && limit >= 2
    requires Info(Plain(chain), k).epoch < EndEpoch(Plain(chain), n) && s.rules.data.epoch <= EndEpoch(Plain(chain), n)
    ensures var own, current, last := Info(Plain(chain), k).epoch, s.rules.data.epoch, EndEpoch(Plain(chain), n);
      Initialized(s, retrieve, call).0.rules.data.epoch == last
      <==> forall j: nat :: !(current <= Boundary(own, limit, j) < last)
  {
    hide Initialized, Serves, Boundary, Reached, MultiSignatureVerdict;
    ServesLedger(retrieve, chain, n, limit);
    var own, current, last := Info(Plain(chain), k).epoch, s.rules.data.epoch, EndEpoch(Plain(chain), n);
    InitializationReaches(chain, n, limit, retrieve, call, s, k);
    ReachesLatestIff(own, current, limit, last);
    StateIsOfEpoch(Plain(chain), n, Reached(own, current, limit, last));
  }

  lemma ServesLedger(retrieve: Retrieve, chain: seq<LedgerInfoWithSignatures>, n: nat, limit: nat)
    requires Serves(retrieve, chain, n, limit)
    ensures ValidLedger(Plain(chain)) && 0 < n <= |Plain(chain)| && Bounded(retrieve)
  {
  }

  lemma StateIsOfEpoch(ledger: seq<LedgerInfo>, n: nat, e: Epoch)
    requires ValidLedger(ledger) && 0 < n <= |ledger| && 0 < e <= EndEpoch(ledger, n)
    ensures StateOfEpoch(ledger, n, e).epoch == e
  {
  }

  lemma Shift(own: Epoch, limit: nat, j: int)
    requires limit >= 2
    ensures own + limit + (j + 1) * (limit - 1) == (own + limit - 1) + limit + j * (limit - 1)
  {
  }

  lemma AnswersFromChain(chain: seq<LedgerInfoWithSignatures>, n: nat, version: Version, limit: nat, i: nat)
    requires ValidLedger(Plain(chain)) && 0 < n <= |chain| && i < |Respond(chain, n, version, limit).proof.ledgerInfos|
    ensures Respond(chain, n, version, limit).proof.ledgerInfos[i] in chain
  {
    var from, to := GetEpoch(Plain(chain), n, version), EndEpoch(Plain(chain), n);
    var xs := Respond(chain, n, version, limit).proof.ledgerInfos;
    assert from + i < to && xs[i] == chain[EndOf(Plain(chain), n, from + i)];
  }

  lemma SampleStorage(n: nat, limit: nat) returns (retrieve: Retrieve)
    requires 0 < n <= U64_MAX
    ensures Serves(retrieve, SampleChain(n), n, limit)
  {
    hide MultiSignatureVerdict, Aggregated, SignedLedger, Respond, ValidLedger;
    var chain := SampleChain(n);
    SampleIsSigned(n);
    SamplePlain(n);
    retrieve := (call: nat, v: Version) => Some(Respond(chain, n, v, limit).proof);
    forall call, v, i | 0 <= i < |retrieve(call, v).value.ledgerInfos|
      ensures retrieve(call, v).value.ledgerInfos[i].ledgerInfo.commitInfo.version <= U64_MAX
    {
      AnswersFromChain(chain, n, v, limit, i);
    }
  }

  const MAX_NUM_EPOCH_ENDING_LEDGER_INFO: nat := 100

  /** A validator in epoch 1 whose storage knows more than a hundred epochs, a hundred per answer:
      initialisation succeeds in epoch 100, however many there are. */
  lemma InitializationCanStopShort(n: nat) returns (retrieve: Retrieve, s: Local)
    requires MAX_NUM_EPOCH_ENDING_LEDGER_INFO < n <= U64_MAX
    ensures Serves(retrieve, SampleChain(n), n, MAX_NUM_EPOCH_ENDING_LEDGER_INFO)
    ensures LocalAt(Plain(SampleChain(n)), s, 0)
    ensures s.rules.data.epoch == 1 && EndEpoch(Plain(SampleChain(n)), n) == n
    ensures Initialized(s, retrieve, 0).1.Ok? && Initialized(s, retrieve, 0).0.rules.data.epoch == 100
  {
    hide MultiSignatureVerdict, Aggregated, Respond, Initialized, Index, Serves, ValidLedger, SampleChain, Plain;
    var limit, ledger := MAX_NUM_EPOCH_ENDING_LEDGER_INFO, Plain(SampleChain(n));
    retrieve := SampleStorage(n, limit);
    SamplePlain(n);
    s := Local(WaypointOf(SampleLedgerInfo(0)), SafetyState(SafetyData(1, 0, 0, 0, None), None, None), 1, {1});
    ServesLedger(retrieve, SampleChain(n), n, limit);
    InitializationReaches(SampleChain(n), n, limit, retrieve, 0, s, 0);
    StateIsOfEpoch(ledger, n, limit);
    assert LONE_VALIDATOR.infos[0].address == 1;
    IndexOfAddress(LONE_VALIDATOR, 0);
  }
}
