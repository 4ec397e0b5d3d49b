/** A light client talking to honest servers: concurrent responses, and catching up in pieces. */
module CatchUp {
  import opened Types
  import opened VotingPower
  import opened MultiSignatures
  import opened EpochChanges
  import opened TrustedStates

  function Plain(chain: seq<LedgerInfoWithSignatures>): seq<LedgerInfo> {
    seq(|chain|, k requires 0 <= k < |chain| => chain[k].ledgerInfo)
  }

  /** A canonical ledger with its signatures: each ledger info verifies under the state of its epoch. */
  ghost predicate SignedLedger(chain: seq<LedgerInfoWithSignatures>) {
    && ValidLedger(Plain(chain))
    && forall m: nat, k: nat, es ::
         m < k < |chain| && Installs(Plain(chain), m, es) && es.epoch == chain[k].ledgerInfo.commitInfo.epoch
         ==> OfEpochState(es).Verifies(chain[k])
  }

  function EndEpoch(ledger: seq<LedgerInfo>, n: nat): Epoch
    requires 0 < n <= |ledger|
  {
    Info(ledger, n - 1).NextBlockEpoch()
  }

  // The server

  /** `LedgerStore::get_epoch`: one past the last epoch end before `version`, or that epoch itself when
      `version` is exactly its end. */
  function GetEpoch(ledger: seq<LedgerInfo>, n: nat, version: Version): Epoch
    requires n <= |ledger|
  {
    if n == 0 then 0
    else
      var last := Info(ledger, n - 1);
      if last.nextEpochState.Some? && last.version <= version then
        if last.version < version then last.epoch + 1 else last.epoch
      else GetEpoch(ledger, n - 1, version)
  }

  predicate Ends(ledger: seq<LedgerInfo>, k: nat, e: Epoch) {
    k < |ledger| && Info(ledger, k).epoch == e && Info(ledger, k).nextEpochState.Some?
  }

  lemma {:induction false} EveryEpochEnds(ledger: seq<LedgerInfo>, n: nat, e: Epoch)
    requires ValidLedger(ledger) && 0 < n <= |ledger| && e < EndEpoch(ledger, n)
    ensures exists k: nat :: k < n && Ends(ledger, k, e)
  {
    var last := Info(ledger, n - 1);
    if last.nextEpochState.Some? && last.epoch == e {
      assert Ends(ledger, n - 1, e);
    } else {
      EveryEpochEnds(ledger, n - 1, e);
    }
  }

  /** Position of the ledger info that ends epoch `e`. */
  ghost function EndOf(ledger: seq<LedgerInfo>, n: nat, e: Epoch): (k: nat)
    requires ValidLedger(ledger) && 0 < n <= |ledger| && e < EndEpoch(ledger, n)
    ensures k < n && Ends(ledger, k, e)
  {
    EveryEpochEnds(ledger, n, e);
    var k: nat :| k < n && Ends(ledger, k, e);
    k
  }

  lemma EndIsUnique(ledger: seq<LedgerInfo>, i: nat, j: nat, e: Epoch)
    requires ValidLedger(ledger) && Ends(ledger, i, e) && Ends(ledger, j, e)
    ensures i == j
  {
    EpochEndIsLast(ledger, i, j);
    EpochEndIsLast(ledger, j, i);
  }

  ghost function Endings(chain: seq<LedgerInfoWithSignatures>, n: nat, from: Epoch, to: Epoch)
    : (xs: seq<LedgerInfoWithSignatures>)
    requires ValidLedger(Plain(chain)) && 0 < n <= |chain| && from <= to <= EndEpoch(Plain(chain), n)
    ensures |xs| == to - from
  {
    seq(to - from, i requires 0 <= i < to - from => chain[EndOf(Plain(chain), n, from + i)])
  }

  /** `get_state_proof` on a server that holds the first `n` ledger infos, for a client at `version`: at
      most `limit` epoch ends, and `more` when there are others. */
  ghost function Respond(chain: seq<LedgerInfoWithSignatures>, n: nat, version: Version, limit: nat): Response
    requires ValidLedger(Plain(chain)) && 0 < n <= |chain|
  {
    var from, to := GetEpoch(Plain(chain), n, version), EndEpoch(Plain(chain), n);
    var proof :=
      if from >= to then EpochChangeProof([], false)
      else if to - from > limit then EpochChangeProof(Endings(chain, n, from, from + limit), true)
      else EpochChangeProof(Endings(chain, n, from, to), false);
    Response(chain[n - 1], proof)
  }

  ghost predicate ServerReady(chain: seq<LedgerInfoWithSignatures>, n: nat) {
    SignedLedger(chain) && 0 < n <= |chain|
  }

  lemma {:induction false} GetEpochBefore(ledger: seq<LedgerInfo>, n: nat, version: Version)
    requires ValidLedger(ledger) && 0 < n <= |ledger| && Info(ledger, n - 1).version < version
    ensures GetEpoch(ledger, n, version) == EndEpoch(ledger, n)
  {
    if Info(ledger, n - 1).nextEpochState.None? {
      GetEpochBefore(ledger, n - 1, version);
    }
  }

  lemma {:induction false} GetEpochAt(ledger: seq<LedgerInfo>, n: nat, k: nat)
    requires ValidLedger(ledger) && k < n <= |ledger|
    ensures GetEpoch(ledger, n, Info(ledger, k).version) == Info(ledger, k).epoch
  {
    if k < n - 1 {
      LedgerOrder(ledger, k, n - 1);
      GetEpochAt(ledger, n - 1, k);
    } else if Info(ledger, k).nextEpochState.None? {
      GetEpochBefore(ledger, k, Info(ledger, k).version);
    }
  }

  ghost predicate IsEndOf(chain: seq<LedgerInfoWithSignatures>, n: nat, x: LedgerInfoWithSignatures, e: Epoch)
    requires n <= |chain|
  {
    exists m: nat :: m < n && x == chain[m] && Ends(Plain(chain), m, e)
  }

  /** The epoch of any version up to the latest is that of the first ledger info that covers it. */
  lemma {:induction false} GetEpochCovers(ledger: seq<LedgerInfo>, n: nat, k: nat, version: Version)
    requires ValidLedger(ledger) && k < n <= |ledger| && version <= Info(ledger, k).version
    requires k > 0 ==> Info(ledger, k - 1).version < version
    ensures GetEpoch(ledger, n, version) == Info(ledger, k).epoch
  {
    if version == Info(ledger, k).version {
      GetEpochAt(ledger, n, k);
    } else if k < n - 1 {
      LedgerOrder(ledger, k, n - 1);
      GetEpochCovers(ledger, n - 1, k, version);
    } else if k > 0 {
      GetEpochBefore(ledger, k, version);
    }
  }

  /** The answer to a client at a committed version: the ends of the epochs from its own on, as many as fit,
      and whether there are others, with the latest ledger info. */
  lemma RespondMeans(chain: seq<LedgerInfoWithSignatures>, n: nat, k: nat, limit: nat)
    requires ValidLedger(Plain(chain)) && k < n <= |chain|
    ensures var own, last := Info(Plain(chain), k).epoch, EndEpoch(Plain(chain), n);
      var r := Respond(chain, n, Info(Plain(chain), k).version, limit);
      && r.latest == chain[n - 1] && own <= last && (r.proof.more <==> last - own > limit)
      && |r.proof.ledgerInfos| == (if last - own > limit then limit else last - own)
      && forall j :: 0 <= j < |r.proof.ledgerInfos| ==>
           IsEndOf(chain, n, r.proof.ledgerInfos[j], own + j)
  {
    var ledger := Plain(chain);
    GetEpochAt(ledger, n, k);
    if k < n - 1 {
      LedgerOrder(ledger, k, n - 1);
    }
    var own := Info(ledger, k).epoch;
    var xs := Respond(chain, n, Info(ledger, k).version, limit).proof.ledgerInfos;
    forall j | 0 <= j < |xs| ensures IsEndOf(chain, n, xs[j], own + j) {
      var m := EndOf(ledger, n, own + j);
      assert m < n && xs[j] == chain[m];
    }
  }

  // What an honest proof does to a client

  /** A client on the ledger; a client that still has only a waypoint sits at an epoch end. */
  ghost predicate ClientAt(ledger: seq<LedgerInfo>, s: TrustedState, k: nat) {
    TrustedAt(ledger, s, k) && (s.EpochWaypoint? ==> Info(ledger, k).nextEpochState.Some?)
  }

  /** The first epoch whose end is news to the client. */
  function FreshEpoch(ledger: seq<LedgerInfo>, s: TrustedState, k: nat): Epoch
    requires k < |ledger|
  {
    if s.InEpoch? then s.epochState.epoch else Info(ledger, k).epoch
  }

  ghost function StateOfEpoch(ledger: seq<LedgerInfo>, n: nat, e: Epoch): EpochState
    requires ValidLedger(ledger) && 0 < n <= |ledger| && 0 < e <= EndEpoch(ledger, n)
  {
    Info(ledger, EndOf(ledger, n, e - 1)).nextEpochState.value
  }

  /** Where a client that knows everything about the first `n` ledger infos stands. */
  ghost function Target(ledger: seq<LedgerInfo>, n: nat): TrustedState
    requires ValidLedger(ledger) && 0 < n <= |ledger|
  {
    LaterEpochsOnly(ledger, n);
    InEpoch(WaypointOf(ledger[n - 1]), StateOfEpoch(ledger, n, EndEpoch(ledger, n)))
  }

  lemma LaterEpochsOnly(ledger: seq<LedgerInfo>, n: nat)
    requires ValidLedger(ledger) && 0 < n <= |ledger|
    ensures EndEpoch(ledger, n) > 0
  {
    if n > 1 {
      LedgerOrder(ledger, 0, n - 1);
    }
  }

  lemma StateIsCanonical(ledger: seq<LedgerInfo>, n: nat, es: EpochState)
    requires ValidLedger(ledger) && 0 < n <= |ledger| && CanonicalEpochState(ledger, es)
    requires es.epoch <= EndEpoch(ledger, n)
    ensures es.epoch > 0 && es == StateOfEpoch(ledger, n, es.epoch)
  {
    var m: nat :| Installs(ledger, m, es);
    OneStatePerEpoch(ledger, m, es, EndOf(ledger, n, es.epoch - 1), StateOfEpoch(ledger, n, es.epoch));
  }

  /** A ledger info verifies under the state of its epoch. */
  lemma StateVerifies(chain: seq<LedgerInfoWithSignatures>, n: nat, k: nat)
    requires ServerReady(chain, n) && k < n
    requires var e := Info(Plain(chain), k).epoch; 0 < e <= EndEpoch(Plain(chain), n)
    ensures OfEpochState(StateOfEpoch(Plain(chain), n, Info(Plain(chain), k).epoch)).Verifies(chain[k])
  {
    hide MultiSignatureVerdict;
    var ledger := Plain(chain);
    var e := Info(ledger, k).epoch;
    var m := EndOf(ledger, n, e - 1);
    var es := StateOfEpoch(ledger, n, e);
    assert Installs(ledger, m, es);
    if k <= m {
      if k < m {
        LedgerOrder(ledger, k, m);
      }
      assert false;
    }
  }

  lemma StaleCountIs(start: Verifier, xs: seq<LedgerInfoWithSignatures>, from: nat)
    requires StalePrefix(start, xs, from)
    ensures StaleCount(start, xs) == from
  {
    hide StaleCount;
  }

  /** An epoch end is stale to the client exactly when its epoch is before the client's. */
  lemma StaleEnds(chain: seq<LedgerInfoWithSignatures>, n: nat, s: TrustedState, k: nat, e: Epoch)
    requires ServerReady(chain, n) && ClientAt(Plain(chain), s, k) && k < n && e < EndEpoch(Plain(chain), n)
    ensures s.AsVerifier().IsStale(chain[EndOf(Plain(chain), n, e)].ledgerInfo) <==> e < FreshEpoch(Plain(chain), s, k)
  {
    var ledger := Plain(chain);
    var m := EndOf(ledger, n, e);
    if s.EpochWaypoint? {
      VersionOrdersPositions(ledger, k, m);
      if m < k {
        LedgerOrder(ledger, m, k);
      } else {
        if k < m {
          LedgerOrder(ledger, k, m);
        }
      }
    }
  }

  /** The entry for epoch `e` is accepted by the client (first fresh epoch) or by the state the entry
      before it installs. */
  lemma EndAccepted(chain: seq<LedgerInfoWithSignatures>, n: nat, s: TrustedState, k: nat, from: Epoch, to: Epoch,
                    e: Epoch)
    requires ServerReady(chain, n) && ClientAt(Plain(chain), s, k) && k < n
    requires from <= FreshEpoch(Plain(chain), s, k) <= e < to <= EndEpoch(Plain(chain), n)
    ensures EntryAccepted(s.AsVerifier(), Endings(chain, n, from, to), FreshEpoch(Plain(chain), s, k) - from, e - from)
  {
    hide MultiSignatureVerdict;
    var ledger, xs := Plain(chain), Endings(chain, n, from, to);
    var m, first := EndOf(ledger, n, e), FreshEpoch(ledger, s, k);
    assert xs[e - from] == chain[m];
    if e == first {
      if s.EpochWaypoint? {
        EndIsUnique(ledger, k, m, e);
      } else {
        StateIsCanonical(ledger, n, s.epochState);
        StateVerifies(chain, n, m);
      }
    } else {
      assert xs[e - 1 - from] == chain[EndOf(ledger, n, e - 1)];
      StateVerifies(chain, n, m);
    }
  }

  /** An honest proof that reaches past the client's epoch verifies. */
  lemma HonestProofVerifies(chain: seq<LedgerInfoWithSignatures>, n: nat, s: TrustedState, k: nat, from: Epoch,
                            to: Epoch, more: bool)
    requires ServerReady(chain, n) && ClientAt(Plain(chain), s, k) && k < n
    requires from <= FreshEpoch(Plain(chain), s, k) < to <= EndEpoch(Plain(chain), n)
    ensures ProofVerdict(EpochChangeProof(Endings(chain, n, from, to), more), s.AsVerifier())
         == Some(chain[EndOf(Plain(chain), n, to - 1)])
  {
    hide MultiSignatureVerdict, StaleCount, EntryAccepted;
    var ledger, xs := Plain(chain), Endings(chain, n, from, to);
    var start, first := s.AsVerifier(), FreshEpoch(ledger, s, k);
    forall j | 0 <= j < |xs| ensures start.IsStale(xs[j].ledgerInfo) <==> j < first - from {
      StaleEnds(chain, n, s, k, from + j);
    }
    var skip := first - from;
    StaleCountIs(start, xs, skip);
    forall j | skip <= j < |xs| ensures EntryAccepted(start, xs, skip, j) {
      EndAccepted(chain, n, s, k, from, to, from + j);
    }
  }

  /** A proof that does not reach past the client's epoch is rejected. */
  lemma StaleProofRejected(chain: seq<LedgerInfoWithSignatures>, n: nat, s: TrustedState, k: nat, from: Epoch,
                           to: Epoch, more: bool)
    requires ServerReady(chain, n) && ClientAt(Plain(chain), s, k) && k < n
    requires from <= to <= FreshEpoch(Plain(chain), s, k) && to <= EndEpoch(Plain(chain), n)
    ensures ProofVerdict(EpochChangeProof(Endings(chain, n, from, to), more), s.AsVerifier()).None?
  {
    hide MultiSignatureVerdict, StaleCount;
    if from < to {
      StaleEnds(chain, n, s, k, to - 1);
    }
  }

  /** The client's epoch is within the server's range, and knows the state of it. */
  lemma ClientEpoch(ledger: seq<LedgerInfo>, n: nat, s: TrustedState, k: nat)
    requires ValidLedger(ledger) && 0 < n <= |ledger| && ClientAt(ledger, s, k) && k < n
    ensures Info(ledger, k).NextBlockEpoch() <= EndEpoch(ledger, n)
    ensures Info(ledger, k).epoch <= FreshEpoch(ledger, s, k) <= EndEpoch(ledger, n)
    ensures s.EpochWaypoint? ==> FreshEpoch(ledger, s, k) < EndEpoch(ledger, n)
  {
    if k < n - 1 {
      LedgerOrder(ledger, k, n - 1);
    }
  }

  /** When the client's epoch is the server's latest, the ledger info itself is enough. */
  lemma SameEpochResponse(chain: seq<LedgerInfoWithSignatures>, n: nat, s: TrustedState, k: nat,
                          proof: EpochChangeProof)
    requires ServerReady(chain, n) && ClientAt(Plain(chain), s, k) && k < n
    requires FreshEpoch(Plain(chain), s, k) == EndEpoch(Plain(chain), n)
    ensures Ratchet(s, chain[n - 1], proof)
         == Ok(if k == n - 1 then NoChange else VersionChange(Target(Plain(chain), n)))
    ensures Apply(s, chain[n - 1], proof) == Target(Plain(chain), n)
  {
    hide MultiSignatureVerdict, EpochRatchet;
    var ledger := Plain(chain);
    ClientEpoch(ledger, n, s, k);
    StateIsCanonical(ledger, n, s.epochState);
    if k < n - 1 {
      LedgerOrder(ledger, k, n - 1);
      LastOfSameEpoch(ledger, n, k);
      StateVerifies(chain, n, n - 1);
    }
  }

  /** If a ledger info before the last leads into the last epoch, the last one does not end its own. */
  lemma LastOfSameEpoch(ledger: seq<LedgerInfo>, n: nat, k: nat)
    requires ValidLedger(ledger) && k < n - 1 && n <= |ledger|
    requires EndEpoch(ledger, n) <= Info(ledger, k).NextBlockEpoch()
    ensures Info(ledger, n - 1).epoch == EndEpoch(ledger, n)
  {
    LedgerOrder(ledger, k, n - 1);
  }

  /** A complete honest proof brings the client to the server's latest state. */
  lemma CompleteProofResponse(chain: seq<LedgerInfoWithSignatures>, n: nat, s: TrustedState, k: nat, from: Epoch,
                              more: bool)
    requires ServerReady(chain, n) && ClientAt(Plain(chain), s, k) && k < n
    requires from <= FreshEpoch(Plain(chain), s, k) < EndEpoch(Plain(chain), n)
    ensures var proof := EpochChangeProof(Endings(chain, n, from, EndEpoch(Plain(chain), n)), more);
      Ratchet(s, chain[n - 1], proof)
      == Ok(EpochChange(Target(Plain(chain), n), chain[EndOf(Plain(chain), n, EndEpoch(Plain(chain), n) - 1)]))
  {
    hide MultiSignatureVerdict, ProofVerdict;
    var ledger := Plain(chain);
    var to := EndEpoch(ledger, n);
    HonestProofVerifies(chain, n, s, k, from, to, more);
    VersionOrdersPositions(ledger, k, n - 1);
    var m := EndOf(ledger, n, to - 1);
    if Info(ledger, n - 1).nextEpochState.Some? {
      EndIsUnique(ledger, m, n - 1, to - 1);
    } else {
      StateVerifies(chain, n, n - 1);
    }
  }

  /** A server whose answer to a client at position `asked` is complete. */
  predicate CompleteFor(ledger: seq<LedgerInfo>, n: nat, asked: nat, limit: nat) {
    asked < n <= |ledger| && EndEpoch(ledger, n) <= Info(ledger, asked).epoch + limit
  }

  /** A complete answer to a question asked at `asked`, used later at `k`: the client ends at the server's
      latest state, by a change of epoch or of version if there is one, or rejects the answer as stale if it
      is already ahead. */
  lemma CompleteResponse(chain: seq<LedgerInfoWithSignatures>, n: nat, s: TrustedState, k: nat, asked: nat, limit: nat)
    requires ServerReady(chain, n) && ClientAt(Plain(chain), s, k) && asked <= k
    requires CompleteFor(Plain(chain), n, asked, limit)
    ensures var r := Respond(chain, n, Info(Plain(chain), asked).version, limit);
      Apply(s, r.latest, r.proof) == if k < n then Target(Plain(chain), n) else s
    ensures var r := Respond(chain, n, Info(Plain(chain), asked).version, limit);
      var verdict := Ratchet(s, r.latest, r.proof);
      if k >= n then verdict == Err(StaleTarget)
      else if FreshEpoch(Plain(chain), s, k) < EndEpoch(Plain(chain), n) then verdict.Ok? && verdict.value.EpochChange?
      else verdict.Ok? && (if k == n - 1 then verdict.value.NoChange? else verdict.value.VersionChange?)
  {
    hide MultiSignatureVerdict, EpochRatchet;
    var ledger := Plain(chain);
    GetEpochAt(ledger, n, asked);
    if k < n {
      ClientEpoch(ledger, n, s, k);
      if asked < k {
        LedgerOrder(ledger, asked, k);
      }
      var from, first, to := Info(ledger, asked).epoch, FreshEpoch(ledger, s, k), EndEpoch(ledger, n);
      if first == to {
        SameEpochResponse(chain, n, s, k, Respond(chain, n, Info(ledger, asked).version, limit).proof);
      } else {
        CompleteProofResponse(chain, n, s, k, from, false);
      }
    } else {
      LedgerOrder(ledger, n - 1, k);
    }
  }

  lemma TargetIsClient(ledger: seq<LedgerInfo>, n: nat)
    requires ValidLedger(ledger) && 0 < n <= |ledger|
    ensures ClientAt(ledger, Target(ledger, n), n - 1)
  {
    var to := EndEpoch(ledger, n);
    LaterEpochsOnly(ledger, n);
    assert Installs(ledger, EndOf(ledger, n, to - 1), StateOfEpoch(ledger, n, to));
  }

  /** Two concurrent answers to the same question, used in either order, leave the client in the same
      state. */
  lemma ConcurrentResponsesCommute(chain: seq<LedgerInfoWithSignatures>, n1: nat, n2: nat, limit: nat, s: TrustedState,
                                   k: nat)
    requires ServerReady(chain, n1) && ServerReady(chain, n2) && ClientAt(Plain(chain), s, k)
    requires CompleteFor(Plain(chain), n1, k, limit) && CompleteFor(Plain(chain), n2, k, limit)
    ensures var v := Info(Plain(chain), k).version;
      var r1, r2 := Respond(chain, n1, v, limit), Respond(chain, n2, v, limit);
      Apply(Apply(s, r1.latest, r1.proof), r2.latest, r2.proof)
      == Apply(Apply(s, r2.latest, r2.proof), r1.latest, r1.proof)
      == Target(Plain(chain), if n1 <= n2 then n2 else n1)
  {
    hide MultiSignatureVerdict, Apply, Respond, SignedLedger, ValidLedger, Target, ClientAt, CompleteFor, ServerReady;
    Sequenced(chain, n1, n2, limit, s, k);
    Sequenced(chain, n2, n1, limit, s, k);
  }

  lemma Sequenced(chain: seq<LedgerInfoWithSignatures>, n1: nat, n2: nat, limit: nat, s: TrustedState, k: nat)
    requires ServerReady(chain, n1) && ServerReady(chain, n2) && ClientAt(Plain(chain), s, k)
    requires CompleteFor(Plain(chain), n1, k, limit) && CompleteFor(Plain(chain), n2, k, limit)
    ensures var v := Info(Plain(chain), k).version;
      var r1, r2 := Respond(chain, n1, v, limit), Respond(chain, n2, v, limit);
      Apply(Apply(s, r1.latest, r1.proof), r2.latest, r2.proof) == Target(Plain(chain), if n1 <= n2 then n2 else n1)
  {
    hide MultiSignatureVerdict, Apply, Respond;
    var ledger := Plain(chain);
    CompleteResponse(chain, n1, s, k, k, limit);
    TargetIsClient(ledger, n1);
    CompleteResponse(chain, n2, Target(ledger, n1), n1 - 1, k, limit);
  }

  // Catching up in pieces

  /** A truncated proof moves the client to the last epoch it covers, or, when only the epoch end that is
      the latest ledger info itself is missing, to that ledger info. */
  lemma TruncatedResponse(chain: seq<LedgerInfoWithSignatures>, n: nat, s: TrustedState, k: nat, to: Epoch)
    returns (k': nat)
    requires ServerReady(chain, n) && ClientAt(Plain(chain), s, k) && k < n
    requires FreshEpoch(Plain(chain), s, k) < to < EndEpoch(Plain(chain), n)
    ensures var t := Apply(s, chain[n - 1], EpochChangeProof(Endings(chain, n, Info(Plain(chain), k).epoch, to), true));
      k <= k' < n && ClientAt(Plain(chain), t, k') && t.InEpoch? && t.epochState.epoch == to
    ensures if Info(Plain(chain), n - 1).epoch == to then k' == n - 1 else Info(Plain(chain), k').epoch + 1 == to
  {
    hide MultiSignatureVerdict, ProofVerdict;
    var ledger := Plain(chain);
    ClientEpoch(ledger, n, s, k);
    HonestProofVerifies(chain, n, s, k, Info(ledger, k).epoch, to, true);
    VersionOrdersPositions(ledger, k, n - 1);
    var m := EndOf(ledger, n, to - 1);
    var es := StateOfEpoch(ledger, n, to);
    assert Installs(ledger, m, es);
    if Info(ledger, n - 1).epoch == to {
      StateVerifies(chain, n, n - 1);
      k' := n - 1;
    } else {
      EpochEndIsLast(ledger, k, m);
      k' := m;
    }
  }

  /** An answer whose proof stops just short of the latest ledger info, which ends an epoch, is taken all the
      way; the same answer again is an error. */
  lemma EpochEndRepeated(chain: seq<LedgerInfoWithSignatures>, n: nat, s: TrustedState, k: nat)
    requires ServerReady(chain, n) && ClientAt(Plain(chain), s, k) && k < n
    requires var last := Info(Plain(chain), n - 1);
      last.nextEpochState.Some? && FreshEpoch(Plain(chain), s, k) < last.epoch
    ensures Info(Plain(chain), k).epoch <= Info(Plain(chain), n - 1).epoch < EndEpoch(Plain(chain), n)
    ensures var proof :=
        EpochChangeProof(Endings(chain, n, Info(Plain(chain), k).epoch, Info(Plain(chain), n - 1).epoch), true);
      var t := Apply(s, chain[n - 1], proof);
      t.waypoint == WaypointOf(Plain(chain)[n - 1]) && Ratchet(t, chain[n - 1], proof) == Err(BadProof)
  {
    hide MultiSignatureVerdict, ProofVerdict;
    var ledger := Plain(chain);
    var own, to := Info(ledger, k).epoch, Info(ledger, n - 1).epoch;
    ClientEpoch(ledger, n, s, k);
    var k' := TruncatedResponse(chain, n, s, k, to);
    var t := Apply(s, chain[n - 1], EpochChangeProof(Endings(chain, n, own, to), true));
    StaleProofRejected(chain, n, t, k', own, to, true);
  }

  /** One round of catching up with pieces of `limit` epochs. */
  ghost function Ask(chain: seq<LedgerInfoWithSignatures>, n: nat, limit: nat, s: TrustedState): TrustedState
    requires ServerReady(chain, n)
  {
    var r := Respond(chain, n, s.waypoint.version, limit);
    Apply(s, r.latest, r.proof)
  }

  ghost function AskRepeatedly(chain: seq<LedgerInfoWithSignatures>, n: nat, limit: nat, s: TrustedState,
                               times: nat): TrustedState
    requires ServerReady(chain, n)
    decreases times
  {
    if times == 0 then s else AskRepeatedly(chain, n, limit, Ask(chain, n, limit, s), times - 1)
  }

  /** Epochs the client still has to learn about. */
  function Remaining(ledger: seq<LedgerInfo>, n: nat, s: TrustedState, k: nat): int
    requires 0 < n <= |ledger| && k < |ledger|
  {
    EndEpoch(ledger, n) - FreshEpoch(ledger, s, k) + if s.EpochWaypoint? then 1 else 0
  }

  /** With room for two epochs per answer, every round reaches the goal or leaves fewer epochs. */
  lemma AskMakesProgress(chain: seq<LedgerInfoWithSignatures>, n: nat, limit: nat, s: TrustedState,
                         k: nat) returns (k': nat)
    requires ServerReady(chain, n) && ClientAt(Plain(chain), s, k) && k < n && limit >= 2
    ensures k <= k' < n && ClientAt(Plain(chain), Ask(chain, n, limit, s), k')
    ensures Ask(chain, n, limit, s) == Target(Plain(chain), n)
         || Remaining(Plain(chain), n, Ask(chain, n, limit, s), k') < Remaining(Plain(chain), n, s, k)
  {
    hide MultiSignatureVerdict, Apply;
    var ledger := Plain(chain);
    GetEpochAt(ledger, n, k);
    ClientEpoch(ledger, n, s, k);
    if CompleteFor(ledger, n, k, limit) {
      CompleteResponse(chain, n, s, k, k, limit);
      TargetIsClient(ledger, n);
      k' := n - 1;
    } else {
      k' := TruncatedResponse(chain, n, s, k, Info(ledger, k).epoch + limit);
    }
  }

  lemma {:induction false} TargetIsStable(chain: seq<LedgerInfoWithSignatures>, n: nat, limit: nat, times: nat)
    requires ServerReady(chain, n) && limit >= 2
    ensures AskRepeatedly(chain, n, limit, Target(Plain(chain), n), times) == Target(Plain(chain), n)
  {
    hide MultiSignatureVerdict, Ask;
    if times > 0 {
      TargetAsks(chain, n, limit);
      TargetIsStable(chain, n, limit, times - 1);
    }
  }

  lemma TargetAsks(chain: seq<LedgerInfoWithSignatures>, n: nat, limit: nat)
    requires ServerReady(chain, n) && limit >= 2
    ensures Ask(chain, n, limit, Target(Plain(chain), n)) == Target(Plain(chain), n)
  {
    hide MultiSignatureVerdict, Apply;
    var ledger := Plain(chain);
    TargetIsClient(ledger, n);
    GetEpochAt(ledger, n, n - 1);
    CompleteResponse(chain, n, Target(ledger, n), n - 1, n - 1, limit);
  }

  /** Catching up in pieces of at least two epochs ends, after finitely many rounds, in exactly the state
      that one complete answer gives. */
  lemma {:induction false} ChunkedCatchUp(chain: seq<LedgerInfoWithSignatures>, n: nat, limit: nat, s: TrustedState,
                                          k: nat, times: nat)
    requires ServerReady(chain, n) && ClientAt(Plain(chain), s, k) && k < n && limit >= 2
    requires times > Remaining(Plain(chain), n, s, k)
    ensures AskRepeatedly(chain, n, limit, s, times) == Target(Plain(chain), n)
    decreases times
  {
    hide MultiSignatureVerdict, Ask, Target;
    ClientEpoch(Plain(chain), n, s, k);
    var t := Ask(chain, n, limit, s);
    var k' := AskMakesProgress(chain, n, limit, s, k);
    if t == Target(Plain(chain), n) {
      TargetIsStable(chain, n, limit, times - 1);
    } else {
      ChunkedCatchUp(chain, n, limit, t, k', times - 1);
    }
  }

  // Servers that grow

  ghost predicate Growing(chain: seq<LedgerInfoWithSignatures>, servers: seq<nat>, n: nat) {
    && ServerReady(chain, n)
    && (forall i :: 0 <= i < |servers| ==> 0 < servers[i] <= n)
    && forall i, j :: 0 <= i < j < |servers| ==> servers[i] <= servers[j]
  }

  /** One question to each server, the ledger growing in between. */
  ghost function AskEach(chain: seq<LedgerInfoWithSignatures>, servers: seq<nat>, n: nat, limit: nat,
                         s: TrustedState): TrustedState
    requires Growing(chain, servers, n)
  {
    if servers == [] then s
    else
      var last := |servers| - 1;
      Ask(chain, servers[last], limit, AskEach(chain, servers[..last], servers[last], limit, s))
  }

  lemma {:induction false} AskEachStaysOnLedger(chain: seq<LedgerInfoWithSignatures>, servers: seq<nat>, n: nat,
                                                limit: nat, s: TrustedState, k: nat)
    returns (k': nat)
    requires Growing(chain, servers, n) && ClientAt(Plain(chain), s, k) && limit >= 2
    requires if servers == [] then k < n else k < servers[0]
    ensures k <= k' < n && ClientAt(Plain(chain), AskEach(chain, servers, n, limit, s), k')
    decreases |servers|
  {
    hide MultiSignatureVerdict, Ask, ClientAt, SignedLedger, Target;
    if servers == [] {
      k' := k;
    } else {
      var last := |servers| - 1;
      var before := AskEachStaysOnLedger(chain, servers[..last], servers[last], limit, s, k);
      var t := AskEach(chain, servers[..last], servers[last], limit, s);
      k' := AskMakesProgress(chain, servers[last], limit, t, before);
    }
  }

  /** The same while the ledger grows: however the servers grow, once they stop the client catches up, in no
      more questions than there are epochs. */
  lemma GrowingCatchUp(chain: seq<LedgerInfoWithSignatures>, servers: seq<nat>, n: nat, limit: nat, s: TrustedState,
                       k: nat, times: nat)
    requires Growing(chain, servers, n) && ClientAt(Plain(chain), s, k) && limit >= 2
    requires if servers == [] then k < n else k < servers[0]
    requires times > EndEpoch(Plain(chain), n) + 1
    ensures AskRepeatedly(chain, n, limit, AskEach(chain, servers, n, limit, s), times) == Target(Plain(chain), n)
  {
    hide MultiSignatureVerdict, Ask, ClientAt, SignedLedger, Target, AskRepeatedly, AskEach;
    var k' := AskEachStaysOnLedger(chain, servers, n, limit, s, k);
    ChunkedCatchUp(chain, n, limit, AskEach(chain, servers, n, limit, s), k', times);
  }

  // Smaller pieces

  lemma {:induction false} FixedPoint(chain: seq<LedgerInfoWithSignatures>, n: nat, limit: nat, s: TrustedState,
                                      times: nat)
    requires ServerReady(chain, n) && Ask(chain, n, limit, s) == s
    ensures AskRepeatedly(chain, n, limit, s, times) == s
  {
    hide MultiSignatureVerdict, Ask;
    if times > 0 {
      FixedPoint(chain, n, limit, s, times - 1);
    }
  }

  /** A client at an epoch end it has already taken in is offered that same epoch end again; a limit of
      one leaves no room for anything new, a limit of zero none at all. */
  lemma AnswerIsStale(chain: seq<LedgerInfoWithSignatures>, n: nat, limit: nat, s: TrustedState, k: nat)
    requires ServerReady(chain, n) && ClientAt(Plain(chain), s, k) && k < n
    requires var first := FreshEpoch(Plain(chain), s, k);
      Info(Plain(chain), k).epoch + limit <= first < EndEpoch(Plain(chain), n)
    ensures Ask(chain, n, limit, s) == s
  {
    hide MultiSignatureVerdict, ProofVerdict;
    var ledger := Plain(chain);
    GetEpochAt(ledger, n, k);
    StaleProofRejected(chain, n, s, k, Info(ledger, k).epoch, Info(ledger, k).epoch + limit, true);
  }

  /** When catching up works: nothing to learn, pieces of two epochs, or single epochs that happen to
      suffice. */
  predicate PiecesSuffice(ledger: seq<LedgerInfo>, n: nat, limit: nat, s: TrustedState, k: nat)
    requires 0 < n <= |ledger| && k < |ledger|
  {
    var own, first, to := Info(ledger, k).epoch, FreshEpoch(ledger, s, k), EndEpoch(ledger, n);
    || first == to
    || limit >= 2
    || (limit == 1 && (to <= own + 1 || (first == own && Info(ledger, n - 1).epoch == own + 1)))
  }

  ghost predicate CatchesUp(chain: seq<LedgerInfoWithSignatures>, n: nat, limit: nat, s: TrustedState) {
    ServerReady(chain, n) && exists times: nat :: AskRepeatedly(chain, n, limit, s, times) == Target(Plain(chain), n)
  }

  lemma AskOnce(chain: seq<LedgerInfoWithSignatures>, n: nat, limit: nat, s: TrustedState)
    requires ServerReady(chain, n)
    ensures AskRepeatedly(chain, n, limit, s, 1) == Ask(chain, n, limit, s)
    ensures AskRepeatedly(chain, n, limit, s, 2) == Ask(chain, n, limit, Ask(chain, n, limit, s))
  {
    hide Ask;
    assert AskRepeatedly(chain, n, limit, s, 1) == AskRepeatedly(chain, n, limit, Ask(chain, n, limit, s), 0);
    assert AskRepeatedly(chain, n, limit, s, 2) == AskRepeatedly(chain, n, limit, Ask(chain, n, limit, s), 1);
  }

  /** A complete answer, or a client already in the last epoch, needs one question. */
  lemma OneAnswerIsEnough(chain: seq<LedgerInfoWithSignatures>, n: nat, limit: nat, s: TrustedState, k: nat)
    requires ServerReady(chain, n) && ClientAt(Plain(chain), s, k) && k < n
    requires CompleteFor(Plain(chain), n, k, limit) || FreshEpoch(Plain(chain), s, k) == EndEpoch(Plain(chain), n)
    ensures Ask(chain, n, limit, s) == Target(Plain(chain), n)
  {
    hide MultiSignatureVerdict, Apply;
    if CompleteFor(Plain(chain), n, k, limit) {
      CompleteResponse(chain, n, s, k, k, limit);
    } else {
      SameEpochResponse(chain, n, s, k, Respond(chain, n, s.waypoint.version, limit).proof);
    }
  }

  lemma PiecesAreEnough(chain: seq<LedgerInfoWithSignatures>, n: nat, limit: nat, s: TrustedState, k: nat)
    requires ServerReady(chain, n) && ClientAt(Plain(chain), s, k) && k < n
    requires PiecesSuffice(Plain(chain), n, limit, s, k)
    ensures CatchesUp(chain, n, limit, s)
  {
    hide MultiSignatureVerdict, Ask, Target, AskRepeatedly;
    var ledger := Plain(chain);
    var own, first, to := Info(ledger, k).epoch, FreshEpoch(ledger, s, k), EndEpoch(ledger, n);
    ClientEpoch(ledger, n, s, k);
    AskOnce(chain, n, limit, s);
    if first == to || CompleteFor(ledger, n, k, limit) {
      OneAnswerIsEnough(chain, n, limit, s, k);
    } else if limit >= 2 {
      ChunkedCatchUp(chain, n, limit, s, k, Remaining(ledger, n, s, k) + 1);
    } else {
      var k' := SingleEpochAnswer(chain, n, s, k);
      OneAnswerIsEnough(chain, n, 1, Ask(chain, n, 1, s), k');
    }
  }

  /** One epoch per answer, to a client that has not taken in the end of its own epoch. */
  lemma SingleEpochAnswer(chain: seq<LedgerInfoWithSignatures>, n: nat, s: TrustedState, k: nat) returns (k': nat)
    requires ServerReady(chain, n) && ClientAt(Plain(chain), s, k) && k < n
    requires var own := Info(Plain(chain), k).epoch;
      FreshEpoch(Plain(chain), s, k) == own && own + 1 < EndEpoch(Plain(chain), n)
    ensures var t := Ask(chain, n, 1, s);
      && k <= k' < n && ClientAt(Plain(chain), t, k') && t.InEpoch?
      && t.epochState.epoch == Info(Plain(chain), k).epoch + 1
    ensures if Info(Plain(chain), n - 1).epoch == Info(Plain(chain), k).epoch + 1 then k' == n - 1
            else Info(Plain(chain), k').epoch == Info(Plain(chain), k).epoch
  {
    hide MultiSignatureVerdict, Apply;
    GetEpochAt(Plain(chain), n, k);
    k' := TruncatedResponse(chain, n, s, k, Info(Plain(chain), k).epoch + 1);
  }

  lemma SmallerPiecesStall(chain: seq<LedgerInfoWithSignatures>, n: nat, limit: nat, s: TrustedState, k: nat,
                           times: nat)
    requires ServerReady(chain, n) && ClientAt(Plain(chain), s, k) && k < n
    requires !PiecesSuffice(Plain(chain), n, limit, s, k)
    ensures AskRepeatedly(chain, n, limit, s, times) != Target(Plain(chain), n)
  {
    hide MultiSignatureVerdict, Ask;
    var ledger := Plain(chain);
    var own, first, to := Info(ledger, k).epoch, FreshEpoch(ledger, s, k), EndEpoch(ledger, n);
    ClientEpoch(ledger, n, s, k);
    if limit == 0 || first == own + 1 {
      AnswerIsStale(chain, n, limit, s, k);
      FixedPoint(chain, n, limit, s, times);
    } else if times > 0 {
      var k' := SingleEpochAnswer(chain, n, s, k);
      var t := Ask(chain, n, 1, s);
      AnswerIsStale(chain, n, 1, t, k');
      FixedPoint(chain, n, 1, t, times - 1);
    }
  }

  /** Catching up in pieces works exactly under `PiecesSuffice`: always from two epochs per answer on, but
      not in general with one. */
  lemma CatchesUpIff(chain: seq<LedgerInfoWithSignatures>, n: nat, limit: nat, s: TrustedState, k: nat)
    requires ServerReady(chain, n) && ClientAt(Plain(chain), s, k) && k < n
    ensures CatchesUp(chain, n, limit, s) <==> PiecesSuffice(Plain(chain), n, limit, s, k)
  {
    hide MultiSignatureVerdict, AskRepeatedly, Target, PiecesSuffice;
    if PiecesSuffice(Plain(chain), n, limit, s, k) {
      PiecesAreEnough(chain, n, limit, s, k);
    } else {
      forall times: nat ensures AskRepeatedly(chain, n, limit, s, times) != Target(Plain(chain), n) {
        SmallerPiecesStall(chain, n, limit, s, k, times);
      }
    }
  }

  // A ledger on which single epochs are not enough

  function SampleLedgerInfo(k: nat): LedgerInfo {
    LedgerInfo(BlockInfo(k, 0, Raw(0), Raw(0), k, 0, Some(EpochState(k + 1, LONE_VALIDATOR))), Raw(0))
  }

  /** Genesis and the ends of the epochs up to `n - 1`, each signed by the only validator. */
  function SampleChain(n: nat): seq<LedgerInfoWithSignatures> {
    seq(n, k requires 0 <= k < n =>
      LedgerInfoWithSignatures(
        SampleLedgerInfo(k),
        match Aggregated(LONE_VALIDATOR, map[1 := Sign(1, LedgerInfoMessage(SampleLedgerInfo(k)))])
        case Ok(sig) => sig
        case Err(_) => AggregateSignature(BitVec([]), None)))
  }

  lemma SampleVerifies(n: nat, k: nat)
    requires k < n
    ensures OfEpochState(EpochState(k, LONE_VALIDATOR)).Verifies(SampleChain(n)[k])
  {
    hide MultiSignatureVerdict, Aggregated;
    var v, li := LONE_VALIDATOR, SampleLedgerInfo(k);
    var sigs := map[1 := Sign(1, LedgerInfoMessage(li))];
    assert v.infos[0].address == 1;
    assert Addresses(v.infos) == {1} == sigs.Keys;
    PowerOfOne(v.infos, 0);
    IndexOfAddress(v, 0);
    assert SumPower(v.infos) == 1;
    MultiSignatureRoundTrip(v, sigs, LedgerInfoMessage(li));
  }

  lemma SamplePlain(n: nat)
    requires n > 0
    ensures |Plain(SampleChain(n))| == n && forall k :: 0 <= k < n ==> Plain(SampleChain(n))[k] == SampleLedgerInfo(k)
    ensures ValidLedger(Plain(SampleChain(n))) && EndEpoch(Plain(SampleChain(n)), n) == n
  {
    hide Aggregated;
    var ledger := Plain(SampleChain(n));
    assert forall k :: 0 <= k < n ==> ledger[k] == SampleLedgerInfo(k);
  }

  lemma SampleIsSigned(n: nat)
    requires n > 0
    ensures SignedLedger(SampleChain(n))
  {
    hide MultiSignatureVerdict, Aggregated, ValidLedger;
    var chain := SampleChain(n);
    SamplePlain(n);
    hide Plain;
    forall m: nat, k: nat, es |
      m < k < |chain| && Installs(Plain(chain), m, es) && es.epoch == chain[k].ledgerInfo.commitInfo.epoch
      ensures OfEpochState(es).Verifies(chain[k])
    {
      SampleVerifies(n, k);
    }
  }

  /** The client that trusts genesis never catches up one epoch at a time, but does two at a time. */
  lemma SingleEpochsAreNotEnough()
    ensures var s := InEpoch(WaypointOf(SampleLedgerInfo(0)), EpochState(1, LONE_VALIDATOR));
      && ServerReady(SampleChain(4), 4) && ClientAt(Plain(SampleChain(4)), s, 0)
      && !CatchesUp(SampleChain(4), 4, 1, s) && CatchesUp(SampleChain(4), 4, 2, s)
  {
    hide MultiSignatureVerdict, Aggregated, CatchesUp, SignedLedger;
    var s := InEpoch(WaypointOf(SampleLedgerInfo(0)), EpochState(1, LONE_VALIDATOR));
    SampleIsSigned(4);
    SamplePlain(4);
    var ledger := Plain(SampleChain(4));
    assert Installs(ledger, 0, s.epochState);
    CatchesUpIff(SampleChain(4), 4, 1, s, 0);
    CatchesUpIff(SampleChain(4), 4, 2, s, 0);
  }
}
