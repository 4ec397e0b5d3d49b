/** Crash recovery of the block tree (`consensus/src/persistent_liveness_storage.rs`). */
module Recovery {
  import opened Types
  import opened Sequences
  import opened BitVectors
  import opened TwoChainRules

  function ParentId(b: Block): HashValue {
    b.quorumCert.Certified().id
  }

  predicate KeyLess(a: Block, b: Block) {
    a.epoch < b.epoch || (a.epoch == b.epoch && a.round < b.round)
  }

  // Sorting and searching

  predicate Ordered(s: seq<Block>) {
    forall i, j :: 0 <= i < j < |s| ==> !KeyLess(s[j], s[i])
  }

  /** After everything with the same or a smaller key. */
  function InsertByKey(s: seq<Block>, x: Block): seq<Block> {
    if s == [] || !KeyLess(x, s[|s| - 1]) then s + [x]
    else InsertByKey(s[..|s| - 1], x) + [s[|s| - 1]]
  }

  /** Stable sort by (epoch, round). */
  function SortByKey(s: seq<Block>): seq<Block> {
    if s == [] then [] else InsertByKey(SortByKey(s[..|s| - 1]), s[|s| - 1])
  }

  /** First element that matches. */
  function Find<T>(s: seq<T>, matches: T -> bool): Option<T> {
    if s == [] then None
    else
      var n := |s| - 1;
      var before := Find(s[..n], matches);
      if before.Some? then before else if matches(s[n]) then Some(s[n]) else None
  }

  predicate UniqueIds(s: seq<Block>) {
    forall i, j :: 0 <= i < j < |s| ==> s[i].id != s[j].id
  }

  lemma {:induction false} InsertPermutes(s: seq<Block>, x: Block)
    ensures multiset(InsertByKey(s, x)) == multiset(s) + multiset{x}
  {
    hide KeyLess;
    if s != [] && KeyLess(x, s[|s| - 1]) {
      var n := |s| - 1;
      InsertPermutes(s[..n], x);
      assert s == s[..n] + [s[n]];
    }
  }

  lemma {:induction false} InsertOrdered(s: seq<Block>, x: Block)
    requires Ordered(s)
    ensures Ordered(InsertByKey(s, x))
  {
    if s != [] && KeyLess(x, s[|s| - 1]) {
      var n := |s| - 1;
      var t := InsertByKey(s[..n], x);
      InsertOrdered(s[..n], x);
      InsertPermutes(s[..n], x);
      forall i | 0 <= i < |t| ensures !KeyLess(s[n], t[i]) {
        assert t[i] in multiset(t);
        assert t[i] == x || t[i] in s[..n];
      }
      hide InsertByKey, KeyLess;
    }
  }

  /** The sort is a permutation in key order. */
  lemma {:induction false} SortOrdered(s: seq<Block>)
    ensures Ordered(SortByKey(s)) && multiset(SortByKey(s)) == multiset(s)
  {
    hide InsertByKey;
    if s != [] {
      var n := |s| - 1;
      SortOrdered(s[..n]);
      InsertOrdered(SortByKey(s[..n]), s[n]);
      InsertPermutes(SortByKey(s[..n]), s[n]);
      assert s == s[..n] + [s[n]];
    }
  }

  /** Earlier epochs first, and within an epoch earlier rounds first. */
  lemma SortedByEpochAndRound(s: seq<Block>, i: nat, j: nat)
    requires i < j < |SortByKey(s)|
    ensures var a, b := SortByKey(s)[i], SortByKey(s)[j];
      a.epoch < b.epoch || (a.epoch == b.epoch && a.round <= b.round)
  {
    hide SortByKey;
    SortOrdered(s);
  }

  // Pruning

  /** Ids of the root and of the blocks kept so far. */
  function Tree(root: HashValue, blocks: seq<Block>): set<HashValue> {
    if blocks == [] then {root}
    else
      var n := |blocks| - 1;
      var before := Tree(root, blocks[..n]);
      if ParentId(blocks[n]) in before then before + {blocks[n].id} else before
  }

  /** Blocks whose parent was in the tree when they were met. */
  function Kept(root: HashValue, blocks: seq<Block>): seq<Block> {
    if blocks == [] then []
    else
      var n := |blocks| - 1;
      if ParentId(blocks[n]) in Tree(root, blocks[..n]) then Kept(root, blocks[..n]) + [blocks[n]]
      else Kept(root, blocks[..n])
  }

  function DroppedIds(root: HashValue, blocks: seq<Block>): set<HashValue> {
    if blocks == [] then {}
    else
      var n := |blocks| - 1;
      if ParentId(blocks[n]) in Tree(root, blocks[..n]) then DroppedIds(root, blocks[..n])
      else DroppedIds(root, blocks[..n]) + {blocks[n].id}
  }

  function CertifiesIn(ids: set<HashValue>): QuorumCert -> bool {
    (qc: QuorumCert) => qc.Certified().id in ids
  }

  function UncertifiedIds(ids: set<HashValue>, qcs: seq<QuorumCert>): set<HashValue> {
    set k | 0 <= k < |qcs| && qcs[k].Certified().id !in ids :: qcs[k].Certified().id
  }

  function ToRemove(root: HashValue, blocks: seq<Block>, qcs: seq<QuorumCert>): set<HashValue> {
    DroppedIds(root, blocks) + UncertifiedIds(Tree(root, blocks), qcs)
  }

  /** `find_blocks_to_prune`: one pass over the blocks, then one over the certificates. */
  method FindBlocksToPrune(root: HashValue, blocks: seq<Block>, qcs: seq<QuorumCert>)
    returns (kept: seq<Block>, keptQcs: seq<QuorumCert>, toRemove: set<HashValue>)
    ensures kept == Kept(root, blocks)
    ensures keptQcs == Filter(qcs, CertifiesIn(Tree(root, blocks)))
    ensures toRemove == ToRemove(root, blocks, qcs)
  {
    var tree := {root};
    toRemove, kept, keptQcs := {}, [], [];
    for i := 0 to |blocks|
      invariant tree == Tree(root, blocks[..i])
      invariant kept == Kept(root, blocks[..i])
      invariant toRemove == DroppedIds(root, blocks[..i])
    {
      assert blocks[..i + 1][..i] == blocks[..i];
      if ParentId(blocks[i]) in tree {
        tree := tree + {blocks[i].id};
        kept := kept + [blocks[i]];
      } else {
        toRemove := toRemove + {blocks[i].id};
      }
    }
    assert blocks[..|blocks|] == blocks;
    for i := 0 to |qcs|
      invariant keptQcs == Filter(qcs[..i], CertifiesIn(tree))
      invariant toRemove == DroppedIds(root, blocks) + UncertifiedIds(tree, qcs[..i])
    {
      assert qcs[..i + 1][..i] == qcs[..i];
      UncertifiedStep(tree, qcs, i);
      if qcs[i].Certified().id in tree {
        keptQcs := keptQcs + [qcs[i]];
      } else {
        toRemove := toRemove + {qcs[i].Certified().id};
      }
    }
    assert qcs[..|qcs|] == qcs;
  }

  lemma UncertifiedStep(ids: set<HashValue>, qcs: seq<QuorumCert>, i: nat)
    requires i < |qcs|
    ensures UncertifiedIds(ids, qcs[..i + 1])
         == UncertifiedIds(ids, qcs[..i]) + if qcs[i].Certified().id in ids then {} else {qcs[i].Certified().id}
  {
    var s, t := qcs[..i], qcs[..i + 1];
    forall id | id in UncertifiedIds(ids, t)
      ensures id in UncertifiedIds(ids, s) || (id == qcs[i].Certified().id && id !in ids)
    {
      var k :| 0 <= k < |t| && t[k].Certified().id !in ids && t[k].Certified().id == id;
      assert k < i ==> s[k] == t[k];
    }
    forall id | id in UncertifiedIds(ids, s) ensures id in UncertifiedIds(ids, t) {
      var k :| 0 <= k < |s| && s[k].Certified().id !in ids && s[k].Certified().id == id;
      assert t[k] == s[k];
    }
  }

  // Exactness

  /** A chain of stored blocks from a child of the root. */
  ghost predicate IsChain(root: HashValue, blocks: seq<Block>, path: seq<Block>) {
    && path != [] && ParentId(path[0]) == root
    && (forall i :: 0 <= i < |path| ==> path[i] in blocks)
    && (forall i :: 0 < i < |path| ==> ParentId(path[i]) == path[i - 1].id)
  }

  ghost predicate Descends(root: HashValue, blocks: seq<Block>, b: Block) {
    exists path: seq<Block> :: IsChain(root, blocks, path) && path[|path| - 1] == b
  }

  /** Stored blocks other than the root: unique ids, and parents with a smaller (epoch, round). */
  predicate WellStored(root: HashValue, blocks: seq<Block>) {
    && UniqueIds(blocks)
    && (forall b :: b in blocks ==> b.id != root)
    && (forall b, p :: b in blocks && p in blocks && ParentId(b) == p.id ==> KeyLess(p, b))
  }

  lemma {:induction false} TreeIsKept(root: HashValue, blocks: seq<Block>)
    ensures forall id :: id in Tree(root, blocks) <==> id == root || exists b :: b in Kept(root, blocks) && b.id == id
    ensures forall b :: b in Kept(root, blocks) ==> b in blocks && ParentId(b) in Tree(root, blocks)
  {
    if blocks != [] {
      var n := |blocks| - 1;
      TreeIsKept(root, blocks[..n]);
      assert blocks == blocks[..n] + [blocks[n]];
      if ParentId(blocks[n]) in Tree(root, blocks[..n]) {
        assert blocks[n] in Kept(root, blocks);
      }
    }
  }

  lemma ChildDescends(root: HashValue, blocks: seq<Block>, n: nat, p: Block, b: Block)
    requires n <= |blocks| && Descends(root, blocks[..n], p)
    requires b in blocks && ParentId(b) == p.id
    ensures Descends(root, blocks, b)
  {
    var path :| IsChain(root, blocks[..n], path) && path[|path| - 1] == p;
    assert IsChain(root, blocks, path + [b]);
  }

  /** Every kept block hangs from the root. */
  lemma {:induction false} KeptDescends(root: HashValue, blocks: seq<Block>, b: Block)
    requires b in Kept(root, blocks)
    ensures Descends(root, blocks, b)
  {
    var n := |blocks| - 1;
    assert blocks == blocks[..n] + [blocks[n]];
    if b in Kept(root, blocks[..n]) {
      KeptDescends(root, blocks[..n], b);
      var path :| IsChain(root, blocks[..n], path) && path[|path| - 1] == b;
      assert IsChain(root, blocks, path);
    } else if ParentId(b) == root {
      assert IsChain(root, blocks, [b]);
    } else {
      TreeIsKept(root, blocks[..n]);
      var p :| p in Kept(root, blocks[..n]) && p.id == ParentId(b);
      KeptDescends(root, blocks[..n], p);
      ChildDescends(root, blocks, n, p, b);
    }
  }

  /** In sorted order a block comes after its stored parent, so the parent's fate is known by then. */
  lemma {:induction false} ChildOfTreeIsKept(root: HashValue, blocks: seq<Block>, n: nat, b: Block)
    requires WellStored(root, blocks) && Ordered(blocks) && n <= |blocks|
    requires b in blocks[..n] && ParentId(b) in Tree(root, blocks)
    ensures b in Kept(root, blocks[..n])
  {
    var last := n - 1;
    assert blocks[..n][..last] == blocks[..last];
    if b in blocks[..last] {
      ChildOfTreeIsKept(root, blocks, last, b);
    } else {
      assert b == blocks[last];
      ParentAlreadyInTree(root, blocks, last);
    }
  }

  lemma ParentAlreadyInTree(root: HashValue, blocks: seq<Block>, i: nat)
    requires WellStored(root, blocks) && Ordered(blocks) && i < |blocks| && ParentId(blocks[i]) in Tree(root, blocks)
    ensures ParentId(blocks[i]) in Tree(root, blocks[..i])
  {
    TreePrefix(root, blocks, |blocks|);
    if ParentId(blocks[i]) != root {
      TreeIsKept(root, blocks);
      var p :| p in Kept(root, blocks) && p.id == ParentId(blocks[i]);
      var j :| 0 <= j < |blocks| && blocks[j] == p;
      assert j < i;
      TreeGrowsOnlyByOwnIds(root, blocks, i, p.id);
    } else {
      TreeIsKept(root, blocks[..i]);
    }
  }

  lemma TreePrefix(root: HashValue, blocks: seq<Block>, n: nat)
    requires n <= |blocks|
    ensures root in Tree(root, blocks[..n])
  {
    TreeIsKept(root, blocks[..n]);
  }

  /** Past position `i`, only ids of blocks at or after `i` enter the tree. */
  lemma {:induction false} TreeGrowsOnlyByOwnIds(root: HashValue, blocks: seq<Block>, i: nat, id: HashValue)
    requires i <= |blocks| && id in Tree(root, blocks)
    requires forall k :: i <= k < |blocks| ==> blocks[k].id != id
    ensures id in Tree(root, blocks[..i])
    decreases |blocks|
  {
    if i == |blocks| {
      assert blocks[..i] == blocks;
    } else {
      var n := |blocks| - 1;
      assert blocks[..n][..i] == blocks[..i];
      TreeGrowsOnlyByOwnIds(root, blocks[..n], i, id);
    }
  }

  /** Every block that hangs from the root is kept. */
  lemma {:induction false} DescendantIsKept(root: HashValue, blocks: seq<Block>, path: seq<Block>)
    requires WellStored(root, blocks) && Ordered(blocks) && IsChain(root, blocks, path)
    ensures path[|path| - 1] in Kept(root, blocks)
    decreases |path|
  {
    var n := |path| - 1;
    TreeIsKept(root, blocks);
    if n > 0 {
      assert IsChain(root, blocks, path[..n]);
      DescendantIsKept(root, blocks, path[..n]);
    }
    assert ParentId(path[n]) in Tree(root, blocks);
    assert blocks[..|blocks|] == blocks;
    ChildOfTreeIsKept(root, blocks, |blocks|, path[n]);
  }

  /** The single pass keeps exactly the stored descendants of the root. */
  lemma KeptIffDescends(root: HashValue, blocks: seq<Block>, b: Block)
    requires WellStored(root, blocks) && Ordered(blocks)
    ensures b in Kept(root, blocks) <==> Descends(root, blocks, b)
  {
    if b in Kept(root, blocks) {
      KeptDescends(root, blocks, b);
    } else if Descends(root, blocks, b) {
      var path :| IsChain(root, blocks, path) && path[|path| - 1] == b;
      DescendantIsKept(root, blocks, path);
    }
  }

  /** Each kept block comes after its parent. */
  lemma {:induction false} ParentsComeFirst(root: HashValue, blocks: seq<Block>, i: nat)
    requires i < |Kept(root, blocks)|
    ensures var kept := Kept(root, blocks);
      ParentId(kept[i]) == root || exists j :: 0 <= j < i && kept[j].id == ParentId(kept[i])
  {
    var n := |blocks| - 1;
    var before := Kept(root, blocks[..n]);
    assert before <= Kept(root, blocks);
    if i < |before| {
      ParentsComeFirst(root, blocks[..n], i);
    } else {
      TreeIsKept(root, blocks[..n]);
      if ParentId(blocks[n]) != root {
        var p :| p in before && p.id == ParentId(blocks[n]);
        var j :| 0 <= j < |before| && before[j] == p;
      }
    }
  }

  lemma {:induction false} DroppedIdsAre(root: HashValue, blocks: seq<Block>, id: HashValue)
    requires UniqueIds(blocks)
    ensures id in DroppedIds(root, blocks) <==> exists b :: b in blocks && b !in Kept(root, blocks) && b.id == id
  {
    if blocks != [] {
      var n := |blocks| - 1;
      var last := blocks[n];
      DroppedIdsAre(root, blocks[..n], id);
      TreeIsKept(root, blocks[..n]);
      assert blocks == blocks[..n] + [last];
      assert last !in blocks[..n];
      assert forall b :: b in blocks[..n] ==> (b in Kept(root, blocks) <==> b in Kept(root, blocks[..n]));
    }
  }

  // Finding the root

  datatype RecoveryError = RootNotFound | NoQuorumCert | NoLedgerInfo | InconsistentCommit | EpochOverflow

  datatype RootInfo = RootInfo(block: Block, quorumCert: QuorumCert, orderedCert: QuorumCert, commitCert: QuorumCert)

  /** What consensus keeps on disk. */
  datatype Store = Store(
    blocks: seq<Block>,
    quorumCerts: seq<QuorumCert>,
    lastVote: Option<Vote>,
    highestTc: Option<TimeoutCert>)

  datatype Recovered = Recovered(
    root: RootInfo,
    blocks: seq<Block>,
    quorumCerts: seq<QuorumCert>,
    toRemove: set<HashValue>,
    lastVote: Option<Vote>,
    highestTc: Option<TimeoutCert>)

  /** Genesis of the epoch after `li`: built by every node from the ledger info alone. */
  function GenesisBlock(li: LedgerInfo): Block {
    var ancestor := li.commitInfo.(round := 0, id := Raw(0), nextEpochState := None);
    Block(li.commitInfo.epoch + 1, 0, GenesisBlockHash(li), li.commitInfo.timestamp,
          QuorumCert(VoteData(ancestor, ancestor),
                     LedgerInfoWithSignatures(LedgerInfo(ancestor, Raw(0)), AggregateSignature(BitVec([]), None))))
  }

  function GenesisQc(li: LedgerInfo): QuorumCert
    requires li.EndsEpoch()
  {
    var info := GenesisInfo(li);
    var voteData := VoteData(info, info);
    var size := |li.commitInfo.nextEpochState.value.verifier.infos|;
    QuorumCert(voteData, LedgerInfoWithSignatures(LedgerInfo(info, VoteDataHash(voteData)),
                                                  AggregateSignature(WithNumBits(size % U16_MODULUS), None)))
  }

  function RootId(committed: LedgerInfoWithSignatures): HashValue {
    var li := committed.ledgerInfo;
    if li.EndsEpoch() then GenesisBlock(li).id else li.commitInfo.id
  }

  function RootLedgerInfo(committed: LedgerInfoWithSignatures): LedgerInfoWithSignatures {
    var li := committed.ledgerInfo;
    if li.EndsEpoch() then GenesisQc(li).signedLedgerInfo else committed
  }

  /** Stored blocks, and the virtual genesis when the committed ledger info ends an epoch. */
  function Blocks(committed: LedgerInfoWithSignatures, stored: seq<Block>): seq<Block> {
    var li := committed.ledgerInfo;
    if li.EndsEpoch() then stored + [GenesisBlock(li)] else stored
  }

  function QuorumCerts(committed: LedgerInfoWithSignatures, stored: seq<QuorumCert>): seq<QuorumCert> {
    var li := committed.ledgerInfo;
    if li.EndsEpoch() then stored + [GenesisQc(li)] else stored
  }

  function Position(s: seq<Block>, id: HashValue): (r: Option<nat>)
    ensures r.Some? ==> r.value < |s| && s[r.value].id == id
    ensures r.None? ==> forall b :: b in s ==> b.id != id
  {
    if s == [] then None
    else
      var n := |s| - 1;
      var before := Position(s[..n], id);
      assert s == s[..n] + [s[n]];
      if before.Some? then before else if s[n].id == id then Some(n) else None
  }

  function Certifying(id: HashValue): QuorumCert -> bool {
    (qc: QuorumCert) => qc.Certified().id == id
  }

  function Committing(id: HashValue): QuorumCert -> bool {
    (qc: QuorumCert) => qc.CommitInfo().id == id
  }

  /** `find_root`: the root, and the other blocks in key order. */
  function FindRoot(committed: LedgerInfoWithSignatures, store: Store): Result<(RootInfo, seq<Block>), RecoveryError> {
    var id := RootId(committed);
    var sorted := SortByKey(Blocks(committed, store.blocks));
    var qcs := QuorumCerts(committed, store.quorumCerts);
    var at, qc, ordered := Position(sorted, id), Find(qcs, Certifying(id)), Find(qcs, Committing(id));
    var latest := RootLedgerInfo(committed);
    if committed.ledgerInfo.EndsEpoch() && committed.ledgerInfo.commitInfo.epoch >= U64_MAX then Err(EpochOverflow)
    else if at.None? then Err(RootNotFound)
    else if qc.None? then Err(NoQuorumCert)
    else if ordered.None? then Err(NoLedgerInfo)
    else if !MatchOrderedOnly(ordered.value.CommitInfo(), latest.ledgerInfo.commitInfo) then Err(InconsistentCommit)
    else Ok((RootInfo(sorted[at.value], qc.value, ordered.value, QuorumCert(ordered.value.voteData, latest)),
             sorted[..at.value] + sorted[at.value + 1..]))
  }

  function Recover(committed: LedgerInfoWithSignatures, store: Store): Result<Recovered, RecoveryError> {
    var found := FindRoot(committed, store);
    if found.Err? then Err(found.error)
    else
      var (root, rest) := found.value;
      var qcs := QuorumCerts(committed, store.quorumCerts);
      var id, epoch := root.block.id, root.block.epoch;
      Ok(Recovered(root, Kept(id, rest), Filter(qcs, CertifiesIn(Tree(id, rest))), ToRemove(id, rest, qcs),
                   if store.lastVote.Some? && store.lastVote.value.Epoch() == epoch then store.lastVote else None,
                   if store.highestTc.Some? && store.highestTc.value.timeout.epoch == epoch then store.highestTc
                   else None))
  }

  /** `RecoveryData::new`. */
  method NewRecoveryData(committed: LedgerInfoWithSignatures, store: Store)
    returns (r: Result<Recovered, RecoveryError>)
    ensures r == Recover(committed, store)
  {
    var found := FindRoot(committed, store);
    if found.Err? {
      return Err(found.error);
    }
    var (root, rest) := found.value;
    var kept, keptQcs, toRemove :=
      FindBlocksToPrune(root.block.id, rest, QuorumCerts(committed, store.quorumCerts));
    var lastVote, highestTc := store.lastVote, store.highestTc;
    if lastVote.Some? && lastVote.value.Epoch() != root.block.epoch {
      lastVote := None;
    }
    if highestTc.Some? && highestTc.value.timeout.epoch != root.block.epoch {
      highestTc := None;
    }
    return Ok(Recovered(root, kept, keptQcs, toRemove, lastVote, highestTc));
  }

  // Meaning of the recovered data

  /** Blocks are stored under their id, certificates under the id they certify; a parent has the smaller key. */
  predicate Causal(blocks: seq<Block>) {
    forall b, p :: b in blocks && p in blocks && ParentId(b) == p.id ==> KeyLess(p, b)
  }

  predicate SoundStore(committed: LedgerInfoWithSignatures, store: Store) {
    && UniqueIds(Blocks(committed, store.blocks))
    && Causal(Blocks(committed, store.blocks))
    && UniqueCertified(QuorumCerts(committed, store.quorumCerts))
  }

  predicate UniqueCertified(qcs: seq<QuorumCert>) {
    forall p, q :: p in qcs && q in qcs && p.Certified().id == q.Certified().id ==> p == q
  }

  lemma {:induction false} FindMeans<T>(s: seq<T>, matches: T -> bool)
    ensures var r := Find(s, matches);
      if r.Some? then r.value in s && matches(r.value) else forall x :: x in s ==> !matches(x)
  {
    if s != [] {
      var n := |s| - 1;
      FindMeans(s[..n], matches);
      assert s == s[..n] + [s[n]];
    }
  }

  lemma {:induction false} UniqueIdsOfPermutation(s: seq<Block>, t: seq<Block>)
    requires UniqueIds(s) && multiset(s) == multiset(t)
    ensures UniqueIds(t)
  {
    forall i, j | 0 <= i < j < |t| ensures t[i].id != t[j].id {
      assert t[i] in multiset(t) && t[j] in multiset(t);
      var a :| 0 <= a < |s| && s[a] == t[i];
      var b :| 0 <= b < |s| && s[b] == t[j];
      if a == b {
        TwiceMeansTwo(t, i, j);
        OnceMeansOne(s, a);
      }
    }
  }

  lemma TwiceMeansTwo<T>(t: seq<T>, i: nat, j: nat)
    requires i < j < |t| && t[i] == t[j]
    ensures multiset(t)[t[i]] >= 2
  {
    assert t == t[..j] + [t[j]] + t[j + 1..];
    assert t[i] in t[..j];
    assert t[i] in multiset(t[..j]);
  }

  lemma OnceMeansOne(s: seq<Block>, a: nat)
    requires a < |s| && UniqueIds(s)
    ensures multiset(s)[s[a]] == 1
  {
    assert s == s[..a] + [s[a]] + s[a + 1..];
    assert s[a] !in s[..a] && s[a] !in s[a + 1..];
  }

  /** A chain that starts below the root never comes back to it. */
  lemma {:induction false} ChainStaysAboveRoot(root: Block, blocks: seq<Block>, path: seq<Block>, i: nat)
    requires Causal(blocks) && root in blocks && IsChain(root.id, blocks, path) && i < |path|
    ensures KeyLess(root, path[i])
  {
    if i == 0 {
      assert path[0] in blocks;
    } else {
      ChainStaysAboveRoot(root, blocks, path, i - 1);
      assert path[i] in blocks && path[i - 1] in blocks;
    }
  }

  lemma DescendsWithoutRoot(root: Block, blocks: seq<Block>, rest: seq<Block>, b: Block)
    requires Causal(blocks) && root in blocks
    requires forall x :: x in rest <==> x in blocks && x != root
    ensures Descends(root.id, rest, b) <==> Descends(root.id, blocks, b)
  {
    if Descends(root.id, blocks, b) {
      var path :| IsChain(root.id, blocks, path) && path[|path| - 1] == b;
      forall i | 0 <= i < |path| ensures path[i] in rest {
        ChainStaysAboveRoot(root, blocks, path, i);
      }
      assert IsChain(root.id, rest, path);
    } else if Descends(root.id, rest, b) {
      var path :| IsChain(root.id, rest, path) && path[|path| - 1] == b;
      assert IsChain(root.id, blocks, path);
    }
  }

  /** `find_root` splits the blocks into the root and the others, in key order. */
  lemma RootAndRest(committed: LedgerInfoWithSignatures, store: Store)
    requires SoundStore(committed, store) && FindRoot(committed, store).Ok?
    ensures var (root, rest) := FindRoot(committed, store).value;
      var all := Blocks(committed, store.blocks);
      && root.block in all && root.block.id == RootId(committed)
      && WellStored(root.block.id, rest) && Ordered(rest)
      && forall b :: b in rest <==> b in all && b != root.block
  {
    hide MatchOrderedOnly, GenesisBlock, GenesisQc, Find, SortByKey;
    var all := Blocks(committed, store.blocks);
    var sorted := SortByKey(all);
    SortOrdered(all);
    UniqueIdsOfPermutation(all, sorted);
    var at := Position(sorted, RootId(committed)).value;
    Removed(sorted, all, at);
  }

  lemma Removed(sorted: seq<Block>, all: seq<Block>, at: nat)
    requires UniqueIds(sorted) && Ordered(sorted) && Causal(all) && multiset(sorted) == multiset(all) && at < |sorted|
    ensures sorted[at] in all
    ensures var rest := sorted[..at] + sorted[at + 1..];
      && WellStored(sorted[at].id, rest) && Ordered(rest)
      && forall b :: b in rest <==> b in all && b != sorted[at]
  {
    RemovedKeepsOrder(sorted, at);
    RemovedMembers(sorted, at);
    hide Ordered, UniqueIds;
    forall b ensures b in sorted <==> b in all {
      assert b in sorted <==> b in multiset(sorted);
      assert b in all <==> b in multiset(all);
    }
  }

  lemma RemovedKeepsOrder(sorted: seq<Block>, at: nat)
    requires UniqueIds(sorted) && Ordered(sorted) && at < |sorted|
    ensures UniqueIds(sorted[..at] + sorted[at + 1..]) && Ordered(sorted[..at] + sorted[at + 1..])
  {
    hide KeyLess;
    var rest := sorted[..at] + sorted[at + 1..];
    assert forall i :: 0 <= i < |rest| ==> rest[i] == if i < at then sorted[i] else sorted[i + 1];
  }

  lemma RemovedMembers(sorted: seq<Block>, at: nat)
    requires UniqueIds(sorted) && at < |sorted|
    ensures forall b :: b in sorted[..at] + sorted[at + 1..] <==> b in sorted && b != sorted[at]
    ensures forall b :: b in sorted[..at] + sorted[at + 1..] ==> b.id != sorted[at].id
  {
    assert sorted == sorted[..at] + [sorted[at]] + sorted[at + 1..];
  }

  ghost predicate InTree(r: Recovered, id: HashValue) {
    id == r.root.block.id || exists b :: b in r.blocks && b.id == id
  }

  /** What recovery means, without reference to any order. */
  ghost predicate Means(committed: LedgerInfoWithSignatures, store: Store, r: Recovered) {
    var all, qcs := Blocks(committed, store.blocks), QuorumCerts(committed, store.quorumCerts);
    && r.root.block in all && r.root.block.id == RootId(committed)
    && r.root.quorumCert in qcs && r.root.quorumCert.Certified().id == r.root.block.id
    && r.root.orderedCert in qcs && r.root.orderedCert.CommitInfo().id == r.root.block.id
    && (forall b :: b in r.blocks <==> b in all && Descends(r.root.block.id, all, b))
    && (forall qc :: qc in r.quorumCerts <==> qc in qcs && InTree(r, qc.Certified().id))
    && (forall id :: id in r.toRemove <==>
          (|| (exists b :: b in all && b != r.root.block && b !in r.blocks && b.id == id)
           || (exists qc :: qc in qcs && qc !in r.quorumCerts && qc.Certified().id == id)))
  }

  lemma KeptMeans(root: Block, all: seq<Block>, rest: seq<Block>)
    requires WellStored(root.id, rest) && Ordered(rest) && Causal(all) && root in all
    requires forall b :: b in rest <==> b in all && b != root
    ensures forall b :: b in Kept(root.id, rest) <==> b in all && Descends(root.id, all, b)
  {
    forall b ensures b in Kept(root.id, rest) <==> b in all && Descends(root.id, all, b) {
      KeptIffDescends(root.id, rest, b);
      DescendsWithoutRoot(root, all, rest, b);
      TreeIsKept(root.id, rest);
      if Descends(root.id, rest, b) {
        var path :| IsChain(root.id, rest, path) && path[|path| - 1] == b;
        assert b in rest;
      }
    }
  }

  lemma CertsMean(root: HashValue, rest: seq<Block>, qcs: seq<QuorumCert>, qc: QuorumCert)
    ensures qc in Filter(qcs, CertifiesIn(Tree(root, rest)))
       <==> qc in qcs && (qc.Certified().id == root || exists b :: b in Kept(root, rest) && b.id == qc.Certified().id)
  {
    FilterMembers(qcs, CertifiesIn(Tree(root, rest)), qc);
    TreeIsKept(root, rest);
  }

  lemma RemovalMeans(root: HashValue, rest: seq<Block>, qcs: seq<QuorumCert>, id: HashValue)
    requires UniqueIds(rest)
    ensures id in ToRemove(root, rest, qcs)
       <==> || (exists b :: b in rest && b !in Kept(root, rest) && b.id == id)
            || (exists qc :: qc in qcs && qc !in Filter(qcs, CertifiesIn(Tree(root, rest))) && qc.Certified().id == id)
  {
    hide Kept, Tree, DroppedIds;
    DroppedIdsAre(root, rest, id);
    var tree := Tree(root, rest);
    if qc :| qc in qcs && qc !in Filter(qcs, CertifiesIn(tree)) && qc.Certified().id == id {
      FilterMembers(qcs, CertifiesIn(tree), qc);
      var k :| 0 <= k < |qcs| && qcs[k] == qc;
      assert qcs[k].Certified().id !in tree;
    }
    if id in UncertifiedIds(tree, qcs) {
      var k :| 0 <= k < |qcs| && qcs[k].Certified().id !in tree && qcs[k].Certified().id == id;
      FilterMembers(qcs, CertifiesIn(tree), qcs[k]);
    }
  }

  /** The epoch to recover into: that of the committed block, or the next one after the end of an epoch. */
  function RootEpoch(committed: LedgerInfoWithSignatures): Epoch {
    var li := committed.ledgerInfo;
    if li.EndsEpoch() then li.commitInfo.epoch + 1 else li.commitInfo.epoch
  }

  /** The committed id is that of a block of the committed epoch. */
  predicate RootIdBinds(committed: LedgerInfoWithSignatures, stored: seq<Block>) {
    forall b :: b in stored && b.id == committed.ledgerInfo.commitInfo.id ==> b.epoch == RootEpoch(committed)
  }

  /** The last vote and the timeout certificate are taken up exactly if they are of the epoch to recover into;
      the root is committed by the committed ledger info on the votes that ordered it. */
  ghost predicate CarriesOver(committed: LedgerInfoWithSignatures, store: Store, r: Recovered) {
    && (forall vote :: r.lastVote == Some(vote) <==>
          store.lastVote == Some(vote) && vote.Epoch() == r.root.block.epoch)
    && (forall tc :: r.highestTc == Some(tc) <==>
          store.highestTc == Some(tc) && tc.timeout.epoch == r.root.block.epoch)
    && (committed.ledgerInfo.EndsEpoch() || RootIdBinds(committed, store.blocks) ==>
          r.root.block.epoch == RootEpoch(committed))
    && r.root.commitCert.voteData == r.root.orderedCert.voteData
    && r.root.commitCert.signedLedgerInfo == RootLedgerInfo(committed)
    && MatchOrderedOnly(r.root.orderedCert.CommitInfo(), r.root.commitCert.CommitInfo())
  }

  lemma RecoverCarriesOver(committed: LedgerInfoWithSignatures, store: Store)
    requires SoundStore(committed, store) && Recover(committed, store).Ok?
    ensures CarriesOver(committed, store, Recover(committed, store).value)
  {
    hide Kept, Tree, ToRemove, Filter, Find, CertifiesIn, Position, SortByKey, MatchOrderedOnly, GenesisQc,
         Causal, WellStored, Ordered;
    var li, all := committed.ledgerInfo, Blocks(committed, store.blocks);
    RootAndRest(committed, store);
    if li.EndsEpoch() {
      assert GenesisBlock(li) in all;
      SameId(all, GenesisBlock(li), FindRoot(committed, store).value.0.block);
    }
  }

  /** Recovery succeeds exactly if the committed block is stored, with a certificate for it and one that
      commits it, and nothing else can go wrong than the end of the last epoch. */
  lemma RecoverSucceedsIff(committed: LedgerInfoWithSignatures, store: Store)
    requires SoundStore(committed, store)
    requires CommitIdBinds(QuorumCerts(committed, store.quorumCerts), RootId(committed))
    ensures var li, id := committed.ledgerInfo, RootId(committed);
      var all, qcs := Blocks(committed, store.blocks), QuorumCerts(committed, store.quorumCerts);
      Recover(committed, store).Ok?
      <==> && (li.EndsEpoch() ==> li.commitInfo.epoch < U64_MAX)
           && (exists b :: b in all && b.id == id)
           && (exists qc :: qc in qcs && qc.Certified().id == id)
           && (exists qc :: qc in qcs && qc.CommitInfo().id == id
                            && MatchOrderedOnly(qc.CommitInfo(), RootLedgerInfo(committed).ledgerInfo.commitInfo))
  {
    hide Kept, Tree, ToRemove, Filter, Find, CertifiesIn, GenesisBlock, GenesisQc, Causal, SortByKey;
    var all, qcs := Blocks(committed, store.blocks), QuorumCerts(committed, store.quorumCerts);
    CertsFound(qcs, RootId(committed));
    SortOrdered(all);
    assert forall b :: b in all <==> b in SortByKey(all) by { SameMembers(all, SortByKey(all)); }
  }

  lemma SameMembers<T>(s: seq<T>, t: seq<T>)
    requires multiset(s) == multiset(t)
    ensures forall x :: x in s <==> x in t
  {
    assert forall x :: x in s <==> x in multiset(s);
    assert forall x :: x in t <==> x in multiset(t);
  }

  /** At the end of an epoch recovery always succeeds, on the virtual genesis of the next one. */
  lemma EpochEndRecovers(committed: LedgerInfoWithSignatures, store: Store)
    requires SoundStore(committed, store) && committed.ledgerInfo.EndsEpoch()
    requires CommitIdBinds(QuorumCerts(committed, store.quorumCerts), RootId(committed))
    requires committed.ledgerInfo.commitInfo.epoch < U64_MAX
    ensures Recover(committed, store).Ok?
    ensures Recover(committed, store).value.root.block == GenesisBlock(committed.ledgerInfo)
  {
    hide Recover, SoundStore, UniqueIds;
    var li := committed.ledgerInfo;
    assert GenesisBlock(li) in Blocks(committed, store.blocks);
    assert GenesisQc(li) in QuorumCerts(committed, store.quorumCerts);
    RecoverSucceedsIff(committed, store);
    RecoverMeans(committed, store);
    SoundIsUnique(committed, store);
    SameId(Blocks(committed, store.blocks), GenesisBlock(li), Recover(committed, store).value.root.block);
  }

  lemma SoundIsUnique(committed: LedgerInfoWithSignatures, store: Store)
    requires SoundStore(committed, store)
    ensures UniqueIds(Blocks(committed, store.blocks))
  {
  }

  /** Recovery keeps exactly the stored descendants of the root and their certificates, deletes exactly
      the rest, and lists every block after its parent. */
  lemma RecoverMeans(committed: LedgerInfoWithSignatures, store: Store)
    requires SoundStore(committed, store) && Recover(committed, store).Ok?
    ensures Means(committed, store, Recover(committed, store).value)
    ensures var r := Recover(committed, store).value;
      forall i :: 0 <= i < |r.blocks| ==>
        (ParentId(r.blocks[i]) == r.root.block.id
         || exists j :: 0 <= j < i && r.blocks[j].id == ParentId(r.blocks[i]))
  {
    hide Kept, Tree, ToRemove, Filter, Find, Descends, CertifiesIn, Position, SortByKey, MatchOrderedOnly, GenesisBlock,
      GenesisQc, Causal, WellStored, Ordered;
    var r := Recover(committed, store).value;
    var all, qcs := Blocks(committed, store.blocks), QuorumCerts(committed, store.quorumCerts);
    var (root, rest) := FindRoot(committed, store).value;
    var id := RootId(committed);
    RootAndRest(committed, store);
    KeptMeans(root.block, all, rest);
    CertsFound(qcs, id);
    forall qc ensures qc in r.quorumCerts <==> qc in qcs && InTree(r, qc.Certified().id) {
      CertsMean(id, rest, qcs, qc);
    }
    forall x
      ensures x in r.toRemove
         <==> || (exists b :: b in all && b != r.root.block && b !in r.blocks && b.id == x)
              || (exists qc :: qc in qcs && qc !in r.quorumCerts && qc.Certified().id == x)
    {
      assert UniqueIds(rest) by { assert WellStored(id, rest); RestIsUnique(id, rest); }
      RemovalMeans(id, rest, qcs, x);
    }
    forall i | 0 <= i < |r.blocks|
      ensures ParentId(r.blocks[i]) == r.root.block.id
           || exists j :: 0 <= j < i && r.blocks[j].id == ParentId(r.blocks[i])
    {
      ParentsComeFirst(id, rest, i);
    }
  }

  lemma RestIsUnique(root: HashValue, rest: seq<Block>)
    requires WellStored(root, rest)
    ensures UniqueIds(rest)
  {
  }

  lemma CertsFound(qcs: seq<QuorumCert>, id: HashValue)
    ensures var qc := Find(qcs, Certifying(id));
      if qc.Some? then qc.value in qcs && qc.value.Certified().id == id
      else forall q :: q in qcs ==> q.Certified().id != id
    ensures var qc := Find(qcs, Committing(id));
      if qc.Some? then qc.value in qcs && qc.value.CommitInfo().id == id
      else forall q :: q in qcs ==> q.CommitInfo().id != id
  {
    FindMeans(qcs, Certifying(id));
    FindMeans(qcs, Committing(id));
    if Find(qcs, Certifying(id)).None? {
      assert forall q :: q in qcs ==> !Certifying(id)(q);
    }
    if Find(qcs, Committing(id)).None? {
      assert forall q :: q in qcs ==> !Committing(id)(q);
    }
  }

  // Recovering again

  /** The root's id determines those fields of its commit info that execution does not change. */
  predicate CommitIdBinds(qcs: seq<QuorumCert>, id: HashValue) {
    forall p, q :: p in qcs && q in qcs && p.CommitInfo().id == id == q.CommitInfo().id ==>
      (&& p.CommitInfo().epoch == q.CommitInfo().epoch
       && p.CommitInfo().round == q.CommitInfo().round
       && p.CommitInfo().timestamp == q.CommitInfo().timestamp)
  }

  /** `other` holds, in any order, everything recovery keeps of `store`, and nothing that is not in `store`. */
  predicate Between(committed: LedgerInfoWithSignatures, store: Store, r: Recovered, other: Store) {
    var all, qcs := Blocks(committed, store.blocks), QuorumCerts(committed, store.quorumCerts);
    var all', qcs' := Blocks(committed, other.blocks), QuorumCerts(committed, other.quorumCerts);
    && r.root.block in all'
    && (forall b :: b in r.blocks ==> b in all')
    && (forall b :: b in all' ==> b in all)
    && (forall qc :: qc in r.quorumCerts ==> qc in qcs')
    && (forall qc :: qc in qcs' ==> qc in qcs)
  }

  predicate SomeCommits(qcs: seq<QuorumCert>, id: HashValue) {
    exists qc :: qc in qcs && qc.CommitInfo().id == id
  }

  ghost predicate SameRecovery(r: Recovered, r': Recovered) {
    && r'.root.block == r.root.block
    && r'.root.quorumCert == r.root.quorumCert
    && (forall b :: b in r'.blocks <==> b in r.blocks)
    && (forall qc :: qc in r'.quorumCerts <==> qc in r.quorumCerts)
  }

  lemma FoundBetween(committed: LedgerInfoWithSignatures, store: Store, other: Store)
    requires SoundStore(committed, store) && Recover(committed, store).Ok?
    requires CommitIdBinds(QuorumCerts(committed, store.quorumCerts), RootId(committed))
    requires Between(committed, store, Recover(committed, store).value, other)
    ensures Recover(committed, other).Ok?
       <==> SomeCommits(QuorumCerts(committed, other.quorumCerts), RootId(committed))
    ensures Recover(committed, other).Ok? || Recover(committed, other) == Err(NoLedgerInfo)
  {
    hide Kept, Tree, ToRemove, Filter, Find, Descends, CertifiesIn, SortByKey, GenesisBlock, GenesisQc, SoundStore;
    var r := Recover(committed, store).value;
    var id := RootId(committed);
    var all', qcs' := Blocks(committed, other.blocks), QuorumCerts(committed, other.quorumCerts);
    RecoverMeans(committed, store);
    assert r.root.block.id == id;
    SortOrdered(all');
    assert r.root.block in multiset(all');
    assert r.root.block in SortByKey(all');
    assert InTree(r, r.root.quorumCert.Certified().id);
    CertsFound(QuorumCerts(committed, store.quorumCerts), id);
    CertsFound(qcs', id);
  }

  lemma DescendsBetween(root: HashValue, all: seq<Block>, all': seq<Block>, b: Block)
    requires forall x :: x in all' ==> x in all
    requires forall x :: x in all && Descends(root, all, x) ==> x in all'
    ensures Descends(root, all', b) <==> Descends(root, all, b)
  {
    if Descends(root, all, b) {
      var path :| IsChain(root, all, path) && path[|path| - 1] == b;
      forall i | 0 <= i < |path| ensures path[i] in all' {
        assert IsChain(root, all, path[..i + 1]) && path[..i + 1][i] == path[i];
        assert path[i] in all;
      }
      assert IsChain(root, all', path);
    } else if Descends(root, all', b) {
      var path :| IsChain(root, all', path) && path[|path| - 1] == b;
      assert IsChain(root, all, path);
    }
  }

  /** Recovery from any store between the kept data and the original one, in any order, restores the
      same tree; it succeeds exactly when some certificate in it commits the root. */
  lemma RecoverBetween(committed: LedgerInfoWithSignatures, store: Store, other: Store)
    requires SoundStore(committed, store) && SoundStore(committed, other) && Recover(committed, store).Ok?
    requires CommitIdBinds(QuorumCerts(committed, store.quorumCerts), RootId(committed))
    requires Between(committed, store, Recover(committed, store).value, other)
    ensures Recover(committed, other).Ok?
       <==> SomeCommits(QuorumCerts(committed, other.quorumCerts), RootId(committed))
    ensures Recover(committed, other).Ok? || Recover(committed, other) == Err(NoLedgerInfo)
    ensures Recover(committed, other).Ok? ==>
      SameRecovery(Recover(committed, store).value, Recover(committed, other).value)
  {
    hide Recover, RootId;
    FoundBetween(committed, store, other);
    if Recover(committed, other).Ok? {
      RecoverMeans(committed, store);
      RecoverMeans(committed, other);
      MeansTheSame(committed, store, Recover(committed, store).value, other, Recover(committed, other).value);
    }
  }

  lemma MeansTheSame(committed: LedgerInfoWithSignatures, store: Store, r: Recovered, other: Store, r': Recovered)
    requires SoundStore(committed, store)
    requires Means(committed, store, r) && Means(committed, other, r') && Between(committed, store, r, other)
    ensures SameRecovery(r, r')
  {
    hide RootId, GenesisBlock, GenesisQc, Descends, Causal;
    var all, all' := Blocks(committed, store.blocks), Blocks(committed, other.blocks);
    assert r'.root.block in all && r'.root.block.id == r.root.block.id;
    SameId(all, r.root.block, r'.root.block);
    forall b ensures b in r'.blocks <==> b in r.blocks {
      DescendsBetween(r.root.block.id, all, all', b);
    }
  }

  lemma SameId(all: seq<Block>, a: Block, b: Block)
    requires UniqueIds(all) && a in all && b in all && a.id == b.id
    ensures a == b
  {
  }

  /** The order in which the store hands out its contents does not matter. */
  lemma OrderDoesNotMatter(committed: LedgerInfoWithSignatures, store: Store, other: Store)
    requires SoundStore(committed, store) && SoundStore(committed, other) && Recover(committed, store).Ok?
    requires CommitIdBinds(QuorumCerts(committed, store.quorumCerts), RootId(committed))
    requires forall b :: b in store.blocks <==> b in other.blocks
    requires forall qc :: qc in store.quorumCerts <==> qc in other.quorumCerts
    ensures Recover(committed, other).Ok?
    ensures var r, r' := Recover(committed, store).value, Recover(committed, other).value;
      SameRecovery(r, r') && r'.toRemove == r.toRemove
  {
    hide Recover, RootId, SoundStore, GenesisBlock, GenesisQc;
    var r := Recover(committed, store).value;
    RecoverMeans(committed, store);
    RecoverBetween(committed, store, other);
    var r' := Recover(committed, other).value;
    RecoverMeans(committed, other);
    forall id ensures id in r'.toRemove <==> id in r.toRemove {
    }
  }

  lemma BlockSurvives(committed: LedgerInfoWithSignatures, store: Store, r: Recovered, b: Block)
    requires SoundStore(committed, store) && Means(committed, store, r) && b in Blocks(committed, store.blocks)
    ensures b.id !in r.toRemove <==> b == r.root.block || b in r.blocks
  {
    hide Descends, GenesisBlock, GenesisQc, Causal, RootId;
    var all, qcs := Blocks(committed, store.blocks), QuorumCerts(committed, store.quorumCerts);
    if b.id in r.toRemove && InTree(r, b.id) {
      var c :| c in all && c != r.root.block && c !in r.blocks && c.id == b.id;
      SameId(all, c, b);
    }
  }

  lemma CertSurvives(committed: LedgerInfoWithSignatures, store: Store, r: Recovered, qc: QuorumCert)
    requires SoundStore(committed, store) && Means(committed, store, r)
    requires qc in QuorumCerts(committed, store.quorumCerts)
    ensures qc.Certified().id !in r.toRemove <==> qc in r.quorumCerts
  {
    hide Descends, GenesisBlock, GenesisQc, Causal, RootId;
    var all := Blocks(committed, store.blocks);
    var id := qc.Certified().id;
    if id in r.toRemove && InTree(r, id) {
      var c :| c in all && c != r.root.block && c !in r.blocks && c.id == id;
      forall b | b in all && b.id == id ensures b == c {
        SameId(all, b, c);
      }
    }
  }

  lemma GenesisQcCertifiesRoot(li: LedgerInfo)
    requires li.EndsEpoch()
    ensures GenesisQc(li).Certified().id == GenesisBlock(li).id
  {
  }

  lemma VoteAndTcSurvive(committed: LedgerInfoWithSignatures, store: Store, again: Store)
    requires Recover(committed, store).Ok? && Recover(committed, again).Ok?
    requires SameRecovery(Recover(committed, store).value, Recover(committed, again).value)
    requires again.lastVote == Recover(committed, store).value.lastVote
    requires again.highestTc == Recover(committed, store).value.highestTc
    ensures Recover(committed, again).value.lastVote == Recover(committed, store).value.lastVote
    ensures Recover(committed, again).value.highestTc == Recover(committed, store).value.highestTc
  {
    hide FindRoot, Kept, Filter, ToRemove;
  }

  /** Deletion leaves exactly the root, the kept blocks and the kept certificates. */
  lemma SurvivorsAreKept(committed: LedgerInfoWithSignatures, store: Store, r: Recovered, again: Store)
    requires SoundStore(committed, store) && Means(committed, store, r)
    requires forall b :: b in again.blocks <==> b in store.blocks && b.id !in r.toRemove
    requires forall qc :: qc in again.quorumCerts <==> qc in store.quorumCerts && qc.Certified().id !in r.toRemove
    ensures Between(committed, store, r, again)
    ensures forall b :: b in Blocks(committed, again.blocks) <==> b == r.root.block || b in r.blocks
    ensures forall qc :: qc in QuorumCerts(committed, again.quorumCerts) <==> qc in r.quorumCerts
  {
    hide Descends, GenesisBlock, GenesisQc, Causal;
    var li := committed.ledgerInfo;
    var all, qcs := Blocks(committed, store.blocks), QuorumCerts(committed, store.quorumCerts);
    forall b | b in all ensures b.id !in r.toRemove <==> b == r.root.block || b in r.blocks {
      BlockSurvives(committed, store, r, b);
    }
    forall qc | qc in qcs ensures qc.Certified().id !in r.toRemove <==> qc in r.quorumCerts {
      CertSurvives(committed, store, r, qc);
    }
    if li.EndsEpoch() {
      assert GenesisBlock(li) in all && GenesisQc(li) in qcs;
      SameId(all, GenesisBlock(li), r.root.block);
      GenesisQcCertifiesRoot(li);
    }
  }

  /** Some certificate that commits the root certifies the root or a stored descendant of it. */
  ghost predicate CommitterIsRooted(committed: LedgerInfoWithSignatures, store: Store) {
    var id, all := RootId(committed), Blocks(committed, store.blocks);
    exists qc :: qc in QuorumCerts(committed, store.quorumCerts) && qc.CommitInfo().id == id
      && (qc.Certified().id == id || exists b :: b in all && b.id == qc.Certified().id && Descends(id, all, b))
  }

  lemma RootedMeansKept(committed: LedgerInfoWithSignatures, store: Store, r: Recovered)
    requires Means(committed, store, r)
    ensures CommitterIsRooted(committed, store) <==> SomeCommits(r.quorumCerts, RootId(committed))
  {
    hide Descends, GenesisBlock, GenesisQc, RootId;
    var id := RootId(committed);
    if SomeCommits(r.quorumCerts, id) {
      var qc :| qc in r.quorumCerts && qc.CommitInfo().id == id;
      assert InTree(r, qc.Certified().id);
    }
    if CommitterIsRooted(committed, store) {
      var all := Blocks(committed, store.blocks);
      var qc :| qc in QuorumCerts(committed, store.quorumCerts) && qc.CommitInfo().id == id
        && (qc.Certified().id == id || exists b :: b in all && b.id == qc.Certified().id && Descends(id, all, b));
      assert InTree(r, qc.Certified().id);
    }
  }

  /** Recovering, deleting what recovery says, and recovering again in whatever order: nothing more is
      deleted and the tree is the same, exactly when a certificate that commits the root is in the tree. */
  lemma RecoveryIsStable(committed: LedgerInfoWithSignatures, store: Store, again: Store)
    requires SoundStore(committed, store) && SoundStore(committed, again) && Recover(committed, store).Ok?
    requires CommitIdBinds(QuorumCerts(committed, store.quorumCerts), RootId(committed))
    requires var r := Recover(committed, store).value;
      && (forall b :: b in again.blocks <==> b in store.blocks && b.id !in r.toRemove)
      && (forall qc :: qc in again.quorumCerts <==> qc in store.quorumCerts && qc.Certified().id !in r.toRemove)
      && again.lastVote == r.lastVote && again.highestTc == r.highestTc
    ensures Recover(committed, again).Ok? <==> CommitterIsRooted(committed, store)
    ensures Recover(committed, again).Ok? || Recover(committed, again) == Err(NoLedgerInfo)
    ensures Recover(committed, again).Ok? ==>
      var r, r' := Recover(committed, store).value, Recover(committed, again).value;
      && SameRecovery(r, r') && r'.toRemove == {} && r'.lastVote == r.lastVote && r'.highestTc == r.highestTc
  {
    hide Recover, SoundStore, Descends;
    var r := Recover(committed, store).value;
    RecoverMeans(committed, store);
    SurvivorsAreKept(committed, store, r, again);
    RecoverBetween(committed, store, again);
    RootedMeansKept(committed, store, r);
    if Recover(committed, again).Ok? {
      RecoverMeans(committed, again);
      VoteAndTcSurvive(committed, store, again);
    }
  }

  // A store whose only certificate for the root certifies a block that is not stored.

  const NO_SIGNATURE := AggregateSignature(BitVec([]), None)
  const ROOT_INFO := EMPTY_BLOCK_INFO.(round := 1, id := Raw(1))
  const COMMITTED := LedgerInfoWithSignatures(LedgerInfo(ROOT_INFO, Raw(0)), NO_SIGNATURE)
  const GENESIS_LEDGER := LedgerInfoWithSignatures(LedgerInfo(EMPTY_BLOCK_INFO, Raw(0)), NO_SIGNATURE)
  const ROOT := Block(0, 1, Raw(1), 0, QuorumCert(VoteData(EMPTY_BLOCK_INFO, EMPTY_BLOCK_INFO), GENESIS_LEDGER))
  const ROOT_QC := QuorumCert(VoteData(ROOT_INFO, EMPTY_BLOCK_INFO), GENESIS_LEDGER)
  const ORPHAN_QC := QuorumCert(VoteData(EMPTY_BLOCK_INFO.(round := 2, id := Raw(2)), ROOT_INFO), COMMITTED)
  const ORPHANED := Store([ROOT], [ROOT_QC, ORPHAN_QC], None, None)
  const PRUNED := Store([ROOT], [ROOT_QC], None, None)

  lemma OrphanIsDeleted()
    ensures Recover(COMMITTED, ORPHANED).Ok? && Recover(COMMITTED, ORPHANED).value.toRemove == {Raw(2)}
  {
    var qcs := [ROOT_QC, ORPHAN_QC];
    assert SortByKey([ROOT]) == [ROOT];
    assert qcs[..1] == [ROOT_QC];
    assert Find([ROOT_QC], Certifying(Raw(1))) == Some(ROOT_QC) && Find([ROOT_QC], Committing(Raw(1))) == None;
    assert Find(qcs, Certifying(Raw(1))) == Some(ROOT_QC) && Find(qcs, Committing(Raw(1))) == Some(ORPHAN_QC);
    hide Find, Filter, SortByKey;
    assert FindRoot(COMMITTED, ORPHANED).value.1 == [];
    assert qcs[1].Certified().id !in Tree(Raw(1), []);
    assert UncertifiedIds(Tree(Raw(1), []), qcs) == {Raw(2)};
  }

  lemma PrunedHasNoLedgerInfo()
    ensures Recover(COMMITTED, PRUNED) == Err(NoLedgerInfo)
  {
    assert SortByKey([ROOT]) == [ROOT];
    assert Find([ROOT_QC], Certifying(Raw(1))) == Some(ROOT_QC);
    assert Find([ROOT_QC], Committing(Raw(1))) == None;
  }

  /** Without that condition the first recovery succeeds and the second fails. */
  lemma FirstRecoveryCanBeTheLast()
    ensures exists committed, store, again ::
      && SoundStore(committed, store) && SoundStore(committed, again) && Recover(committed, store).Ok?
      && CommitIdBinds(QuorumCerts(committed, store.quorumCerts), RootId(committed))
      && again.blocks == store.blocks
      && (forall qc :: qc in again.quorumCerts <==>
            qc in store.quorumCerts && qc.Certified().id !in Recover(committed, store).value.toRemove)
      && Recover(committed, again) == Err(NoLedgerInfo)
  {
    hide Recover;
    OrphanIsDeleted();
    PrunedHasNoLedgerInfo();
    assert SoundStore(COMMITTED, ORPHANED) && SoundStore(COMMITTED, PRUNED);
  }
}
