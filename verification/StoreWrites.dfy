/** What a node writes to its consensus database between restarts, and why it can always recover twice.

The writes are those of the block store (`consensus/src/block_storage`) and of recovery itself. */
module StoreWrites {
  import opened Types
  import opened TwoChainRules
  import opened Recovery

  /** The database: blocks by id, certificates by the id they certify. */
  datatype Disk = Disk(blocks: set<Block>, quorumCerts: set<QuorumCert>)

  /** The node: its database, the blocks that have been in its tree since the last start, the latest
      committed ledger info, and whether the tree is about to be rebuilt, after a sync or an epoch's end. */
  datatype Node = Node(disk: Disk, tree: set<Block>, committed: LedgerInfoWithSignatures, closed: bool)
  {
    function Root(): HashValue { RootId(committed) }
  }

  datatype Write =
    | SaveBlock(block: Block, inserted: bool)
    | SaveQc(qc: QuorumCert)
    | SaveTree(blocks: seq<Block>, quorumCerts: seq<QuorumCert>)
    | Commit(committed: LedgerInfoWithSignatures)
    | SyncTo(committed: LedgerInfoWithSignatures)
    | Prune(ids: set<HashValue>)
    | Start(store: Store)

  // Steps

  ghost predicate ChainIn(root: HashValue, blocks: set<Block>, path: seq<Block>) {
    && path != [] && ParentId(path[0]) == root
    && (forall i :: 0 <= i < |path| ==> path[i] in blocks)
    && (forall i :: 0 < i < |path| ==> ParentId(path[i]) == path[i - 1].id)
  }

  ghost predicate DescendsIn(root: HashValue, blocks: set<Block>, b: Block) {
    exists path: seq<Block> :: ChainIn(root, blocks, path) && path[|path| - 1] == b
  }

  /** The certificate is for the block: its votes name the block's own parent, and commit it if the rounds are
      consecutive. */
  predicate Vouches(qc: QuorumCert, b: Block) {
    && qc.Certified().id == b.id && qc.Certified().round == b.round && qc.Parent() == b.quorumCert.Certified()
    && qc.CommitInfo().id == if qc.Parent().round + 1 == b.round then ParentId(b) else EMPTY_BLOCK_INFO.id
  }

  /** The certificate of a virtual genesis block, which is not stored. */
  predicate IsGenesisQc(qc: QuorumCert) {
    qc.Certified().id == qc.CommitInfo().id && qc.Certified().id.GenesisBlockHash?
  }

  /** Block ids are hashes: they bind the block, and no stored block has the id of a virtual genesis. */
  predicate Fits(known: set<Block>, b: Block) {
    !b.id.GenesisBlockHash? && forall x :: x in known && x.id == b.id ==> x == b
  }

  /** New in the tree, where the parent of every block but the root is. */
  predicate IsLeaf(tree: set<Block>, b: Block) {
    ParentId(b) != b.id && forall x :: x in tree ==> x.id != b.id && ParentId(x) != b.id
  }

  function PutQc(qcs: set<QuorumCert>, qc: QuorumCert): set<QuorumCert> {
    (set q | q in qcs && q.Certified().id != qc.Certified().id) + {qc}
  }

  function PutAll(disk: Disk, blocks: seq<Block>, qcs: seq<QuorumCert>): Disk
    requires |blocks| == |qcs|
  {
    if blocks == [] then disk
    else
      var n := |blocks| - 1;
      var before := PutAll(disk, blocks[..n], qcs[..n]);
      Disk(before.blocks + {blocks[n]}, PutQc(before.quorumCerts, qcs[n]))
  }

  function Deleted(disk: Disk, ids: set<HashValue>): Disk {
    Disk(set b | b in disk.blocks && b.id !in ids, set q | q in disk.quorumCerts && q.Certified().id !in ids)
  }

  predicate IsBlockId(committed: LedgerInfoWithSignatures) {
    RootId(committed) != EMPTY_BLOCK_INFO.id
  }

  /** A certificate that commits the root is stored together with the block it certifies. */
  predicate CommitterStored(disk: Disk, root: HashValue) {
    exists qc, b ::
      qc in disk.quorumCerts && b in disk.blocks && Vouches(qc, b) && qc.CommitInfo().id == root == ParentId(b)
  }

  ghost predicate Lists(store: Store, disk: Disk) {
    && (forall b :: b in store.blocks <==> b in disk.blocks)
    && (forall qc :: qc in store.quorumCerts <==> qc in disk.quorumCerts)
  }

  ghost predicate Next(n: Node, w: Write, n': Node) {
    match w
    case SaveBlock(b, inserted) =>
      // saved first; it enters the tree only if its parent is there
      Fits(n.tree + n.disk.blocks, b) && (inserted ==> IsLeaf(n.tree, b))
      && n' == n.(disk := n.disk.(blocks := n.disk.blocks + {b}), tree := if inserted then n.tree + {b} else n.tree)
    case SaveQc(qc) =>
      // the certified block is in the tree, where it may outlive its deletion
      (IsGenesisQc(qc) || exists b :: b in n.tree && Vouches(qc, b))
      && n' == n.(disk := n.disk.(quorumCerts := PutQc(n.disk.quorumCerts, qc)))
    case SaveTree(blocks, qcs) =>
      // each certificate with its block
      |blocks| == |qcs|
      && (forall i :: 0 <= i < |blocks| ==>
            Fits(n.tree + PutAll(n.disk, blocks[..i], qcs[..i]).blocks, blocks[i]) && Vouches(qcs[i], blocks[i]))
      && n' == n.(disk := PutAll(n.disk, blocks, qcs))
    case Commit(committed) =>
      // a block below the root, or the end of the epoch
      !n.closed && IsBlockId(committed)
      && (committed.ledgerInfo.EndsEpoch()
          || exists b :: b in n.tree && b.id == RootId(committed) && DescendsIn(n.Root(), n.tree, b))
      && n' == n.(committed := committed, closed := committed.ledgerInfo.EndsEpoch())
    case SyncTo(committed) =>
      // the saved tree has been checked to have a root
      IsBlockId(committed)
      && (committed.ledgerInfo.EndsEpoch() || CommitterStored(n.disk, RootId(committed)))
      && n' == n.(committed := committed, closed := true)
    case Prune(ids) =>
      // blocks of the tree, outside the root's subtree
      (forall id :: id in ids ==> exists b :: b in n.tree && b.id == id)
      && (forall b :: b in n.tree && (b.id == n.Root() || DescendsIn(n.Root(), n.tree, b)) ==> b.id !in ids)
      && n' == n.(disk := Deleted(n.disk, ids))
    case Start(store) =>
      Lists(store, n.disk) && SoundStore(n.committed, store) && Recover(n.committed, store).Ok?
      && var disk := Deleted(n.disk, Recover(n.committed, store).value.toRemove);
      n' == n.(disk := disk, tree := disk.blocks, closed := false)
  }

  ghost predicate Initial(n: Node) {
    n.disk == Disk({}, {}) && n.tree == {} && !n.closed && IsBlockId(n.committed)
  }

  ghost predicate IsRun(trace: seq<Node>, writes: seq<Write>) {
    && |trace| == |writes| + 1 && Initial(trace[0])
    && forall i :: 0 <= i < |writes| ==> Next(trace[i], writes[i], trace[i + 1])
  }

  // Invariant

  predicate IdsBind(known: set<Block>) {
    && (forall b :: b in known ==> !b.id.GenesisBlockHash?)
    && forall x, y :: x in known && y in known && x.id == y.id ==> x == y
  }

  predicate Vouched(known: set<Block>, qc: QuorumCert) {
    IsGenesisQc(qc) || exists b :: b in known && Vouches(qc, b)
  }

  /** Before a rebuild, a certificate that commits the new root is stored with its block; otherwise every
      block of the tree under the root is stored. */
  ghost predicate SubtreeStored(n: Node) {
    if n.closed then n.committed.ledgerInfo.EndsEpoch() || CommitterStored(n.disk, n.Root())
    else forall b :: b in n.tree && DescendsIn(n.Root(), n.tree, b) ==> b in n.disk.blocks
  }

  ghost predicate Invariant(n: Node) {
    && IdsBind(n.tree + n.disk.blocks) && IsBlockId(n.committed) && SubtreeStored(n)
    && forall qc :: qc in n.disk.quorumCerts ==> Vouched(n.tree + n.disk.blocks, qc)
  }

  // Preservation

  lemma DescendsInLarger(root: HashValue, blocks: set<Block>, more: set<Block>, b: Block)
    requires blocks <= more && DescendsIn(root, blocks, b)
    ensures DescendsIn(root, more, b)
  {
    var path: seq<Block> :| ChainIn(root, blocks, path) && path[|path| - 1] == b;
    assert ChainIn(root, more, path);
  }

  lemma ChildDescends(root: HashValue, blocks: set<Block>, b: Block)
    requires b in blocks && ParentId(b) == root
    ensures DescendsIn(root, blocks, b)
  {
    assert ChainIn(root, blocks, [b]);
  }

  /** A new leaf puts no other block under the root. */
  lemma LeafChangesNothing(root: HashValue, tree: set<Block>, leaf: Block, x: Block)
    requires IsLeaf(tree, leaf) && x in tree && DescendsIn(root, tree + {leaf}, x)
    ensures DescendsIn(root, tree, x)
  {
    var path: seq<Block> :| ChainIn(root, tree + {leaf}, path) && path[|path| - 1] == x;
    forall i | 0 <= i < |path| ensures path[i] in tree {
      assert i < |path| - 1 ==> ParentId(path[i + 1]) == path[i].id;
    }
    assert ChainIn(root, tree, path);
  }

  /** What is under a block is under what the block is under. */
  lemma DescendsTransitively(root: HashValue, blocks: set<Block>, b: Block, x: Block)
    requires DescendsIn(root, blocks, b) && DescendsIn(b.id, blocks, x)
    ensures DescendsIn(root, blocks, x)
  {
    var p: seq<Block> :| ChainIn(root, blocks, p) && p[|p| - 1] == b;
    var q: seq<Block> :| ChainIn(b.id, blocks, q) && q[|q| - 1] == x;
    assert ChainIn(root, blocks, p + q);
  }

  lemma SaveBlockKeeps(n: Node, b: Block, inserted: bool, n': Node)
    requires Invariant(n) && Next(n, SaveBlock(b, inserted), n')
    ensures Invariant(n')
  {
    hide Vouches;
    if !n'.closed {
      forall x | x in n'.tree && DescendsIn(n'.Root(), n'.tree, x) ensures x in n'.disk.blocks {
        if inserted && x != b {
          LeafChangesNothing(n.Root(), n.tree, b, x);
        }
      }
    }
  }

  lemma CommitterStays(disk: Disk, known: set<Block>, qc: QuorumCert, root: HashValue)
    requires CommitterStored(disk, root) && IdsBind(known) && disk.blocks <= known && Vouched(known, qc)
    ensures CommitterStored(disk.(quorumCerts := PutQc(disk.quorumCerts, qc)), root)
  {
    var p, b :| p in disk.quorumCerts && b in disk.blocks && Vouches(p, b) && p.CommitInfo().id == root == ParentId(b);
    if qc.Certified().id == p.Certified().id {
      assert !IsGenesisQc(qc);
      assert Vouches(qc, b);
    }
  }

  lemma SaveQcKeeps(n: Node, qc: QuorumCert, n': Node)
    requires Invariant(n) && Next(n, SaveQc(qc), n')
    ensures Invariant(n')
  {
    hide Vouches, DescendsIn;
    var known := n.tree + n.disk.blocks;
    if n.closed && !n.committed.ledgerInfo.EndsEpoch() {
      CommitterStays(n.disk, known, qc, n.Root());
    }
  }

  /** Saving certificates with their blocks keeps ids binding and certificates vouched for. */
  lemma {:induction false} PutAllKeeps(tree: set<Block>, disk: Disk, blocks: seq<Block>, qcs: seq<QuorumCert>,
                                       root: HashValue)
    requires |blocks| == |qcs| && IdsBind(tree + disk.blocks)
    requires forall qc :: qc in disk.quorumCerts ==> Vouched(tree + disk.blocks, qc)
    requires forall i :: 0 <= i < |blocks| ==>
      Fits(tree + PutAll(disk, blocks[..i], qcs[..i]).blocks, blocks[i]) && Vouches(qcs[i], blocks[i])
    ensures var d := PutAll(disk, blocks, qcs);
      && disk.blocks <= d.blocks && IdsBind(tree + d.blocks)
      && (forall qc :: qc in d.quorumCerts ==> Vouched(tree + d.blocks, qc))
      && (CommitterStored(disk, root) ==> CommitterStored(d, root))
  {
    hide Vouches, Vouched, Fits, IdsBind, CommitterStored, PutQc;
    if blocks != [] {
      var n := |blocks| - 1;
      var before := PutAll(disk, blocks[..n], qcs[..n]);
      forall i | 0 <= i < n
        ensures Fits(tree + PutAll(disk, blocks[..n][..i], qcs[..n][..i]).blocks, blocks[..n][i])
        ensures Vouches(qcs[..n][i], blocks[..n][i])
      {
        assert blocks[..n][..i] == blocks[..i] && qcs[..n][..i] == qcs[..i];
      }
      PutAllKeeps(tree, disk, blocks[..n], qcs[..n], root);
      PutOne(tree, before, blocks[n], qcs[n], root);
    }
  }

  lemma PutOne(tree: set<Block>, disk: Disk, b: Block, qc: QuorumCert, root: HashValue)
    requires IdsBind(tree + disk.blocks) && Fits(tree + disk.blocks, b) && Vouches(qc, b)
    requires forall q :: q in disk.quorumCerts ==> Vouched(tree + disk.blocks, q)
    ensures var d := Disk(disk.blocks + {b}, PutQc(disk.quorumCerts, qc));
      && IdsBind(tree + d.blocks) && (forall q :: q in d.quorumCerts ==> Vouched(tree + d.blocks, q))
      && (CommitterStored(disk, root) ==> CommitterStored(d, root))
  {
    hide Vouches;
    var more := disk.(blocks := disk.blocks + {b});
    assert IdsBind(tree + more.blocks);
    if CommitterStored(disk, root) {
      assert CommitterStored(more, root);
      CommitterStays(more, tree + more.blocks, qc, root);
    }
  }

  lemma SaveTreeKeeps(n: Node, blocks: seq<Block>, qcs: seq<QuorumCert>, n': Node)
    requires Invariant(n) && Next(n, SaveTree(blocks, qcs), n')
    ensures Invariant(n')
  {
    hide Vouches, DescendsIn, Fits, IdsBind, Vouched, CommitterStored, PutAll;
    PutAllKeeps(n.tree, n.disk, blocks, qcs, n.Root());
  }

  lemma CommitKeeps(n: Node, committed: LedgerInfoWithSignatures, n': Node)
    requires Invariant(n) && (Next(n, Commit(committed), n') || Next(n, SyncTo(committed), n'))
    ensures Invariant(n')
  {
    hide Vouches, IdsBind, Vouched, DescendsIn;
    if !n'.closed {
      var b :| b in n.tree && b.id == RootId(committed) && DescendsIn(n.Root(), n.tree, b);
      forall x | x in n.tree && DescendsIn(n'.Root(), n.tree, x) ensures x in n.disk.blocks {
        DescendsTransitively(n.Root(), n.tree, b, x);
      }
    }
  }

  lemma PruneKeeps(n: Node, ids: set<HashValue>, n': Node)
    requires Invariant(n) && Next(n, Prune(ids), n')
    ensures Invariant(n')
  {
    hide DescendsIn;
    var known, known' := n.tree + n.disk.blocks, n'.tree + n'.disk.blocks;
    forall qc | qc in n'.disk.quorumCerts ensures Vouched(known', qc) {
      if !IsGenesisQc(qc) {
        var b :| b in known && Vouches(qc, b);
        assert b in known';
      }
    }
    if n.closed && !n.committed.ledgerInfo.EndsEpoch() {
      var qc, b :| qc in n.disk.quorumCerts && b in n.disk.blocks && Vouches(qc, b)
        && qc.CommitInfo().id == n.Root() == ParentId(b);
      if b.id in ids {
        assert b in n.tree;
        ChildDescends(n.Root(), n.tree, b);
      }
      assert b in n'.disk.blocks && qc in n'.disk.quorumCerts;
    }
  }

  /** Recovery leaves certificates of the kept tree only, each with its block. */
  lemma StartKeeps(n: Node, store: Store, n': Node)
    requires Invariant(n) && Next(n, Start(store), n')
    ensures Invariant(n')
  {
    hide Vouches, DescendsIn, Recover, SoundStore;
    var r := Recover(n.committed, store).value;
    var known := n.tree + n.disk.blocks;
    RecoverMeans(n.committed, store);
    forall qc | qc in n'.disk.quorumCerts ensures Vouched(n'.tree + n'.disk.blocks, qc) {
      if !IsGenesisQc(qc) {
        var b :| b in known && Vouches(qc, b);
        KeptCertificateHasBlock(n, store, r, qc, b);
      }
    }
    assert n'.tree == n'.disk.blocks;
  }

  lemma KeptCertificateHasBlock(n: Node, store: Store, r: Recovered, qc: QuorumCert, b: Block)
    requires Invariant(n) && Lists(store, n.disk) && SoundStore(n.committed, store) && Means(n.committed, store, r)
    requires qc in n.disk.quorumCerts && qc.Certified().id !in r.toRemove
    requires b in n.tree + n.disk.blocks && Vouches(qc, b)
    ensures b in n.disk.blocks && b.id !in r.toRemove
  {
    hide DescendsIn, Descends, SoundStore, SubtreeStored;
    var all := Blocks(n.committed, store.blocks);
    CertSurvives(n.committed, store, r, qc);
    assert InTree(r, b.id);
    var x :| x in all && x.id == b.id;
    NotVirtual(n.committed, store, x);
  }

  lemma NotVirtual(committed: LedgerInfoWithSignatures, store: Store, x: Block)
    requires x in Blocks(committed, store.blocks) && !x.id.GenesisBlockHash?
    ensures x in store.blocks
  {
  }

  lemma {:induction false} RunInvariant(trace: seq<Node>, writes: seq<Write>, i: nat)
    requires IsRun(trace, writes) && i < |trace|
    ensures Invariant(trace[i])
  {
    hide Next, Invariant;
    if i == 0 {
      InitialInvariant(trace[0]);
    } else {
      RunInvariant(trace, writes, i - 1);
      var n, n' := trace[i - 1], trace[i - 1 + 1];
      assert Next(n, writes[i - 1], n');
      match writes[i - 1]
      case SaveBlock(b, inserted) => SaveBlockKeeps(n, b, inserted, n');
      case SaveQc(qc) => SaveQcKeeps(n, qc, n');
      case SaveTree(blocks, qcs) => SaveTreeKeeps(n, blocks, qcs, n');
      case Commit(committed) => CommitKeeps(n, committed, n');
      case SyncTo(committed) => CommitKeeps(n, committed, n');
      case Prune(ids) => PruneKeeps(n, ids, n');
      case Start(store) => StartKeeps(n, store, n');
    }
  }

  lemma InitialInvariant(n: Node)
    requires Initial(n)
    ensures Invariant(n)
  {
  }

  // Recovering from what is written

  lemma ChildIsRooted(committed: LedgerInfoWithSignatures, store: Store, qc: QuorumCert, b: Block)
    requires qc in store.quorumCerts && b in store.blocks && Vouches(qc, b)
    requires qc.CommitInfo().id == RootId(committed) == ParentId(b)
    ensures CommitterIsRooted(committed, store)
  {
    var id, all := RootId(committed), Blocks(committed, store.blocks);
    assert IsChain(id, all, [b]);
    assert Descends(id, all, b);
    assert qc in QuorumCerts(committed, store.quorumCerts);
  }

  lemma GenesisIsRooted(committed: LedgerInfoWithSignatures, store: Store)
    requires committed.ledgerInfo.EndsEpoch()
    ensures CommitterIsRooted(committed, store)
  {
    var qc := GenesisQc(committed.ledgerInfo);
    assert qc in QuorumCerts(committed, store.quorumCerts);
    assert qc.CommitInfo().id == RootId(committed) == qc.Certified().id;
  }

  /** Whatever was written before: if recovery finds a root at all, a certificate that commits it is in the
      recovered tree. */
  lemma WrittenIsRooted(trace: seq<Node>, writes: seq<Write>, i: nat, store: Store)
    requires IsRun(trace, writes) && i < |trace| && Lists(store, trace[i].disk)
    requires SoundStore(trace[i].committed, store) && Recover(trace[i].committed, store).Ok?
    ensures CommitterIsRooted(trace[i].committed, store)
  {
    hide IsRun, SoundStore, Recover, CommitterIsRooted, DescendsIn;
    var n := trace[i];
    RunInvariant(trace, writes, i);
    if n.committed.ledgerInfo.EndsEpoch() {
      GenesisIsRooted(n.committed, store);
    } else if n.closed {
      var qc, b :| qc in n.disk.quorumCerts && b in n.disk.blocks && Vouches(qc, b)
        && qc.CommitInfo().id == n.Root() == ParentId(b);
      ChildIsRooted(n.committed, store, qc, b);
    } else {
      RecoverMeans(n.committed, store);
      OrderedCertIsRooted(n, store, Recover(n.committed, store).value.root.orderedCert);
    }
  }

  lemma OrderedCertIsRooted(n: Node, store: Store, qc: QuorumCert)
    requires Invariant(n) && Lists(store, n.disk) && !n.closed && !n.committed.ledgerInfo.EndsEpoch()
    requires qc in n.disk.quorumCerts && qc.CommitInfo().id == n.Root()
    ensures CommitterIsRooted(n.committed, store)
  {
    hide DescendsIn, CommitterIsRooted;
    if IsGenesisQc(qc) {
      SelfIsRooted(n.committed, store, qc);
    } else {
      var b :| b in n.tree + n.disk.blocks && Vouches(qc, b);
      if b in n.tree {
        ChildDescends(n.Root(), n.tree, b);
      }
      ChildIsRooted(n.committed, store, qc, b);
    }
  }

  lemma SelfIsRooted(committed: LedgerInfoWithSignatures, store: Store, qc: QuorumCert)
    requires qc in store.quorumCerts && qc.CommitInfo().id == RootId(committed) == qc.Certified().id
    ensures CommitterIsRooted(committed, store)
  {
    assert qc in QuorumCerts(committed, store.quorumCerts);
  }

  /** So on what a node has written, recovering, deleting and recovering again always succeeds, with the same
      tree and nothing more to delete. */
  lemma SecondRecoverySucceeds(trace: seq<Node>, writes: seq<Write>, i: nat, store: Store, again: Store)
    requires IsRun(trace, writes) && i < |trace| && Lists(store, trace[i].disk)
    requires var committed := trace[i].committed;
      && SoundStore(committed, store) && SoundStore(committed, again) && Recover(committed, store).Ok?
      && CommitIdBinds(QuorumCerts(committed, store.quorumCerts), RootId(committed))
      && var r := Recover(committed, store).value;
      && (forall b :: b in again.blocks <==> b in store.blocks && b.id !in r.toRemove)
      && (forall qc :: qc in again.quorumCerts <==> qc in store.quorumCerts && qc.Certified().id !in r.toRemove)
      && again.lastVote == r.lastVote && again.highestTc == r.highestTc
    ensures var r, r' := Recover(trace[i].committed, store), Recover(trace[i].committed, again);
      r'.Ok? && SameRecovery(r.value, r'.value) && r'.value.toRemove == {}
  {
    hide IsRun, SoundStore, Recover, CommitterIsRooted;
    WrittenIsRooted(trace, writes, i, store);
    RecoveryIsStable(trace[i].committed, store, again);
  }

  // The hypotheses hold together: a node that has saved two blocks and committed the first

  const EPOCH_END :=
    LedgerInfo(EMPTY_BLOCK_INFO.(nextEpochState := Some(EpochState(1, ValidatorVerifier([], 0)))), Raw(0))
  const FIRST_INFO := EMPTY_BLOCK_INFO.(epoch := 1, round := 1, id := Raw(1))
  const SECOND_INFO := EMPTY_BLOCK_INFO.(epoch := 1, round := 2, id := Raw(2))
  const FIRST := Block(1, 1, Raw(1), 0, GenesisQc(EPOCH_END))
  const FIRST_QC := QuorumCert(VoteData(FIRST_INFO, GenesisInfo(EPOCH_END)), Unsigned(GenesisInfo(EPOCH_END)))
  const SECOND := Block(1, 2, Raw(2), 0, FIRST_QC)
  const SECOND_QC := QuorumCert(VoteData(SECOND_INFO, FIRST_INFO), Unsigned(FIRST_INFO))
  const WRITTEN := Store([FIRST, SECOND], [FIRST_QC, SECOND_QC], None, None)

  function Unsigned(info: BlockInfo): LedgerInfoWithSignatures {
    LedgerInfoWithSignatures(LedgerInfo(info, Raw(0)), NO_SIGNATURE)
  }

  function Writes(): seq<Write> {
    [SaveBlock(FIRST, true), SaveQc(FIRST_QC), SaveBlock(SECOND, true), SaveQc(SECOND_QC), Commit(Unsigned(FIRST_INFO))]
  }

  function Trace(): seq<Node> {
    var start := LedgerInfoWithSignatures(EPOCH_END, NO_SIGNATURE);
    var one := Disk({FIRST}, {FIRST_QC});
    var two := Disk({FIRST, SECOND}, {FIRST_QC, SECOND_QC});
    [Node(Disk({}, {}), {}, start, false), Node(Disk({FIRST}, {}), {FIRST}, start, false),
     Node(one, {FIRST}, start, false), Node(one.(blocks := two.blocks), two.blocks, start, false),
     Node(two, two.blocks, start, false), Node(two, two.blocks, Unsigned(FIRST_INFO), false)]
  }

  lemma WrittenCommits()
    ensures IsRun(Trace(), Writes()) && Lists(WRITTEN, Trace()[5].disk) && !Trace()[5].committed.ledgerInfo.EndsEpoch()
    ensures SoundStore(Trace()[5].committed, WRITTEN) && Recover(Trace()[5].committed, WRITTEN).Ok?
    ensures CommitIdBinds(QuorumCerts(Trace()[5].committed, WRITTEN.quorumCerts), RootId(Trace()[5].committed))
  {
    hide Next, Recover, SoundStore;
    FirstIsWritten();
    SecondIsWritten();
    FirstIsCommitted();
    WrittenIsSound();
    WrittenRecovers();
  }

  lemma FirstIsWritten()
    ensures Next(Trace()[0], Writes()[0], Trace()[1]) && Next(Trace()[1], Writes()[1], Trace()[2])
  {
    assert Vouches(FIRST_QC, FIRST);
  }

  lemma SecondIsWritten()
    ensures Next(Trace()[2], Writes()[2], Trace()[3]) && Next(Trace()[3], Writes()[3], Trace()[4])
  {
    assert Vouches(SECOND_QC, SECOND);
    assert PutQc({FIRST_QC}, SECOND_QC) == {FIRST_QC, SECOND_QC};
  }

  lemma FirstIsCommitted()
    ensures Next(Trace()[4], Writes()[4], Trace()[5])
  {
    hide DescendsIn;
    ChildDescends(GenesisBlockHash(EPOCH_END), {FIRST, SECOND}, FIRST);
  }

  lemma WrittenIsSound()
    ensures SoundStore(Unsigned(FIRST_INFO), WRITTEN)
  {
  }

  lemma WrittenRecovers()
    ensures Recover(Unsigned(FIRST_INFO), WRITTEN).Ok?
  {
    var qcs := [FIRST_QC, SECOND_QC];
    assert qcs[..1] == [FIRST_QC];
    assert Find([FIRST_QC], Certifying(Raw(1))) == Some(FIRST_QC) && Find([FIRST_QC], Committing(Raw(1))) == None;
    assert Find(qcs, Certifying(Raw(1))) == Some(FIRST_QC) && Find(qcs, Committing(Raw(1))) == Some(SECOND_QC);
    SortOrdered([FIRST, SECOND]);
  }
}
