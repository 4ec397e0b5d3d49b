/** The statistics a leader logs about the votes of the previous round (`log_collected_vote_stats`). */
module VoteStatistics {
  import opened Types
  import opened VotingPower
  import opened MultiSignatures
  import opened VoteCollection
  import opened CollectorRuns

  /** Power and number of the known signers of one ledger info. */
  function KnownTally(v: ValidatorVerifier, authors: seq<Author>): (nat, nat) {
    if authors == [] then (0, 0)
    else
      var n := |authors| - 1;
      var (power, count) := KnownTally(v, authors[..n]);
      match GetVotingPower(v, authors[n])
      case Some(p) => (power + p, count + 1)
      case None => (power, count)
  }

  function Tallies(v: ValidatorVerifier, entries: seq<PartialLedgerInfo>): seq<(nat, nat)> {
    seq(|entries|, k requires 0 <= k < |entries| => KnownTally(v, SortedKeys(entries[k].signatures.Keys)))
  }

  predicate TallyLess(x: (nat, nat), y: (nat, nat)) {
    x.0 < y.0 || (x.0 == y.0 && x.1 < y.1)
  }

  function Sums(t: seq<(nat, nat)>): (nat, nat) {
    if t == [] then (0, 0)
    else
      var n := |t| - 1;
      (Sums(t[..n]).0 + t[n].0, Sums(t[..n]).1 + t[n].1)
  }

  method Tally(v: ValidatorVerifier, authors: seq<Author>) returns (power: nat, count: nat)
    ensures (power, count) == KnownTally(v, authors)
  {
    power, count := 0, 0;
    for i := 0 to |authors|
      invariant (power, count) == KnownTally(v, authors[..i])
    {
      assert authors[..i + 1][..i] == authors[..i];
      match GetVotingPower(v, authors[i])
      case Some(p) => power, count := power + p, count + 1;
      case None =>
    }
    assert authors[..|authors|] == authors;
  }

  lemma {:induction false} SumsBound(t: seq<(nat, nat)>, k: nat)
    requires k < |t|
    ensures t[k].0 <= Sums(t).0 && t[k].1 <= Sums(t).1
  {
    if k < |t| - 1 {
      SumsBound(t[..|t| - 1], k);
    }
  }

  /** The best supported ledger info, and everything that conflicts with it.  The results being natural
      numbers is the absence of underflow in the two subtractions. */
  method MostAndConflicting(t: seq<(nat, nat)>)
    returns (maxPower: nat, maxCount: nat, conflictingPower: nat, conflictingCount: nat)
    ensures t == [] ==> maxPower == maxCount == 0
    ensures t != [] ==> (maxPower, maxCount) in t
    ensures forall k :: 0 <= k < |t| ==> !TallyLess((maxPower, maxCount), t[k])
    ensures (maxPower + conflictingPower, maxCount + conflictingCount) == Sums(t)
  {
    var sumPower, sumCount := 0, 0;
    maxPower, maxCount := 0, 0;
    ghost var best := 0;
    for i := 0 to |t|
      invariant i == 0 ==> maxPower == maxCount == 0
      invariant i > 0 ==> 0 <= best < i && (maxPower, maxCount) == t[best]
      invariant forall k :: 0 <= k < i ==> !TallyLess((maxPower, maxCount), t[k])
      invariant (sumPower, sumCount) == Sums(t[..i])
    {
      assert t[..i + 1][..i] == t[..i];
      sumPower, sumCount := sumPower + t[i].0, sumCount + t[i].1;
      if i == 0 || TallyLess((maxPower, maxCount), t[i]) {
        maxPower, maxCount, best := t[i].0, t[i].1, i;
      }
    }
    assert t[..|t|] == t;
    if t != [] {
      SumsBound(t, best);
    }
    conflictingPower, conflictingCount := sumPower - maxPower, sumCount - maxCount;
  }

  method CollectedVoteStats(v: ValidatorVerifier, entries: seq<PartialLedgerInfo>)
    returns (maxPower: nat, maxCount: nat, conflictingPower: nat, conflictingCount: nat)
    ensures entries == [] ==> maxPower == maxCount == 0
    ensures entries != [] ==> (maxPower, maxCount) in Tallies(v, entries)
    ensures forall k :: 0 <= k < |entries| ==> !TallyLess((maxPower, maxCount), Tallies(v, entries)[k])
    ensures (maxPower + conflictingPower, maxCount + conflictingCount) == Sums(Tallies(v, entries))
  {
    hide KnownTally, SortedKeys, Sums, TallyLess;
    var t := [];
    for i := 0 to |entries|
      invariant t == Tallies(v, entries)[..i]
    {
      var power, count := Tally(v, SortedKeys(entries[i].signatures.Keys));
      t := t + [(power, count)];
    }
    assert t == Tallies(v, entries);
    maxPower, maxCount, conflictingPower, conflictingCount := MostAndConflicting(t);
  }

  lemma {:induction false} KnownTallyIsPower(v: ValidatorVerifier, authors: seq<Author>)
    requires UniqueAddresses(v.infos) && NoDuplicates(authors)
    ensures KnownTally(v, authors).0 == PowerOf(v.infos, SetOf(authors))
  {
    if authors == [] {
      assert SetOf(authors) == {};
      PowerOfNobody(v.infos, {});
    } else {
      var n := |authors| - 1;
      KnownTallyIsPower(v, authors[..n]);
      assert SetOf(authors) == SetOf(authors[..n]) + {authors[n]};
      if authors[n] in Addresses(v.infos) {
        PowerInsert(v, SetOf(authors[..n]), authors[n]);
      } else {
        PowerOfNobody(v.infos, {authors[n]});
        PowerUnion(v.infos, SetOf(authors[..n]), {authors[n]});
        assert SetOf(authors[..n]) * {authors[n]} == {};
        PowerOfNobody(v.infos, {});
      }
    }
  }

  lemma {:induction false} KnownTallyCounts(v: ValidatorVerifier, authors: seq<Author>)
    requires NoDuplicates(authors)
    ensures KnownTally(v, authors).1 == |SetOf(authors) * Addresses(v.infos)|
  {
    if authors == [] {
      assert SetOf(authors) * Addresses(v.infos) == {};
    } else {
      var n := |authors| - 1;
      var before, known := SetOf(authors[..n]), Addresses(v.infos);
      KnownTallyCounts(v, authors[..n]);
      assert authors[n] !in before;
      assert SetOf(authors) * known == before * known + if authors[n] in known then {authors[n]} else {};
    }
  }

  predicate DisjointSigners(entries: seq<PartialLedgerInfo>) {
    forall i, j :: 0 <= i < j < |entries| ==> entries[i].signatures.Keys !! entries[j].signatures.Keys
  }

  function AllSigners(entries: seq<PartialLedgerInfo>): set<Author> {
    set k, a | 0 <= k < |entries| && a in entries[k].signatures :: a
  }

  lemma {:induction false} SumOfDisjointPowers(v: ValidatorVerifier, entries: seq<PartialLedgerInfo>)
    requires UniqueAddresses(v.infos) && DisjointSigners(entries)
    ensures Sums(Tallies(v, entries)).0 == PowerOf(v.infos, AllSigners(entries))
  {
    hide KnownTally, SortedKeys, PowerOf;
    PowerOfNobody(v.infos, {});
    if entries == [] {
      assert AllSigners(entries) == {};
    } else {
      var n := |entries| - 1;
      var before, last := AllSigners(entries[..n]), entries[n].signatures.Keys;
      SumOfDisjointPowers(v, entries[..n]);
      assert Tallies(v, entries)[..n] == Tallies(v, entries[..n]);
      KnownTallyIsPower(v, SortedKeys(last));
      LastSigners(entries);
      PowerUnion(v.infos, before, last);
    }
  }

  lemma LastSigners(entries: seq<PartialLedgerInfo>)
    requires entries != [] && DisjointSigners(entries)
    ensures var n := |entries| - 1;
      && AllSigners(entries) == AllSigners(entries[..n]) + entries[n].signatures.Keys
      && AllSigners(entries[..n]) * entries[n].signatures.Keys == {}
  {
    var n := |entries| - 1;
    forall a | a in AllSigners(entries) ensures a in AllSigners(entries[..n]) + entries[n].signatures.Keys {
      var k :| 0 <= k < |entries| && a in entries[k].signatures;
      assert k < n ==> entries[..n][k] == entries[k];
    }
  }

  /** The drained entries, listed in some order, each digest once. */
  ghost predicate ListsEntries(s: Votes, digests: seq<HashValue>, entries: seq<PartialLedgerInfo>) {
    && |digests| == |entries| && NoDuplicates(digests)
    && forall k :: 0 <= k < |digests| ==> digests[k] in s.ledgerInfos && entries[k] == s.ledgerInfos[digests[k]]
  }

  /** Whatever votes came in: the logged "most" and "conflicting" powers together never exceed the
      total. */
  lemma StatsWithinTotal(v: ValidatorVerifier, ops: seq<Op>, digests: seq<HashValue>, entries: seq<PartialLedgerInfo>)
    requires UniqueAddresses(v.infos) && ListsEntries(StateAfter(v, ops), digests, entries)
    ensures Sums(Tallies(v, entries)).0 <= Total(v)
  {
    forall i, j | 0 <= i < j < |entries| ensures entries[i].signatures.Keys !! entries[j].signatures.Keys {
      SignerSetsDisjoint(v, ops, digests[i], digests[j]);
    }
    SumOfDisjointPowers(v, entries);
    PowerAtMostTotal(v.infos, AllSigners(entries));
  }
}
