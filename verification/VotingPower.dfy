/** Weighted voting power and quorum arithmetic of `ValidatorVerifier`. */
module VotingPower {
  import opened Types

  function SumPower(infos: seq<ValidatorInfo>): nat {
    if infos == [] then 0 else infos[0].votingPower + SumPower(infos[1..])
  }

  /** Power of the validators whose address lies in `s`. */
  function PowerOf(infos: seq<ValidatorInfo>, s: set<Author>): nat {
    if infos == [] then 0
    else (if infos[0].address in s then infos[0].votingPower else 0) + PowerOf(infos[1..], s)
  }

  function Addresses(infos: seq<ValidatorInfo>): set<Author> {
    set i | 0 <= i < |infos| :: infos[i].address
  }

  predicate UniqueAddresses(infos: seq<ValidatorInfo>) {
    forall i, j :: 0 <= i < j < |infos| ==> infos[i].address != infos[j].address
  }

  /** Address to position; a repeated address keeps its last position. */
  function Index(infos: seq<ValidatorInfo>): (m: map<Author, nat>)
    ensures m.Keys == Addresses(infos)
    ensures forall a :: a in m ==> m[a] < |infos| && infos[m[a]].address == a
  {
    if infos == [] then map[]
    else
      var n := |infos| - 1;
      var m := Index(infos[..n]);
      assert Addresses(infos) == Addresses(infos[..n]) + {infos[n].address};
      m[infos[n].address := n]
  }

  function Total(v: ValidatorVerifier): nat {
    SumPower(v.infos)
  }

  /** `ValidatorVerifier::new`: quorum of two thirds plus one. */
  function New(infos: seq<ValidatorInfo>): ValidatorVerifier {
    ValidatorVerifier(infos, if infos == [] then 0 else SumPower(infos) * 2 / 3 + 1)
  }

  /** The smallest set that can certify anything. */
  const LONE_VALIDATOR := New([ValidatorInfo(1, 1, 1)])

  predicate WellFormed(v: ValidatorVerifier) {
    UniqueAddresses(v.infos) && |v.infos| < U16_MODULUS
  }

  /** The part of the default quorum that agreement rests on. */
  predicate SuperMajority(v: ValidatorVerifier) {
    3 * v.quorum > 2 * Total(v)
  }

  function GetVotingPower(v: ValidatorVerifier, a: Author): Option<nat> {
    if a in Index(v.infos) then Some(v.infos[Index(v.infos)[a]].votingPower) else None
  }

  function GetPublicKey(v: ValidatorVerifier, a: Author): Option<PublicKey> {
    if a in Index(v.infos) then Some(v.infos[Index(v.infos)[a]].publicKey) else None
  }

  /** Validators of `v` whose key is not one of the honest keys. */
  function Byzantine(v: ValidatorVerifier, honest: set<PublicKey>): set<Author> {
    set i | 0 <= i < |v.infos| && v.infos[i].publicKey !in honest :: v.infos[i].address
  }

  predicate FaultBound(v: ValidatorVerifier, honest: set<PublicKey>) {
    PowerOf(v.infos, Byzantine(v, honest)) + v.quorum <= Total(v)
  }

  lemma {:induction false} PowerUnion(infos: seq<ValidatorInfo>, s: set<Author>, t: set<Author>)
    ensures PowerOf(infos, s + t) + PowerOf(infos, s * t) == PowerOf(infos, s) + PowerOf(infos, t)
  {
    if infos != [] {
      PowerUnion(infos[1..], s, t);
    }
  }

  lemma {:induction false} PowerSubset(infos: seq<ValidatorInfo>, s: set<Author>, t: set<Author>)
    requires forall a :: a in s && a in Addresses(infos) ==> a in t
    ensures PowerOf(infos, s) <= PowerOf(infos, t)
  {
    if infos != [] {
      assert infos[0].address in Addresses(infos);
      assert forall a :: a in Addresses(infos[1..]) ==> a in Addresses(infos);
      PowerSubset(infos[1..], s, t);
    }
  }

  lemma {:induction false} PowerAtMostTotal(infos: seq<ValidatorInfo>, s: set<Author>)
    ensures PowerOf(infos, s) <= SumPower(infos)
    ensures Addresses(infos) <= s ==> PowerOf(infos, s) == SumPower(infos)
  {
    if infos != [] {
      assert infos[0].address in Addresses(infos);
      assert Addresses(infos[1..]) <= Addresses(infos);
      PowerAtMostTotal(infos[1..], s);
    }
  }

  lemma {:induction false} PowerOfNobody(infos: seq<ValidatorInfo>, s: set<Author>)
    requires s !! Addresses(infos)
    ensures PowerOf(infos, s) == 0
  {
    if infos != [] {
      assert infos[0].address in Addresses(infos);
      assert Addresses(infos[1..]) <= Addresses(infos);
      PowerOfNobody(infos[1..], s);
    }
  }

  /** One validator adds exactly its own power. */
  lemma {:induction false} PowerOfOne(infos: seq<ValidatorInfo>, i: nat)
    requires UniqueAddresses(infos) && i < |infos|
    ensures PowerOf(infos, {infos[i].address}) == infos[i].votingPower
  {
    if i == 0 {
      PowerOfNobody(infos[1..], {infos[0].address});
    } else {
      PowerOfOne(infos[1..], i - 1);
    }
  }

  lemma PowerInsert(v: ValidatorVerifier, s: set<Author>, a: Author)
    requires UniqueAddresses(v.infos) && a in Addresses(v.infos) && a !in s
    ensures PowerOf(v.infos, s + {a}) == PowerOf(v.infos, s) + GetVotingPower(v, a).value
  {
    PowerUnion(v.infos, s, {a});
    assert s * {a} == {};
    PowerOfNobody(v.infos, {});
    PowerOfOne(v.infos, Index(v.infos)[a]);
  }

  lemma IndexOfAddress(v: ValidatorVerifier, i: nat)
    requires UniqueAddresses(v.infos) && i < |v.infos|
    ensures v.infos[i].address in Index(v.infos) && Index(v.infos)[v.infos[i].address] == i
  {
    assert v.infos[i].address in Addresses(v.infos);
  }

  lemma DefaultQuorumIsSuperMajority(infos: seq<ValidatorInfo>)
    requires infos != []
    ensures SuperMajority(New(infos))
    ensures New(infos).quorum <= Total(New(infos)) <==> 0 < SumPower(infos)
  {
  }

  /** With u64 powers and at most 65535 validators, the u128 arithmetic of `new` cannot overflow. */
  lemma {:induction false} PowerFitsU128(infos: seq<ValidatorInfo>)
    requires forall i :: 0 <= i < |infos| ==> infos[i].votingPower <= U64_MAX
    ensures SumPower(infos) <= |infos| * U64_MAX
    ensures |infos| < U16_MODULUS ==> SumPower(infos) * 2 < 0x1_0000_0000_0000_0000_0000_0000_0000_0000
  {
    if infos != [] {
      PowerFitsU128(infos[1..]);
    }
  }

  /** Any two quorums share a validator that is not Byzantine. */
  lemma HonestInBoth(v: ValidatorVerifier, honest: set<PublicKey>, q1: set<Author>, q2: set<Author>)
    returns (i: nat)
    requires SuperMajority(v) && FaultBound(v, honest)
    requires PowerOf(v.infos, q1) >= v.quorum && PowerOf(v.infos, q2) >= v.quorum
    ensures i < |v.infos| && v.infos[i].publicKey in honest
    ensures v.infos[i].address in q1 && v.infos[i].address in q2
  {
    var byz := Byzantine(v, honest);
    PowerUnion(v.infos, q1, q2);
    PowerAtMostTotal(v.infos, q1 + q2);
    if forall a :: a in q1 * q2 && a in Addresses(v.infos) ==> a in byz {
      PowerSubset(v.infos, q1 * q2, byz);
      assert false;
    }
    var a :| a in q1 * q2 && a in Addresses(v.infos) && a !in byz;
    i :| 0 <= i < |v.infos| && v.infos[i].address == a;
  }

  /** A set too heavy to be all Byzantine, and heavy enough to meet every quorum. */
  lemma HonestInFPlusOne(v: ValidatorVerifier, honest: set<PublicKey>, s: set<Author>) returns (i: nat)
    requires FaultBound(v, honest)
    requires PowerOf(v.infos, s) >= Total(v) - v.quorum + 1
    ensures i < |v.infos| && v.infos[i].publicKey in honest && v.infos[i].address in s
  {
    var byz := Byzantine(v, honest);
    if forall a :: a in s && a in Addresses(v.infos) ==> a in byz {
      PowerSubset(v.infos, s, byz);
      assert false;
    }
    var a :| a in s && a in Addresses(v.infos) && a !in byz;
    i :| 0 <= i < |v.infos| && v.infos[i].address == a;
  }

  lemma FPlusOneMeetsQuorum(v: ValidatorVerifier, s: set<Author>, q: set<Author>)
    requires v.quorum <= Total(v)
    requires PowerOf(v.infos, s) >= Total(v) - v.quorum + 1
    requires PowerOf(v.infos, q) >= v.quorum
    ensures s * q != {}
  {
    PowerUnion(v.infos, s, q);
    PowerAtMostTotal(v.infos, s + q);
    if s * q == {} {
      PowerOfNobody(v.infos, {});
    }
  }
}
