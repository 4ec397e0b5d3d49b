/** Signature aggregation and verification of `ValidatorVerifier`. */
module MultiSignatures {
  import opened Types
  import opened BitVectors
  import opened VotingPower

  predicate NoDuplicates<T(==)>(s: seq<T>) {
    forall i, j :: 0 <= i < j < |s| ==> s[i] != s[j]
  }

  function SetOf<T>(s: seq<T>): set<T> {
    set x | x in s
  }

  lemma NonEmptySetOf<T>(s: seq<T>)
    ensures s != [] ==> SetOf(s) != {}
  {
    if s != [] {
      assert s[0] in SetOf(s);
    }
  }

  predicate IsLeast(s: set<nat>, m: nat) {
    m in s && forall x :: x in s ==> m <= x
  }

  lemma LeastExists(s: set<nat>)
    requires s != {}
    ensures exists m :: IsLeast(s, m)
  {
    var x :| x in s;
    var rest := s - {x};
    if rest == {} {
      assert s == {x};
      assert IsLeast(s, x);
    } else {
      LeastExists(rest);
      var k :| IsLeast(rest, k);
      assert forall y :: y in s ==> y == x || y in rest;
      assert IsLeast(s, if k < x then k else x);
    }
  }

  predicate Ascending(s: seq<nat>) {
    forall i, j :: 0 <= i < j < |s| ==> s[i] < s[j]
  }

  lemma {:induction false} AscendingIsUnique(s: seq<nat>, t: seq<nat>)
    requires Ascending(s) && Ascending(t) && SetOf(s) == SetOf(t)
    ensures s == t
  {
    NonEmptySetOf(s);
    NonEmptySetOf(t);
    if s != [] {
      var n, m := |s| - 1, |t| - 1;
      assert s[n] in SetOf(t) && t[m] in SetOf(s);
      assert s[n] == t[m];
      assert SetOf(s[..n]) == SetOf(s) - {s[n]};
      assert SetOf(t[..m]) == SetOf(t) - {t[m]};
      AscendingIsUnique(s[..n], t[..m]);
    }
  }

  /** Keys in ascending order, as a `BTreeMap` yields them. */
  function SortedKeys(s: set<nat>): (r: seq<nat>)
    ensures NoDuplicates(r) && SetOf(r) == s && Ascending(r)
  {
    if s == {} then []
    else
      LeastExists(s);
      var m :| m in s && IsLeast(s, m);
      var rest := SortedKeys(s - {m});
      LeastFirst(s, m, rest);
      [m] + rest
  }

  lemma LeastFirst(s: set<nat>, m: nat, rest: seq<nat>)
    requires m in s && IsLeast(s, m) && NoDuplicates(rest) && SetOf(rest) == s - {m} && Ascending(rest)
    ensures NoDuplicates([m] + rest) && SetOf([m] + rest) == s && Ascending([m] + rest)
  {
    assert forall k :: 0 <= k < |rest| ==> rest[k] in SetOf(rest);
    assert SetOf([m] + rest) == {m} + SetOf(rest);
  }

  // Voting power of a list of authors

  predicate AllKnown(v: ValidatorVerifier, authors: seq<Author>) {
    forall k :: 0 <= k < |authors| ==> authors[k] in Index(v.infos)
  }

  function SeqPower(v: ValidatorVerifier, authors: seq<Author>): nat
    requires AllKnown(v, authors)
  {
    if authors == [] then 0
    else
      var n := |authors| - 1;
      SeqPower(v, authors[..n]) + GetVotingPower(v, authors[n]).value
  }

  function PowerVerdict(v: ValidatorVerifier, power: nat): Result<(), VerifyError> {
    if power < v.quorum then Err(TooLittleVotingPower(power, v.quorum)) else Ok(())
  }

  function VotingPowerVerdict(v: ValidatorVerifier, authors: seq<Author>): Result<(), VerifyError> {
    if AllKnown(v, authors) then PowerVerdict(v, SeqPower(v, authors)) else Err(UnknownAuthor)
  }

  method CheckVotingPower(v: ValidatorVerifier, authors: seq<Author>)
    returns (r: Result<(), VerifyError>)
    ensures r == VotingPowerVerdict(v, authors)
  {
    var aggregated := 0;
    for i := 0 to |authors|
      invariant AllKnown(v, authors[..i])
      invariant aggregated == SeqPower(v, authors[..i])
    {
      match GetVotingPower(v, authors[i])
      case Some(power) =>
        assert authors[..i + 1][..i] == authors[..i];
        aggregated := aggregated + power;
      case None =>
        return Err(UnknownAuthor);
    }
    assert authors[..|authors|] == authors;
    r := PowerVerdict(v, aggregated);
  }

  lemma {:induction false} SeqPowerIsPowerOfSet(v: ValidatorVerifier, authors: seq<Author>)
    requires UniqueAddresses(v.infos) && AllKnown(v, authors) && NoDuplicates(authors)
    ensures SeqPower(v, authors) == PowerOf(v.infos, SetOf(authors))
  {
    if authors == [] {
      assert SetOf(authors) == {};
      PowerOfNobody(v.infos, {});
    } else {
      var n := |authors| - 1;
      SeqPowerIsPowerOfSet(v, authors[..n]);
      assert SetOf(authors) == SetOf(authors[..n]) + {authors[n]};
      PowerInsert(v, SetOf(authors[..n]), authors[n]);
    }
  }

  /** On distinct authors the check depends only on who they are. */
  lemma VerdictOfDistinctAuthors(v: ValidatorVerifier, authors: seq<Author>)
    requires UniqueAddresses(v.infos) && NoDuplicates(authors)
    ensures VotingPowerVerdict(v, authors)
         == if SetOf(authors) <= Addresses(v.infos) then PowerVerdict(v, PowerOf(v.infos, SetOf(authors)))
            else Err(UnknownAuthor)
  {
    assert AllKnown(v, authors) <==> SetOf(authors) <= Addresses(v.infos);
    if AllKnown(v, authors) {
      SeqPowerIsPowerOfSet(v, authors);
    }
  }

  // Aggregation

  function MasksOver(v: ValidatorVerifier, keys: seq<Author>): BitVec
    requires AllKnown(v, keys)
  {
    if keys == [] then WithNumBits(|v.infos| % U16_MODULUS)
    else
      var n := |keys| - 1;
      Set(MasksOver(v, keys[..n]), Index(v.infos)[keys[n]] % U16_MODULUS)
  }

  function AtomsOver(keys: seq<Author>, sigs: map<Author, Signature>): multiset<Atom>
    requires forall k :: 0 <= k < |keys| ==> keys[k] in sigs
  {
    if keys == [] then multiset{}
    else
      var n := |keys| - 1;
      AtomsOver(keys[..n], sigs) + sigs[keys[n]].atoms
  }

  /** Everything in the map is added to the mask and to the bag of signed pairs. */
  function Aggregated(v: ValidatorVerifier, sigs: map<Author, Signature>)
    : Result<AggregateSignature, VerifyError>
  {
    var keys := SortedKeys(sigs.Keys);
    assert forall k :: 0 <= k < |keys| ==> keys[k] in SetOf(keys);
    if !AllKnown(v, keys) then Err(UnknownAuthor)
    else if keys == [] then Err(FailedToAggregateSignature)
    else Ok(AggregateSignature(MasksOver(v, keys), Some(Signature(AtomsOver(keys, sigs)))))
  }

  method AggregateSignatures(v: ValidatorVerifier, sigs: map<Author, Signature>)
    returns (r: Result<AggregateSignature, VerifyError>)
    ensures r == Aggregated(v, sigs)
  {
    hide Set, SortedKeys, Index, WithNumBits;
    var keys := SortedKeys(sigs.Keys);
    assert forall k :: 0 <= k < |keys| ==> keys[k] in SetOf(keys);
    var atoms := multiset{};
    var masks := WithNumBits(|v.infos| % U16_MODULUS);
    for i := 0 to |keys|
      invariant AllKnown(v, keys[..i])
      invariant masks == MasksOver(v, keys[..i])
      invariant atoms == AtomsOver(keys[..i], sigs)
    {
      if keys[i] !in Index(v.infos) {
        return Err(UnknownAuthor);
      }
      assert keys[..i + 1][..i] == keys[..i];
      masks := Set(masks, Index(v.infos)[keys[i]] % U16_MODULUS);
      atoms := atoms + sigs[keys[i]].atoms;
    }
    assert keys[..|keys|] == keys;
    r := if keys == [] then Err(FailedToAggregateSignature)
         else Ok(AggregateSignature(masks, Some(Signature(atoms))));
  }

  // Verification

  function CheckNumOfVoters(numValidators: nat, b: BitVec): Result<(), VerifyError> {
    if |b.inner| != RequiredBuckets(numValidators) then Err(InvalidBitVec)
    else if LastSetBit(b).Some? && LastSetBit(b).value >= numValidators then Err(InvalidBitVec)
    else Ok(())
  }

  predicate InRange(v: ValidatorVerifier, ones: seq<nat>) {
    forall k :: 0 <= k < |ones| ==> ones[k] < |v.infos|
  }

  function AuthorsAt(v: ValidatorVerifier, ones: seq<nat>): seq<Author>
    requires InRange(v, ones)
  {
    seq(|ones|, k requires 0 <= k < |ones| => v.infos[ones[k]].address)
  }

  function KeysAt(v: ValidatorVerifier, ones: seq<nat>): seq<PublicKey>
    requires InRange(v, ones)
  {
    seq(|ones|, k requires 0 <= k < |ones| => v.infos[ones[k]].publicKey)
  }

  function Pairs(keys: seq<PublicKey>, messages: seq<Message>): seq<Atom>
    requires |keys| == |messages|
  {
    seq(|keys|, k requires 0 <= k < |keys| => Atom(keys[k], messages[k]))
  }

  /** Who the mask names, if the mask fits and they hold a quorum. */
  function VotersVerdict(v: ValidatorVerifier, b: BitVec): (r: Result<seq<nat>, VerifyError>)
    ensures r.Ok? ==> r.value == IterOnes(b) && InRange(v, r.value)
  {
    var fits := CheckNumOfVoters(|v.infos| % U16_MODULUS, b);
    var ones := IterOnes(b);
    if fits.Err? then Err(fits.error)
    else if !InRange(v, ones) then Err(UnknownAuthor)
    else
      var power := VotingPowerVerdict(v, AuthorsAt(v, ones));
      if power.Err? then Err(power.error) else Ok(ones)
  }

  method CollectVoters(v: ValidatorVerifier, b: BitVec)
    returns (r: Result<seq<PublicKey>, VerifyError>)
    ensures r == match VotersVerdict(v, b) case Ok(ones) => Ok(KeysAt(v, ones)) case Err(e) => Err(e)
  {
    var fits := CheckNumOfVoters(|v.infos| % U16_MODULUS, b);
    if fits.Err? {
      return Err(fits.error);
    }
    var ones := IterOnes(b);
    var authors, keys := [], [];
    for i := 0 to |ones|
      invariant InRange(v, ones[..i])
      invariant authors == AuthorsAt(v, ones[..i]) && keys == KeysAt(v, ones[..i])
    {
      if ones[i] >= |v.infos| {
        return Err(UnknownAuthor);
      }
      authors := authors + [v.infos[ones[i]].address];
      keys := keys + [v.infos[ones[i]].publicKey];
    }
    assert ones[..|ones|] == ones;
    var power := CheckVotingPower(v, authors);
    r := if power.Err? then Err(power.error) else Ok(keys);
  }

  /** Outcome of `verify_multi_signatures`: one message, every masked voter must have signed it. */
  function MultiSignatureVerdict(v: ValidatorVerifier, message: Message, agg: AggregateSignature)
    : Result<(), VerifyError>
  {
    var voters := VotersVerdict(v, agg.bitmask);
    if voters.Err? then Err(voters.error)
    else if agg.sig.None? then Err(EmptySignature)
    else if voters.value == [] then Err(FailedToAggregatePubKey)
    else if agg.sig.value.atoms
         == multiset(Pairs(KeysAt(v, voters.value), seq(|voters.value|, _ => message))) then Ok(())
    else Err(InvalidMultiSignature)
  }

  method VerifyMultiSignatures(v: ValidatorVerifier, message: Message, agg: AggregateSignature)
    returns (r: Result<(), VerifyError>)
    ensures r == MultiSignatureVerdict(v, message, agg)
  {
    var keys := CollectVoters(v, agg.bitmask);
    if keys.Err? {
      return Err(keys.error);
    }
    if agg.sig.None? {
      return Err(EmptySignature);
    }
    if keys.value == [] {
      return Err(FailedToAggregatePubKey);
    }
    var expected := Pairs(keys.value, seq(|keys.value|, _ => message));
    r := if agg.sig.value.atoms == multiset(expected) then Ok(()) else Err(InvalidMultiSignature);
  }

  /** Outcome of `verify_aggregate_signatures`: one message per masked voter, in mask order. */
  function AggregateVerdict(v: ValidatorVerifier, messages: seq<Message>, agg: AggregateSignature)
    : Result<(), VerifyError>
  {
    var voters := VotersVerdict(v, agg.bitmask);
    if voters.Err? then Err(voters.error)
    else if agg.sig.None? then Err(EmptySignature)
    else if |messages| != |voters.value| || messages == [] then Err(InvalidAggregatedSignature)
    else if agg.sig.value.atoms == multiset(Pairs(KeysAt(v, voters.value), messages)) then Ok(())
    else Err(InvalidAggregatedSignature)
  }

  method VerifyAggregateSignatures(v: ValidatorVerifier, messages: seq<Message>, agg: AggregateSignature)
    returns (r: Result<(), VerifyError>)
    ensures r == AggregateVerdict(v, messages, agg)
  {
    var keys := CollectVoters(v, agg.bitmask);
    if keys.Err? {
      return Err(keys.error);
    }
    if agg.sig.None? {
      return Err(EmptySignature);
    }
    if |messages| != |keys.value| || messages == [] {
      return Err(InvalidAggregatedSignature);
    }
    var expected := Pairs(keys.value, messages);
    r := if agg.sig.value.atoms == multiset(expected) then Ok(()) else Err(InvalidAggregatedSignature);
  }

  function VotersBelow(b: BitVec, addresses: seq<Author>, n: nat): seq<Author>
    requires n <= |addresses|
  {
    if n == 0 then []
    else VotersBelow(b, addresses, n - 1)
         + if IsSet(b, (n - 1) % U16_MODULUS) then [addresses[n - 1]] else []
  }

  /** `get_voter_addresses`: the addresses whose position is set. */
  function GetVoterAddresses(b: BitVec, addresses: seq<Author>): seq<Author> {
    VotersBelow(b, addresses, |addresses|)
  }

  function OrderedAddresses(v: ValidatorVerifier): seq<Author> {
    seq(|v.infos|, k requires 0 <= k < |v.infos| => v.infos[k].address)
  }

  // What a verified aggregate means

  /** Voters named by a mask. */
  ghost function Voters(v: ValidatorVerifier, b: BitVec): set<Author> {
    set i | 0 <= i < |v.infos| && IsSet(b, i) :: v.infos[i].address
  }

  lemma OnesAreVoters(v: ValidatorVerifier, b: BitVec)
    requires WellFormed(v) && InRange(v, IterOnes(b))
    ensures NoDuplicates(AuthorsAt(v, IterOnes(b))) && SetOf(AuthorsAt(v, IterOnes(b))) == Voters(v, b)
  {
    var ones := IterOnes(b);
    var authors := AuthorsAt(v, ones);
    OnesBelowAscending(b, BUCKET_SIZE * |b.inner|);
    forall a | a in Voters(v, b) ensures a in authors {
      var i :| 0 <= i < |v.infos| && IsSet(b, i) && v.infos[i].address == a;
      IterOnesMembers(b, i);
      var k :| 0 <= k < |ones| && ones[k] == i;
      assert authors[k] == a;
    }
    forall k | 0 <= k < |authors| ensures authors[k] in Voters(v, b) {
      IterOnesMembers(b, ones[k]);
    }
  }

  lemma VotersHoldQuorum(v: ValidatorVerifier, b: BitVec)
    requires WellFormed(v) && VotersVerdict(v, b).Ok?
    ensures PowerOf(v.infos, Voters(v, b)) >= v.quorum
  {
    var ones := IterOnes(b);
    OnesAreVoters(v, b);
    VerdictOfDistinctAuthors(v, AuthorsAt(v, ones));
  }

  /** Soundness: a verified multi-signature carries a quorum, each of whose members signed `message`. */
  lemma MultiSignatureSound(v: ValidatorVerifier, message: Message, agg: AggregateSignature)
    requires WellFormed(v) && MultiSignatureVerdict(v, message, agg).Ok?
    ensures agg.sig.Some? && PowerOf(v.infos, Voters(v, agg.bitmask)) >= v.quorum
    ensures forall i :: 0 <= i < |v.infos| && IsSet(agg.bitmask, i) ==>
              Atom(v.infos[i].publicKey, message) in agg.sig.value.atoms
  {
    VotersHoldQuorum(v, agg.bitmask);
    var ones := IterOnes(agg.bitmask);
    var pairs := Pairs(KeysAt(v, ones), seq(|ones|, _ => message));
    forall i | 0 <= i < |v.infos| && IsSet(agg.bitmask, i)
      ensures Atom(v.infos[i].publicKey, message) in agg.sig.value.atoms
    {
      IterOnesMembers(agg.bitmask, i);
      var k :| 0 <= k < |ones| && ones[k] == i;
      assert pairs[k] == Atom(v.infos[i].publicKey, message);
      assert pairs[k] in multiset(pairs);
    }
  }

  /** The same with one message per voter: the voter at each set position signed the message at its rank. */
  lemma AggregateSound(v: ValidatorVerifier, messages: seq<Message>, agg: AggregateSignature)
    requires WellFormed(v) && AggregateVerdict(v, messages, agg).Ok?
    ensures agg.sig.Some? && PowerOf(v.infos, Voters(v, agg.bitmask)) >= v.quorum
    ensures var ones := IterOnes(agg.bitmask);
      && |messages| == |ones| && InRange(v, ones)
      && forall k :: 0 <= k < |ones| ==> Atom(v.infos[ones[k]].publicKey, messages[k]) in agg.sig.value.atoms
    ensures forall i :: 0 <= i < |v.infos| && IsSet(agg.bitmask, i) ==>
              exists k :: 0 <= k < |messages| && Atom(v.infos[i].publicKey, messages[k]) in agg.sig.value.atoms
  {
    hide IsSet, PowerOf;
    VotersHoldQuorum(v, agg.bitmask);
    var ones := IterOnes(agg.bitmask);
    var pairs := Pairs(KeysAt(v, ones), messages);
    forall k | 0 <= k < |ones| ensures Atom(v.infos[ones[k]].publicKey, messages[k]) in agg.sig.value.atoms {
      assert pairs[k] == Atom(v.infos[ones[k]].publicKey, messages[k]);
      assert pairs[k] in multiset(pairs);
    }
    forall i | 0 <= i < |v.infos| && IsSet(agg.bitmask, i)
      ensures exists k :: 0 <= k < |messages| && Atom(v.infos[i].publicKey, messages[k]) in agg.sig.value.atoms
    {
      IterOnesMembers(agg.bitmask, i);
      var k :| 0 <= k < |ones| && ones[k] == i;
    }
  }

  /** Every signature bundled in a verified aggregate is one of a masked voter on a message of the list. */
  lemma AggregatedAtom(v: ValidatorVerifier, messages: seq<Message>, agg: AggregateSignature, a: Atom)
    returns (i: nat, k: nat)
    requires AggregateVerdict(v, messages, agg).Ok? && a in agg.sig.value.atoms
    ensures i < |v.infos| && k < |messages| && a == Atom(v.infos[i].publicKey, messages[k])
  {
    hide IsSet, PowerOf;
    var ones := IterOnes(agg.bitmask);
    var pairs := Pairs(KeysAt(v, ones), messages);
    assert a in multiset(pairs);
    k :| 0 <= k < |pairs| && pairs[k] == a;
    i := ones[k];
  }

  // Aggregation round trip

  lemma {:induction false} MasksOverBits(v: ValidatorVerifier, keys: seq<Author>, i: nat)
    requires WellFormed(v) && AllKnown(v, keys)
    ensures IsSet(MasksOver(v, keys), i) <==> i < |v.infos| && v.infos[i].address in keys
    ensures |MasksOver(v, keys).inner| == RequiredBuckets(|v.infos|)
  {
    hide IsSet, Set, Index;
    if keys == [] {
      FreshHasNoBits(|v.infos| % U16_MODULUS, i);
    } else {
      var n := |keys| - 1;
      var pos := Index(v.infos)[keys[n]];
      MasksOverBits(v, keys[..n], i);
      SetAddsOnePosition(MasksOver(v, keys[..n]), pos, i);
      assert pos / BUCKET_SIZE + 1 <= RequiredBuckets(|v.infos|);
      if i < |v.infos| && v.infos[i].address == keys[n] {
        IndexOfAddress(v, i);
      }
    }
  }

  /** The mask of an aggregate names exactly the map's keys and fits the validator count. */
  lemma MaskRoundTrip(v: ValidatorVerifier, sigs: map<Author, Signature>)
    requires WellFormed(v) && Aggregated(v, sigs).Ok?
    ensures Voters(v, Aggregated(v, sigs).value.bitmask) == sigs.Keys
    ensures CheckNumOfVoters(|v.infos|, Aggregated(v, sigs).value.bitmask).Ok?
    ensures InRange(v, IterOnes(Aggregated(v, sigs).value.bitmask))
  {
    hide IsSet, Set, LastSetBit, IterOnes, MasksOver;
    var keys := SortedKeys(sigs.Keys);
    var b := MasksOver(v, keys);
    forall i: nat ensures IsSet(b, i) <==> i < |v.infos| && v.infos[i].address in keys {
      MasksOverBits(v, keys, i);
    }
    MasksOverBits(v, keys, 0);
    LastSetBitIsGreatest(b, 0);
    var ones := IterOnes(b);
    forall k | 0 <= k < |ones| ensures ones[k] < |v.infos| {
      IterOnesMembers(b, ones[k]);
    }
    forall a | a in sigs.Keys ensures a in Voters(v, b) {
      assert a in SetOf(keys);
      var k :| 0 <= k < |keys| && keys[k] == a;
      assert a in Index(v.infos);
      assert v.infos[Index(v.infos)[a]].address == a;
    }
    forall a | a in Voters(v, b) ensures a in sigs.Keys {
      assert a in SetOf(keys);
    }
  }

  lemma {:induction false} AtomsRemove(keys: seq<Author>, sigs: map<Author, Signature>, j: nat)
    requires forall k :: 0 <= k < |keys| ==> keys[k] in sigs
    requires j < |keys|
    ensures AtomsOver(keys, sigs) == AtomsOver(keys[..j] + keys[j + 1..], sigs) + sigs[keys[j]].atoms
  {
    var n := |keys| - 1;
    var rest := keys[..j] + keys[j + 1..];
    if j == n {
      assert rest == keys[..n];
    } else {
      AtomsRemove(keys[..n], sigs, j);
      assert rest[..|rest| - 1] == keys[..n][..j] + keys[..n][j + 1..];
    }
  }

  lemma {:induction false} AtomsPermuted(s: seq<Author>, t: seq<Author>, sigs: map<Author, Signature>)
    requires NoDuplicates(s) && NoDuplicates(t) && SetOf(s) == SetOf(t)
    requires forall k :: 0 <= k < |s| ==> s[k] in sigs
    requires forall k :: 0 <= k < |t| ==> t[k] in sigs
    ensures AtomsOver(s, sigs) == AtomsOver(t, sigs)
  {
    if s == [] {
      NonEmptySetOf(t);
    } else {
      var n := |s| - 1;
      assert s[n] in SetOf(t);
      var j :| 0 <= j < |t| && t[j] == s[n];
      var rest := t[..j] + t[j + 1..];
      assert SetOf(s[..n]) == SetOf(s) - {s[n]};
      assert SetOf(rest) == SetOf(t) - {t[j]} by {
        forall x | x in SetOf(t) - {t[j]} ensures x in rest {
          var k :| 0 <= k < |t| && t[k] == x;
          assert if k < j then rest[k] == x else rest[k - 1] == x;
        }
      }
      AtomsPermuted(s[..n], rest, sigs);
      AtomsRemove(t, sigs, j);
    }
  }

  lemma {:induction false} AtomsAreSingles(keys: seq<Author>, sigs: map<Author, Signature>, atoms: seq<Atom>)
    requires |keys| == |atoms|
    requires forall k :: 0 <= k < |keys| ==> keys[k] in sigs && sigs[keys[k]].atoms == multiset{atoms[k]}
    ensures AtomsOver(keys, sigs) == multiset(atoms)
  {
    if keys != [] {
      var n := |keys| - 1;
      AtomsAreSingles(keys[..n], sigs, atoms[..n]);
      assert atoms == atoms[..n] + [atoms[n]];
    }
  }

  lemma AtomsOfSingles(v: ValidatorVerifier, ones: seq<nat>, messages: seq<Message>, sigs: map<Author, Signature>)
    requires InRange(v, ones) && |messages| == |ones|
    requires forall k :: 0 <= k < |ones| ==>
      v.infos[ones[k]].address in sigs
      && sigs[v.infos[ones[k]].address] == Sign(v.infos[ones[k]].publicKey, messages[k])
    ensures AtomsOver(AuthorsAt(v, ones), sigs) == multiset(Pairs(KeysAt(v, ones), messages))
  {
    AtomsAreSingles(AuthorsAt(v, ones), sigs, Pairs(KeysAt(v, ones), messages));
  }

  /** Completeness: aggregating one valid signature per masked voter makes an aggregate whose bag is
      the expected one. */
  lemma AggregatedAtoms(v: ValidatorVerifier, sigs: map<Author, Signature>, messages: seq<Message>)
    requires WellFormed(v) && Aggregated(v, sigs).Ok?
    requires var ones := IterOnes(Aggregated(v, sigs).value.bitmask);
      InRange(v, ones) && |messages| == |ones|
      && forall k :: 0 <= k < |ones| ==>
           v.infos[ones[k]].address in sigs
           && sigs[v.infos[ones[k]].address] == Sign(v.infos[ones[k]].publicKey, messages[k])
    ensures var ones := IterOnes(Aggregated(v, sigs).value.bitmask);
      Aggregated(v, sigs).value.sig.Some?
      && Aggregated(v, sigs).value.sig.value.atoms == multiset(Pairs(KeysAt(v, ones), messages))
  {
    hide IsSet, Set, LastSetBit, IterOnes, MasksOver, Index, SortedKeys;
    var b := Aggregated(v, sigs).value.bitmask;
    var ones := IterOnes(b);
    MaskRoundTrip(v, sigs);
    OnesAreVoters(v, b);
    var keys := SortedKeys(sigs.Keys);
    assert forall k :: 0 <= k < |keys| ==> keys[k] in SetOf(keys);
    AtomsPermuted(keys, AuthorsAt(v, ones), sigs);
    AtomsOfSingles(v, ones, messages, sigs);
  }

  lemma AggregatedVoters(v: ValidatorVerifier, sigs: map<Author, Signature>)
    requires WellFormed(v) && Aggregated(v, sigs).Ok?
    requires PowerOf(v.infos, sigs.Keys) >= v.quorum
    ensures VotersVerdict(v, Aggregated(v, sigs).value.bitmask)
         == Ok(IterOnes(Aggregated(v, sigs).value.bitmask))
  {
    hide IsSet, Set, LastSetBit, IterOnes, MasksOver, Index, SortedKeys, AtomsOver;
    var b := Aggregated(v, sigs).value.bitmask;
    MaskRoundTrip(v, sigs);
    OnesAreVoters(v, b);
    VerdictOfDistinctAuthors(v, AuthorsAt(v, IterOnes(b)));
  }

  /** Every position of the mask of an aggregate holds a signer of the map. */
  lemma MaskedAreSigners(v: ValidatorVerifier, sigs: map<Author, Signature>, k: nat)
    requires WellFormed(v) && Aggregated(v, sigs).Ok?
    requires k < |IterOnes(Aggregated(v, sigs).value.bitmask)|
    ensures var i := IterOnes(Aggregated(v, sigs).value.bitmask)[k];
      i < |v.infos| && v.infos[i].address in sigs
      && GetPublicKey(v, v.infos[i].address) == Some(v.infos[i].publicKey)
  {
    hide IsSet, Set, LastSetBit, IterOnes, MasksOver, SortedKeys, AtomsOver, Aggregated;
    var b := Aggregated(v, sigs).value.bitmask;
    var ones := IterOnes(b);
    MaskRoundTrip(v, sigs);
    OnesAreVoters(v, b);
    assert AuthorsAt(v, ones)[k] in SetOf(AuthorsAt(v, ones));
    IndexOfAddress(v, ones[k]);
  }

  lemma KnownKeysAggregate(v: ValidatorVerifier, sigs: map<Author, Signature>)
    requires sigs.Keys <= Addresses(v.infos) && sigs != map[]
    ensures Aggregated(v, sigs).Ok?
  {
    hide MasksOver, AtomsOver;
    var keys := SortedKeys(sigs.Keys);
    assert forall k :: 0 <= k < |keys| ==> keys[k] in SetOf(keys);
  }

  lemma AggregateIsNotEmpty(v: ValidatorVerifier, sigs: map<Author, Signature>)
    requires WellFormed(v) && Aggregated(v, sigs).Ok?
    ensures IterOnes(Aggregated(v, sigs).value.bitmask) != []
  {
    hide IsSet, Set, LastSetBit, IterOnes, MasksOver, AtomsOver;
    var b := Aggregated(v, sigs).value.bitmask;
    var keys := SortedKeys(sigs.Keys);
    MaskRoundTrip(v, sigs);
    OnesAreVoters(v, b);
    assert keys[0] in SetOf(keys);
    assert keys[0] in SetOf(AuthorsAt(v, IterOnes(b)));
  }

  /** Round trip: valid signatures of one message by a quorum aggregate to something that verifies. */
  lemma MultiSignatureRoundTrip(v: ValidatorVerifier, sigs: map<Author, Signature>, message: Message)
    requires WellFormed(v) && sigs.Keys <= Addresses(v.infos) && sigs != map[]
    requires PowerOf(v.infos, sigs.Keys) >= v.quorum
    requires forall a :: a in sigs ==> sigs[a] == Sign(GetPublicKey(v, a).value, message)
    ensures Aggregated(v, sigs).Ok?
    ensures MultiSignatureVerdict(v, message, Aggregated(v, sigs).value) == Ok(())
  {
    hide IsSet, Set, LastSetBit, IterOnes, MasksOver, Index, SortedKeys, AtomsOver, PowerOf, VotersVerdict;
    KnownKeysAggregate(v, sigs);
    var agg := Aggregated(v, sigs).value;
    var ones := IterOnes(agg.bitmask);
    AggregatedVoters(v, sigs);
    AggregateIsNotEmpty(v, sigs);
    forall k | 0 <= k < |ones|
      ensures v.infos[ones[k]].address in sigs
      ensures sigs[v.infos[ones[k]].address] == Sign(v.infos[ones[k]].publicKey, message)
    {
      MaskedAreSigners(v, sigs, k);
    }
    AggregatedAtoms(v, sigs, seq(|ones|, _ => message));
  }

  lemma {:induction false} VotersBelowIsAuthorsAt(v: ValidatorVerifier, b: BitVec, n: nat)
    requires WellFormed(v) && n <= |v.infos|
    ensures InRange(v, OnesBelow(b, n))
    ensures VotersBelow(b, OrderedAddresses(v), n) == AuthorsAt(v, OnesBelow(b, n))
  {
    hide IsSet;
    if n > 0 {
      VotersBelowIsAuthorsAt(v, b, n - 1);
    }
  }

  lemma {:induction false} OnesBelowStops(b: BitVec, n: nat, m: nat)
    requires n <= m && forall i :: n <= i < m ==> !IsSet(b, i)
    ensures OnesBelow(b, m) == OnesBelow(b, n)
  {
    hide IsSet;
    if n < m {
      OnesBelowStops(b, n, m - 1);
    }
  }

  /** `get_voter_addresses` lists the addresses at the set positions, in position order. */
  lemma VoterAddressesInOrder(v: ValidatorVerifier, b: BitVec)
    requires WellFormed(v) && CheckNumOfVoters(|v.infos|, b).Ok? && InRange(v, IterOnes(b))
    ensures GetVoterAddresses(b, OrderedAddresses(v)) == AuthorsAt(v, IterOnes(b))
  {
    hide IsSet;
    var n, m := |v.infos|, BUCKET_SIZE * |b.inner|;
    VotersBelowIsAuthorsAt(v, b, n);
    forall i | n <= i < m ensures !IsSet(b, i) {
      IterOnesMembers(b, i);
      assert forall k :: 0 <= k < |IterOnes(b)| ==> IterOnes(b)[k] < n;
    }
    OnesBelowStops(b, n, m);
  }

  lemma {:induction false} VotersBelowMembers(v: ValidatorVerifier, b: BitVec, n: nat)
    requires WellFormed(v) && n <= |v.infos|
    ensures NoDuplicates(VotersBelow(b, OrderedAddresses(v), n))
    ensures forall a :: a in VotersBelow(b, OrderedAddresses(v), n)
              <==> exists i :: 0 <= i < n && IsSet(b, i) && v.infos[i].address == a
  {
    if n > 0 {
      VotersBelowMembers(v, b, n - 1);
      var before := VotersBelow(b, OrderedAddresses(v), n - 1);
      forall k | 0 <= k < |before| ensures before[k] != v.infos[n - 1].address {
        assert before[k] in before;
      }
    }
  }

  /** `get_voter_addresses` lists each masked voter once. */
  lemma VoterAddressesAreVoters(v: ValidatorVerifier, b: BitVec)
    requires WellFormed(v)
    ensures NoDuplicates(GetVoterAddresses(b, OrderedAddresses(v)))
    ensures SetOf(GetVoterAddresses(b, OrderedAddresses(v))) == Voters(v, b)
  {
    VotersBelowMembers(v, b, |v.infos|);
  }

  // One encoding

  /** Verified masks that name the same voters are equal. */
  lemma MaskIsUnique(v: ValidatorVerifier, a: BitVec, b: BitVec)
    requires WellFormed(v) && VotersVerdict(v, a).Ok? && VotersVerdict(v, b).Ok? && Voters(v, a) == Voters(v, b)
    ensures a == b
  {
    hide LastSetBit, IterOnes, VotingPowerVerdict;
    forall q: nat ensures IsSet(a, q) <==> IsSet(b, q) {
      SetIsVoter(v, a, q);
      SetIsVoter(v, b, q);
    }
    SamePositions(a, b);
  }

  lemma SetIsVoter(v: ValidatorVerifier, b: BitVec, q: nat)
    requires WellFormed(v) && VotersVerdict(v, b).Ok?
    ensures IsSet(b, q) <==> q < |v.infos| && v.infos[q].address in Voters(v, b)
  {
    hide LastSetBit, IterOnes, VotingPowerVerdict, IsSet;
    IterOnesMembers(b, q);
    if IsSet(b, q) {
      var k :| 0 <= k < |IterOnes(b)| && IterOnes(b)[k] == q;
    }
    if q < |v.infos| && v.infos[q].address in Voters(v, b) {
      var i :| 0 <= i < |v.infos| && IsSet(b, i) && v.infos[i].address == v.infos[q].address;
      assert i == q;
    }
  }

  /** A message and its signers have one aggregate that verifies. */
  lemma AggregateIsUnique(v: ValidatorVerifier, message: Message, x: AggregateSignature, y: AggregateSignature)
    requires WellFormed(v) && Voters(v, x.bitmask) == Voters(v, y.bitmask)
    requires MultiSignatureVerdict(v, message, x).Ok? && MultiSignatureVerdict(v, message, y).Ok?
    ensures x == y
  {
    hide VotersVerdict, Voters;
    MaskIsUnique(v, x.bitmask, y.bitmask);
  }
}
