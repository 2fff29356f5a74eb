/** From a set of signatures to a de-duplicated list of identities, and from there to a verdict. */
module SignedIdentities {
  import opened Common
  import opened SignaturePolicies

  /** The de-duplication key: the two parts of the identifier run together. */
  function IdentityKey(id: Identity): string {
    id.mspid + id.id
  }

  /** The signature's identity deserializes and the signature verifies for it. */
  predicate Verified(msp: Msp, sd: SignedData) {
    msp.deserialize(sd.identity).Some? && msp.verify(msp.deserialize(sd.identity).value, sd.data, sd.signature)
  }

  function IdentityOf(msp: Msp, sd: SignedData): Identity
    requires Verified(msp, sd)
  {
    msp.deserialize(sd.identity).value
  }

  /** The first verified signature with its key. */
  predicate IsKept(msp: Msp, signed: seq<SignedData>, i: nat)
    requires i < |signed|
  {
    && Verified(msp, signed[i])
    && forall j | 0 <= j < i ::
         Verified(msp, signed[j]) ==> IdentityKey(IdentityOf(msp, signed[j])) != IdentityKey(IdentityOf(msp, signed[i]))
  }

  /** The positions, in order, of the signatures that are kept. */
  function KeptPositions(msp: Msp, signed: seq<SignedData>, n: nat): (r: seq<nat>)
    requires n <= |signed|
    ensures forall k | 0 <= k < |r| :: r[k] < n && IsKept(msp, signed, r[k])
    ensures forall k, l | 0 <= k < l < |r| :: r[k] < r[l]
    ensures forall i | 0 <= i < n && IsKept(msp, signed, i) :: i in r
  {
    if n == 0 then []
    else KeptPositions(msp, signed, n - 1) + if IsKept(msp, signed, n - 1) then [n - 1] else []
  }

  function Positions(msp: Msp, signed: seq<SignedData>): seq<nat> {
    KeptPositions(msp, signed, |signed|)
  }

  /** The identities of the kept signatures, in order. */
  function ValidIdentities(msp: Msp, signed: seq<SignedData>): (r: seq<Identity>)
    ensures |r| == |Positions(msp, signed)|
  {
    var p := Positions(msp, signed);
    seq(|p|, k requires 0 <= k < |p| => IdentityOf(msp, signed[p[k]]))
  }

  /** One of the first `i` signatures is verified and has the key. */
  predicate KeySeen(msp: Msp, signed: seq<SignedData>, i: nat, key: string)
    requires i <= |signed|
  {
    exists j | 0 <= j < i :: Verified(msp, signed[j]) && IdentityKey(IdentityOf(msp, signed[j])) == key
  }

  lemma KeySeenNext(msp: Msp, signed: seq<SignedData>, i: nat, key: string)
    requires i < |signed|
    ensures KeySeen(msp, signed, i + 1, key) <==>
              || KeySeen(msp, signed, i, key)
              || (Verified(msp, signed[i]) && IdentityKey(IdentityOf(msp, signed[i])) == key)
  {
  }

  lemma KeptWhenUnseen(msp: Msp, signed: seq<SignedData>, i: nat)
    requires i < |signed|
    ensures IsKept(msp, signed, i) <==>
              Verified(msp, signed[i]) && !KeySeen(msp, signed, i, IdentityKey(IdentityOf(msp, signed[i])))
  {
  }

  /** The identities are those kept of the first `i` signatures. */
  predicate KeptUpTo(msp: Msp, signed: seq<SignedData>, identities: seq<Identity>, i: nat)
    requires i <= |signed|
  {
    var p := KeptPositions(msp, signed, i);
    |identities| == |p| && forall k | 0 <= k < |p| :: identities[k] == IdentityOf(msp, signed[p[k]])
  }

  lemma KeptNext(msp: Msp, signed: seq<SignedData>, identities: seq<Identity>, i: nat)
    requires i < |signed| && KeptUpTo(msp, signed, identities, i)
    ensures IsKept(msp, signed, i) ==> KeptUpTo(msp, signed, identities + [IdentityOf(msp, signed[i])], i + 1)
    ensures !IsKept(msp, signed, i) ==> KeptUpTo(msp, signed, identities, i + 1)
  {
    hide IsKept;
  }

  lemma KeptAtEnds(msp: Msp, signed: seq<SignedData>, identities: seq<Identity>)
    ensures KeptUpTo(msp, signed, [], 0)
    ensures KeptUpTo(msp, signed, identities, |signed|) ==> identities == ValidIdentities(msp, signed)
    ensures forall key :: !KeySeen(msp, signed, 0, key)
  {
    hide IsKept;
  }

  method SignatureSetToValidIdentities(msp: Msp, signed: seq<SignedData>) returns (identities: seq<Identity>)
    ensures identities == ValidIdentities(msp, signed)
  {
    hide KeySeen, KeptUpTo, IsKept, IdentityKey, ValidIdentities;
    var idMap: set<string> := {};
    identities := [];
    KeptAtEnds(msp, signed, identities);
    for i := 0 to |signed|
      invariant forall key :: key in idMap <==> KeySeen(msp, signed, i, key)
      invariant KeptUpTo(msp, signed, identities, i)
    {
      ghost var next := i + 1;
      forall key
        ensures KeySeen(msp, signed, next, key) <==>
                  || key in idMap
                  || (Verified(msp, signed[i]) && IdentityKey(IdentityOf(msp, signed[i])) == key)
      {
        KeySeenNext(msp, signed, i, key);
      }
      KeptWhenUnseen(msp, signed, i);
      KeptNext(msp, signed, identities, i);
      var identity := msp.deserialize(signed[i].identity);
      if identity.None? {
        continue;
      }
      var key := IdentityKey(identity.value);
      if key in idMap {
        continue;
      }
      if !msp.verify(identity.value, signed[i].data, signed[i].signature) {
        continue;
      }
      idMap := idMap + {key};
      identities := identities + [identity.value];
    }
    KeptAtEnds(msp, signed, identities);
  }

  /** No two identities of the list have the same identifier. */
  lemma IdentifiersAreDistinct(msp: Msp, signed: seq<SignedData>, k: nat, l: nat)
    requires k < l < |ValidIdentities(msp, signed)|
    ensures var ids := ValidIdentities(msp, signed); (ids[k].mspid, ids[k].id) != (ids[l].mspid, ids[l].id)
  {
    var p := Positions(msp, signed);
    assert p[k] < p[l] && IsKept(msp, signed, p[k]) && IsKept(msp, signed, p[l]);
  }

  lemma FirstOfItsKey(msp: Msp, signed: seq<SignedData>, i: nat) returns (j: nat)
    requires i < |signed| && Verified(msp, signed[i])
    ensures j <= i && IsKept(msp, signed, j)
    ensures IdentityKey(IdentityOf(msp, signed[j])) == IdentityKey(IdentityOf(msp, signed[i]))
    decreases i
  {
    if IsKept(msp, signed, i) {
      j := i;
    } else {
      var h :| 0 <= h < i && Verified(msp, signed[h])
               && IdentityKey(IdentityOf(msp, signed[h])) == IdentityKey(IdentityOf(msp, signed[i]));
      j := FirstOfItsKey(msp, signed, h);
    }
  }

  /** No verified signer is lost: its key is in the list, whatever precedes or follows it. */
  lemma EveryVerifiedKeyIsListed(msp: Msp, signed: seq<SignedData>, i: nat)
    requires i < |signed| && Verified(msp, signed[i])
    ensures exists k :: 0 <= k < |ValidIdentities(msp, signed)|
                        && IdentityKey(ValidIdentities(msp, signed)[k]) == IdentityKey(IdentityOf(msp, signed[i]))
  {
    var j := FirstOfItsKey(msp, signed, i);
    var p := Positions(msp, signed);
    var k :| 0 <= k < |p| && p[k] == j;
    assert ValidIdentities(msp, signed)[k] == IdentityOf(msp, signed[j]);
  }

  predicate SameIdentifier(a: Identity, b: Identity) {
    a.mspid == b.mspid && a.id == b.id
  }

  /** Ids of one length, as one hash function makes them, share a key only with their own identifier. */
  lemma KeysOfOneLength(a: Identity, b: Identity)
    requires |a.id| == |b.id|
    ensures IdentityKey(a) == IdentityKey(b) <==> SameIdentifier(a, b)
  {
    if IdentityKey(a) == IdentityKey(b) {
      var n := |a.mspid|;
      assert |b.mspid| == n;
      assert a.mspid == IdentityKey(a)[..n] && a.id == IdentityKey(a)[n..];
      assert b.mspid == IdentityKey(b)[..n] && b.id == IdentityKey(b)[n..];
    }
  }

  /** Signature `h` is verified and has the key of signature `i` under another identifier. */
  predicate Shadows(msp: Msp, signed: seq<SignedData>, h: nat, i: nat)
    requires h < |signed| && i < |signed| && Verified(msp, signed[i])
  {
    && Verified(msp, signed[h])
    && IdentityKey(IdentityOf(msp, signed[h])) == IdentityKey(IdentityOf(msp, signed[i]))
    && !SameIdentifier(IdentityOf(msp, signed[h]), IdentityOf(msp, signed[i]))
  }

  /** The signer signs at `j` and nobody before it has its key under another identifier. */
  predicate FirstUnshadowed(msp: Msp, signed: seq<SignedData>, j: nat, i: nat)
    requires j < |signed| && i < |signed| && Verified(msp, signed[i])
  {
    && Verified(msp, signed[j]) && SameIdentifier(IdentityOf(msp, signed[j]), IdentityOf(msp, signed[i]))
    && forall h | 0 <= h < j :: !Shadows(msp, signed, h, i)
  }

  ghost predicate Listed(msp: Msp, signed: seq<SignedData>, id: Identity) {
    exists k :: 0 <= k < |ValidIdentities(msp, signed)| && SameIdentifier(ValidIdentities(msp, signed)[k], id)
  }

  /**
   A verified signer is listed under its own identifier exactly if, where it first signs, nobody
   before it has its key under another identifier.
   */
  lemma ListedExactlyWhen(msp: Msp, signed: seq<SignedData>, i: nat)
    requires i < |signed| && Verified(msp, signed[i])
    ensures Listed(msp, signed, IdentityOf(msp, signed[i]))
       <==> exists j :: 0 <= j <= i && FirstUnshadowed(msp, signed, j, i)
  {
    var ids, p := ValidIdentities(msp, signed), Positions(msp, signed);
    var id := IdentityOf(msp, signed[i]);
    if j :| 0 <= j <= i && FirstUnshadowed(msp, signed, j, i) {
      var first := FirstOfItsKey(msp, signed, j);
      assert first < j ==> !Shadows(msp, signed, first, i);
      var k :| 0 <= k < |p| && p[k] == first;
      assert SameIdentifier(ids[k], id);
    }
    if Listed(msp, signed, id) {
      var k :| 0 <= k < |ids| && SameIdentifier(ids[k], id);
      assert IsKept(msp, signed, p[k]);
      assert FirstUnshadowed(msp, signed, p[k], i);
    }
  }

  /** Under one hash function no verified signer is left out. */
  lemma ListedUnderOneHash(msp: Msp, signed: seq<SignedData>, i: nat)
    requires i < |signed| && Verified(msp, signed[i])
    requires forall h | 0 <= h < |signed| && Verified(msp, signed[h]) ::
               |IdentityOf(msp, signed[h]).id| == |IdentityOf(msp, signed[i]).id|
    ensures Listed(msp, signed, IdentityOf(msp, signed[i]))
  {
    forall h | 0 <= h < i ensures !Shadows(msp, signed, h, i) {
      if Verified(msp, signed[h]) { KeysOfOneLength(IdentityOf(msp, signed[h]), IdentityOf(msp, signed[i])); }
    }
    assert FirstUnshadowed(msp, signed, i, i);
    ListedExactlyWhen(msp, signed, i);
  }

  /**
   Under two hash functions one can be: an id of 96 digits and, in an MSP whose name continues
   with the first 32 of them, the id of the other 64. Whoever signs second is dropped.
   */
  lemma TwoHashesCanCollide(msp: Msp, name: string, digest: string, signed: seq<SignedData>)
    requires |digest| == 96 && |signed| == 2 && Verified(msp, signed[0]) && Verified(msp, signed[1])
    requires SameIdentifier(IdentityOf(msp, signed[0]), Identity(name, digest, ""))
    requires SameIdentifier(IdentityOf(msp, signed[1]), Identity(name + digest[..32], digest[32..], ""))
    ensures |IdentityOf(msp, signed[1]).id| == 64
    ensures ValidIdentities(msp, signed) == [IdentityOf(msp, signed[0])]
    ensures !Listed(msp, signed, IdentityOf(msp, signed[1]))
  {
    assert digest == digest[..32] + digest[32..];
    assert name + digest == (name + digest[..32]) + digest[32..];
    assert IsKept(msp, signed, 0) && !IsKept(msp, signed, 1);
    assert KeptPositions(msp, signed, 1) == [0] && KeptPositions(msp, signed, 2) == [0];
  }

  // ---------------------------------------------------------------------- verdicts

  function Unused(n: nat): (r: seq<bool>)
    ensures |r| == n
  {
    seq(n, _ => false)
  }

  predicate AcceptsIdentities(msp: Msp, policy: Option<Compiled>, ids: seq<Identity>) {
    policy.Some? && Evaluate(msp, policy.value, ids, Unused(|ids|)).ok
  }

  predicate AcceptsSignedData(msp: Msp, policy: Option<Compiled>, signed: seq<SignedData>) {
    AcceptsIdentities(msp, policy, ValidIdentities(msp, signed))
  }

  method EvaluateIdentities(msp: Msp, policy: Option<Compiled>, ids: seq<Identity>) returns (ok: bool)
    ensures ok == AcceptsIdentities(msp, policy, ids)
    ensures policy.None? ==> !ok
  {
    if policy.None? {
      return false;
    }
    var used := new bool[|ids|](_ => false);
    assert used[..] == Unused(|ids|);
    ok := EvaluateInPlace(msp, policy.value, ids, used);
  }

  method EvaluateSignedData(msp: Msp, policy: Option<Compiled>, signed: seq<SignedData>) returns (ok: bool)
    ensures ok == AcceptsSignedData(msp, policy, signed)
  {
    if policy.None? {
      return false;
    }
    var ids := SignatureSetToValidIdentities(msp, signed);
    ok := EvaluateIdentities(msp, policy, ids);
  }

  /** Identity `s` of the list comes from a verified signature of the set. */
  ghost predicate SignedAt(msp: Msp, signed: seq<SignedData>, ids: seq<Identity>, s: nat, position: nat) {
    s < |ids| && position < |signed| &&
    var sd := signed[position];
    msp.deserialize(sd.identity) == Some(ids[s]) && msp.verify(ids[s], sd.data, sd.signature)
  }

  /** A satisfying part of the policy whose leaves are held by different, verified signers. */
  ghost predicate WitnessedBySigners(msp: Msp, c: Compiled, signed: seq<SignedData>, ids: seq<Identity>, w: Witness) {
    && Supports(msp, w, c, ids)
    && NoRepeats(Signers(w))
    && (forall s | s in Signers(w) :: exists position :: SignedAt(msp, signed, ids, s, position))
    && (forall s, t | s in Signers(w) && t in Signers(w) && s != t ::
          s < |ids| && t < |ids| && (ids[s].mspid, ids[s].id) != (ids[t].mspid, ids[t].id))
  }

  /**
   An accepted signature set contains, for some satisfying part of the policy tree, a different
   verified signer for each of its leaves.
   */
  lemma AcceptedSetIsWitnessed(msp: Msp, c: Compiled, signed: seq<SignedData>)
    requires AcceptsSignedData(msp, Some(c), signed)
    ensures exists w :: WitnessedBySigners(msp, c, signed, ValidIdentities(msp, signed), w)
  {
    var ids := ValidIdentities(msp, signed);
    AcceptanceIsWitnessed(msp, c, ids, Unused(|ids|));
    var w := WitnessOf(msp, c, ids, Unused(|ids|));
    forall s | s in Signers(w) ensures exists position :: SignedAt(msp, signed, ids, s, position) {
      assert SignedAt(msp, signed, ids, s, Positions(msp, signed)[s]);
    }
    forall s, t | s in Signers(w) && t in Signers(w) && s != t
      ensures s < |ids| && t < |ids| && (ids[s].mspid, ids[s].id) != (ids[t].mspid, ids[t].id)
    {
      if s < t {
        IdentifiersAreDistinct(msp, signed, s, t);
      } else {
        IdentifiersAreDistinct(msp, signed, t, s);
      }
    }
    assert WitnessedBySigners(msp, c, signed, ids, w);
  }

  /** Where no identity holds two leaves, the verdict is the plain threshold value. */
  lemma AcceptanceIsPlain(msp: Msp, c: Compiled, ids: seq<Identity>)
    requires OneLeafEach(msp, Principals(c), ids)
    ensures AcceptsIdentities(msp, Some(c), ids) == Plain(msp, c, ids)
  {
    GreedyIsPlain(msp, c, ids, Unused(|ids|));
  }

  /**
   The verdict over the policy as it was written: acceptance means that it is met, and where no
   identity holds two leaves exactly that.
   */
  lemma AcceptanceIsMet(msp: Msp, policy: SignaturePolicy, principals: seq<Principal>, signed: seq<SignedData>)
    requires Compile(policy, principals).Ok?
    ensures var c, ids := Compile(policy, principals).value, ValidIdentities(msp, signed);
            && (AcceptsSignedData(msp, Some(c), signed) ==> Met(msp, policy, principals, ids))
            && (OneLeafEach(msp, Principals(c), ids) ==>
                  (AcceptsSignedData(msp, Some(c), signed) <==> Met(msp, policy, principals, ids)))
  {
    hide Compile, Evaluate, Plain, Met, ValidIdentities, OneLeafEach;
    var c, ids := Compile(policy, principals).value, ValidIdentities(msp, signed);
    CompiledAsksTheSame(msp, policy, principals, ids);
    GreedyIsSound(msp, c, ids, Unused(|ids|));
    if OneLeafEach(msp, Principals(c), ids) { AcceptanceIsPlain(msp, c, ids); }
  }
}
