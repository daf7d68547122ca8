/** Spreading the change of a blinding factor over the servers of a mixnet swap
    (libwallet/src/api_impl/owner.rs, `create_mwixnet_req`). */
module Mixnet {
  import opened Wrappers
  import opened Scalars
  import opened Sums
  import opened SlateTypes
  import opened DbSpec
  import opened DbLaws
  import opened WalletDb

  /** What one server does to the commitment: add `excess*G`, subtract `fee*H`. Only the last one
      gets the range proof of the new output. */
  datatype Hop = Hop(excess: Scalar, fee: nat, proof: Option<Blob>)

  datatype Opening = Opening(blind: Scalar, value: int)

  function Excess(h: Hop): int { h.excess }
  function Fee(h: Hop): int { h.fee }

  function Apply(o: Opening, h: Hop): Opening {
    Opening(Norm(o.blind + h.excess), o.value - h.fee)
  }

  /** The commitment after the servers have acted, each in turn. */
  function ApplyAll(o: Opening, hops: seq<Hop>): Opening {
    if hops == [] then o else Apply(ApplyAll(o, hops[..|hops| - 1]), hops[|hops| - 1])
  }

  lemma {:induction false} ApplyAllSums(o: Opening, hops: seq<Hop>)
    ensures ApplyAll(o, hops) == Opening(Norm(o.blind + SumBy(hops, Excess)), o.value - SumBy(hops, Fee))
  {
    if hops == [] {
      NormScalar(o.blind);
    } else {
      var init, last := hops[..|hops| - 1], hops[|hops| - 1];
      ApplyAllSums(o, init);
      assert hops == init + [last];
      SumBySnoc(init, last, Excess);
      SumBySnoc(init, last, Fee);
      NormAdd(o.blind + SumBy(init, Excess), last.excess);
    }
  }

  lemma {:induction false} EqualFees(hops: seq<Hop>, fee: nat)
    requires forall i :: 0 <= i < |hops| ==> hops[i].fee == fee
    ensures SumBy(hops, Fee) == fee * |hops|
  {
    if hops != [] {
      EqualFees(hops[1..], fee);
      assert fee * |hops| == fee + fee * (|hops| - 1);
    }
  }

  /** One hop per server, with random excesses and what is left for the last one. `None` when the
      value does not cover the fees. */
  method CreateHops(input: Opening, newBlind: Scalar, servers: nat, fee: nat, proof: Blob, random: nat -> Scalar)
    returns (r: Option<(Opening, seq<Hop>)>)
    requires input.value >= 0
    ensures r.None? <==> input.value < fee * servers
    ensures r.Some? ==>
              var (output, hops) := r.value;
              && output == Opening(newBlind, input.value - fee * servers)
              && |hops| == servers
              && (ApplyAll(input, hops) == output <==> servers >= 1 || newBlind == input.blind)
    ensures r.Some? ==>
              forall i :: 0 <= i < servers ==>
                && r.value.1[i].fee == fee
                && (if i + 1 == servers then r.value.1[i].proof == Some(proof)
                    else r.value.1[i].proof == None && r.value.1[i].excess == random(i))
  {
    hide ApplyAll;
    if input.value < fee * servers { return None; }
    var blindSum: Scalar := Norm(newBlind - input.blind);
    var hops: seq<Hop> := [];
    assert SumBy(hops, Excess) == 0;
    NormScalar(blindSum);
    hide Norm, SumBy;
    for i := 0 to servers
      invariant |hops| == i
      invariant i < servers || servers == 0 ==> Norm(SumBy(hops, Excess) + blindSum) == Norm(newBlind - input.blind)
      invariant i == servers > 0 ==> Norm(SumBy(hops, Excess)) == Norm(newBlind - input.blind)
      invariant forall k :: 0 <= k < i ==>
        && hops[k].fee == fee
        && (if k + 1 == servers then hops[k].proof == Some(proof)
            else hops[k].proof == None && hops[k].excess == random(k))
    {
      var hop;
      if i + 1 == servers {
        hop := Hop(blindSum, fee, Some(proof));
      } else {
        hop := Hop(random(i), fee, None);
        SplitKeepsSum(SumBy(hops, Excess), blindSum, random(i));
        blindSum := Norm(blindSum - random(i));
      }
      SumBySnoc(hops, hop, Excess);
      hops := hops + [hop];
    }
    ApplyAllSums(input, hops);
    EqualFees(hops, fee);
    if servers == 0 { NothingApplied(input); }
    if servers > 0 { Reaches(input.blind, newBlind, SumBy(hops, Excess)); }
    r := Some((Opening(newBlind, input.value - fee * servers), hops));
  }

  lemma NothingApplied(o: Opening)
    ensures ApplyAll(o, []) == o
  {
  }

  /** Taking a part out of the remaining blind keeps the total. */
  lemma SplitKeepsSum(sum: int, rest: int, part: int)
    ensures Norm(sum + part + Norm(rest - part)) == Norm(sum + rest)
  {
    NormAdd(rest - part, sum + part);
  }

  lemma Reaches(from: Scalar, to: Scalar, sum: int)
    requires Norm(sum) == Norm(to - from)
    ensures Norm(from + sum) == to
  {
    NormAdd(sum, from);
    NormAdd(to - from, from);
    NormScalar(to);
  }

  /** Locking the swapped output: its record is looked up by key only, without its position. */
  method LockOutput(w: WalletBackend, keyId: KeyId) returns (r: Result<(), Error>)
    modifies w
    ensures r.Ok? <==> OutKey(keyId, None) in old(w.V()).outputs
    ensures r.Ok? ==> w.V() == Save(old(w.V()), old(w.V()).outputs[OutKey(keyId, None)].(status := Locked))
    ensures r.Err? ==> w.V() == old(w.V())
  {
    if OutKey(keyId, None) !in w.outputs { return Err(OutputNotFound); }
    var o := w.outputs[OutKey(keyId, None)];
    w.Save(o.(status := Locked));
    r := Ok(());
  }

  /** So a swap can lock the output it spends exactly when that output's record has no position: the
      records restored by a scan have one. */
  lemma LocksSwappedIff(db: Db, k: OutKey)
    requires WellKeyed(db) && k in db.outputs && db.outputs[k].status != Locked
    ensures (OutKey(k.id, None) in db.outputs
             && Save(db, db.outputs[OutKey(k.id, None)].(status := Locked)).outputs[k].status == Locked)
       <==> db.outputs[k].mmrIndex == None
  {
    assert KeyOf(db.outputs[k]) == k;
    if OutKey(k.id, None) in db.outputs { assert KeyOf(db.outputs[OutKey(k.id, None)]) == OutKey(k.id, None); }
  }
}
