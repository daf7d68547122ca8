/** The exchange format of a slate, version 4 (libwallet/src/slate.rs, libwallet/src/slate_versions/v4.rs).

    The format drops the transaction's kernel; it is recomputed from the participants' entries
    when the slate is read back. */
module SlateVersions {
  import opened Wrappers
  import opened Scalars
  import opened SlateTypes
  import opened SlateSpec
  import opened SigningLaws
  import opened Sums

  /** An input (without proof) or an output (with one); feature 1 is coinbase. */
  datatype CommitsV4 = CommitsV4(f: nat, c: Commit, p: Option<Blob>)

  datatype ParticipantV4 = ParticipantV4(xs: Scalar, nonce: Scalar, part: Option<Sig>)

  datatype SlateV4 = SlateV4(
    ver: VersionInfo,
    id: SlateId,
    sta: SlateState,
    off: Scalar,
    numParts: nat,
    amt: nat,
    fee: nat,
    feat: nat,
    ttl: nat,
    sigs: seq<ParticipantV4>,
    coms: Option<seq<CommitsV4>>,
    proof: Option<PaymentInfo>,
    featArgs: Option<nat>)

  function Features(coinbase: bool): nat { if coinbase then 1 else 0 }

  /** Any feature other than 1 reads as plain. */
  function IsCoinbase(f: nat): bool { f == 1 }

  function InputV4(i: Input): CommitsV4 { CommitsV4(Features(i.coinbase), i.commit, None) }
  function OutputV4(o: Output): CommitsV4 { CommitsV4(Features(o.coinbase), o.commit, Some(o.proof)) }
  function ReadInput(c: CommitsV4): Input { Input(IsCoinbase(c.f), c.c) }

  function ReadOutput(c: CommitsV4): Output
    requires c.p.Some?
  {
    Output(IsCoinbase(c.f), c.c, c.p.value)
  }

  function ReadInputs(cs: seq<CommitsV4>): set<Input> {
    set c | c in cs && c.p == None :: ReadInput(c)
  }

  function ReadOutputs(cs: seq<CommitsV4>): set<Output> {
    set c | c in cs && c.p.Some? :: ReadOutput(c)
  }

  /** Feature 1 for coinbase and 0 for plain, the commitment, no proof. */
  predicate WritesInput(c: CommitsV4, i: Input) {
    c.f == (if i.coinbase then 1 else 0) && c.c == i.commit && c.p == None
  }

  predicate WritesOutput(c: CommitsV4, o: Output) {
    c.f == (if o.coinbase then 1 else 0) && c.c == o.commit && c.p == Some(o.proof)
  }

  /** The list writes the inputs `xs`, which are all there are, each once. */
  ghost predicate WritesInputs(cs: seq<CommitsV4>, xs: seq<Input>, ins: set<Input>) {
    && |cs| == |xs| == |ins| && (forall i :: i in ins <==> i in xs)
    && forall j :: 0 <= j < |cs| ==> WritesInput(cs[j], xs[j])
  }

  ghost predicate WritesOutputs(cs: seq<CommitsV4>, xs: seq<Output>, outs: set<Output>) {
    && |cs| == |xs| == |outs| && (forall o :: o in outs <==> o in xs)
    && forall j :: 0 <= j < |cs| ==> WritesOutput(cs[j], xs[j])
  }

  ghost predicate ListsInputs(cs: seq<CommitsV4>, ins: set<Input>) {
    exists xs: seq<Input> :: WritesInputs(cs, xs, ins)
  }

  ghost predicate ListsOutputs(cs: seq<CommitsV4>, outs: set<Output>) {
    exists xs: seq<Output> :: WritesOutputs(cs, xs, outs)
  }

  /** Inputs first, then outputs. */
  ghost predicate Lists(cs: seq<CommitsV4>, tx: Tx) {
    && |cs| == |tx.inputs| + |tx.outputs|
    && ListsInputs(cs[..|tx.inputs|], tx.inputs) && ListsOutputs(cs[|tx.inputs|..], tx.outputs)
  }

  function ParticipantToV4(p: Participant): ParticipantV4 { ParticipantV4(p.excess, p.nonce, p.sig) }
  function ParticipantFromV4(d: ParticipantV4): Participant { Participant(d.xs, d.nonce, d.part) }

  function MapSeq<S, T>(s: seq<S>, f: S -> T): seq<T> {
    seq(|s|, i requires 0 <= i < |s| => f(s[i]))
  }

  /** `v` is a version 4 form of `s`; the order within the inputs and within the outputs is the
      only freedom. */
  ghost predicate Encodes(v: SlateV4, s: SlateV) {
    && v == SlateV4(s.version, s.id, s.state, s.offset, s.numParticipants, s.amount, s.fee, s.kernelFeatures, s.ttl,
                    MapSeq(s.participants, ParticipantToV4), v.coms, s.payment, s.featureArgs)
    && match s.tx
       case None => v.coms == None
       case Some(tx) => v.coms.Some? && Lists(v.coms.value, tx)
  }

  lemma ReadSnoc(cs: seq<CommitsV4>, c: CommitsV4)
    ensures ReadInputs(cs + [c]) == ReadInputs(cs) + if c.p == None then {ReadInput(c)} else {}
    ensures ReadOutputs(cs + [c]) == ReadOutputs(cs) + if c.p.Some? then {ReadOutput(c)} else {}
  {
    assert forall x :: x in cs + [c] <==> x in cs || x == c;
  }

  lemma OneMoreInput(cs: seq<CommitsV4>, ins: set<Input>, i: Input)
    requires ListsInputs(cs, ins) && i !in ins
    ensures ListsInputs(cs + [InputV4(i)], ins + {i})
  {
    var xs: seq<Input> :| WritesInputs(cs, xs, ins);
    assert WritesInputs(cs + [InputV4(i)], xs + [i], ins + {i});
  }

  lemma OneMoreOutput(cs: seq<CommitsV4>, outs: set<Output>, o: Output)
    requires ListsOutputs(cs, outs) && o !in outs
    ensures ListsOutputs(cs + [OutputV4(o)], outs + {o})
  {
    var xs: seq<Output> :| WritesOutputs(cs, xs, outs);
    assert WritesOutputs(cs + [OutputV4(o)], xs + [o], outs + {o});
  }

  lemma NothingListed()
    ensures ListsInputs([], {}) && ListsOutputs([], {})
  {
    assert WritesInputs([], [], {}) && WritesOutputs([], [], {});
  }

  method ListInputs(tx: Tx) returns (cs: seq<CommitsV4>)
    ensures ListsInputs(cs, tx.inputs)
  {
    hide ListsInputs;
    NothingListed();
    cs := [];
    var left := tx.inputs;
    assert tx.inputs - left == {};
    while left != {}
      invariant left <= tx.inputs && ListsInputs(cs, tx.inputs - left)
      decreases left
    {
      var i :| i in left;
      OneMoreInput(cs, tx.inputs - left, i);
      assert tx.inputs - (left - {i}) == tx.inputs - left + {i};
      cs, left := cs + [InputV4(i)], left - {i};
    }
    assert tx.inputs - left == tx.inputs;
  }

  method ListOutputs(tx: Tx) returns (cs: seq<CommitsV4>)
    ensures ListsOutputs(cs, tx.outputs)
  {
    hide ListsOutputs;
    NothingListed();
    cs := [];
    var left := tx.outputs;
    assert tx.outputs - left == {};
    while left != {}
      invariant left <= tx.outputs && ListsOutputs(cs, tx.outputs - left)
      decreases left
    {
      var o :| o in left;
      OneMoreOutput(cs, tx.outputs - left, o);
      assert tx.outputs - (left - {o}) == tx.outputs - left + {o};
      cs, left := cs + [OutputV4(o)], left - {o};
    }
    assert tx.outputs - left == tx.outputs;
  }

  /** The inputs are listed before the outputs. */
  method CommitmentsOf(tx: Tx) returns (cs: seq<CommitsV4>)
    ensures Lists(cs, tx)
  {
    hide ListsInputs, ListsOutputs;
    var ins := ListInputs(tx);
    var outs := ListOutputs(tx);
    cs := ins + outs;
    ListedLength(ins, tx.inputs, outs, tx.outputs);
    assert cs[..|tx.inputs|] == ins && cs[|tx.inputs|..] == outs;
  }

  lemma ListedLength(cs: seq<CommitsV4>, ins: set<Input>, ds: seq<CommitsV4>, outs: set<Output>)
    requires ListsInputs(cs, ins) && ListsOutputs(ds, outs)
    ensures |cs| == |ins| && |ds| == |outs|
  {
  }

  lemma ReadAppend(a: seq<CommitsV4>, b: seq<CommitsV4>)
    ensures ReadInputs(a + b) == ReadInputs(a) + ReadInputs(b)
    ensures ReadOutputs(a + b) == ReadOutputs(a) + ReadOutputs(b)
  {
  }

  lemma InputsRead(cs: seq<CommitsV4>, ins: set<Input>)
    requires ListsInputs(cs, ins)
    ensures ReadInputs(cs) == ins && ReadOutputs(cs) == {}
  {
    var xs: seq<Input> :| WritesInputs(cs, xs, ins);
    forall i | i in ins ensures i in ReadInputs(cs) {
      var j :| 0 <= j < |xs| && xs[j] == i;
      assert WritesInput(cs[j], i) && ReadInput(cs[j]) == i;
    }
    forall c | c in cs ensures c.p == None && ReadInput(c) in ins {
      var j :| 0 <= j < |cs| && cs[j] == c;
      assert WritesInput(c, xs[j]) && ReadInput(c) == xs[j];
    }
  }

  lemma OutputsRead(cs: seq<CommitsV4>, outs: set<Output>)
    requires ListsOutputs(cs, outs)
    ensures ReadOutputs(cs) == outs && ReadInputs(cs) == {}
  {
    var xs: seq<Output> :| WritesOutputs(cs, xs, outs);
    forall o | o in outs ensures o in ReadOutputs(cs) {
      var j :| 0 <= j < |xs| && xs[j] == o;
      assert WritesOutput(cs[j], o) && ReadOutput(cs[j]) == o;
    }
    forall c | c in cs ensures c.p.Some? && ReadOutput(c) in outs {
      var j :| 0 <= j < |cs| && cs[j] == c;
      assert WritesOutput(c, xs[j]) && ReadOutput(c) == xs[j];
    }
  }

  /** Reading a written list gives the body back. */
  lemma ListsRead(cs: seq<CommitsV4>, tx: Tx)
    requires Lists(cs, tx)
    ensures ReadInputs(cs) == tx.inputs && ReadOutputs(cs) == tx.outputs
  {
    hide ListsInputs, ListsOutputs, ReadInputs, ReadOutputs;
    var n := |tx.inputs|;
    InputsRead(cs[..n], tx.inputs);
    OutputsRead(cs[n..], tx.outputs);
    ReadAppend(cs[..n], cs[n..]);
    assert cs == cs[..n] + cs[n..];
  }

  method ToV4(s: SlateV) returns (v: SlateV4)
    ensures Encodes(v, s)
  {
    var coms := None;
    if s.tx.Some? {
      var cs := CommitmentsOf(s.tx.value);
      coms := Some(cs);
    }
    v := SlateV4(s.version, s.id, s.state, s.offset, s.numParticipants, s.amount, s.fee, s.kernelFeatures, s.ttl,
                 MapSeq(s.participants, ParticipantToV4), coms, s.payment, s.featureArgs);
  }

  /** The throwaway slate the kernel is recomputed on: plain features, two parties. */
  function CalcSlate(v: SlateV4): SlateV {
    SlateV(v.ver, 2, 0, Standard1, Some(EMPTY_TX), 0, v.fee, 0, 0, 0, MapSeq(v.sigs, ParticipantFromV4), None, None)
  }

  function KernelFromV4(rules: Rules, v: SlateV4): Kernel {
    var plain := CalcSlate(v);
    var excess := match SumPoints(plain.participants, ExcessOf) case Ok(x) => x case Err(_) => 0;
    var sig := match FinalSignature(rules, plain) case Ok(s) => s case Err(_) => Sig(0, 0);
    var features := if v.feat == 1 then HeightLocked(v.fee, if v.featArgs.Some? then v.featArgs.value else 0)
        else Plain(v.fee);
    Kernel(features, excess, sig)
  }

  function TxFromV4(rules: Rules, v: SlateV4): Option<Tx> {
    if v.coms == None then None
    else Some(Tx(ReadInputs(v.coms.value), ReadOutputs(v.coms.value), Some(KernelFromV4(rules, v)), v.off))
  }

  function FromV4(rules: Rules, v: SlateV4): SlateV {
    SlateV(v.ver, v.numParts, v.id, v.sta, TxFromV4(rules, v), v.amt, v.fee, v.ttl, v.feat, v.off,
           MapSeq(v.sigs, ParticipantFromV4), v.proof, v.featArgs)
  }

  /** The reading loop: each commitment is an output when it carries a proof, else an input. */
  method ReadCommitments(cs: seq<CommitsV4>) returns (ins: set<Input>, outs: set<Output>)
    ensures ins == ReadInputs(cs) && outs == ReadOutputs(cs)
  {
    var inputs: seq<Input>, outputs: seq<Output> := [], [];
    for i := 0 to |cs|
      invariant (set x | x in inputs) == ReadInputs(cs[..i])
      invariant (set x | x in outputs) == ReadOutputs(cs[..i])
    {
      assert cs[..i + 1] == cs[..i] + [cs[i]];
      ReadSnoc(cs[..i], cs[i]);
      if cs[i].p.Some? {
        outputs := outputs + [ReadOutput(cs[i])];
      } else {
        inputs := inputs + [ReadInput(cs[i])];
      }
    }
    assert cs[..|cs|] == cs;
    ins, outs := set x | x in inputs, set x | x in outputs;
  }

  /** The kernel read with a transaction, complete or not: the sum of the keys, the aggregate of the shares
      where they make one and a blank signature otherwise, and plain features for every number but 1. */
  lemma RecomputedKernel(rules: Rules, v: SlateV4)
    ensures var k, ps := KernelFromV4(rules, v), MapSeq(v.sigs, ParticipantFromV4);
      var nonces, keys, total := Norm(SumBy(ps, NonceOf)), Norm(SumBy(ps, ExcessOf)), Norm(SumBy(ps, Response));
      var e := (rules.challenge)(nonces, keys, Plain(v.fee));
      && k.excess == keys
      && k.sig == (if ps != [] && nonces != 0 && keys != 0 && SharesHold(e, ps) && total == Norm(nonces + e * keys)
                   then Sig(nonces, total) else Sig(0, 0))
      && k.features == if v.feat != 1 then Plain(v.fee)
                       else HeightLocked(v.fee, if v.featArgs.Some? then v.featArgs.value else 0)
  {
    AggregateIff(rules, CalcSlate(v));
    hide FinalSignature, SharesHold;
  }

  // ---------- Round trips ----------

  lemma ParticipantsReadBack(ps: seq<Participant>)
    ensures MapSeq(MapSeq(ps, ParticipantToV4), ParticipantFromV4) == ps
  {
    var written := MapSeq(ps, ParticipantToV4);
    assert forall i | 0 <= i < |ps| :: written[i] == ParticipantToV4(ps[i]);
    assert forall i | 0 <= i < |ps| :: MapSeq(written, ParticipantFromV4)[i] == ParticipantFromV4(written[i]);
  }

  /** Writing and reading keeps every field, the inputs and the outputs; only the kernel and the
      transaction's copy of the offset are recomputed. */
  lemma RoundTrip(rules: Rules, s: SlateV, v: SlateV4)
    requires Encodes(v, s)
    ensures var back := FromV4(rules, v);
      match s.tx
      case None => back == s
      case Some(tx) => back == s.(tx := Some(tx.(kernel := Some(KernelFromV4(rules, v)), offset := s.offset)))
  {
    hide Lists, ReadInputs, ReadOutputs, KernelFromV4;
    ParticipantsReadBack(s.participants);
    if s.tx.Some? { ListsRead(v.coms.value, s.tx.value); }
  }

  /** A slate as `finalize` leaves it, its kernel features being those the slate asks for. */
  ghost predicate Finalised(rules: Rules, before: SlateV, s: SlateV) {
    && before.tx.Some? && before.tx.value.kernel.Some?
    && KernelMessage(rules, before) == Ok(before.tx.value.kernel.value.features)
    && before.tx.value.offset == before.offset
    && Finalize(rules, before) == Ok(s)
  }

  lemma FinalisedKernel(rules: Rules, before: SlateV, s: SlateV)
    requires Finalised(rules, before, s)
    ensures SumPoints(s.participants, ExcessOf).Ok? && FinalSignature(rules, s).Ok?
    ensures KernelMessage(rules, s).Ok?
    ensures s.tx.Some? && s.tx.value.offset == s.offset
    ensures s.tx.value.kernel == Some(Kernel(KernelMessage(rules, s).value, SumPoints(s.participants, ExcessOf).value,
                                             FinalSignature(rules, s).value))
  {
    hide CheckShares, Balanced, NoCutThrough, KernelVerifies, CheckFees;
    var sig := FinalSignature(rules, before).value;
    assert s == before.(tx := s.tx);
    SameSignature(rules, before, s);
  }

  lemma SameSignature(rules: Rules, s: SlateV, t: SlateV)
    requires s.participants == t.participants
    requires KernelMessage(rules, s) == KernelMessage(rules, t)
    ensures FinalSignature(rules, s) == FinalSignature(rules, t)
  {
  }

  /** A finalised slate comes back whole, kernel included, exactly when its kernel is plain: the
      reader knows no other features under the numbers the slate uses for them. */
  lemma FinalisedRoundTripIff(rules: Rules, before: SlateV, s: SlateV, v: SlateV4)
    requires Finalised(rules, before, s) && Encodes(v, s)
    ensures FromV4(rules, v) == s <==> s.kernelFeatures == 0
  {
    hide CheckShares, Balanced, NoCutThrough, KernelVerifies, CheckFees, Finalised, Lists, ReadInputs, ReadOutputs;
    FinalisedKernel(rules, before, s);
    RoundTrip(rules, s, v);
    ParticipantsReadBack(s.participants);
    var plain := CalcSlate(v);
    if s.kernelFeatures == 0 {
      SameSignature(rules, s, plain);
    }
  }
}
