/** Scanning a range of heights in batches with a persisted marker, and what the marker means after
    any number of interrupted attempts (libwallet/src/api_impl/owner.rs). */
module Batches {
  import opened Bounds

  const BATCH_STEP: nat := 10001
  const REORG_RESCAN_WINDOW: nat := 24 * 60 * 2

  datatype InitStatus = InitNeedsScanning | InitNoScanning | InitComplete

  /** The persisted marker and status, and every batch that has been committed. */
  datatype Progress = Progress(marker: nat, status: InitStatus, committed: seq<(nat, nat)>)

  function Batches(start: nat, tip: nat): seq<(nat, nat)>
    decreases tip + 1 - start
  {
    if start > tip then [] else [(start, Min(tip, start + (BATCH_STEP - 1)))] + Batches(start + BATCH_STEP, tip)
  }

  /** An update rescans a window below the marker; a wallet that needs no scan starts at the tip. */
  function StartHeight(p: Progress, tip: nat): nat {
    SaturatingSub(if p.status == InitNoScanning then tip else p.marker, REORG_RESCAN_WINDOW)
  }

  function Committed(p: Progress, batches: seq<(nat, nat)>, status: InitStatus): Progress {
    if batches == [] then p
    else
      var last := batches[|batches| - 1];
      Progress(last.1, status, Committed(p, batches[..|batches| - 1], status).committed + [last])
  }

  /** An update that commits `done` batches and is then interrupted, or has come to its end. */
  function Update(p: Progress, tip: nat, done: nat): Progress
    requires done <= |Batches(StartHeight(p, tip), tip)|
  {
    Committed(p, Batches(StartHeight(p, tip), tip)[..done], InitComplete)
  }

  /** A scan asked for by the user, from a height of the user's choice. */
  function UserScan(p: Progress, start: nat, tip: nat, done: nat): Progress
    requires done <= |Batches(start, tip)|
  {
    Committed(p, Batches(start, tip)[..done], p.status)
  }

  // ---------- One attempt ----------

  /** Consecutive, non-empty, no longer than the step, from the start to the tip. */
  lemma {:induction false} BatchesTile(start: nat, tip: nat)
    ensures var bs := Batches(start, tip);
      && (bs == [] <==> start > tip)
      && (bs != [] ==> bs[0].0 == start && bs[|bs| - 1].1 == tip)
      && (forall i :: 0 <= i < |bs| ==> bs[i].0 <= bs[i].1 < bs[i].0 + BATCH_STEP)
      && (forall i :: 0 <= i < |bs| - 1 ==> bs[i].1 + 1 == bs[i + 1].0)
    decreases tip + 1 - start
  {
    if start <= tip {
      BatchesTile(start + BATCH_STEP, tip);
      var bs, rest := Batches(start, tip), Batches(start + BATCH_STEP, tip);
      forall i | 0 <= i < |bs| - 1 ensures bs[i].1 + 1 == bs[i + 1].0 {
        if i > 0 { assert bs[i] == rest[i - 1] && bs[i + 1] == rest[i]; }
      }
    }
  }

  /** Batches start every `BATCH_STEP` heights, for as long as that is not beyond the tip. */
  lemma {:induction false} BatchAt(start: nat, tip: nat, n: nat)
    ensures n < |Batches(start, tip)| <==> start + n * BATCH_STEP <= tip
    ensures n < |Batches(start, tip)| ==>
              Batches(start, tip)[n] == (start + n * BATCH_STEP, Min(tip, start + n * BATCH_STEP + (BATCH_STEP - 1)))
    decreases n
  {
    if n > 0 && start <= tip { BatchAt(start + BATCH_STEP, tip, n - 1); }
  }

  ghost predicate InBatch(batches: seq<(nat, nat)>, i: nat, h: nat) {
    i < |batches| && batches[i].0 <= h <= batches[i].1
  }

  lemma {:induction false} Ascending(start: nat, tip: nat, i: nat, j: nat)
    requires i < j < |Batches(start, tip)|
    ensures Batches(start, tip)[i].1 < Batches(start, tip)[j].0
    decreases j
  {
    BatchesTile(start, tip);
    if i + 1 < j {
      Ascending(start, tip, i, j - 1);
      assert Batches(start, tip)[j - 1].1 + 1 == Batches(start, tip)[j - 1 + 1].0;
    }
  }

  /** Every height from the start to the tip is in exactly one batch, and no other height is in any. */
  lemma EachHeightOnce(start: nat, tip: nat, h: nat)
    ensures start <= h <= tip <==> exists i: nat :: InBatch(Batches(start, tip), i, h)
    ensures forall i: nat, j: nat :: InBatch(Batches(start, tip), i, h) && InBatch(Batches(start, tip), j, h) ==> i == j
  {
    var bs := Batches(start, tip);
    BatchesTile(start, tip);
    forall i: nat, j: nat | InBatch(bs, i, h) && InBatch(bs, j, h) ensures i == j {
      if i < j { Ascending(start, tip, i, j); }
      if j < i { Ascending(start, tip, j, i); }
    }
    forall i: nat | InBatch(bs, i, h) ensures start <= h <= tip {
      if i > 0 { Ascending(start, tip, 0, i); }
      if i < |bs| - 1 { Ascending(start, tip, i, |bs| - 1); }
    }
    if start <= h <= tip { FindBatch(start, tip, h); }
  }

  lemma {:induction false} FindBatch(start: nat, tip: nat, h: nat)
    requires start <= h <= tip
    ensures exists i: nat :: InBatch(Batches(start, tip), i, h)
    decreases tip - start
  {
    var bs := Batches(start, tip);
    if h < start + BATCH_STEP {
      assert InBatch(bs, 0, h);
    } else {
      FindBatch(start + BATCH_STEP, tip, h);
      var i: nat :| InBatch(Batches(start + BATCH_STEP, tip), i, h);
      assert InBatch(bs, i + 1, h);
    }
  }

  /** Some committed batch has covered the height. */
  ghost predicate Covered(p: Progress, h: nat) {
    exists i: nat :: InBatch(p.committed, i, h)
  }

  lemma CoveredSnoc(before: Progress, after: Progress, last: (nat, nat), h: nat)
    requires after.committed == before.committed + [last]
    ensures Covered(after, h) <==> Covered(before, h) || last.0 <= h <= last.1
  {
    if Covered(before, h) {
      var i: nat :| InBatch(before.committed, i, h);
      assert InBatch(after.committed, i, h);
    }
    if last.0 <= h <= last.1 { assert InBatch(after.committed, |before.committed|, h); }
    if Covered(after, h) {
      var i: nat :| InBatch(after.committed, i, h);
      assert i < |before.committed| ==> InBatch(before.committed, i, h);
    }
  }

  /** After some batches the marker is the end of the last one, and they have covered what lies from
      the start to it, without a gap and nothing else. */
  lemma {:induction false} CommittedLaw(p: Progress, start: nat, tip: nat, done: nat, status: InitStatus)
    requires 0 < done <= |Batches(start, tip)|
    ensures var q := Committed(p, Batches(start, tip)[..done], status);
      && q.status == status && start <= q.marker <= tip
      && q.marker == Batches(start, tip)[done - 1].1
      && forall h: nat :: Covered(q, h) <==> Covered(p, h) || start <= h <= q.marker
    decreases done
  {
    var bs := Batches(start, tip);
    BatchesTile(start, tip);
    assert bs[..done][..|bs[..done]| - 1] == bs[..done - 1];
    var before, q := Committed(p, bs[..done - 1], status), Committed(p, bs[..done], status);
    if done > 1 {
      CommittedLaw(p, start, tip, done - 1, status);
      assert bs[done - 2].1 + 1 == bs[done - 2 + 1].0;
    }
    if done < |bs| { Ascending(start, tip, done - 1, |bs| - 1); }
    hide Batches, Committed, Covered;
    forall h: nat ensures Covered(q, h) <==> Covered(p, h) || start <= h <= q.marker {
      CoveredSnoc(before, q, bs[done - 1], h);
    }
  }

  /** An uninterrupted update of a wallet at or below the tip ends with the marker at the tip and has
      covered, in this very run, the whole window below the old marker: a reorganisation no deeper
      than the window leaves no height behind. */
  lemma FullUpdate(p: Progress, tip: nat, h: nat)
    requires StartHeight(p, tip) <= tip
    ensures var bs := Batches(StartHeight(p, tip), tip);
      && Update(p, tip, |bs|).marker == tip && Update(p, tip, |bs|).status == InitComplete
      && (p.status != InitNoScanning && p.marker <= h + REORG_RESCAN_WINDOW && h <= tip ==>
            exists i: nat :: InBatch(bs, i, h))
  {
    var start := StartHeight(p, tip);
    var bs := Batches(start, tip);
    BatchesTile(start, tip);
    assert bs[..|bs|] == bs;
    CommittedLaw(p, start, tip, |bs|, InitComplete);
    EachHeightOnce(start, tip, h);
  }

  /** Which heights an uninterrupted update covers: those from two days of blocks below the marker, or below
      the tip for a wallet that needs no scan, up to the tip. */
  lemma UpdateCovers(p: Progress, tip: nat, h: nat)
    ensures var base, q := if p.status == InitNoScanning then tip else p.marker,
                Update(p, tip, |Batches(StartHeight(p, tip), tip)|);
      Covered(q, h) <==> Covered(p, h) || (base <= h + 2880 && h <= tip)
    ensures forall b | b in Batches(StartHeight(p, tip), tip) :: b.1 - b.0 == 10000 || (b.1 == tip && b.1 - b.0 < 10000)
  {
    var start := StartHeight(p, tip);
    var bs := Batches(start, tip);
    BatchesTile(start, tip);
    assert bs[..|bs|] == bs;
    if bs != [] { CommittedLaw(p, start, tip, |bs|, InitComplete); }
    forall b | b in bs ensures b.1 - b.0 == 10000 || (b.1 == tip && b.1 - b.0 < 10000) {
      var n: nat :| n < |bs| && bs[n] == b;
      BatchAt(start, tip, n);
    }
  }

  // ---------- Many attempts ----------

  /** Every height from `first` up to the marker has been covered. */
  ghost predicate Gapless(p: Progress, first: nat) {
    forall h: nat :: first <= h <= p.marker ==> Covered(p, h)
  }

  /** Updates one after the other: each at its own tip, interrupted after any committed batch. */
  ghost predicate Run(run: seq<Progress>, attempts: seq<(nat, nat)>) {
    && |run| == |attempts| + 1
    && forall i :: 0 <= i < |attempts| ==>
         && attempts[i].1 <= |Batches(StartHeight(run[i], attempts[i].0), attempts[i].0)|
         && run[i + 1] == Update(run[i], attempts[i].0, attempts[i].1)
  }

  lemma UpdateKeepsGapless(p: Progress, tip: nat, done: nat, first: nat)
    requires done <= |Batches(StartHeight(p, tip), tip)|
    requires (done > 0 && StartHeight(p, tip) == first) || (Gapless(p, first) && p.status == InitComplete)
    ensures Gapless(Update(p, tip, done), first) && Update(p, tip, done).status == InitComplete
  {
    var start := StartHeight(p, tip);
    if done > 0 {
      CommittedLaw(p, start, tip, done, InitComplete);
    } else {
      assert Batches(start, tip)[..0] == [];
    }
  }

  /** Whatever the tips and the interruptions, from any attempt that committed something on: every
      height from where that attempt started up to the persisted marker has been covered. */
  lemma {:induction false} MarkerMeansCovered(run: seq<Progress>, attempts: seq<(nat, nat)>, k: nat, n: nat)
    requires Run(run, attempts) && k < n < |run| && attempts[k].1 > 0
    ensures Gapless(run[n], StartHeight(run[k], attempts[k].0)) && run[n].status == InitComplete
    decreases n
  {
    if k + 1 < n { MarkerMeansCovered(run, attempts, k, n - 1); }
    UpdateKeepsGapless(run[n - 1], attempts[n - 1].0, attempts[n - 1].1, StartHeight(run[k], attempts[k].0));
    assert run[n - 1 + 1] == Update(run[n - 1], attempts[n - 1].0, attempts[n - 1].1);
  }

  // ---------- Updates and scans of the user, mixed ----------

  /** An update, or a scan from a height of the user's choice; `done` batches are committed. */
  datatype Attempt = Updating(tip: nat, done: nat) | Scanning(start: nat, tip: nat, done: nat)

  function Begins(p: Progress, a: Attempt): nat {
    if a.Updating? then StartHeight(p, a.tip) else a.start
  }

  predicate Possible(p: Progress, a: Attempt) { a.done <= |Batches(Begins(p, a), a.tip)| }

  function After(p: Progress, a: Attempt): Progress
    requires Possible(p, a)
  {
    if a.Updating? then Update(p, a.tip, a.done) else UserScan(p, a.start, a.tip, a.done)
  }

  ghost predicate MixedRun(run: seq<Progress>, attempts: seq<Attempt>) {
    && |run| == |attempts| + 1
    && forall i :: 0 <= i < |attempts| ==> Possible(run[i], attempts[i]) && run[i + 1] == After(run[i], attempts[i])
  }

  /** An attempt that commits something skips no uncovered height between the marker and its start. */
  ghost predicate SkipsNothing(p: Progress, a: Attempt, first: nat) {
    a.done > 0 ==> forall h: nat :: first <= h && p.marker < h < Begins(p, a) ==> Covered(p, h)
  }

  lemma AttemptKeepsGaplessIff(p: Progress, a: Attempt, first: nat)
    requires Possible(p, a) && Gapless(p, first)
    ensures Gapless(After(p, a), first) <==> SkipsNothing(p, a, first)
    ensures a.Updating? && p.status != InitNoScanning ==> SkipsNothing(p, a, first)
  {
    var start := Begins(p, a);
    if a.done > 0 {
      CommittedLaw(p, start, a.tip, a.done, if a.Updating? then InitComplete else p.status);
      forall h: nat | first <= h && p.marker < h < start && !Covered(p, h) ensures !Gapless(After(p, a), first) {
        assert !Covered(After(p, a), h);
      }
    } else {
      assert Batches(start, a.tip)[..0] == [];
    }
  }

  /** Over any run of updates and user's scans, there is never a gap below the marker if and only if no
      attempt skips an uncovered height; an update of a scanned wallet never does. */
  lemma {:induction false} NeverAGapIff(run: seq<Progress>, attempts: seq<Attempt>, first: nat)
    requires MixedRun(run, attempts) && Gapless(run[0], first)
    ensures (forall n :: 0 <= n < |run| ==> Gapless(run[n], first))
       <==> (forall i :: 0 <= i < |attempts| ==> SkipsNothing(run[i], attempts[i], first))
  {
    hide Gapless, SkipsNothing, Possible, After;
    if forall n :: 0 <= n < |run| ==> Gapless(run[n], first) {
      forall i | 0 <= i < |attempts| ensures SkipsNothing(run[i], attempts[i], first) {
        AttemptKeepsGaplessIff(run[i], attempts[i], first);
        assert Gapless(run[i + 1], first);
      }
    }
    if forall i :: 0 <= i < |attempts| ==> SkipsNothing(run[i], attempts[i], first) {
      forall n | 0 <= n < |run| ensures Gapless(run[n], first) { NoSkipNoGap(run, attempts, first, n); }
    }
  }

  lemma {:induction false} NoSkipNoGap(run: seq<Progress>, attempts: seq<Attempt>, first: nat, n: nat)
    requires MixedRun(run, attempts) && Gapless(run[0], first) && n < |run|
    requires forall i :: 0 <= i < |attempts| ==> SkipsNothing(run[i], attempts[i], first)
    ensures Gapless(run[n], first)
  {
    hide Gapless, SkipsNothing, Possible, After;
    if n > 0 {
      NoSkipNoGap(run, attempts, first, n - 1);
      AttemptKeepsGaplessIff(run[n - 1], attempts[n - 1], first);
      assert run[n - 1 + 1] == After(run[n - 1], attempts[n - 1]);
    }
  }
}
