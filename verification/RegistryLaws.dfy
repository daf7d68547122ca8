/** What every interleaving of getters, updaters and reloaders keeps. */
module RegistryLaws {
  import opened Wrappers
  import opened TomlMerge
  import opened TomlLaws
  import opened ConfigFile
  import opened Registry

  // ---------- One step ----------

  lemma InitHolds(f: Format, s: State)
    requires Init(f, s)
    ensures Inv(f, s)
  {
  }

  /** A rename is the only step that touches the file, and it leaves a readable one. */
  lemma FileStep(f: Format, s: State, step: Step, s': State)
    requires FileIsLast(f, s) && ThreadsAgree(f, s) && Next(f, s, step, s')
    ensures FileIsLast(f, s')
    ensures step.Rename? || (s'.file == s.file && s'.written == s.written && s'.edits == s.edits)
  {
    hide Lawful, IsConfig, Decode, Saved;
    if step.Rename? {
      SavedReadsBack(f, s.file, Of(s, step.t).wanted);
    }
  }

  lemma ThreadsStep(f: Format, s: State, step: Step, s': State)
    requires FileIsLast(f, s) && ThreadsAgree(f, s) && CacheIsRecent(s) && Next(f, s, step, s')
    ensures ThreadsAgree(f, s')
  {
    hide Lawful, IsConfig, Decode, Saved;
    FileStep(f, s, step, s');
    forall t | t in s'.threads ensures Agrees(f, s', s'.threads[t]) && (Holds(s'.threads[t]) ==> s'.lock == Some(t)) {
      if t != step.t { OthersAgree(f, s, step, s', t); }
      else { ActorAgrees(f, s, step, s'); }
    }
  }

  /** What the other threads rely on is out of the acting thread's reach. */
  lemma OthersAgree(f: Format, s: State, step: Step, s': State, t: nat)
    requires FileIsLast(f, s) && FileIsLast(f, s') && ThreadsAgree(f, s) && Next(f, s, step, s')
    requires t in s'.threads && t != step.t
    ensures Agrees(f, s', s'.threads[t]) && (Holds(s'.threads[t]) ==> s'.lock == Some(t))
  {
    hide Next, Completed, IsConfig, Lawful, Decode;
    ThreadStays(f, s, step, s', t);
    CompletedStep(f, s, step, s');
    FileStep(f, s, step, s');
    if Holds(s.threads[t]) { LockStays(f, s, step, s', t); }
    hide FileIsLast;
    assert Agrees(f, s, s.threads[t]);
  }

  lemma ThreadStays(f: Format, s: State, step: Step, s': State, t: nat)
    requires Next(f, s, step, s') && t in s'.threads && t != step.t
    ensures t in s.threads && s.threads[t] == s'.threads[t]
  {
    hide Lawful, IsConfig, Decode, Saved;
  }

  /** Nobody else takes the lock away from a thread, or replaces the file while it holds the lock. */
  lemma LockStays(f: Format, s: State, step: Step, s': State, t: nat)
    requires ThreadsAgree(f, s) && Next(f, s, step, s') && t in s.threads && t != step.t && Holds(s.threads[t])
    ensures s'.lock == Some(t) && !step.Rename?
  {
    hide Lawful, IsConfig, Decode, Saved, Agrees;
    assert s.lock == Some(t);
    if step.t in s.threads { assert Holds(s.threads[step.t]) ==> s.lock == Some(step.t); }
  }

  lemma ActorAgrees(f: Format, s: State, step: Step, s': State)
    requires FileIsLast(f, s) && FileIsLast(f, s') && ThreadsAgree(f, s) && Next(f, s, step, s')
    requires step.t in s'.threads
    ensures Agrees(f, s', s'.threads[step.t]) && (Holds(s'.threads[step.t]) ==> s'.lock == Some(step.t))
  {
    hide Lawful, IsConfig, Decode, Saved;
  }

  lemma CacheStep(f: Format, s: State, step: Step, s': State)
    requires FileIsLast(f, s) && ThreadsAgree(f, s) && CacheIsRecent(s) && Next(f, s, step, s')
    ensures CacheIsRecent(s')
  {
    hide Lawful, IsConfig, Decode, Saved, FileIsLast;
    CompletedStep(f, s, step, s');
    if step.Publish? {
      assert s'.written[|s'.written| - 1] == s'.cache.value;
    } else if s.cache == None && step.Enter? {
      assert s'.written[Of(s, step.t).seen] == s'.cache.value;
    } else {
      hide Agrees, ThreadsAgree;
      CacheStays(s, s');
    }
  }

  /** Only publishing a save completes an update. */
  lemma CompletedStep(f: Format, s: State, step: Step, s': State)
    requires ThreadsAgree(f, s) && Next(f, s, step, s')
    ensures Completed(s') == Completed(s) + if step.Publish? && Of(s, step.t).Renamed? then 1 else 0
    ensures s.written <= s'.written
    ensures step.Enter? || step.Publish? || s'.cache == s.cache
    ensures step.Enter? && s.cache.Some? ==> s'.cache == s.cache
  {
    hide Lawful, IsConfig, Decode, Saved, FileIsLast;
  }

  lemma CacheStays(s: State, s': State)
    requires CacheIsRecent(s) && Completed(s') == Completed(s) && s.written <= s'.written && s'.cache == s.cache
    ensures CacheIsRecent(s')
  {
    if s.cache.Some? {
      var v :| Completed(s) <= v < |s.written| && s.written[v] == s.cache.value;
      assert s'.written[v] == s.cache.value;
    }
  }

  lemma HistoryStep(f: Format, s: State, step: Step, s': State)
    requires FileIsLast(f, s) && ThreadsAgree(f, s) && Linked(s) && TicketUnused(s) && Next(f, s, step, s')
    ensures Linked(s') && TicketUnused(s')
  {
    hide Lawful, IsConfig, Decode, Saved, FileIsLast;
  }

  lemma StepKeeps(f: Format, s: State, step: Step, s': State)
    requires Inv(f, s) && Next(f, s, step, s')
    ensures Inv(f, s')
  {
    hide Next, FileIsLast, ThreadsAgree, CacheIsRecent, Linked, TicketUnused;
    FileStep(f, s, step, s');
    ThreadsStep(f, s, step, s');
    CacheStep(f, s, step, s');
    HistoryStep(f, s, step, s');
  }

  // ---------- Runs ----------

  ghost predicate Run(f: Format, run: seq<State>, steps: seq<Step>) {
    && |run| == |steps| + 1 && Init(f, run[0])
    && forall i :: 0 <= i < |steps| ==> Next(f, run[i], steps[i], run[i + 1])
  }

  lemma {:induction false} RunKeeps(f: Format, run: seq<State>, steps: seq<Step>, n: nat)
    requires Run(f, run, steps) && n < |run|
    ensures Inv(f, run[n])
  {
    hide Next, Inv;
    if n == 0 {
      InitHolds(f, run[0]);
    } else {
      RunKeeps(f, run, steps, n - 1);
      assert Next(f, run[n - 1], steps[n - 1], run[n - 1 + 1]);
      StepKeeps(f, run[n - 1], steps[n - 1], run[n]);
    }
  }

  /** The configurations after applying edits one after the other. */
  function Replay(edits: seq<(nat, Edit)>, c: Item): Option<Item> {
    if edits == [] then Some(c)
    else
      var before := Replay(edits[..|edits| - 1], c);
      if before.Some? then edits[|edits| - 1].1(before.value) else None
  }

  lemma {:induction false} ReplayIsHistory(s: State, n: nat)
    requires Linked(s) && n <= |s.edits|
    ensures Replay(s.edits[..n], s.written[0]) == Some(s.written[n])
  {
    if n > 0 {
      ReplayIsHistory(s, n - 1);
      assert s.edits[..n][..|s.edits[..n]| - 1] == s.edits[..n - 1];
    }
  }

  lemma {:induction false} HistoryGrows(f: Format, run: seq<State>, steps: seq<Step>, m: nat, n: nat)
    requires Run(f, run, steps) && m <= n < |run|
    ensures run[m].written <= run[n].written && run[m].edits <= run[n].edits && Completed(run[m]) <= Completed(run[n])
    decreases n
  {
    hide Next, Inv;
    if m < n {
      HistoryGrows(f, run, steps, m, n - 1);
      RunKeeps(f, run, steps, n - 1);
      assert Next(f, run[n - 1], steps[n - 1], run[n - 1 + 1]);
      OneStepGrows(f, run[n - 1], steps[n - 1], run[n]);
    }
  }

  lemma OneStepGrows(f: Format, s: State, step: Step, s': State)
    requires Inv(f, s) && Next(f, s, step, s')
    ensures s.written <= s'.written && s.edits <= s'.edits && Completed(s) <= Completed(s')
  {
    CompletedStep(f, s, step, s');
    hide Lawful, IsConfig, Decode, Saved, FileIsLast, CacheIsRecent, Linked, TicketUnused, Completed;
  }

  /** Whenever no save is between replacing the file and publishing, a cached configuration is the
      one in the file. */
  lemma CacheIsFile(f: Format, run: seq<State>, steps: seq<Step>, n: nat)
    requires Run(f, run, steps) && n < |run| && !Pending(run[n])
    ensures run[n].cache == None || run[n].cache == Decode(f, run[n].file)
  {
    hide Run, Next, Lawful, Decode;
    RunKeeps(f, run, steps, n);
  }

  /** The file reads as all edits whose save took effect, applied to the first configuration in the
      order in which their updaters took the lock. */
  lemma NoUpdateLost(f: Format, run: seq<State>, steps: seq<Step>, n: nat)
    requires Run(f, run, steps) && n < |run|
    ensures Decode(f, run[0].file).Some?
    ensures Decode(f, run[n].file) == Replay(run[n].edits, Decode(f, run[0].file).value)
    ensures forall i, j :: 0 <= i < j < |run[n].edits| ==> run[n].edits[i].0 < run[n].edits[j].0
  {
    hide Next, Lawful, Decode;
    RunKeeps(f, run, steps, n);
    HistoryGrows(f, run, steps, 0, n);
    ReplayIsHistory(run[n], |run[n].edits|);
    assert run[n].edits[..|run[n].edits|] == run[n].edits;
  }

  /** An update that reports success is in the history for good. */
  lemma SuccessIsKept(f: Format, run: seq<State>, steps: seq<Step>, m: nat, n: nat)
    requires Run(f, run, steps) && m < |steps| && m < n < |run| && steps[m].Rename?
    ensures (run[m + 1].acquired, Of(run[m], steps[m].t).edit) == run[m + 1].edits[|run[m].edits|]
    ensures |run[m].edits| < |run[n].edits| && run[n].edits[|run[m].edits|] == run[m + 1].edits[|run[m].edits|]
  {
    hide Lawful, Decode, Saved, IsConfig;
    assert Next(f, run[m], steps[m], run[m + 1]);
    HistoryGrows(f, run, steps, m + 1, n);
  }

  // ---------- What a reader gets ----------

  /** The configuration a call returns, and how many updates were complete when the call began. */
  ghost predicate Returns(s: State, step: Step, began: int, result: Item) {
    match step
    case Hit(t, r) => result == r && began == Completed(s)
    case Enter(t, r) => result == r && Of(s, t).Loaded? && began == Of(s, t).began
    case _ => false
  }

  /** A reader never gets a configuration older than the last update completed before it asked. */
  lemma NoStaleRead(f: Format, run: seq<State>, steps: seq<Step>, n: nat, began: int, result: Item)
    requires Run(f, run, steps) && n < |steps| && Returns(run[n], steps[n], began, result)
    ensures exists v: nat :: began <= v < |run[n].written| && run[n].written[v] == result
  {
    hide Lawful, Decode, Saved, IsConfig, FileIsLast;
    RunKeeps(f, run, steps, n);
    assert Next(f, run[n], steps[n], run[n + 1]);
    var s, t := run[n], steps[n].t;
    if s.cache.Some? {
      var v :| Completed(s) <= v < |s.written| && s.written[v] == s.cache.value;
      if steps[n].Enter? { assert Agrees(f, s, Of(s, t)); BeganIsPast(f, run, steps, n, t); }
    } else {
      assert Agrees(f, s, Of(s, t));
      assert s.written[Of(s, t).seen] == result;
    }
  }

  ghost predicate BeganBy(s: State, t: nat) {
    (Of(s, t).Missed? || Of(s, t).Loaded?) ==> Of(s, t).began <= Completed(s)
  }

  lemma {:induction false} BeganIsPast(f: Format, run: seq<State>, steps: seq<Step>, n: nat, t: nat)
    requires Run(f, run, steps) && n < |run|
    ensures BeganBy(run[n], t)
  {
    hide Next;
    if n > 0 {
      BeganIsPast(f, run, steps, n - 1, t);
      RunKeeps(f, run, steps, n - 1);
      assert Next(f, run[n - 1], steps[n - 1], run[n - 1 + 1]);
      BeganStep(f, run[n - 1], steps[n - 1], run[n], t);
    }
  }

  lemma BeganStep(f: Format, s: State, step: Step, s': State, t: nat)
    requires Inv(f, s) && Next(f, s, step, s') && BeganBy(s, t)
    ensures BeganBy(s', t)
  {
    hide Lawful, IsConfig, Decode, Saved, FileIsLast, CacheIsRecent, Linked, TicketUnused;
    OneStepGrows(f, s, step, s');
  }

  /** A getter can hold an outdated load only while it cannot enter the cache with it for good: an
      entry exists already, or the save that made the load outdated is about to publish. */
  lemma StaleLoadIsHarmless(f: Format, run: seq<State>, steps: seq<Step>, n: nat, t: nat)
    requires Run(f, run, steps) && n < |run| && Of(run[n], t).Loaded?
    requires Decode(f, run[n].file) != Some(Of(run[n], t).config)
    ensures run[n].cache.Some? || Pending(run[n])
  {
    hide Next, Lawful, Decode;
    RunKeeps(f, run, steps, n);
    assert Agrees(f, run[n], run[n].threads[t]);
  }

  // ---------- Keys of the user ----------

  /** Over any run, everything under a user's own key stays in the file as long as every saved
      configuration keeps the table that holds the key. */
  lemma {:induction false} UserKeysSurvive(f: Format, run: seq<State>, steps: seq<Step>, n: nat, p: Path, key: string,
                                           rest: Path)
    requires Run(f, run, steps) && n < |run| && Foreign(f.schema, p, key)
    requires TablesAlong(run[0].file, p) && forall c :: c in run[n].written ==> TablesAlong(c, p)
    ensures TablesAlong(run[n].file, p)
    ensures TomlLaws.At(run[n].file, p + [key] + rest) == TomlLaws.At(run[0].file, p + [key] + rest)
  {
    hide Next, Inv, TablesAlong;
    if n > 0 {
      var s, s' := run[n - 1], run[n];
      assert Next(f, s, steps[n - 1], run[n - 1 + 1]);
      HistoryGrows(f, run, steps, n - 1, n);
      assert forall c :: c in s.written ==> c in s'.written;
      UserKeysSurvive(f, run, steps, n - 1, p, key, rest);
      RunKeeps(f, run, steps, n - 1);
      UserKeysStep(f, s, steps[n - 1], s', p, key, rest);
    }
  }

  lemma UserKeysStep(f: Format, s: State, step: Step, s': State, p: Path, key: string, rest: Path)
    requires Inv(f, s) && Next(f, s, step, s') && Foreign(f.schema, p, key)
    requires TablesAlong(s.file, p) && forall c :: c in s'.written ==> TablesAlong(c, p)
    ensures TablesAlong(s'.file, p) && TomlLaws.At(s'.file, p + [key] + rest) == TomlLaws.At(s.file, p + [key] + rest)
  {
    hide Lawful, IsConfig, Decode, Saved, CacheIsRecent, Linked, TicketUnused, TablesAlong, Foreign;
    FileStep(f, s, step, s');
    if step.Rename? {
      var wanted := Of(s, step.t).wanted;
      assert Agrees(f, s, s.threads[step.t]);
      assert s'.written[|s.written|] == wanted;
      ForeignSurvives(f, s.file, wanted, p, key, rest);
    }
  }
}
