/** Calls on the registry that nobody disturbs: what each of them can do from any state the lock leaves it. */
module RegistryRuns {
  import opened Wrappers
  import opened TomlMerge
  import opened ConfigFile
  import opened Registry

  /** Steps one after the other. */
  datatype Script = End | Do(step: Step, rest: Script)

  ghost predicate Reaches(f: Format, s: State, script: Script, s': State)
    decreases script
  {
    match script
    case End => s' == s
    case Do(step, rest) => exists mid :: Next(f, s, step, mid) && Reaches(f, mid, rest, s')
  }

  lemma Before(f: Format, s: State, step: Step, mid: State, rest: Script, s': State)
    requires Next(f, s, step, mid) && Reaches(f, mid, rest, s')
    ensures Reaches(f, s, Do(step, rest), s')
  {
  }

  lemma LastStep(f: Format, s: State, step: Step, s': State)
    requires Next(f, s, step, s')
    ensures Reaches(f, s, Do(step, End), s')
  {
    assert Reaches(f, s', End, s');
  }

  lemma MovedTwice(s: State, t: nat, a: Pc, b: Pc)
    ensures Moved(Moved(s, t, a), t, b) == Moved(s, t, b) && Of(Moved(s, t, a), t) == a
  {
    assert s.threads[t := a][t := b] == s.threads[t := b];
  }

  function Holding(s: State, t: nat): State { s.(lock := Some(t), acquired := s.acquired + 1) }

  lemma CanAcquire(f: Format, s: State, t: nat, task: Option<Edit>)
    requires Of(s, t).Idle? && s.lock == None
    ensures Next(f, s, Acquire(t, task), Moved(Holding(s, t), t, Locked(task)))
  {
  }

  lemma CanEdit(f: Format, s: State, t: nat, edit: Edit, wanted: Item)
    requires Decode(f, s.file).Some? && edit(Decode(f, s.file).value) == Some(wanted) && IsConfig(f, wanted)
    ensures Next(f, Moved(s, t, Locked(Some(edit))), LoadLocked(t), Moved(s, t, Edited(edit, wanted)))
  {
    hide Decode, IsConfig;
    MovedTwice(s, t, Locked(Some(edit)), Edited(edit, wanted));
  }

  lemma CanCopy(f: Format, s: State, t: nat, edit: Edit, wanted: Item)
    ensures Next(f, Moved(s, t, Edited(edit, wanted)), Copy(t), Moved(s, t, Copied(edit, wanted, s.file)))
  {
    MovedTwice(s, t, Edited(edit, wanted), Copied(edit, wanted, s.file));
  }

  /** The state after a save: the configuration is in the file and in the history. */
  function SavedState(f: Format, s: State, edit: Edit, wanted: Item): State
    requires IsTable(s.file) && IsTable(wanted) && Saved(f, s.file, wanted).Some?
  {
    s.(file := Saved(f, s.file, wanted).value, written := s.written + [wanted], edits := s.edits + [(s.acquired, edit)])
  }

  lemma CanRename(f: Format, s: State, t: nat, edit: Edit, wanted: Item)
    requires IsTable(s.file) && IsTable(wanted) && Saved(f, s.file, wanted).Some?
    ensures Next(f, Moved(s, t, Copied(edit, wanted, s.file)), Rename(t),
                 Moved(SavedState(f, s, edit, wanted), t, Renamed(wanted)))
  {
    hide Saved;
    MovedTwice(s, t, Copied(edit, wanted, s.file), Renamed(wanted));
  }

  lemma CanPublish(f: Format, s: State, t: nat, config: Item)
    ensures Next(f, Moved(s, t, Renamed(config)), Publish(t), Moved(s.(cache := Some(config)), t, Leaving))
    ensures Next(f, Moved(s, t, Reread(config)), Publish(t), Moved(s.(cache := Some(config)), t, Leaving))
  {
    MovedTwice(s, t, Renamed(config), Leaving);
    MovedTwice(s, t, Reread(config), Leaving);
  }

  lemma CanFail(f: Format, s: State, t: nat, pc: Pc)
    requires pc.Locked? || pc.Edited? || pc.Copied?
    ensures Next(f, Moved(s, t, pc), Fail(t), Moved(s, t, Leaving))
  {
    MovedTwice(s, t, pc, Leaving);
  }

  lemma CanRelease(f: Format, s: State, t: nat)
    ensures Next(f, Moved(s, t, Leaving), Release(t), Moved(s.(lock := None), t, Idle))
  {
    MovedTwice(s, t, Leaving, Idle);
  }

  lemma CanReread(f: Format, s: State, t: nat, config: Item)
    requires Decode(f, s.file) == Some(config)
    ensures Next(f, Moved(s, t, Locked(None)), LoadLocked(t), Moved(s, t, Reread(config)))
  {
    hide Decode;
    MovedTwice(s, t, Locked(None), Reread(config));
  }

  /** When the lock is free, an update can run to its end: it saves the edited configuration over the file as
      it is, and publishes it. */
  lemma UpdateCanComplete(f: Format, s: State, t: nat, edit: Edit, wanted: Item)
    requires FileIsLast(f, s) && Of(s, t).Idle? && s.lock == None
    requires edit(Decode(f, s.file).value) == Some(wanted) && IsConfig(f, wanted)
    ensures IsTable(wanted) && Saved(f, s.file, wanted).Some?
    ensures var after := Saved(f, s.file, wanted).value;
      && Decode(f, after) == Some(wanted)
      && Reaches(f, s,
          Do(Acquire(t, Some(edit)),
              Do(LoadLocked(t), Do(Copy(t), Do(Rename(t), Do(Publish(t), Do(Release(t), End)))))),
                 State(after, Some(wanted), None, s.threads[t := Idle], s.acquired + 1, s.written + [wanted],
                       s.edits + [(s.acquired + 1, edit)]))
  {
    hide Decode, Saved, Lawful, IsConfig, Reaches, Next;
    SavedReadsBack(f, s.file, wanted);
    var held := Holding(s, t);
    var saved := SavedState(f, held, edit, wanted);
    var end := saved.(cache := Some(wanted));
    CanRelease(f, end, t);
    CanPublish(f, saved, t, wanted);
    CanRename(f, held, t, edit, wanted);
    CanCopy(f, held, t, edit, wanted);
    CanEdit(f, held, t, edit, wanted);
    CanAcquire(f, s, t, Some(edit));
    hide Moved;
    var last := Moved(end.(lock := None), t, Idle);
    LastStep(f, Moved(end, t, Leaving), Release(t), last);
    Before(f, Moved(saved, t, Renamed(wanted)), Publish(t), Moved(end, t, Leaving), Do(Release(t), End), last);
    Before(f, Moved(held, t, Copied(edit, wanted, s.file)), Rename(t), Moved(saved, t, Renamed(wanted)),
           Do(Publish(t), Do(Release(t), End)), last);
    Before(f, Moved(held, t, Edited(edit, wanted)), Copy(t), Moved(held, t, Copied(edit, wanted, s.file)),
           Do(Rename(t), Do(Publish(t), Do(Release(t), End))), last);
    Before(f, Moved(held, t, Locked(Some(edit))), LoadLocked(t), Moved(held, t, Edited(edit, wanted)),
           Do(Copy(t), Do(Rename(t), Do(Publish(t), Do(Release(t), End)))), last);
    Before(f, s, Acquire(t, Some(edit)), Moved(held, t, Locked(Some(edit))),
           Do(LoadLocked(t), Do(Copy(t), Do(Rename(t), Do(Publish(t), Do(Release(t), End))))), last);
    MovedIs(end.(lock := None), t, Idle);
  }

  lemma MovedIs(s: State, t: nat, pc: Pc)
    ensures Moved(s, t, pc) == s.(threads := s.threads[t := pc])
  {
  }

  /** It may also fail before the file is replaced, and then leaves file, cache and history as they were and
      the lock free. */
  lemma UpdateCanFail(f: Format, s: State, t: nat, edit: Edit, wanted: Item)
    requires FileIsLast(f, s) && Of(s, t).Idle? && s.lock == None
    requires edit(Decode(f, s.file).value) == Some(wanted) && IsConfig(f, wanted)
    ensures var end := s.(threads := s.threads[t := Idle], acquired := s.acquired + 1);
      && Reaches(f, s, Do(Acquire(t, Some(edit)), Do(Fail(t), Do(Release(t), End))), end)
      && Reaches(f, s, Do(Acquire(t, Some(edit)), Do(LoadLocked(t), Do(Copy(t), Do(Fail(t), Do(Release(t), End))))),
          end)
  {
    hide Decode, Lawful, IsConfig, Reaches, Next;
    var held := Holding(s, t);
    CanRelease(f, held, t);
    CanFail(f, held, t, Locked(Some(edit)));
    CanFail(f, held, t, Copied(edit, wanted, s.file));
    CanCopy(f, held, t, edit, wanted);
    CanEdit(f, held, t, edit, wanted);
    CanAcquire(f, s, t, Some(edit));
    hide Moved;
    var last := Moved(held.(lock := None), t, Idle);
    LastStep(f, Moved(held, t, Leaving), Release(t), last);
    Before(f, Moved(held, t, Locked(Some(edit))), Fail(t), Moved(held, t, Leaving), Do(Release(t), End), last);
    Before(f, s, Acquire(t, Some(edit)), Moved(held, t, Locked(Some(edit))), Do(Fail(t), Do(Release(t), End)), last);
    Before(f, Moved(held, t, Copied(edit, wanted, s.file)), Fail(t), Moved(held, t, Leaving), Do(Release(t), End),
        last);
    Before(f, Moved(held, t, Edited(edit, wanted)), Copy(t), Moved(held, t, Copied(edit, wanted, s.file)),
           Do(Fail(t), Do(Release(t), End)), last);
    Before(f, Moved(held, t, Locked(Some(edit))), LoadLocked(t), Moved(held, t, Edited(edit, wanted)),
           Do(Copy(t), Do(Fail(t), Do(Release(t), End))), last);
    Before(f, s, Acquire(t, Some(edit)), Moved(held, t, Locked(Some(edit))),
           Do(LoadLocked(t), Do(Copy(t), Do(Fail(t), Do(Release(t), End)))), last);
    MovedIs(held.(lock := None), t, Idle);
  }

  /** A reload puts what the file says into the cache. */
  lemma ReloadCanComplete(f: Format, s: State, t: nat)
    requires FileIsLast(f, s) && Of(s, t).Idle? && s.lock == None
    ensures Reaches(f, s, Do(Acquire(t, None), Do(LoadLocked(t), Do(Publish(t), Do(Release(t), End)))),
                    s.(threads := s.threads[t := Idle], acquired := s.acquired + 1, cache := Decode(f, s.file)))
  {
    hide Decode, Lawful, Reaches, Next;
    var config, held := Decode(f, s.file).value, Holding(s, t);
    var end := held.(cache := Some(config));
    CanRelease(f, end, t);
    CanPublish(f, held, t, config);
    CanReread(f, held, t, config);
    CanAcquire(f, s, t, None);
    hide Moved;
    var last := Moved(end.(lock := None), t, Idle);
    LastStep(f, Moved(end, t, Leaving), Release(t), last);
    Before(f, Moved(held, t, Reread(config)), Publish(t), Moved(end, t, Leaving), Do(Release(t), End), last);
    Before(f, Moved(held, t, Locked(None)), LoadLocked(t), Moved(held, t, Reread(config)),
        Do(Publish(t), Do(Release(t), End)), last);
    Before(f, s, Acquire(t, None), Moved(held, t, Locked(None)),
        Do(LoadLocked(t), Do(Publish(t), Do(Release(t), End))), last);
    MovedIs(end.(lock := None), t, Idle);
  }

  lemma CanMiss(f: Format, s: State, t: nat, began: nat)
    requires Of(s, t).Idle? && s.cache == None && began == Completed(s)
    ensures Next(f, s, Miss(t), Moved(s, t, Missed(began)))
  {
  }

  lemma CanLoad(f: Format, s: State, t: nat, began: nat, config: Item)
    requires Decode(f, s.file) == Some(config) && s.written != []
    ensures Next(f, Moved(s, t, Missed(began)), Load(t), Moved(s, t, Loaded(began, |s.written| - 1, config)))
  {
    hide Decode;
    MovedTwice(s, t, Missed(began), Loaded(began, |s.written| - 1, config));
  }

  lemma CanEnter(f: Format, s: State, t: nat, began: nat, seen: nat, config: Item)
    requires s.cache == None
    ensures Next(f, Moved(s, t, Loaded(began, seen, config)), Enter(t, config),
                 Moved(s.(cache := Some(config)), t, Idle))
  {
    MovedTwice(s, t, Loaded(began, seen, config), Idle);
  }

  /** A getter that finds no entry enters what the file says, lock or no lock. */
  lemma GetterCanComplete(f: Format, s: State, t: nat)
    requires FileIsLast(f, s) && CacheIsRecent(s) && Of(s, t).Idle? && s.cache == None
    ensures Reaches(f, s, Do(Miss(t), Do(Load(t), Do(Enter(t, Decode(f, s.file).value), End))),
                    s.(threads := s.threads[t := Idle], cache := Decode(f, s.file)))
  {
    hide Decode, Lawful, Reaches, Next;
    var config, seen := Decode(f, s.file).value, |s.written| - 1;
    var began: nat := Completed(s);
    CanMiss(f, s, t, began);
    CanLoad(f, s, t, began, config);
    CanEnter(f, s, t, began, seen, config);
    hide Moved;
    var last := Moved(s.(cache := Some(config)), t, Idle);
    LastStep(f, Moved(s, t, Loaded(began, seen, config)), Enter(t, config), last);
    Before(f, Moved(s, t, Missed(began)), Load(t), Moved(s, t, Loaded(began, seen, config)),
        Do(Enter(t, config), End), last);
    Before(f, s, Miss(t), Moved(s, t, Missed(began)), Do(Load(t), Do(Enter(t, config), End)), last);
    MovedIs(s.(cache := Some(config)), t, Idle);
  }
}
