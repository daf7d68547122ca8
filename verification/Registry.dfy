/** Threads reading, updating and reloading one configuration file through the shared cache
    (config/src/config.rs). Every step below is atomic; anything may happen between two steps. */
module Registry {
  import opened Wrappers
  import opened TomlMerge
  import opened ConfigFile

  /** What an update does to the configuration; `None` when it reports an error. */
  type Edit = Item -> Option<Item>

  /** Where a thread is. Between `Locked` and `Leaving` it holds the save lock. */
  datatype Pc =
    | Idle
    | Missed(began: nat)                              // found no cache entry, load not done
    | Loaded(began: nat, seen: nat, config: Item)     // loaded without any lock
    | Locked(task: Option<Edit>)                      // a reload has no edit
    | Reread(config: Item)
    | Edited(edit: Edit, wanted: Item)
    | Copied(edit: Edit, wanted: Item, contents: Item)
    | Renamed(wanted: Item)                           // file replaced, cache not yet
    | Leaving

  /** `written` and `edits` are the history: the configurations the file has held, and the edits
      that led from each to the next with the number of lock acquisitions before them. */
  datatype State = State(
    file: Item,
    cache: Option<Item>,
    lock: Option<nat>,
    threads: map<nat, Pc>,
    acquired: nat,
    written: seq<Item>,
    edits: seq<(nat, Edit)>)

  datatype Step =
    | Hit(t: nat, result: Item)
    | Miss(t: nat)
    | Load(t: nat)
    | Enter(t: nat, result: Item)
    | Acquire(t: nat, edit: Option<Edit>)
    | LoadLocked(t: nat)
    | Copy(t: nat)
    | Rename(t: nat)
    | Publish(t: nat)
    | Fail(t: nat)
    | Release(t: nat)

  function Of(s: State, t: nat): Pc { if t in s.threads then s.threads[t] else Idle }

  function Moved(s: State, t: nat, pc: Pc): State { s.(threads := s.threads[t := pc]) }

  predicate Holds(pc: Pc) { !pc.Idle? && !pc.Missed? && !pc.Loaded? }

  /** A save has replaced the file and not yet the cache entry. */
  predicate Pending(s: State) { s.lock.Some? && Of(s, s.lock.value).Renamed? }

  /** How many updates have reached the cache. */
  function Completed(s: State): int { |s.written| - 1 - if Pending(s) then 1 else 0 }

  ghost predicate Init(f: Format, s: State) {
    && Lawful(f) && IsTable(s.file) && s.cache == None && s.lock == None && s.threads == map[] && s.acquired == 0
    && s.edits == [] && Decode(f, s.file).Some? && s.written == [Decode(f, s.file).value]
  }

  ghost predicate Next(f: Format, s: State, step: Step, s': State) {
    match step
    case Hit(t, result) => Of(s, t).Idle? && s.cache == Some(result) && s' == s
    case Miss(t) => Of(s, t).Idle? && s.cache == None && Completed(s) >= 0 && s' == Moved(s, t, Missed(Completed(s)))
    case Load(t) =>
      && Of(s, t).Missed? && Decode(f, s.file).Some? && s.written != []
      && s' == Moved(s, t, Loaded(Of(s, t).began, |s.written| - 1, Decode(f, s.file).value))
    case Enter(t, result) =>
      && Of(s, t).Loaded? && result == (if s.cache.Some? then s.cache.value else Of(s, t).config)
      && s' == Moved(s, t, Idle).(cache := Some(result))
    case Acquire(t, edit) =>
      Of(s, t).Idle? && s.lock == None && s' == Moved(s, t, Locked(edit)).(lock := Some(t), acquired := s.acquired + 1)
    case LoadLocked(t) =>
      && Of(s, t).Locked? && Decode(f, s.file).Some?
      && (match Of(s, t).task
          case None => s' == Moved(s, t, Reread(Decode(f, s.file).value))
          case Some(edit) =>
            var wanted := edit(Decode(f, s.file).value);
            wanted.Some? && IsConfig(f, wanted.value) && s' == Moved(s, t, Edited(edit, wanted.value)))
    case Copy(t) => Of(s, t).Edited? && s' == Moved(s, t, Copied(Of(s, t).edit, Of(s, t).wanted, s.file))
    case Rename(t) =>
      && Of(s, t).Copied? && IsTable(Of(s, t).contents) && IsTable(Of(s, t).wanted)
      && var after := Saved(f, Of(s, t).contents, Of(s, t).wanted);
        && after.Some?
        && s' == Moved(s, t, Renamed(Of(s, t).wanted)).(
             file := after.value, written := s.written + [Of(s, t).wanted],
                 edits := s.edits + [(s.acquired, Of(s, t).edit)])
    case Publish(t) =>
      match Of(s, t) {
        case Reread(config) => s' == Moved(s, t, Leaving).(cache := Some(config))
        case Renamed(wanted) => s' == Moved(s, t, Leaving).(cache := Some(wanted))
        case _ => false
      }
    case Fail(t) =>
      && (Of(s, t).Missed? || Of(s, t).Locked? || Of(s, t).Edited? || Of(s, t).Copied?)
      && s' == Moved(s, t, if Of(s, t).Missed? then Idle else Leaving)
    case Release(t) => Of(s, t).Leaving? && s' == Moved(s, t, Idle).(lock := None)
  }

  // ---------- The invariant ----------

  /** What a thread holds agrees with the file and with the history. */
  ghost predicate Agrees(f: Format, s: State, pc: Pc)
    requires s.written != []
  {
    var last := s.written[|s.written| - 1];
    match pc
    case Missed(began) => began <= Completed(s)
    case Loaded(began, seen, config) => began <= seen < |s.written| && config == s.written[seen]
    case Reread(config) => config == last
    case Edited(edit, wanted) => edit(last) == Some(wanted) && IsConfig(f, wanted)
    case Copied(edit, wanted, contents) => edit(last) == Some(wanted) && IsConfig(f, wanted) && contents == s.file
    case Renamed(wanted) => wanted == last && |s.written| >= 2
    case _ => true
  }

  ghost predicate FileIsLast(f: Format, s: State) {
    && Lawful(f) && IsTable(s.file) && s.written != [] && Decode(f, s.file) == Some(s.written[|s.written| - 1])
  }

  ghost predicate ThreadsAgree(f: Format, s: State) {
    s.written != [] && forall t :: t in s.threads ==>
        Agrees(f, s, s.threads[t]) && (Holds(s.threads[t]) ==> s.lock == Some(t))
  }

  /** The cache holds a configuration at least as new as the last completed update; without an
      entry no update has completed. */
  ghost predicate CacheIsRecent(s: State) {
    Completed(s) >= 0
    && match s.cache
       case None => Completed(s) == 0
       case Some(c) => exists v :: Completed(s) <= v < |s.written| && s.written[v] == c
  }

  /** Every edit led from one configuration to the next; edits are in the order of the lock. */
  ghost predicate Linked(s: State) {
    && |s.written| == |s.edits| + 1
    && (forall i :: 0 <= i < |s.edits| ==> s.edits[i].1(s.written[i]) == Some(s.written[i + 1]))
    && (forall i, j :: 0 <= i < j < |s.edits| ==> s.edits[i].0 < s.edits[j].0)
    && (forall i :: 0 <= i < |s.edits| ==> s.edits[i].0 <= s.acquired)
  }

  /** Only the current holder of the lock can have written under the current acquisition. */
  ghost predicate TicketUnused(s: State) {
    s.lock.Some? && !Of(s, s.lock.value).Renamed? && !Of(s, s.lock.value).Leaving? ==>
      forall i :: 0 <= i < |s.edits| ==> s.edits[i].0 < s.acquired
  }

  ghost predicate Inv(f: Format, s: State) {
    FileIsLast(f, s) && ThreadsAgree(f, s) && CacheIsRecent(s) && Linked(s) && TicketUnused(s)
  }
}
