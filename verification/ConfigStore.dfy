/** The registry of configurations as one thread at a time sees it: cache, listeners and files
    (config/src/config.rs). */
module ConfigStore {
  import opened Wrappers
  import opened TomlMerge
  import opened ConfigFile

  type FilePath = string

  /** A cached configuration with the channels of its listeners. */
  datatype Instance = Instance(config: Item, listeners: map<string, nat>)

  datatype ConfigError = FileNotFound | ParseFailed | UpdateFailed | SaveFailed

  function Listening(instances: map<FilePath, Instance>, path: FilePath): map<string, nat> {
    if path in instances then instances[path].listeners else map[]
  }

  /** How many of the listeners would be reached on a channel. */
  function Reached(listeners: map<string, nat>, isOpen: nat -> bool, channel: nat): nat {
    |set id | id in listeners && listeners[id] == channel && isOpen(channel)|
  }

  ghost predicate Tally(sent: multiset<nat>, listeners: map<string, nat>, isOpen: nat -> bool) {
    forall channel :: sent[channel] == Reached(listeners, isOpen, channel)
  }

  /** Sends one signal to every listener, and collects the listeners that cannot be reached. `sent` holds the
      signals that arrived, by channel. */
  method Notify(listeners: map<string, nat>, isOpen: nat -> bool)
    returns (told: set<string>, sent: multiset<nat>, failed: set<string>)
    ensures told == listeners.Keys
    ensures Tally(sent, listeners, isOpen)
    ensures forall id :: id in failed <==> id in listeners && !isOpen(listeners[id])
  {
    hide Tally;
    told, sent, failed := {}, multiset{}, {};
    var left := listeners.Keys;
    NoneReached(listeners, isOpen);
    while left != {}
      invariant left <= listeners.Keys && told == listeners.Keys - left
      invariant Tally(sent, listeners - left, isOpen)
      invariant forall id :: id in failed <==> id in listeners && id !in left && !isOpen(listeners[id])
      decreases |left|
    {
      var id :| id in left;
      OneReached(sent, listeners, left, id, isOpen);
      if isOpen(listeners[id]) { sent := sent + multiset{listeners[id]}; } else { failed := failed + {id}; }
      told := told + {id};
      left := left - {id};
    }
    assert listeners - left == listeners;
  }

  lemma NoneReached(listeners: map<string, nat>, isOpen: nat -> bool)
    ensures Tally(multiset{}, listeners - listeners.Keys, isOpen)
  {
  }

  lemma OneReached(sent: multiset<nat>, listeners: map<string, nat>, left: set<string>, id: string, isOpen: nat -> bool)
    requires Tally(sent, listeners - left, isOpen) && id in left && left <= listeners.Keys
    ensures Tally(if isOpen(listeners[id]) then sent + multiset{listeners[id]} else sent, listeners - (left - {id}),
                  isOpen)
  {
    hide Reached;
    forall channel
      ensures Reached(listeners - (left - {id}), isOpen, channel)
           == Reached(listeners - left, isOpen, channel) + if channel == listeners[id] && isOpen(channel) then 1 else 0
    {
      OneMore(listeners, left, id, isOpen, channel);
    }
  }

  lemma OneMore(listeners: map<string, nat>, left: set<string>, id: string, isOpen: nat -> bool, channel: nat)
    requires id in left && left <= listeners.Keys
    ensures Reached(listeners - (left - {id}), isOpen, channel)
         == Reached(listeners - left, isOpen, channel) + if channel == listeners[id] && isOpen(channel) then 1 else 0
  {
    var before := set i | i in listeners - left && (listeners - left)[i] == channel && isOpen(channel);
    var after := set i | i in listeners - (left - {id}) && (listeners - (left - {id}))[i] == channel && isOpen(channel);
    if channel == listeners[id] && isOpen(channel) { assert after == before + {id}; } else { assert after == before; }
  }

  /** A change of the configuration at `path` as cache and listeners see it: only this path's entry is
      replaced, its listeners are the old ones whose channel is open, and each of those got one signal. */
  ghost predicate Published(before: map<FilePath, Instance>, after: map<FilePath, Instance>, path: FilePath,
                            config: Item,
                            isOpen: nat -> bool, sent: multiset<nat>, sentBefore: multiset<nat>)
  {
    && path in after && after[path].config == config && after - {path} == before - {path}
    && (forall id :: id in after[path].listeners <==>
          path in before && id in before[path].listeners && isOpen(before[path].listeners[id]))
    && (forall id :: id in after[path].listeners ==> after[path].listeners[id] == before[path].listeners[id])
    && (forall channel :: sent[channel] == sentBefore[channel] + Reached(Listening(before, path), isOpen, channel))
  }

  class ConfigRegistry {
    var instances: map<FilePath, Instance>
    var files: map<FilePath, Item>
    var signals: multiset<nat>  // what has arrived, by channel

    constructor (onDisk: map<FilePath, Item>)
      ensures instances == map[] && files == onDisk && signals == multiset{}
    {
      instances, files, signals := map[], onDisk, multiset{};
    }

    /** A path that is not cached has no listeners. */
    method AddListener(path: FilePath, id: string, channel: nat)
      modifies this`instances
      ensures instances == if path in old(instances)
                           then old(instances)[path := Instance(old(instances[path]).config,
                                                                old(instances[path]).listeners[id := channel])]
                           else old(instances)
    {
      if path in instances {
        instances := instances[path := instances[path].(listeners := instances[path].listeners[id := channel])];
      }
    }

    method RemoveListener(path: FilePath, id: string)
      modifies this`instances
      ensures instances == if path in old(instances)
                           then old(instances)[path := Instance(old(instances[path]).config,
                                                                old(instances[path]).listeners - {id})]
                           else old(instances)
    {
      if path in instances {
        instances := instances[path := instances[path].(listeners := instances[path].listeners - {id})];
      }
    }

    /** Enters a loaded configuration unless the cache has one already, which then wins. */
    method CacheLoaded(path: FilePath, config: Item) returns (r: Item)
      modifies this`instances
      ensures path in old(instances) ==> r == old(instances[path]).config && instances == old(instances)
      ensures path !in old(instances) ==> r == config && instances == old(instances)[path := Instance(config, map[])]
    {
      if path in instances {
        r := instances[path].config;
      } else {
        instances := instances[path := Instance(config, map[])];
        r := config;
      }
    }

    /** Replaces the cached configuration, tells every listener, and forgets the listeners whose
        channel is closed. */
    method SetGlobal(path: FilePath, config: Item, isOpen: nat -> bool) returns (told: set<string>)
      modifies this`instances, this`signals
      ensures told == Listening(old(instances), path).Keys
      ensures Published(old(instances), instances, path, config, isOpen, signals, old(signals))
    {
      var listeners := Listening(instances, path);
      instances := instances[path := Instance(config, listeners)];
      var sent, failed;
      told, sent, failed := Notify(listeners, isOpen);
      signals := signals + sent;
      if failed != {} {
        instances := instances[path := Instance(config, listeners - failed)];
      }
      assert failed == {} ==> listeners - failed == listeners;
    }

    method Load(f: Format, path: FilePath) returns (r: Result<Item, ConfigError>)
      ensures r.Ok? <==> path in files && Decode(f, files[path]).Some?
      ensures r.Ok? ==> Some(r.value) == Decode(f, files[path])
      ensures r.Err? ==> r.error == if path !in files then FileNotFound else ParseFailed
    {
      if path !in files { return Err(FileNotFound); }
      var decoded := Decode(f, files[path]);
      if decoded.Some? { r := Ok(decoded.value); } else { r := Err(ParseFailed); }
    }

    method GetGlobal(f: Format, path: FilePath) returns (r: Result<Item, ConfigError>)
      modifies this`instances
      ensures path in old(instances) ==> r == Ok(old(instances[path]).config) && instances == old(instances)
      ensures path !in old(instances) ==> (r.Ok? <==> path in files && Decode(f, files[path]).Some?)
      ensures path !in old(instances) && r.Ok? ==>
                Some(r.value) == Decode(f, files[path]) && instances == old(instances)[path := Instance(r.value, map[])]
      ensures r.Err? ==> instances == old(instances)
    {
      if path in instances { return Ok(instances[path].config); }
      r := Load(f, path);
      if r.Ok? {
        var cached := CacheLoaded(path, r.value);
        r := Ok(cached);
      }
    }

    method ReloadGlobal(f: Format, path: FilePath, isOpen: nat -> bool)
      returns (r: Result<Item, ConfigError>, told: set<string>)
      modifies this`instances, this`signals
      ensures match r
              case Ok(config) =>
                && path in files && Decode(f, files[path]) == Some(config)
                && told == Listening(old(instances), path).Keys
                && Published(old(instances), instances, path, config, isOpen, signals, old(signals))
              case Err(e) =>
                && (if path !in files then e == FileNotFound else Decode(f, files[path]) == None && e == ParseFailed)
                && told == {} && instances == old(instances) && signals == old(signals)
    {
      hide Published, Decode;
      told := {};
      r := Load(f, path);
      if r.Ok? { told := SetGlobal(path, r.value, isOpen); }
    }

    /** Load, edit and save. Success means that file and cache both hold the edited configuration and every
        listener has been told; failure leaves everything as it was, and tells nobody. `saves` tells whether
        the file operations succeed. */
    method UpdateGlobal(f: Format, path: FilePath, edit: Item -> Option<Item>, saves: bool, isOpen: nat -> bool)
      returns (r: Result<(), ConfigError>, told: set<string>)
      requires Lawful(f)
      requires forall c, d :: edit(c) == Some(d) ==> IsConfig(f, d)
      requires path in files ==> IsTable(files[path])
      modifies this
      ensures match r
              case Ok(_) =>
                && saves && path in old(files) && Decode(f, old(files[path])).Some?
                && var wanted := edit(Decode(f, old(files[path])).value);
                  && wanted.Some? && path in files && Decode(f, files[path]) == wanted
                  && files - {path} == old(files) - {path}
                  && told == Listening(old(instances), path).Keys
                  && Published(old(instances), instances, path, wanted.value, isOpen, signals, old(signals))
              case Err(e) =>
                && (if path !in files then e == FileNotFound
                    else if Decode(f, files[path]) == None then e == ParseFailed
                    else if edit(Decode(f, files[path]).value) == None then e == UpdateFailed
                    else !saves && e == SaveFailed)
                && files == old(files) && told == {} && instances == old(instances) && signals == old(signals)
    {
      hide Lawful, Decode, Merge, Published;
      told := {};
      var loaded := Load(f, path);
      if loaded.Err? { return Err(loaded.error), {}; }
      var wanted := edit(loaded.value);
      if wanted == None { return Err(UpdateFailed), {}; }
      if !saves { return Err(SaveFailed), {}; }
      SavedReadsBack(f, files[path], wanted.value);
      files := files[path := Saved(f, files[path], wanted.value).value];
      told := SetGlobal(path, wanted.value, isOpen);
      r := Ok(());
    }
  }
}
