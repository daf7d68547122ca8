/** The encrypted seed file, its backups, and changing its password through steps any of which may
    fail or be the last (impls/src/lifecycle/seed.rs, impls/src/lifecycle/default.rs). */
module SeedFile {
  import opened Wrappers
  import opened Decimal

  type Seed = seq<bv8>
  type Name = string

  /** A seed file: complete, or cut short while being written. */
  datatype File = Encrypted(seed: Seed, password: string) | Torn(text: string)

  type Dir = map<Name, File>

  datatype SeedError = WalletSeedDoesntExist | WalletSeedExists | Format | WrongPassword | IO | Mnemonic | NotEqual

  /** How far a write gets. */
  datatype Write = NotCreated | CutShort(text: string) | Complete

  /** What goes wrong in one operation. */
  datatype Faults = Faults(renameFails: bool, write: Write, removeFails: bool)

  /** Seeds as word lists and back. */
  datatype Words = Words(toMnemonic: Seed -> Option<string>, fromMnemonic: string -> Option<Seed>)

  ghost predicate WordsRoundTrip(w: Words) {
    forall s: Seed, m: string :: w.toMnemonic(s) == Some(m) ==> w.fromMnemonic(m) == Some(s)
  }

  const SEED_FILE: Name := "wallet.seed"

  /** A wrong password fails to decrypt. */
  function Decrypt(f: File, password: string): Result<Seed, SeedError> {
    match f
    case Torn(_) => Err(Format)
    case Encrypted(seed, pw) => if pw == password then Ok(seed) else Err(WrongPassword)
  }

  function Opened(d: Dir, password: string): Result<Seed, SeedError> {
    if SEED_FILE in d then Decrypt(d[SEED_FILE], password) else Err(WalletSeedDoesntExist)
  }

  /** The candidates for a backup's name, in the order they are tried. */
  function BackupName(i: nat): Name {
    if i == 0 then SEED_FILE + ".bak" else SEED_FILE + ".bak." + Dec(i)
  }

  lemma BackupNamesDiffer(i: nat, j: nat)
    ensures BackupName(i) == BackupName(j) <==> i == j
    ensures BackupName(i) != SEED_FILE
  {
    var p := SEED_FILE + ".bak.";
    assert |BackupName(i)| > |SEED_FILE|;
    if i > 0 && j > 0 && BackupName(i) == BackupName(j) {
      assert BackupName(i)[|p|..] == Dec(i) && BackupName(j)[|p|..] == Dec(j);
      DecInjective(i, j);
    }
  }

  // ---------- What a directory holds ----------

  /** Some complete file holds this seed. */
  ghost predicate HoldsSeed(d: Dir, seed: Seed) {
    exists n :: n in d && d[n].Encrypted? && d[n].seed == seed
  }

  /** Some file opens with one of two passwords and yields the seed. */
  ghost predicate Recoverable(d: Dir, seed: Seed, old_: string, new_: string) {
    exists n :: n in d && (Decrypt(d[n], old_) == Ok(seed) || Decrypt(d[n], new_) == Ok(seed))
  }

  /** No seed held in one directory is missing from the other. */
  ghost predicate KeepsSeeds(a: Dir, b: Dir) {
    forall s: Seed :: HoldsSeed(a, s) ==> HoldsSeed(b, s)
  }

  lemma RenameKeeps(d: Dir, from: Name, to: Name)
    requires from in d && to !in d
    ensures KeepsSeeds(d, (d - {from})[to := d[from]])
  {
    var after := (d - {from})[to := d[from]];
    forall s | HoldsSeed(d, s) ensures HoldsSeed(after, s) {
      var n :| n in d && d[n].Encrypted? && d[n].seed == s;
      assert after[if n == from then to else n] == d[n];
    }
  }

  lemma AddKeeps(d: Dir, n: Name, f: File)
    requires n in d ==> d[n].Torn?
    ensures KeepsSeeds(d, d[n := f])
  {
    forall s | HoldsSeed(d, s) ensures HoldsSeed(d[n := f], s) {
      var m :| m in d && d[m].Encrypted? && d[m].seed == s;
      assert d[n := f][m] == d[m];
    }
  }

  lemma RemoveKeeps(d: Dir, n: Name, other: Name)
    requires n in d && other in d && other != n
    requires d[n].Encrypted? ==> d[other].Encrypted? && d[other].seed == d[n].seed
    ensures KeepsSeeds(d, d - {n})
  {
    forall s | HoldsSeed(d, s) ensures HoldsSeed(d - {n}, s) {
      var m :| m in d && d[m].Encrypted? && d[m].seed == s;
      assert (d - {n})[if m == n then other else m].Encrypted?;
    }
  }

  // ---------- The operations ----------

  /** The data directory. `trail` is every state the disk has been in, so everything a crash can
      leave behind. */
  class SeedDir {
    var files: Dir
    ghost var trail: seq<Dir>
    const words: Words

    /** No seed ever held has been lost at any later point. */
    ghost predicate Valid()
      reads this
    {
      && WordsRoundTrip(words)
      && trail != [] && trail[|trail| - 1] == files
      && forall i, j :: 0 <= i <= j < |trail| ==> KeepsSeeds(trail[i], trail[j])
    }

    constructor (files: Dir, words: Words)
      requires WordsRoundTrip(words)
      ensures Valid() && this.files == files && this.words == words && trail == [files]
    {
      this.files, this.words, this.trail := files, words, [files];
    }

    /** One atomic change of the disk. */
    method Change(d: Dir)
      requires Valid() && KeepsSeeds(files, d)
      modifies this
      ensures Valid() && files == d && trail == old(trail) + [d]
    {
      files, trail := d, trail + [d];
    }

    method FromFile(password: string) returns (r: Result<Seed, SeedError>)
      ensures r == Opened(files, password)
    {
      if SEED_FILE !in files { return Err(WalletSeedDoesntExist); }
      r := Decrypt(files[SEED_FILE], password);
    }

    /** The first free name. */
    method FreeBackupName() returns (name: Name, ghost k: nat)
      ensures name == BackupName(k) && name !in files && name != SEED_FILE
      ensures name == if k == 0 then "wallet.seed.bak" else "wallet.seed.bak." + Dec(k)
      ensures forall j: nat :: j < k ==> BackupName(j) in files
    {
      name, k := SEED_FILE + ".bak", 0;
      var i := 1;
      ghost var seen: set<Name> := {};
      while name in files
        invariant i == k + 1 && name == BackupName(k)
        invariant seen <= files.Keys
        invariant forall j: nat :: j < k ==> BackupName(j) in files
        invariant forall n :: n in seen ==> exists j: nat :: j < k && BackupName(j) == n
        decreases files.Keys - seen
      {
        forall j: nat | j < k ensures BackupName(j) != name { BackupNamesDiffer(j, k); }
        seen := seen + {name};
        name := SEED_FILE + ".bak." + Dec(i);
        k, i := k + 1, i + 1;
      }
      BackupNamesDiffer(k, k);
    }

    /** Renames the seed file to a name no file has. */
    method BackupSeed(faults: Faults) returns (r: Result<Name, SeedError>)
      requires Valid()
      modifies this
      ensures Valid()
      ensures if SEED_FILE in old(files) && !faults.renameFails then r.Ok? else r == Err(IO)
      ensures r.Ok? ==> r.value != SEED_FILE && r.value !in old(files)
                        && files == (old(files) - {SEED_FILE})[r.value := old(files)[SEED_FILE]]
                        && trail == old(trail) + [files]
      ensures r.Err? ==> files == old(files) && trail == old(trail)
    {
      ghost var k;
      var name;
      name, k := FreeBackupName();
      if SEED_FILE !in files || faults.renameFails { return Err(IO); }
      RenameKeeps(files, SEED_FILE, name);
      Change((files - {SEED_FILE})[name := files[SEED_FILE]]);
      r := Ok(name);
    }

    /** Creates the seed file, then fills it; either may not happen. */
    method WriteSeed(seed: Seed, password: string, faults: Faults) returns (r: Result<(), SeedError>)
      requires Valid() && SEED_FILE !in files
      modifies this
      ensures Valid()
      ensures if faults.write.Complete? then r.Ok? else r == Err(IO)
      ensures faults.write.NotCreated? ==> files == old(files) && trail == old(trail)
      ensures faults.write.CutShort? ==> files == old(files)[SEED_FILE := Torn(faults.write.text)]
      ensures faults.write.Complete? ==> files == old(files)[SEED_FILE := Encrypted(seed, password)]
      ensures old(trail) <= trail
      ensures forall i :: |old(trail)| <= i < |trail| ==> trail[i] - {SEED_FILE} == old(files)
    {
      if faults.write.NotCreated? { return Err(IO); }
      AddKeeps(files, SEED_FILE, Torn(""));
      Change(files[SEED_FILE := Torn("")]);
      var file := if faults.write.Complete? then Encrypted(seed, password) else Torn(faults.write.text);
      AddKeeps(files, SEED_FILE, file);
      Change(files[SEED_FILE := file]);
      r := if faults.write.Complete? then Ok(()) else Err(IO);
    }

    /** Refuses to touch an existing seed file. */
    method InitFile(phrase: string, password: string, faults: Faults) returns (r: Result<Seed, SeedError>)
      requires Valid()
      modifies this
      ensures Valid() && old(trail) <= trail
      ensures SEED_FILE in old(files) ==> r == Err(WalletSeedExists) && files == old(files) && trail == old(trail)
      ensures r.Ok? <==> SEED_FILE !in old(files) && words.fromMnemonic(phrase).Some? && faults.write.Complete?
      ensures r.Ok? ==> words.fromMnemonic(phrase) == Some(r.value)
                        && files == old(files)[SEED_FILE := Encrypted(r.value, password)]
      ensures r.Err? && SEED_FILE !in old(files) ==>
                files == old(files) || exists text :: files == old(files)[SEED_FILE := Torn(text)]
      ensures forall i :: |old(trail)| <= i < |trail| ==> trail[i] - {SEED_FILE} == old(files)
    {
      if SEED_FILE in files { return Err(WalletSeedExists); }
      var seed := words.fromMnemonic(phrase);
      if seed.None? { return Err(Mnemonic); }
      var written := WriteSeed(seed.value, password, faults);
      r := if written.Ok? then Ok(seed.value) else Err(IO);
    }

    /** Deletes the seed file if there is one, whatever it holds. No seed is lost as long as another file
        holds the same one. */
    method DeleteSeedFile()
      requires Valid()
      modifies this
      ensures files == old(files) - {SEED_FILE}
      ensures trail == if SEED_FILE in old(files) then old(trail) + [files] else old(trail)
      ensures Valid() <==> KeepsSeeds(old(files), files)
    {
      if SEED_FILE in files {
        ghost var before, past := files, trail;
        files, trail := files - {SEED_FILE}, trail + [files - {SEED_FILE}];
        assert trail[|past| - 1] == before && trail[|past|] == files;
        if KeepsSeeds(before, files) { TrailGrows(past, files); }
      } else {
        assert files - {SEED_FILE} == files;
      }
    }

    /** Recovery from a word list puts an existing seed file aside first, under a name no file has, even if the
        words then turn out to be wrong. */
    method RecoverFromPhrase(phrase: string, password: string, faults: Faults) returns (r: Result<(), SeedError>)
      requires Valid()
      modifies this
      ensures Valid() && old(trail) <= trail
      ensures var stuck, seed := SEED_FILE in old(files) && faults.renameFails, words.fromMnemonic(phrase);
        && (r.Ok? <==> !stuck && seed.Some? && faults.write.Complete?)
        && (stuck ==> r == Err(IO) && files == old(files))
        && (!stuck && seed == None ==> r == Err(Mnemonic) && SEED_FILE !in files)
        && (r.Ok? ==> SEED_FILE in files && files[SEED_FILE] == Encrypted(seed.value, password))
      ensures SEED_FILE !in old(files) ==> files - {SEED_FILE} == old(files)
      ensures SEED_FILE in old(files) && !faults.renameFails ==>
                exists name :: name !in old(files) &&
                    files - {SEED_FILE} == (old(files) - {SEED_FILE})[name := old(files)[SEED_FILE]]
      ensures forall n :: n in old(files) && n != SEED_FILE ==> n in files && files[n] == old(files)[n]
    {
      if SEED_FILE in files {
        var backup := BackupSeed(faults);
        if backup.Err? { return Err(backup.error); }
        assert files - {SEED_FILE} == files;
      }
      assert SEED_FILE !in files && files - {SEED_FILE} == files;
      var seed := words.fromMnemonic(phrase);
      if seed.None? { return Err(Mnemonic); }
      var written := WriteSeed(seed.value, password, faults);
      r := written;
    }

    /** Back up, write anew, check, and only then drop the backup. */
    method ChangePassword(old_: string, new_: string, faults: Faults) returns (r: Result<(), SeedError>)
      requires Valid()
      modifies this
      ensures Valid() && old(trail) <= trail
      ensures Opened(old(files), old_).Err? ==> r.Err? && files == old(files) && trail == old(trail)
      ensures Opened(old(files), old_).Ok? ==>
                forall i :: |old(trail)| <= i < |trail| ==>
                    Recoverable(trail[i], Opened(old(files), old_).value, old_, new_)
      ensures r.Ok? <==> Opened(old(files), old_).Ok? && words.toMnemonic(Opened(old(files), old_).value).Some?
                         && faults == Faults(false, Complete, false)
      ensures r.Ok? ==> files == old(files)[SEED_FILE := Encrypted(Opened(old(files), old_).value, new_)]
                        && Opened(files, new_) == Opened(old(files), old_)
                        && (old_ != new_ ==> Opened(files, old_) == Err(WrongPassword))
      ensures forall i :: |old(trail)| <= i < |trail| ==> OthersKept(old(files), trail[i])
    {
      hide KeepsSeeds, Recoverable, OthersKept;
      var loaded := FromFile(old_);
      if loaded.Err? { return Err(loaded.error); }
      var seed := loaded.value;
      var mnemonic := words.toMnemonic(seed);
      if mnemonic.None? { return Err(Mnemonic); }
      var backup := BackupSeed(faults);
      if backup.Err? { return Err(backup.error); }
      ghost var aside := files;
      Unaltered(aside);
      DeleteSeedFile();
      var _ := InitFile(mnemonic.value, new_, faults);
      forall i | |old(trail)| <= i < |trail|
        ensures Recoverable(trail[i], seed, old_, new_) && OthersKept(old(files), trail[i])
      {
        WhileAside(old(files), backup.value, trail[i], seed, old_, new_);
      }
      r := Confirm(seed, new_, backup.value, faults);
      if r.Ok? { Confirmed(old(files), backup.value, files, seed, old_, new_); }
    }

    /** Reads the new file back and drops the backup if it holds the same seed. */
    method Confirm(seed: Seed, new_: string, backup: Name, faults: Faults) returns (r: Result<(), SeedError>)
      requires Valid() && backup in files && backup != SEED_FILE && files[backup].Encrypted?
               && files[backup].seed == seed
      modifies this
      ensures Valid()
      ensures r.Ok? <==> Opened(old(files), new_) == Ok(seed) && !faults.removeFails
      ensures r.Ok? ==> files == old(files) - {backup} && trail == old(trail) + [files]
      ensures r.Err? ==> files == old(files) && trail == old(trail)
    {
      var again := FromFile(new_);
      if again.Err? { return Err(again.error); }
      if again.value != seed { return Err(NotEqual); }
      if faults.removeFails { return Err(IO); }
      RemoveKeeps(files, backup, SEED_FILE);
      Change(files - {backup});
      r := Ok(());
    }
  }

  /** Every file but the seed file is what it was. */
  ghost predicate OthersKept(before: Dir, after: Dir) {
    forall n :: n in before && n != SEED_FILE ==> n in after && after[n] == before[n]
  }

  lemma TrailGrows(trail: seq<Dir>, d: Dir)
    requires trail != [] && KeepsSeeds(trail[|trail| - 1], d)
    requires forall i, j :: 0 <= i <= j < |trail| ==> KeepsSeeds(trail[i], trail[j])
    ensures forall i, j :: 0 <= i <= j < |trail + [d]| ==> KeepsSeeds((trail + [d])[i], (trail + [d])[j])
  {
    forall i, j | 0 <= i <= j < |trail + [d]| ensures KeepsSeeds((trail + [d])[i], (trail + [d])[j]) {
      if i < |trail| { assert KeepsSeeds(trail[i], trail[|trail| - 1]); }
    }
  }

  lemma Unaltered(d: Dir)
    requires SEED_FILE !in d
    ensures d - {SEED_FILE} == d && KeepsSeeds(d, d - {SEED_FILE})
  {
    assert d - {SEED_FILE} == d;
  }

  /** As long as the backup is there, it opens with the old password. */
  lemma WhileAside(before: Dir, backup: Name, d: Dir, seed: Seed, old_: string, new_: string)
    requires SEED_FILE in before && backup != SEED_FILE && backup !in before
    requires Decrypt(before[SEED_FILE], old_) == Ok(seed)
    requires d - {SEED_FILE} == (before - {SEED_FILE})[backup := before[SEED_FILE]]
    ensures Recoverable(d, seed, old_, new_) && OthersKept(before, d)
  {
    var aside := (before - {SEED_FILE})[backup := before[SEED_FILE]];
    assert forall n :: n in aside ==> n in d && d[n] == aside[n];
    assert d[backup] == before[SEED_FILE];
  }

  /** When it is dropped, the seed file opens with the new one. */
  lemma Confirmed(before: Dir, backup: Name, d: Dir, seed: Seed, old_: string, new_: string)
    requires SEED_FILE in before && backup != SEED_FILE && backup !in before
    requires d == (before - {SEED_FILE})[backup := before[SEED_FILE]][SEED_FILE := Encrypted(seed, new_)] - {backup}
    ensures d == before[SEED_FILE := Encrypted(seed, new_)]
    ensures Recoverable(d, seed, old_, new_) && OthersKept(before, d)
  {
    assert Decrypt(d[SEED_FILE], new_) == Ok(seed);
  }
}
