/**
Atomic replacement of a file, and the credential store built on it.

`files` is the directory; the ghost `trail` records every state it goes through, so a statement about
all of it is a statement about a process that dies, or a machine that loses power, at any moment. A file
that was not fsynced may be lost or torn by a power cut; `synced` says which files cannot be.
*/
module AtomicFile {
  import opened Options

  datatype File = File(data: string, synced: bool)

  type Directory = map<string, File>

  datatype Outcome = Renamed | Declined | Failed

  // Which of the steps fail, and how much of the data a failing write leaves in the temporary file.
  datatype Faults = Faults(mkdir: bool, open: bool, write: bool, written: nat, sync: bool, rename: bool, remove: bool)

  predicate Clean(f: Faults) {
    !f.mkdir && !f.open && !f.write && !f.sync && !f.rename
  }

  // What a reader, or a process started after a power cut, can find at `path`: nothing new, or all of it.
  ghost predicate OldOrNew(before: Directory, now: Directory, path: string, data: string) {
    || ((path in now <==> path in before) && (path in now ==> now[path] == before[path]))
    || (path in now && now[path] == File(data, true))
  }

  ghost predicate SameExcept(before: Directory, now: Directory, names: set<string>) {
    forall n :: n !in names ==> (n in now <==> n in before) && (n in now ==> now[n] == before[n])
  }

  class Disk {
    var files: Directory
    ghost var trail: seq<Directory>

    constructor (files: Directory)
      ensures this.files == files && trail == [files]
    {
      this.files := files;
      trail := [files];
    }

    method Put(name: string, file: File)
      modifies this
      ensures files == old(files)[name := file] && trail == old(trail) + [files]
    {
      files := files[name := file];
      trail := trail + [files];
    }

    // `rm` with force: a missing file is no error.
    method Remove(name: string)
      modifies this
      ensures files == old(files) - {name} && trail == old(trail) + [files]
    {
      files := files - {name};
      trail := trail + [files];
    }

    method Rename(from: string, to: string)
      requires from in files && from != to
      modifies this
      ensures files == old(files)[to := old(files)[from]] - {from} && trail == old(trail) + [files]
    {
      files := files[to := files[from]] - {from};
      trail := trail + [files];
    }
  }

  // Since the trail was `start` long, nothing but `tmp` has changed.
  ghost predicate OnlyTemp(before: Directory, trail: seq<Directory>, start: nat, tmp: string) {
    forall k :: start <= k < |trail| ==> SameExcept(before, trail[k], {tmp})
  }

  method WriteTemp(disk: Disk, tmp: string, data: string, faults: Faults) returns (ok: bool)
    modifies disk
    ensures ok == (!faults.open && !faults.write && !faults.sync)
    ensures ok ==> disk.files == old(disk.files)[tmp := File(data, true)]
    ensures SameExcept(old(disk.files), disk.files, {tmp})
    ensures old(disk.trail) <= disk.trail && OnlyTemp(old(disk.files), disk.trail, |old(disk.trail)|, tmp)
  {
    if faults.open {
      return false;
    }
    disk.Put(tmp, File("", false));
    if faults.write {
      disk.Put(tmp, File(if faults.written < |data| then data[..faults.written] else data, false));
      return false;
    }
    disk.Put(tmp, File(data, false));
    if faults.sync {
      return false;
    }
    // From here the data is durable; an error while closing the file is ignored.
    disk.Put(tmp, File(data, true));
    ok := true;
  }

  method Cleanup(disk: Disk, tmp: string, faults: Faults)
    modifies disk
    ensures disk.files == if faults.remove then old(disk.files) else old(disk.files) - {tmp}
    ensures disk.trail == if faults.remove then old(disk.trail) else old(disk.trail) + [disk.files]
  {
    if !faults.remove {
      disk.Remove(tmp);
    }
  }

  // Write a temporary file, fsync it, ask whether the write is still wanted, rename it. `wanted` is the
  // answer at that moment. It resolves with the new file in place, or declined, or rejects; a rejection
  // never took effect. At every moment the file is the old one or the whole new one, on a disk that may
  // lose power. An error of the directory fsync after the rename is only logged, so it is no fault here.
  method WriteFileAtomic(disk: Disk, path: string, tmp: string, data: string, wanted: bool, faults: Faults)
    returns (r: Outcome)
    requires tmp != path && tmp !in disk.files
    modifies disk
    ensures r == if !Clean(faults.(rename := false)) then Failed else if !wanted then Declined
                 else if faults.rename then Failed else Renamed
    ensures r.Renamed? ==> disk.files == old(disk.files)[path := File(data, true)]
    ensures !r.Renamed? ==> SameExcept(old(disk.files), disk.files, {tmp})
    ensures tmp in disk.files ==> faults.remove
    ensures old(disk.trail) <= disk.trail
    ensures forall k :: |old(disk.trail)| <= k < |disk.trail| ==> OldOrNew(old(disk.files), disk.trail[k], path, data)
    ensures !r.Renamed? ==> OnlyTemp(old(disk.files), disk.trail, |old(disk.trail)|, tmp)
  {
    if faults.mkdir {
      return Failed;
    }
    var written := WriteTemp(disk, tmp, data, faults);
    if written && wanted && !faults.rename {
      disk.Rename(tmp, path);
      return Renamed;
    }
    Cleanup(disk, tmp, faults);
    r := if written && !wanted then Declined else Failed;
  }

  // -------------------------------------------------------------------------------- credentials

  datatype LoadResult = Loaded(creds: string) | Missing | Unreadable | Undecipherable

  predicate StartsWith(s: string, prefix: string) {
    prefix <= s
  }

  predicate EndsWith(s: string, suffix: string) {
    |suffix| <= |s| && s[|s| - |suffix|..] == suffix
  }

  // A temporary file of the session file, of this process or of one that died.
  predicate IsTemp(path: string, name: string) {
    StartsWith(name, path + ".") && EndsWith(name, ".tmp")
  }

  function TempName(path: string, id: string): (t: string)
    ensures IsTemp(path, t) && t != path
  {
    var t := path + "." + id + ".tmp";
    assert path + "." <= t by { assert t[..|path| + 1] == path + "."; }
    t
  }

  // What is taken for a temporary file: the names `writeFileAtomic` makes, and the one where the two dots of
  // such a name fall together.
  lemma TempNamesExactly(path: string, name: string)
    ensures IsTemp(path, name) <==> name == path + ".tmp" || exists id :: name == TempName(path, id)
  {
    if IsTemp(path, name) && |name| >= |path| + 5 {
      var id := name[|path| + 1..|name| - 4];
      assert name[..|path| + 1] == path + ".";
      assert name == path + "." + id + ".tmp";
      assert name == TempName(path, id);
    } else if IsTemp(path, name) {
      OverlapIsShort(path, name);
      assert name[..|path| + 1] == path + "." && name[|name| - 4..] == ".tmp";
      assert name == path + ".tmp";
    }
    if name == path + ".tmp" {
      assert name[..|path| + 1] == path + ".";
    }
  }

  // The prefix ends with the only dot that the suffix begins with, so they overlap in that dot at most.
  lemma OverlapIsShort(path: string, name: string)
    requires IsTemp(path, name)
    ensures |name| >= |path| + 4
  {
    assert name[|path|] == (path + ".")[|path|] == '.';
    var suffix := name[|name| - 4..];
    assert suffix == ".tmp" && forall k :: 0 <= k < 4 ==> suffix[k] == name[|name| - 4 + k];
    assert suffix[1] != '.' && suffix[2] != '.' && suffix[3] != '.';
  }

  // What `load` reads from a directory, with the decryption of this key; `None` is a blob it rejects.
  function LoadFrom(files: Directory, path: string, decrypt: string -> Option<string>): LoadResult {
    if path !in files then Missing
    else match decrypt(files[path].data) { case None => Undecipherable case Some(c) => Loaded(c) }
  }

  class CredentialStore {
    const path: string
    const encrypt: string -> string
    const decrypt: string -> Option<string>
    var swept: bool

    ghost predicate Valid() reads this {
      forall c :: decrypt(encrypt(c)) == Some(c)
    }

    constructor (path: string, encrypt: string -> string, decrypt: string -> Option<string>)
      requires forall c :: decrypt(encrypt(c)) == Some(c)
      ensures Valid() && !swept && this.path == path && this.encrypt == encrypt && this.decrypt == decrypt
    {
      this.path, this.encrypt, this.decrypt := path, encrypt, decrypt;
      swept := false;
    }

    // Remove the temporary files listed; a removal that fails is only logged. `names` is the directory
    // listing, `stuck` the files that cannot be removed.
    method RemoveTemps(disk: Disk, names: seq<string>, stuck: set<string>)
      modifies disk
      ensures disk.files == old(disk.files) - (set n | n in names && IsTemp(path, n) && n !in stuck)
      ensures SameExcept(old(disk.files), disk.files, set n | n in names && IsTemp(path, n))
      ensures path in disk.files <==> path in old(disk.files)
      ensures LoadFrom(disk.files, path, decrypt) == LoadFrom(old(disk.files), path, decrypt)
    {
      for i := 0 to |names|
        invariant disk.files == old(disk.files) - (set n | n in names[..i] && IsTemp(path, n) && n !in stuck)
      {
        ghost var done := set n | n in names[..i] && IsTemp(path, n) && n !in stuck;
        ghost var done' := set n | n in names[..i + 1] && IsTemp(path, n) && n !in stuck;
        assert names[..i + 1] == names[..i] + [names[i]];
        if IsTemp(path, names[i]) && names[i] !in stuck {
          assert done' == done + {names[i]};
          disk.Remove(names[i]);
        } else {
          assert done' == done;
        }
      }
      assert names[..|names|] == names;
      assert !IsTemp(path, path);
    }

    // The first load of a process also sweeps the temporary files a dead process left. It never changes
    // what it then reads.
    method Load(disk: Disk, names: seq<string>, stuck: set<string>, readFails: bool) returns (r: LoadResult)
      modifies this, disk
      ensures swept
      ensures disk.files == if old(swept) then old(disk.files)
                            else old(disk.files) - (set n | n in names && IsTemp(path, n) && n !in stuck)
      ensures r == if readFails && path in old(disk.files) then Unreadable else LoadFrom(old(disk.files), path, decrypt)
    {
      if !swept {
        swept := true;
        RemoveTemps(disk, names, stuck);
      }
      if path !in disk.files {
        return Missing;
      }
      if readFails {
        return Unreadable;
      }
      r := LoadFrom(disk.files, path, decrypt);
    }

    // A save that renamed is what the next load reads; one that declined or failed left what was there,
    // and at every moment in between a reader finds the old session or the new one.
    method Save(disk: Disk, creds: string, id: string, wanted: bool, faults: Faults) returns (r: Outcome)
      requires Valid() && TempName(path, id) !in disk.files
      modifies disk
      ensures r.Renamed? ==> LoadFrom(disk.files, path, decrypt) == Loaded(creds)
      ensures !r.Renamed? ==> LoadFrom(disk.files, path, decrypt) == LoadFrom(old(disk.files), path, decrypt)
      ensures r.Declined? ==> !wanted
      ensures r.Renamed? ==> wanted && Clean(faults)
      ensures forall k :: |old(disk.trail)| <= k < |disk.trail| ==>
        LoadFrom(disk.trail[k], path, decrypt) in {LoadFrom(old(disk.files), path, decrypt), Loaded(creds)}
      ensures SameExcept(old(disk.files), disk.files, {path, TempName(path, id)})
    {
      ghost var before := disk.files;
      ghost var start := |disk.trail|;
      r := WriteFileAtomic(disk, path, TempName(path, id), encrypt(creds), wanted, faults);
      forall k | start <= k < |disk.trail|
        ensures LoadFrom(disk.trail[k], path, decrypt) in {LoadFrom(before, path, decrypt), Loaded(creds)}
      {
        assert OldOrNew(before, disk.trail[k], path, encrypt(creds));
      }
    }

    // A clear that succeeds leaves no session, also not in a temporary file that could be removed; one
    // that fails leaves the session file alone.
    method Clear(disk: Disk, names: seq<string>, stuck: set<string>) returns (ok: bool)
      modifies disk
      ensures ok == (path !in stuck)
      ensures ok ==> LoadFrom(disk.files, path, decrypt) == Missing
      ensures ok ==> forall n :: n in disk.files && n in names && IsTemp(path, n) ==> n in stuck
      ensures !ok ==> disk.files == old(disk.files)
      ensures SameExcept(old(disk.files), disk.files, {path} + set n | n in names && IsTemp(path, n))
    {
      if path in stuck {
        return false;
      }
      disk.Remove(path);
      RemoveTemps(disk, names, stuck);
      ok := true;
    }
  }
}
