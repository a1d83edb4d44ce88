// `ZipExtractor`: flattens the non-directory entries of a zip archive into one
// destination directory, each under its base name, optionally keeping only one member.

module Compress {
  import opened Wrappers

  type Bytes = seq<bv8>

  /** One entry of `ZipFile.infolist()`, in archive order: its name and its content. */
  datatype ZipEntry = ZipEntry(filename: string, data: Bytes)

  /** The exceptions the extraction lets propagate. */
  datatype ZipError =
    | FileExistsError      // `os.makedirs` on a destination that is a regular file
    | FileNotFoundError    // `ZipFile` on a source that does not exist
    | BadZipFile           // `ZipFile` on a source that is not an archive
    | IndexError           // `filename[-1]` on an entry with an empty name
    | IsADirectoryError    // `ZipFile` on a source that is a directory, or an entry whose
                           // base name is "." or "..": zipfile drops such path components,
                           // so the target is the directory itself

  /** A name that ends in "/": a directory entry. */
  predicate IsDirectoryName(name: string)
  {
    |name| > 0 && name[|name| - 1] == '/'
  }

  /** `os.path.basename`: the text after the last "/". */
  function Basename(path: string): (b: string)
    ensures '/' !in b
    ensures |b| <= |path| && path[|path| - |b|..] == b
    ensures |b| == |path| || path[|path| - |b| - 1] == '/'
  {
    if path == [] || path[|path| - 1] == '/' then []
    else Basename(path[..|path| - 1]) + [path[|path| - 1]]
  }

  /** "." or "..": names that denote a directory, not a file in it. */
  predicate DotName(name: string)
  {
    name == "." || name == ".."
  }

  /** Whether `e` gets past the directory check and the member filter. */
  predicate Selected(e: ZipEntry, member: Option<string>)
  {
    |e.filename| > 0 && !IsDirectoryName(e.filename) &&
    (member.None? || Basename(e.filename) == member.value)
  }

  /** Whether `e` makes the loop raise: an empty name, or a selected entry whose base
      name is "." or "..". */
  predicate Fails(e: ZipEntry, member: Option<string>)
  {
    |e.filename| == 0 || (Selected(e, member) && DotName(Basename(e.filename)))
  }

  // ---------------------------------------------------------------------------
  // The loop over the entries, on the destination directory's files.

  /** The loop's state: still running with the directory's files, or stopped by an
      exception with the files extracted before it. */
  datatype Run = Running(files: map<string, Bytes>) | Stopped(files: map<string, Bytes>, error: ZipError)

  /** One iteration: skip directories, rename to the base name, filter on `member`, then
      extract, overwriting a file of the same name. */
  function Step(files: map<string, Bytes>, e: ZipEntry, member: Option<string>): (r: Run)
    ensures r.Stopped? <==> Fails(e, member)
    ensures r.Stopped? ==> r.files == files
    ensures r.Running? ==>
              r.files == if Selected(e, member) then files[Basename(e.filename) := e.data] else files
  {
    if |e.filename| == 0 then Stopped(files, IndexError)
    else if IsDirectoryName(e.filename) then Running(files)
    else
      var name := Basename(e.filename);
      if member.Some? && name != member.value then Running(files)
      else if DotName(name) then Stopped(files, IsADirectoryError)
      else Running(files[name := e.data])
  }

  /** The loop over `entries` in archive order, starting from the directory's `files`. */
  function Extract(files: map<string, Bytes>, entries: seq<ZipEntry>, member: Option<string>): (r: Run)
    ensures files.Keys <= r.files.Keys
    ensures forall name :: name in r.files && name !in files ==> '/' !in name
  {
    if entries == [] then Running(files)
    else
      match Extract(files, entries[..|entries| - 1], member)
      case Stopped(fs, err) => Stopped(fs, err)
      case Running(fs) => Step(fs, entries[|entries| - 1], member)
  }

  /** The content of the last selected entry whose base name is `name`, if any. */
  function LastWith(entries: seq<ZipEntry>, member: Option<string>, name: string): Option<Bytes>
  {
    if entries == [] then None
    else
      var e := entries[|entries| - 1];
      if Selected(e, member) && Basename(e.filename) == name then Some(e.data)
      else LastWith(entries[..|entries| - 1], member, name)
  }

  lemma StepFails(files: map<string, Bytes>, e: ZipEntry, member: Option<string>)
    ensures Step(files, e, member).Stopped? <==> Fails(e, member)
    ensures Step(files, e, member).files ==
              if Selected(e, member) && !Fails(e, member)
              then files[Basename(e.filename) := e.data] else files
  {
  }

  /** A run stops exactly when some entry fails. */
  lemma {:induction false} StopsIffFails(files: map<string, Bytes>, entries: seq<ZipEntry>,
                                         member: Option<string>)
    ensures Extract(files, entries, member).Stopped? <==>
              exists i :: 0 <= i < |entries| && Fails(entries[i], member)
  {
    if entries != [] {
      var init, e := entries[..|entries| - 1], entries[|entries| - 1];
      StopsIffFails(files, init, member);
      StepFails(Extract(files, init, member).files, e, member);
      if exists i :: 0 <= i < |entries| && Fails(entries[i], member) {
        var i :| 0 <= i < |entries| && Fails(entries[i], member);
        if i < |init| {
          assert init[i] == entries[i];
        }
      }
    }
  }

  /** On a stop, the directory holds what the entries before the first failing one left
      there, and the error is that entry's. */
  lemma {:induction false} StopsAtFirstFailure(files: map<string, Bytes>, entries: seq<ZipEntry>,
                                               member: Option<string>)
    requires Extract(files, entries, member).Stopped?
    ensures exists i :: 0 <= i < |entries| && Fails(entries[i], member) &&
              (forall j :: 0 <= j < i ==> !Fails(entries[j], member)) &&
              Extract(files, entries[..i], member).Running? &&
              Extract(files, entries, member) ==
                Step(Extract(files, entries[..i], member).files, entries[i], member)
  {
    var init, e := entries[..|entries| - 1], entries[|entries| - 1];
    assert entries[..|entries| - 1] == init;
    if Extract(files, init, member).Stopped? {
      StopsAtFirstFailure(files, init, member);
      var i :| 0 <= i < |init| && Fails(init[i], member) &&
               (forall j :: 0 <= j < i ==> !Fails(init[j], member)) &&
               Extract(files, init[..i], member).Running? &&
               Extract(files, init, member) ==
                 Step(Extract(files, init[..i], member).files, init[i], member);
      assert init[..i] == entries[..i];
      assert forall j :: 0 <= j <= i ==> init[j] == entries[j];
    } else {
      var i := |entries| - 1;
      StepFails(Extract(files, init, member).files, e, member);
      StopsIffFails(files, init, member);
      assert forall j :: 0 <= j < i ==> init[j] == entries[j];
    }
  }

  /** A run that completes leaves every selected base name bound to the content of the
      last entry with that name, and every other file as it was. */
  lemma {:induction false} ExtractContents(files: map<string, Bytes>, entries: seq<ZipEntry>,
                                           member: Option<string>, name: string)
    requires Extract(files, entries, member).Running?
    ensures var out := Extract(files, entries, member).files;
            (name in out <==> name in files || LastWith(entries, member, name).Some?) &&
            (LastWith(entries, member, name).Some? ==>
               out[name] == LastWith(entries, member, name).value) &&
            (LastWith(entries, member, name).None? && name in files ==> out[name] == files[name])
  {
    if entries != [] {
      var init, e := entries[..|entries| - 1], entries[|entries| - 1];
      ExtractContents(files, init, member, name);
      StepFails(Extract(files, init, member).files, e, member);
    }
  }

  /** Directory entries play no part: dropping them leaves the run unchanged. */
  function WithoutDirectories(entries: seq<ZipEntry>): (r: seq<ZipEntry>)
    ensures forall e :: e in r ==> e in entries && !IsDirectoryName(e.filename)
  {
    if entries == [] then []
    else
      var e := entries[|entries| - 1];
      WithoutDirectories(entries[..|entries| - 1]) + (if IsDirectoryName(e.filename) then [] else [e])
  }

  lemma {:induction false} DirectoriesIgnored(files: map<string, Bytes>, entries: seq<ZipEntry>,
                                              member: Option<string>)
    ensures Extract(files, WithoutDirectories(entries), member) == Extract(files, entries, member)
  {
    if entries != [] {
      var init, e := entries[..|entries| - 1], entries[|entries| - 1];
      DirectoriesIgnored(files, init, member);
      var w := WithoutDirectories(init);
      if IsDirectoryName(e.filename) {
        assert WithoutDirectories(entries) == w;
        if Extract(files, init, member).Running? {
          var fs := Extract(files, init, member).files;
          assert Step(fs, e, member) == Running(fs);
        }
      } else {
        assert WithoutDirectories(entries) == w + [e];
        assert (w + [e])[..|w|] == w;
      }
    }
  }

  /** One more entry, in the prefix form the loop's invariant uses. */
  lemma ExtractStep(files: map<string, Bytes>, entries: seq<ZipEntry>, member: Option<string>,
                    i: nat)
    requires i < |entries| && Extract(files, entries[..i], member).Running?
    ensures Extract(files, entries[..i + 1], member) ==
              Step(Extract(files, entries[..i], member).files, entries[i], member)
  {
    assert entries[..i + 1][..i] == entries[..i];
  }

  /** Once stopped, a run stays stopped with the same files: later entries do nothing. */
  lemma {:induction false} StopPersists(files: map<string, Bytes>, entries: seq<ZipEntry>,
                                        member: Option<string>, i: nat)
    requires i <= |entries| && Extract(files, entries[..i], member).Stopped?
    ensures Extract(files, entries, member) == Extract(files, entries[..i], member)
    decreases |entries|
  {
    if i == |entries| {
      assert entries[..i] == entries;
    } else {
      var init := entries[..|entries| - 1];
      assert init[..i] == entries[..i];
      StopPersists(files, init, member, i);
    }
  }

  /** Every name an extraction adds is a base name: the directory stays flat. */
  lemma {:induction false} FlatNames(files: map<string, Bytes>, entries: seq<ZipEntry>,
                                     member: Option<string>)
    ensures forall name :: name in Extract(files, entries, member).files ==>
              name in files || '/' !in name
  {
    if entries != [] {
      var init, e := entries[..|entries| - 1], entries[|entries| - 1];
      FlatNames(files, init, member);
      StepFails(Extract(files, init, member).files, e, member);
    }
  }

  /** With a member named, no other name of the directory changes, even on a stop. */
  lemma {:induction false} MemberOnly(files: map<string, Bytes>, entries: seq<ZipEntry>,
                                      m: string, name: string)
    requires name != m
    ensures var out := Extract(files, entries, Some(m)).files;
            (name in out <==> name in files) && (name in files ==> out[name] == files[name])
  {
    if entries != [] {
      var init, e := entries[..|entries| - 1], entries[|entries| - 1];
      MemberOnly(files, init, m, name);
      StepFails(Extract(files, init, Some(m)).files, e, Some(m));
    }
  }

  // ---------------------------------------------------------------------------
  // The operator.

  /** A file of the filesystem outside the destination: an archive or anything else. */
  datatype File = Archive(entries: seq<ZipEntry>) | Plain(data: Bytes)

  /** What `execute` ends with. */
  datatype Outcome = Skipped | Extracted | Raised(error: ZipError)

  /** The part of the filesystem the operator touches: directories with their files, and
      the other files by path. */
  class Disk {
    var dirs: map<string, map<string, Bytes>>
    var files: map<string, File>

    constructor(dirs: map<string, map<string, Bytes>>, files: map<string, File>)
      ensures this.dirs == dirs && this.files == files
    {
      this.dirs := dirs;
      this.files := files;
    }

    /** `os.makedirs(path, exist_ok=True)` on a path that is not a file. */
    method MakeDirs(path: string)
      requires path !in files
      modifies this
      ensures dirs == if path in old(dirs) then old(dirs) else old(dirs)[path := map[]]
      ensures files == old(files)
    {
      if path !in dirs {
        dirs := dirs[path := map[]];
      }
    }

    /** Writes one file into an existing directory. */
    method WriteFile(dir: string, name: string, data: Bytes)
      requires dir in dirs
      modifies this
      ensures dirs == old(dirs)[dir := old(dirs)[dir][name := data]]
      ensures files == old(files)
    {
      dirs := dirs[dir := dirs[dir][name := data]];
    }
  }

  /** `_skip`: the destination exists, as a directory or a file, and the run is not forced. */
  predicate ZipSkips(destination: string, force: bool, dirs: map<string, map<string, Bytes>>,
                     files: map<string, File>)
  {
    (destination in dirs || destination in files) && !force
  }

  /** The destination's files once `os.makedirs` has run. */
  function Prepared(destination: string, dirs: map<string, map<string, Bytes>>): map<string, Bytes>
  {
    if destination in dirs then dirs[destination] else map[]
  }

  /** The outcome of one run, and the directories afterwards. */
  function ExtractOutcome(source: string, destination: string, member: Option<string>, force: bool,
                          dirs: map<string, map<string, Bytes>>, files: map<string, File>)
    : (r: (Outcome, map<string, map<string, Bytes>>))
    ensures r.0.Skipped? <==> ZipSkips(destination, force, dirs, files)
    ensures r.0.Skipped? || destination in files ==> r.1 == dirs
    ensures !r.0.Skipped? && destination !in files ==> destination in r.1
    ensures forall d :: d != destination ==> (d in r.1 <==> d in dirs)
    ensures forall d :: d != destination && d in dirs ==> r.1[d] == dirs[d]
  {
    if ZipSkips(destination, force, dirs, files) then (Skipped, dirs)
    else if destination in files then (Raised(FileExistsError), dirs)
    else
      var start := Prepared(destination, dirs);
      if source !in files then
        var error := if source in dirs[destination := start] then IsADirectoryError
                     else FileNotFoundError;
        (Raised(error), dirs[destination := start])
      else if files[source].Plain? then (Raised(BadZipFile), dirs[destination := start])
      else
        match Extract(start, files[source].entries, member)
        case Running(out) => (Extracted, dirs[destination := out])
        case Stopped(out, err) => (Raised(err), dirs[destination := out])
  }

  /** The body of the `with ZipFile(...)` block: the loop over `infolist()`, writing each
      selected entry into the directory `destination` as it goes. */
  method ExtractEntries(disk: Disk, destination: string, entries: seq<ZipEntry>,
                        member: Option<string>)
    returns (error: Option<ZipError>)
    requires destination in disk.dirs
    modifies disk
    ensures var run := Extract(old(disk.dirs[destination]), entries, member);
            disk.dirs == old(disk.dirs)[destination := run.files] &&
            error == (if run.Stopped? then Some(run.error) else None)
    ensures disk.files == old(disk.files)
  {
    ghost var dirs0, start := disk.dirs, disk.dirs[destination];
    ghost var run := Running(start);
    for i := 0 to |entries|
      invariant run == Extract(start, entries[..i], member) && run.Running?
      invariant disk.dirs == dirs0[destination := run.files]
      invariant disk.files == old(disk.files)
    {
      ExtractStep(start, entries, member, i);
      ghost var before := disk.dirs;
      error := ExtractEntry(disk, destination, entries[i], member);
      run := Step(run.files, entries[i], member);
      assert disk.dirs == dirs0[destination := run.files] by {
        assert before[destination] == Extract(start, entries[..i], member).files;
        assert disk.dirs == before[destination := run.files];
        RedirectTwice(dirs0, destination, before[destination], run.files);
      }
      if error.Some? {
        StopPersists(start, entries, member, i + 1);
        return;
      }
    }
    assert entries[..|entries|] == entries;
    error := None;
  }

  lemma RedirectTwice<K, V>(m: map<K, V>, k: K, a: V, b: V)
    ensures m[k := a][k := b] == m[k := b]
  {
  }

  /** The loop body for one entry `info`: skip a directory, rename to the base name,
      filter on `member`, then extract into `destination`. */
  method ExtractEntry(disk: Disk, destination: string, info: ZipEntry, member: Option<string>)
    returns (error: Option<ZipError>)
    requires destination in disk.dirs
    modifies disk
    ensures var run := Step(old(disk.dirs[destination]), info, member);
            disk.dirs == old(disk.dirs)[destination := run.files] &&
            error == (if run.Stopped? then Some(run.error) else None)
    ensures disk.files == old(disk.files)
  {
    if |info.filename| == 0 {
      assert disk.dirs == disk.dirs[destination := disk.dirs[destination]];
      return Some(IndexError);
    }
    if info.filename[|info.filename| - 1] == '/' {
      assert disk.dirs == disk.dirs[destination := disk.dirs[destination]];
      return None;
    }
    var name := Basename(info.filename);
    if member.Some? && name != member.value {
      assert disk.dirs == disk.dirs[destination := disk.dirs[destination]];
      return None;
    }
    if DotName(name) {
      assert disk.dirs == disk.dirs[destination := disk.dirs[destination]];
      return Some(IsADirectoryError);
    }
    disk.WriteFile(destination, name, info.data);
    error := None;
  }


  class ZipExtractor {
    const source: string
    const destination: string
    const member: Option<string>
    const force: bool
    const disk: Disk

    constructor(disk: Disk, source: string, destination: string,
                member: Option<string> := None, force: bool := false)
      ensures this.disk == disk && this.source == source && this.destination == destination
      ensures this.member == member && this.force == force
    {
      this.disk := disk;
      this.source := source;
      this.destination := destination;
      this.member := member;
      this.force := force;
    }

    method Execute() returns (r: Outcome)
      modifies disk
      ensures (r, disk.dirs) ==
                ExtractOutcome(source, destination, member, force, old(disk.dirs), old(disk.files))
      ensures disk.files == old(disk.files)
    {
      if ZipSkips(destination, force, disk.dirs, disk.files) {
        return Skipped;
      }
      if destination in disk.files {
        return Raised(FileExistsError);
      }
      disk.MakeDirs(destination);
      assert disk.dirs == old(disk.dirs)[destination := Prepared(destination, old(disk.dirs))];
      if source !in disk.files {
        if source in disk.dirs {
          return Raised(IsADirectoryError);
        }
        return Raised(FileNotFoundError);
      }
      var archive := disk.files[source];
      if archive.Plain? {
        return Raised(BadZipFile);
      }
      ghost var prepared := disk.dirs;
      assert prepared[destination] == Prepared(destination, old(disk.dirs));
      var error := ExtractEntries(disk, destination, archive.entries, member);
      ghost var run := Extract(prepared[destination], archive.entries, member);
      assert disk.dirs == old(disk.dirs)[destination := run.files];
      r := if error.Some? then Raised(error.value) else Extracted;
    }
  }

  /** A skipped run creates nothing and extracts nothing. */
  lemma SkipTouchesNothing(source: string, destination: string, member: Option<string>,
                           dirs: map<string, map<string, Bytes>>, files: map<string, File>)
    requires destination in dirs || destination in files
    ensures ExtractOutcome(source, destination, member, false, dirs, files) == (Skipped, dirs)
  {
  }

  /** A run that is not skipped and does not hit a file at the destination leaves the
      destination directory in place, whatever the archive holds or whether it exists. */
  lemma DestinationCreated(source: string, destination: string, member: Option<string>,
                           force: bool, dirs: map<string, map<string, Bytes>>,
                           files: map<string, File>)
    requires !ZipSkips(destination, force, dirs, files) && destination !in files
    ensures destination in ExtractOutcome(source, destination, member, force, dirs, files).1
  {
  }

  /** Opening the archive: a source that is neither a file nor a directory raises
      FileNotFoundError, a directory (the fresh destination included) raises
      IsADirectoryError; either way the destination directory has been created. */
  lemma SourceNotAFile(source: string, destination: string, member: Option<string>,
                       force: bool, dirs: map<string, map<string, Bytes>>,
                       files: map<string, File>)
    requires !ZipSkips(destination, force, dirs, files) && destination !in files
    requires source !in files
    ensures var r := ExtractOutcome(source, destination, member, force, dirs, files);
            r.0 == Raised(if source in dirs || source == destination then IsADirectoryError
                          else FileNotFoundError) &&
            r.1 == dirs[destination := Prepared(destination, dirs)]
  {
  }
}
