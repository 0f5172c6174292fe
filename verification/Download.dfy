/**
 * Downloads that appear at their output path in one step or not at all (files.ts), on a disk
 * whose every operation may fail, write less than asked, or find that others were faster.
 */
module Download {
  import opened Wrappers

  type Byte = bv8
  type Content = seq<Byte>

  /** A change that this process made to a path: what it held before and holds since. */
  datatype Change = Change(path: string, before: Option<Content>, after: Option<Content>)

  /** The changes of one path, oldest first. */
  ghost function On(log: seq<Change>, path: string): seq<Change>
    decreases |log|
  {
    if log == [] then []
    else
      var earlier := On(log[..|log| - 1], path);
      if log[|log| - 1].path == path then earlier + [log[|log| - 1]] else earlier
  }

  lemma OnAdded(log: seq<Change>, change: Change, path: string)
    ensures On(log + [change], path)
            == if change.path == path then On(log, path) + [change] else On(log, path)
  {
    assert (log + [change])[..|log|] == log;
  }

  /** Only `path` was changed. */
  ghost predicate OnlyOn(log: seq<Change>, before: seq<Change>, path: string) {
    forall other | other != path :: On(log, other) == On(before, other)
  }

  datatype LinkResult = Linked | Exists | Failed

  /**
   * The file system; temporary files are known to this process alone. On a quiet one no other
   * process is at work, nothing fails that need not, and every write makes some progress.
   */
  class Disk {
    const quiet: bool
    var files: map<string, Content>
    ghost var log: seq<Change>
    ghost var refused: set<string>

    ghost function Holds(path: string): Option<Content>
      reads this
    {
      if path in files then Some(files[path]) else None
    }

    /** Other processes change what they like, except for the temporary file. */
    method Interfere(temporary: string)
      modifies this`files
      ensures Holds(temporary) == old(Holds(temporary))
      ensures quiet ==> files == old(files)
    {
      if quiet {
        return;
      }
      var others: map<string, Content> := *;
      files := if temporary in files then others[temporary := files[temporary]] else others - {temporary};
    }

    method Put(path: string, content: Content)
      modifies this`files, this`log
      ensures files == old(files)[path := content]
      ensures log == old(log) + [Change(path, old(Holds(path)), Some(content))]
      ensures OnlyOn(log, old(log), path)
      ensures On(log, path) == On(old(log), path) + [Change(path, old(Holds(path)), Some(content))]
    {
      Recorded(log, Change(path, Holds(path), Some(content)));
      log := log + [Change(path, Holds(path), Some(content))];
      files := files[path := content];
    }

    method Remove(path: string)
      modifies this`files, this`log
      ensures files == old(files) - {path}
      ensures OnlyOn(log, old(log), path)
    {
      Recorded(log, Change(path, Holds(path), None));
      log := log + [Change(path, Holds(path), None)];
      files := files - {path};
    }

    /** `access`: nothing stands for an error other than a missing file. */
    method PathExists(path: string) returns (found: Option<bool>)
      ensures found.Some? ==> found.value == (path in files)
      ensures quiet ==> found.Some?
    {
      var broken: bool := *;
      found := if broken && !quiet then None else Some(path in files);
    }

    /** `open` with `wx`: fails when the path is taken. */
    method OpenNew(path: string) returns (created: bool)
      modifies this`files, this`log
      ensures created ==> old(Holds(path)).None? && Holds(path) == Some([])
      ensures !created ==> files == old(files) && log == old(log)
      ensures OnlyOn(log, old(log), path)
      ensures created ==> files == old(files)[path := []]
      ensures quiet && path !in old(files) ==> created
    {
      var broken: bool := *;
      created := (!broken || quiet) && path !in files;
      if created {
        Put(path, []);
      }
    }

    /** `write`: how many of the bytes reached the file, or nothing on an error. */
    method Append(path: string, bytes: Content) returns (written: Option<nat>)
      requires path in files
      modifies this`files, this`log
      ensures written.Some? ==> written.value <= |bytes|
      ensures written.Some? ==> Holds(path) == Some(old(files[path]) + bytes[..written.value])
      ensures path in files
      ensures OnlyOn(log, old(log), path)
      ensures files == old(files)[path := files[path]]
      ensures quiet ==> written.Some? && (bytes != [] ==> written.value > 0)
    {
      var broken: bool := *;
      var count :| 0 <= count <= |bytes| && (quiet && bytes != [] ==> count > 0);
      Put(path, files[path] + bytes[..count]);
      return if broken && !quiet then None else Some(count);
    }

    /** `fsync` and `close`. */
    method Settle() returns (done: bool)
      ensures quiet ==> done
    {
      done := *;
      done := done || quiet;
    }

    method Rename(source: string, target: string) returns (done: bool)
      requires source in files && source != target
      modifies this`files, this`log
      ensures done ==> Holds(source).None? && Holds(target) == Some(old(files[source]))
      ensures done ==>
        On(log, target)
        == On(old(log), target) + [Change(target, old(Holds(target)), Some(old(files[source])))]
      ensures !done ==> files == old(files) && log == old(log)
      ensures forall path | path != source && path != target :: On(log, path) == On(old(log), path)
      ensures done ==> files == old(files)[target := old(files[source])] - {source}
      ensures quiet ==> done
    {
      done := *;
      done := done || quiet;
      if done {
        var content := files[source];
        Put(target, content);
        Remove(source);
      }
    }

    /** `link`: never replaces what is there. */
    method Link(source: string, target: string) returns (result: LinkResult)
      requires source in files && source != target
      modifies this`files, this`log
      ensures Holds(source) == old(Holds(source))
      ensures result.Linked? ==>
        && old(Holds(target)).None?
        && On(log, target) == On(old(log), target) + [Change(target, None, Some(old(files[source])))]
      ensures !result.Linked? ==> files == old(files) && log == old(log)
      ensures OnlyOn(log, old(log), target)
      ensures result.Exists? <==> target in old(files)
      ensures result.Linked? ==> files == old(files)[target := old(files[source])]
      ensures quiet && target !in old(files) ==> result.Linked?
    {
      var broken: bool := *;
      if target in files {
        return Exists;
      }
      if broken && !quiet {
        return Failed;
      }
      Put(target, files[source]);
      return Linked;
    }

    method Unlink(path: string) returns (done: bool)
      modifies this`files, this`log, this`refused
      ensures done ==> Holds(path).None? && refused == old(refused)
      ensures !done ==> log == old(log) && files == old(files)
      ensures !done && path in files ==> path in refused
      ensures OnlyOn(log, old(log), path) && old(refused) <= refused
      ensures done ==> files == old(files) - {path}
      ensures quiet && path in old(files) ==> done
    {
      var broken: bool := *;
      done := (!broken || quiet) && path in files;
      if done {
        Remove(path);
      } else {
        refused := refused + {path};
      }
    }
  }

  lemma Recorded(log: seq<Change>, change: Change)
    ensures OnlyOn(log + [change], log, change.path)
    ensures On(log + [change], change.path) == On(log, change.path) + [change]
  {
    forall other ensures On(log + [change], other) ==
                         if change.path == other then On(log, other) + [change] else On(log, other) {
      OnAdded(log, change, other);
    }
  }

  // ---------- The target ----------

  datatype Error = InvalidState | SizeMismatch | OutputExists | OutputUnavailable | WriteFailed

  /** All chunks put together. */
  function Whole(chunks: seq<Content>): Content
    decreases |chunks|
  {
    if chunks == [] then [] else Whole(chunks[..|chunks| - 1]) + chunks[|chunks| - 1]
  }

  lemma {:induction false} WholeGrows(chunks: seq<Content>, i: nat)
    requires i <= |chunks|
    ensures |Whole(chunks[..i])| <= |Whole(chunks)|
    decreases |chunks|
  {
    if i < |chunks| {
      WholeGrows(chunks[..|chunks| - 1], i);
      assert chunks[..|chunks| - 1][..i] == chunks[..i];
    } else {
      assert chunks[..i] == chunks;
    }
  }

  /** What a download may do to the output: publish the whole content, in one change. */
  ghost predicate Published(log: seq<Change>, before: seq<Change>, output: string, content: Content,
                            force: bool)
  {
    && |log| == |before| + 1 && log[..|before|] == before
    && log[|before|].path == output
    && log[|before|].after == Some(content)
    && (!force ==> log[|before|].before.None?)
  }

  class DownloadTarget {
    const disk: Disk
    const force: bool
    const output: string
    const temporary: string
    var open: bool
    var committed: bool

    /** While the handle is open the temporary file is there. */
    ghost predicate Valid()
      reads this, disk
    {
      && temporary != output
      && (open ==> temporary in disk.files && !committed)
      && (committed ==> temporary !in disk.files)
    }

    constructor (disk: Disk, force: bool, output: string, temporary: string)
      requires temporary != output && temporary in disk.files
      ensures this.disk == disk && this.force == force && this.output == output
      ensures this.temporary == temporary && open && !committed && Valid()
    {
      this.disk, this.force, this.output, this.temporary := disk, force, output, temporary;
      open, committed := true, false;
    }

    /** `writeAll`: the rest is offered again after a short write; a write of nothing gives up. */
    method WriteAll(chunk: Content) returns (done: bool)
      requires Valid() && open
      modifies disk`files, disk`log
      ensures Valid() && open
      ensures OnlyOn(disk.log, old(disk.log), temporary)
      ensures done ==> disk.files[temporary] == old(disk.files[temporary]) + chunk
      ensures disk.quiet ==> done && disk.files == old(disk.files)[temporary := disk.files[temporary]]
    {
      var offset := 0;
      ghost var start := disk.files[temporary];
      assert start + chunk[..0] == start;
      while offset < |chunk|
        invariant offset <= |chunk| && Valid() && open
        invariant OnlyOn(disk.log, old(disk.log), temporary)
        invariant disk.files[temporary] == start + chunk[..offset]
        invariant disk.quiet ==> disk.files == old(disk.files)[temporary := disk.files[temporary]]
        decreases |chunk| - offset
      {
        disk.Interfere(temporary);
        var written := disk.Append(temporary, chunk[offset..]);
        if written.None? {
          return false;
        }
        assert chunk[..offset] + chunk[offset..][..written.value] == chunk[..offset + written.value];
        offset := offset + written.value;
        if written.value == 0 {
          return false;
        }
      }
      assert chunk[..offset] == chunk;
      done := true;
    }

    /** `discard`: before a commit, closes the handle and removes the temporary file if it can. */
    method Discard()
      requires Valid()
      modifies this`open, disk`files, disk`log, disk`refused
      ensures Valid() && !open && committed == old(committed)
      ensures OnlyOn(disk.log, old(disk.log), temporary) && old(disk.refused) <= disk.refused
      ensures temporary in disk.files ==> temporary in disk.refused
      ensures disk.quiet ==> disk.files == old(disk.files) - (if old(committed) then {} else {temporary})
    {
      if committed {
        return;
      }
      disk.Interfere(temporary);
      open := false;
      var closed := disk.Settle();
      var removed := disk.Unlink(temporary);
    }

    /** The loop over the chunks; `broken`: the source of the content fails behind the last one. */
    method WriteChunks(chunks: seq<Content>, broken: bool, expectedSize: Option<nat>)
      returns (written: Result<nat, Error>)
      requires Valid() && open && disk.files[temporary] == []
      modifies disk`files, disk`log
      ensures Valid() && open
      ensures OnlyOn(disk.log, old(disk.log), temporary)
      ensures written.Success? ==>
                && !broken && disk.files[temporary] == Whole(chunks)
                && written.value == |Whole(chunks)|
                && (expectedSize.Some? ==> expectedSize.value == |Whole(chunks)|)
      ensures written.Failure? ==> written.error == SizeMismatch || written.error == WriteFailed
      ensures written == Failure(SizeMismatch) ==>
                && expectedSize.Some?
                && (expectedSize.value < |Whole(chunks)|
                    || (!broken && expectedSize.value != |Whole(chunks)|))
      ensures disk.quiet ==> disk.files == old(disk.files)[temporary := disk.files[temporary]]
      ensures disk.quiet && !broken && (expectedSize == None || expectedSize == Some(|Whole(chunks)|)) ==>
                written.Success?
    {
      var byteSize := 0;
      var i := 0;
      assert chunks[..0] == [];
      while i < |chunks|
        invariant i <= |chunks| && Valid() && open
        invariant OnlyOn(disk.log, old(disk.log), temporary)
        invariant disk.files[temporary] == Whole(chunks[..i]) && byteSize == |Whole(chunks[..i])|
        invariant disk.quiet ==> disk.files == old(disk.files)[temporary := disk.files[temporary]]
      {
        assert chunks[..i + 1][..i] == chunks[..i];
        WholeGrows(chunks, i + 1);
        byteSize := byteSize + |chunks[i]|;
        if expectedSize.Some? && byteSize > expectedSize.value {
          return Failure(SizeMismatch);
        }
        var done := WriteAll(chunks[i]);
        if !done {
          return Failure(WriteFailed);
        }
        i := i + 1;
      }
      assert chunks[..i] == chunks;
      if broken {
        return Failure(WriteFailed);
      }
      if expectedSize.Some? && byteSize != expectedSize.value {
        return Failure(SizeMismatch);
      }
      return Success(byteSize);
    }

    /** From `sync` on: the temporary file takes the output's place, or becomes it. */
    method Commit(ghost content: Content) returns (result: Option<Error>)
      requires Valid() && open && disk.files[temporary] == content
      modifies this, disk
      ensures Valid() && (committed <==> result.None?)
      ensures Outcome(old(disk.log), disk.log, content, result)
      ensures forall path | path != output && path != temporary ::
                On(disk.log, path) == On(old(disk.log), path)
      ensures result.Some? ==> result.value == WriteFailed || (!force && result.value == OutputExists)
      ensures old(disk.refused) <= disk.refused
      ensures disk.quiet && (force || output !in old(disk.files)) ==>
                result.None? && disk.files == old(disk.files)[output := content] - {temporary}
      ensures disk.quiet && !force && output in old(disk.files) ==>
                result == Some(OutputExists) && disk.files == old(disk.files)
    {
      disk.Interfere(temporary);
      var synced := disk.Settle();
      if !synced {
        return Some(WriteFailed);
      }
      var closed := disk.Settle();
      if !closed {
        return Some(WriteFailed);
      }
      open := false;
      disk.Interfere(temporary);
      if force {
        var renamed := disk.Rename(temporary, output);
        if !renamed {
          return Some(WriteFailed);
        }
      } else {
        var linked := disk.Link(temporary, output);
        if linked.Exists? {
          return Some(OutputExists);
        }
        if linked.Failed? {
          return Some(WriteFailed);
        }
        disk.Interfere(temporary);
        var removed := disk.Unlink(temporary);
        if !removed {
          return Some(WriteFailed);
        }
      }
      committed := true;
      return None;
    }

    /** The output was left alone, or holds the whole content since a single change. */
    ghost predicate Outcome(before: seq<Change>, after: seq<Change>, content: Content,
                            result: Option<Error>)
    {
      || (result.Some? && On(after, output) == On(before, output))
      || (result != Some(OutputExists) && Published(On(after, output), On(before, output), output, content, force))
    }

    method WriteAndCommit(chunks: seq<Content>, broken: bool, expectedSize: Option<nat>)
      returns (written: Result<nat, Error>)
      requires Valid() && (open ==> disk.files[temporary] == [])
      modifies this, disk
      ensures Valid() && (written.Success? ==> committed)
      ensures written.Success? ==>
                && !broken && written.value == |Whole(chunks)|
                && (expectedSize.Some? ==> expectedSize.value == |Whole(chunks)|)
                && temporary !in disk.files
      ensures Outcome(old(disk.log), disk.log, Whole(chunks),
                      if written.Success? then None else Some(written.error))
      ensures forall path | path != output && path != temporary ::
                On(disk.log, path) == On(old(disk.log), path)
      ensures written.Failure? && old(open) && temporary in disk.files ==> temporary in disk.refused
      ensures broken || (expectedSize.Some? && expectedSize.value != |Whole(chunks)|) ==>
                On(disk.log, output) == On(old(disk.log), output)
      ensures written == Failure(OutputExists) ==> !force
      ensures old(open) && disk.quiet ==>
                && (written.Success?
                    <==> && !broken && (force || output !in old(disk.files))
                         && (expectedSize == None || expectedSize == Some(|Whole(chunks)|)))
                && disk.files == (if written.Success? then old(disk.files)[output := Whole(chunks)]
                                  else old(disk.files)) - {temporary}
    {
      if !open {
        return Failure(InvalidState);
      }
      var size := WriteChunks(chunks, broken, expectedSize);
      if size.Failure? {
        Discard();
        return size;
      }
      var failed := Commit(Whole(chunks));
      if failed.Some? {
        Discard();
        return Failure(failed.value);
      }
      return size;
    }
  }

  /** `prepareDownload` */
  method PrepareDownload(disk: Disk, force: bool, output: string, temporary: string)
    returns (target: Result<DownloadTarget, Error>)
    requires temporary != output
    modifies disk`files, disk`log
    ensures OnlyOn(disk.log, old(disk.log), temporary)
    ensures target.Failure? ==> disk.log == old(disk.log)
    ensures target == Failure(OutputExists) ==> !force && output in old(disk.files)
    ensures target.Success? && !force && disk.quiet ==> output !in old(disk.files)
    ensures disk.quiet ==>
              && (target.Success? <==> temporary !in old(disk.files) && (force || output !in old(disk.files)))
              && disk.files == if target.Success? then old(disk.files)[temporary := []] else old(disk.files)
    ensures target.Success? ==>
              && fresh(target.value) && target.value.disk == disk && target.value.force == force
              && target.value.output == output && target.value.temporary == temporary
              && target.value.Valid() && target.value.open && disk.files[temporary] == []
  {
    if !force {
      var found := disk.PathExists(output);
      if found.None? {
        return Failure(OutputUnavailable);
      }
      if found.value {
        return Failure(OutputExists);
      }
    }
    disk.Interfere(temporary);
    var created := disk.OpenNew(temporary);
    if !created {
      return Failure(OutputUnavailable);
    }
    var made := new DownloadTarget(disk, force, output, temporary);
    return Success(made);
  }

  /**
   * `writeDownload`. Whatever fails: the only change this process ever makes to the output is to
   * publish the whole content, of the expected size, and without `force` never over a file. On a
   * quiet disk it succeeds exactly when the content is whole, has the expected size and may take
   * the place of what is there, and then nothing else has changed; otherwise nothing has.
   */
  method WriteDownload(disk: Disk, force: bool, output: string, temporary: string,
                       chunks: seq<Content>, broken: bool, expectedSize: Option<nat>)
    returns (written: Result<nat, Error>)
    requires temporary != output
    modifies disk
    ensures On(disk.log, output) == On(old(disk.log), output)
            || Published(On(disk.log, output), On(old(disk.log), output), output, Whole(chunks), force)
    ensures broken || (expectedSize.Some? && expectedSize.value != |Whole(chunks)|)
            || written == Failure(OutputExists) ==>
              On(disk.log, output) == On(old(disk.log), output)
    ensures forall path | path != output && path != temporary ::
              On(disk.log, path) == On(old(disk.log), path)
    ensures written.Success? ==>
              && !broken && written.value == |Whole(chunks)| && temporary !in disk.files
              && Published(On(disk.log, output), On(old(disk.log), output), output, Whole(chunks), force)
    ensures temporary in disk.files && disk.log != old(disk.log) ==> temporary in disk.refused
    ensures written == Failure(OutputExists) ==> !force
    ensures disk.quiet && temporary !in old(disk.files) ==>
              && (written.Success?
                  <==> && !broken && (force || output !in old(disk.files))
                       && (expectedSize == None || expectedSize == Some(|Whole(chunks)|)))
              && disk.files
                 == if written.Success? then old(disk.files)[output := Whole(chunks)] else old(disk.files)
  {
    var target := PrepareDownload(disk, force, output, temporary);
    if target.Failure? {
      return Failure(target.error);
    }
    written := target.value.WriteAndCommit(chunks, broken, expectedSize);
    target.value.Discard();
  }
}
