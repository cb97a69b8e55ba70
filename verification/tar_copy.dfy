/**
  Copying a directory of coverage data out of a container. The container
  side delivers a tar stream of entries; each entry is checked against the
  copied directory's basename, renamed relative to it, and turned into one
  host filesystem step. The first failure ends the copy.

  The tar stream arrives already decoded as a sequence of Next values, its
  end standing for io.EOF. Host filesystem calls are the parameter `ioOk`,
  which says whether the step for an entry succeeds.
*/
module TarCopy {
  import opened Results

  newtype byte = x: int | 0 <= x < 256

  /** Tar type flags of a regular file ('0') and of a directory ('5'). */
  const TypeReg: byte := 0x30
  const TypeDir: byte := 0x35

  /** A decoded tar header: the entry name and its type flag. */
  datatype Entry = Entry(name: string, typeflag: byte)

  /** One call of the tar reader's Next: a header, or an error other than io.EOF. */
  datatype Next = Header(entry: Entry) | ReadError

  /**
    The copied container path: whether stat reports a directory, and then
    the path.Base of the copied path; or anything else.
  */
  datatype Source = Directory(basename: string) | NotDirectory

  /**
    The host filesystem work for one entry, named by the entry name after
    the basename is cut off (before cleaning and joining under the host
    directory).
  */
  datatype Step = MakeDir(name: string) | WriteFile(name: string)

  /** Why a copy stopped. */
  datatype CopyError =
    | ReadFailed
    | NotInDirectory(name: string, basename: string)
    | UnexpectedType(name: string, typeflag: byte)
    | IoFailed(step: Step)

  /** `s` begins with `prefix`, as strings.HasPrefix decides it. */
  predicate HasPrefix(s: string, prefix: string)
    ensures HasPrefix(s, prefix) <==> prefix <= s
    ensures HasPrefix(s, prefix) ==> prefix + s[|prefix|..] == s
  {
    |s| >= |prefix| && s[..|prefix|] == prefix
  }

  /**
    An entry belongs to the copied directory: it is the directory itself or
    lies below it, which is: it starts with the basename, and what follows
    is nothing or begins with '/'.
  */
  predicate BelongsTo(name: string, basename: string)
    ensures BelongsTo(name, basename) <==>
      HasPrefix(name, basename) && (|name| == |basename| || name[|basename|] == '/')
  {
    name == basename || HasPrefix(name, basename + "/")
  }

  /** Removes `prefix` from the front of `s` when it is there, and leaves `s` alone otherwise. */
  function CutPrefix(s: string, prefix: string): (r: string)
    ensures HasPrefix(s, prefix) ==> prefix + r == s
    ensures !HasPrefix(s, prefix) ==> r == s
  {
    if HasPrefix(s, prefix) then s[|prefix|..] else s
  }

  /**
    The name an entry is stored under on the host. From a directory, only
    entries belonging to it are accepted and the basename is cut off, which
    leaves either nothing or a name starting with '/'; from anything else the
    name is kept.
  */
  function Relocate(src: Source, name: string): (r: Result<string, CopyError>)
    ensures src.NotDirectory? ==> r == Ok(name)
    ensures src.Directory? ==> (r.Ok? <==> BelongsTo(name, src.basename))
    ensures src.Directory? && r.Ok? ==> src.basename + r.value == name
    ensures src.Directory? && r.Ok? ==> r.value == "" || r.value[0] == '/'
    ensures r.Err? ==> r.error == NotInDirectory(name, src.basename)
  {
    match src
    case NotDirectory => Ok(name)
    case Directory(basename) =>
      if BelongsTo(name, basename) then Ok(CutPrefix(name, basename))
      else Err(NotInDirectory(name, basename))
  }

  /** The step for an entry's type: directories and regular files only. */
  function Dispatch(name: string, typeflag: byte): (r: Result<Step, CopyError>)
    ensures r.Ok? <==> typeflag == TypeDir || typeflag == TypeReg
    ensures r.Ok? ==> r.value.name == name
    ensures r.Ok? ==> (r.value.MakeDir? <==> typeflag == TypeDir)
    ensures r.Err? ==> r.error == UnexpectedType(name, typeflag)
  {
    if typeflag == TypeDir then Ok(MakeDir(name))
    else if typeflag == TypeReg then Ok(WriteFile(name))
    else Err(UnexpectedType(name, typeflag))
  }

  /** The step a directory or regular-file entry turns into. */
  function StepFor(name: string, typeflag: byte): Step {
    if typeflag == TypeDir then MakeDir(name) else WriteFile(name)
  }

  /** The name an entry of `src` is stored under: without the basename when copying a directory. */
  function HostName(src: Source, name: string): string {
    if src.Directory? then CutPrefix(name, src.basename) else name
  }

  /**
    One iteration of the copy loop: the step completed for `next`, or the
    error returned. The checks run in the order copyFromContainer runs them:
    reader error, membership, type, then the filesystem.
  */
  function ProcessEntry(src: Source, ioOk: Step -> bool, next: Next): (r: Result<Step, CopyError>)
    ensures next.ReadError? ==> r == Err(ReadFailed)
    ensures r.Ok? ==> next.Header?
    ensures r.Ok? ==> next.entry.typeflag == TypeDir || next.entry.typeflag == TypeReg
    ensures r.Ok? && src.Directory? ==> BelongsTo(next.entry.name, src.basename)
    ensures r.Ok? ==> r.value == StepFor(HostName(src, next.entry.name), next.entry.typeflag)
    ensures r.Ok? ==> ioOk(r.value)
    ensures (next.Header? && (src.NotDirectory? || BelongsTo(next.entry.name, src.basename))
             && (next.entry.typeflag == TypeDir || next.entry.typeflag == TypeReg)
             && ioOk(StepFor(HostName(src, next.entry.name), next.entry.typeflag))) ==>
      r.Ok?
    ensures next.Header? && src.Directory? && !BelongsTo(next.entry.name, src.basename) ==>
      r == Err(NotInDirectory(next.entry.name, src.basename))
    ensures (next.Header? && (src.NotDirectory? || BelongsTo(next.entry.name, src.basename))
             && next.entry.typeflag != TypeDir && next.entry.typeflag != TypeReg) ==>
      r == Err(UnexpectedType(HostName(src, next.entry.name), next.entry.typeflag))
    ensures (next.Header? && (src.NotDirectory? || BelongsTo(next.entry.name, src.basename))
             && (next.entry.typeflag == TypeDir || next.entry.typeflag == TypeReg)
             && !ioOk(StepFor(HostName(src, next.entry.name), next.entry.typeflag))) ==>
      r == Err(IoFailed(StepFor(HostName(src, next.entry.name), next.entry.typeflag)))
  {
    match next
    case ReadError => Err(ReadFailed)
    case Header(entry) =>
      var name :- Relocate(src, entry.name);
      var step :- Dispatch(name, entry.typeflag);
      if ioOk(step) then Ok(step) else Err(IoFailed(step))
  }

  /** The loop body for one copy: ProcessEntry with the source and the filesystem fixed. */
  function Processor(src: Source, ioOk: Step -> bool): Next -> Result<Step, CopyError> {
    next => ProcessEntry(src, ioOk, next)
  }

  /** The steps completed by a copy, and the error it returned (None for nil). */
  datatype Report = Report(performed: seq<Step>, error: Option<CopyError>)

  /**
    The copy loop as a fold over the stream, for any loop body `process`:
    items are processed in order, the first failure is returned, and
    reaching the end of the stream is success.
  */
  function Fold(process: Next -> Result<Step, CopyError>, stream: seq<Next>): (r: Report)
    ensures |r.performed| <= |stream|
    ensures r.error.None? ==> |r.performed| == |stream|
    ensures r.error.Some? ==> |r.performed| < |stream| && process(stream[|r.performed|]) == Err(r.error.value)
    decreases |stream|
  {
    if |stream| == 0 then Report([], None)
    else
      match process(stream[0])
      case Err(e) => Report([], Some(e))
      case Ok(step) =>
        var rest := Fold(process, stream[1..]);
        Report([step] + rest.performed, rest.error)
  }

  /**
    The copy of a container path's tar stream into the host directory: the
    steps of the items before the first failure, and that failure.
  */
  function CopyEntries(src: Source, ioOk: Step -> bool, stream: seq<Next>): (r: Report)
    ensures r.error.None? <==> forall i :: 0 <= i < |stream| ==> ProcessEntry(src, ioOk, stream[i]).Ok?
    ensures r.error.Some? ==> |r.performed| < |stream| && ProcessEntry(src, ioOk, stream[|r.performed|]) == Err(r.error.value)
  {
    FoldSucceedsIffAllProcessed(Processor(src, ioOk), stream);
    Fold(Processor(src, ioOk), stream)
  }

  /** `performed` are the results, in order, of processing the first |performed| items of `stream`. */
  predicate Completed(process: Next -> Result<Step, CopyError>, stream: seq<Next>, performed: seq<Step>)
    requires |performed| <= |stream|
  {
    forall i :: 0 <= i < |performed| ==> process(stream[i]) == Ok(performed[i])
  }

  /**
    Every step a copy reports was completed for the stream item at the same
    position: the steps are the stream's prefix, processed in order.
  */
  lemma {:induction false} FoldCompletesPrefix(process: Next -> Result<Step, CopyError>, stream: seq<Next>)
    ensures Completed(process, stream, Fold(process, stream).performed)
  {
    if |stream| > 0 && process(stream[0]).Ok? {
      FoldCompletesPrefix(process, stream[1..]);
      var r := Fold(process, stream);
      forall i | 0 <= i < |r.performed|
        ensures process(stream[i]) == Ok(r.performed[i])
      {
        if i > 0 {
          assert stream[1..][i - 1] == stream[i];
        }
      }
    }
  }

  /** A copy returns nil exactly when every item of the stream is processed without error. */
  lemma {:induction false} FoldSucceedsIffAllProcessed(process: Next -> Result<Step, CopyError>, stream: seq<Next>)
    ensures Fold(process, stream).error.None? <==> forall i :: 0 <= i < |stream| ==> process(stream[i]).Ok?
  {
    if |stream| > 0 {
      FoldSucceedsIffAllProcessed(process, stream[1..]);
      assert forall i :: 1 <= i < |stream| ==> stream[i] == stream[1..][i - 1];
    }
  }

  /**
    The copy loop as the test harness runs it: read the next entry until the
    end of the stream, returning at the first error.
  */
  method CopyLoop(process: Next -> Result<Step, CopyError>, stream: seq<Next>)
    returns (performed: seq<Step>, error: Option<CopyError>)
    ensures Report(performed, error) == Fold(process, stream)
  {
    performed := [];
    var i := 0;
    while i < |stream|
      invariant 0 <= i <= |stream|
      invariant Fold(process, stream)
             == Report(performed + Fold(process, stream[i..]).performed, Fold(process, stream[i..]).error)
    {
      assert stream[i..][0] == stream[i];
      assert stream[i..][1..] == stream[i + 1..];
      match process(stream[i])
      case Err(e) =>
        return performed, Some(e);
      case Ok(step) =>
        assert performed + ([step] + Fold(process, stream[i + 1..]).performed)
            == (performed + [step]) + Fold(process, stream[i + 1..]).performed;
        performed := performed + [step];
        i := i + 1;
    }
    assert stream[i..] == [];
    assert performed + [] == performed;
    return performed, None;
  }

  /** copyFromContainer's loop over the tar stream of `src`, with `ioOk` standing for the host filesystem. */
  method CopyFromContainer(src: Source, ioOk: Step -> bool, stream: seq<Next>)
    returns (performed: seq<Step>, error: Option<CopyError>)
    ensures Report(performed, error) == CopyEntries(src, ioOk, stream)
    ensures error.None? <==> forall i :: 0 <= i < |stream| ==> ProcessEntry(src, ioOk, stream[i]).Ok?
  {
    performed, error := CopyLoop(Processor(src, ioOk), stream);
    FoldSucceedsIffAllProcessed(Processor(src, ioOk), stream);
  }

  /** Once a copy has failed, whatever the stream holds afterwards changes nothing. */
  lemma {:induction false} FoldStopsAtFirstError(process: Next -> Result<Step, CopyError>, stream: seq<Next>, more: seq<Next>)
    requires Fold(process, stream).error.Some?
    ensures Fold(process, stream + more) == Fold(process, stream)
  {
    assert (stream + more)[0] == stream[0];
    if process(stream[0]).Ok? {
      assert (stream + more)[1..] == stream[1..] + more;
      FoldStopsAtFirstError(process, stream[1..], more);
    }
  }

  /** A stream that copies cleanly can be followed by more entries: the copy carries on with them. */
  lemma {:induction false} FoldContinuesAfterSuccess(process: Next -> Result<Step, CopyError>, stream: seq<Next>, more: seq<Next>)
    requires Fold(process, stream).error.None?
    ensures Fold(process, stream + more)
         == Report(Fold(process, stream).performed + Fold(process, more).performed, Fold(process, more).error)
  {
    if |stream| == 0 {
      assert stream + more == more;
    } else {
      var whole := stream + more;
      assert whole[0] == stream[0];
      assert whole[1..] == stream[1..] + more;
      var head := process(stream[0]);
      FoldContinuesAfterSuccess(process, stream[1..], more);
      var front := Fold(process, stream[1..]).performed;
      var tail := Fold(process, more);
      assert [head.value] + (front + tail.performed) == ([head.value] + front) + tail.performed;
    }
  }

  /** A stream item a directory copy accepts: a header of a directory or regular file belonging to the directory. */
  predicate Accepted(basename: string, next: Next) {
    && next.Header?
    && BelongsTo(next.entry.name, basename)
    && (next.entry.typeflag == TypeDir || next.entry.typeflag == TypeReg)
  }

  /**
    A copy of a directory returns nil exactly when every item of the stream
    is a directory or regular-file entry of that directory and the host
    filesystem carries out its step.
  */
  lemma CleanCopyIffAllAccepted(basename: string, ioOk: Step -> bool, stream: seq<Next>)
    ensures CopyEntries(Directory(basename), ioOk, stream).error.None? <==>
      forall i :: 0 <= i < |stream| ==>
        Accepted(basename, stream[i]) && ioOk(StepFor(stream[i].entry.name[|basename|..], stream[i].entry.typeflag))
  {
    var process := Processor(Directory(basename), ioOk);
    FoldSucceedsIffAllProcessed(process, stream);
    forall i | 0 <= i < |stream|
      ensures process(stream[i]).Ok? <==>
        Accepted(basename, stream[i]) && ioOk(StepFor(stream[i].entry.name[|basename|..], stream[i].entry.typeflag))
    {
      ProcessedIffAccepted(basename, ioOk, stream[i]);
    }
  }

  /**
    Under a directory, an item is processed without error exactly when it is
    accepted and the host filesystem carries out the step for its name with
    the basename cut off.
  */
  lemma ProcessedIffAccepted(basename: string, ioOk: Step -> bool, next: Next)
    ensures ProcessEntry(Directory(basename), ioOk, next).Ok? <==>
      Accepted(basename, next) && ioOk(StepFor(next.entry.name[|basename|..], next.entry.typeflag))
  {
  }

  /**
    The round trip of renaming: under a directory, `basename + rest` is
    accepted exactly when `rest` is empty or starts with '/', and it is then
    stored under `rest`.
  */
  lemma RelocateRoundTrip(basename: string, rest: string)
    ensures Relocate(Directory(basename), basename + rest).Ok? <==> rest == "" || rest[0] == '/'
    ensures Relocate(Directory(basename), basename + rest).Ok? ==> Relocate(Directory(basename), basename + rest).value == rest
  {
    var name := basename + rest;
    assert name[..|basename|] == basename;
    if rest != "" {
      assert name[..|basename| + 1] == basename + [rest[0]];
    }
  }

  /**
    A sibling that merely starts with the basename, such as "covdata2" next
    to "covdata", is refused rather than copied.
  */
  lemma SiblingRejected(basename: string, c: char, tail: string)
    requires c != '/'
    ensures Relocate(Directory(basename), basename + [c] + tail) == Err(NotInDirectory(basename + [c] + tail, basename))
  {
    RelocateRoundTrip(basename, [c] + tail);
    assert basename + [c] + tail == basename + ([c] + tail);
  }

  /**
    Copying something that is not a directory never renames or refuses an
    entry by its name: every performed step is the step for the entry's
    type under its own name.
  */
  lemma NotDirectoryKeepsNames(ioOk: Step -> bool, stream: seq<Next>)
    ensures forall i :: 0 <= i < |CopyEntries(NotDirectory, ioOk, stream).performed| ==>
      && stream[i].Header?
      && (stream[i].entry.typeflag == TypeDir || stream[i].entry.typeflag == TypeReg)
      && CopyEntries(NotDirectory, ioOk, stream).performed[i] == StepFor(stream[i].entry.name, stream[i].entry.typeflag)
  {
    var process := Processor(NotDirectory, ioOk);
    FoldCompletesPrefix(process, stream);
    var r := Fold(process, stream);
    forall i | 0 <= i < |r.performed|
      ensures stream[i].Header? && (stream[i].entry.typeflag == TypeDir || stream[i].entry.typeflag == TypeReg)
      ensures r.performed[i] == StepFor(stream[i].entry.name, stream[i].entry.typeflag)
    {
      assert process(stream[i]) == Ok(r.performed[i]);
    }
  }

  /**
    Without a directory, one item is processed exactly when it is a
    directory or regular-file header and the step under its own name
    succeeds.
  */
  lemma ProcessedIffAcceptedNotDirectory(ioOk: Step -> bool, next: Next)
    ensures ProcessEntry(NotDirectory, ioOk, next).Ok? <==>
      && next.Header?
      && (next.entry.typeflag == TypeDir || next.entry.typeflag == TypeReg)
      && ioOk(StepFor(next.entry.name, next.entry.typeflag))
  {
  }

  /**
    Copying a directory stores every performed entry under its name with
    the basename cut off, as a directory step for a directory entry and a
    file step for a regular file.
  */
  lemma DirectoryStoresStrippedNames(basename: string, ioOk: Step -> bool, stream: seq<Next>)
    ensures forall i :: 0 <= i < |CopyEntries(Directory(basename), ioOk, stream).performed| ==>
      && stream[i].Header?
      && BelongsTo(stream[i].entry.name, basename)
      && (stream[i].entry.typeflag == TypeDir || stream[i].entry.typeflag == TypeReg)
      && CopyEntries(Directory(basename), ioOk, stream).performed[i]
         == StepFor(stream[i].entry.name[|basename|..], stream[i].entry.typeflag)
  {
    var process := Processor(Directory(basename), ioOk);
    FoldCompletesPrefix(process, stream);
    var r := Fold(process, stream);
    forall i | 0 <= i < |r.performed|
      ensures stream[i].Header? && BelongsTo(stream[i].entry.name, basename)
      ensures stream[i].entry.typeflag == TypeDir || stream[i].entry.typeflag == TypeReg
      ensures r.performed[i] == StepFor(stream[i].entry.name[|basename|..], stream[i].entry.typeflag)
    {
      assert process(stream[i]) == Ok(r.performed[i]);
    }
  }
}
