/**
 * The part of the local filesystem the archiver writes: a map from path to
 * file contents. Directories are created on demand by the source
 * (`mkdir(parents=True, exist_ok=True)`) and are not modelled.
 */
module Files {

  newtype byte = b: int | 0 <= b < 256

  type Bytes = seq<byte>

  /** One `Path.write_bytes(data)` call. */
  datatype FileWrite = FileWrite(path: string, data: Bytes)

  /** The files after a sequence of writes; a later write to the same path overwrites. */
  function ApplyWrites(files: map<string, Bytes>, writes: seq<FileWrite>): map<string, Bytes>
    decreases |writes|
  {
    if writes == [] then files
    else ApplyWrites(files[writes[0].path := writes[0].data], writes[1..])
  }

  lemma {:induction false} ApplyWritesAppend(files: map<string, Bytes>, a: seq<FileWrite>, b: seq<FileWrite>)
    ensures ApplyWrites(files, a + b) == ApplyWrites(ApplyWrites(files, a), b)
    decreases |a|
  {
    if a != [] {
      assert (a + b)[1..] == a[1..] + b;
      ApplyWritesAppend(files[a[0].path := a[0].data], a[1..], b);
    } else {
      assert a + b == b;
    }
  }

  lemma ApplyWritesOne(files: map<string, Bytes>, w: FileWrite)
    ensures ApplyWrites(files, [w]) == files[w.path := w.data]
  {
    assert [w][1..] == [];
  }

  /** The final write of a series decides its path's contents; a path no write names is untouched. */
  lemma {:induction false} ApplyWritesLast(files: map<string, Bytes>, writes: seq<FileWrite>, path: string)
    ensures (forall i :: 0 <= i < |writes| ==> writes[i].path != path) ==>
      (path in ApplyWrites(files, writes) <==> path in files) &&
      (path in files ==> ApplyWrites(files, writes)[path] == files[path])
    ensures |writes| > 0 && writes[|writes| - 1].path == path ==>
      path in ApplyWrites(files, writes) && ApplyWrites(files, writes)[path] == writes[|writes| - 1].data
    decreases |writes|
  {
    if writes != [] {
      ApplyWritesLast(files[writes[0].path := writes[0].data], writes[1..], path);
    }
  }

  /** Anywhere in a series, a write that is not followed by another to its path decides that path's contents. */
  lemma ApplyWritesLastAt(files: map<string, Bytes>, writes: seq<FileWrite>, i: nat)
    requires i < |writes|
    requires forall j :: i < j < |writes| ==> writes[j].path != writes[i].path
    ensures writes[i].path in ApplyWrites(files, writes)
    ensures ApplyWrites(files, writes)[writes[i].path] == writes[i].data
  {
    var pre, post := writes[..i + 1], writes[i + 1..];
    assert writes == pre + post;
    ApplyWritesAppend(files, pre, post);
    ApplyWritesLast(files, pre, writes[i].path);
    assert forall j :: 0 <= j < |post| ==> post[j] == writes[i + 1 + j];
    ApplyWritesLast(ApplyWrites(files, pre), post, writes[i].path);
  }

  class Disk {
    var files: map<string, Bytes>

    constructor (initial: map<string, Bytes>)
      ensures files == initial
    {
      files := initial;
    }

    /** `Path(path).write_bytes(data)` */
    method WriteBytes(path: string, data: Bytes)
      modifies this
      ensures files == old(files)[path := data]
    {
      files := files[path := data];
    }
  }
}
