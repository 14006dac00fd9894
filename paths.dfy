/** The part of Rust's `std::path::Path` the proxy uses on Unix: the file
    name and the file stem of a path given as text. */
module Paths {
  import opened Wrappers
  import opened Text

  /** The pieces of `pieces` that are neither empty nor `.`, in order. */
  function Normal(pieces: seq<string>): (r: seq<string>)
    ensures |r| <= |pieces|
    ensures forall i | 0 <= i < |r| :: r[i] != [] && r[i] != "." && r[i] in pieces
  {
    if pieces == [] then []
    else if pieces[0] == [] || pieces[0] == "." then Normal(pieces[1..])
    else [pieces[0]] + Normal(pieces[1..])
  }

  lemma {:induction false} NormalAppend(p: seq<string>, q: seq<string>)
    ensures Normal(p + q) == Normal(p) + Normal(q)
  {
    if p == [] {
      assert p + q == q;
    } else {
      assert (p + q)[1..] == p[1..] + q;
      NormalAppend(p[1..], q);
    }
  }

  /** `Path::components` without the root: the text between slashes, with the
      empty pieces (repeated or leading slashes) and the `.` pieces dropped;
      `..` is kept. */
  function Components(path: string): (r: seq<string>)
    ensures forall i | 0 <= i < |r| :: r[i] != [] && r[i] != "." && '/' !in r[i]
  {
    Normal(Split(path, '/'))
  }

  /** `Path::file_name`: the last component, unless there is none or it is `..`. */
  function FileName(path: string): (r: Option<string>)
    ensures r.Some? ==> r.value != [] && '/' !in r.value && r.value != "." && r.value != ".."
  {
    var cs := Components(path);
    if cs == [] || cs[|cs| - 1] == ".." then None else Some(cs[|cs| - 1])
  }

  /** `Path::file_stem`: the file name up to its last `.`, or the whole name
      when it has no `.` after its first character. */
  function FileStem(path: string): (r: Option<string>)
    ensures r.Some? <==> FileName(path).Some?
    ensures r.Some? ==> r.value != [] && '/' !in r.value && r.value <= FileName(path).value
    ensures r.Some? && r.value == FileName(path).value ==> '.' !in r.value[1..]
    ensures r.Some? && r.value != FileName(path).value ==>
              var name := FileName(path).value;
              name[|r.value|] == '.' && '.' !in name[|r.value| + 1..]
  {
    match FileName(path)
    case None => None
    case Some(name) =>
      match LastIndexOf(name, ".")
      case None =>
        NoDot(name);
        Some(name)
      case Some(i) =>
        NoDotAfter(name, i);
        if i == 0 then Some(name) else Some(name[..i])
  }

  /** No `.` after position `i` when `"."` does not occur after `i`. */
  lemma NoDotAfter(name: string, i: nat)
    requires i < |name|
    requires forall q: nat | i < q :: !OccursAt(name, ".", q)
    ensures '.' !in name[i + 1..]
  {
    forall q | i < q < |name| ensures name[q] != '.' {
      assert !OccursAt(name, ".", q);
      assert name[q..q + 1] == [name[q]];
    }
  }

  /** No `.` at all when `"."` occurs nowhere. */
  lemma NoDot(name: string)
    requires forall q: nat :: !OccursAt(name, ".", q)
    ensures '.' !in name
  {
    forall q | 0 <= q < |name| ensures name[q] != '.' {
      assert !OccursAt(name, ".", q);
      assert name[q..q + 1] == [name[q]];
    }
  }

  /** The file name of `dir/name` is `name` for a plain name. */
  lemma FileNameOfJoin(dir: string, name: string)
    requires name != [] && name != "." && name != ".." && '/' !in name
    ensures FileName(dir + "/" + name) == Some(name)
  {
    SplitAround(dir, '/', name);
    assert Split(name, '/') == [name];
    NormalAppend(Split(dir, '/'), [name]);
    assert Normal([name]) == [name];
  }

  /** A name without a `.` is its own stem. */
  lemma FileStemOfJoin(dir: string, name: string)
    requires name != [] && name != ".." && '/' !in name && '.' !in name
    ensures FileStem(dir + "/" + name) == Some(name)
  {
    FileNameOfJoin(dir, name);
  }

  /** A plain name without `/` or `.` is its own stem. */
  lemma FileStemOfPlain(name: string)
    requires name != [] && '/' !in name && '.' !in name
    ensures FileStem(name) == Some(name)
  {
    assert Split(name, '/') == [name];
    assert Normal([name]) == [name];
    assert name != "..";
  }

  /** `Path::join`: an absolute `name` replaces `dir`; otherwise `name` is
      appended, after a `/` unless `dir` is empty or already ends in one. */
  function Join(dir: string, name: string): (r: string)
    ensures name != [] && name[0] == '/' ==> r == name
    ensures (name == [] || name[0] != '/') ==>
              |r| >= |name| && r[|r| - |name|..] == name &&
              (r[..|r| - |name|] == dir || r[..|r| - |name|] == dir + "/")
  {
    if name != [] && name[0] == '/' then name
    else if dir == [] || dir[|dir| - 1] == '/' then dir + name
    else dir + "/" + name
  }

  /** Joining a plain name to a directory with no trailing `/` puts exactly
      one `/` between them, and the file name of the result is that name. */
  lemma JoinPlain(dir: string, name: string)
    requires dir != [] && dir[|dir| - 1] != '/'
    requires name != [] && name != "." && name != ".." && '/' !in name
    ensures Join(dir, name) == dir + "/" + name
    ensures FileName(Join(dir, name)) == Some(name)
  {
    FileNameOfJoin(dir, name);
  }
}
