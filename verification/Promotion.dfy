/** Publishing a feed file by file, meta.json last (fpt/export/storage.py): every file is
    written to a sibling and then moved into place, and the writer may stop at any byte. */
module Promotion {

  type Data = seq<bv8>

  datatype File = File(name: string, data: Data)

  /** The latest/ directory. */
  type Directory = map<string, Data>

  const META := "meta.json"
  const TMP := ".tmp"

  function TmpOf(name: string): string {
    name + TMP
  }

  predicate IsTmp(name: string) {
    |name| >= |TMP| && name[|name| - |TMP|..] == TMP
  }

  // ---------------------------------------------------------------- the order of files

  function WithoutMeta(files: seq<File>): seq<File> {
    if files == [] then [] else (if files[0].name == META then [] else [files[0]]) + WithoutMeta(files[1..])
  }

  function OnlyMeta(files: seq<File>): seq<File> {
    if files == [] then [] else (if files[0].name == META then [files[0]] else []) + OnlyMeta(files[1..])
  }

  /** The stable sort by "is meta.json". */
  function OrderMetaLast(files: seq<File>): seq<File> {
    WithoutMeta(files) + OnlyMeta(files)
  }

  /** A dictionary has each key once, and no file is named like another's temporary sibling. */
  ghost predicate FilesOk(files: seq<File>) {
    && (forall i, j :: 0 <= i < j < |files| ==> files[i].name != files[j].name)
    && (forall i :: 0 <= i < |files| ==> !IsTmp(files[i].name))
  }

  lemma MoveIn(w: seq<File>, head: seq<File>, m: seq<File>)
    ensures multiset(w + (head + m)) == multiset(head) + multiset(w + m)
    ensures multiset((head + w) + m) == multiset(head) + multiset(w + m)
  {
  }

  lemma {:induction false} OrderIsPermutation(files: seq<File>)
    ensures multiset(OrderMetaLast(files)) == multiset(files)
  {
    if files != [] {
      var head, rest := [files[0]], files[1..];
      OrderIsPermutation(rest);
      MoveIn(WithoutMeta(rest), head, OnlyMeta(rest));
      assert files == head + rest;
      assert multiset(files) == multiset(head) + multiset(rest);
      assert OnlyMeta(files) == if files[0].name == META then head + OnlyMeta(rest) else OnlyMeta(rest);
    }
  }

  lemma OrderKeepsFiles(files: seq<File>)
    ensures forall f :: f in OrderMetaLast(files) <==> f in files
  {
    OrderIsPermutation(files);
    forall f ensures f in OrderMetaLast(files) <==> f in files {
      assert f in multiset(OrderMetaLast(files)) <==> f in multiset(files);
    }
  }

  lemma {:induction false} MetaOnceAtMost(files: seq<File>)
    requires forall i, j :: 0 <= i < j < |files| ==> files[i].name != files[j].name
    ensures |OnlyMeta(files)| <= 1 && forall i :: 0 <= i < |WithoutMeta(files)| ==> WithoutMeta(files)[i].name != META
    ensures (forall i :: 0 <= i < |files| ==> files[i].name != META) ==> OnlyMeta(files) == []
    ensures forall i :: 0 <= i < |OnlyMeta(files)| ==> OnlyMeta(files)[i].name == META
  {
    if files != [] {
      MetaOnceAtMost(files[1..]);
      if files[0].name == META {
        assert forall i :: 0 <= i < |files[1..]| ==> files[1..][i] == files[i + 1];
      }
    }
  }

  /** meta.json, if there is one, comes after every other file. */
  lemma MetaIsLast(files: seq<File>, i: nat)
    requires FilesOk(files) && i < |OrderMetaLast(files)| && OrderMetaLast(files)[i].name == META
    ensures i == |OrderMetaLast(files)| - 1
  {
    MetaOnceAtMost(files);
  }

  // ---------------------------------------------------------------- the writes

  datatype Op = Open(path: string) | Append(path: string, byte: bv8) | Replace(source: string, target: string)

  function Do(dir: Directory, op: Op): Directory {
    match op
    case Open(path) => dir[path := []]
    case Append(path, byte) => if path in dir then dir[path := dir[path] + [byte]] else dir
    case Replace(source, target) => if source in dir then (dir - {source})[target := dir[source]] else dir
  }

  function DoAll(dir: Directory, ops: seq<Op>): Directory
    decreases ops
  {
    if ops == [] then dir else DoAll(Do(dir, ops[0]), ops[1..])
  }

  function AppendOps(path: string, data: Data): (r: seq<Op>)
    ensures |r| == |data|
  {
    seq(|data|, i requires 0 <= i < |data| => Append(path, data[i]))
  }

  /** _write_atomic, byte by byte. */
  function WriteOps(f: File): (r: seq<Op>)
    ensures |r| == |f.data| + 2
  {
    [Open(TmpOf(f.name))] + AppendOps(TmpOf(f.name), f.data) + [Replace(TmpOf(f.name), f.name)]
  }

  function OpsOf(files: seq<File>): seq<Op> {
    if files == [] then [] else WriteOps(files[0]) + OpsOf(files[1..])
  }

  function PromoteOps(files: seq<File>): seq<Op> {
    OpsOf(OrderMetaLast(files))
  }

  lemma {:induction false} DoConcat(dir: Directory, a: seq<Op>, b: seq<Op>)
    ensures DoAll(dir, a + b) == DoAll(DoAll(dir, a), b)
    decreases a
  {
    if a == [] {
      assert a + b == b;
    } else {
      assert (a + b)[1..] == a[1..] + b;
      DoConcat(Do(dir, a[0]), a[1..], b);
    }
  }

  // ---------------------------------------------------------------- what a reader can see

  /** The files under their own names. */
  function Visible(dir: Directory): Directory {
    map n | n in dir && !IsTmp(n) :: dir[n]
  }

  lemma TmpIsTmp(name: string)
    ensures IsTmp(TmpOf(name))
  {
    assert TmpOf(name)[|TmpOf(name)| - |TMP|..] == TMP;
  }

  /** Writing the sibling shows nothing, and leaves in it what was written so far. */
  lemma {:induction false} AppendsInvisible(dir: Directory, path: string, data: Data, c: nat)
    requires IsTmp(path) && path in dir && c <= |data|
    ensures var after := DoAll(dir, AppendOps(path, data)[..c]);
            Visible(after) == Visible(dir) && path in after && after[path] == dir[path] + data[..c]
    decreases c
  {
    var ops := AppendOps(path, data);
    if c == 0 {
      assert dir[path] + data[..0] == dir[path];
    } else {
      AppendsInvisible(dir, path, data, c - 1);
      assert ops[..c] == ops[..c - 1] + [Append(path, data[c - 1])];
      DoConcat(dir, ops[..c - 1], [Append(path, data[c - 1])]);
      var before := DoAll(dir, ops[..c - 1]);
      assert DoAll(before, [Append(path, data[c - 1])]) == Do(before, Append(path, data[c - 1]));
      assert dir[path] + data[..c] == dir[path] + data[..c - 1] + [data[c - 1]];
    }
  }

  lemma ReplaceVisible(dir: Directory, tmp: string, name: string)
    requires IsTmp(tmp) && !IsTmp(name) && tmp in dir
    ensures Visible(Do(dir, Replace(tmp, name))) == Visible(dir)[name := dir[tmp]]
  {
    var after := Do(dir, Replace(tmp, name));
    assert forall n :: n in after <==> (n in dir && n != tmp) || n == name;
    assert Visible(after).Keys == Visible(dir)[name := dir[tmp]].Keys;
  }

  /** One file, cut anywhere: nothing is seen before its last operation, the whole file after. */
  lemma WriteVisible(dir: Directory, f: File, c: nat)
    requires !IsTmp(f.name) && c <= |WriteOps(f)|
    ensures Visible(DoAll(dir, WriteOps(f)[..c]))
         == if c < |WriteOps(f)| then Visible(dir) else Visible(dir)[f.name := f.data]
  {
    var tmp, ops := TmpOf(f.name), WriteOps(f);
    TmpIsTmp(f.name);
    if c > 0 {
      var begun := dir[tmp := []];
      var n := if c - 1 <= |f.data| then c - 1 else |f.data|;
      var appends := AppendOps(tmp, f.data)[..n];
      AppendsInvisible(begun, tmp, f.data, n);
      assert DoAll(dir, [Open(tmp)]) == Do(dir, Open(tmp));
      DoConcat(dir, [Open(tmp)], appends);
      var written := DoAll(begun, appends);
      if c < |ops| {
        assert ops[..c] == [Open(tmp)] + appends;
      } else {
        assert ops[..c] == [Open(tmp)] + appends + [Replace(tmp, f.name)];
        DoConcat(dir, [Open(tmp)] + appends, [Replace(tmp, f.name)]);
        assert DoAll(written, [Replace(tmp, f.name)]) == Do(written, Replace(tmp, f.name));
        assert written[tmp] == f.data;
        ReplaceVisible(written, tmp, f.name);
        assert [] + f.data[..n] == f.data;
      }
    }
  }

  /** How many files are in place once c operations are done. */
  function Completed(files: seq<File>, c: nat): (r: nat)
    ensures r <= |files|
  {
    if files == [] || c < |WriteOps(files[0])| then 0 else 1 + Completed(files[1..], c - |WriteOps(files[0])|)
  }

  function Put(dir: Directory, files: seq<File>): Directory
    decreases files
  {
    if files == [] then dir else Put(dir[files[0].name := files[0].data], files[1..])
  }

  /** A promotion cut anywhere shows its first files, whole, and nothing else new. */
  lemma {:induction false} CutShowsWholeFiles(dir: Directory, files: seq<File>, c: nat)
    requires (forall i :: 0 <= i < |files| ==> !IsTmp(files[i].name)) && c <= |OpsOf(files)|
    ensures Visible(DoAll(dir, OpsOf(files)[..c])) == Put(Visible(dir), files[..Completed(files, c)])
    decreases files
  {
    if files != [] {
      var first, n := WriteOps(files[0]), |WriteOps(files[0])|;
      if c < n {
        WriteVisible(dir, files[0], c);
        assert OpsOf(files)[..c] == first[..c];
      } else {
        WriteVisible(dir, files[0], n);
        assert first[..n] == first;
        assert OpsOf(files)[..c] == first + OpsOf(files[1..])[..c - n];
        DoConcat(dir, first, OpsOf(files[1..])[..c - n]);
        CutShowsWholeFiles(DoAll(dir, first), files[1..], c - n);
        var k := Completed(files, c);
        assert files[..k][1..] == files[1..][..k - 1] && files[..k][0] == files[0];
      }
    }
  }

  // ---------------------------------------------------------------- the writer

  /** Storage on a local directory; one writer. */
  class LocalStorage {
    var latest: Directory

    constructor ()
      ensures latest == map[]
    {
      latest := map[];
    }

    method WriteAtomic(f: File)
      modifies this
      ensures latest == DoAll(old(latest), WriteOps(f))
    {
      var tmp := TmpOf(f.name);
      ghost var start := latest;
      latest := latest[tmp := []];
      assert DoAll(start, [Open(tmp)]) == Do(start, Open(tmp));
      ghost var begun := latest;
      for i := 0 to |f.data|
        invariant tmp in latest && latest == DoAll(begun, AppendOps(tmp, f.data)[..i])
      {
        var ops := AppendOps(tmp, f.data);
        assert ops[..i + 1] == ops[..i] + [ops[i]];
        DoConcat(begun, ops[..i], [ops[i]]);
        assert DoAll(latest, [ops[i]]) == Do(latest, ops[i]);
        latest := latest[tmp := latest[tmp] + [f.data[i]]];
      }
      ghost var appends := AppendOps(tmp, f.data);
      assert appends[..|f.data|] == appends;
      DoConcat(start, [Open(tmp)], appends);
      DoConcat(start, [Open(tmp)] + appends, [Replace(tmp, f.name)]);
      assert DoAll(latest, [Replace(tmp, f.name)]) == Do(latest, Replace(tmp, f.name));
      latest := (latest - {tmp})[f.name := latest[tmp]];
    }

    method Promote(files: seq<File>)
      modifies this
      ensures latest == DoAll(old(latest), PromoteOps(files))
      ensures FilesOk(files) ==> Visible(latest) == Put(Visible(old(latest)), OrderMetaLast(files))
    {
      var ordered := OrderMetaLast(files);
      ghost var start := latest;
      for n := 0 to |ordered|
        invariant DoAll(start, OpsOf(ordered)) == DoAll(latest, OpsOf(ordered[n..]))
      {
        assert ordered[n..][0] == ordered[n] && ordered[n..][1..] == ordered[n + 1..];
        DoConcat(latest, WriteOps(ordered[n]), OpsOf(ordered[n + 1..]));
        WriteAtomic(ordered[n]);
      }
      if FilesOk(files) { WholePromotion(start, files); }
    }
  }

  lemma {:induction false} AllCompleted(files: seq<File>)
    ensures Completed(files, |OpsOf(files)|) == |files|
  {
    if files != [] { AllCompleted(files[1..]); }
  }

  lemma WholePromotion(dir: Directory, files: seq<File>)
    requires FilesOk(files)
    ensures Visible(DoAll(dir, PromoteOps(files))) == Put(Visible(dir), OrderMetaLast(files))
  {
    var ordered := OrderMetaLast(files);
    OrderKeepsFiles(files);
    forall i | 0 <= i < |ordered| ensures !IsTmp(ordered[i].name) { assert ordered[i] in files; }
    CutShowsWholeFiles(dir, ordered, |OpsOf(ordered)|);
    AllCompleted(ordered);
    assert OpsOf(ordered)[..|OpsOf(ordered)|] == OpsOf(ordered) && ordered[..|ordered|] == ordered;
  }
}
