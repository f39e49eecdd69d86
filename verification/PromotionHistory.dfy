/** Readers of latest/ while one writer promotes one generation after another, each of which
    may be cut off at any byte. */
module PromotionHistory {
  import opened Promotion

  /** One generation's promotion; `cut` operations of it are done, or all of them. */
  datatype Attempt = Attempt(files: seq<File>, cut: nat)

  ghost predicate HistoryOk(history: seq<Attempt>) {
    forall i :: 0 <= i < |history| ==> FilesOk(history[i].files)
  }

  function DoneOps(a: Attempt): seq<Op> {
    var ops := PromoteOps(a.files);
    if a.cut < |ops| then ops[..a.cut] else ops
  }

  function DirAfter(history: seq<Attempt>): Directory {
    if history == [] then map[] else DoAll(DirAfter(history[..|history| - 1]), DoneOps(history[|history| - 1]))
  }

  /** The files in place, in order. */
  function InPlace(a: Attempt): seq<File> {
    OrderMetaLast(a.files)[..Completed(OrderMetaLast(a.files), |DoneOps(a)|)]
  }

  // ---------------------------------------------------------------- where each visible file comes from

  datatype Release = Release(gen: nat, data: Data)

  type View = map<string, Release>

  function Stamp(view: View, gen: nat, files: seq<File>): View
    decreases files
  {
    if files == [] then view else Stamp(view[files[0].name := Release(gen, files[0].data)], gen, files[1..])
  }

  /** Each visible name with the generation that last put it in place. */
  function ViewAfter(history: seq<Attempt>): View {
    if history == [] then map[] else
      var n := |history| - 1;
      Stamp(ViewAfter(history[..n]), n, InPlace(history[n]))
  }

  function Contents(view: View): Directory {
    map n | n in view :: view[n].data
  }

  lemma {:induction false} PutIsStamp(view: View, gen: nat, files: seq<File>)
    ensures Put(Contents(view), files) == Contents(Stamp(view, gen, files))
    decreases files
  {
    if files != [] {
      var next := view[files[0].name := Release(gen, files[0].data)];
      assert Contents(next) == Contents(view)[files[0].name := files[0].data];
      PutIsStamp(next, gen, files[1..]);
    }
  }

  /** At every moment a reader sees exactly the files put in place so far, each of them whole. */
  lemma {:induction false} ReadersSeeReleases(history: seq<Attempt>)
    requires HistoryOk(history)
    ensures Visible(DirAfter(history)) == Contents(ViewAfter(history))
  {
    if history != [] {
      var n := |history| - 1;
      ReadersSeeReleases(history[..n]);
      var a, ordered := history[n], OrderMetaLast(history[n].files);
      OrderKeepsFiles(a.files);
      forall i | 0 <= i < |ordered| ensures !IsTmp(ordered[i].name) { assert ordered[i] in a.files; }
      CutShowsWholeFiles(DirAfter(history[..n]), ordered, |DoneOps(a)|);
      assert DoneOps(a) == OpsOf(ordered)[..|DoneOps(a)|];
      PutIsStamp(ViewAfter(history[..n]), n, InPlace(a));
    }
  }

  ghost predicate Named(files: seq<File>, name: string) {
    exists i :: 0 <= i < |files| && files[i].name == name
  }

  lemma NamedSplit(files: seq<File>, name: string)
    requires files != []
    ensures Named(files, name) <==> files[0].name == name || Named(files[1..], name)
  {
    assert forall i :: 1 <= i < |files| ==> files[i] == files[1..][i - 1];
    assert forall i :: 0 <= i < |files[1..]| ==> files[1..][i] == files[i + 1];
  }

  lemma {:induction false} StampExactly(view: View, gen: nat, files: seq<File>, name: string)
    ensures var after := Stamp(view, gen, files);
            if Named(files, name) then name in after && after[name].gen == gen && File(name, after[name].data) in files
            else (name in after <==> name in view) && (name in view ==> after[name] == view[name])
    decreases files
  {
    if files != [] {
      var next := view[files[0].name := Release(gen, files[0].data)];
      StampExactly(next, gen, files[1..], name);
      NamedSplit(files, name);
    }
  }

  // ---------------------------------------------------------------- the invariant

  /** The generation meta.json belongs to is there in full: each of its files is visible, from
      that generation or a later one. */
  ghost predicate MetaTrusted(history: seq<Attempt>, view: View) {
    META in view ==>
      var g := view[META].gen;
      g < |history| && forall f :: f in history[g].files ==> f.name in view && view[f.name].gen >= g
  }

  ghost predicate Sourced(history: seq<Attempt>, view: View) {
    forall n :: n in view ==> view[n].gen < |history| && File(n, view[n].data) in history[view[n].gen].files
  }

  lemma InPlaceIsSome(a: Attempt)
    ensures forall f :: f in InPlace(a) ==> f in a.files
    ensures Completed(OrderMetaLast(a.files), |DoneOps(a)|) == |a.files| ==> forall f :: f in a.files ==>
              f in InPlace(a)
  {
    OrderKeepsFiles(a.files);
    OrderIsPermutation(a.files);
    var ordered := OrderMetaLast(a.files);
    assert |ordered| == |multiset(ordered)| == |multiset(a.files)| == |a.files|;
    assert ordered[..|ordered|] == ordered;
  }

  /** With meta.json in place, every other file of its generation is. */
  lemma MetaMeansAll(a: Attempt)
    requires FilesOk(a.files) && Named(InPlace(a), META)
    ensures forall f :: f in a.files ==> f in InPlace(a)
  {
    var i :| 0 <= i < |InPlace(a)| && InPlace(a)[i].name == META;
    MetaIsLast(a.files, i);
    assert InPlace(a) == OrderMetaLast(a.files);
    OrderKeepsFiles(a.files);
  }

  lemma AttemptKeeps(history: seq<Attempt>, a: Attempt, view: View)
    requires FilesOk(a.files) && Sourced(history, view) && MetaTrusted(history, view)
    ensures var after := Stamp(view, |history|, InPlace(a));
            Sourced(history + [a], after) && MetaTrusted(history + [a], after)
  {
    var placed, all := InPlace(a), history + [a];
    var after := Stamp(view, |history|, placed);
    InPlaceIsSome(a);
    forall n | n in after ensures after[n].gen < |all| && File(n, after[n].data) in all[after[n].gen].files {
      StampExactly(view, |history|, placed, n);
    }
    if META in after {
      StampExactly(view, |history|, placed, META);
      if Named(placed, META) { MetaMeansAll(a); }
      var g := after[META].gen;
      forall f | f in all[g].files ensures f.name in after && after[f.name].gen >= g {
        StampExactly(view, |history|, placed, f.name);
        if Named(placed, META) { NamedMember(placed, f); }
      }
    }
  }

  lemma NamedMember(files: seq<File>, f: File)
    requires f in files
    ensures Named(files, f.name)
  {
  }

  lemma {:induction false} HistoryKeeps(history: seq<Attempt>)
    requires HistoryOk(history)
    ensures Sourced(history, ViewAfter(history)) && MetaTrusted(history, ViewAfter(history))
  {
    if history != [] {
      var n := |history| - 1;
      HistoryKeeps(history[..n]);
      AttemptKeeps(history[..n], history[n], ViewAfter(history[..n]));
      assert history[..n] + [history[n]] == history;
    }
  }

  // ---------------------------------------------------------------- a reader over time

  /** The writer's run up to operation `cut` of generation `gen`. */
  function Until(history: seq<Attempt>, gen: nat, cut: nat): seq<Attempt>
    requires gen < |history|
  {
    history[..gen] + [history[gen].(cut := if cut < history[gen].cut then cut else history[gen].cut)]
  }

  lemma {:induction false} CompletedGrows(files: seq<File>, c: nat, d: nat)
    requires c <= d
    ensures Completed(files, c) <= Completed(files, d)
  {
    if files != [] && c >= |WriteOps(files[0])| {
      CompletedGrows(files[1..], c - |WriteOps(files[0])|, d - |WriteOps(files[0])|);
    }
  }

  /** Nothing visible goes away or gets older. */
  ghost predicate Newer(a: View, b: View) {
    forall n :: n in a ==> n in b && b[n].gen >= a[n].gen
  }

  lemma AttemptNewer(history: seq<Attempt>, view: View, files: seq<File>)
    requires Sourced(history, view)
    ensures Newer(view, Stamp(view, |history|, files))
  {
    forall n | n in view
        ensures n in Stamp(view, |history|, files) && Stamp(view, |history|, files)[n].gen >= view[n].gen {
      StampExactly(view, |history|, files, n);
    }
  }

  lemma LongerNewer(view: View, gen: nat, files: seq<File>, j: nat, k: nat)
    requires j <= k <= |files| && forall n :: n in view ==> view[n].gen <= gen
    ensures Newer(Stamp(view, gen, files[..j]), Stamp(view, gen, files[..k]))
  {
    forall n | n in Stamp(view, gen, files[..j])
      ensures n in Stamp(view, gen, files[..k])
      ensures Stamp(view, gen, files[..k])[n].gen >= Stamp(view, gen, files[..j])[n].gen
    {
      StampExactly(view, gen, files[..j], n);
      StampExactly(view, gen, files[..k], n);
      if Named(files[..j], n) {
        var i :| 0 <= i < |files[..j]| && files[..j][i].name == n;
        assert files[..k][i].name == n;
      }
    }
  }

  lemma SameGenerationNewer(history: seq<Attempt>, gen: nat, c: nat, d: nat)
    requires HistoryOk(history) && gen < |history| && c <= d
    ensures Newer(ViewAfter(Until(history, gen, c)), ViewAfter(Until(history, gen, d)))
  {
    hide Newer, Stamp;
    var a, b := Until(history, gen, c), Until(history, gen, d);
    assert a[..gen] == history[..gen] == b[..gen];
    var ordered := OrderMetaLast(history[gen].files);
    HistoryKeeps(history[..gen]);
    CompletedGrows(ordered, |DoneOps(a[gen])|, |DoneOps(b[gen])|);
    LongerNewer(ViewAfter(history[..gen]), gen, ordered,
                Completed(ordered, |DoneOps(a[gen])|), Completed(ordered, |DoneOps(b[gen])|));
  }

  lemma NewerTwice(a: View, b: View, c: View)
    requires Newer(a, b) && Newer(b, c)
    ensures Newer(a, c)
  {
  }

  lemma StartIsNewer(history: seq<Attempt>, h: nat, d: nat)
    requires HistoryOk(history) && h < |history|
    ensures Newer(ViewAfter(history[..h]), ViewAfter(Until(history, h, d)))
  {
    hide Stamp, Newer, InPlace;
    var b := Until(history, h, d);
    assert b[..h] == history[..h];
    assert ViewAfter(b) == Stamp(ViewAfter(history[..h]), h, InPlace(b[h]));
    HistoryKeeps(history[..h]);
    AttemptNewer(history[..h], ViewAfter(history[..h]), InPlace(b[h]));
  }

  lemma EndOf(history: seq<Attempt>, h: nat)
    requires h < |history|
    ensures Until(history, h, history[h].cut) == history[..h + 1]
  {
  }

  lemma {:induction false} LaterIsNewer(history: seq<Attempt>, g: nat, c: nat, h: nat, d: nat)
    requires HistoryOk(history) && g < |history| && h < |history|
    requires g < h || (g == h && c <= d)
    ensures Newer(ViewAfter(Until(history, g, c)), ViewAfter(Until(history, h, d)))
    decreases h
  {
    hide ViewAfter, Newer;
    if g == h {
      SameGenerationNewer(history, g, c, d);
    } else {
      var cut := history[h - 1].cut;
      if g == h - 1 {
        EndAtMost(history, g, c);
        SameGenerationNewer(history, g, if c < cut then c else cut, cut);
      } else {
        LaterIsNewer(history, g, c, h - 1, cut);
      }
      EndOf(history, h - 1);
      StartIsNewer(history, h, d);
      NewerTwice(ViewAfter(Until(history, g, c)), ViewAfter(history[..h]), ViewAfter(Until(history, h, d)));
    }
  }

  lemma EndAtMost(history: seq<Attempt>, g: nat, c: nat)
    requires g < |history|
    ensures Until(history, g, if c < history[g].cut then c else history[g].cut) == Until(history, g, c)
  {
  }

  lemma SameFiles(history: seq<Attempt>, h: nat, d: nat, n: nat)
    requires n <= h < |history|
    ensures |Until(history, h, d)| == h + 1 && Until(history, h, d)[n].files == history[n].files
  {
  }

  lemma UntilOk(history: seq<Attempt>, h: nat, d: nat)
    requires HistoryOk(history) && h < |history|
    ensures HistoryOk(Until(history, h, d))
  {
  }

  /** A reader that finds meta.json of generation m at one moment finds, at that moment and at
      every later one, each file of generation m, whole, with the content of m or of a newer
      generation, wherever the writer was cut off in between. */
  lemma ReaderConsistent(history: seq<Attempt>, g: nat, c: nat, h: nat, d: nat, m: nat, f: File)
    requires HistoryOk(history) && g < |history| && h < |history| && (g < h || (g == h && c <= d))
    requires META in ViewAfter(Until(history, g, c)) && ViewAfter(Until(history, g, c))[META].gen == m
    requires m < |history| && f in history[m].files
    ensures var seen := DirAfter(Until(history, h, d));
            f.name in seen && exists n :: m <= n < |history| && File(f.name, seen[f.name]) in history[n].files
  {
    var early, late := Until(history, g, c), Until(history, h, d);
    UntilOk(history, g, c);
    UntilOk(history, h, d);
    HistoryKeeps(early);
    HistoryKeeps(late);
    SameFiles(history, g, c, m);
    LaterIsNewer(history, g, c, h, d);
    ReadersSeeReleases(late);
    var r := ViewAfter(late)[f.name];
    assert f.name in Contents(ViewAfter(late));
    SameFiles(history, h, d, r.gen);
    assert File(f.name, r.data) in history[r.gen].files;
    VisibleSame(DirAfter(late), f.name);
  }

  lemma VisibleSame(dir: Directory, name: string)
    requires name in Visible(dir)
    ensures name in dir && dir[name] == Visible(dir)[name]
  {
  }

  // ---------------------------------------------------------------- mixed generations

  /** Every file of meta.json's generation is of that very generation. */
  ghost predicate Uniform(history: seq<Attempt>, view: View)
    requires META in view && view[META].gen < |history|
  {
    forall f :: f in history[view[META].gen].files ==> f.name in view && view[f.name].gen == view[META].gen
  }

  /** Promotion k has put a file of that name in place. */
  ghost predicate Replaced(history: seq<Attempt>, k: nat, name: string) {
    k < |history| && Named(InPlace(history[k]), name)
  }

  /** A visible file is at least as new as any promotion that put its name in place. */
  lemma {:induction false} NotOlder(history: seq<Attempt>, name: string, k: nat)
    requires Replaced(history, k, name)
    ensures name in ViewAfter(history) && ViewAfter(history)[name].gen >= k
  {
    hide InPlace;
    var n := |history| - 1;
    StampExactly(ViewAfter(history[..n]), n, InPlace(history[n]), name);
    if k < n { NotOlder(history[..n], name, k); }
  }

  /** A visible file was put in place by its own generation. */
  lemma {:induction false} OwnReplacement(history: seq<Attempt>, name: string)
    requires name in ViewAfter(history)
    ensures Replaced(history, ViewAfter(history)[name].gen, name)
  {
    hide InPlace;
    if history != [] {
      var n := |history| - 1;
      StampExactly(ViewAfter(history[..n]), n, InPlace(history[n]), name);
      if !Named(InPlace(history[n]), name) {
        OwnReplacement(history[..n], name);
        assert history[..n][ViewAfter(history[..n])[name].gen] == history[ViewAfter(history)[name].gen];
      }
    }
  }

  /** At any moment of any history, latest/ is all of meta.json's generation g if and only if
      no later promotion has yet put in place a file that generation g also has. */
  lemma {:induction false} MixedExactly(history: seq<Attempt>)
    requires HistoryOk(history) && META in ViewAfter(history)
    ensures var view := ViewAfter(history); var g := view[META].gen;
            && g < |history|
            && (Uniform(history, view) <==>
                  forall k: nat, f :: g < k < |history| && f in history[g].files ==> !Replaced(history, k, f.name))
  {
    hide ViewAfter, Replaced;
    var view := ViewAfter(history);
    HistoryKeeps(history);
    var g := view[META].gen;
    forall k: nat, f | g < k < |history| && f in history[g].files && Replaced(history, k, f.name)
      ensures view[f.name].gen > g
    {
      NotOlder(history, f.name, k);
    }
    forall f | f in history[g].files
      ensures f.name in view && g <= view[f.name].gen < |history| && Replaced(history, view[f.name].gen, f.name)
    {
      OwnReplacement(history, f.name);
    }
  }

  lemma AllInPlace(a: Attempt)
    requires a.cut >= |PromoteOps(a.files)|
    ensures InPlace(a) == OrderMetaLast(a.files) && forall f :: f in InPlace(a) <==> f in a.files
  {
    AllCompleted(OrderMetaLast(a.files));
    OrderKeepsFiles(a.files);
  }

  lemma TwoFilesOrder(name: string, x: Data)
    requires name != META && !IsTmp(name)
    ensures var files := TwoFiles(name, x);
            FilesOk(files) && OrderMetaLast(files) == files && Named(files, META)
  {
    hide Named;
    var files := [File(name, x), File(META, x)];
    NamedMember(files, files[1]);
    assert !IsTmp(META);
    assert files[1..] == [files[1]] && files[1..][1..] == [];
    assert WithoutMeta(files[1..]) == [] && OnlyMeta(files[1..]) == [files[1]];
    assert WithoutMeta(files) == [files[0]] && OnlyMeta(files) == [files[1]];
  }

  /** A mixed moment exists for any file beside meta.json: generation 1 is cut off after that
      file, and generation 2 has put nothing in place yet. */
  lemma MixedHappens(name: string, x: Data, y: Data, z: Data)
    requires name != META && !IsTmp(name)
    ensures var first, second, third := TwoFiles(name, x), TwoFiles(name, y), TwoFiles(name, z);
            var history :=
                [Attempt(first, |PromoteOps(first)|), Attempt(second, |WriteOps(second[0])|), Attempt(third, 0)];
            var view := ViewAfter(history);
            META in view && view[META].gen == 0 && !Uniform(history, view) && InPlace(history[2]) == []
  {
    hide ViewAfter, PromoteOps, FilesOk, IsTmp;
    var first, second, third := TwoFiles(name, x), TwoFiles(name, y), TwoFiles(name, z);
    var history := [Attempt(first, |PromoteOps(first)|), Attempt(second, |WriteOps(second[0])|), Attempt(third, 0)];
    TwoFilesOrder(name, x);
    TwoFilesOrder(name, y);
    TwoFilesOrder(name, z);
    AllInPlace(history[0]);
    OneInPlace(second);
    NoneInPlace(third);
    assert first[1] in InPlace(history[0]);
    NamedMember(InPlace(history[0]), first[1]);
    NotOlder(history, META, 0);
    OwnReplacement(history, META);
    NamedMember(InPlace(history[1]), second[0]);
    assert Replaced(history, 1, first[0].name);
    assert !Replaced(history, 1, META) && !Replaced(history, 2, META);
    MixedExactly(history);
  }

  function TwoFiles(name: string, x: Data): seq<File> {
    [File(name, x), File(META, x)]
  }

  lemma NoneInPlace(files: seq<File>)
    ensures InPlace(Attempt(files, 0)) == []
  {
    assert |DoneOps(Attempt(files, 0))| == 0;
  }

  lemma OneInPlace(files: seq<File>)
    requires |files| == 2 && OrderMetaLast(files) == files
    ensures InPlace(Attempt(files, |WriteOps(files[0])|)) == [files[0]]
  {
    var n := |WriteOps(files[0])|;
    var rest := files[1..];
    assert PromoteOps(files) == WriteOps(files[0]) + OpsOf(rest);
    assert OpsOf(rest) == WriteOps(rest[0]) + OpsOf(rest[1..]);
    assert |DoneOps(Attempt(files, n))| == n;
    assert Completed(rest, 0) == 0;
    assert Completed(files, n) == 1;
  }
}
