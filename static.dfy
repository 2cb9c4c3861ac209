/**
 * internal/handlers/static.go: static files, served from the data directory's static
 * directory or, for a request in an environment, from the environment's static directory
 * laid over it.
 *
 * os.Stat and ioutil.ReadDir are inputs: `stat` gives, for each path, whether it is
 * missing, unreadable, a file, or a directory with the entries ReadDir returns for it (none
 * when ReadDir fails, as the error is ignored).
 */
module Static {
  import opened Utils
  import Text
  import Sorting
  import IpxeScript

  type FileInfo = IpxeScript.FileInfo

  datatype Stat = NotExist | StatError | File | Dir(entries: seq<FileInfo>)

  /** The file server chosen for a request. */
  datatype StaticServer = BaseOnly(root: string) | Overlay(upper: string, lower: string)

  /** What the overlay server answers. */
  datatype Serve = NotFound | Index(body: string) | ServeFile(path: string)

  /**
   * StaticConfigFileHandler: without an environment only the base static directory is
   * served; otherwise the environment's static directory is laid over the base one.
   */
  function StaticServerFor(dataDir: string, envDir: string, envName: string): (r: StaticServer)
    ensures envName == "" <==> r.BaseOnly?
    ensures r.BaseOnly? ==> r.root == PathJoin([dataDir, "static"])
    ensures r.Overlay? ==> r.upper == PathJoin([dataDir, envDir, envName, "static"])
                           && r.lower == PathJoin([dataDir, "static"])
  {
    var basePath := PathJoin([dataDir, "static"]);
    if envName == "" then BaseOnly(basePath)
    else Overlay(PathJoin([dataDir, envDir, envName, "static"]), basePath)
  }

  /** Some entry of the listing has this name. */
  predicate Named(files: seq<FileInfo>, n: string) {
    exists i :: 0 <= i < |files| && files[i].name == n
  }

  /** Entering every file under its name, a later entry replacing an earlier one. */
  function AddAll(m: map<string, FileInfo>, files: seq<FileInfo>): map<string, FileInfo>
  {
    if files == [] then m
    else
      var last := files[|files| - 1];
      AddAll(m, files[..|files| - 1])[last.name := last]
  }

  /** Entering the files whose names are not taken yet. */
  function AddMissing(m: map<string, FileInfo>, files: seq<FileInfo>): map<string, FileInfo>
  {
    if files == [] then m
    else
      var last := files[|files| - 1];
      var prev := AddMissing(m, files[..|files| - 1]);
      if last.name in prev then prev else prev[last.name := last]
  }

  /** Every name of the listing is entered, with an entry of the listing of that name. */
  lemma {:induction false} AddAllSpec(m: map<string, FileInfo>, files: seq<FileInfo>)
    ensures forall n :: n in AddAll(m, files) <==> n in m || Named(files, n)
    ensures forall i :: 0 <= i < |files| ==> files[i].name in AddAll(m, files)
    ensures forall i :: 0 <= i < |files| ==>
      AddAll(m, files)[files[i].name] in files && AddAll(m, files)[files[i].name].name == files[i].name
    ensures forall n :: n in m && !Named(files, n) ==> AddAll(m, files)[n] == m[n]
  {
    if files != [] {
      var init, last := files[..|files| - 1], files[|files| - 1];
      AddAllSpec(m, init);
      forall n ensures Named(files, n) <==> Named(init, n) || n == last.name {
        NamedSnoc(init, last, n);
      }
      assert files == init + [last];
      forall i | 0 <= i < |files| ensures AddAll(m, files)[files[i].name] in files {
        if i < |init| {
          assert init[i] == files[i];
        }
      }
    }
  }

  lemma NamedSnoc(init: seq<FileInfo>, last: FileInfo, n: string)
    ensures Named(init + [last], n) <==> Named(init, n) || n == last.name
  {
    var files := init + [last];
    if Named(init, n) {
      var i :| 0 <= i < |init| && init[i].name == n;
      assert files[i].name == n;
    }
    if n == last.name {
      assert files[|init|].name == n;
    }
    if Named(files, n) && n != last.name {
      var i :| 0 <= i < |files| && files[i].name == n;
      assert init[i].name == n;
    }
  }

  /** Names already entered keep their entry; every other name of the listing is entered from it. */
  lemma AddMissingSpec(m: map<string, FileInfo>, files: seq<FileInfo>)
    ensures forall n :: n in AddMissing(m, files) <==> n in m || Named(files, n)
    ensures forall i :: 0 <= i < |files| ==> files[i].name in AddMissing(m, files)
    ensures forall n :: n in m ==> AddMissing(m, files)[n] == m[n]
    ensures forall i :: 0 <= i < |files| && files[i].name !in m ==>
      AddMissing(m, files)[files[i].name] in files && AddMissing(m, files)[files[i].name].name == files[i].name
  {
    AddMissingKeys(m, files);
    AddMissingKeeps(m, files);
    AddMissingFrom(m, files);
  }

  lemma {:induction false} AddMissingKeys(m: map<string, FileInfo>, files: seq<FileInfo>)
    ensures forall n :: n in AddMissing(m, files) <==> n in m || Named(files, n)
    ensures forall i :: 0 <= i < |files| ==> files[i].name in AddMissing(m, files)
  {
    if files != [] {
      var init, last := files[..|files| - 1], files[|files| - 1];
      AddMissingKeys(m, init);
      forall n ensures Named(files, n) <==> Named(init, n) || n == last.name {
        NamedSnoc(init, last, n);
      }
      forall i | 0 <= i < |files| ensures files[i].name in AddMissing(m, files) {
        if i < |init| {
          assert init[i] == files[i];
        }
      }
    }
  }

  lemma {:induction false} AddMissingKeeps(m: map<string, FileInfo>, files: seq<FileInfo>)
    ensures forall n :: n in m ==> n in AddMissing(m, files) && AddMissing(m, files)[n] == m[n]
  {
    if files != [] {
      AddMissingKeeps(m, files[..|files| - 1]);
    }
  }

  lemma {:induction false} AddMissingFrom(m: map<string, FileInfo>, files: seq<FileInfo>)
    ensures forall i :: 0 <= i < |files| && files[i].name !in m ==>
      files[i].name in AddMissing(m, files) &&
      AddMissing(m, files)[files[i].name] in files && AddMissing(m, files)[files[i].name].name == files[i].name
  {
    if files != [] {
      var init, last := files[..|files| - 1], files[|files| - 1];
      AddMissingFrom(m, init);
      assert files == init + [last];
      var prev := AddMissing(m, init);
      forall i | 0 <= i < |files| && files[i].name !in m
        ensures files[i].name in AddMissing(m, files)
        ensures AddMissing(m, files)[files[i].name] in files && AddMissing(m, files)[files[i].name].name == files[i].name
      {
        if i < |init| {
          assert init[i] == files[i];
          var x := prev[init[i].name];
          assert x in init;
          var k :| 0 <= k < |init| && init[k] == x;
          assert files[k] == x;
        } else if last.name in prev {
          AddMissingKeys(m, init);
          var j :| 0 <= j < |init| && init[j].name == last.name;
          assert init[j] == files[j];
          var x := prev[init[j].name];
          var k :| 0 <= k < |init| && init[k] == x;
          assert files[k] == x;
        }
      }
    }
  }

  /** The directory listing of the two layers (an empty map when neither is a directory). */
  function Merge(su: Stat, sl: Stat): map<string, FileInfo>
  {
    var m := if su.Dir? then AddAll(map[], su.entries) else map[];
    if sl.Dir? then AddMissing(m, sl.entries) else m
  }

  /**
   * The listing holds the names of both directories; a name of the upper directory comes with
   * an upper entry, and a name only the lower directory has with a lower entry.
   */
  lemma MergeSpec(upper: seq<FileInfo>, lower: seq<FileInfo>)
    ensures var m := Merge(Dir(upper), Dir(lower));
      && (forall n :: n in m <==> Named(upper, n) || Named(lower, n))
      && (forall n :: n in m ==> m[n].name == n)
      && (forall i :: 0 <= i < |upper| ==> m[upper[i].name] in upper)
      && (forall j :: 0 <= j < |lower| && !Named(upper, lower[j].name) ==> m[lower[j].name] in lower)
  {
    var u := AddAll(map[], upper);
    AddAllSpec(map[], upper);
    AddMissingSpec(u, lower);
    var m := Merge(Dir(upper), Dir(lower));
    forall n | n in m ensures m[n].name == n {
      if Named(upper, n) {
        var i :| 0 <= i < |upper| && upper[i].name == n;
      } else {
        var j :| 0 <= j < |lower| && lower[j].name == n;
      }
    }
  }

  /** The index line of an entry; a directory's name ends in '/'. */
  function IndexLine(f: FileInfo): string
  {
    var name := if f.isDir then f.name + "/" else f.name;
    "<a href=\"" + name + "\">" + name + "</a>\n"
  }

  function IndexLines(names: seq<string>, m: map<string, FileInfo>): string
    requires forall n :: n in names ==> n in m
  {
    if names == [] then ""
    else IndexLines(names[..|names| - 1], m) + IndexLine(m[names[|names| - 1]])
  }

  const IndexHead := "<pre>\n"
  const IndexTail := "</pre>\n"

  /** The directory index: one line per name, names in ascending order. */
  ghost function IndexText(m: map<string, FileInfo>): string
  {
    IndexHead + IndexLines(Sorting.SortedSet(m.Keys), m) + IndexTail
  }

  lemma {:induction false} IndexLinesAppend(a: seq<string>, b: seq<string>, m: map<string, FileInfo>)
    requires forall n :: n in a + b ==> n in m
    ensures IndexLines(a + b, m) == IndexLines(a, m) + IndexLines(b, m)
  {
    if b == [] {
      assert a + b == a;
    } else {
      var b0, x := b[..|b| - 1], b[|b| - 1];
      assert (a + b)[..|a + b| - 1] == a + b0;
      assert (a + b)[|a + b| - 1] == x;
      assert forall n :: n in a + b0 ==> n in a + b;
      IndexLinesAppend(a, b0, m);
      calc {
        IndexLines(a + b, m);
        IndexLines(a + b0, m) + IndexLine(m[x]);
        (IndexLines(a, m) + IndexLines(b0, m)) + IndexLine(m[x]);
        IndexLines(a, m) + (IndexLines(b0, m) + IndexLine(m[x]));
      }
    }
  }

  /** The index opens and closes the preformatted block and has a line for every listed entry. */
  lemma IndexListsEveryEntry(m: map<string, FileInfo>, n: string)
    requires n in m
    ensures Text.HasPrefix(IndexText(m), IndexHead)
    ensures Text.HasSuffix(IndexText(m), IndexTail)
    ensures Text.Contains(IndexText(m), IndexLine(m[n]))
  {
    IndexEnds(m);
    IndexEntry(m, n);
  }

  lemma IndexEnds(m: map<string, FileInfo>)
    ensures Text.HasPrefix(IndexText(m), IndexHead)
    ensures Text.HasSuffix(IndexText(m), IndexTail)
  {
    var lines := IndexLines(Sorting.SortedSet(m.Keys), m);
    Text.Regroup(IndexHead, "", lines, "", IndexTail);
    Text.PrefixConcat(IndexHead, lines + IndexTail);
    var body := IndexHead + lines;
    assert (body + IndexTail)[|body|..] == IndexTail;
  }

  lemma IndexEntry(m: map<string, FileInfo>, n: string)
    requires n in m
    ensures Text.Contains(IndexText(m), IndexLine(m[n]))
  {
    var names := Sorting.SortedSet(m.Keys);
    var i :| 0 <= i < |names| && names[i] == n;
    var pre, post := names[..i], names[i + 1..];
    assert names == (pre + [n]) + post;
    IndexLinesAppend(pre + [n], post, m);
    IndexLinesAppend(pre, [n], m);
    assert [n][..0] == [];
    var line := IndexLine(m[n]);
    assert IndexLines([n], m) == line;
    Text.Regroup(IndexHead, IndexLines(pre, m), line, IndexLines(post, m), IndexTail);
    Text.AtConcat(IndexHead + IndexLines(pre, m), line, IndexLines(post, m) + IndexTail);
    Text.ContainsAt(IndexText(m), line, |IndexHead + IndexLines(pre, m)|);
  }

  /** The answer of the overlay server given the two layers' stat results. */
  ghost function OverlayResult(su: Stat, sl: Stat, upper: string, lower: string): Serve
  {
    if su.NotExist? && sl.NotExist? then NotFound
    else if su.Dir? || sl.Dir? then Index(IndexText(Merge(su, sl)))
    else if su.File? then ServeFile(upper)
    else if sl.File? then ServeFile(lower)
    else NotFound
  }

  /**
   * OverlayFileServerHandler.ServeHTTP for the URL path `urlPath`: 404 when neither layer
   * has the path, the merged index for a directory, else the upper file before the lower.
   */
  method OverlayServe(o: StaticServer, urlPath: string, stat: string -> Stat) returns (r: Serve)
    requires o.Overlay?
    ensures var upper, lower := PathJoin([o.upper, urlPath]), PathJoin([o.lower, urlPath]);
      r == OverlayResult(stat(upper), stat(lower), upper, lower)
  {
    var upper := PathJoin([o.upper, urlPath]);
    var lower := PathJoin([o.lower, urlPath]);
    var infoUpper, infoLower := stat(upper), stat(lower);
    if infoUpper.NotExist? && infoLower.NotExist? {
      return NotFound;
    }
    if infoUpper.Dir? || infoLower.Dir? {
      var fileList := MergeListings(infoUpper, infoLower);
      var body := WriteIndex(fileList);
      return Index(body);
    }
    if infoUpper.File? {
      return ServeFile(upper);
    } else if infoLower.File? {
      return ServeFile(lower);
    }
    return NotFound;
  }

  /** The loops filling `fileList`: the upper directory's entries, then the lower's missing ones. */
  method MergeListings(infoUpper: Stat, infoLower: Stat) returns (fileList: map<string, FileInfo>)
    ensures fileList == Merge(infoUpper, infoLower)
  {
    fileList := map[];
    if infoUpper.Dir? {
      var files := infoUpper.entries;
      var i := 0;
      while i < |files|
        invariant 0 <= i <= |files|
        invariant fileList == AddAll(map[], files[..i])
      {
        assert files[..i + 1][..i] == files[..i];
        fileList := fileList[files[i].name := files[i]];
        i := i + 1;
      }
      assert files[..i] == files;
    }
    ghost var afterUpper := fileList;
    if infoLower.Dir? {
      var files := infoLower.entries;
      var i := 0;
      while i < |files|
        invariant 0 <= i <= |files|
        invariant fileList == AddMissing(afterUpper, files[..i])
      {
        assert files[..i + 1][..i] == files[..i];
        if files[i].name !in fileList {
          fileList := fileList[files[i].name := files[i]];
        }
        i := i + 1;
      }
      assert files[..i] == files;
    }
  }

  /** The index written for a listing: its names collected, sorted, and written line by line. */
  method WriteIndex(fileList: map<string, FileInfo>) returns (body: string)
    ensures body == IndexText(fileList)
  {
    var fileListIndex := CollectNames(fileList);
    var sorted := Sorting.SortBy(fileListIndex, Sorting.Id);
    Sorting.SortEnumeration(fileListIndex, fileList.Keys);
    body := WriteLines(sorted, fileList);
    body := body + IndexTail;
  }

  /** The head of the index and one line per name, in the order given. */
  method WriteLines(names: seq<string>, fileList: map<string, FileInfo>) returns (body: string)
    requires forall n :: n in names ==> n in fileList
    ensures body == IndexHead + IndexLines(names, fileList)
  {
    body := IndexHead;
    var i := 0;
    while i < |names|
      invariant 0 <= i <= |names|
      invariant body == IndexHead + IndexLines(names[..i], fileList)
    {
      var line := IndexLine(fileList[names[i]]);
      assert names[..i + 1][..i] == names[..i];
      body := body + line;
      i := i + 1;
    }
    assert names[..i] == names;
  }

  /** The names of the listing, each once, in map iteration order. */
  method CollectNames(fileList: map<string, FileInfo>) returns (names: seq<string>)
    ensures Sorting.DistinctKeys(names, Sorting.Id)
    ensures forall n :: n in names <==> n in fileList
  {
    names := [];
    var pending := fileList.Keys;
    while pending != {}
      invariant pending <= fileList.Keys
      invariant forall n :: n in names <==> n in fileList && n !in pending
      invariant Sorting.DistinctKeys(names, Sorting.Id)
      decreases pending
    {
      var n :| n in pending;
      names := names + [n];
      pending := pending - {n};
    }
  }
}
