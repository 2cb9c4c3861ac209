/**
 * internal/ipxe/ipxescript.go: the iPXE scripts offered in the boot menu, collected from the
 * main data directory and from each environment's directory.
 *
 * ioutil.ReadDir is an input: `listings` maps each readable directory to its entries in
 * the order ReadDir returns them; a directory missing from it cannot be read.
 */
module IpxeScript {
  import opened Wrappers
  import opened Utils
  import Text

  /** What the model needs of an os.FileInfo. */
  datatype FileInfo = FileInfo(name: string, isDir: bool)

  /** An iPXE script: its name, its environment ("" for the main one) and its URL path. */
  datatype Script = Script(name: string, env: string, path: string)

  const IpxeSuffix := ".ipxe"

  /** A regular file named <something>.ipxe<extension>. */
  predicate IsScriptFile(ext: string, f: FileInfo) {
    !f.isDir && Text.HasSuffix(f.name, IpxeSuffix + ext)
  }

  /** The script names of a directory listing, in listing order, without the extension. */
  function DirScripts(ext: string, files: seq<FileInfo>): seq<string>
  {
    if files == [] then []
    else
      var last := files[|files| - 1];
      DirScripts(ext, files[..|files| - 1]) + (if IsScriptFile(ext, last) then [Text.TrimSuffix(last.name, ext)] else [])
  }

  /** Dropping the extension from a script file's name leaves a name ending in ".ipxe". */
  lemma TrimmedEndsInIpxe(name: string, ext: string)
    requires Text.HasSuffix(name, IpxeSuffix + ext)
    ensures Text.HasSuffix(Text.TrimSuffix(name, ext), IpxeSuffix)
  {
    var n := |name|;
    assert name[n - |ext|..] == (IpxeSuffix + ext)[|IpxeSuffix|..];
    var r := Text.TrimSuffix(name, ext);
    assert r == name[..n - |ext|];
    assert r[|r| - |IpxeSuffix|..] == name[n - |ext| - |IpxeSuffix|..n - |ext|];
    assert r[|r| - |IpxeSuffix|..] == (IpxeSuffix + ext)[..|IpxeSuffix|];
  }

  /**
   * Exactly the script files of the listing contribute, once each and in listing order;
   * every name ends in ".ipxe".
   */
  lemma {:induction false} DirScriptsSpec(ext: string, files: seq<FileInfo>)
    ensures |DirScripts(ext, files)| <= |files|
    ensures forall i :: 0 <= i < |files| && IsScriptFile(ext, files[i]) ==>
      Text.TrimSuffix(files[i].name, ext) in DirScripts(ext, files)
    ensures forall n :: n in DirScripts(ext, files) ==>
      Text.HasSuffix(n, IpxeSuffix) && exists i :: 0 <= i < |files| && IsScriptFile(ext, files[i]) && n == Text.TrimSuffix(files[i].name, ext)
  {
    if files != [] {
      var init := files[..|files| - 1];
      var last := files[|files| - 1];
      DirScriptsSpec(ext, init);
      forall n | n in DirScripts(ext, files)
        ensures Text.HasSuffix(n, IpxeSuffix)
        ensures exists i :: 0 <= i < |files| && IsScriptFile(ext, files[i]) && n == Text.TrimSuffix(files[i].name, ext)
      {
        if n in DirScripts(ext, init) {
          var i :| 0 <= i < |init| && IsScriptFile(ext, init[i]) && n == Text.TrimSuffix(init[i].name, ext);
          assert files[i] == init[i];
        } else {
          TrimmedEndsInIpxe(last.name, ext);
        }
      }
      forall i | 0 <= i < |files| && IsScriptFile(ext, files[i])
        ensures Text.TrimSuffix(files[i].name, ext) in DirScripts(ext, files)
      {
        if i < |init| {
          assert files[i] == init[i];
        }
      }
    }
  }

  /** Filtering distributes over a listing split in two: the order of the listing is kept. */
  lemma {:induction false} DirScriptsAppend(ext: string, a: seq<FileInfo>, b: seq<FileInfo>)
    ensures DirScripts(ext, a + b) == DirScripts(ext, a) + DirScripts(ext, b)
  {
    if b == [] {
      assert a + b == a;
    } else {
      var b0 := b[..|b| - 1];
      assert (a + b)[..|a + b| - 1] == a + b0;
      assert (a + b)[|a + b| - 1] == b[|b| - 1];
      DirScriptsAppend(ext, a, b0);
    }
  }

  /** ioutil.ReadDir: the entries of a readable directory. */
  function ReadDir(listings: map<string, seq<FileInfo>>, dir: string): Option<seq<FileInfo>>
  {
    if dir in listings then Some(listings[dir]) else None
  }

  /** scriptDirList: the script names of a directory; none when it cannot be read. */
  method ScriptDirList(ext: string, files: Option<seq<FileInfo>>) returns (pxeFiles: seq<string>)
    ensures files.None? ==> pxeFiles == []
    ensures files.Some? ==> pxeFiles == DirScripts(ext, files.value)
  {
    if files.None? {
      return [];
    }
    var fs := files.value;
    var suffix := IpxeSuffix + ext;
    pxeFiles := [];
    var i := 0;
    while i < |fs|
      invariant 0 <= i <= |fs|
      invariant pxeFiles == DirScripts(ext, fs[..i])
    {
      assert fs[..i + 1][..i] == fs[..i];
      var f := fs[i];
      if !(f.isDir || !Text.HasSuffix(f.name, suffix)) {
        pxeFiles := pxeFiles + [Text.TrimSuffix(f.name, ext)];
      }
      i := i + 1;
    }
    assert fs[..i] == fs;
  }

  /** The names as scripts of environment e served under path p. */
  function Tagged(names: seq<string>, e: string, p: string): (r: seq<Script>)
    ensures |r| == |names|
    ensures forall i :: 0 <= i < |names| ==> r[i] == Script(names[i], e, p)
  {
    seq(|names|, i requires 0 <= i < |names| => Script(names[i], e, p))
  }

  /** appendScriptsFromDir: the scripts so far, then the directory's scripts in order. */
  method AppendScriptsFromDir(scripts: seq<Script>, ext: string, files: Option<seq<FileInfo>>, e: string, p: string)
    returns (r: seq<Script>)
    ensures r == scripts + Tagged(if files.None? then [] else DirScripts(ext, files.value), e, p)
  {
    var names := ScriptDirList(ext, files);
    r := scripts;
    var i := 0;
    while i < |names|
      invariant 0 <= i <= |names|
      invariant r == scripts + Tagged(names[..i], e, p)
    {
      r := r + [Script(names[i], e, p)];
      i := i + 1;
    }
    assert names[..i] == names;
  }

  /** The main script directory and its URL path. */
  function MainDir(dataDir: string): string { PathJoin([dataDir, "ipxe"]) }
  const MainPath := "/configs/"

  /** An environment's script directory and its URL path. */
  function EnvDirOf(dataDir: string, envDir: string, e: string): string { PathJoin([dataDir, envDir, e, "ipxe"]) }
  function EnvPath(e: string): string { "/env/" + e + "/configs/" }

  /** The scripts of one directory of the menu. */
  function ScriptsIn(listings: map<string, seq<FileInfo>>, ext: string, dir: string, e: string, p: string): seq<Script>
  {
    var files := ReadDir(listings, dir);
    Tagged(if files.None? then [] else DirScripts(ext, files.value), e, p)
  }

  /** The menu's scripts: the main directory's, then each environment's in order. */
  function AllScripts(listings: map<string, seq<FileInfo>>, ext: string, dataDir: string, envDir: string,
                      environments: seq<string>): seq<Script>
  {
    if environments == [] then ScriptsIn(listings, ext, MainDir(dataDir), "", MainPath)
    else
      var e := environments[|environments| - 1];
      AllScripts(listings, ext, dataDir, envDir, environments[..|environments| - 1])
        + ScriptsIn(listings, ext, EnvDirOf(dataDir, envDir, e), e, EnvPath(e))
  }

  /** ScriptList over the environments in configuration order. */
  method ScriptList(listings: map<string, seq<FileInfo>>, ext: string, dataDir: string, envDir: string,
                    environments: seq<string>) returns (ipxeScripts: seq<Script>)
    ensures ipxeScripts == AllScripts(listings, ext, dataDir, envDir, environments)
  {
    ipxeScripts := AppendScriptsFromDir([], ext, ReadDir(listings, MainDir(dataDir)), "", MainPath);
    assert environments[..0] == [];
    var i := 0;
    while i < |environments|
      invariant 0 <= i <= |environments|
      invariant ipxeScripts == AllScripts(listings, ext, dataDir, envDir, environments[..i])
    {
      var e := environments[i];
      var dir := EnvDirOf(dataDir, envDir, e);
      assert environments[..i + 1][..i] == environments[..i];
      assert AllScripts(listings, ext, dataDir, envDir, environments[..i + 1])
        == ipxeScripts + ScriptsIn(listings, ext, dir, e, EnvPath(e));
      ipxeScripts := AppendScriptsFromDir(ipxeScripts, ext, ReadDir(listings, dir), e, EnvPath(e));
      i := i + 1;
    }
    assert environments[..i] == environments;
  }

  /**
   * The main directory's scripts come first, with environment "" and path "/configs/"; every
   * other script belongs to a configured environment and is served under /env/<e>/configs/.
   */
  lemma {:induction false} AllScriptsShape(listings: map<string, seq<FileInfo>>, ext: string, dataDir: string,
                                           envDir: string, environments: seq<string>)
    ensures var main := ScriptsIn(listings, ext, MainDir(dataDir), "", MainPath);
            var all := AllScripts(listings, ext, dataDir, envDir, environments);
      && |main| <= |all| && all[..|main|] == main
      && (forall i :: |main| <= i < |all| ==> all[i].env in environments && all[i].path == EnvPath(all[i].env))
  {
    if environments != [] {
      var init := environments[..|environments| - 1];
      AllScriptsShape(listings, ext, dataDir, envDir, init);
      var main := ScriptsIn(listings, ext, MainDir(dataDir), "", MainPath);
      var prev := AllScripts(listings, ext, dataDir, envDir, init);
      var all := AllScripts(listings, ext, dataDir, envDir, environments);
      assert all[..|prev|] == prev;
      assert all[..|main|] == prev[..|main|];
      forall i | |main| <= i < |all| ensures all[i].env in environments && all[i].path == EnvPath(all[i].env) {
        if i < |prev| {
          assert all[i] == prev[i];
          assert prev[i].env in init;
        }
      }
    }
  }

  /** A directory that cannot be read contributes no scripts. */
  lemma UnreadableDirEmpty(listings: map<string, seq<FileInfo>>, ext: string, dir: string, e: string, p: string)
    requires dir !in listings
    ensures ScriptsIn(listings, ext, dir, e, p) == []
  {
  }
}
