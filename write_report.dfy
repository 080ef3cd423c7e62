/** Saving the report (agents/write_report.go): the report file name derived
    from the document's name, the default directory, the path join, and the
    write into a file system that may refuse it. */
module ReportFile {
  import opened Model
  import opened Text

  const ReportSuffix: string := "_report.html"

  /** filepath.Ext: the suffix of `p` from the last '.' of its final
      element, or "" when that element has no '.'. */
  function Ext(p: string): (r: string)
    ensures |r| <= |p| && r == p[|p| - |r|..]
    ensures r == [] || r[0] == '.'
    ensures forall k :: 1 <= k < |r| ==> r[k] != '.' && r[k] != '/'
    ensures r == [] ==> forall k :: 0 <= k < |p| && p[k] == '.' ==> '/' in p[k..]
    decreases |p|
  {
    if p == [] || p[|p| - 1] == '/' then ""
    else if p[|p| - 1] == '.' then "."
    else
      var e := Ext(p[..|p| - 1]);
      if e == "" then "" else e + [p[|p| - 1]]
  }

  /** strings.TrimSuffix. */
  function TrimSuffix(s: string, suffix: string): (r: string)
    ensures |suffix| <= |s| && s[|s| - |suffix|..] == suffix ==> r + suffix == s
    ensures !(|suffix| <= |s| && s[|s| - |suffix|..] == suffix) ==> r == s
  {
    if |suffix| <= |s| && s[|s| - |suffix|..] == suffix then s[..|s| - |suffix|] else s
  }

  /** The report's file name: the document's name without its extension,
      followed by `_report.html`. */
  function ReportFileName(base: string): string {
    TrimSuffix(base, Ext(base)) + ReportSuffix
  }

  /** Stripping the extension loses nothing: stem and extension put back
      together give the name again. */
  lemma StemAndExtension(base: string)
    ensures TrimSuffix(base, Ext(base)) + Ext(base) == base
    ensures ReportFileName(base) == base[..|base| - |Ext(base)|] + ReportSuffix
  {
  }

  /** A name with no '.' keeps all of itself. */
  lemma NoExtension(base: string)
    requires '.' !in base
    ensures ReportFileName(base) == base + ReportSuffix
  {
  }

  /** Only the final extension goes: earlier dots belong to the stem. */
  lemma FinalExtensionOnly(stem: string, ext: string)
    requires |ext| >= 1 && ext[0] == '.'
    requires forall k :: 1 <= k < |ext| ==> ext[k] != '.' && ext[k] != '/'
    ensures Ext(stem + ext) == ext
    ensures ReportFileName(stem + ext) == stem + ReportSuffix
  {
    ExtOfSuffix(stem, ext);
    assert (stem + ext)[..|stem|] == stem;
  }

  lemma {:induction false} ExtOfSuffix(stem: string, ext: string)
    requires |ext| >= 1 && ext[0] == '.'
    requires forall k :: 1 <= k < |ext| ==> ext[k] != '.' && ext[k] != '/'
    ensures Ext(stem + ext) == ext
    decreases |ext|
  {
    var p := stem + ext;
    var c := ext[|ext| - 1];
    assert p[|p| - 1] == c;
    if |ext| > 1 {
      var init := ext[..|ext| - 1];
      assert p[..|p| - 1] == stem + init;
      ExtOfSuffix(stem, init);
      assert c != '.' && c != '/';
      assert Ext(p) == init + [c];
      assert init + [c] == ext;
    }
  }

  /** A name from TestWriteReportPathFormat with one extension. */
  lemma MarkdownExample()
    ensures ReportFileName("test.md") == "test_report.html"
  {
    assert "test.md" == "test" + ".md";
    FinalExtensionOnly("test", ".md");
    assert "test" + ReportSuffix == "test_report.html";
  }

  /** A name from TestWriteReportPathFormat with an underscore. */
  lemma UnderscoreExample()
    ensures ReportFileName("sample_hld.md") == "sample_hld_report.html"
  {
    assert "sample_hld.md" == "sample_hld" + ".md";
    FinalExtensionOnly("sample_hld", ".md");
  }

  /** A name from TestWriteReportPathFormat with several dots: only the last
      one starts the extension. */
  lemma DottedNameExample()
    ensures ReportFileName("multiple.dots.in.name.md") == "multiple.dots.in.name_report.html"
  {
    assert "multiple.dots.in.name.md" == "multiple.dots.in.name" + ".md";
    FinalExtensionOnly("multiple.dots.in.name", ".md");
  }

  lemma NoExtensionExample()
    ensures ReportFileName("noextension") == "noextension_report.html"
  {
    NoExtension("noextension");
  }

  /** filepath.Join(dir, name) for a non-empty `dir` and a `name` that is a
      single element: "." contributes nothing and a separator already at the
      end of `dir` is not doubled. */
  function JoinPath(dir: string, name: string): string
    requires dir != ""
  {
    if dir == "." then name
    else if dir[|dir| - 1] == '/' then dir + name
    else dir + "/" + name
  }

  /** The directory WriteReport writes into: "." when none is given. */
  function OutDir(outDir: string): (r: string)
    ensures r != ""
    ensures outDir != "" ==> r == outDir
  {
    if outDir == "" then "." else outDir
  }

  /** The path WriteReport writes to and returns. */
  function ReportPath(outDir: string, base: string): string {
    JoinPath(OutDir(outDir), ReportFileName(base))
  }

  /** The returned path ends with the report's file name, and with no
      directory given it is that name alone (the current directory). */
  lemma PathEndsWithName(outDir: string, base: string)
    ensures var p := ReportPath(outDir, base); var n := ReportFileName(base);
      |n| <= |p| && p[|p| - |n|..] == n
    ensures outDir == "" ==> ReportPath(outDir, base) == ReportFileName(base)
  {
    var d := OutDir(outDir);
    var n := ReportFileName(base);
    if d != "." && d[|d| - 1] != '/' {
      assert d + "/" + n == (d + "/") + n;
    }
  }

  /** The directory a path names its file in (filepath.Dir for the paths
      JoinPath builds). */
  function Parent(p: string): string {
    match LastIndex(p, '/')
    case None => "."
    case Some(i) => if i == 0 then "/" else p[..i]
  }

  /** Joining a directory with a file name puts the file in that directory. */
  lemma ParentOfJoin(dir: string, name: string)
    requires dir != "" && (dir == "/" || dir[|dir| - 1] != '/')
    requires name != "" && '/' !in name
    ensures Parent(JoinPath(dir, name)) == dir
  {
    var p := JoinPath(dir, name);
    if dir == "." {
    } else if dir == "/" {
      assert p == "/" + name;
      assert p[1..] == name;
      LastIndexAt(p, '/', 0);
    } else {
      assert p == dir + "/" + name;
      assert p[|dir| + 1..] == name;
      assert p[|dir|] == '/';
      LastIndexAt(p, '/', |dir|);
      assert p[..|dir|] == dir;
    }
  }

  /** The file system os.WriteFile writes into: file contents by path, and
      the set of existing directories. */
  class FileSystem {
    var files: map<string, string>
    var dirs: set<string>

    constructor(dirs0: set<string>)
      ensures files == map[] && dirs == dirs0
    {
      files := map[];
      dirs := dirs0;
    }

    /** Whether os.WriteFile can create or replace the file at `path`: its
        directory exists and `path` is not itself a directory. */
    predicate CanWrite(path: string)
      reads this
    {
      Parent(path) in dirs && path !in dirs
    }

    /** os.WriteFile: on success the file holds exactly `data`; on failure
        nothing changes. Directories are never created. */
    method WriteFile(path: string, data: string) returns (err: Option<string>)
      modifies this
      ensures dirs == old(dirs)
      ensures err.None? <==> old(CanWrite(path))
      ensures err.None? ==> files == old(files)[path := data]
      ensures err.Some? ==> files == old(files)
    {
      if Parent(path) !in dirs {
        return Some("open " + path + ": no such file or directory");
      }
      if path in dirs {
        return Some("open " + path + ": is a directory");
      }
      files := files[path := data];
      return None;
    }
  }

  /** WriteReport: writes `html` to the report path and returns that path,
      or returns the write's error and leaves the files as they were. */
  method WriteReport(fs: FileSystem, outDir: string, baseName: string, html: string)
    returns (r: Result<string>)
    modifies fs
    ensures fs.dirs == old(fs.dirs)
    ensures r.Ok? <==> old(fs.CanWrite(ReportPath(outDir, baseName)))
    ensures r.Ok? ==> (r.value == ReportPath(outDir, baseName) &&
                       fs.files == old(fs.files)[r.value := html])
    ensures r.Err? ==> fs.files == old(fs.files)
  {
    var dir := outDir;
    if dir == "" {
      dir := ".";
    }
    var filename := TrimSuffix(baseName, Ext(baseName)) + ReportSuffix;
    var path := JoinPath(dir, filename);
    var err := fs.WriteFile(path, html);
    if err.Some? {
      return Err(err.value);
    }
    return Ok(path);
  }

  /** With a plain file name and a directory as filepath.Dir returns it, the
      write succeeds exactly when that directory exists (and the report path
      is not itself a directory). */
  lemma WriteNeedsDirectory(dirs: set<string>, outDir: string, base: string)
    requires outDir == "" || outDir == "/" || outDir[|outDir| - 1] != '/'
    requires '/' !in base
    ensures var p := ReportPath(outDir, base);
      (Parent(p) in dirs && p !in dirs) <==> (OutDir(outDir) in dirs && p !in dirs)
  {
    var n := ReportFileName(base);
    assert '/' !in n by {
      StemAndExtension(base);
      assert forall k :: 0 <= k < |n| - |ReportSuffix| ==> n[k] == base[k];
    }
    ParentOfJoin(OutDir(outDir), n);
  }
}
