/**
 * The stub builders of rules_test.go: `gitTestOpts`, `httpTestOpts` and
 * `readFile`.  The file system is a value: the set of existing
 * directories, the contents of the readable files, and the other paths
 * that exist but cannot be read.  A failed
 * `require` ends the test case; it is a `StubError` here.
 */
module Fixtures {
  import opened Wrappers
  import opened Paths
  import opened Entities

  /** `http.StatusOK`. */
  const StatusOK: int := 200

  datatype FileSystem = FileSystem(dirs: set<string>, files: map<string, string>, unreadable: set<string>)

  /** `os.Stat` finds the path: a directory, a readable file, or an entry that cannot be read. */
  predicate Exists(fs: FileSystem, p: string)
  {
    p in fs.dirs || p in fs.files || p in fs.unreadable
  }

  /** What a stub builder hands to the test kit: `tkv1.WithGitDir` or `tkv1.WithHTTP`. */
  datatype IngestOption =
    | GitDir(dir: string)
    | HttpResponse(status: int, body: string, headers: map<string, string>)

  datatype StubError =
    | MissingGitConfig        // "Git test is missing for test"
    | MissingHttpConfig       // "HTTP test is missing for test"
    | DataDirMissing(dir: string) // "Rule type test data directory %s does not exist"
    | ReadFailed(file: string)    // "failed to read file %s"

  /** `readFile(t, dir, file)`: the contents of `Join(dir, file)`. */
  function ReadFile(fs: FileSystem, dir: string, file: string): (r: Result<string, StubError>)
    ensures r.Success? <==> Join(dir, file) in fs.files
    ensures r.Success? ==> r.value == fs.files[Join(dir, file)]
    ensures r.Failure? ==> r.error == ReadFailed(file)
  {
    var path := Join(dir, file);
    if path in fs.files then Success(fs.files[path]) else Failure(ReadFailed(file))
  }

  /** `gitTestOpts`: the git stub reads the repository from `rtDataPath/RepoBase`. */
  function GitTestOpts(git: Option<Git>, rtDataPath: string, fs: FileSystem): (r: Result<IngestOption, StubError>)
    ensures r.Success? <==> git.Some? && rtDataPath in fs.dirs
    ensures git.None? ==> r == Failure(MissingGitConfig)
    ensures git.Some? && rtDataPath !in fs.dirs ==> r == Failure(DataDirMissing(rtDataPath))
    ensures r.Success? ==> r.value.GitDir? && r.value.dir == Join(rtDataPath, git.value.repoBase)
  {
    if git.None? then Failure(MissingGitConfig)
    else if rtDataPath !in fs.dirs then Failure(DataDirMissing(rtDataPath))
    else Success(GitDir(Join(rtDataPath, git.value.repoBase)))
  }

  /** The git directory lies inside the fixture directory (or is it, for an empty base). */
  lemma GitDirUnderDataPath(git: Git, rtDataPath: string, fs: FileSystem)
    requires rtDataPath in fs.dirs && rtDataPath != ""
    ensures var r := GitTestOpts(Some(git), rtDataPath, fs);
      r.Success? && Strings.HasPrefix(r.value.dir, rtDataPath)
      && (git.repoBase != "" ==> r.value.dir[|rtDataPath|] == Separator && r.value.dir[|rtDataPath| + 1..] == git.repoBase)
  {
    var d := Join(rtDataPath, git.repoBase);
    if git.repoBase != "" {
      assert d[..|rtDataPath|] == rtDataPath;
    }
  }

  /** The body file is to be read and can be: the fixture directory exists and the file is readable. */
  predicate BodyFileRead(h: Http, rtDataPath: string, fs: FileSystem)
  {
    h.bodyFile != "" && rtDataPath in fs.dirs && ReadFile(fs, rtDataPath, h.bodyFile).Success?
  }

  /**
   * The `HTTPTest` after `httpTestOpts` has run on it, whether or not it
   * then failed: status and headers are defaulted first; the body is
   * replaced only once the directory check and the file read succeed.
   */
  function DefaultedHttp(h: Http, rtDataPath: string, fs: FileSystem): (d: Http)
    ensures d.status != 0 && (h.status == 0 ==> d.status == StatusOK) && (h.status != 0 ==> d.status == h.status)
    ensures d.headers.Some? && (h.headers.None? ==> d.headers == Some(map[])) && (h.headers.Some? ==> d.headers == h.headers)
    ensures d.bodyFile == h.bodyFile
    ensures BodyFileRead(h, rtDataPath, fs) ==> d.body == fs.files[Join(rtDataPath, h.bodyFile)]
    ensures !BodyFileRead(h, rtDataPath, fs) ==> d.body == h.body
  {
    var status := if h.status == 0 then StatusOK else h.status;
    var headers := if h.headers.None? then map[] else h.headers.value;
    var body := if BodyFileRead(h, rtDataPath, fs) then ReadFile(fs, rtDataPath, h.bodyFile).value else h.body;
    Http(status, body, h.bodyFile, Some(headers))
  }

  /** What `httpTestOpts` returns, as a function of the test's `HTTP` field before the call. */
  function HttpOption(http: Option<Http>, rtDataPath: string, fs: FileSystem): (r: Result<IngestOption, StubError>)
    ensures r.Success? <==>
      && http.Some?
      && (http.value.bodyFile == "" || (rtDataPath in fs.dirs && Join(rtDataPath, http.value.bodyFile) in fs.files))
    ensures http.None? ==> r == Failure(MissingHttpConfig)
    ensures http.Some? && http.value.bodyFile != "" && rtDataPath !in fs.dirs ==> r == Failure(DataDirMissing(rtDataPath))
    ensures http.Some? && http.value.bodyFile != "" && rtDataPath in fs.dirs && Join(rtDataPath, http.value.bodyFile) !in fs.files
      ==> r == Failure(ReadFailed(http.value.bodyFile))
    ensures r.Success? ==> http.Some? && r.value.HttpResponse?
    ensures r.Success? ==> (http.value.status == 0 ==> r.value.status == StatusOK) && (http.value.status != 0 ==> r.value.status == http.value.status)
    ensures r.Success? ==> (http.value.headers.None? ==> r.value.headers == map[]) && (http.value.headers.Some? ==> r.value.headers == http.value.headers.value)
    ensures r.Success? && http.value.bodyFile == "" ==> r.value.body == http.value.body
    ensures r.Success? && http.value.bodyFile != "" ==> r.value.body == fs.files[Join(rtDataPath, http.value.bodyFile)]
  {
    if http.None? then Failure(MissingHttpConfig)
    else
      var h := http.value;
      if h.bodyFile != "" && rtDataPath !in fs.dirs then Failure(DataDirMissing(rtDataPath))
      else if h.bodyFile != "" && ReadFile(fs, rtDataPath, h.bodyFile).Failure? then Failure(ReadFailed(h.bodyFile))
      else
        var d := DefaultedHttp(h, rtDataPath, fs);
        Success(HttpResponse(d.status, d.body, d.headers.value))
  }

  /**
   * Running the defaulting again on its own result changes nothing and
   * gives the same response: the fixture may be set up twice.
   */
  lemma HttpDefaultingIdempotent(h: Http, rtDataPath: string, fs: FileSystem)
    ensures DefaultedHttp(DefaultedHttp(h, rtDataPath, fs), rtDataPath, fs) == DefaultedHttp(h, rtDataPath, fs)
    ensures HttpOption(Some(DefaultedHttp(h, rtDataPath, fs)), rtDataPath, fs) == HttpOption(Some(h), rtDataPath, fs)
  {
  }

  /** `HTTPTest` as an object whose fields `httpTestOpts` overwrites. */
  class HttpFixture {
    var status: int
    var body: string
    var bodyFile: string
    var headers: Option<map<string, string>>

    function View(): Http
      reads this
    {
      Http(status, body, bodyFile, headers)
    }

    constructor (h: Http)
      ensures View() == h
    {
      status, body, bodyFile, headers := h.status, h.body, h.bodyFile, h.headers;
    }
  }

  /**
   * `httpTestOpts`: defaults the fixture's fields in place, in the
   * source's order, and builds the HTTP option from them.
   */
  method HttpTestOpts(http: HttpFixture?, rtDataPath: string, fs: FileSystem) returns (r: Result<IngestOption, StubError>)
    modifies http
    ensures http == null ==> r == Failure(MissingHttpConfig)
    ensures http != null ==> r == HttpOption(Some(old(http.View())), rtDataPath, fs)
    ensures http != null ==> http.View() == DefaultedHttp(old(http.View()), rtDataPath, fs)
  {
    if http == null {
      return Failure(MissingHttpConfig);
    }
    if http.status == 0 {
      http.status := StatusOK;
    }
    if http.headers.None? {
      http.headers := Some(map[]);
    }
    if http.bodyFile != "" {
      if rtDataPath !in fs.dirs {
        return Failure(DataDirMissing(rtDataPath));
      }
      var data := ReadFile(fs, rtDataPath, http.bodyFile);
      if data.Failure? {
        return Failure(data.error);
      }
      http.body := data.value;
    }
    r := Success(HttpResponse(http.status, http.body, http.headers.value));
  }
}
