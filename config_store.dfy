/** The backend's configuration store: a `ConfigService` over a file system
    that maps paths to YAML documents. YAML text is abstracted: a file
    written with a document holds `Yaml(doc)`, and reading it back parses
    to that same document. */
module ConfigStore {
  import opened Document

  /** What a file holds: a YAML document, or content that cannot be read
      (permissions, I/O error) or cannot be parsed. */
  datatype FileContent = Yaml(doc: Config) | Unreadable | Malformed

  /** The errors the accessors raise. `DirectoryFailed` is the directory
      creation's own error and `TypeError` the runtime's error for a
      property access on a missing section; neither carries a message
      chosen by the service. */
  datatype Failure = SaveFailed | SplitFailed | DirectoryFailed | TypeError {
    function Message(): (m: Option<string>)
      ensures m.Some? <==> (this == SaveFailed || this == SplitFailed)
    {
      match this
      case SaveFailed => Some("Failed to save configuration")
      case SplitFailed => Some("Failed to split configuration")
      case _ => None
    }
  }

  datatype Outcome = Pass | Fail(failure: Failure)

  datatype Result<T> = Ok(value: T) | Err(failure: Failure)

  const DefaultDynamicFilePath: string := "./dynamic.yml"
  const DefaultConfigPath: string := "./config"
  const RoutersFile: string := "routers.yml"
  const ServicesFile: string := "services.yml"
  const MiddlewaresFile: string := "middlewares.yml"

  function JoinPath(dir: string, file: string): string {
    dir + "/" + file
  }

  /** The document `loadFullConfig` produces from the file at `path`:
      the parsed document, or the empty default on any read or parse failure. */
  function LoadResult(files: map<string, FileContent>, path: string): (c: Config)
    ensures path in files && files[path].Yaml? ==> c == files[path].doc
    ensures path !in files || !files[path].Yaml? ==> c == EmptyConfig()
  {
    if path in files && files[path].Yaml? then files[path].doc else EmptyConfig()
  }

  /** Writing a document and loading it back gives that document. */
  lemma LoadAfterWrite(files: map<string, FileContent>, path: string, c: Config)
    ensures LoadResult(files[path := Yaml(c)], path) == c
  {
  }

  // ---------------------------------------------------------------------
  // The three split envelopes

  /** `{http: {routers}}` */
  function RoutersEnvelope(h: Http): (c: Config)
    ensures c.http.Some? && c.http.value.routers == h.routers
    ensures c.http.value.services.None? && c.http.value.middlewares.None? && c.http.value.serversTransports.None?
  {
    Config(Some(Http(h.routers, None, None, None)))
  }

  /** `{http: {services, serversTransports?}}`; the transports are carried
      only when present (a truthy object). */
  function ServicesEnvelope(h: Http): (c: Config)
    ensures c.http.Some? && c.http.value.services == h.services
    ensures c.http.value.serversTransports == h.serversTransports
    ensures c.http.value.routers.None? && c.http.value.middlewares.None?
  {
    Config(Some(Http(None, h.services, None, h.serversTransports)))
  }

  /** `{http: {middlewares}}` */
  function MiddlewaresEnvelope(h: Http): (c: Config)
    ensures c.http.Some? && c.http.value.middlewares == h.middlewares
    ensures c.http.value.routers.None? && c.http.value.services.None? && c.http.value.serversTransports.None?
  {
    Config(Some(Http(None, None, h.middlewares, None)))
  }

  /** The three envelopes together hold exactly the sections of `h`:
      taking each file's own section back reassembles `h`. */
  lemma EnvelopesPartition(h: Http)
    ensures var r, s, m := RoutersEnvelope(h).http.value, ServicesEnvelope(h).http.value, MiddlewaresEnvelope(h).http.value;
      Http(r.routers, s.services, m.middlewares, s.serversTransports) == h
  {
  }

  /** The file writes of `splitConfigIntoFiles`, in the order it issues them. */
  function SplitWrites(configPath: string, h: Http): (w: seq<(string, Config)>)
    ensures |w| == 3
    ensures w[0] == (JoinPath(configPath, RoutersFile), RoutersEnvelope(h))
    ensures w[1] == (JoinPath(configPath, ServicesFile), ServicesEnvelope(h))
    ensures w[2] == (JoinPath(configPath, MiddlewaresFile), MiddlewaresEnvelope(h))
  {
    [(JoinPath(configPath, RoutersFile), RoutersEnvelope(h)),
     (JoinPath(configPath, ServicesFile), ServicesEnvelope(h)),
     (JoinPath(configPath, MiddlewaresFile), MiddlewaresEnvelope(h))]
  }

  /** The three split paths are pairwise distinct, so no split write hides another. */
  lemma SplitPathsDistinct(configPath: string, h: Http)
    ensures var w := SplitWrites(configPath, h); w[0].0 != w[1].0 && w[1].0 != w[2].0 && w[0].0 != w[2].0
  {
    var w := SplitWrites(configPath, h);
    assert |w[0].0| != |w[1].0| && |w[1].0| != |w[2].0| && |w[0].0| != |w[2].0|;
  }

  function Paths(w: seq<(string, Config)>): (ps: seq<string>)
    ensures |ps| == |w|
    ensures forall i :: 0 <= i < |w| ==> ps[i] == w[i].0
  {
    if w == [] then [] else [w[0].0] + Paths(w[1..])
  }

  /** The number of writes that succeed before the first one to a faulty path. */
  function FirstFaulty(w: seq<(string, Config)>, faulty: set<string>): (k: nat)
    ensures k <= |w|
    ensures forall i :: 0 <= i < k ==> w[i].0 !in faulty
    ensures k < |w| ==> w[k].0 in faulty
  {
    if w == [] then 0
    else if w[0].0 in faulty then 0
    else 1 + FirstFaulty(w[1..], faulty)
  }

  /** The files after performing the writes `w` one after another. */
  function ApplyWrites(files: map<string, FileContent>, w: seq<(string, Config)>): (r: map<string, FileContent>)
    ensures files.Keys <= r.Keys
  {
    if w == [] then files
    else ApplyWrites(files, w[..|w| - 1])[w[|w| - 1].0 := Yaml(w[|w| - 1].1)]
  }

  /** One more write in a sequence of writes: it succeeds exactly when its
      path is not faulty, and then extends the files and the written paths. */
  lemma WriteStep(files: map<string, FileContent>, w: seq<(string, Config)>, faulty: set<string>, j: nat)
    requires j < |w| && FirstFaulty(w, faulty) >= j
    ensures w[j].0 in faulty <==> FirstFaulty(w, faulty) == j
    ensures ApplyWrites(files, w[..j + 1]) == ApplyWrites(files, w[..j])[w[j].0 := Yaml(w[j].1)]
    ensures Paths(w[..j + 1]) == Paths(w[..j]) + [w[j].0]
  {
    assert w[..j + 1][..j] == w[..j];
  }

  /** The content each path of `w` ends up with: the last document written to it. */
  function LastWrites(w: seq<(string, Config)>): (m: map<string, FileContent>)
    ensures m.Keys == set i | 0 <= i < |w| :: w[i].0
  {
    if w == [] then map[]
    else
      var m := LastWrites(w[..|w| - 1])[w[|w| - 1].0 := Yaml(w[|w| - 1].1)];
      assert forall i :: 0 <= i < |w| - 1 ==> w[..|w| - 1][i] == w[i];
      m
  }

  /** Performing writes overrides the old files by their last writes. */
  lemma {:induction false} ApplyWritesOverride(files: map<string, FileContent>, w: seq<(string, Config)>)
    ensures ApplyWrites(files, w) == files + LastWrites(w)
  {
    if w != [] {
      ApplyWritesOverride(files, w[..|w| - 1]);
    }
  }

  /** Performing the same writes twice leaves the files as performing them once. */
  lemma ApplyWritesIdempotent(files: map<string, FileContent>, w: seq<(string, Config)>)
    ensures ApplyWrites(ApplyWrites(files, w), w) == ApplyWrites(files, w)
  {
    ApplyWritesOverride(files, w);
    ApplyWritesOverride(ApplyWrites(files, w), w);
    assert files + LastWrites(w) + LastWrites(w) == files + LastWrites(w);
  }

  /** A path no write names keeps its content (or its absence). */
  lemma ApplyWritesElsewhere(files: map<string, FileContent>, w: seq<(string, Config)>, p: string)
    requires forall i :: 0 <= i < |w| ==> w[i].0 != p
    ensures p in ApplyWrites(files, w) <==> p in files
    ensures p in files ==> ApplyWrites(files, w)[p] == files[p]
  {
    ApplyWritesOverride(files, w);
    assert p !in LastWrites(w);
  }

  /** Sequential writes to distinct paths leave each path with its own document. */
  lemma ApplyWritesDistinct(files: map<string, FileContent>, w: seq<(string, Config)>, i: nat)
    requires i < |w|
    requires forall a, b :: 0 <= a < b < |w| ==> w[a].0 != w[b].0
    ensures w[i].0 in ApplyWrites(files, w) && ApplyWrites(files, w)[w[i].0] == Yaml(w[i].1)
  {
    var n := |w| - 1;
    if i < n {
      assert forall a :: 0 <= a < n ==> w[..n][a] == w[a];
      ApplyWritesDistinct(files, w[..n], i);
    }
  }

  // ---------------------------------------------------------------------
  // The in-place edits `config.http.<section>[name] = v` and
  // `delete config.http.<section>[name]`. On a section that is missing
  // (or on a document without `http`) the runtime raises a TypeError: `None`.

  function SetRouter(c: Config, name: string, router: Router): (r: Option<Config>)
    ensures r.Some? <==> c.http.Some? && c.http.value.routers.Some?
    ensures r.Some? ==>
      && r.value.http.Some? && r.value.http.value.routers.Some?
      && UpdatedAt(c.http.value.routers.value, r.value.http.value.routers.value, name, router)
      && r.value.http.value.services == c.http.value.services
      && r.value.http.value.middlewares == c.http.value.middlewares
      && r.value.http.value.serversTransports == c.http.value.serversTransports
  {
    match c.http
    case None => None
    case Some(h) =>
      match h.routers
      case None => None
      case Some(m) => Some(Config(Some(h.(routers := Some(m[name := router])))))
  }

  function RemoveRouter(c: Config, name: string): (r: Option<Config>)
    ensures r.Some? <==> c.http.Some? && c.http.value.routers.Some?
    ensures r.Some? ==>
      && r.value.http.Some? && r.value.http.value.routers.Some?
      && RemovedAt(c.http.value.routers.value, r.value.http.value.routers.value, name)
      && r.value.http.value.services == c.http.value.services
      && r.value.http.value.middlewares == c.http.value.middlewares
      && r.value.http.value.serversTransports == c.http.value.serversTransports
  {
    match c.http
    case None => None
    case Some(h) =>
      match h.routers
      case None => None
      case Some(m) => Some(Config(Some(h.(routers := Some(m - {name})))))
  }

  function SetService(c: Config, name: string, service: Service): (r: Option<Config>)
    ensures r.Some? <==> c.http.Some? && c.http.value.services.Some?
    ensures r.Some? ==>
      && r.value.http.Some? && r.value.http.value.services.Some?
      && UpdatedAt(c.http.value.services.value, r.value.http.value.services.value, name, service)
      && r.value.http.value.routers == c.http.value.routers
      && r.value.http.value.middlewares == c.http.value.middlewares
      && r.value.http.value.serversTransports == c.http.value.serversTransports
  {
    match c.http
    case None => None
    case Some(h) =>
      match h.services
      case None => None
      case Some(m) => Some(Config(Some(h.(services := Some(m[name := service])))))
  }

  function RemoveService(c: Config, name: string): (r: Option<Config>)
    ensures r.Some? <==> c.http.Some? && c.http.value.services.Some?
    ensures r.Some? ==>
      && r.value.http.Some? && r.value.http.value.services.Some?
      && RemovedAt(c.http.value.services.value, r.value.http.value.services.value, name)
      && r.value.http.value.routers == c.http.value.routers
      && r.value.http.value.middlewares == c.http.value.middlewares
      && r.value.http.value.serversTransports == c.http.value.serversTransports
  {
    match c.http
    case None => None
    case Some(h) =>
      match h.services
      case None => None
      case Some(m) => Some(Config(Some(h.(services := Some(m - {name})))))
  }

  function SetMiddleware(c: Config, name: string, middleware: Middleware): (r: Option<Config>)
    ensures r.Some? <==> c.http.Some? && c.http.value.middlewares.Some?
    ensures r.Some? ==>
      && r.value.http.Some? && r.value.http.value.middlewares.Some?
      && UpdatedAt(c.http.value.middlewares.value, r.value.http.value.middlewares.value, name, middleware)
      && r.value.http.value.routers == c.http.value.routers
      && r.value.http.value.services == c.http.value.services
      && r.value.http.value.serversTransports == c.http.value.serversTransports
  {
    match c.http
    case None => None
    case Some(h) =>
      match h.middlewares
      case None => None
      case Some(m) => Some(Config(Some(h.(middlewares := Some(m[name := middleware])))))
  }

  function RemoveMiddleware(c: Config, name: string): (r: Option<Config>)
    ensures r.Some? <==> c.http.Some? && c.http.value.middlewares.Some?
    ensures r.Some? ==>
      && r.value.http.Some? && r.value.http.value.middlewares.Some?
      && RemovedAt(c.http.value.middlewares.value, r.value.http.value.middlewares.value, name)
      && r.value.http.value.routers == c.http.value.routers
      && r.value.http.value.services == c.http.value.services
      && r.value.http.value.serversTransports == c.http.value.serversTransports
  {
    match c.http
    case None => None
    case Some(h) =>
      match h.middlewares
      case None => None
      case Some(m) => Some(Config(Some(h.(middlewares := Some(m - {name})))))
  }

  /** Removing a name that is not there changes nothing. */
  lemma RemoveAbsentRouter(c: Config, name: string)
    requires c.http.Some? && c.http.value.routers.Some? && name !in c.http.value.routers.value
    ensures RemoveRouter(c, name) == Some(c)
  {
    assert c.http.value.routers.value - {name} == c.http.value.routers.value;
  }

  lemma RemoveAbsentService(c: Config, name: string)
    requires c.http.Some? && c.http.value.services.Some? && name !in c.http.value.services.value
    ensures RemoveService(c, name) == Some(c)
  {
    assert c.http.value.services.value - {name} == c.http.value.services.value;
  }

  lemma RemoveAbsentMiddleware(c: Config, name: string)
    requires c.http.Some? && c.http.value.middlewares.Some? && name !in c.http.value.middlewares.value
    ensures RemoveMiddleware(c, name) == Some(c)
  {
    assert c.http.value.middlewares.value - {name} == c.http.value.middlewares.value;
  }

  /** Saving under a name twice keeps only the second entity: a full replace. */
  lemma SetRouterReplaces(c: Config, name: string, a: Router, b: Router)
    requires c.http.Some? && c.http.value.routers.Some?
    ensures SetRouter(SetRouter(c, name, a).value, name, b) == SetRouter(c, name, b)
  {
    var m := c.http.value.routers.value;
    assert m[name := a][name := b] == m[name := b];
  }

  // ---------------------------------------------------------------------
  // The file system

  /** The files and directories the service sees. `faulty` names the
      locations where creating a file or a directory fails (a read-only
      location, a full disk); `written` records the successful writes in
      order. */
  class FileSystem {
    var files: map<string, FileContent>
    var dirs: set<string>
    const faulty: set<string>
    ghost var written: seq<string>

    constructor (files: map<string, FileContent>, dirs: set<string>, faulty: set<string>)
      ensures this.files == files && this.dirs == dirs && this.faulty == faulty && written == []
    {
      this.files := files;
      this.dirs := dirs;
      this.faulty := faulty;
      written := [];
    }

    /** `fs.existsSync`: a file or a directory is there. */
    method Exists(path: string) returns (b: bool)
      ensures b <==> path in files || path in dirs
    {
      b := path in files || path in dirs;
    }

    /** `fs.mkdirSync(path, {recursive: true})`. */
    method MakeDirectory(path: string) returns (ok: bool)
      modifies this
      ensures ok <==> path !in faulty
      ensures dirs == if ok then old(dirs) + {path} else old(dirs)
      ensures files == old(files) && written == old(written)
    {
      ok := path !in faulty;
      if ok {
        dirs := dirs + {path};
      }
    }

    /** `YAML.parse(fs.readFileSync(path))`: `None` when the file is
        missing, unreadable or not YAML. */
    method ReadYaml(path: string) returns (doc: Option<Config>)
      ensures doc.Some? <==> path in files && files[path].Yaml?
      ensures doc.Some? ==> doc.value == files[path].doc
    {
      if path in files && files[path].Yaml? {
        doc := Some(files[path].doc);
      } else {
        doc := None;
      }
    }

    /** `fs.writeFileSync(path, YAML.stringify(doc))`: overwrites the whole
        file; a failing write leaves it as it was. */
    method WriteYaml(path: string, doc: Config) returns (ok: bool)
      modifies this
      ensures ok <==> path !in faulty
      ensures files == if ok then old(files)[path := Yaml(doc)] else old(files)
      ensures written == if ok then old(written) + [path] else old(written)
      ensures dirs == old(dirs)
    {
      ok := path !in faulty;
      if ok {
        files := files[path := Yaml(doc)];
        written := written + [path];
      }
    }
  }

  // ---------------------------------------------------------------------
  // The service

  class ConfigService {
    const fs: FileSystem
    const dynamicFilePath: string
    const configPath: string

    /** The paths come from `DYNAMIC_FILE_PATH` and `CONFIG_PATH` in the
        environment, with their defaults. */
    constructor (fs: FileSystem, dynamicEnv: Option<string>, configEnv: Option<string>)
      ensures this.fs == fs
      ensures dynamicFilePath == OrDefault(dynamicEnv, DefaultDynamicFilePath)
      ensures configPath == OrDefault(configEnv, DefaultConfigPath)
    {
      this.fs := fs;
      dynamicFilePath := OrDefault(dynamicEnv, DefaultDynamicFilePath);
      configPath := OrDefault(configEnv, DefaultConfigPath);
    }

    /** The document a load would return now. */
    ghost function Loaded(): Config
      reads fs
    {
      LoadResult(fs.files, dynamicFilePath)
    }

    /** The config directory exists or can be created. */
    ghost predicate DirectoryReady()
      reads fs
    {
      configPath in fs.files || configPath in fs.dirs || configPath !in fs.faulty
    }

    /** After a save of `next` (or none, `None`, when the edit raised a
        TypeError), given the file state `before`: one write of `next` to
        the dynamic file on success, nothing else touched. */
    ghost predicate Persisted(before: map<string, FileContent>, writtenBefore: seq<string>,
                              dirsBefore: set<string>, r: Outcome, next: Option<Config>)
      reads fs
    {
      && fs.dirs == dirsBefore
      && (next.None? ==> r == Fail(TypeError) && fs.files == before && fs.written == writtenBefore)
      && (next.Some? ==>
            && (r.Pass? <==> dynamicFilePath !in fs.faulty)
            && (r.Fail? ==> r.failure == SaveFailed)
            && fs.files == (if r.Pass? then before[dynamicFilePath := Yaml(next.value)] else before)
            && fs.written == (if r.Pass? then writtenBefore + [dynamicFilePath] else writtenBefore))
    }

    /** Creates the config directory only when nothing is at its path. */
    method EnsureConfigDir() returns (ok: bool)
      modifies fs
      ensures ok <==> old(DirectoryReady())
      ensures fs.dirs == if configPath !in old(fs.files) && configPath !in old(fs.dirs) && ok
                         then old(fs.dirs) + {configPath} else old(fs.dirs)
      ensures fs.files == old(fs.files) && fs.written == old(fs.written)
    {
      var present := fs.Exists(configPath);
      ok := true;
      if !present {
        ok := fs.MakeDirectory(configPath);
      }
    }

    /** Reads only the dynamic file; any read or parse failure gives the
        empty default document instead of an error. */
    method LoadFullConfig() returns (c: Config)
      ensures dynamicFilePath in fs.files && fs.files[dynamicFilePath].Yaml? ==> c == fs.files[dynamicFilePath].doc
      ensures dynamicFilePath !in fs.files || !fs.files[dynamicFilePath].Yaml? ==>
        c.http.Some? && c.http.value.routers == Some(map[]) && c.http.value.services == Some(map[])
        && c.http.value.middlewares == Some(map[]) && c.http.value.serversTransports.None?
      ensures c == Loaded()
    {
      var parsed := fs.ReadYaml(dynamicFilePath);
      if parsed.Some? {
        c := parsed.value;
      } else {
        c := EmptyConfig();
      }
    }

    /** Overwrites the whole dynamic file with `c`. */
    method SaveFullConfig(c: Config) returns (r: Outcome)
      modifies fs
      ensures r.Pass? <==> dynamicFilePath !in fs.faulty
      ensures r.Fail? ==> r.failure == SaveFailed
      ensures fs.files == if r.Pass? then old(fs.files)[dynamicFilePath := Yaml(c)] else old(fs.files)
      ensures fs.written == if r.Pass? then old(fs.written) + [dynamicFilePath] else old(fs.written)
      ensures fs.dirs == old(fs.dirs)
    {
      var ok := fs.WriteYaml(dynamicFilePath, c);
      r := if ok then Pass else Fail(SaveFailed);
    }

    /** Writes the routers, services and middlewares envelopes, in that
        order, stopping at the first failing write. The directory step runs
        before, and outside, the error translation. */
    method SplitConfigIntoFiles(c: Config) returns (r: Outcome)
      modifies fs
      ensures !old(DirectoryReady()) ==>
        r == Fail(DirectoryFailed) && fs.files == old(fs.files) && fs.written == old(fs.written)
      ensures old(DirectoryReady()) && c.http.None? ==>
        r == Fail(SplitFailed) && fs.files == old(fs.files) && fs.written == old(fs.written)
      ensures old(DirectoryReady()) && c.http.Some? ==>
        var w := SplitWrites(configPath, c.http.value);
        var k := FirstFaulty(w, fs.faulty);
        && fs.files == ApplyWrites(old(fs.files), w[..k])
        && fs.written == old(fs.written) + Paths(w[..k])
        && r == (if k == |w| then Pass else Fail(SplitFailed))
      ensures fs.dirs == if configPath !in old(fs.files) && configPath !in old(fs.dirs) && old(DirectoryReady())
                         then old(fs.dirs) + {configPath} else old(fs.dirs)
    {
      var ready := EnsureConfigDir();
      if !ready {
        return Fail(DirectoryFailed);
      }
      if c.http.None? {
        return Fail(SplitFailed);
      }
      r := WriteEnvelopes(SplitWrites(configPath, c.http.value));
    }

    /** The body of the split's `try`: the three envelope writes in order,
        stopping at the first one that fails. */
    method WriteEnvelopes(w: seq<(string, Config)>) returns (r: Outcome)
      requires |w| == 3
      modifies fs
      ensures var k := FirstFaulty(w, fs.faulty);
        && fs.files == ApplyWrites(old(fs.files), w[..k])
        && fs.written == old(fs.written) + Paths(w[..k])
        && r == (if k == |w| then Pass else Fail(SplitFailed))
      ensures fs.dirs == old(fs.dirs)
    {
      ghost var files0 := fs.files;
      ghost var written0 := fs.written;
      assert w[..0] == [] && w[..3] == w;
      var ok := WriteEnvelope(w, 0, files0, written0);
      if !ok {
        return Fail(SplitFailed);
      }
      ok := WriteEnvelope(w, 1, files0, written0);
      if !ok {
        return Fail(SplitFailed);
      }
      ok := WriteEnvelope(w, 2, files0, written0);
      if !ok {
        return Fail(SplitFailed);
      }
      r := Pass;
    }

    /** The write of envelope `j`, after the envelopes before it were
        written: it succeeds exactly when `j` is not the first faulty write,
        and the files then hold one more write. */
    method WriteEnvelope(w: seq<(string, Config)>, j: nat, ghost files0: map<string, FileContent>,
                         ghost written0: seq<string>) returns (ok: bool)
      requires j < |w| && FirstFaulty(w, fs.faulty) >= j
      requires fs.files == ApplyWrites(files0, w[..j]) && fs.written == written0 + Paths(w[..j])
      modifies fs
      ensures ok <==> FirstFaulty(w, fs.faulty) > j
      ensures var k := if ok then j + 1 else j;
        fs.files == ApplyWrites(files0, w[..k]) && fs.written == written0 + Paths(w[..k])
      ensures fs.dirs == old(fs.dirs)
    {
      WriteStep(files0, w, fs.faulty, j);
      ok := fs.WriteYaml(w[j].0, w[j].1);
    }

    method LoadRouters() returns (r: Result<map<string, Router>>)
      ensures r.Err? <==> Loaded().http.None?
      ensures r.Err? ==> r.failure == TypeError
      ensures r.Ok? && Loaded().http.value.routers.Some? ==> r.value == Loaded().http.value.routers.value
      ensures r.Ok? && Loaded().http.value.routers.None? ==> r.value == map[]
    {
      var c := LoadFullConfig();
      if c.http.None? {
        return Err(TypeError);
      }
      r := Ok(c.http.value.routers.GetOr(map[]));
    }

    method LoadServices() returns (r: Result<map<string, Service>>)
      ensures r.Err? <==> Loaded().http.None?
      ensures r.Err? ==> r.failure == TypeError
      ensures r.Ok? && Loaded().http.value.services.Some? ==> r.value == Loaded().http.value.services.value
      ensures r.Ok? && Loaded().http.value.services.None? ==> r.value == map[]
    {
      var c := LoadFullConfig();
      if c.http.None? {
        return Err(TypeError);
      }
      r := Ok(c.http.value.services.GetOr(map[]));
    }

    method LoadMiddlewares() returns (r: Result<map<string, Middleware>>)
      ensures r.Err? <==> Loaded().http.None?
      ensures r.Err? ==> r.failure == TypeError
      ensures r.Ok? && Loaded().http.value.middlewares.Some? ==> r.value == Loaded().http.value.middlewares.value
      ensures r.Ok? && Loaded().http.value.middlewares.None? ==> r.value == map[]
    {
      var c := LoadFullConfig();
      if c.http.None? {
        return Err(TypeError);
      }
      r := Ok(c.http.value.middlewares.GetOr(map[]));
    }

    /** Saves the result of an in-place edit; an edit that raised stops before the save. */
    method Commit(next: Option<Config>) returns (r: Outcome)
      modifies fs
      ensures Persisted(old(fs.files), old(fs.written), old(fs.dirs), r, next)
    {
      if next.None? {
        return Fail(TypeError);
      }
      r := SaveFullConfig(next.value);
    }

    method SaveRouter(name: string, router: Router) returns (r: Outcome)
      modifies fs
      ensures Persisted(old(fs.files), old(fs.written), old(fs.dirs), r, SetRouter(old(Loaded()), name, router))
      ensures r.Pass? ==> Loaded() == SetRouter(old(Loaded()), name, router).value
    {
      var c := LoadFullConfig();
      r := Commit(SetRouter(c, name, router));
    }

    method DeleteRouter(name: string) returns (r: Outcome)
      modifies fs
      ensures Persisted(old(fs.files), old(fs.written), old(fs.dirs), r, RemoveRouter(old(Loaded()), name))
      ensures r.Pass? ==> Loaded() == RemoveRouter(old(Loaded()), name).value
    {
      var c := LoadFullConfig();
      r := Commit(RemoveRouter(c, name));
    }

    method SaveService(name: string, service: Service) returns (r: Outcome)
      modifies fs
      ensures Persisted(old(fs.files), old(fs.written), old(fs.dirs), r, SetService(old(Loaded()), name, service))
      ensures r.Pass? ==> Loaded() == SetService(old(Loaded()), name, service).value
    {
      var c := LoadFullConfig();
      r := Commit(SetService(c, name, service));
    }

    method DeleteService(name: string) returns (r: Outcome)
      modifies fs
      ensures Persisted(old(fs.files), old(fs.written), old(fs.dirs), r, RemoveService(old(Loaded()), name))
      ensures r.Pass? ==> Loaded() == RemoveService(old(Loaded()), name).value
    {
      var c := LoadFullConfig();
      r := Commit(RemoveService(c, name));
    }

    method SaveMiddleware(name: string, middleware: Middleware) returns (r: Outcome)
      modifies fs
      ensures Persisted(old(fs.files), old(fs.written), old(fs.dirs), r, SetMiddleware(old(Loaded()), name, middleware))
      ensures r.Pass? ==> Loaded() == SetMiddleware(old(Loaded()), name, middleware).value
    {
      var c := LoadFullConfig();
      r := Commit(SetMiddleware(c, name, middleware));
    }

    method DeleteMiddleware(name: string) returns (r: Outcome)
      modifies fs
      ensures Persisted(old(fs.files), old(fs.written), old(fs.dirs), r, RemoveMiddleware(old(Loaded()), name))
      ensures r.Pass? ==> Loaded() == RemoveMiddleware(old(Loaded()), name).value
    {
      var c := LoadFullConfig();
      r := Commit(RemoveMiddleware(c, name));
    }
  }

  // ---------------------------------------------------------------------
  // Properties of the split

  /** After any prefix of the split writes, the dynamic file (when it is
      not one of the split paths) loads as before: split never reroutes loads. */
  lemma SplitKeepsLoad(files: map<string, FileContent>, configPath: string, dynamicPath: string, h: Http, k: nat)
    requires k <= 3
    requires forall i :: 0 <= i < 3 ==> SplitWrites(configPath, h)[i].0 != dynamicPath
    ensures LoadResult(ApplyWrites(files, SplitWrites(configPath, h)[..k]), dynamicPath) == LoadResult(files, dynamicPath)
  {
    var w := SplitWrites(configPath, h)[..k];
    ApplyWritesElsewhere(files, w, dynamicPath);
  }

  /** With the default locations the dynamic file is none of the split files. */
  lemma DefaultPathsSeparate(h: Http)
    ensures forall i :: 0 <= i < 3 ==> SplitWrites(DefaultConfigPath, h)[i].0 != DefaultDynamicFilePath
  {
    var w := SplitWrites(DefaultConfigPath, h);
    assert w[0].0[2] != DefaultDynamicFilePath[2];
    assert w[1].0[2] != DefaultDynamicFilePath[2];
    assert w[2].0[2] != DefaultDynamicFilePath[2];
  }

  /** A complete split leaves each split file holding its own envelope. */
  lemma SplitFileContents(files: map<string, FileContent>, configPath: string, h: Http)
    ensures var w := SplitWrites(configPath, h); var after := ApplyWrites(files, w);
      && JoinPath(configPath, RoutersFile) in after && after[JoinPath(configPath, RoutersFile)] == Yaml(RoutersEnvelope(h))
      && JoinPath(configPath, ServicesFile) in after && after[JoinPath(configPath, ServicesFile)] == Yaml(ServicesEnvelope(h))
      && JoinPath(configPath, MiddlewaresFile) in after && after[JoinPath(configPath, MiddlewaresFile)] == Yaml(MiddlewaresEnvelope(h))
  {
    var w := SplitWrites(configPath, h);
    SplitPathsDistinct(configPath, h);
    ApplyWritesDistinct(files, w, 0);
    ApplyWritesDistinct(files, w, 1);
    ApplyWritesDistinct(files, w, 2);
  }

  /** Splitting the same document again, with the same failing locations,
      performs the same writes and leaves the files exactly as the first
      split left them. */
  lemma SplitIdempotent(files: map<string, FileContent>, faulty: set<string>, configPath: string, h: Http)
    ensures var w := SplitWrites(configPath, h); var k := FirstFaulty(w, faulty);
      ApplyWrites(ApplyWrites(files, w[..k]), w[..k]) == ApplyWrites(files, w[..k])
  {
    var w := SplitWrites(configPath, h);
    ApplyWritesIdempotent(files, w[..FirstFaulty(w, faulty)]);
  }
}
