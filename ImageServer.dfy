/** `TempImageServer` in scripts/temp_image_server.py: a local HTTP server
    meant to serve the files under one directory so that images can be
    sent to a model as URLs, and the process-wide instance behind
    `get_global_server` and `stop_global_server`. The directory is the
    working directory only while the server is created; the standard
    request handler serves whatever the working directory is when a
    request arrives.

    The operating system is an input: `Env` says which ports cannot be
    bound, and whether entering the directory, creating the server and
    starting its thread succeed. The server and its thread are handles
    recording what they were created with. Path functions are the
    parameters of `PathOps`. */
module ImageServer {
  import opened Wrappers
  import opened Text

  const DefaultPort := 8765
  /** The number of consecutive ports tried before giving up. */
  const ProbeWindow := 100
  const MaxPort := 65535
  const UrlScheme := "http://localhost:"

  /** A listening server: bound to a port on localhost, and created while
      `root` was the working directory. Its handler does not keep `root`:
      each request serves the working directory of that moment. */
  datatype Httpd = Httpd(port: int, root: string)

  /** The background thread running a server's accept loop. */
  datatype Worker = Worker(server: Httpd)

  datatype Env = Env(occupied: set<int>, canEnterDirectory: bool, serverCreated: bool, threadStarted: bool)

  /** What the port probe ends with: a port, `RuntimeError` after the whole
      window, or the `OverflowError` that binding a port outside
      0..65535 raises and the probe does not catch. */
  datatype Probe = Found(port: int) | Exhausted | PortOutOfRange

  /** The exceptions `start` lets escape, in the order they can occur. */
  datatype StartError = NoFreePort | PortOverflow | DirectoryError | ServerError | ThreadError

  datatype StartOutcome = AlreadyRunning | Started | Failed(error: StartError)

  /** The fields of one server object. */
  datatype ServerState = ServerState(port: int, directory: string, httpd: Option<Httpd>, thread: Option<Worker>, running: bool)

  function Initial(port: int, directory: string): ServerState {
    ServerState(port, directory, None, None, false)
  }

  /** A running server has its listening server and thread, bound to its
      port and created in its directory. */
  predicate StateValid(s: ServerState) {
    s.running ==> s.httpd == Some(Httpd(s.port, s.directory)) && s.thread == Some(Worker(s.httpd.value))
  }

  // ---------------------------------------------------------------------------
  // The port probe

  /** Ports `p`, `p + 1`, ... below `end` tried in order: the first one
      that binds, unless a port outside the valid range comes first. */
  function ProbeFrom(p: int, end: int, occupied: set<int>): (r: Probe)
    ensures r.Found? ==> p <= r.port < end && 0 <= r.port <= MaxPort && r.port !in occupied
    ensures r.Found? ==> forall q :: p <= q < r.port ==> q in occupied
    ensures r == Exhausted <==>
              && (p >= end || (0 <= p && end - 1 <= MaxPort))
              && forall q :: p <= q < end ==> q in occupied
    ensures 0 <= p && end - 1 <= MaxPort ==> r != PortOutOfRange
    ensures r == PortOutOfRange <==>
              && p < end
              && (p < 0 || p > MaxPort || (MaxPort + 1 < end && forall q :: p <= q <= MaxPort ==> q in occupied))
    decreases end - p
  {
    if p >= end then Exhausted
    else if p < 0 || p > MaxPort then PortOutOfRange
    else if p !in occupied then Found(p)
    else ProbeFrom(p + 1, end, occupied)
  }

  /** `_find_free_port` for a server whose port is `start`. */
  function FreePort(start: int, occupied: set<int>): (r: Probe)
    ensures r.Found? ==>
              && start <= r.port < start + ProbeWindow && r.port !in occupied
              && forall q :: start <= q < r.port ==> q in occupied
    ensures r == Exhausted ==> forall q :: start <= q < start + ProbeWindow ==> q in occupied
  {
    ProbeFrom(start, start + ProbeWindow, occupied)
  }

  /** The probe finds the lowest free port of the window. */
  lemma FreePortLowest(start: int, occupied: set<int>)
    requires 0 <= start && start + ProbeWindow - 1 <= MaxPort
    ensures FreePort(start, occupied).Found? <==> exists q :: start <= q < start + ProbeWindow && q !in occupied
    ensures FreePort(start, occupied).Found? ==>
              var p := FreePort(start, occupied).port;
              start <= p < start + ProbeWindow && p !in occupied
              && forall q :: start <= q < p ==> q in occupied
  {
    var r := FreePort(start, occupied);
    if r == Exhausted {
      forall q | start <= q < start + ProbeWindow ensures q in occupied {
      }
    }
  }

  // ---------------------------------------------------------------------------
  // Starting and stopping

  /** `start`: nothing when running; otherwise the port is probed and stored
      before the server is created, the server and thread are stored once
      created, and the server counts as running only once its thread has
      started. An exception leaves the fields as far as they were set. */
  function StartStep(s: ServerState, env: Env): (r: (StartOutcome, ServerState))
    ensures r.0 == AlreadyRunning <==> s.running
    ensures s.running ==> r.1 == s
    ensures r.1.directory == s.directory
    // The outcome is decided by the probe and then by each step in turn.
    ensures r.0 == Failed(NoFreePort) <==> !s.running && FreePort(s.port, env.occupied) == Exhausted
    ensures r.0 == Failed(PortOverflow) <==> !s.running && FreePort(s.port, env.occupied) == PortOutOfRange
    ensures r.0 == Failed(DirectoryError) <==>
              !s.running && FreePort(s.port, env.occupied).Found? && !env.canEnterDirectory
    ensures r.0 == Failed(ServerError) <==>
              !s.running && FreePort(s.port, env.occupied).Found? && env.canEnterDirectory && !env.serverCreated
    ensures r.0 == Failed(ThreadError) <==>
              && !s.running && FreePort(s.port, env.occupied).Found?
              && env.canEnterDirectory && env.serverCreated && !env.threadStarted
    ensures r.0 == Started <==>
              && !s.running && FreePort(s.port, env.occupied).Found?
              && env.canEnterDirectory && env.serverCreated && env.threadStarted
    // What each outcome leaves in the fields.
    ensures r.0 == Failed(NoFreePort) || r.0 == Failed(PortOverflow) ==> r.1 == s
    ensures r.0 == Failed(DirectoryError) || r.0 == Failed(ServerError) ==>
              r.1 == s.(port := FreePort(s.port, env.occupied).port)
    ensures r.0 == Failed(ThreadError) || r.0 == Started ==>
              var p := FreePort(s.port, env.occupied).port;
              r.1 == s.(port := p, httpd := Some(Httpd(p, s.directory)), thread := Some(Worker(Httpd(p, s.directory))),
                        running := r.0 == Started)
    ensures r.0 == Started <==> !s.running && r.1.running
  {
    if s.running then (AlreadyRunning, s)
    else
      match FreePort(s.port, env.occupied)
      case Exhausted => (Failed(NoFreePort), s)
      case PortOutOfRange => (Failed(PortOverflow), s)
      case Found(p) =>
        var probed := s.(port := p);
        if !env.canEnterDirectory then (Failed(DirectoryError), probed)
        else if !env.serverCreated then (Failed(ServerError), probed)
        else
          var server := Httpd(p, s.directory);
          var created := probed.(httpd := Some(server), thread := Some(Worker(server)));
          if !env.threadStarted then (Failed(ThreadError), created)
          else (Started, created.(running := true))
  }

  /** `stop`: nothing when stopped; otherwise the server is shut down and
      dropped and the object is marked stopped. */
  function StopStep(s: ServerState): (r: ServerState)
    ensures !r.running && r.port == s.port && r.directory == s.directory && r.thread == s.thread
    ensures s.running ==> r.httpd.None?
    ensures !s.running ==> r == s
  {
    if !s.running then s
    else s.(httpd := None, running := false)
  }

  /** Starting a started server and stopping a stopped one change nothing. */
  lemma StartStopIdempotent(s: ServerState, env: Env, again: Env)
    ensures var r := StartStep(s, env);
      r.0 == Started ==> StartStep(r.1, again) == (AlreadyRunning, r.1)
    ensures StopStep(StopStep(s)) == StopStep(s)
  {
  }

  /** Starting and stopping keep a valid state valid. */
  lemma StepsKeepValid(s: ServerState, env: Env)
    requires StateValid(s)
    ensures StateValid(StartStep(s, env).1)
    ensures StateValid(StopStep(s))
  {
  }

  /** After a start and a stop, the next start probes from the port bound
      last: it binds that port again while it is free. */
  lemma RestartFromLastPort(s: ServerState, env: Env, later: Env)
    requires StartStep(s, env).0 == Started
    requires 0 <= s.port && s.port + 2 * ProbeWindow <= MaxPort
    ensures var bound := StartStep(s, env).1;
      var stopped := StopStep(bound);
      && stopped.port == bound.port
      && (bound.port !in later.occupied && later.canEnterDirectory && later.serverCreated && later.threadStarted
          ==> StartStep(stopped, later) == (Started, bound))
  {
    var bound := StartStep(s, env).1;
    assert FreePort(bound.port, later.occupied) == Found(bound.port) <== bound.port !in later.occupied;
  }

  // ---------------------------------------------------------------------------
  // URLs

  /** The path functions `get_url` relies on: `os.path.abspath`,
      `os.path.relpath` (`None` where it raises `ValueError`),
      `os.path.basename`, `os.path.join`, and `os.sep`. */
  datatype PathOps = PathOps(
    abspath: string -> string,
    relpath: (string, string) -> Option<string>,
    basename: string -> string,
    join: (string, string) -> string,
    sep: char)

  /** A file copied into the server's directory, overwriting what is there. */
  datatype Copy = Copy(source: string, dest: string)

  /** The path of the file relative to the server's directory, or its base
      name once it has been copied there. */
  function ServedPath(root: string, filePath: string, paths: PathOps): (r: string)
    ensures paths.relpath(paths.abspath(filePath), root).Some? ==>
              r == paths.relpath(paths.abspath(filePath), root).value
    ensures paths.relpath(paths.abspath(filePath), root).None? ==> r == paths.basename(paths.abspath(filePath))
  {
    var abs := paths.abspath(filePath);
    match paths.relpath(abs, root)
    case Some(rel) => rel
    case None => paths.basename(abs)
  }

  /** `get_url`: the URL of a file, and the copy made when the file cannot
      be reached from the server's directory. */
  function Url(port: int, root: string, filePath: string, paths: PathOps): (r: (string, Option<Copy>))
    ensures var abs := paths.abspath(filePath);
      && (r.1.Some? <==> paths.relpath(abs, root).None?)
      && (r.1.Some? ==> r.1.value == Copy(abs, paths.join(root, paths.basename(abs))))
    ensures r.0 == UrlScheme + IntToString(port) + "/" + Replace(ServedPath(root, filePath, paths), paths.sep, '/')
  {
    var abs := paths.abspath(filePath);
    var copy := match paths.relpath(abs, root)
      case Some(_) => None
      case None => Some(Copy(abs, paths.join(root, paths.basename(abs))));
    (UrlScheme + IntToString(port) + "/" + Replace(ServedPath(root, filePath, paths), paths.sep, '/'), copy)
  }

  /** The URL path holds no platform separator, and turning its slashes
      back into separators gives the served path whenever that path holds
      no slash of its own. */
  lemma UrlPathInverse(port: int, root: string, filePath: string, paths: PathOps)
    requires paths.sep != '/' && '/' !in ServedPath(root, filePath, paths)
    ensures var prefix := UrlScheme + IntToString(port) + "/";
      var url := Url(port, root, filePath, paths).0;
      && |prefix| <= |url| && url[..|prefix|] == prefix
      && paths.sep !in url[|prefix|..]
      && Replace(url[|prefix|..], '/', paths.sep) == ServedPath(root, filePath, paths)
  {
    var prefix := UrlScheme + IntToString(port) + "/";
    var path := ServedPath(root, filePath, paths);
    var url := Url(port, root, filePath, paths).0;
    assert url[|prefix|..] == Replace(path, paths.sep, '/');
    ReplaceInverse(path, paths.sep, '/');
  }

  /** Two unreachable files with the same base name get the same URL and
      the same copy destination: the later copy overwrites the earlier. */
  lemma CopyCollision(port: int, root: string, f: string, g: string, paths: PathOps)
    requires paths.relpath(paths.abspath(f), root).None? && paths.relpath(paths.abspath(g), root).None?
    requires paths.basename(paths.abspath(f)) == paths.basename(paths.abspath(g))
    ensures Url(port, root, f, paths).0 == Url(port, root, g, paths).0
    ensures Url(port, root, f, paths).1.value.dest == Url(port, root, g, paths).1.value.dest
  {
  }

  // ---------------------------------------------------------------------------
  // The server object

  class TempImageServer {
    var port: int
    var directory: string
    var httpd: Option<Httpd>
    var thread: Option<Worker>
    var running: bool

    function State(): ServerState
      reads this
    {
      ServerState(port, directory, httpd, thread, running)
    }

    ghost predicate Valid()
      reads this
    {
      StateValid(State())
    }

    /** `TempImageServer(port, directory)`: the directory defaults to the
        working directory and is made absolute. */
    constructor(port: int, directory: Option<string>, cwd: string, abspath: string -> string)
      ensures State() == Initial(port, abspath(directory.GetOr(cwd)))
      ensures Valid()
    {
      this.port := port;
      this.directory := abspath(directory.GetOr(cwd));
      httpd := None;
      thread := None;
      running := false;
    }

    /** `_find_free_port`. */
    method FindFreePort(env: Env) returns (r: Probe)
      ensures r == FreePort(port, env.occupied)
    {
      var p := port;
      while p < port + ProbeWindow
        invariant port <= p <= port + ProbeWindow
        invariant FreePort(port, env.occupied) == ProbeFrom(p, port + ProbeWindow, env.occupied)
      {
        if p < 0 || p > MaxPort {
          return PortOutOfRange;
        }
        if p !in env.occupied {
          return Found(p);
        }
        p := p + 1;
      }
      return Exhausted;
    }

    /** `start`. */
    method Start(env: Env) returns (outcome: StartOutcome)
      requires Valid()
      modifies this
      ensures Valid()
      ensures (outcome, State()) == StartStep(old(State()), env)
    {
      if running {
        return AlreadyRunning;
      }
      var probe := FindFreePort(env);
      if probe.Exhausted? {
        return Failed(NoFreePort);
      }
      if probe.PortOutOfRange? {
        return Failed(PortOverflow);
      }
      port := probe.port;
      if !env.canEnterDirectory {
        return Failed(DirectoryError);
      }
      if !env.serverCreated {
        return Failed(ServerError);
      }
      httpd := Some(Httpd(port, directory));
      thread := Some(Worker(httpd.value));
      if !env.threadStarted {
        return Failed(ThreadError);
      }
      running := true;
      outcome := Started;
    }

    /** `stop`. */
    method Stop()
      requires Valid()
      modifies this
      ensures Valid()
      ensures State() == StopStep(old(State()))
    {
      if !running {
        return;
      }
      if httpd.Some? {
        httpd := None;
      }
      running := false;
    }

    /** `get_url`. */
    method GetUrl(filePath: string, paths: PathOps) returns (url: string, copy: Option<Copy>)
      ensures (url, copy) == Url(port, directory, filePath, paths)
    {
      var abs := paths.abspath(filePath);
      var rel: string;
      match paths.relpath(abs, directory) {
        case Some(r) =>
          rel := r;
          copy := None;
        case None =>
          var filename := paths.basename(abs);
          copy := Some(Copy(abs, paths.join(directory, filename)));
          rel := filename;
      }
      url := UrlScheme + IntToString(port) + "/" + Replace(rel, paths.sep, '/');
    }
  }

  /** The module-level `_global_server` and the two functions managing it. */
  class GlobalServer {
    var instance: TempImageServer?

    constructor()
      ensures instance == null
    {
      instance := null;
    }

    /** `get_global_server`: the instance is created and started only when
        there is none, and is kept even when starting it fails. */
    method Get(env: Env, cwd: string, abspath: string -> string) returns (server: TempImageServer, outcome: Option<StartOutcome>)
      modifies this
      ensures instance == server
      ensures old(instance) != null ==> server == old(instance) && outcome.None? && server.State() == old(server.State())
      ensures old(instance) == null ==>
                && fresh(server) && outcome.Some?
                && (outcome.value, server.State()) == StartStep(Initial(DefaultPort, abspath(cwd)), env)
    {
      if instance == null {
        var created := new TempImageServer(DefaultPort, None, cwd, abspath);
        instance := created;
        var started := created.Start(env);
        return created, Some(started);
      }
      return instance, None;
    }

    /** `stop_global_server`: the instance is stopped and forgotten. */
    method StopGlobal()
      requires instance != null ==> instance.Valid()
      modifies this, instance
      ensures instance == null
      ensures old(instance) != null ==> old(instance).State() == StopStep(old(instance.State()))
    {
      if instance != null {
        instance.Stop();
        instance := null;
      }
    }
  }
}
