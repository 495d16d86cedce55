/** `main.py` as the running program: an object whose fields are the
    variables `run_forever` updates (`session`, `session_start`,
    `last_run`), the remote tag store `addTags` changes, and the record of
    requests sent. Each method does in place what the matching function of
    Polling describes, and its contract says so. */
module Bridge {
  import opened Failures
  import opened Torrents
  import opened Rescan
  import opened Startup
  import opened Polling
  import opened LoopProps

  class Bridge {
    /** The answers of the qBittorrent server, the Docker daemon and the clock. */
    const oracle: Oracle
    /** `os.environ`. */
    const environ: map<string, string>

    var session: nat
    var sessionStart: real
    var lastRun: real
    var remote: map<string, string>
    var trace: seq<Event>
    var ticks: nat
    var logins: nat
    var queries: nat
    var marks: nat
    var rescans: nat

    /** The fields as one value of the state machine. */
    ghost function Model(): State
      reads this
    {
      State(session, sessionStart, lastRun, remote, trace, ticks, logins, queries, marks, rescans)
    }

    constructor (o: Oracle, env: map<string, string>, tags: map<string, string>)
      ensures oracle == o && environ == env
      ensures Model() == Initial(tags)
    {
      oracle, environ := o, env;
      session, sessionStart, lastRun, remote, trace := 0, 0.0, 0.0, tags, [];
      ticks, logins, queries, marks, rescans := 0, 0, 0, 0, 0;
    }

    /** `time.time()`: the next clock reading. */
    method Now() returns (now: real)
      modifies this
      ensures now == oracle.clock(old(ticks))
      ensures Model() == old(Model()).(ticks := old(ticks) + 1)
    {
      now := oracle.clock(ticks);
      ticks := ticks + 1;
    }

    /** `session = get_login_session()`. */
    method Login() returns (out: Outcome)
      modifies this
      ensures Trans(Model(), out) == LoginSpec(oracle, old(Model()))
    {
      logins := logins + 1;
      trace := trace + [Event.Login(logins)];
      if oracle.loginStatus(logins - 1) != 200 {
        return Fail(LoginFailed);
      }
      session := logins;
      out := Pass;
    }

    /** `get_completed_torrents(session)`. */
    method GetCompletedTorrents() returns (r: Result<seq<Torrent>>)
      modifies this
      ensures (Model(), r) == QuerySpec(oracle, ConfigOf(environ), old(Model()))
    {
      var k := queries;
      queries := queries + 1;
      trace := trace + [Query(session)];
      if oracle.queryStatus(k) != 200 {
        return Err(QueryFailed);
      }
      var doneTag := Setting(environ, "QBITTORRENT_DONE_TAG");
      r := Ok(Untracked(Snapshot(remote, oracle.completed(k)), doneTag));
    }

    /** `mark_torrent_as_done(session, hash)`. */
    method MarkTorrentAsDone(hash: string) returns (out: Outcome)
      modifies this
      ensures Trans(Model(), out) == MarkSpec(oracle, ConfigOf(environ), old(Model()), hash)
    {
      var doneTag := Setting(environ, "QBITTORRENT_DONE_TAG");
      var k := marks;
      marks := marks + 1;
      trace := trace + [AddTags(session, hash, doneTag)];
      if oracle.markStatus(k) != 200 {
        return Fail(MarkFailed(hash));
      }
      remote := Tagged(remote, hash, doneTag);
      out := Pass;
    }

    /** `update_nextcloud_files()`: reject "..", strip the leading slashes,
        build the rescan path, look the container up and run the scan. */
    method UpdateNextcloudFiles() returns (out: Outcome)
      modifies this
      ensures Trans(Model(), out) == RescanSpec(oracle, ConfigOf(environ), old(Model()))
    {
      ghost var cfg := ConfigOf(environ);
      ghost var st := Model();
      var user := Setting(environ, "NEXTCLOUD_USER");
      var relPath := Setting(environ, "NEXTCLOUD_REL_PATH");
      var name := Setting(environ, "NEXTCLOUD_CONTAINER_NAME");
      assert cfg == Config(cfg.doneTag, user, relPath, name);
      var path := SanitizePath(user, relPath);
      if path.Err? {
        return Fail(path.error);
      }
      var rescanPath := path.value;
      var k := rescans;
      rescans := rescans + 1;
      trace := trace + [GetContainer(name)];
      ghost var looked := Model();
      assert looked == st.(rescans := k + 1, trace := st.trace + [GetContainer(name)]);
      match oracle.lookup(k)
      case NotFound =>
        assert RescanSpec(oracle, cfg, st) == Trans(looked, Fail(ContainerNotFound(name)));
        return Fail(ContainerNotFound(name));
      case NotAContainer =>
        assert RescanSpec(oracle, cfg, st) == Trans(looked, Fail(ContainerInvalid(name)));
        return Fail(ContainerInvalid(name));
      case Found(code) =>
        trace := trace + [Exec(name, Command(rescanPath), ExecUser)];
        ghost var ran := looked.(trace := looked.trace + [Exec(name, Command(rescanPath), ExecUser)]);
        assert Model() == ran;
        if code != 0 {
          assert RescanSpec(oracle, cfg, st) == Trans(ran, Fail(RescanFailed(rescanPath)));
          return Fail(RescanFailed(rescanPath));
        }
        assert RescanSpec(oracle, cfg, st) == Trans(ran, Pass);
        out := Pass;
    }

    /** One poll: the query, `for torrent in torrents: mark_torrent_as_done`,
        and `if torrents: update_nextcloud_files()`. */
    method Poll() returns (out: Outcome)
      modifies this
      ensures Trans(Model(), out) == PollSpec(oracle, ConfigOf(environ), old(Model()))
    {
      var r := GetCompletedTorrents();
      if r.Err? {
        return Fail(r.error);
      }
      var torrents := r.value;
      ghost var hs := Hashes(torrents);
      ghost var queried := Model();
      for i := 0 to |torrents|
        invariant MarkAllSpec(oracle, ConfigOf(environ), queried, hs) ==
          MarkAllSpec(oracle, ConfigOf(environ), Model(), hs[i..])
      {
        assert hs[i..][0] == torrents[i].hash && hs[i..][1..] == hs[i + 1..];
        out := MarkTorrentAsDone(torrents[i].hash);
        if out.Fail? {
          return;
        }
      }
      assert hs[|torrents|..] == [];
      if |torrents| > 0 {
        out := UpdateNextcloudFiles();
      } else {
        out := Pass;
      }
    }

    /** `if time.time() - session_start > 3300`: log in again and restart
        the session clock. */
    method RenewSession() returns (out: Outcome)
      modifies this
      ensures Trans(Model(), out) == RenewSpec(oracle, old(Model()))
    {
      var now := Now();
      if now - sessionStart > SessionMaxAge {
        out := Login();
        if out.Fail? {
          return;
        }
        sessionStart := Now();
      }
      out := Pass;
    }

    /** `if time.time() - last_run > 15`: poll, then record when. */
    method PollIfDue() returns (out: Outcome)
      modifies this
      ensures Trans(Model(), out) == PollPhaseSpec(oracle, ConfigOf(environ), old(Model()))
    {
      ghost var st := Model();
      ghost var p, t := PollPhaseShape(oracle, ConfigOf(environ), st);
      var now := Now();
      if now - lastRun > PollInterval {
        out := Poll();
        assert Trans(Model(), out) == p;
        if out.Fail? {
          return;
        }
        lastRun := Now();
      } else {
        assert Model() == st.(ticks := st.ticks + 1);
      }
      out := Pass;
    }

    /** One iteration of `while RUN_FLAG`, ending with `time.sleep(1)`. */
    method Iterate() returns (out: Outcome)
      modifies this
      ensures Trans(Model(), out) == StepSpec(oracle, ConfigOf(environ), old(Model()))
    {
      out := RenewSession();
      if out.Fail? {
        return;
      }
      out := PollIfDue();
      if out.Fail? {
        return;
      }
      trace := trace + [Sleep];
    }

    /** The start of `run_forever()`: `check_env()`, the first login and
        `last_run = 0`. */
    method Start() returns (out: Outcome)
      modifies this
      ensures Trans(Model(), out) == StartSpec(oracle, environ, old(Model()))
    {
      var probed;
      out, probed := CheckEnv(environ, oracle.probeStatus);
      if probed {
        trace := trace + [Probe];
      }
      if out.Fail? {
        return;
      }
      sessionStart := Now();
      lastRun := 0.0;
      out := Login();
    }

    /** `while RUN_FLAG:` over the given readings of the flag. */
    method Loop(flags: seq<bool>) returns (out: Outcome)
      modifies this
      ensures Trans(Model(), out) == LoopSpec(oracle, ConfigOf(environ), old(Model()), flags)
    {
      ghost var started := Model();
      var k := 0;
      while k < |flags| && flags[k]
        invariant k <= |flags|
        invariant LoopSpec(oracle, ConfigOf(environ), started, flags) ==
          LoopSpec(oracle, ConfigOf(environ), Model(), flags[k..])
      {
        assert flags[k..][0] == flags[k] && flags[k..][1..] == flags[k + 1..];
        out := Iterate();
        if out.Fail? {
          return;
        }
        k := k + 1;
      }
      out := Pass;
    }

    /** `run_forever()` on a fresh bridge, with `flags` the readings of
        RUN_FLAG at the top of each iteration. */
    method RunForever(flags: seq<bool>, tags: map<string, string>) returns (out: Outcome)
      requires Model() == Initial(tags)
      modifies this
      ensures Trans(Model(), out) == RunSpec(oracle, environ, tags, flags)
    {
      out := Start();
      if out.Fail? {
        return;
      }
      out := Loop(flags);
    }
  }
}
