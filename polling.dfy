/** The poll controller `run_forever` as a state machine over values: the
    state it keeps (session, session start, last poll), the remote tag store
    it changes through `addTags`, and a trace of every remote effect it
    issues. Every call to a remote system is answered by an `Oracle`, and
    every `time.time()` reads the next value of the oracle's clock. */
module Polling {
  import opened Failures
  import opened Text
  import opened Torrents
  import opened Rescan
  import opened Startup

  /** A session is renewed once it is strictly older than 55 minutes. */
  const SessionMaxAge: real := 3300.0
  /** A poll runs once strictly more than 15 s have passed since the last one. */
  const PollInterval: real := 15.0

  /** The settings each call reads back from the environment. */
  datatype Config = Config(doneTag: string, user: string, relPath: string, container: string)

  /** The settings as `str(os.environ.get(name))` reads them. */
  function ConfigOf(environ: map<string, string>): Config {
    Config(
      Setting(environ, "QBITTORRENT_DONE_TAG"),
      Setting(environ, "NEXTCLOUD_USER"),
      Setting(environ, "NEXTCLOUD_REL_PATH"),
      Setting(environ, "NEXTCLOUD_CONTAINER_NAME"))
  }

  /** Once `check_env` has passed, no setting falls back to "None": each
      is the variable's own value. */
  lemma ConfigAfterCheck(environ: map<string, string>)
    requires FirstMissing(RequiredVariables, environ).None?
    ensures && "QBITTORRENT_DONE_TAG" in environ && "NEXTCLOUD_USER" in environ
      && "NEXTCLOUD_REL_PATH" in environ && "NEXTCLOUD_CONTAINER_NAME" in environ
    ensures ConfigOf(environ) == Config(environ["QBITTORRENT_DONE_TAG"], environ["NEXTCLOUD_USER"],
      environ["NEXTCLOUD_REL_PATH"], environ["NEXTCLOUD_CONTAINER_NAME"])
  {
    assert RequiredVariables[3] in environ && RequiredVariables[4] in environ;
    assert RequiredVariables[5] in environ && RequiredVariables[6] in environ;
  }

  /** The answers of the outside world, indexed by how many calls of that
      kind came before: the clock readings, the status of the connectivity
      probe, of each login, of each torrent query, the hashes each query lists
      as completed, the status of each addTags, and each container lookup. */
  datatype Oracle = Oracle(
    clock: nat -> real,
    probeStatus: int,
    loginStatus: nat -> int,
    queryStatus: nat -> int,
    completed: nat -> seq<string>,
    markStatus: nat -> int,
    lookup: nat -> Lookup)

  /** The clock never runs backwards. */
  ghost predicate Monotone(clock: nat -> real) {
    forall i: nat, j: nat :: i <= j ==> clock(i) <= clock(j)
  }

  /** The remote effects, in the order they are issued. A login attempt is
      numbered; the session it yields carries that number. */
  datatype Event =
    | Probe
    | Login(attempt: nat)
    | Query(session: nat)
    | AddTags(session: nat, hash: string, tag: string)
    | GetContainer(name: string)
    | Exec(name: string, command: seq<string>, user: string)
    | Sleep

  /** `session` is the number of the login that produced the session in use
      (0 before any); `ticks`, `logins`, `queries`, `marks` and `rescans`
      count the clock readings and remote calls made so far. */
  datatype State = State(
    session: nat,
    sessionStart: real,
    lastRun: real,
    remote: map<string, string>,
    trace: seq<Event>,
    ticks: nat,
    logins: nat,
    queries: nat,
    marks: nat,
    rescans: nat)

  /** The state after a step, and whether the step raised. */
  datatype Trans = Trans(st: State, out: Outcome)

  /** The state before `run_forever` starts, over a remote tag store. */
  function Initial(remote: map<string, string>): State {
    State(0, 0.0, 0.0, remote, [], 0, 0, 0, 0, 0)
  }

  // ---------------------------------------------------------------- traces

  /** The hashes of the addTags requests of a trace, in order. */
  function Marked(trace: seq<Event>): seq<string> {
    if trace == [] then []
    else (if trace[0].AddTags? then [trace[0].hash] else []) + Marked(trace[1..])
  }

  /** The number of completed loop iterations recorded in a trace. */
  function Sleeps(trace: seq<Event>): nat {
    if trace == [] then 0
    else (if trace[0].Sleep? then 1 else 0) + Sleeps(trace[1..])
  }

  /** The addTags hashes and the sleeps of a trace add up over concatenation. */
  lemma {:induction false} TraceAppend(a: seq<Event>, b: seq<Event>)
    ensures Marked(a + b) == Marked(a) + Marked(b)
    ensures Sleeps(a + b) == Sleeps(a) + Sleeps(b)
  {
    if a == [] {
      assert a + b == b;
    } else {
      assert (a + b)[0] == a[0];
      assert (a + b)[1..] == a[1..] + b;
      TraceAppend(a[1..], b);
    }
  }

  /** One addTags request per hash, in order. */
  function MarkEvents(session: nat, hs: seq<string>, tag: string): seq<Event> {
    seq(|hs|, i requires 0 <= i < |hs| => AddTags(session, hs[i], tag))
  }

  /** The requests for a non-empty prefix of a list are the request for its
      head, then those for the matching prefix of its tail. */
  lemma MarkEventsPrefix(session: nat, hs: seq<string>, n: nat, tag: string)
    requires 0 < n <= |hs|
    ensures MarkEvents(session, hs[..n], tag) == [AddTags(session, hs[0], tag)] + MarkEvents(session, hs[1..][..n - 1], tag)
  {
    var l := MarkEvents(session, hs[..n], tag);
    var r := [AddTags(session, hs[0], tag)] + MarkEvents(session, hs[1..][..n - 1], tag);
    assert forall i :: 0 <= i < |l| ==> l[i] == r[i] by {
      forall i | 0 <= i < |l| ensures l[i] == r[i] {
        if i > 0 { assert hs[..n][i] == hs[1..][..n - 1][i - 1]; }
      }
    }
  }

  /** The marking requests for `hs` name exactly `hs`, in order, and hold no sleep. */
  lemma {:induction false} MarkEventsSpec(session: nat, hs: seq<string>, tag: string)
    ensures Marked(MarkEvents(session, hs, tag)) == hs
    ensures Sleeps(MarkEvents(session, hs, tag)) == 0
  {
    if hs != [] {
      var r := MarkEvents(session, hs, tag);
      assert r[1..] == MarkEvents(session, hs[1..], tag);
      MarkEventsSpec(session, hs[1..], tag);
    }
  }

  // ------------------------------------------------------------ the calls

  /** `get_login_session`: POST the credentials; a non-200 answer raises and
      leaves the old session in place. */
  function LoginSpec(o: Oracle, st: State): Trans {
    var attempt := st.logins + 1;
    var s := st.(logins := attempt, trace := st.trace + [Login(attempt)]);
    if o.loginStatus(st.logins) == 200 then Trans(s.(session := attempt), Pass)
    else Trans(s, Fail(LoginFailed))
  }

  /** `get_completed_torrents`: GET the completed torrents with the current
      session and filter out those already carrying the done tag. */
  function QuerySpec(o: Oracle, cfg: Config, st: State): (State, Result<seq<Torrent>>) {
    var k := st.queries;
    (st.(queries := k + 1, trace := st.trace + [Query(st.session)]),
     Completed(o.queryStatus(k), Snapshot(st.remote, o.completed(k)), cfg.doneTag))
  }

  /** `mark_torrent_as_done`: POST addTags for one hash; on a 200 answer the
      remote's tag string for that hash gains the done tag. */
  function MarkSpec(o: Oracle, cfg: Config, st: State, hash: string): Trans {
    var s := st.(marks := st.marks + 1, trace := st.trace + [AddTags(st.session, hash, cfg.doneTag)]);
    if o.markStatus(st.marks) == 200 then Trans(s.(remote := Tagged(st.remote, hash, cfg.doneTag)), Pass)
    else Trans(s, Fail(MarkFailed(hash)))
  }

  /** The loop `for torrent in torrents: mark_torrent_as_done(...)`: the
      first failing mark raises and ends it. */
  function MarkAllSpec(o: Oracle, cfg: Config, st: State, hs: seq<string>): Trans
    decreases |hs|
  {
    if hs == [] then Trans(st, Pass)
    else
      var t := MarkSpec(o, cfg, st, hs[0]);
      if t.out.Fail? then t else MarkAllSpec(o, cfg, t.st, hs[1..])
  }

  /** Every one of `n` marks starting at call number `from` is answered 200. */
  ghost predicate MarksSucceed(o: Oracle, from: nat, n: nat) {
    forall k: nat :: from <= k < from + n ==> o.markStatus(k) == 200
  }

  /** The Docker events of one `update_nextcloud_files` call whose lookup
      answers `lookup`. */
  function RescanEvents(cfg: Config, lookup: Lookup): seq<Event> {
    match RescanPath(cfg.user, cfg.relPath)
    case Err(_) => []
    case Ok(path) =>
      [GetContainer(cfg.container)] + (if lookup.Found? then [Exec(cfg.container, Command(path), ExecUser)] else [])
  }

  /** `update_nextcloud_files`: sanitise the path (a ".." raises before any
      container call), look the container up, run `occ files:scan` in it as
      www-data, and raise on a non-zero exit code. */
  function RescanSpec(o: Oracle, cfg: Config, st: State): (t: Trans)
    ensures t.st.trace == st.trace + RescanEvents(cfg, o.lookup(st.rescans))
    ensures t.out.Pass? <==>
      !Contains(cfg.relPath, "..") && o.lookup(st.rescans) == Found(0)
    ensures t.st.(trace := st.trace, rescans := st.rescans) == st
  {
    match RescanPath(cfg.user, cfg.relPath)
    case Err(e) => Trans(st, Fail(e))
    case Ok(path) =>
      var s := st.(rescans := st.rescans + 1, trace := st.trace + [GetContainer(cfg.container)]);
      match o.lookup(st.rescans)
      case NotFound => Trans(s, Fail(ContainerNotFound(cfg.container)))
      case NotAContainer => Trans(s, Fail(ContainerInvalid(cfg.container)))
      case Found(code) =>
        var s2 := s.(trace := s.trace + [Exec(cfg.container, Command(path), ExecUser)]);
        if code != 0 then Trans(s2, Fail(RescanFailed(path))) else Trans(s2, Pass)
  }

  /** One poll: query, mark every returned torrent in order, then rescan once
      if the list was non-empty. */
  function PollSpec(o: Oracle, cfg: Config, st: State): Trans {
    var q := QuerySpec(o, cfg, st);
    if q.1.Err? then Trans(q.0, Fail(q.1.error))
    else MarkThenRescan(o, cfg, q.0, Hashes(q.1.value))
  }

  /** The rest of a poll once the torrents are known: mark each hash in
      order, then (`if torrents:`) rescan once. */
  function MarkThenRescan(o: Oracle, cfg: Config, st: State, hs: seq<string>): Trans {
    var m := MarkAllSpec(o, cfg, st, hs);
    if m.out.Fail? || hs == [] then m else RescanSpec(o, cfg, m.st)
  }

  // ---------------------------------------------------------- the loop body

  /** `if time.time() - session_start > 3300`: log in again and reset the
      session start from a fresh clock reading. */
  function RenewSpec(o: Oracle, st: State): Trans {
    var now := o.clock(st.ticks);
    var s := st.(ticks := st.ticks + 1);
    if now - st.sessionStart > SessionMaxAge then
      var t := LoginSpec(o, s);
      if t.out.Fail? then t
      else Trans(t.st.(sessionStart := o.clock(t.st.ticks), ticks := t.st.ticks + 1), Pass)
    else Trans(s, Pass)
  }

  /** `if time.time() - last_run > 15`: poll, then set `last_run` from a
      fresh clock reading. */
  function PollPhaseSpec(o: Oracle, cfg: Config, st: State): Trans {
    var now := o.clock(st.ticks);
    var s := st.(ticks := st.ticks + 1);
    if now - st.lastRun > PollInterval then
      var t := PollSpec(o, cfg, s);
      if t.out.Fail? then t
      else Trans(t.st.(lastRun := o.clock(t.st.ticks), ticks := t.st.ticks + 1), Pass)
    else Trans(s, Pass)
  }

  /** One iteration of `while RUN_FLAG`, ending with `time.sleep(1)`. */
  function StepSpec(o: Oracle, cfg: Config, st: State): Trans {
    var r := RenewSpec(o, st);
    if r.out.Fail? then r
    else
      var p := PollPhaseSpec(o, cfg, r.st);
      if p.out.Fail? then p else Trans(p.st.(trace := p.st.trace + [Sleep]), Pass)
  }

  /** The loop, with `flags` the successive readings of RUN_FLAG at the top
      of each iteration (the readings after the last are false: the signal
      has arrived). Any exception ends the loop. */
  function LoopSpec(o: Oracle, cfg: Config, st: State, flags: seq<bool>): Trans
    decreases |flags|
  {
    if flags == [] || !flags[0] then Trans(st, Pass)
    else
      var s := StepSpec(o, cfg, st);
      if s.out.Fail? then s else LoopSpec(o, cfg, s.st, flags[1..])
  }

  /** The part of `run_forever` before the loop: `check_env` (the seven
      variable names, then the probe), `session_start = time.time()`,
      `last_run = 0`, and the first login. */
  function StartSpec(o: Oracle, environ: map<string, string>, st: State): Trans {
    var missing := FirstMissing(RequiredVariables, environ);
    if missing.Some? then Trans(st, Fail(MissingVariable(missing.value)))
    else
      var s := st.(trace := st.trace + [Probe]);
      if o.probeStatus != 200 then Trans(s, Fail(ProbeFailed))
      else LoginSpec(o, s.(sessionStart := o.clock(s.ticks), ticks := s.ticks + 1, lastRun := 0.0))
  }

  /** `run_forever` from the initial state. */
  function RunSpec(o: Oracle, environ: map<string, string>, remote: map<string, string>, flags: seq<bool>): Trans {
    var s := StartSpec(o, environ, Initial(remote));
    if s.out.Fail? then s else LoopSpec(o, ConfigOf(environ), s.st, flags)
  }

  /** The number of leading true readings: the iterations the loop starts. */
  function RunLength(flags: seq<bool>): nat {
    if flags == [] || !flags[0] then 0 else 1 + RunLength(flags[1..])
  }
}
