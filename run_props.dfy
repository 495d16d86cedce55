/** What the whole of `run_forever` promises: the loop ends only when the
    run flag reads false or an exception escapes, every exception it lets
    out comes from a login, query, mark or rescan, no torrent is ever
    marked twice, and a torrent already carrying the done tag is never
    marked at all. */
module RunProps {
  import opened Failures
  import opened Text
  import opened Torrents
  import opened Polling
  import opened PollingProps
  import opened LoopProps

  /** The requests a transition from `a` to `b` added to the trace. */
  ghost function Added(a: State, b: State): seq<Event>
    requires a.trace <= b.trace
  {
    b.trace[|a.trace|..]
  }

  lemma AddedSplit(a: State, b: State, c: State)
    requires a.trace <= b.trace <= c.trace
    ensures a.trace <= c.trace
    ensures Added(a, c) == Added(a, b) + Added(b, c)
    ensures Marked(Added(a, c)) == Marked(Added(a, b)) + Marked(Added(b, c))
    ensures Sleeps(Added(a, c)) == Sleeps(Added(a, b)) + Sleeps(Added(b, c))
  {
    TraceAppend(Added(a, b), Added(b, c));
  }

  lemma AddedWhole(a: State, b: State)
    requires a.trace <= b.trace
    ensures Marked(b.trace) == Marked(a.trace) + Marked(Added(a, b))
    ensures Sleeps(b.trace) == Sleeps(a.trace) + Sleeps(Added(a, b))
  {
    assert b.trace == a.trace + Added(a, b);
    TraceAppend(a.trace, Added(a, b));
  }

  /** The facts about one transition that the run-wide properties rest on:
      the trace only grows, tag strings only grow, every hash it marks was
      known to the remote and lacked the done tag beforehand, and when the
      transition passes every hash it marked now carries the tag. */
  ghost predicate Fresh(a: State, b: State, tag: string, pass: bool) {
    && a.trace <= b.trace
    && TagsGrow(a.remote, b.remote)
    && (forall h :: h in Marked(Added(a, b)) ==> h in a.remote && !Contains(a.remote[h], tag))
    && (pass ==> forall h :: h in Marked(Added(a, b)) ==> Contains(b.remote[h], tag))
  }

  /** Fresh depends only on the traces and the remotes of its two states. */
  lemma FreshTransfer(a: State, b: State, a': State, b': State, tag: string, pass: bool)
    requires Fresh(a, b, tag, pass)
    requires a'.trace == a.trace && a'.remote == a.remote && b'.trace == b.trace && b'.remote == b.remote
    ensures Fresh(a', b', tag, pass) && Added(a', b') == Added(a, b)
  {
  }

  /** A transition that leaves the trace and the remote alone satisfies Fresh. */
  lemma FreshQuiet(a: State, b: State, tag: string, pass: bool)
    requires b.trace == a.trace && b.remote == a.remote
    ensures Fresh(a, b, tag, pass) && Added(a, b) == []
  {
  }

  /** One poll satisfies Fresh; it marks no hash twice when the listing has
      no duplicate, and it adds no Sleep. */
  lemma PollFresh(o: Oracle, cfg: Config, st: State) returns (t: Trans)
    ensures t == PollSpec(o, cfg, st)
    ensures Fresh(st, t.st, cfg.doneTag, t.out.Pass?)
    ensures Sleeps(Added(st, t.st)) == 0
    ensures Distinct(o.completed(st.queries)) ==> Distinct(Marked(Added(st, t.st)))
  {
    t := PollMarks(o, cfg, st);
    var t' := PollTags(o, cfg, st);
    var t'' := PollEffect(o, cfg, st);
    var hs := PendingAt(o, cfg, st);
    var n := t.st.marks - st.marks;
    assert st.trace <= t.st.trace;
    PendingMembers(st.remote, o.completed(st.queries), cfg.doneTag);
    if Distinct(o.completed(st.queries)) {
      PendingDistinct(st.remote, o.completed(st.queries), cfg.doneTag);
    }
    assert Marked(Added(st, t.st)) == hs[..n];
    forall h | h in hs[..n] ensures h in hs { }
    if t.out.Pass? {
      assert hs[..n] == hs;
    }
  }

  /** The poll half of an iteration satisfies Fresh and adds no Sleep. */
  lemma PollPhaseFresh(o: Oracle, cfg: Config, st: State) returns (t: Trans)
    ensures t == PollPhaseSpec(o, cfg, st)
    ensures Fresh(st, t.st, cfg.doneTag, t.out.Pass?)
    ensures Sleeps(Added(st, t.st)) == 0
    ensures Distinct(o.completed(st.queries)) ==> Distinct(Marked(Added(st, t.st)))
  {
    var s := st.(ticks := st.ticks + 1);
    var p;
    p, t := PollPhaseShape(o, cfg, st);
    if o.clock(st.ticks) - st.lastRun > PollInterval {
      var p' := PollFresh(o, cfg, s);
      FreshTransfer(s, p.st, st, t.st, cfg.doneTag, t.out.Pass?);
    } else {
      FreshQuiet(st, t.st, cfg.doneTag, true);
    }
  }

  /** A quiet transition (the remote untouched, no addTags, no Sleep)
      followed by a Fresh one is Fresh, with the same marks. */
  lemma FreshAfterQuiet(a: State, b: State, c: State, tag: string, pass: bool)
    requires a.trace <= b.trace && b.remote == a.remote
    requires Marked(Added(a, b)) == [] && Sleeps(Added(a, b)) == 0
    requires Fresh(b, c, tag, pass)
    ensures Fresh(a, c, tag, pass)
    ensures Marked(Added(a, c)) == Marked(Added(b, c)) && Sleeps(Added(a, c)) == Sleeps(Added(b, c))
  {
    AddedSplit(a, b, c);
  }

  /** `time.sleep(1)` at the end of an iteration keeps Fresh and records one Sleep. */
  lemma FreshThenSleep(a: State, b: State, c: State, tag: string, pass: bool)
    requires Fresh(a, b, tag, pass)
    requires c == b.(trace := b.trace + [Sleep])
    ensures Fresh(a, c, tag, pass)
    ensures Marked(Added(a, c)) == Marked(Added(a, b)) && Sleeps(Added(a, c)) == Sleeps(Added(a, b)) + 1
  {
    assert Added(b, c) == [Sleep];
    assert [Sleep][1..] == [];
    AddedSplit(a, b, c);
  }

  /** The renewal half neither marks nor sleeps and leaves the remote alone. */
  lemma RenewQuiet(o: Oracle, st: State) returns (r: Trans)
    ensures r == RenewSpec(o, st)
    ensures st.trace <= r.st.trace && r.st.remote == st.remote && r.st.queries == st.queries
    ensures Marked(Added(st, r.st)) == [] && Sleeps(Added(st, r.st)) == 0
  {
    r := RenewEffect(o, st);
    EventQuiet(Login(st.logins + 1));
    assert Added(st, r.st) == [] || Added(st, r.st) == [Login(st.logins + 1)];
  }

  /** One iteration satisfies Fresh and records exactly one Sleep when it
      passes, none when it raises. */
  lemma StepFresh(o: Oracle, cfg: Config, st: State) returns (t: Trans)
    ensures t == StepSpec(o, cfg, st)
    ensures Fresh(st, t.st, cfg.doneTag, t.out.Pass?)
    ensures Sleeps(Added(st, t.st)) == if t.out.Pass? then 1 else 0
    ensures Distinct(o.completed(st.queries)) ==> Distinct(Marked(Added(st, t.st)))
  {
    var r, p;
    r, p, t := StepParts(o, cfg, st);
    var r' := RenewQuiet(o, st);
    if r.out.Fail? {
      FreshQuiet(r.st, r.st, cfg.doneTag, false);
      FreshAfterQuiet(st, r.st, r.st, cfg.doneTag, false);
    } else {
      var p' := PollPhaseFresh(o, cfg, r.st);
      FreshAfterQuiet(st, r.st, p.st, cfg.doneTag, p.out.Pass?);
      if p.out.Pass? {
        FreshThenSleep(st, p.st, t.st, cfg.doneTag, true);
      }
    }
  }

  /** The exceptions the loop body can raise: a failed login, a failed
      query, a failed mark, or a failed rescan. */
  predicate LoopError(cfg: Config, e: Error) {
    || e == LoginFailed
    || e == QueryFailed
    || e.MarkFailed?
    || e == RelativePath
    || e == ContainerNotFound(cfg.container)
    || e == ContainerInvalid(cfg.container)
    || e.RescanFailed?
  }

  lemma RescanRaises(o: Oracle, cfg: Config, st: State)
    ensures RescanSpec(o, cfg, st).out.Fail? ==> LoopError(cfg, RescanSpec(o, cfg, st).out.error)
  {
  }

  /** Every exception of one poll comes from the query, a mark or the rescan. */
  lemma PollRaises(o: Oracle, cfg: Config, st: State)
    ensures PollSpec(o, cfg, st).out.Fail? ==> LoopError(cfg, PollSpec(o, cfg, st).out.error)
  {
    var q := QuerySpec(o, cfg, st);
    if q.1.Ok? {
      var hs := Hashes(q.1.value);
      var m := MarkAllEffect(o, cfg, q.0, hs);
      if m.out.Pass? && hs != [] {
        RescanRaises(o, cfg, m.st);
      }
    }
  }

  lemma PollPhaseRaises(o: Oracle, cfg: Config, st: State) returns (t: Trans)
    ensures t == PollPhaseSpec(o, cfg, st)
    ensures t.out.Fail? ==> LoopError(cfg, t.out.error)
  {
    var p;
    p, t := PollPhaseShape(o, cfg, st);
    PollRaises(o, cfg, st.(ticks := st.ticks + 1));
  }

  /** Every exception of one iteration comes from a login, the query, a
      mark or the rescan. */
  lemma StepRaises(o: Oracle, cfg: Config, st: State) returns (t: Trans)
    ensures t == StepSpec(o, cfg, st)
    ensures t.out.Fail? ==> LoopError(cfg, t.out.error)
  {
    t := StepSpec(o, cfg, st);
    var r := RenewSpec(o, st);
    assert r.out.Fail? ==> r.out.error == LoginFailed;
    if r.out.Pass? {
      var p := PollPhaseRaises(o, cfg, r.st);
    }
  }

  /** `while RUN_FLAG` runs an iteration for every leading true reading of
      the flag unless an exception escapes first: when the loop returns
      normally it has completed exactly RunLength(flags) iterations, and
      when it raises it has completed fewer, and the exception is one of the
      loop body's. */
  lemma {:induction false} LoopLength(o: Oracle, cfg: Config, st: State, flags: seq<bool>) returns (t: Trans)
    ensures t == LoopSpec(o, cfg, st, flags)
    ensures st.trace <= t.st.trace
    ensures t.out.Pass? ==> Sleeps(Added(st, t.st)) == RunLength(flags)
    ensures t.out.Fail? ==> Sleeps(Added(st, t.st)) < RunLength(flags) && LoopError(cfg, t.out.error)
    decreases |flags|
  {
    t := LoopSpec(o, cfg, st, flags);
    if flags == [] || !flags[0] {
      assert Added(st, t.st) == [];
    } else {
      var s := StepFresh(o, cfg, st);
      var s' := StepRaises(o, cfg, st);
      if s.out.Pass? {
        var rest := LoopLength(o, cfg, s.st, flags[1..]);
        AddedSplit(st, s.st, t.st);
      }
    }
  }

  /** Joining two duplicate-free lists with no common element keeps it duplicate-free. */
  lemma DistinctConcat(a: seq<string>, b: seq<string>)
    requires Distinct(a) && Distinct(b)
    requires forall x :: x in a ==> x !in b
    ensures Distinct(a + b)
  {
    forall i, j | 0 <= i < j < |a + b| ensures (a + b)[i] != (a + b)[j] {
      if j < |a| {
        assert (a + b)[i] == a[i] && (a + b)[j] == a[j];
      } else if i >= |a| {
        assert (a + b)[i] == b[i - |a|] && (a + b)[j] == b[j - |a|];
      } else {
        assert (a + b)[i] in a && (a + b)[j] in b;
      }
    }
  }

  /** Every hash marked so far was marked once, and the remote now holds
      the done tag in its tag string. */
  ghost predicate Recorded(st: State, tag: string) {
    && Distinct(Marked(st.trace))
    && forall h :: h in Marked(st.trace) ==> h in st.remote && Contains(st.remote[h], tag)
  }

  /** An iteration never marks a hash marked before; if it passes, Recorded
      holds again afterwards. */
  lemma StepKeeps(o: Oracle, cfg: Config, st: State) returns (t: Trans)
    requires Distinct(o.completed(st.queries))
    requires Recorded(st, cfg.doneTag)
    ensures t == StepSpec(o, cfg, st)
    ensures Distinct(Marked(t.st.trace))
    ensures t.out.Pass? ==> Recorded(t.st, cfg.doneTag)
  {
    t := StepFresh(o, cfg, st);
    AddedWhole(st, t.st);
    var before := Marked(st.trace);
    var after := Marked(Added(st, t.st));
    DistinctConcat(before, after);
    if t.out.Pass? {
      forall h | h in Marked(t.st.trace) ensures h in t.st.remote && Contains(t.st.remote[h], cfg.doneTag) {
        if h in before {
          ContainsGrow(st.remote[h], t.st.remote[h], cfg.doneTag);
        }
      }
    }
  }

  /** Over the whole loop no hash is marked twice, provided no listing holds
      a hash twice. */
  lemma {:induction false} LoopMarksOnce(o: Oracle, cfg: Config, st: State, flags: seq<bool>) returns (t: Trans)
    requires forall k: nat :: Distinct(o.completed(k))
    requires Recorded(st, cfg.doneTag)
    ensures t == LoopSpec(o, cfg, st, flags)
    ensures Distinct(Marked(t.st.trace))
    ensures t.out.Pass? ==> Recorded(t.st, cfg.doneTag)
    decreases |flags|
  {
    t := LoopSpec(o, cfg, st, flags);
    if flags != [] && flags[0] {
      var s := StepKeeps(o, cfg, st);
      if s.out.Pass? {
        var rest := LoopMarksOnce(o, cfg, s.st, flags[1..]);
      }
    }
  }

  /** The hash is known, carries the done tag and has never been marked. */
  ghost predicate Untouched(st: State, h: string, tag: string) {
    h in st.remote && Contains(st.remote[h], tag) && h !in Marked(st.trace)
  }

  /** An iteration leaves a tagged, unmarked hash tagged and unmarked,
      whether it passes or raises. */
  lemma StepSkipsTagged(o: Oracle, cfg: Config, st: State, h: string) returns (t: Trans)
    requires Untouched(st, h, cfg.doneTag)
    ensures t == StepSpec(o, cfg, st)
    ensures Untouched(t.st, h, cfg.doneTag)
  {
    t := StepFresh(o, cfg, st);
    AddedWhole(st, t.st);
    ContainsGrow(st.remote[h], t.st.remote[h], cfg.doneTag);
  }

  lemma {:induction false} LoopSkipsTagged(o: Oracle, cfg: Config, st: State, flags: seq<bool>, h: string)
    returns (t: Trans)
    requires Untouched(st, h, cfg.doneTag)
    ensures t == LoopSpec(o, cfg, st, flags)
    ensures Untouched(t.st, h, cfg.doneTag)
    decreases |flags|
  {
    t := LoopSpec(o, cfg, st, flags);
    if flags != [] && flags[0] {
      var s := StepSkipsTagged(o, cfg, st, h);
      if s.out.Pass? {
        var rest := LoopSkipsTagged(o, cfg, s.st, flags[1..], h);
      }
    }
  }

  // ------------------------------------------------------------ the run

  /** The start of `run_forever` sends at most the probe and one login,
      marks nothing, leaves the remote alone, and raises only for a missing
      variable, a failed probe or a failed login. */
  lemma StartEffect(o: Oracle, environ: map<string, string>, remote: map<string, string>) returns (t: Trans)
    ensures t == StartSpec(o, environ, Initial(remote))
    ensures t.st.remote == remote && t.st.queries == 0
    ensures Marked(t.st.trace) == [] && Sleeps(t.st.trace) == 0
    ensures t.out.Pass? ==> t.st.lastRun == 0.0 && t.st.session == 1
    ensures t.out.Fail? ==> t.out.error.MissingVariable? || t.out.error == ProbeFailed || t.out.error == LoginFailed
    ensures t.st.trace == [] || t.st.trace == [Probe] || t.st.trace == [Probe, Login(1)]
    ensures t.out.Fail? && t.out.error.MissingVariable? ==> t.st.trace == []
    ensures t.out.Pass? ==> t.st.trace == [Probe, Login(1)]
  {
    t := StartSpec(o, environ, Initial(remote));
    EventQuiet(Probe);
    EventQuiet(Login(1));
    TraceAppend([Probe], [Login(1)]);
    assert t.st.trace == [] || t.st.trace == [Probe] || t.st.trace == [Probe] + [Login(1)];
  }

  /** `run_forever` returns normally only after the flag has read false,
      having completed one iteration per leading true reading; when it
      raises after a successful start, it has completed fewer iterations
      and the exception comes from the loop body. */
  lemma RunLengthSpec(o: Oracle, environ: map<string, string>, remote: map<string, string>, flags: seq<bool>)
    returns (t: Trans)
    ensures t == RunSpec(o, environ, remote, flags)
    ensures t.out.Pass? ==> Sleeps(t.st.trace) == RunLength(flags)
    ensures t.out.Fail? && StartSpec(o, environ, Initial(remote)).out.Pass? ==>
      Sleeps(t.st.trace) < RunLength(flags) && LoopError(ConfigOf(environ), t.out.error)
    ensures t.out.Fail? && StartSpec(o, environ, Initial(remote)).out.Fail? ==>
      t == StartSpec(o, environ, Initial(remote)) && Sleeps(t.st.trace) == 0
  {
    var s := StartEffect(o, environ, remote);
    t := RunSpec(o, environ, remote, flags);
    if s.out.Pass? {
      var l := LoopLength(o, ConfigOf(environ), s.st, flags);
      AddedWhole(s.st, l.st);
    }
  }

  /** No torrent is marked twice over a whole run, provided the API never
      lists a hash twice in one answer. */
  lemma RunMarksEachTorrentOnce(o: Oracle, environ: map<string, string>, remote: map<string, string>, flags: seq<bool>)
    returns (t: Trans)
    requires forall k: nat :: Distinct(o.completed(k))
    ensures t == RunSpec(o, environ, remote, flags)
    ensures Distinct(Marked(t.st.trace))
  {
    var s := StartEffect(o, environ, remote);
    t := RunSpec(o, environ, remote, flags);
    if s.out.Pass? {
      var l := LoopMarksOnce(o, ConfigOf(environ), s.st, flags);
    }
  }

  /** A torrent whose tag string already holds the done tag when the run
      begins is never marked by it. */
  lemma RunSkipsTagged(o: Oracle, environ: map<string, string>, remote: map<string, string>, flags: seq<bool>, h: string)
    returns (t: Trans)
    requires h in remote && Contains(remote[h], ConfigOf(environ).doneTag)
    ensures t == RunSpec(o, environ, remote, flags)
    ensures h !in Marked(t.st.trace)
  {
    var s := StartEffect(o, environ, remote);
    t := RunSpec(o, environ, remote, flags);
    if s.out.Pass? {
      var l := LoopSkipsTagged(o, ConfigOf(environ), s.st, flags, h);
    }
  }

  /** Because `last_run` starts at 0, the first iteration polls: once the
      start and the first renewal check have passed, it sends exactly one
      query, provided the clock never runs backwards and its first reading
      is later than 15 s after the epoch. */
  lemma FirstIterationPolls(o: Oracle, environ: map<string, string>, remote: map<string, string>)
    requires Monotone(o.clock) && o.clock(0) > PollInterval
    requires StartSpec(o, environ, Initial(remote)).out.Pass?
    requires RenewSpec(o, StartSpec(o, environ, Initial(remote)).st).out.Pass?
    ensures StepSpec(o, ConfigOf(environ), StartSpec(o, environ, Initial(remote)).st).st.queries == 1
  {
    var s := StartEffect(o, environ, remote);
    var r := RenewEffect(o, s.st);
    var t := StepPoll(o, ConfigOf(environ), s.st);
    assert o.clock(0) <= o.clock(r.st.ticks);
  }
}
