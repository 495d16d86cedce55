/** What `run_forever` promises, proved about the state machine of PollSpec:
    the order and multiplicity of the remote calls in one poll, the strict
    timing thresholds, and that a torrent once tagged is never marked again. */
module PollingProps {
  import opened Failures
  import opened Text
  import opened Torrents
  import opened Rescan
  import opened Polling

  /** Only the mark counter, the trace and the remote may differ. */
  predicate OnlyMarksChanged(a: State, b: State) {
    b == a.(marks := b.marks, trace := b.trace, remote := b.remote)
  }

  /** The remote knows the same hashes and every tag string has only grown. */
  ghost predicate TagsGrow(a: map<string, string>, b: map<string, string>) {
    b.Keys == a.Keys && forall h :: h in a ==> StartsWith(b[h], a[h])
  }

  /** The marking loop: it sends addTags for a prefix of `hs`, in order,
      one request per hash, and stops at the first non-200 answer, raising
      for that hash; when every answer is 200 it has sent one request for
      every hash. Only the mark counter, the trace and the remote change. */
  lemma {:induction false} MarkAllEffect(o: Oracle, cfg: Config, st: State, hs: seq<string>) returns (t: Trans)
    ensures t == MarkAllSpec(o, cfg, st, hs)
    ensures OnlyMarksChanged(st, t.st)
    ensures st.marks <= t.st.marks <= st.marks + |hs|
    ensures t.st.trace == st.trace + MarkEvents(st.session, hs[..t.st.marks - st.marks], cfg.doneTag)
    ensures t.out.Pass? <==> MarksSucceed(o, st.marks, |hs|)
    ensures t.out.Pass? ==> t.st.marks == st.marks + |hs|
    ensures t.out.Fail? ==> t.st.marks > st.marks && t.out.error == MarkFailed(hs[t.st.marks - st.marks - 1])
    ensures t.out.Fail? ==>
      MarksSucceed(o, st.marks, t.st.marks - st.marks - 1) && o.markStatus(t.st.marks - 1) != 200
  {
    t := MarkAllTrace(o, cfg, st, hs);
    var t' := MarkAllFrame(o, cfg, st, hs);
    MarkAllOutcome(o, cfg, st, hs);
    MarkAllStops(o, cfg, st, hs);
  }

  /** The requests of the marking loop: one addTags per hash of a prefix of
      the list, in list order. */
  lemma {:induction false} MarkAllTrace(o: Oracle, cfg: Config, st: State, hs: seq<string>) returns (t: Trans)
    ensures t == MarkAllSpec(o, cfg, st, hs)
    ensures st.marks <= t.st.marks <= st.marks + |hs|
      && t.st.trace == st.trace + MarkEvents(st.session, hs[..t.st.marks - st.marks], cfg.doneTag)
    decreases |hs|
  {
    t := MarkAllSpec(o, cfg, st, hs);
    if hs == [] {
      assert hs[..0] == [];
    } else {
      var m := MarkSpec(o, cfg, st, hs[0]);
      if m.out.Fail? {
        assert hs[..1] == [hs[0]];
      } else {
        var rest := MarkAllTrace(o, cfg, m.st, hs[1..]);
        var n := t.st.marks - st.marks;
        MarkEventsPrefix(st.session, hs, n, cfg.doneTag);
        assert t == rest;
        assert t.st.trace == st.trace + ([AddTags(st.session, hs[0], cfg.doneTag)] + MarkEvents(st.session, hs[1..][..n - 1], cfg.doneTag));
      }
    }
  }

  /** The marking loop changes nothing but marks, trace and remote; it
      marks the whole list when it passes, and otherwise raises naming the
      last hash it sent. */
  lemma {:induction false} MarkAllFrame(o: Oracle, cfg: Config, st: State, hs: seq<string>) returns (t: Trans)
    ensures t == MarkAllSpec(o, cfg, st, hs)
    ensures OnlyMarksChanged(st, t.st)
    ensures t.out.Pass? ==> t.st.marks == st.marks + |hs|
    ensures t.out.Fail? ==> st.marks < t.st.marks <= st.marks + |hs| && t.out.error == MarkFailed(hs[t.st.marks - st.marks - 1])
    decreases |hs|
  {
    t := MarkAllSpec(o, cfg, st, hs);
    if hs != [] {
      var m := MarkSpec(o, cfg, st, hs[0]);
      if m.out.Pass? {
        var rest := MarkAllFrame(o, cfg, m.st, hs[1..]);
        if rest.out.Fail? {
          assert hs[t.st.marks - st.marks - 1] == hs[1..][t.st.marks - m.st.marks - 1];
        }
      }
    }
  }

  /** The marking loop stops at the first non-200 answer: every answer
      before the failing one was 200. There is no per-item isolation. */
  lemma {:induction false} MarkAllStops(o: Oracle, cfg: Config, st: State, hs: seq<string>)
    ensures var t := MarkAllSpec(o, cfg, st, hs);
      t.out.Fail? ==>
        && st.marks < t.st.marks
        && MarksSucceed(o, st.marks, t.st.marks - st.marks - 1)
        && o.markStatus(t.st.marks - 1) != 200
    decreases |hs|
  {
    if hs != [] {
      var m := MarkSpec(o, cfg, st, hs[0]);
      if m.out.Pass? {
        MarkAllStops(o, cfg, m.st, hs[1..]);
        var t := MarkAllSpec(o, cfg, st, hs);
        if t.out.Fail? {
          MarksSucceedCons(o, st.marks, t.st.marks - st.marks - 1);
        }
      }
    }
  }

  /** The marking loop passes exactly when every answer is 200. */
  lemma {:induction false} MarkAllOutcome(o: Oracle, cfg: Config, st: State, hs: seq<string>)
    ensures MarkAllSpec(o, cfg, st, hs).out.Pass? <==> MarksSucceed(o, st.marks, |hs|)
    decreases |hs|
  {
    if hs != [] {
      var m := MarkSpec(o, cfg, st, hs[0]);
      if m.out.Fail? {
        assert !MarksSucceed(o, st.marks, |hs|) by {
          assert st.marks <= st.marks < st.marks + |hs|;
        }
      } else {
        MarkAllOutcome(o, cfg, m.st, hs[1..]);
        MarksSucceedCons(o, st.marks, |hs|);
      }
    }
  }

  /** All of `n > 0` marks succeed iff the first does and the remaining `n - 1` do. */
  lemma MarksSucceedCons(o: Oracle, from: nat, n: nat)
    requires n > 0
    ensures MarksSucceed(o, from, n) <==> o.markStatus(from) == 200 && MarksSucceed(o, from + 1, n - 1)
  {
    if o.markStatus(from) == 200 && MarksSucceed(o, from + 1, n - 1) {
      forall k: nat | from <= k < from + n ensures o.markStatus(k) == 200 {
        if k > from { assert from + 1 <= k < from + 1 + (n - 1); }
      }
    }
  }

  /** What the marking loop does to the remote: tag strings only grow, hashes
      outside `hs` are untouched, and when every mark succeeds every known
      hash of `hs` carries the done tag. */
  lemma {:induction false} MarkAllTags(o: Oracle, cfg: Config, st: State, hs: seq<string>) returns (t: Trans)
    ensures t == MarkAllSpec(o, cfg, st, hs)
    ensures TagsGrow(st.remote, t.st.remote)
    ensures forall h :: h in st.remote && h !in hs ==> t.st.remote[h] == st.remote[h]
    ensures MarksSucceed(o, st.marks, |hs|) ==>
      forall h :: h in hs && h in st.remote ==> Contains(t.st.remote[h], cfg.doneTag)
    decreases |hs|
  {
    t := MarkAllSpec(o, cfg, st, hs);
    if hs != [] {
      var m := MarkSpec(o, cfg, st, hs[0]);
      if m.out.Pass? {
        var rest := MarkAllTags(o, cfg, m.st, hs[1..]);
        MarksSucceedCons(o, st.marks, |hs|);
        forall h | h in st.remote ensures StartsWith(t.st.remote[h], st.remote[h]) {
          assert StartsWith(m.st.remote[h], st.remote[h]);
        }
        if MarksSucceed(o, st.marks, |hs|) {
          forall h | h in hs && h in st.remote ensures Contains(t.st.remote[h], cfg.doneTag) {
            if h == hs[0] {
              assert Contains(m.st.remote[h], cfg.doneTag);
              ContainsGrow(m.st.remote[h], t.st.remote[h], cfg.doneTag);
            } else {
              assert h in hs[1..];
            }
          }
        }
      }
    }
  }

  /** A hash the remote already tags with the done tag is not pending. */
  lemma TaggedNotPending(remote: map<string, string>, completed: seq<string>, tag: string, h: string)
    requires h in remote && Contains(remote[h], tag)
    ensures h !in Pending(remote, completed, tag)
  {
    PendingMembers(remote, completed, tag);
  }

  /** The hashes the next poll of `st` would mark. */
  function PendingAt(o: Oracle, cfg: Config, st: State): seq<string> {
    Pending(st.remote, o.completed(st.queries), cfg.doneTag)
  }

  /** A 200 query returns the filtered snapshot, and its hashes are the pending ones. */
  lemma QueryPending(o: Oracle, cfg: Config, st: State)
    requires o.queryStatus(st.queries) == 200
    ensures QuerySpec(o, cfg, st).1 == Ok(Untracked(Snapshot(st.remote, o.completed(st.queries)), cfg.doneTag))
    ensures Hashes(QuerySpec(o, cfg, st).1.value) == PendingAt(o, cfg, st)
  {
    PendingFiltered(st.remote, o.completed(st.queries), cfg.doneTag);
  }

  /** After the query: the marks, then the rescan only if every mark
      succeeded and there was something to mark. */
  lemma MarkThenRescanEffect(o: Oracle, cfg: Config, st: State, hs: seq<string>) returns (t: Trans)
    ensures t == MarkThenRescan(o, cfg, st, hs)
    ensures st.marks <= t.st.marks <= st.marks + |hs|
    ensures t.st.(marks := st.marks, rescans := st.rescans, trace := st.trace, remote := st.remote) == st
    ensures t.st.trace == st.trace + MarkEvents(st.session, hs[..t.st.marks - st.marks], cfg.doneTag)
      + (if MarksSucceed(o, st.marks, |hs|) && hs != [] then RescanEvents(cfg, o.lookup(st.rescans)) else [])
    ensures t.out.Pass? <==>
      MarksSucceed(o, st.marks, |hs|) && (hs == [] || (!Contains(cfg.relPath, "..") && o.lookup(st.rescans) == Found(0)))
    ensures MarksSucceed(o, st.marks, |hs|) ==> t.st.marks == st.marks + |hs|
    ensures TagsGrow(st.remote, t.st.remote)
    ensures MarksSucceed(o, st.marks, |hs|) ==>
      forall h :: h in hs && h in st.remote ==> Contains(t.st.remote[h], cfg.doneTag)
  {
    t := MarkThenRescanSteps(o, cfg, st, hs);
    MarkThenRescanTags(o, cfg, st, hs);
  }

  /** The requests and outcome of the marks followed by the rescan. */
  lemma MarkThenRescanSteps(o: Oracle, cfg: Config, st: State, hs: seq<string>) returns (t: Trans)
    ensures t == MarkThenRescan(o, cfg, st, hs)
    ensures st.marks <= t.st.marks <= st.marks + |hs|
    ensures t.st.(marks := st.marks, rescans := st.rescans, trace := st.trace, remote := st.remote) == st
    ensures t.st.trace == st.trace + MarkEvents(st.session, hs[..t.st.marks - st.marks], cfg.doneTag)
      + (if MarksSucceed(o, st.marks, |hs|) && hs != [] then RescanEvents(cfg, o.lookup(st.rescans)) else [])
    ensures t.out.Pass? <==>
      MarksSucceed(o, st.marks, |hs|) && (hs == [] || (!Contains(cfg.relPath, "..") && o.lookup(st.rescans) == Found(0)))
    ensures MarksSucceed(o, st.marks, |hs|) ==> t.st.marks == st.marks + |hs|
  {
    var m := MarkAllTrace(o, cfg, st, hs);
    var m' := MarkAllFrame(o, cfg, st, hs);
    MarkAllOutcome(o, cfg, st, hs);
    if m.out.Fail? || hs == [] {
      t := m;
      assert hs == [] ==> m.out.Pass?;
    } else {
      t := RescanSpec(o, cfg, m.st);
    }
  }

  /** The marks followed by the rescan only extend tag strings, and tag
      every listed known hash when all marks succeed. */
  lemma MarkThenRescanTags(o: Oracle, cfg: Config, st: State, hs: seq<string>)
    ensures TagsGrow(st.remote, MarkThenRescan(o, cfg, st, hs).st.remote)
    ensures MarksSucceed(o, st.marks, |hs|) ==>
      forall h :: h in hs && h in st.remote ==> Contains(MarkThenRescan(o, cfg, st, hs).st.remote[h], cfg.doneTag)
  {
    var m := MarkAllTags(o, cfg, st, hs);
    MarkAllOutcome(o, cfg, st, hs);
    if m.out.Pass? && hs != [] {
      assert MarkThenRescan(o, cfg, st, hs).st.remote == m.st.remote;
    }
  }

  /** One poll. A non-200 answer to the query raises and nothing else is
      sent. Otherwise the trace gains the query, then one addTags per
      pending hash in list order (a prefix of them if a mark fails), then,
      only if every mark succeeded and the list was non-empty, the single
      container lookup and `occ files:scan` exec (see PollAdded). The poll
      passes exactly when the query, every mark and the rescan succeed. */
  lemma PollEffect(o: Oracle, cfg: Config, st: State) returns (t: Trans)
    ensures t == PollSpec(o, cfg, st)
    ensures t.st.queries == st.queries + 1
    ensures st.marks <= t.st.marks <= st.marks + |PendingAt(o, cfg, st)|
    ensures t.st.(queries := st.queries, marks := st.marks, rescans := st.rescans,
                  trace := st.trace, remote := st.remote) == st
    ensures o.queryStatus(st.queries) != 200 ==>
      t == Trans(st.(queries := st.queries + 1, trace := st.trace + [Query(st.session)]), Fail(QueryFailed))
    ensures o.queryStatus(st.queries) != 200 ==> t.st.marks == st.marks
    ensures t.st.trace == st.trace + PollAdded(o, cfg, st, t.st.marks - st.marks)
    ensures t.out.Pass? <==>
      o.queryStatus(st.queries) == 200 && MarksSucceed(o, st.marks, |PendingAt(o, cfg, st)|) &&
      (PendingAt(o, cfg, st) == [] || (!Contains(cfg.relPath, "..") && o.lookup(st.rescans) == Found(0)))
    ensures t.out.Pass? ==> t.st.marks == st.marks + |PendingAt(o, cfg, st)|
  {
    if o.queryStatus(st.queries) == 200 {
      t := PollQueried(o, cfg, st);
    } else {
      t := PollFailed(o, cfg, st);
    }
  }

  /** A poll whose query is not answered 200 sends nothing after it. */
  lemma PollFailed(o: Oracle, cfg: Config, st: State) returns (t: Trans)
    requires o.queryStatus(st.queries) != 200
    ensures t == PollSpec(o, cfg, st)
    ensures t == Trans(st.(queries := st.queries + 1, trace := st.trace + [Query(st.session)]), Fail(QueryFailed))
    ensures t.st.trace == st.trace + PollAdded(o, cfg, st, t.st.marks - st.marks)
  {
    t := Trans(st.(queries := st.queries + 1, trace := st.trace + [Query(st.session)]), Fail(QueryFailed));
    assert PollAdded(o, cfg, st, 0) == [Query(st.session)];
  }

  /** A poll whose query is answered 200: the marks and the rescan, run on
      the pending hashes. */
  lemma PollQueried(o: Oracle, cfg: Config, st: State) returns (t: Trans)
    requires o.queryStatus(st.queries) == 200
    ensures t == PollSpec(o, cfg, st)
    ensures t.st.queries == st.queries + 1
    ensures st.marks <= t.st.marks <= st.marks + |PendingAt(o, cfg, st)|
    ensures t.st.(queries := st.queries, marks := st.marks, rescans := st.rescans,
                  trace := st.trace, remote := st.remote) == st
    ensures t.st.trace == st.trace + PollAdded(o, cfg, st, t.st.marks - st.marks)
    ensures t.out.Pass? <==>
      MarksSucceed(o, st.marks, |PendingAt(o, cfg, st)|) &&
      (PendingAt(o, cfg, st) == [] || (!Contains(cfg.relPath, "..") && o.lookup(st.rescans) == Found(0)))
    ensures t.out.Pass? ==> t.st.marks == st.marks + |PendingAt(o, cfg, st)|
  {
    var q := QuerySpec(o, cfg, st);
    var hs := PendingAt(o, cfg, st);
    QueryPending(o, cfg, st);
    t := MarkThenRescanEffect(o, cfg, q.0, hs);
    var marks := MarkEvents(st.session, hs[..t.st.marks - st.marks], cfg.doneTag);
    var rescan := if MarksSucceed(o, st.marks, |hs|) && hs != [] then RescanEvents(cfg, o.lookup(st.rescans)) else [];
    assert t.st.trace == (st.trace + [Query(st.session)]) + marks + rescan;
    assert PollAdded(o, cfg, st, t.st.marks - st.marks) == [Query(st.session)] + marks + rescan;
    SeqAssoc3(st.trace, [Query(st.session)], marks, rescan);
  }


  /** What a poll leaves alone, and its first request: the query, with
      the current session. */
  lemma PollFrame(o: Oracle, cfg: Config, st: State) returns (t: Trans)
    ensures t == PollSpec(o, cfg, st)
    ensures t.st.queries == st.queries + 1
    ensures t.st.(queries := st.queries, marks := st.marks, rescans := st.rescans,
                  trace := st.trace, remote := st.remote) == st
    ensures st.trace + [Query(st.session)] <= t.st.trace
  {
    t := PollEffect(o, cfg, st);
    var added := PollAdded(o, cfg, st, t.st.marks - st.marks);
    assert added[..1] == [Query(st.session)];
    assert t.st.trace[..|st.trace| + 1] == st.trace + added[..1];
  }

  /** Regrouping four concatenated traces. */
  lemma SeqAssoc3(a: seq<Event>, b: seq<Event>, c: seq<Event>, d: seq<Event>)
    ensures a + b + c + d == a + (b + c + d)
  {
  }

  /** A request other than addTags or a sleep adds no mark and no sleep. */
  lemma EventQuiet(e: Event)
    requires !e.AddTags? && !e.Sleep?
    ensures Marked([e]) == [] && Sleeps([e]) == 0
  {
    assert [e][1..] == [];
  }

  /** The only command the rescan ever runs is `occ files:scan --path` on
      the user's files directory joined with the relative path stripped of
      its leading slashes; that relative part holds no "..", so the scan
      stays inside the user's files. */
  lemma RescanExecConfined(cfg: Config, lookup: Lookup)
    ensures forall e :: e in RescanEvents(cfg, lookup) && e.Exec? ==>
      && !Contains(cfg.relPath, "..")
      && e == Exec(cfg.container, [OccPath, "files:scan", "--path", FilesDir(cfg.user) + "/" + StripSlashes(cfg.relPath)], ExecUser)
      && !Contains(StripSlashes(cfg.relPath), "..")
      && !StartsWith(StripSlashes(cfg.relPath), "/")
  {
    if !Contains(cfg.relPath, "..") {
      RescanPathUnderFiles(cfg.user, cfg.relPath);
      StripSlashesSpec(cfg.relPath);
    }
  }

  lemma RescanEventsQuiet(cfg: Config, lookup: Lookup)
    ensures Marked(RescanEvents(cfg, lookup)) == [] && Sleeps(RescanEvents(cfg, lookup)) == 0
  {
    match RescanPath(cfg.user, cfg.relPath)
    case Err(_) =>
    case Ok(path) =>
      EventQuiet(GetContainer(cfg.container));
      if lookup.Found? {
        EventQuiet(Exec(cfg.container, Command(path), ExecUser));
        TraceAppend([GetContainer(cfg.container)], [Exec(cfg.container, Command(path), ExecUser)]);
      } else {
        assert RescanEvents(cfg, lookup) == [GetContainer(cfg.container)];
      }
  }

  /** The remote after one poll: tag strings only grow, and when the query
      and every mark succeed each pending hash carries the done tag. */
  lemma PollTags(o: Oracle, cfg: Config, st: State) returns (t: Trans)
    ensures t == PollSpec(o, cfg, st)
    ensures TagsGrow(st.remote, t.st.remote)
    ensures o.queryStatus(st.queries) == 200 && MarksSucceed(o, st.marks, |PendingAt(o, cfg, st)|) ==>
      forall h :: h in PendingAt(o, cfg, st) ==> h in t.st.remote && Contains(t.st.remote[h], cfg.doneTag)
  {
    var q := QuerySpec(o, cfg, st);
    if o.queryStatus(st.queries) == 200 {
      QueryPending(o, cfg, st);
      t := MarkThenRescanEffect(o, cfg, q.0, PendingAt(o, cfg, st));
      PendingMembers(st.remote, o.completed(st.queries), cfg.doneTag);
    } else {
      t := Trans(q.0, Fail(QueryFailed));
    }
  }

  /** The requests one poll adds to the trace when `n` marks were sent. */
  ghost function PollAdded(o: Oracle, cfg: Config, st: State, n: nat): seq<Event>
    requires n <= |PendingAt(o, cfg, st)|
  {
    var hs := PendingAt(o, cfg, st);
    var rescan := if MarksSucceed(o, st.marks, |hs|) && hs != [] then RescanEvents(cfg, o.lookup(st.rescans)) else [];
    if o.queryStatus(st.queries) != 200 then [Query(st.session)]
    else [Query(st.session)] + MarkEvents(st.session, hs[..n], cfg.doneTag) + rescan
  }

  /** The addTags requests of one poll are the first `n` pending hashes;
      a poll records no Sleep. */
  lemma PollAddedMarks(o: Oracle, cfg: Config, st: State, n: nat)
    requires n <= |PendingAt(o, cfg, st)|
    requires o.queryStatus(st.queries) != 200 ==> n == 0
    ensures Marked(PollAdded(o, cfg, st, n)) == PendingAt(o, cfg, st)[..n]
    ensures Sleeps(PollAdded(o, cfg, st, n)) == 0
  {
    var hs := PendingAt(o, cfg, st);
    EventQuiet(Query(st.session));
    if o.queryStatus(st.queries) != 200 {
      assert PollAdded(o, cfg, st, n) == [Query(st.session)] + [];
      assert hs[..0] == [];
    } else {
      var tail := if MarksSucceed(o, st.marks, |hs|) && hs != [] then RescanEvents(cfg, o.lookup(st.rescans)) else [];
      var marks := MarkEvents(st.session, hs[..n], cfg.doneTag);
      RescanEventsQuiet(cfg, o.lookup(st.rescans));
      MarkEventsSpec(st.session, hs[..n], cfg.doneTag);
      assert PollAdded(o, cfg, st, n) == [Query(st.session)] + marks + tail;
      TraceAppend([Query(st.session)], marks);
      TraceAppend([Query(st.session)] + marks, tail);
    }
  }

  /** The addTags requests of one poll are a prefix of its pending hashes
      (all of them when every mark succeeds), and a poll adds no Sleep. */
  lemma PollMarks(o: Oracle, cfg: Config, st: State) returns (t: Trans)
    ensures t == PollSpec(o, cfg, st)
    ensures |st.trace| <= |t.st.trace| && t.st.trace == st.trace + t.st.trace[|st.trace|..]
    ensures st.marks <= t.st.marks <= st.marks + |PendingAt(o, cfg, st)|
    ensures Marked(t.st.trace[|st.trace|..]) == PendingAt(o, cfg, st)[..t.st.marks - st.marks]
    ensures Sleeps(t.st.trace[|st.trace|..]) == 0
  {
    t := PollEffect(o, cfg, st);
    var n := t.st.marks - st.marks;
    assert t.st.trace[|st.trace|..] == PollAdded(o, cfg, st, n);
    PollAddedMarks(o, cfg, st, n);
  }

  /** A poll never marks a torrent whose tag string already holds the done tag. */
  lemma PollSkipsTagged(o: Oracle, cfg: Config, st: State, h: string) returns (t: Trans)
    requires h in st.remote && Contains(st.remote[h], cfg.doneTag)
    ensures t == PollSpec(o, cfg, st)
    ensures |st.trace| <= |t.st.trace| && h !in Marked(t.st.trace[|st.trace|..])
  {
    t := PollMarks(o, cfg, st);
    TaggedNotPending(st.remote, o.completed(st.queries), cfg.doneTag, h);
  }
}
