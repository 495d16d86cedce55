/** What one iteration of `while RUN_FLAG` and the whole loop promise:
    strict renewal and poll thresholds, `last_run` moving only after a
    successful poll, the loop ending only on a false flag or an exception,
    and no torrent being marked twice over a whole run. */
module LoopProps {
  import opened Failures
  import opened Polling
  import opened PollingProps

  /** The renewal half of an iteration: it logs in again exactly when the
      first clock reading is strictly more than 3300 s after the session
      start, and then takes `session_start` from the next reading. */
  lemma RenewEffect(o: Oracle, st: State) returns (t: Trans)
    ensures t == RenewSpec(o, st)
    ensures var stale := o.clock(st.ticks) - st.sessionStart > SessionMaxAge;
      && t.st.(session := st.session, sessionStart := st.sessionStart, ticks := st.ticks,
               logins := st.logins, trace := st.trace) == st
      && t.st.trace == st.trace + (if stale then [Login(st.logins + 1)] else [])
      && t.st.logins == st.logins + (if stale then 1 else 0)
      && (t.out.Pass? <==> !stale || o.loginStatus(st.logins) == 200)
      && (t.out.Fail? ==> t.out.error == LoginFailed)
      && (!stale ==> t.st.session == st.session && t.st.sessionStart == st.sessionStart && t.st.ticks == st.ticks + 1)
      && (stale && t.out.Pass? ==>
            t.st.session == st.logins + 1 && t.st.sessionStart == o.clock(st.ticks + 1) && t.st.ticks == st.ticks + 2)
  {
    t := RenewSpec(o, st);
  }

  /** The poll half of an iteration, given the result of its poll. */
  lemma PollPhaseShape(o: Oracle, cfg: Config, st: State) returns (p: Trans, t: Trans)
    ensures p == PollSpec(o, cfg, st.(ticks := st.ticks + 1))
    ensures t == PollPhaseSpec(o, cfg, st)
    ensures t == if o.clock(st.ticks) - st.lastRun > PollInterval then
        (if p.out.Fail? then p else Trans(p.st.(lastRun := o.clock(p.st.ticks), ticks := p.st.ticks + 1), Pass))
      else Trans(st.(ticks := st.ticks + 1), Pass)
  {
    p := PollSpec(o, cfg, st.(ticks := st.ticks + 1));
    t := PollPhaseSpec(o, cfg, st);
  }

  /** The poll half of an iteration: it polls exactly when its clock
      reading is strictly more than 15 s after `last_run`, and sets
      `last_run` from the next reading only once the poll has succeeded. */
  lemma PollPhaseEffect(o: Oracle, cfg: Config, st: State) returns (t: Trans)
    ensures t == PollPhaseSpec(o, cfg, st)
    ensures var due := o.clock(st.ticks) - st.lastRun > PollInterval;
      && t.st.session == st.session && t.st.sessionStart == st.sessionStart && t.st.logins == st.logins
      && t.st.queries == st.queries + (if due then 1 else 0)
      && st.trace <= t.st.trace
      && (!due ==> t == Trans(st.(ticks := st.ticks + 1), Pass))
      && (due ==> st.trace + [Query(st.session)] <= t.st.trace)
      && (t.out.Fail? ==> t.st.lastRun == st.lastRun)
      && (due && t.out.Pass? ==> t.st.lastRun == o.clock(t.st.ticks - 1))
      && (due && t.out.Pass? ==> t.st.ticks == st.ticks + 2 && t.st.lastRun == o.clock(st.ticks + 1))
  {
    var s := st.(ticks := st.ticks + 1);
    if o.clock(st.ticks) - st.lastRun > PollInterval {
      var p := PollFrame(o, cfg, s);
      assert st.trace <= st.trace + [Query(st.session)];
      t := if p.out.Fail? then p else Trans(p.st.(lastRun := o.clock(p.st.ticks), ticks := p.st.ticks + 1), Pass);
    } else {
      t := Trans(s, Pass);
    }
    assert t == PollPhaseSpec(o, cfg, st);
  }

  /** One iteration, by its two halves. */
  lemma StepParts(o: Oracle, cfg: Config, st: State) returns (r: Trans, p: Trans, t: Trans)
    ensures r == RenewSpec(o, st) && t == StepSpec(o, cfg, st)
    ensures r.out.Fail? ==> t == r
    ensures r.out.Pass? ==> p == PollPhaseSpec(o, cfg, r.st)
    ensures r.out.Pass? && p.out.Fail? ==> t == p
    ensures r.out.Pass? && p.out.Pass? ==> t == Trans(p.st.(trace := p.st.trace + [Sleep]), Pass)
  {
    r := RenewSpec(o, st);
    p := PollPhaseSpec(o, cfg, r.st);
    t := if r.out.Fail? then r else if p.out.Fail? then p else Trans(p.st.(trace := p.st.trace + [Sleep]), Pass);
  }

  /** One iteration renews the session exactly when it is strictly older
      than 3300 s, before anything else is sent; a failed login raises
      before any query and leaves `last_run` alone. */
  lemma StepRenewal(o: Oracle, cfg: Config, st: State) returns (t: Trans)
    ensures t == StepSpec(o, cfg, st)
    ensures var stale := o.clock(st.ticks) - st.sessionStart > SessionMaxAge;
      && t.st.logins == st.logins + (if stale then 1 else 0)
      && (stale ==> |t.st.trace| > |st.trace| && t.st.trace[|st.trace|] == Login(st.logins + 1))
      && (!stale ==> t.st.session == st.session && t.st.sessionStart == st.sessionStart)
      && (stale && o.loginStatus(st.logins) == 200 ==>
            t.st.session == st.logins + 1 && t.st.sessionStart == o.clock(st.ticks + 1))
      && (stale && o.loginStatus(st.logins) != 200 ==>
            t.out == Fail(LoginFailed) && t.st.queries == st.queries && t.st.lastRun == st.lastRun)
  {
    var r, p;
    r, p, t := StepParts(o, cfg, st);
    var r' := RenewEffect(o, st);
    if r.out.Pass? {
      var p' := PollPhaseEffect(o, cfg, r.st);
      assert st.trace <= r.st.trace <= p.st.trace;
      if p.out.Pass? {
        assert p.st.trace <= p.st.trace + [Sleep];
      }
    }
  }

  /** Once the session is settled, the iteration polls exactly when its
      clock reading is strictly more than 15 s after `last_run`, and the
      query is the first request after the renewal, with the new session.
      `last_run` changes only when the whole poll succeeded. */
  lemma StepPoll(o: Oracle, cfg: Config, st: State) returns (t: Trans)
    ensures t == StepSpec(o, cfg, st)
    ensures t.out.Fail? ==> t.st.lastRun == st.lastRun
    ensures var r := RenewSpec(o, st);
      r.out.Pass? ==>
        var due := o.clock(r.st.ticks) - st.lastRun > PollInterval;
        && t.st.queries == st.queries + (if due then 1 else 0)
        && (due ==> |t.st.trace| > |r.st.trace| && t.st.trace[|r.st.trace|] == Query(r.st.session))
        && (!due ==> t == Trans(r.st.(ticks := r.st.ticks + 1, trace := r.st.trace + [Sleep]), Pass))
        && (due && t.out.Pass? ==> t.st.lastRun == o.clock(t.st.ticks - 1))
  {
    var r, p;
    r, p, t := StepParts(o, cfg, st);
    var r' := RenewEffect(o, st);
    if r.out.Pass? {
      var p' := PollPhaseEffect(o, cfg, r.st);
      if p.out.Pass? {
        assert p.st.trace <= p.st.trace + [Sleep];
      }
    }
  }
}
