/** What each complete operation makes of the active input, said of the input
    records alone. */
module FailoverOutcomes {
  import opened Domain
  import opened FailoverState
  import opened FailoverRuns
  import opened FailoverProbes
  import opened FailoverAtomic

  /** Served by the best usable input, or exhausted with none. */
  ghost predicate OnBest(s: State) {
    if SelectBest(s).Some? then !s.exhausted && s.active == SelectBest(s).value else s.exhausted
  }

  /** Neither the active input nor exhaustion nor the log has moved. */
  ghost predicate Unmoved(s: State, t: State) {
    t.active == s.active && t.exhausted == s.exhausted && t.log == s.log && t.lastSwitchAt == s.lastSwitchAt
  }

  lemma FailoverSettles(s: State, reason: Reason, at: int)
    requires !s.dead && WellKeyed(s)
    ensures OnBest(Failover(s, reason, at))
  {
    FailoverRepairs(s, reason, at);
  }

  /** A probe of the input registered now succeeds: an exhausted stream recovers, a
      better input past 12 s is switched to, and nothing else moves. */
  lemma ProbeSwitchesExactly(s: State, at: int, task: ProbeTask)
    requires !s.dead && WellKeyed(s) && LiveTask(s, task)
    ensures var t := Apply(s, ProbeOp(at, task, true));
            && t.inputs.Keys == s.inputs.Keys && UsableAt(t, task.priority)
            && (if s.exhausted || (task.priority < s.active && at - s.lastSwitchAt >= FAILBACK_SWITCH_COOLDOWN)
                then !t.exhausted && SelectBest(t) == Some(t.active)
                else Unmoved(s, t))
  {
    var (u, follow) := ProbeOk(s, task, at);
    assert UsableAt(u, task.priority) && u.inputs.Keys == s.inputs.Keys && WellKeyed(u) && !u.dead;
    if follow.Some? {
      RecoverySettles(u, follow.value, at, task.priority);
      assert Apply(s, ProbeOp(at, task, true)) == EndProbe(Failover(u, follow.value, at), task.priority);
    } else {
      assert Apply(s, ProbeOp(at, task, true)) == EndProbe(u, task.priority);
    }
  }

  lemma RecoverySettles(u: State, reason: Reason, at: int, p: int)
    requires !u.dead && WellKeyed(u) && UsableAt(u, p)
    ensures var t := EndProbe(Failover(u, reason, at), p);
            && t.inputs.Keys == u.inputs.Keys && UsableAt(t, p) && !t.exhausted && SelectBest(t) == Some(t.active)
  {
    var v := Failover(u, reason, at);
    FailoverRepairs(u, reason, at);
    FailoverKeepsUsable(u, reason, at);
    SelectBestFrame(v, EndProbe(v, p).probing);
  }

  lemma FailoverKeepsUsable(s: State, reason: Reason, at: int)
    requires !s.dead && WellKeyed(s)
    ensures forall p :: UsableAt(Failover(s, reason, at), p) <==> UsableAt(s, p)
  {
    var (t, switch) := Select(s);
    if switch.Some? {
      CommitEffect(t, switch.value.prev, switch.value.best, reason, at);
    }
  }

  /** An operator switch is obeyed exactly when the input is usable. */
  lemma SwitchObeyedExactly(s: State, at: int, p: int)
    requires !s.dead && WellKeyed(s)
    ensures var t := Apply(s, SwitchOp(at, p));
            if UsableAt(s, p) then t.active == p && !t.exhausted && t.override == Some(p) else t == s
  {
    if UsableAt(s, p) {
      var u := s.(override := Some(p));
      assert SelectBest(u) == Some(p);
      FailoverRepairs(u, Manual, at);
      OverrideKept(u, Manual, at);
    }
  }

  lemma OverrideKept(s: State, reason: Reason, at: int)
    requires !s.dead && WellKeyed(s) && s.override.Some? && SelectBest(s) == s.override
    ensures Failover(s, reason, at).override == s.override
  {
    var (t, switch) := Select(s);
    assert t.override == s.override;
    if switch.Some? {
      CommitEffect(t, switch.value.prev, switch.value.best, reason, at);
    }
  }

  /** An error of a usable input degrades it and leaves the stream on the best
      input, unless it is a push slot without an encoder and the only input. */
  lemma FaultSettlesExactly(s: State, at: int, p: int, noPusher: bool)
    requires !s.dead && WellKeyed(s)
    ensures var t := Apply(s, FaultOp(at, p, noPusher));
            if UsableAt(s, p) && !(noPusher && |s.inputs| <= 1) then OnBest(t) && IsDegraded(t, p) else t == s
  {
    var (u, failover) := ReportError(s, p, noPusher, at);
    if failover {
      FailoverSettles(u, Error, at);
      FailoverKeepsDegraded(u, Error, at, p);
    }
  }

  lemma FailoverKeepsDegraded(s: State, reason: Reason, at: int, p: int)
    requires IsDegraded(s, p)
    ensures IsDegraded(Failover(s, reason, at), p)
  {
  }

  /** An edit that removes the active input or adds one below it leaves the stream
      on the best input; any other moves nothing. */
  lemma EditSettlesExactly(s: State, at: int, added: seq<Input>, removed: seq<Input>, updated: seq<Input>)
    requires !s.dead && WellKeyed(s)
    ensures var t := Apply(s, EditOp(at, added, removed, updated));
            if Mentions(removed, s.active) || MentionsBelow(added, s.active) then OnBest(t) else Unmoved(s, t)
  {
    EditEffect(s, added, removed, updated);
    EditKeepsNoFalseAlarm(s, added, removed, updated);
    var u := UpdateInputs(s, added, removed, updated);
    assert u.lastSwitchAt == s.lastSwitchAt by {
      RemoveAllEffect(s, removed);
      AddAllEffect(RemoveAll(s, removed), added);
      ReplaceAllEffect(AddAll(RemoveAll(s, removed), added), updated);
    }
    if UpdateReason(s, added, removed).Some? {
      FailoverSettles(u, UpdateReason(s, added, removed).value, at);
    }
  }

  /** A tick that finds the active input of a live stream delivering within the
      timeout, or degraded already, fails back to the best input exactly 12 s after
      the last switch; before that, and when exhausted, it moves nothing. */
  lemma QuietTickExactly(s: State, at: int, timeout: int)
    requires !s.dead && WellKeyed(s)
    requires s.active in s.inputs ==> IsDegraded(s, s.active) || at - s.inputs[s.active].lastPacketAt <= timeout
    ensures var t := Apply(s, TickOp(at, timeout));
            if !s.exhausted && at - s.lastSwitchAt >= FAILBACK_SWITCH_COOLDOWN
               && SelectBest(s).Some? && SelectBest(s).value < s.active
            then OnBest(t) else Unmoved(s, t)
  {
    var u := Collect(s, at, timeout);
    assert AfterTimeout(s, at, timeout) == s && CollectTimedOut(s, at, timeout) == -1;
    if CollectFailback(s, at, timeout) {
      FailoverSettles(u, Failback, at);
    }
  }

  /** A tick that finds the active input silent leaves the stream on the best input,
      priorities not being negative. */
  lemma SilentTickSettles(s: State, at: int, timeout: int)
    requires !s.dead && WellKeyed(s) && s.active in s.inputs && s.active >= 0
    requires !IsDegraded(s, s.active) && at - s.inputs[s.active].lastPacketAt > timeout
    ensures var t := Apply(s, TickOp(at, timeout)); OnBest(t) && IsDegraded(t, s.active)
  {
    var u := Collect(s, at, timeout);
    assert IsDegraded(u, s.active) && WellKeyed(u);
    FailoverSettles(u, Timeout, at);
    FailoverKeepsDegraded(u, Timeout, at, s.active);
    var v := Failover(u, Timeout, at);
    if CollectFailback(s, at, timeout) {
      FailoverRepairs(u, Timeout, at);
      FailoverSettles(v, Failback, at);
      FailoverKeepsDegraded(v, Failback, at, s.active);
    }
  }
}
