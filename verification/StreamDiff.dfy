/** What changed between two versions of a stream configuration. */
module StreamDiff {
  import opened Domain
  import opened BufferLayout
  import FailoverState
  import FailoverRuns

  // -------------------------------------------------------------------- inputs

  /** Inputs by priority; a later duplicate replaces an earlier one. */
  function ByPriority(inputs: seq<Input>): map<int, Input> {
    if inputs == [] then map[]
    else
      var last := inputs[|inputs| - 1];
      ByPriority(inputs[..|inputs| - 1])[last.priority := last]
  }

  /** The last input of each priority, and nothing else. */
  lemma {:induction false} ByPriorityLast(inputs: seq<Input>, p: int)
    ensures p in ByPriority(inputs) <==> exists i :: 0 <= i < |inputs| && inputs[i].priority == p
    ensures p in ByPriority(inputs) ==>
              exists i :: 0 <= i < |inputs| && LastWith(inputs, i, p) && ByPriority(inputs)[p] == inputs[i]
  {
    if inputs != [] {
      var n := |inputs| - 1;
      ByPriorityLast(inputs[..n], p);
      if inputs[n].priority == p {
        assert LastWith(inputs, n, p);
      } else if p in ByPriority(inputs[..n]) {
        var i :| 0 <= i < n && LastWith(inputs[..n], i, p) && ByPriority(inputs[..n])[p] == inputs[..n][i];
        assert LastWith(inputs, i, p) && inputs[i].priority == p;
      }
    }
  }

  predicate LastWith(inputs: seq<Input>, i: nat, p: int)
    requires i < |inputs|
  {
    inputs[i].priority == p && forall j :: i < j < |inputs| ==> inputs[j].priority != p
  }

  /** Equal as far as the diff cares: program and pids are not compared. */
  predicate InputsEqual(a: Input, b: Input) {
    a.url == b.url && a.headers == b.headers && a.params == b.params && a.net == b.net
  }

  predicate DistinctPriorities(inputs: seq<Input>) {
    forall i, j :: 0 <= i < j < |inputs| ==> inputs[i].priority != inputs[j].priority
  }

  /** The list holds exactly one entry per priority in ks, taken from the map. */
  predicate Lists(inputs: seq<Input>, m: map<int, Input>, ks: set<int>) {
    && DistinctPriorities(inputs)
    && (forall i :: 0 <= i < |inputs| ==> inputs[i].priority in ks && inputs[i].priority in m && inputs[i] == m[inputs[i].priority])
    && (forall p :: p in ks ==> FailoverState.Mentions(inputs, p))
  }

  function AddedKeys(was: map<int, Input>, now: map<int, Input>): set<int> {
    now.Keys - was.Keys
  }

  function UpdatedKeys(was: map<int, Input>, now: map<int, Input>): set<int> {
    set p | p in now && p in was && !InputsEqual(was[p], now[p])
  }

  predicate IsInputDiff(was: map<int, Input>, now: map<int, Input>,
                        added: seq<Input>, removed: seq<Input>, updated: seq<Input>) {
    Lists(added, now, AddedKeys(was, now)) &&
    Lists(removed, was, AddedKeys(now, was)) &&
    Lists(updated, now, UpdatedKeys(was, now))
  }

  lemma ListsSnoc(inputs: seq<Input>, m: map<int, Input>, ks: set<int>, p: int)
    requires Lists(inputs, m, ks) && p in m && m[p].priority == p && p !in ks
    ensures Lists(inputs + [m[p]], m, ks + {p})
  {
    var more := inputs + [m[p]];
    forall q | q in ks + {p} ensures FailoverState.Mentions(more, q) {
      if q == p {
        assert more[|inputs|].priority == p;
      } else {
        var i :| 0 <= i < |inputs| && inputs[i].priority == q;
        assert more[i].priority == q;
      }
    }
  }

  lemma {:induction false} ByPriorityKeyed(inputs: seq<Input>)
    ensures forall p :: p in ByPriority(inputs) ==> ByPriority(inputs)[p].priority == p
    ensures forall p :: p in ByPriority(inputs) <==> FailoverState.Mentions(inputs, p)
  {
    if inputs != [] {
      var n := |inputs| - 1;
      ByPriorityKeyed(inputs[..n]);
      assert inputs[..n + 1] == inputs;
      forall p ensures FailoverState.Mentions(inputs, p) <==> FailoverState.Mentions(inputs[..n], p) || inputs[n].priority == p {
        FailoverState.MentionsSnoc(inputs, n, p);
      }
    }
  }

  method IndexInputs(inputs: seq<Input>) returns (m: map<int, Input>)
    ensures m == ByPriority(inputs)
  {
    m := map[];
    for i := 0 to |inputs|
      invariant m == ByPriority(inputs[..i])
    {
      m := m[inputs[i].priority := inputs[i]];
      assert inputs[..i + 1][..i] == inputs[..i];
    }
    assert inputs[..|inputs|] == inputs;
  }

  /** Extends a list for one more visited priority. */
  lemma ListsStep(inputs: seq<Input>, m: map<int, Input>, seen: set<int>, ks: set<int>, p: int)
    requires Lists(inputs, m, seen * ks) && p in m && m[p].priority == p && p !in seen
    ensures Lists(if p in ks then inputs + [m[p]] else inputs, m, (seen + {p}) * ks)
  {
    FailoverState.MeetOne(seen, ks, p);
    if p in ks {
      ListsSnoc(inputs, m, seen * ks, p);
    }
  }

  lemma ListsNone(m: map<int, Input>, ks: set<int>)
    ensures Lists([], m, {} * ks)
  {
  }

  lemma ListsAll(inputs: seq<Input>, m: map<int, Input>, ks: set<int>)
    requires Lists(inputs, m, m.Keys * ks) && ks <= m.Keys
    ensures Lists(inputs, m, ks)
  {
    assert m.Keys * ks == ks;
  }

  /** Walks the later configuration in arbitrary order. */
  method ListChanged(was: map<int, Input>, now: map<int, Input>, ghost ak: set<int>, ghost uk: set<int>)
    returns (added: seq<Input>, updated: seq<Input>)
    requires forall p :: p in now ==> now[p].priority == p
    requires ak <= now.Keys && uk <= now.Keys
    requires forall p :: p in ak <==> p in now && p !in was
    requires forall p :: p in uk <==> p in now && p in was && !InputsEqual(was[p], now[p])
    ensures Lists(added, now, ak) && Lists(updated, now, uk)
  {
    added, updated := [], [];
    var rest := now.Keys;
    ghost var seen := {};
    ListsNone(now, ak);
    ListsNone(now, uk);
    while rest != {}
      invariant rest !! seen && rest + seen == now.Keys
      invariant Lists(added, now, seen * ak)
      invariant Lists(updated, now, seen * uk)
      decreases |rest|
    {
      FailoverState.Inhabited(rest);
      var p :| p in rest;
      ListsStep(added, now, seen, ak, p);
      ListsStep(updated, now, seen, uk, p);
      if p !in was {
        added := added + [now[p]];
      } else if !InputsEqual(was[p], now[p]) {
        updated := updated + [now[p]];
      }
      rest, seen := rest - {p}, seen + {p};
    }
    assert seen == now.Keys;
    ListsAll(added, now, ak);
    ListsAll(updated, now, uk);
  }

  /** Walks the earlier configuration in arbitrary order. */
  method ListMissing(was: map<int, Input>, now: map<int, Input>, ghost rk: set<int>) returns (removed: seq<Input>)
    requires forall p :: p in was ==> was[p].priority == p
    requires rk <= was.Keys
    requires forall p :: p in rk <==> p in was && p !in now
    ensures Lists(removed, was, rk)
  {
    removed := [];
    var rest := was.Keys;
    ghost var seen := {};
    ListsNone(was, rk);
    while rest != {}
      invariant rest !! seen && rest + seen == was.Keys
      invariant Lists(removed, was, seen * rk)
      decreases |rest|
    {
      FailoverState.Inhabited(rest);
      var p :| p in rest;
      ListsStep(removed, was, seen, rk, p);
      if p !in now {
        removed := removed + [was[p]];
      }
      rest, seen := rest - {p}, seen + {p};
    }
    assert seen == was.Keys;
    ListsAll(removed, was, rk);
  }

  /** Compares inputs by priority. */
  method DiffInputs(was: seq<Input>, now: seq<Input>)
    returns (added: seq<Input>, removed: seq<Input>, updated: seq<Input>)
    ensures IsInputDiff(ByPriority(was), ByPriority(now), added, removed, updated)
  {
    var wasMap := IndexInputs(was);
    var nowMap := IndexInputs(now);
    ByPriorityKeyed(was);
    ByPriorityKeyed(now);
    added, updated := ListChanged(wasMap, nowMap, AddedKeys(wasMap, nowMap), UpdatedKeys(wasMap, nowMap));
    removed := ListMissing(wasMap, nowMap, AddedKeys(nowMap, wasMap));
  }

  /** No priority appears in two of the lists. */
  lemma DiffListsDisjoint(was: map<int, Input>, now: map<int, Input>,
                          added: seq<Input>, removed: seq<Input>, updated: seq<Input>, p: int)
    requires IsInputDiff(was, now, added, removed, updated)
    ensures !(FailoverState.Mentions(added, p) && FailoverState.Mentions(removed, p))
    ensures !(FailoverState.Mentions(added, p) && FailoverState.Mentions(updated, p))
    ensures !(FailoverState.Mentions(removed, p) && FailoverState.Mentions(updated, p))
    ensures FailoverState.Mentions(added, p) <==> p in now && p !in was
    ensures FailoverState.Mentions(removed, p) <==> p in was && p !in now
    ensures FailoverState.Mentions(updated, p) <==> p in was && p in now && !InputsEqual(was[p], now[p])
  {
  }

  /** The configurations the manager holds, by priority. */
  ghost predicate Holds(s: FailoverState.State, m: map<int, Input>) {
    s.inputs.Keys == m.Keys && forall p :: p in m ==> s.inputs[p].input == m[p]
  }

  lemma {:induction false} AddAllInputs(s: FailoverState.State, added: seq<Input>, i: nat)
    requires DistinctPriorities(added) && i < |added|
    ensures var t := FailoverState.AddAll(s, added);
            added[i].priority in t.inputs && t.inputs[added[i].priority].input == added[i]
  {
    var n := |added| - 1;
    if i < n {
      AddAllInputs(s, added[..n], i);
    }
  }

  lemma {:induction false} ReplaceAllInputs(s: FailoverState.State, updated: seq<Input>)
    requires DistinctPriorities(updated)
    ensures var t := FailoverState.ReplaceAll(s, updated);
            && t.inputs.Keys == s.inputs.Keys
            && (forall i :: 0 <= i < |updated| && updated[i].priority in s.inputs
                            ==> t.inputs[updated[i].priority].input == updated[i])
            && (forall p :: p in s.inputs && !FailoverState.Mentions(updated, p) ==> t.inputs[p] == s.inputs[p])
  {
    if updated != [] {
      var n := |updated| - 1;
      ReplaceAllInputs(s, updated[..n]);
      assert updated[..n + 1] == updated;
      forall p ensures FailoverState.Mentions(updated, p) <==> FailoverState.Mentions(updated[..n], p) || updated[n].priority == p {
        FailoverState.MentionsSnoc(updated, n, p);
      }
    }
  }

  /** What the manager ends up holding: the new input where the diff saw a
      change, the old one elsewhere. */
  lemma DiffAppliesToManager(s: FailoverState.State, was: map<int, Input>, now: map<int, Input>,
                             added: seq<Input>, removed: seq<Input>, updated: seq<Input>)
    requires IsInputDiff(was, now, added, removed, updated)
    requires Holds(s, was) && !s.dead
    ensures var t := FailoverState.UpdateInputs(s, added, removed, updated);
            && t.inputs.Keys == now.Keys
            && (forall p :: p in now ==>
                  var i := t.inputs[p].input;
                  i.url == now[p].url && i.headers == now[p].headers && i.params == now[p].params && i.net == now[p].net)
            && (Holds(t, now) <==> forall p :: p in was && p in now && InputsEqual(was[p], now[p]) ==> was[p] == now[p])
  {
    var r := FailoverState.RemoveAll(s, removed);
    var a := FailoverState.AddAll(r, added);
    var t := FailoverState.ReplaceAll(a, updated);
    FailoverRuns.RemoveAllEffect(s, removed);
    FailoverRuns.AddAllEffect(r, added);
    ReplaceAllInputs(a, updated);
    forall p ensures p in t.inputs <==> p in now {
      DiffListsDisjoint(was, now, added, removed, updated, p);
    }
    forall p | p in now
      ensures t.inputs[p].input == if p in was && InputsEqual(was[p], now[p]) then was[p] else now[p]
    {
      DiffListsDisjoint(was, now, added, removed, updated, p);
      if p !in was {
        var i :| 0 <= i < |added| && added[i].priority == p;
        AddAllInputs(r, added, i);
      } else if !InputsEqual(was[p], now[p]) {
        var i :| 0 <= i < |updated| && updated[i].priority == p;
      }
    }
  }

  // ---------------------------------------------------------------- transcoder

  datatype ProfileChange = ProfileChange(index: nat, was: Option<VideoProfile>, now: Option<VideoProfile>)

  datatype ProfilesDiff = ProfilesDiff(added: seq<ProfileChange>, removed: seq<ProfileChange>, updated: seq<ProfileChange>)

  predicate NeedsFFmpeg(tc: Option<Transcoder>) {
    tc.Some? && (!tc.value.video.copy || !tc.value.audio.copy)
  }

  function At(ps: seq<VideoProfile>, i: nat): Option<VideoProfile> {
    if i < |ps| then Some(ps[i]) else None
  }

  /** Every change is one differing index, and every differing index is listed
      exactly once, in ascending order, in the list its kind calls for. */
  predicate IsProfilesDiff(pd: ProfilesDiff, was: seq<VideoProfile>, now: seq<VideoProfile>, all: bool, n: nat) {
    && ListsChanges(pd.added, was, now, AddedBelow(was, now, n))
    && ListsChanges(pd.removed, was, now, AddedBelow(now, was, n))
    && ListsChanges(pd.updated, was, now, UpdatedBelow(was, now, all, n))
  }

  /** Indexes below n that only the second ladder has. */
  function AddedBelow(was: seq<VideoProfile>, now: seq<VideoProfile>, n: nat): set<nat> {
    set i | 0 <= i < n && At(was, i).None? && At(now, i).Some?
  }

  /** Indexes below n that both ladders have and that count as different. */
  function UpdatedBelow(was: seq<VideoProfile>, now: seq<VideoProfile>, all: bool, n: nat): set<nat> {
    set i | 0 <= i < n && At(was, i).Some? && At(now, i).Some? && (all || At(was, i) != At(now, i))
  }

  predicate ListsChanges(cs: seq<ProfileChange>, was: seq<VideoProfile>, now: seq<VideoProfile>, ks: set<nat>) {
    && (forall k :: 0 <= k < |cs| ==> cs[k].index in ks && cs[k] == ProfileChange(cs[k].index, At(was, cs[k].index), At(now, cs[k].index)))
    && (forall k, l :: 0 <= k < l < |cs| ==> cs[k].index < cs[l].index)
    && (forall i :: i in ks ==> exists k :: 0 <= k < |cs| && cs[k].index == i)
  }

  lemma ChangesSnoc(cs: seq<ProfileChange>, was: seq<VideoProfile>, now: seq<VideoProfile>, ks: set<nat>, i: nat)
    requires ListsChanges(cs, was, now, ks) && (forall k :: k in ks ==> k < i)
    ensures ListsChanges(cs + [ProfileChange(i, At(was, i), At(now, i))], was, now, ks + {i})
  {
    var more := cs + [ProfileChange(i, At(was, i), At(now, i))];
    forall j | j in ks + {i} ensures exists k :: 0 <= k < |more| && more[k].index == j {
      if j == i {
        assert more[|cs|].index == i;
      } else {
        var k :| 0 <= k < |cs| && cs[k].index == j;
        assert more[k].index == j;
      }
    }
  }

  /** What one index adds to the lists. */
  function ProfileStep(pd: ProfilesDiff, was: seq<VideoProfile>, now: seq<VideoProfile>, all: bool, i: nat): ProfilesDiff {
    var change := ProfileChange(i, At(was, i), At(now, i));
    match (At(was, i), At(now, i))
    case (Some(o), Some(n)) => if all || o != n then pd.(updated := pd.updated + [change]) else pd
    case (Some(_), None) => pd.(removed := pd.removed + [change])
    case (None, Some(_)) => pd.(added := pd.added + [change])
    case (None, None) => pd
  }

  lemma BelowNext(was: seq<VideoProfile>, now: seq<VideoProfile>, all: bool, i: nat)
    ensures AddedBelow(was, now, i + 1) == AddedBelow(was, now, i) + (if At(was, i).None? && At(now, i).Some? then {i} else {})
    ensures UpdatedBelow(was, now, all, i + 1)
         == UpdatedBelow(was, now, all, i)
            + (if At(was, i).Some? && At(now, i).Some? && (all || At(was, i) != At(now, i)) then {i} else {})
  {
  }

  lemma ProfileStepKeeps(pd: ProfilesDiff, was: seq<VideoProfile>, now: seq<VideoProfile>, all: bool, i: nat)
    requires IsProfilesDiff(pd, was, now, all, i)
    ensures IsProfilesDiff(ProfileStep(pd, was, now, all, i), was, now, all, i + 1)
  {
    BelowNext(was, now, all, i);
    BelowNext(now, was, all, i);
    if At(was, i).None? && At(now, i).Some? {
      ChangesSnoc(pd.added, was, now, AddedBelow(was, now, i), i);
    } else if At(was, i).Some? && At(now, i).None? {
      ChangesSnoc(pd.removed, was, now, AddedBelow(now, was, i), i);
    } else if At(was, i).Some? && At(now, i).Some? && (all || At(was, i) != At(now, i)) {
      ChangesSnoc(pd.updated, was, now, UpdatedBelow(was, now, all, i), i);
    }
  }

  method DiffProfiles(was: seq<VideoProfile>, now: seq<VideoProfile>, all: bool) returns (pd: ProfilesDiff)
    ensures IsProfilesDiff(pd, was, now, all, if |was| < |now| then |now| else |was|)
  {
    var added, removed, updated := [], [], [];
    var maxLen := |was|;
    if |now| > maxLen {
      maxLen := |now|;
    }
    for i := 0 to maxLen
      invariant IsProfilesDiff(ProfilesDiff(added, removed, updated), was, now, all, i)
    {
      ProfileStepKeeps(ProfilesDiff(added, removed, updated), was, now, all, i);
      if i < |was| && i < |now| {
        if all || was[i] != now[i] {
          updated := updated + [ProfileChange(i, Some(was[i]), Some(now[i]))];
        }
      } else if i < |was| {
        removed := removed + [ProfileChange(i, Some(was[i]), None)];
      } else {
        added := added + [ProfileChange(i, None, Some(now[i]))];
      }
    }
    pd := ProfilesDiff(added, removed, updated);
  }

  datatype TranscoderDiff = TranscoderDiff(changed: bool, topology: bool, profiles: Option<ProfilesDiff>)

  /** How far a transcoder change reaches; the last part says whether the
      profile-level comparison is carried out. */
  function TranscoderReach(was: Stream, now: Stream): (bool, bool, bool) {
    var ot, nt := was.transcoder, now.transcoder;
    if ot == nt then
      var ff := was.watermark != now.watermark && (NeedsFFmpeg(ot) || NeedsFFmpeg(nt));
      (ff, ff, false)
    else if ot.None? != nt.None? || NeedsFFmpeg(ot) != NeedsFFmpeg(nt) || ot.value.video.copy != nt.value.video.copy then
      (true, true, false)
    else if !NeedsFFmpeg(nt) then (true, false, false)
    else if was.watermark != now.watermark then (true, true, false)
    else (true, false, true)
  }

  /** Settings every rendition depends on. */
  predicate SharedSettingsChanged(ot: Transcoder, nt: Transcoder) {
    ot.globals != nt.globals || ot.audio != nt.audio || ot.decoder != nt.decoder
  }

  method DiffTranscoder(was: Stream, now: Stream) returns (d: TranscoderDiff)
    ensures (d.changed, d.topology, d.profiles.Some?) == TranscoderReach(was, now)
    ensures d.changed <==>
              was.transcoder != now.transcoder || (was.watermark != now.watermark && NeedsFFmpeg(now.transcoder))
    ensures d.topology || (d.changed && d.profiles.Some?) <==>
              (was.transcoder.None? != now.transcoder.None?)
              || ((NeedsFFmpeg(was.transcoder) || NeedsFFmpeg(now.transcoder))
                  && (was.transcoder != now.transcoder || was.watermark != now.watermark))
    ensures d.profiles.Some? ==>
              var (op, np) := (was.transcoder.value.video.profiles, now.transcoder.value.video.profiles);
              IsProfilesDiff(d.profiles.value, op, np, SharedSettingsChanged(was.transcoder.value, now.transcoder.value),
                             if |op| < |np| then |np| else |op|)
  {
    var transcoderEq := was.transcoder == now.transcoder;
    var watermarkEq := was.watermark == now.watermark;
    d := TranscoderDiff(false, false, None);
    if transcoderEq && watermarkEq { return; }
    if transcoderEq {
      if NeedsFFmpeg(was.transcoder) || NeedsFFmpeg(now.transcoder) {
        d := d.(changed := true, topology := true);
      }
      return;
    }
    d := d.(changed := true);
    if was.transcoder.None? != now.transcoder.None? { return d.(topology := true); }
    var ot, nt := was.transcoder.value, now.transcoder.value;
    if NeedsFFmpeg(was.transcoder) != NeedsFFmpeg(now.transcoder) { return d.(topology := true); }
    if ot.video.copy != nt.video.copy { return d.(topology := true); }
    if !NeedsFFmpeg(now.transcoder) { return; }
    if !watermarkEq { return d.(topology := true); }
    var globalChanged := SharedSettingsChanged(ot, nt);
    var pd := DiffProfiles(ot.video.profiles, nt.video.profiles, globalChanged);
    d := d.(profiles := Some(pd));
  }

  /** The update takes the full reload path. */
  predicate FullReload(was: Stream, now: Stream) {
    var (changed, topology, profiled) := TranscoderReach(was, now);
    topology || (changed && profiled)
  }

  /** Exactly when only one side has a transcoder, or the pipeline is needed on
      either side and its configuration or its watermark differs. */
  lemma FullReloadExactly(was: Stream, now: Stream)
    ensures FullReload(was, now) <==>
            (was.transcoder.None? != now.transcoder.None?)
            || ((NeedsFFmpeg(was.transcoder) || NeedsFFmpeg(now.transcoder))
                && (was.transcoder != now.transcoder || was.watermark != now.watermark))
  {
  }

  datatype Diff = Diff(
    nowDisabled: bool,
    inputsChanged: bool,
    added: seq<Input>,
    removed: seq<Input>,
    updated: seq<Input>,
    transcoder: TranscoderDiff,
    protocolsChanged: bool,
    pushChanged: bool,
    policyChanged: bool,
    dvrChanged: bool)

  /** The inputs are the same as far as the diff cares. */
  predicate SameInputs(was: map<int, Input>, now: map<int, Input>) {
    was.Keys == now.Keys && forall p :: p in was && p in now ==> InputsEqual(was[p], now[p])
  }

  lemma EmptyDiffExactly(was: map<int, Input>, now: map<int, Input>,
                         added: seq<Input>, removed: seq<Input>, updated: seq<Input>)
    requires IsInputDiff(was, now, added, removed, updated)
    ensures added == [] && removed == [] && updated == [] <==> SameInputs(was, now)
  {
    if added == [] && removed == [] && updated == [] {
      forall p ensures p in was <==> p in now {
        DiffListsDisjoint(was, now, added, removed, updated, p);
      }
      forall p | p in was && p in now ensures InputsEqual(was[p], now[p]) {
        DiffListsDisjoint(was, now, added, removed, updated, p);
      }
    }
    ListedDiffers(was, now, added, removed, updated, added);
    ListedDiffers(was, now, added, removed, updated, removed);
    ListedDiffers(was, now, added, removed, updated, updated);
  }

  lemma ListedDiffers(was: map<int, Input>, now: map<int, Input>,
                      added: seq<Input>, removed: seq<Input>, updated: seq<Input>, list: seq<Input>)
    requires IsInputDiff(was, now, added, removed, updated) && list in [added, removed, updated]
    ensures list != [] ==> !SameInputs(was, now)
  {
    if list != [] {
      assert FailoverState.Mentions(list, list[0].priority);
      DiffListsDisjoint(was, now, added, removed, updated, list[0].priority);
    }
  }

  method ComputeDiff(was: Stream, now: Stream) returns (d: Diff)
    ensures d.nowDisabled <==> !was.disabled && now.disabled
    ensures IsInputDiff(ByPriority(was.inputs), ByPriority(now.inputs), d.added, d.removed, d.updated)
    ensures d.inputsChanged <==> !SameInputs(ByPriority(was.inputs), ByPriority(now.inputs))
    ensures (d.transcoder.changed, d.transcoder.topology, d.transcoder.profiles.Some?) == TranscoderReach(was, now)
    ensures d.protocolsChanged <==> was.protocols != now.protocols
    ensures d.pushChanged <==> was.push != now.push
    ensures d.policyChanged <==> was.playbackPolicy != now.playbackPolicy
    ensures d.dvrChanged <==> was.dvr != now.dvr
  {
    var added, removed, updated := DiffInputs(was.inputs, now.inputs);
    EmptyDiffExactly(ByPriority(was.inputs), ByPriority(now.inputs), added, removed, updated);
    var t := DiffTranscoder(was, now);
    d := Diff(!was.disabled && now.disabled, |added| > 0 || |removed| > 0 || |updated| > 0, added, removed, updated, t,
              was.protocols != now.protocols, was.push != now.push,
              was.playbackPolicy != now.playbackPolicy, was.dvr != now.dvr);
  }
}
