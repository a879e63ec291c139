/** Every running stream runs its current configuration, over every sequence of
    Start, Stop and Update. */
module FleetCurrent {
  import opened Domain
  import opened StreamDiff
  import opened Coordinator

  /** The stream runs if and only if the manager has it; its encoder, if it has one,
      was started with its transcoder configuration and watermark of now. */
  ghost predicate EncoderCurrent(s: State, fleet: Fleet, code: string) {
    && (code in fleet <==> code in s.registered)
    && (code in fleet ==>
          && fleet[code].code == code && !fleet[code].disabled
          && (code in s.transcoding <==> ShouldRunTranscoder(fleet[code]))
          && (code in s.transcoding ==> StartedWith(s.transcoding[code], fleet[code])))
    && (code !in fleet ==> code !in s.transcoding)
  }

  /** The encoder writes the stream's renditions with its configuration and watermark. */
  predicate StartedWith(e: Encoder, stream: Stream) {
    && e.targets == RenditionIdSeq(stream.code, TargetSlugs(stream))
    && stream.transcoder == Some(e.config) && stream.watermark == e.watermark
  }

  predicate Serves(o: Outputs, stream: Stream) {
    o.protocols == stream.protocols && o.push == stream.push && o.policy == stream.playbackPolicy
  }

  /** Its publisher serves its protocols, push targets and policy of now. */
  ghost predicate OutputsCurrent(s: State, fleet: Fleet, code: string) {
    if code in fleet then code in s.publishing && Serves(s.publishing[code], fleet[code])
    else code !in s.publishing
  }

  /** An update of the outputs alone that the publisher refuses. */
  predicate RefusesOutputs(fleet: Fleet, e: Event)
    requires Enabled(fleet, e)
  {
    e.UpdateEvent? && !e.now.disabled && !FullReload(fleet[e.now.code], e.now)
    && !e.o.publisherOk
    && (fleet[e.now.code].protocols != e.now.protocols || fleet[e.now.code].push != e.now.push
        || fleet[e.now.code].playbackPolicy != e.now.playbackPolicy)
  }

  // -------------------------------------------------------------------- each step

  /** Without a full reload neither the encoder's settings nor the need for it change. */
  lemma SameEncoderWithoutReload(was: Stream, now: Stream)
    requires was.code == now.code && !FullReload(was, now)
    ensures ShouldRunTranscoder(was) == ShouldRunTranscoder(now)
    ensures ShouldRunTranscoder(now) ==> was.transcoder == now.transcoder && was.watermark == now.watermark
    ensures TargetSlugs(was) == TargetSlugs(now)
  {
    FullReloadExactly(was, now);
    SameLadderWithoutReload(was, now);
  }

  lemma SlugsExactly(stream: Stream)
    ensures TargetSlugs(stream) != [] <==> ShouldRunTranscoder(stream)
  {
  }

  lemma ReloadCurrent(s: State, was: Stream, now: Stream, o: Oracle)
    requires now.code in s.registered
    ensures var (t, ok) := Reloaded(s, was, now, o);
            var code := now.code;
            if ok then
              && code in t.registered && (code in t.transcoding <==> ShouldRunTranscoder(now))
              && (code in t.transcoding ==> StartedWith(t.transcoding[code], now))
              && code in t.publishing && Serves(t.publishing[code], now)
            else code !in t.registered && code !in t.transcoding && code !in t.publishing
  {
    SlugsExactly(now);
  }

  lemma OwnEncoderCurrent(s: State, fleet: Fleet, e: Event)
    requires Enabled(fleet, e) && EncoderCurrent(s, fleet, CodeOf(e))
    ensures EncoderCurrent(Step(s, fleet, e), NextFleet(s, fleet, e), CodeOf(e))
  {
    match e
    case StartEvent(stream, o, at) => SlugsExactly(stream);
    case StopEvent(_) =>
    case UpdateEvent(now, o) =>
      if !now.disabled && FullReload(fleet[now.code], now) {
        ReloadCurrent(s, fleet[now.code], now, o);
      } else if !now.disabled {
        SameEncoderWithoutReload(fleet[now.code], now);
      }
  }

  lemma OwnOutputsCurrentExactly(s: State, fleet: Fleet, e: Event)
    requires Enabled(fleet, e) && EncoderCurrent(s, fleet, CodeOf(e)) && OutputsCurrent(s, fleet, CodeOf(e))
    ensures OutputsCurrent(Step(s, fleet, e), NextFleet(s, fleet, e), CodeOf(e)) <==> !RefusesOutputs(fleet, e)
  {
    match e
    case StartEvent(_, _, _) =>
    case StopEvent(_) =>
    case UpdateEvent(now, o) =>
      if !now.disabled && FullReload(fleet[now.code], now) {
        ReloadCurrent(s, fleet[now.code], now, o);
      }
  }

  /** Other streams keep encoder and outputs. */
  lemma OthersCurrent(s: State, t: State, fleet: Fleet, next: Fleet, code: string, other: string)
    requires OnlyTouches(s, t, code) && next - {code} == fleet - {code} && other != code
    ensures EncoderCurrent(t, next, other) <==> EncoderCurrent(s, fleet, other)
    ensures OutputsCurrent(t, next, other) <==> OutputsCurrent(s, fleet, other)
  {
    SameElsewhere(fleet, next, code, other);
    SameElsewhere(s.registered, t.registered, code, other);
    SameElsewhere(s.transcoding, t.transcoding, code, other);
    SameElsewhere(s.publishing, t.publishing, code, other);
  }

  lemma SameElsewhere<V>(m: map<string, V>, n: map<string, V>, code: string, other: string)
    requires n - {code} == m - {code} && other != code
    ensures (other in n <==> other in m) && (other in m && other in n ==> n[other] == m[other])
  {
    assert other in m <==> other in m - {code};
    assert other in n <==> other in n - {code};
    if other in m && other in n {
      assert (n - {code})[other] == (m - {code})[other];
    }
  }

  ghost predicate EncodersCurrent(s: State, fleet: Fleet) {
    forall code :: EncoderCurrent(s, fleet, code)
  }

  ghost predicate AllOutputsCurrent(s: State, fleet: Fleet) {
    forall code :: OutputsCurrent(s, fleet, code)
  }

  lemma StepEncodersCurrent(s: State, fleet: Fleet, e: Event)
    requires Enabled(fleet, e) && EncodersCurrent(s, fleet)
    ensures EncodersCurrent(Step(s, fleet, e), NextFleet(s, fleet, e))
    ensures AllOutputsCurrent(s, fleet) ==>
              (AllOutputsCurrent(Step(s, fleet, e), NextFleet(s, fleet, e)) <==> !RefusesOutputs(fleet, e))
  {
    var (t, next, code) := (Step(s, fleet, e), NextFleet(s, fleet, e), CodeOf(e));
    assert EncoderCurrent(s, fleet, code);
    StepTouches(s, fleet, e);
    OwnEncoderCurrent(s, fleet, e);
    forall other | other != code
      ensures EncoderCurrent(t, next, other) && (OutputsCurrent(t, next, other) <==> OutputsCurrent(s, fleet, other))
    {
      assert EncoderCurrent(s, fleet, other);
      OthersCurrent(s, t, fleet, next, code, other);
    }
    if AllOutputsCurrent(s, fleet) {
      assert OutputsCurrent(s, fleet, code);
      OwnOutputsCurrentExactly(s, fleet, e);
    }
  }

  // ------------------------------------------------------------------------- runs

  /** Throughout every sequence, dependencies failing anywhere, every running stream
      that is transcoded is encoded with its current configuration and watermark,
      and nothing else is. */
  lemma {:induction false} EncodersAlwaysCurrent(es: seq<Event>)
    requires RunTo(es).Some?
    ensures EncodersCurrent(RunTo(es).value.0, RunTo(es).value.1)
  {
    if es != [] {
      EncodersAlwaysCurrent(es[..|es| - 1]);
      var (s, fleet) := RunTo(es[..|es| - 1]).value;
      StepEncodersCurrent(s, fleet, es[|es| - 1]);
    }
  }

  ghost predicate OutputsThroughout(es: seq<Event>)
    requires RunTo(es).Some?
  {
    AllOutputsCurrent(RunTo(es).value.0, RunTo(es).value.1) && (es == [] || OutputsThroughout(es[..|es| - 1]))
  }

  predicate NoneRefused(es: seq<Event>)
    requires RunTo(es).Some?
  {
    es == [] || (NoneRefused(es[..|es| - 1]) && !RefusesOutputs(RunTo(es[..|es| - 1]).value.1, es[|es| - 1]))
  }

  /** Every running stream serves its current protocols, push targets and policy
      throughout, exactly when the publisher refuses no update of them alone. */
  lemma {:induction false} OutputsCurrentExactly(es: seq<Event>)
    requires RunTo(es).Some?
    ensures OutputsThroughout(es) <==> NoneRefused(es)
  {
    if es != [] {
      var front := es[..|es| - 1];
      OutputsCurrentExactly(front);
      EncodersAlwaysCurrent(front);
      var (s, fleet) := RunTo(front).value;
      if OutputsThroughout(front) {
        assert AllOutputsCurrent(s, fleet);
        StepEncodersCurrent(s, fleet, es[|es| - 1]);
      }
    }
  }

  // ------------------------------------------------------------------ running since

  /** The time of the last Start while the stream was not running. */
  function RunningSince(es: seq<Event>, code: string): int
    requires RunTo(es).Some?
  {
    if es == [] then 0
    else
      var (front, e) := (es[..|es| - 1], es[|es| - 1]);
      if e.StartEvent? && e.stream.code == code && code !in RunTo(front).value.1 then e.at
      else RunningSince(front, code)
  }

  ghost predicate SinceKept(s: State, fleet: Fleet, code: string, since: int) {
    code in fleet ==> code in s.startedAt && s.startedAt[code] == since
  }

  lemma StepSince(s: State, fleet: Fleet, e: Event, code: string, since: int)
    requires Enabled(fleet, e) && EncoderCurrent(s, fleet, CodeOf(e)) && SinceKept(s, fleet, code, since)
    ensures SinceKept(Step(s, fleet, e), NextFleet(s, fleet, e), code,
                      if e.StartEvent? && e.stream.code == code && code !in fleet then e.at else since)
  {
    if code != CodeOf(e) {
      StepTouches(s, fleet, e);
      SameElsewhere(fleet, NextFleet(s, fleet, e), CodeOf(e), code);
      SameElsewhere(s.startedAt, Step(s, fleet, e).startedAt, CodeOf(e), code);
    } else if e.UpdateEvent? && code in NextFleet(s, fleet, e) {
      ReloadKeepsSince(s, fleet[code], e.now, e.o);
    }
  }

  lemma ReloadKeepsSince(s: State, was: Stream, now: Stream, o: Oracle)
    ensures Reloaded(s, was, now, o).1 ==> Reloaded(s, was, now, o).0.startedAt == s.startedAt
  {
  }

  /** Over every sequence each running stream's start time is that one. */
  lemma {:induction false} StartTimesExactly(es: seq<Event>, code: string)
    requires RunTo(es).Some?
    ensures SinceKept(RunTo(es).value.0, RunTo(es).value.1, code, RunningSince(es, code))
  {
    if es != [] {
      var front := es[..|es| - 1];
      StartTimesExactly(front, code);
      EncodersAlwaysCurrent(front);
      var (s, fleet) := RunTo(front).value;
      assert EncoderCurrent(s, fleet, CodeOf(es[|es| - 1]));
      StepSince(s, fleet, es[|es| - 1], code, RunningSince(front, code));
    }
  }
}
