/** The Docker events of a container, derived from updates of its Pod and from a health poll. */
module PodEvents {
  import opened Common

  datatype Phase = Pending | Running | Succeeded | Failed | Unknown

  datatype Termination = Termination(containerId: string, finishedAt: int, exitCode: int)

  /** The status of the container named by the Pod's app label. */
  datatype Status = Status(containerId: string, running: Option<int>, terminated: Option<Termination>,
                           last: Option<Termination>, ready: bool)

  datatype Pod = Pod(phase: Phase, status: Option<Status>)

  datatype Probe = Probe(initialDelay: int, period: int, failures: int)

  /** The workload behind the Pod: the readiness probe of its container, if it has one. */
  datatype Workload = Workload(probe: Option<Probe>)

  datatype Health = NoHealth | Starting | Healthy | Unhealthy

  /** What is remembered of a Pod. Identities are empty when there is no such instance. */
  datatype PodState = PodState(pod: Pod, startedAt: string, termination: string, exitCode: int, health: Health)

  datatype Event = Die(exitCode: int) | Start | Stop | HealthStatus(health: Health)

  const NEW_POD := PodState(Pod(Unknown, None), "", "", 0, NoHealth)

  function PhaseName(phase: Phase): string {
    match phase
    case Pending => "Pending" case Running => "Running" case Succeeded => "Succeeded" case Failed => "Failed" case Unknown => "Unknown"
  }

  function LastTermination(s: Status): Option<Termination> {
    if s.terminated.Some? then s.terminated else s.last
  }

  /** Sums and products of probe settings are computed in 32 bits. */
  function Wrap32(x: int): int {
    (x + 0x8000_0000) % 0x1_0000_0000 - 0x8000_0000
  }

  function Grace(p: Probe): int {
    var period := if p.period <= 0 then 10 else p.period;
    var failures := if p.failures <= 0 then 3 else p.failures;
    Wrap32(p.initialDelay + Wrap32(period * failures))
  }

  function HealthOf(w: Workload, status: Option<Status>, now: int): Health {
    if w.probe.None? then NoHealth
    else if status.None? then Starting
    else if status.value.running.None? then Unhealthy
    else if status.value.ready then Healthy
    else if now < status.value.running.value + Grace(w.probe.value) then Starting
    else Unhealthy
  }

  /** `observePodEventState`; `show` renders a time. */
  function Observe(show: int -> string, w: Option<Workload>, pod: Pod, now: int): PodState {
    match pod.status
    case None =>
      PodState(pod, if pod.phase == Running then PhaseName(pod.phase) else "",
               if pod.phase == Failed || pod.phase == Succeeded then PhaseName(pod.phase) else "", 0, NoHealth)
    case Some(status) =>
      var startedAt := if status.running.Some? then status.containerId + "@" + show(status.running.value) else "";
      var ended := LastTermination(status);
      PodState(pod, startedAt,
               if ended.Some? then ended.value.containerId + "@" + show(ended.value.finishedAt) else "",
               if ended.Some? then ended.value.exitCode else 0,
               if w.Some? && startedAt != "" then HealthOf(w.value, Some(status), now) else NoHealth)
  }

  predicate NewExit(previous: PodState, current: PodState) {
    current.termination != "" && current.termination != previous.termination
  }

  predicate NewStart(previous: PodState, current: PodState) {
    current.startedAt != "" && current.startedAt != previous.startedAt
  }

  predicate NewHealth(previous: PodState, current: PodState) {
    current.health != previous.health && (current.health == Healthy || current.health == Unhealthy)
  }

  /** `podTransitionEvents`. */
  function Transition(previous: PodState, current: PodState): seq<Event> {
    (if NewExit(previous, current) then [Die(current.exitCode)] else [])
    + (if NewStart(previous, current) then [Start] else [])
    + (if NewHealth(previous, current) then [HealthStatus(current.health)] else [])
  }

  // ----- what the Pods say, and what is reported of it

  /** The identity of the latest exit of a Pod's container, and of its running instance. */
  function ExitOf(show: int -> string, pod: Pod): string {
    match pod.status
    case None => if pod.phase == Failed || pod.phase == Succeeded then PhaseName(pod.phase) else ""
    case Some(status) =>
      var ended := LastTermination(status);
      if ended.Some? then ended.value.containerId + "@" + show(ended.value.finishedAt) else ""
  }

  function CodeOf(pod: Pod): int {
    if pod.status.None? || LastTermination(pod.status.value).None? then 0 else LastTermination(pod.status.value).value.exitCode
  }

  function InstanceOf(show: int -> string, pod: Pod): string {
    match pod.status
    case None => if pod.phase == Running then PhaseName(pod.phase) else ""
    case Some(status) => if status.running.Some? then status.containerId + "@" + show(status.running.value) else ""
  }

  /** A Pod as it was at an update, and whether its events were reported: not if it was there before the
      stream, nor without a known workload. */
  datatype Observation = Observation(pod: Pod, reported: bool)

  function Exits(show: int -> string, history: seq<Observation>): (ids: seq<string>)
    ensures |ids| == |history|
  {
    seq(|history|, i requires 0 <= i < |history| => ExitOf(show, history[i].pod))
  }

  function Instances(show: int -> string, history: seq<Observation>): (ids: seq<string>)
    ensures |ids| == |history|
  {
    seq(|history|, i requires 0 <= i < |history| => InstanceOf(show, history[i].pod))
  }

  /** What observation `i` of a history has to report: an exit, or an instance, that was not there before. */
  predicate IsDue(history: seq<Observation>, ids: seq<string>, i: nat)
    requires |ids| == |history| && i < |history|
  {
    history[i].reported && ids[i] != "" && ids[i] != if i == 0 then "" else ids[i - 1]
  }

  /** The events that were sent for an observation: its `die`, its `start`, and after these only health. */
  predicate Batch(die: seq<Event>, start: seq<Event>, events: seq<Event>) {
    die + start <= events && forall k :: |die| + |start| <= k < |events| ==> events[k].HealthStatus?
  }

  predicate BatchOk(show: int -> string, history: seq<Observation>, i: nat, events: seq<Event>)
    requires i < |history|
  {
    Batch(if IsDue(history, Exits(show, history), i) then [Die(CodeOf(history[i].pod))] else [],
          if IsDue(history, Instances(show, history), i) then [Start] else [], events)
  }

  /** More events for the last observation. */
  function WithMore(sent: seq<seq<Event>>, events: seq<Event>): seq<seq<Event>> {
    if sent == [] then [] else sent[|sent| - 1 := sent[|sent| - 1] + events]
  }

  // ----- the stream over all Pods

  class EventStream {
    const show: int -> string
    var states: map<string, PodState>
    /** For each remembered Pod, its observations and the events sent for each of them. */
    ghost var history: map<string, seq<Observation>>
    ghost var sent: map<string, seq<seq<Event>>>

    /** For every Pod and every observation, what was sent is what was due. */
    ghost predicate Valid()
      reads this
    {
      AllFaithful(show, states, history, sent)
    }

    /** Pods that are there already are remembered without events. */
    constructor (show: int -> string, initial: map<string, (Pod, Option<Workload>, int)>)
      ensures Valid() && this.show == show && states.Keys == initial.Keys
      ensures forall key :: key in initial ==>
                states[key] == Observe(show, initial[key].1, initial[key].0, initial[key].2) &&
                history[key] == [Observation(initial[key].0, false)] && sent[key] == [[]]
    {
      this.show := show;
      states := map key | key in initial :: Observe(show, initial[key].1, initial[key].0, initial[key].2);
      history := map key | key in initial :: [Observation(initial[key].0, false)];
      sent := map key | key in initial :: [[]];
      new;
      forall key | key in states
        ensures Faithful(show, states[key], history[key], sent[key])
      {
        ObserveShows(show, initial[key].1, initial[key].0, initial[key].2);
        UpdateFaithful(show, NEW_POD, [], [], states[key], false);
        assert [] + [Observation(initial[key].0, false)] == history[key] && [] + [[]] == sent[key];
      }
    }

    function StateOf(key: string): PodState
      reads this
    {
      if key in states then states[key] else NEW_POD
    }

    ghost function HistoryOf(key: string): seq<Observation>
      reads this
    {
      if key in history then history[key] else []
    }

    ghost function SentOf(key: string): seq<seq<Event>>
      reads this
    {
      if key in sent then sent[key] else []
    }

    /** A Pod was added or modified. Without a known workload it is only remembered. */
    method PodUpdate(key: string, pod: Pod, w: Option<Workload>, now: int) returns (events: seq<Event>)
      requires Valid()
      modifies this
      ensures Valid() && states == old(states)[key := Observe(show, w, pod, now)]
      ensures history == old(history)[key := old(HistoryOf(key)) + [Observation(pod, w.Some?)]]
      ensures events == if w.Some? then Transition(old(StateOf(key)), states[key]) else []
      ensures sent == old(sent)[key := old(SentOf(key)) + [events]]
    {
      var previous, current := StateOf(key), Observe(show, w, pod, now);
      events := if w.Some? then Transition(previous, current) else [];
      ghost var observed, emitted := HistoryOf(key) + [Observation(pod, w.Some?)], SentOf(key) + [events];
      ObserveShows(show, w, pod, now);
      UpdateFaithful(show, previous, HistoryOf(key), SentOf(key), current, w.Some?);
      OneFaithful(show, states, history, sent, key, current, observed, emitted);
      states, history, sent := states[key := current], history[key := observed], sent[key := emitted];
    }

    /** A Pod was deleted: it is forgotten, and its container stops if it was running. */
    method PodDelete(key: string, w: Option<Workload>) returns (events: seq<Event>)
      requires Valid()
      modifies this
      ensures Valid() && states == old(states) - {key} && history == old(history) - {key} && sent == old(sent) - {key}
      ensures events == if w.Some? && old(HistoryOf(key)) != [] && InstanceOf(show, Last(old(HistoryOf(key))).pod) != "" then [Stop] else []
    {
      var previous := StateOf(key);
      assert key in states ==> Faithful(show, states[key], history[key], sent[key]);
      states, history, sent := states - {key}, history - {key}, sent - {key};
      return if w.Some? && previous.startedAt != "" then [Stop] else [];
    }

    /** One Pod of the ticker. */
    method Poll(key: string, w: Option<Workload>, now: int) returns (events: seq<Event>)
      requires Valid() && key in states
      modifies this
      ensures Valid() && states == old(states)[key := Polled(show, old(states)[key], w, now)]
      ensures events == PollReport(show, old(states)[key], w, now)
      ensures history == old(history) && sent == old(sent)[key := WithMore(old(sent)[key], events)]
    {
      var previous := states[key];
      var current := Polled(show, previous, w, now);
      events := if previous.health == Starting && w.Some? then Transition(previous, current) else [];
      PollStep(show, states, history, sent, key, w, now);
      states, sent := states[key := current], sent[key := WithMore(sent[key], events)];
    }

    /** The ticker: Pods that are starting are looked at again. However workloads have changed since,
        each yields at most one event, that it is unhealthy. */
    method Tick(workloads: map<string, Workload>, now: int) returns (events: seq<Event>)
      requires Valid()
      modifies this
      ensures Valid() && history == old(history)
      ensures forall key :: key in states ==>
                states[key] == Polled(show, old(states)[key], Known(workloads, key), now) &&
                sent[key] == WithMore(old(sent)[key], PollReport(show, old(states)[key], Known(workloads, key), now))
      ensures forall e :: e in events ==> e == HealthStatus(Unhealthy)
      ensures |events| == |TurnedUnhealthy(show, old(states), old(states).Keys, workloads, now)| <= |states|
    {
      events := [];
      var before := states;
      ghost var sentBefore := sent;
      var todo := states.Keys;
      while todo != {}
        invariant Valid() && history == old(history) && todo <= before.Keys
        invariant Ticked(show, before, states, todo, workloads, now, events)
        invariant TickSent(show, before, sentBefore, sent, todo, workloads, now)
        decreases todo
      {
        var key :| key in todo;
        assert states[key] == before[key];
        ghost var was, sentWas := states, sent;
        var reported := Poll(key, Known(workloads, key), now);
        TickedNext(show, before, was, states, todo, workloads, now, events, reported, key);
        TickSentNext(show, before, sentBefore, sentWas, sent, todo, workloads, now, reported, key);
        events := events + reported;
        todo := todo - {key};
      }
      assert before.Keys - todo == before.Keys;
      TurnedAtMostAll(show, before, workloads, now);
    }

    /** In every state of the stream, after any sequence of calls, and for every Pod whose workload was
        known throughout: the `die` events sent for an exit are its arrivals among the statuses the Pod
        showed since it was last forgotten; so an exit that was not there before the stream was reported,
        and exactly once if and only if it was not seen again after another one. The same holds for
        instances and `start`. */
    lemma ExactlyOnce(key: string, id: string)
      requires Valid() && key in states && ReportedThroughout(history[key]) && id != ""
      ensures var exits, dies := Exits(show, history[key]), EventsFor(Exits(show, history[key]), sent[key], id, Die(0));
              && dies == Arrivals(From(history[key], exits), id)
              && (Fresh(history[key], exits, id) ==> dies >= 1 && (dies == 1 <==> Contiguous(exits, id)))
      ensures var instances, starts := Instances(show, history[key]), EventsFor(Instances(show, history[key]), sent[key], id, Start);
              && starts == Arrivals(From(history[key], instances), id)
              && (Fresh(history[key], instances, id) ==> starts >= 1 && (starts == 1 <==> Contiguous(instances, id)))
    {
      assert Faithful(show, states[key], history[key], sent[key]);
      SentIsDue(show, history[key], sent[key], id);
      ReportsAreArrivals(history[key], Exits(show, history[key]), id);
      ReportsAreArrivals(history[key], Instances(show, history[key]), id);
      OnceIfContiguous(history[key], Exits(show, history[key]), id);
      OnceIfContiguous(history[key], Instances(show, history[key]), id);
    }
  }

  function Last(history: seq<Observation>): Observation
    requires history != []
  {
    history[|history| - 1]
  }

  /** What is remembered agrees with the Pod it was observed from. */
  ghost predicate Shows(show: int -> string, s: PodState) {
    && s.termination == ExitOf(show, s.pod) && s.startedAt == InstanceOf(show, s.pod) && s.exitCode == CodeOf(s.pod)
    && (s.health == Starting ==> s.pod.status.Some? && s.pod.status.value.running.Some? && !s.pod.status.value.ready)
  }

  lemma ObserveShows(show: int -> string, w: Option<Workload>, pod: Pod, now: int)
    ensures Shows(show, Observe(show, w, pod, now)) && Observe(show, w, pod, now).pod == pod
  {
  }

  /** What is remembered and sent for a Pod is what its history says. */
  ghost predicate Faithful(show: int -> string, s: PodState, history: seq<Observation>, sent: seq<seq<Event>>) {
    && history != [] && s.pod == Last(history).pod && Shows(show, s)
    && Batches(show, history, sent)
  }

  ghost predicate Batches(show: int -> string, history: seq<Observation>, sent: seq<seq<Event>>) {
    |sent| == |history| && forall i :: 0 <= i < |history| ==> BatchOk(show, history, i, sent[i])
  }

  ghost predicate AllFaithful(show: int -> string, states: map<string, PodState>, history: map<string, seq<Observation>>,
                              sent: map<string, seq<seq<Event>>>) {
    && history.Keys == states.Keys && sent.Keys == states.Keys
    && forall key :: key in states ==> Faithful(show, states[key], history[key], sent[key])
  }

  lemma OneFaithful(show: int -> string, states: map<string, PodState>, history: map<string, seq<Observation>>,
                    sent: map<string, seq<seq<Event>>>, key: string, s: PodState, observed: seq<Observation>, emitted: seq<seq<Event>>)
    requires AllFaithful(show, states, history, sent) && Faithful(show, s, observed, emitted)
    ensures AllFaithful(show, states[key := s], history[key := observed], sent[key := emitted])
  {
  }

  lemma BatchStays(show: int -> string, history: seq<Observation>, longer: seq<Observation>, i: nat, events: seq<Event>)
    requires i < |history| && history <= longer && BatchOk(show, history, i, events)
    ensures BatchOk(show, longer, i, events)
  {
    assert Exits(show, longer)[i] == Exits(show, history)[i] && Instances(show, longer)[i] == Instances(show, history)[i];
    assert i > 0 ==> Exits(show, longer)[i - 1] == Exits(show, history)[i - 1];
    assert i > 0 ==> Instances(show, longer)[i - 1] == Instances(show, history)[i - 1];
  }

  lemma BatchMore(show: int -> string, history: seq<Observation>, i: nat, events: seq<Event>, more: seq<Event>)
    requires i < |history| && BatchOk(show, history, i, events) && forall e :: e in more ==> e.HealthStatus?
    ensures BatchOk(show, history, i, events + more)
  {
  }

  /** One update reports at most one `die`, then at most one `start`. */
  lemma TransitionBatch(previous: PodState, current: PodState)
    ensures Batch(if NewExit(previous, current) then [Die(current.exitCode)] else [],
                  if NewStart(previous, current) then [Start] else [], Transition(previous, current))
  {
  }

  lemma BatchesNext(show: int -> string, history: seq<Observation>, sent: seq<seq<Event>>, o: Observation, events: seq<Event>)
    requires Batches(show, history, sent) && BatchOk(show, history + [o], |history|, events)
    ensures Batches(show, history + [o], sent + [events])
  {
    forall i | 0 <= i < |history|
      ensures BatchOk(show, history + [o], i, (sent + [events])[i])
    {
      BatchStays(show, history, history + [o], i, sent[i]);
    }
  }

  lemma BatchesMore(show: int -> string, history: seq<Observation>, sent: seq<seq<Event>>, events: seq<Event>)
    requires Batches(show, history, sent) && forall e :: e in events ==> e.HealthStatus?
    ensures Batches(show, history, WithMore(sent, events))
  {
    if history != [] {
      var n := |history| - 1;
      assert BatchOk(show, history, n, sent[n]);
      BatchMore(show, history, n, sent[n], events);
    }
  }

  /** An update reports what is due, seen from the Pod as it was remembered. */
  lemma UpdateBatch(show: int -> string, previous: PodState, history: seq<Observation>, current: PodState, report: bool)
    requires if history == [] then previous == NEW_POD else previous.pod == Last(history).pod && Shows(show, previous)
    requires Shows(show, current)
    ensures BatchOk(show, history + [Observation(current.pod, report)], |history|, if report then Transition(previous, current) else [])
  {
    var longer, n := history + [Observation(current.pod, report)], |history|;
    TransitionBatch(previous, current);
    assert n > 0 ==> longer[n - 1] == Last(history);
    assert IsDue(longer, Exits(show, longer), n) == (report && NewExit(previous, current));
    assert IsDue(longer, Instances(show, longer), n) == (report && NewStart(previous, current));
  }

  /** An update of a Pod, remembered before or new, keeps the stream faithful to it. */
  lemma UpdateFaithful(show: int -> string, previous: PodState, history: seq<Observation>, sent: seq<seq<Event>>,
                       current: PodState, report: bool)
    requires if history == [] then previous == NEW_POD && sent == [] else Faithful(show, previous, history, sent)
    requires Shows(show, current)
    ensures Faithful(show, current, history + [Observation(current.pod, report)],
                     sent + [if report then Transition(previous, current) else []])
  {
    UpdateBatch(show, previous, history, current, report);
    BatchesNext(show, history, sent, Observation(current.pod, report), if report then Transition(previous, current) else []);
  }

  /** The ticker has looked at all Pods that are not `todo`. */
  ghost predicate Ticked(show: int -> string, before: map<string, PodState>, states: map<string, PodState>, todo: set<string>,
                         workloads: map<string, Workload>, now: int, events: seq<Event>) {
    && states.Keys == before.Keys
    && (forall key :: key in todo && key in before ==> states[key] == before[key])
    && (forall key :: key in before && key !in todo ==>
          states[key] == Polled(show, before[key], Known(workloads, key), now))
    && (forall e :: e in events ==> e == HealthStatus(Unhealthy))
    && |events| == |TurnedUnhealthy(show, before, before.Keys - todo, workloads, now)|
  }

  lemma TickedNext(show: int -> string, before: map<string, PodState>, was: map<string, PodState>, states: map<string, PodState>,
                   todo: set<string>, workloads: map<string, Workload>, now: int, events: seq<Event>, reported: seq<Event>, key: string)
    requires Ticked(show, before, was, todo, workloads, now, events) && key in todo && key in before
    requires var w := Known(workloads, key);
             && states == was[key := Polled(show, before[key], w, now)]
             && reported == if w.Some? && before[key].health == Starting && states[key].health == Unhealthy
                            then [HealthStatus(Unhealthy)] else []
    ensures Ticked(show, before, states, todo - {key}, workloads, now, events + reported)
  {
    assert before.Keys - (todo - {key}) == before.Keys - todo + {key};
    TurnedNext(show, before, before.Keys - todo, workloads, now, key);
  }

  ghost predicate TickSent(show: int -> string, before: map<string, PodState>, sentBefore: map<string, seq<seq<Event>>>,
                           sent: map<string, seq<seq<Event>>>, todo: set<string>, workloads: map<string, Workload>, now: int) {
    && sentBefore.Keys == before.Keys && sent.Keys == before.Keys
    && forall key :: key in before ==>
         sent[key] == if key in todo then sentBefore[key] else WithMore(sentBefore[key], PollReport(show, before[key], Known(workloads, key), now))
  }

  lemma TickSentNext(show: int -> string, before: map<string, PodState>, sentBefore: map<string, seq<seq<Event>>>,
                     was: map<string, seq<seq<Event>>>, sent: map<string, seq<seq<Event>>>, todo: set<string>,
                     workloads: map<string, Workload>, now: int, reported: seq<Event>, key: string)
    requires TickSent(show, before, sentBefore, was, todo, workloads, now) && key in todo && key in before
    requires reported == PollReport(show, before[key], Known(workloads, key), now) && sent == was[key := WithMore(was[key], reported)]
    ensures TickSent(show, before, sentBefore, sent, todo - {key}, workloads, now)
  {
  }

  /** The Pods, among some, that were starting and are unhealthy now. */
  ghost function TurnedUnhealthy(show: int -> string, states: map<string, PodState>, keys: set<string>,
                                 workloads: map<string, Workload>, now: int): set<string> {
    set key | key in keys && key in states && key in workloads && states[key].health == Starting &&
              Polled(show, states[key], Some(workloads[key]), now).health == Unhealthy
  }

  lemma TurnedNext(show: int -> string, states: map<string, PodState>, keys: set<string>, workloads: map<string, Workload>,
                   now: int, key: string)
    requires key in states && key !in keys
    ensures |TurnedUnhealthy(show, states, keys + {key}, workloads, now)| == |TurnedUnhealthy(show, states, keys, workloads, now)| +
              if key in workloads && states[key].health == Starting &&
                 Polled(show, states[key], Some(workloads[key]), now).health == Unhealthy then 1 else 0
  {
    var before, after := TurnedUnhealthy(show, states, keys, workloads, now), TurnedUnhealthy(show, states, keys + {key}, workloads, now);
    assert after == before || after == before + {key};
    assert key !in before;
  }

  lemma TurnedAtMostAll(show: int -> string, states: map<string, PodState>, workloads: map<string, Workload>, now: int)
    ensures |TurnedUnhealthy(show, states, states.Keys, workloads, now)| <= |states|
  {
    SubsetSize(TurnedUnhealthy(show, states, states.Keys, workloads, now), states.Keys);
  }

  /** What a poll makes of a remembered Pod. */
  function Polled(show: int -> string, s: PodState, w: Option<Workload>, now: int): PodState {
    if s.health == Starting then Observe(show, w, s.pod, now) else s
  }

  function Known(workloads: map<string, Workload>, key: string): Option<Workload> {
    if key in workloads then Some(workloads[key]) else None
  }

  /** All that a poll reports. */
  function PollReport(show: int -> string, s: PodState, w: Option<Workload>, now: int): seq<Event> {
    if w.Some? && s.health == Starting && Polled(show, s, w, now).health == Unhealthy then [HealthStatus(Unhealthy)] else []
  }

  /** A poll of one Pod keeps the stream faithful, and what it reports is what is sent. */
  lemma PollStep(show: int -> string, states: map<string, PodState>, history: map<string, seq<Observation>>,
                 sent: map<string, seq<seq<Event>>>, key: string, w: Option<Workload>, now: int)
    requires AllFaithful(show, states, history, sent) && key in states
    ensures var s := states[key];
            && AllFaithful(show, states[key := Polled(show, s, w, now)], history, sent[key := WithMore(sent[key], PollReport(show, s, w, now))])
            && (s.health == Starting && w.Some? ==> Transition(s, Polled(show, s, w, now)) == PollReport(show, s, w, now))
  {
    var s := states[key];
    var polled, events := Polled(show, s, w, now), PollReport(show, s, w, now);
    PollIsUnhealthy(show, s, w, now);
    BatchesMore(show, history[key], sent[key], events);
    OneFaithful(show, states, history, sent, key, polled, history[key], WithMore(sent[key], events));
    assert history[key := history[key]] == history;
  }

  /** A poll sees the same instance and the same exit, so all it can report is that a container that
      was starting has become unhealthy. */
  lemma PollIsUnhealthy(show: int -> string, s: PodState, w: Option<Workload>, now: int)
    requires Shows(show, s)
    ensures s.health == Starting ==>
              Transition(s, Polled(show, s, w, now)) == (if Polled(show, s, w, now).health == Unhealthy then [HealthStatus(Unhealthy)] else [])
    ensures Polled(show, s, w, now).startedAt == s.startedAt && Polled(show, s, w, now).termination == s.termination
    ensures Shows(show, Polled(show, s, w, now)) && Polled(show, s, w, now).pod == s.pod
    ensures w.None? && s.health == Starting ==> Polled(show, s, w, now).health == NoHealth
  {
    ObserveShows(show, w, s.pod, now);
    assert [] + [] + [HealthStatus(Unhealthy)] == [HealthStatus(Unhealthy)];
  }

  // ----- what a history reports, counted by identity

  /** How often a history calls for a report of `id`. */
  function Reports(history: seq<Observation>, ids: seq<string>, id: string): nat
    requires |ids| == |history|
  {
    if history == [] then 0
    else
      var n := |history| - 1;
      Reports(history[..n], ids[..n], id) + if IsDue(history, ids, n) && ids[n] == id then 1 else 0
  }

  predicate SameKind(e: Event, kind: Event) {
    (e.Die? && kind.Die?) || (e.Start? && kind.Start?)
  }

  function CountKind(events: seq<Event>, kind: Event): nat {
    if events == [] then 0 else CountKind(events[..|events| - 1], kind) + if SameKind(events[|events| - 1], kind) then 1 else 0
  }

  /** The events of a kind that were sent when the identity was `id`. */
  function EventsFor(ids: seq<string>, sent: seq<seq<Event>>, id: string, kind: Event): nat
    requires |sent| == |ids|
  {
    if ids == [] then 0
    else
      var n := |ids| - 1;
      EventsFor(ids[..n], sent[..n], id, kind) + if ids[n] == id then CountKind(sent[n], kind) else 0
  }

  lemma {:induction false} BatchCounts(die: seq<Event>, start: seq<Event>, events: seq<Event>)
    requires Batch(die, start, events) && (die == [] || (|die| == 1 && die[0].Die?)) && (start == [] || start == [Start])
    ensures CountKind(events, Die(0)) == |die| && CountKind(events, Start) == |start|
    decreases |events|
  {
    var n := |events| - 1;
    if |events| > |die| + |start| {
      BatchCounts(die, start, events[..n]);
    } else {
      assert events == die + start;
      if start != [] {
        assert events[..n] == die && (die != [] ==> die[..0] == []);
      } else if die != [] {
        assert events[..n] == [];
      }
    }
  }

  /** What was sent for an identity is what was due for it. */
  lemma {:induction false} SentIsDue(show: int -> string, history: seq<Observation>, sent: seq<seq<Event>>, id: string)
    requires Batches(show, history, sent) && id != ""
    ensures EventsFor(Exits(show, history), sent, id, Die(0)) == Reports(history, Exits(show, history), id)
    ensures EventsFor(Instances(show, history), sent, id, Start) == Reports(history, Instances(show, history), id)
    decreases |history|
  {
    if history != [] {
      var n := |history| - 1;
      PrefixOk(show, history, sent);
      SentIsDue(show, history[..n], sent[..n], id);
      BatchIsDue(show, history, n, sent[n]);
      ReportsLast(history, Exits(show, history), id);
      ReportsLast(history, Instances(show, history), id);
    }
  }

  lemma BatchIsDue(show: int -> string, history: seq<Observation>, i: nat, events: seq<Event>)
    requires i < |history| && BatchOk(show, history, i, events)
    ensures CountKind(events, Die(0)) == (if IsDue(history, Exits(show, history), i) then 1 else 0)
    ensures CountKind(events, Start) == (if IsDue(history, Instances(show, history), i) then 1 else 0)
  {
    BatchCounts(if IsDue(history, Exits(show, history), i) then [Die(CodeOf(history[i].pod))] else [],
                if IsDue(history, Instances(show, history), i) then [Start] else [], events);
  }

  lemma ReportsLast(history: seq<Observation>, ids: seq<string>, id: string)
    requires |ids| == |history| > 0
    ensures var n := |history| - 1;
            Reports(history, ids, id) == Reports(history[..n], ids[..n], id) + if IsDue(history, ids, n) && ids[n] == id then 1 else 0
  {
  }

  lemma PrefixOk(show: int -> string, history: seq<Observation>, sent: seq<seq<Event>>)
    requires Batches(show, history, sent) && history != []
    ensures var n := |history| - 1;
            && Exits(show, history)[..n] == Exits(show, history[..n]) && Instances(show, history)[..n] == Instances(show, history[..n])
            && Batches(show, history[..n], sent[..n])
  {
    var n := |history| - 1;
    forall i | 0 <= i < n
      ensures BatchOk(show, history[..n], i, sent[..n][i])
    {
      assert BatchOk(show, history, i, sent[i]);
    }
  }

  /** The workload is known at every update; only the first observation may be from before the stream. */
  predicate ReportedThroughout(history: seq<Observation>) {
    forall i :: 0 < i < |history| ==> history[i].reported
  }

  /** `id` was seen, and not already before the stream. */
  predicate Fresh(history: seq<Observation>, ids: seq<string>, id: string)
    requires |ids| == |history|
  {
    id in ids && (history[0].reported || ids[0] != id)
  }

  /** The identities from which arrivals count: those of the history, after nothing if the first one is
      reported too. */
  function From(history: seq<Observation>, ids: seq<string>): seq<string> {
    if history != [] && !history[0].reported then ids else [""] + ids
  }

  /** How often a sequence of identities arrives at `id` from another one. */
  function Arrivals(ids: seq<string>, id: string): nat {
    if |ids| < 2 then 0 else (if ids[1] == id && ids[0] != id then 1 else 0) + Arrivals(ids[1..], id)
  }

  /** Once left, `id` is not seen again. */
  ghost predicate Contiguous(ids: seq<string>, id: string) {
    forall i, j, k :: 0 <= i < j < k < |ids| && ids[i] == id && ids[k] == id ==> ids[j] == id
  }

  lemma {:induction false} ArrivalsLast(ids: seq<string>, last: string, id: string)
    requires ids != []
    ensures Arrivals(ids + [last], id) == Arrivals(ids, id) + if last == id && ids[|ids| - 1] != id then 1 else 0
    decreases |ids|
  {
    if |ids| > 1 {
      assert (ids + [last])[1..] == ids[1..] + [last];
      ArrivalsLast(ids[1..], last, id);
    } else {
      assert (ids + [last])[1..] == [last];
    }
  }

  /** Each report of an identity is an arrival at it, and conversely. */
  lemma {:induction false} ReportsAreArrivals(history: seq<Observation>, ids: seq<string>, id: string)
    requires |ids| == |history| && id != "" && ReportedThroughout(history)
    ensures Reports(history, ids, id) == Arrivals(From(history, ids), id)
    decreases |history|
  {
    if history != [] {
      var n := |history| - 1;
      ReportsAreArrivals(history[..n], ids[..n], id);
      FromLast(history, ids, id);
    }
  }

  lemma FromLast(history: seq<Observation>, ids: seq<string>, id: string)
    requires |ids| == |history| > 0 && id != "" && ReportedThroughout(history)
    ensures var n := |history| - 1;
            Arrivals(From(history, ids), id) == Arrivals(From(history[..n], ids[..n]), id) +
              if IsDue(history, ids, n) && ids[n] == id then 1 else 0
  {
    var n := |history| - 1;
    var from := From(history[..n], ids[..n]);
    if n == 0 && !history[n].reported {
      assert |from| == 1;
    } else {
      assert From(history, ids) == from + [ids[n]];
      assert from[|from| - 1] == if n == 0 then "" else ids[n - 1];
      ArrivalsLast(from, ids[n], id);
    }
  }

  lemma OnceIfContiguous(history: seq<Observation>, ids: seq<string>, id: string)
    requires |ids| == |history| && id != "" && ReportedThroughout(history)
    ensures Fresh(history, ids, id) ==> Reports(history, ids, id) >= 1 && (Reports(history, ids, id) == 1 <==> Contiguous(ids, id))
  {
    if Fresh(history, ids, id) {
      var from := From(history, ids);
      var skip := |from| - |ids|;
      assert forall i :: 0 <= i < |ids| ==> from[skip + i] == ids[i];
      ReportsAreArrivals(history, ids, id);
      SomeArrival(from, id);
      ContiguousFrom(ids, id);
    }
  }

  lemma ContiguousFrom(ids: seq<string>, id: string)
    requires id != ""
    ensures Contiguous([""] + ids, id) <==> Contiguous(ids, id)
  {
    var from := [""] + ids;
    if Contiguous(from, id) {
      forall i, j, k | 0 <= i < j < k < |ids| && ids[i] == id && ids[k] == id
        ensures ids[j] == id
      {
        assert from[i + 1] == id && from[k + 1] == id && from[j + 1] == ids[j];
      }
    }
    if Contiguous(ids, id) {
      forall i, j, k | 0 <= i < j < k < |from| && from[i] == id && from[k] == id
        ensures from[j] == id
      {
        assert ids[i - 1] == id && ids[k - 1] == id && ids[j - 1] == from[j];
      }
    }
  }

  lemma {:induction false} NoArrival(ids: seq<string>, id: string)
    requires forall i :: 0 <= i < |ids| ==> ids[i] != id
    ensures Arrivals(ids, id) == 0
  {
    if |ids| >= 2 { NoArrival(ids[1..], id); }
  }

  /** From `id` on, there is another arrival exactly if `id` is left and seen again. */
  lemma {:induction false} ArrivalsFrom(ids: seq<string>, id: string)
    requires |ids| > 0 && ids[0] == id
    ensures Arrivals(ids, id) == 0 <==> Contiguous(ids, id)
    decreases |ids|
  {
    if |ids| >= 2 {
      var rest := ids[1..];
      if rest[0] == id {
        ArrivalsFrom(rest, id);
        assert Contiguous(ids, id) ==> Contiguous(rest, id);
        if Contiguous(rest, id) {
          forall i, j, k | 0 <= i < j < k < |ids| && ids[i] == id && ids[k] == id
            ensures ids[j] == id
          {
            if j > 1 { assert rest[0] == id && rest[j - 1] == ids[j] && rest[k - 1] == ids[k]; }
          }
        }
      } else if k :| 0 <= k < |rest| && rest[k] == id {
        assert ids[0] == id && ids[1] != id && ids[k + 1] == id;
        SomeArrival(rest, id);
      } else {
        NoArrival(rest, id);
      }
    }
  }

  lemma {:induction false} SomeArrival(ids: seq<string>, id: string)
    requires |ids| > 0 && ids[0] != id && exists k :: 0 <= k < |ids| && ids[k] == id
    ensures Arrivals(ids, id) >= 1
    ensures Arrivals(ids, id) == 1 <==> Contiguous(ids, id)
    decreases |ids|
  {
    var k :| 0 <= k < |ids| && ids[k] == id;
    var rest := ids[1..];
    assert rest[k - 1] == id;
    if rest[0] == id { ArrivalsFrom(rest, id); } else { SomeArrival(rest, id); }
    assert Contiguous(ids, id) ==> Contiguous(rest, id);
    if Contiguous(rest, id) {
      forall i, j, l | 0 <= i < j < l < |ids| && ids[i] == id && ids[l] == id
        ensures ids[j] == id
      {
        assert rest[i - 1] == ids[i] && rest[j - 1] == ids[j] && rest[l - 1] == ids[l];
      }
    }
  }

  /** An exit keeps its identity when a restart moves it from the current to the last termination, so
      that update reports the restart and no second exit. */
  lemma RestartIsNoExit(show: int -> string, s: Status, t: Termination, s': Status, w: Workload, w': Workload, phase: Phase,
                        phase': Phase, now: int, now': int)
    requires s.terminated == Some(t) && s.running.None?
    requires s'.terminated.None? && s'.last == Some(t) && s'.running.Some?
    ensures var before := Observe(show, Some(w), Pod(phase, Some(s)), now);
            var after := Observe(show, Some(w'), Pod(phase', Some(s')), now');
            after.termination == before.termination && Batch([], [Start], Transition(before, after))
  {
    ObserveShows(show, Some(w), Pod(phase, Some(s)), now);
    var after := Observe(show, Some(w'), Pod(phase', Some(s')), now');
    assert after.startedAt == s'.containerId + "@" + show(s'.running.value) && |after.startedAt| > 0;
  }

  /** The condition fails when a Pod loses its container status and then shows the same exit again:
      whatever the stream has sent for it, two `die` events are for that exit. */
  lemma ExitTwice(show: int -> string, t: Termination)
    ensures var exited := Pod(Failed, Some(Status(t.containerId, None, Some(t), None, false)));
            var history := [Observation(exited, true), Observation(Pod(Pending, None), true), Observation(exited, true)];
            var id := t.containerId + "@" + show(t.finishedAt);
            && !Contiguous(Exits(show, history), id)
            && forall sent :: Batches(show, history, sent) ==> EventsFor(Exits(show, history), sent, id, Die(0)) == 2
  {
    var exited := Observation(Pod(Failed, Some(Status(t.containerId, None, Some(t), None, false))), true);
    var gone := Observation(Pod(Pending, None), true);
    var history := [exited, gone, exited];
    var id := t.containerId + "@" + show(t.finishedAt);
    assert |id| > 0 && ExitOf(show, exited.pod) == id && ExitOf(show, gone.pod) == "";
    var exits := Exits(show, history);
    assert exits == [id, "", id] && exits[0] == id && exits[1] == "" && exits[2] == id;
    TwoReports(history, id);
    forall sent | Batches(show, history, sent)
      ensures EventsFor(exits, sent, id, Die(0)) == 2
    {
      SentIsDue(show, history, sent, id);
    }
  }

  lemma TwoReports(history: seq<Observation>, id: string)
    requires |history| == 3 && id != "" && forall o :: o in history ==> o.reported
    ensures Reports(history, [id, "", id], id) == 2
  {
    var ids := [id, "", id];
    assert ids[..2] == [id, ""] && [id, ""][..1] == [id] && [id][..0] == [];
    assert history[..2][..1] == [history[0]] && history[..1][..0] == [];
    assert Reports(history[..2][..1], [id], id) == 1;
    assert Reports(history[..2], [id, ""], id) == 1;
  }

  // ----- health over time

  /** 32-bit arithmetic: congruent, in range, and the number itself if that is in range. */
  lemma Wrap32Means(x: int)
    ensures -0x8000_0000 <= Wrap32(x) < 0x8000_0000 && exists k: int :: Wrap32(x) == x + k * 0x1_0000_0000
    ensures -0x8000_0000 <= x < 0x8000_0000 ==> Wrap32(x) == x
  {
    var k := (x + 0x8000_0000) / 0x1_0000_0000;
    assert Wrap32(x) == x + (-k) * 0x1_0000_0000;
  }

  /** The time a container has to become ready: its start period and all retries; what is not set counts
      as a period of ten seconds and three retries. */
  lemma GraceMeans(p: Probe)
    ensures p.period > 0 && p.failures > 0 && p.initialDelay >= 0 && p.initialDelay + p.period * p.failures < 0x8000_0000 ==>
              Grace(p) == p.initialDelay + p.period * p.failures
    ensures p.period <= 0 ==> Grace(p) == Grace(p.(period := 10))
    ensures p.failures <= 0 ==> Grace(p) == Grace(p.(failures := 3))
  {
    if p.period > 0 && p.failures > 0 {
      assert p.period * p.failures > 0;
      Wrap32Means(p.period * p.failures);
      Wrap32Means(p.initialDelay + p.period * p.failures);
    }
  }

  /** Health follows the status: none without a probe, healthy exactly while the container runs and is
      ready, unhealthy if it does not run; one that runs and is not ready is starting up to a fixed moment
      and unhealthy from then on. */
  lemma HealthMeans(w: Workload, status: Status, now: int)
    ensures HealthOf(w, Some(status), now) == NoHealth <==> w.probe == None
    ensures HealthOf(w, Some(status), now) == Healthy <==> w.probe.Some? && status.running.Some? && status.ready
    ensures w.probe.Some? && status.running == None ==> HealthOf(w, Some(status), now) == Unhealthy
    ensures w.probe.Some? && status.running.Some? && !status.ready ==>
              HealthOf(w, Some(status), now) == if now < status.running.value + Grace(w.probe.value) then Starting else Unhealthy
  {
  }

  /** A running container of a known workload is remembered with its health, any other one without. */
  lemma RememberedHealth(show: int -> string, w: Option<Workload>, pod: Pod, now: int)
    ensures Observe(show, w, pod, now).health ==
            if w.Some? && pod.status.Some? && pod.status.value.running.Some? then HealthOf(w.value, pod.status, now) else NoHealth
  {
    if pod.status.Some? && pod.status.value.running.Some? {
      var startedAt := pod.status.value.containerId + "@" + show(pod.status.value.running.value);
      assert |startedAt| > 0 && Observe(show, w, pod, now).startedAt == startedAt;
    }
  }

  /** A change of health is reported exactly when the container has become healthy or unhealthy. */
  lemma HealthReported(previous: PodState, current: PodState, h: Health)
    ensures HealthStatus(h) in Transition(previous, current) <==>
            h == current.health && current.health != previous.health && h in {Healthy, Unhealthy}
  {
  }

  /** Polls of a Pod under one workload report once that it has become unhealthy: no poll before the end of
      its grace, the first one after it, and none after that. */
  lemma UnhealthyOnce(show: int -> string, s: PodState, w: Workload, first: int, second: int)
    requires Shows(show, s) && s.health == Starting && w.probe.Some? && first <= second
    ensures PollReport(show, s, Some(w), first) ==
            if first < s.pod.status.value.running.value + Grace(w.probe.value) then [] else [HealthStatus(Unhealthy)]
    ensures PollReport(show, Polled(show, s, Some(w), first), Some(w), second) ==
            if PollReport(show, s, Some(w), first) == [] then PollReport(show, s, Some(w), second) else []
  {
    var status := s.pod.status.value;
    HealthMeans(w, status, first);
    HealthMeans(w, status, second);
    ObserveShows(show, Some(w), s.pod, first);
    assert Observe(show, Some(w), s.pod, first).startedAt == status.containerId + "@" + show(status.running.value);
    assert |Observe(show, Some(w), s.pod, first).startedAt| > 0 && |Observe(show, Some(w), s.pod, second).startedAt| > 0;
  }
}
