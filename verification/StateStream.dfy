/** The server-sent state stream: publishers store a snapshot and then notify, the
    notification is handed to the event loop, the loop puts it into a queue of 128
    entries or drops it, and the stream turns queue entries and timeouts into
    frames.  Every interleaving of these steps is a run. */
module StateStream {
  import opened Sequences

  const QUEUE_SIZE := 128

  datatype Event = Event(status: string, detail: string)

  /** An event with its place in the order of notifications. */
  datatype Stamped = Stamped(event: Event, at: nat)

  datatype Frame = SnapshotFrame(event: Event) | EventFrame(event: Event)

  /** The last four fields are history: what was stored and notified so far, and
      which notifications were dropped on a full queue or refused by a closed loop. */
  datatype State = State(
    snapshot: Event,
    inFlight: map<nat, Event>,
    pending: seq<Stamped>,
    queue: seq<Stamped>,
    delivered: seq<Stamped>,
    frames: seq<Frame>,
    stored: seq<Event>,
    log: seq<Event>,
    dropped: set<nat>,
    refused: set<nat>)

  datatype Action =
    | Store(publisher: nat, event: Event)
    | Notify(publisher: nat, loopOpen: bool)
    | RunCallback
    | Deliver
    | SendSnapshot

  /** A stream that has just subscribed and sent nothing yet. */
  function Connected(snapshot: Event): State {
    State(snapshot, map[], [], [], [], [], [], [], {}, {})
  }

  /** The snapshot is sent as first frame, before the loop, and on every timeout. */
  predicate Enabled(s: State, a: Action) {
    match a
    case Store(publisher, _) => publisher !in s.inFlight
    case Notify(publisher, _) => publisher in s.inFlight
    case RunCallback => s.pending != []
    case Deliver => s.queue != [] && s.frames != []
    case SendSnapshot => true
  }

  function Step(s: State, a: Action): State {
    if !Enabled(s, a) then s
    else
      match a
      case Store(publisher, event) =>
        s.(snapshot := event, stored := s.stored + [event], inFlight := s.inFlight[publisher := event])
      case Notify(publisher, loopOpen) =>
        var event, place := s.inFlight[publisher], |s.log|;
        var after := s.(inFlight := s.inFlight - {publisher}, log := s.log + [event]);
        if loopOpen then after.(pending := s.pending + [Stamped(event, place)])
        else after.(refused := s.refused + {place})
      case RunCallback =>
        var head := s.pending[0];
        if |s.queue| >= QUEUE_SIZE
        then s.(pending := s.pending[1..], dropped := s.dropped + {head.at})
        else s.(pending := s.pending[1..], queue := s.queue + [head])
      case Deliver =>
        var head := s.queue[0];
        s.(queue := s.queue[1..], delivered := s.delivered + [head], frames := s.frames + [EventFrame(head.event)])
      case SendSnapshot => s.(frames := s.frames + [SnapshotFrame(s.snapshot)])
  }

  function Run(s: State, run: seq<Action>): State {
    if run == [] then s else Step(Run(s, run[..|run| - 1]), run[|run| - 1])
  }

  /** The direct variant, whose subscriber puts into the queue itself. */
  function NotifyDirectly(s: State, publisher: nat): State
    requires publisher in s.inFlight
  {
    var event, place := s.inFlight[publisher], |s.log|;
    var after := s.(inFlight := s.inFlight - {publisher}, log := s.log + [event]);
    if |s.queue| >= QUEUE_SIZE then after.(dropped := s.dropped + {place})
    else after.(queue := s.queue + [Stamped(event, place)])
  }

  /** ... is the two-stage one with its callback run at once. */
  lemma DirectIsNotifyThenCallback(s: State, publisher: nat)
    requires publisher in s.inFlight && s.pending == []
    ensures Run(s, [Notify(publisher, true), RunCallback]) == NotifyDirectly(s, publisher)
  {
    var run := [Notify(publisher, true), RunCallback];
    assert run[..1] == [Notify(publisher, true)] && run[..1][..0] == [];
    assert Run(s, []) == s;
    assert Run(s, run[..1]) == Step(s, Notify(publisher, true));
  }

  // ---------- the stream as an object ----------

  /** The log is kept to number the notifications; it and the ghost fields are history. */
  class Stream {
    var snapshot: Event
    var inFlight: map<nat, Event>
    var pending: seq<Stamped>
    var queue: seq<Stamped>
    var frames: seq<Frame>
    ghost var delivered: seq<Stamped>
    ghost var stored: seq<Event>
    var log: seq<Event>
    ghost var dropped: set<nat>
    ghost var refused: set<nat>

    ghost function View(): State
      reads this
    {
      State(snapshot, inFlight, pending, queue, delivered, frames, stored, log, dropped, refused)
    }

    constructor (snapshot: Event)
      ensures View() == Connected(snapshot)
    {
      this.snapshot := snapshot;
      inFlight := map[];
      pending, queue, delivered := [], [], [];
      frames := [];
      stored, log := [], [];
      dropped, refused := {}, {};
    }

    /** The bus: keep the event as snapshot ... */
    method Publish(publisher: nat, event: Event)
      requires publisher !in inFlight
      modifies this`snapshot, this`stored, this`inFlight
      ensures View() == Step(old(View()), Store(publisher, event))
    {
      snapshot := event;
      stored := stored + [event];
      inFlight := inFlight[publisher := event];
    }

    /** ... and then call the subscriber, which schedules the callback. */
    method OnEvent(publisher: nat, loopOpen: bool)
      requires publisher in inFlight
      modifies this`inFlight, this`log, this`pending, this`refused
      ensures View() == Step(old(View()), Notify(publisher, loopOpen))
    {
      var event := inFlight[publisher];
      inFlight := inFlight - {publisher};
      if loopOpen {
        pending := pending + [Stamped(event, |log|)];
      } else {
        refused := refused + {|log|};
      }
      log := log + [event];
    }

    method Enqueue()
      requires pending != []
      modifies this`pending, this`queue, this`dropped
      ensures View() == Step(old(View()), RunCallback)
    {
      var item := pending[0];
      pending := pending[1..];
      if |queue| >= QUEUE_SIZE {
        dropped := dropped + {item.at};
        return;
      }
      queue := queue + [item];
    }

    /** The next frame: the first one is the snapshot, then each turn of the loop
        waits for an entry until the timeout. */
    method NextFrame(timedOut: bool)
      requires frames == [] || timedOut || queue != []
      modifies this`queue, this`delivered, this`frames
      ensures View() == Step(old(View()), if old(frames) == [] || timedOut then SendSnapshot else Deliver)
    {
      if frames == [] || timedOut {
        frames := frames + [SnapshotFrame(snapshot)];
      } else {
        var item := queue[0];
        queue := queue[1..];
        delivered := delivered + [item];
        frames := frames + [EventFrame(item.event)];
      }
    }

    /** Any schedule of publishers, callbacks and loop turns. */
    method Serve(schedule: seq<Action>)
      modifies this
      ensures View() == Run(old(View()), schedule)
    {
      for i := 0 to |schedule|
        invariant View() == Run(old(View()), schedule[..i])
      {
        assert schedule[..i + 1][..i] == schedule[..i];
        match schedule[i]
        case Store(publisher, event) =>
          if publisher !in inFlight {
            Publish(publisher, event);
          }
        case Notify(publisher, loopOpen) =>
          if publisher in inFlight {
            OnEvent(publisher, loopOpen);
          }
        case RunCallback =>
          if pending != [] {
            Enqueue();
          }
        case Deliver =>
          if queue != [] && frames != [] {
            NextFrame(false);
          }
        case SendSnapshot => NextFrame(true);
      }
      assert schedule[..|schedule|] == schedule;
    }
  }

  // ---------- nothing is reordered, duplicated or lost unaccounted ----------

  /** The log without the lost positions, each entry with its position. */
  function Kept(log: seq<Event>, lost: set<nat>): seq<Stamped> {
    if log == [] then []
    else
      var n := |log| - 1;
      Kept(log[..n], lost) + if n in lost then [] else [Stamped(log[n], n)]
  }

  predicate Reflects(kept: seq<Stamped>, log: seq<Event>) {
    forall i :: 0 <= i < |kept| ==> kept[i].at < |log| && kept[i].event == log[kept[i].at]
  }

  predicate Increasing(kept: seq<Stamped>) {
    forall i, j :: 0 <= i < j < |kept| ==> kept[i].at < kept[j].at
  }

  lemma {:induction false} KeptIsIncreasing(log: seq<Event>, lost: set<nat>)
    ensures Reflects(Kept(log, lost), log) && Increasing(Kept(log, lost))
  {
    if log != [] {
      var n := |log| - 1;
      KeptIsIncreasing(log[..n], lost);
      var before, kept := Kept(log[..n], lost), Kept(log, lost);
      forall i | 0 <= i < |kept|
        ensures kept[i].at < |log| && kept[i].event == log[kept[i].at]
      {
        if i < |before| {
          assert kept[i] == before[i];
        }
      }
    }
  }

  lemma {:induction false} KeptIgnoresLater(log: seq<Event>, lost: set<nat>, place: nat)
    requires |log| <= place
    ensures Kept(log, lost + {place}) == Kept(log, lost)
  {
    if log != [] {
      KeptIgnoresLater(log[..|log| - 1], lost, place);
    }
  }

  /** Losing one more kept entry takes it out of its place. */
  lemma {:induction false} KeptWithoutOne(log: seq<Event>, lost: set<nat>, i: nat)
    requires i < |Kept(log, lost)|
    ensures var kept := Kept(log, lost);
            Kept(log, lost + {kept[i].at}) == kept[..i] + kept[i + 1..]
  {
    var n := |log| - 1;
    var before := Kept(log[..n], lost);
    var kept := Kept(log, lost);
    if i < |before| {
      KeptIsIncreasing(log[..n], lost);
      KeptWithoutOne(log[..n], lost, i);
      assert kept[i] == before[i];
      if n in lost {
        assert kept == before;
      } else {
        assert kept[i + 1..] == before[i + 1..] + [Stamped(log[n], n)];
      }
    } else {
      KeptIgnoresLater(log[..n], lost, n);
      assert kept[i].at == n;
    }
  }

  lemma {:induction false} KeptCounts(log: seq<Event>, lost: set<nat>)
    requires forall p :: p in lost ==> p < |log|
    ensures |Kept(log, lost)| + |lost| == |log|
  {
    if log == [] {
      assert lost == {};
    } else {
      var n := |log| - 1;
      KeptCounts(log[..n], lost - {n});
      if n in lost {
        assert lost == lost - {n} + {n};
        KeptIgnoresLater(log[..n], lost - {n}, n);
      } else {
        assert lost - {n} == lost;
      }
    }
  }

  predicate Accounted(s: State) {
    && s.delivered + s.queue + s.pending == Kept(s.log, s.dropped + s.refused)
    && |s.queue| <= QUEUE_SIZE
    && s.dropped !! s.refused
    && (forall p :: p in s.dropped + s.refused ==> p < |s.log|)
  }

  lemma StepKeepsAccounted(s: State, a: Action)
    requires Accounted(s)
    ensures Accounted(Step(s, a))
  {
    if Enabled(s, a) {
      var lost, place := s.dropped + s.refused, |s.log|;
      match a
      case Store(_, _) =>
      case SendSnapshot =>
      case Deliver =>
        assert s.delivered + s.queue == s.delivered + [s.queue[0]] + s.queue[1..];
      case Notify(publisher, loopOpen) =>
        var log := s.log + [s.inFlight[publisher]];
        assert log[..place] == s.log;
        if !loopOpen {
          KeptIgnoresLater(s.log, lost, place);
          assert s.dropped + (s.refused + {place}) == lost + {place};
        }
      case RunCallback =>
        CallbackKeepsAccounted(s);
    }
  }

  lemma CallbackKeepsAccounted(s: State)
    requires Accounted(s) && s.pending != []
    ensures Accounted(Step(s, RunCallback))
  {
    var lost, ahead := s.dropped + s.refused, s.delivered + s.queue;
    var kept := Kept(s.log, lost);
    assert kept[|ahead|] == s.pending[0];
    assert kept[|ahead| + 1..] == s.pending[1..] && kept[..|ahead|] == ahead;
    if |s.queue| >= QUEUE_SIZE {
      var place := s.pending[0].at;
      KeptWithoutOne(s.log, lost, |ahead|);
      KeptIsIncreasing(s.log, lost);
      assert s.dropped + {place} + s.refused == lost + {place};
      KeptAreNotLost(s.log, lost, |ahead|);
    } else {
      assert s.delivered + (s.queue + [s.pending[0]]) + s.pending[1..] == ahead + s.pending;
    }
  }

  lemma {:induction false} KeptAreNotLost(log: seq<Event>, lost: set<nat>, i: nat)
    requires i < |Kept(log, lost)|
    ensures Kept(log, lost)[i].at !in lost
  {
    var n := |log| - 1;
    if i < |Kept(log[..n], lost)| {
      KeptAreNotLost(log[..n], lost, i);
    }
  }

  lemma {:induction false} RunKeepsAccounted(s: State, run: seq<Action>)
    requires Accounted(s)
    ensures Accounted(Run(s, run))
  {
    if run != [] {
      RunKeepsAccounted(s, run[..|run| - 1]);
      StepKeepsAccounted(Run(s, run[..|run| - 1]), run[|run| - 1]);
    }
  }

  function Events(items: seq<Stamped>): seq<Event> {
    seq(|items|, i requires 0 <= i < |items| => items[i].event)
  }

  /** Every interleaving: what was delivered comes from the log at increasing
      positions, the queue is bounded, and every notification is delivered, queued,
      pending, dropped or refused, exactly once. */
  lemma StreamConserves(snapshot: Event, run: seq<Action>)
    ensures var s := Run(Connected(snapshot), run);
            && |s.queue| <= QUEUE_SIZE
            && |s.log| == |s.delivered| + |s.queue| + |s.pending| + |s.dropped| + |s.refused|
            && Reflects(s.delivered, s.log)
            && Increasing(s.delivered)
  {
    var s := Run(Connected(snapshot), run);
    assert Accounted(s) by {
      RunKeepsAccounted(Connected(snapshot), run);
    }
    var lost, all := s.dropped + s.refused, s.delivered + s.queue + s.pending;
    KeptCounts(s.log, lost);
    KeptIsIncreasing(s.log, lost);
    assert forall i :: 0 <= i < |s.delivered| ==> s.delivered[i] == all[i];
  }

  /** ... and delivered, queued and pending together are the whole log, in order,
      exactly when nothing was dropped or refused. */
  lemma LosslessIffNothingLost(snapshot: Event, run: seq<Action>)
    ensures var s := Run(Connected(snapshot), run);
            Events(s.delivered + s.queue + s.pending) == s.log <==> s.dropped == {} && s.refused == {}
  {
    var s := Run(Connected(snapshot), run);
    assert Accounted(s) by {
      RunKeepsAccounted(Connected(snapshot), run);
    }
    StreamConserves(snapshot, run);
    if s.dropped == {} && s.refused == {} {
      KeptNothingLost(s.log);
      assert s.dropped + s.refused == {};
    }
  }

  lemma {:induction false} KeptNothingLost(log: seq<Event>)
    ensures Events(Kept(log, {})) == log
  {
    if log != [] {
      KeptNothingLost(log[..|log| - 1]);
      assert log == log[..|log| - 1] + [log[|log| - 1]];
    }
  }

  /** Every callback that ran found room in the queue. */
  predicate AlwaysRoom(s: State, run: seq<Action>) {
    run == [] ||
    var before := Run(s, run[..|run| - 1]);
    AlwaysRoom(s, run[..|run| - 1])
    && (run[|run| - 1].RunCallback? && before.pending != [] ==> |before.queue| < QUEUE_SIZE)
  }

  /** A queue nobody reads takes 128 entries, and drops what comes after. */
  lemma {:induction false} UnreadQueueTakes128(snapshot: Event, run: seq<Action>)
    requires forall i :: 0 <= i < |run| ==> !run[i].Deliver?
    ensures var s := Run(Connected(snapshot), run);
            && s.delivered == []
            && |s.queue| + |s.dropped| + |s.pending| + |s.refused| == |s.log|
            && |s.queue| <= 128
            && (s.dropped != {} ==> |s.queue| == 128)
  {
    hide Step;
    if run != [] {
      var before := Run(Connected(snapshot), run[..|run| - 1]);
      UnreadQueueTakes128(snapshot, run[..|run| - 1]);
      UnreadStep(before, run[|run| - 1]);
    }
    StreamConserves(snapshot, run);
  }

  lemma UnreadStep(s: State, a: Action)
    requires !a.Deliver? && s.delivered == [] && |s.queue| <= 128 && (s.dropped != {} ==> |s.queue| == 128)
    ensures var after := Step(s, a);
            after.delivered == [] && |after.queue| <= 128 && (after.dropped != {} ==> |after.queue| == 128)
  {
  }

  /** The loop was open at every notification. */
  predicate AlwaysOpen(s: State, run: seq<Action>) {
    run == [] ||
    var before, a := Run(s, run[..|run| - 1]), run[|run| - 1];
    AlwaysOpen(s, run[..|run| - 1]) && (a.Notify? && Enabled(before, a) ==> a.loopOpen)
  }

  lemma StepLosesOnlyHere(s: State, a: Action)
    ensures Step(s, a).dropped == {} <==> s.dropped == {} && (a.RunCallback? && s.pending != [] ==> |s.queue| < QUEUE_SIZE)
    ensures Step(s, a).refused == {} <==> s.refused == {} && (a.Notify? && Enabled(s, a) ==> a.loopOpen)
  {
    if s.pending != [] {
      assert s.pending[0].at in s.dropped + {s.pending[0].at};
    }
    assert |s.log| in s.refused + {|s.log|};
  }

  /** The stream is the published sequence if and only if no callback met a full
      queue and the loop was open at every notification. */
  lemma {:induction false} LosslessIffAlwaysRoom(snapshot: Event, run: seq<Action>)
    ensures var s := Run(Connected(snapshot), run);
            && (s.dropped == {} <==> AlwaysRoom(Connected(snapshot), run))
            && (s.refused == {} <==> AlwaysOpen(Connected(snapshot), run))
            && (Events(s.delivered + s.queue + s.pending) == s.log
                <==> AlwaysRoom(Connected(snapshot), run) && AlwaysOpen(Connected(snapshot), run))
  {
    hide Step, Events, Enabled;
    if run != [] {
      LosslessIffAlwaysRoom(snapshot, run[..|run| - 1]);
      StepLosesOnlyHere(Run(Connected(snapshot), run[..|run| - 1]), run[|run| - 1]);
    }
    LosslessIffNothingLost(snapshot, run);
  }

  function EventFrames(frames: seq<Frame>): seq<Event> {
    if frames == [] then []
    else EventFrames(frames[..|frames| - 1]) +
         match frames[|frames| - 1] case EventFrame(e) => [e] case SnapshotFrame(_) => []
  }

  /** The first frame is a snapshot; the event frames sent are the delivered entries,
      and all others are snapshots. */
  lemma {:induction false} FramesAreDeliveries(snapshot: Event, run: seq<Action>)
    ensures var s := Run(Connected(snapshot), run);
            && EventFrames(s.frames) == Events(s.delivered)
            && (s.frames != [] ==> s.frames[0].SnapshotFrame?)
  {
    if run != [] {
      hide Step, EventFrames, Events;
      var before := Run(Connected(snapshot), run[..|run| - 1]);
      FramesAreDeliveries(snapshot, run[..|run| - 1]);
      StepSendsFrame(before, run[|run| - 1]);
      StepKeepsFirstFrame(before, run[|run| - 1]);
    }
  }

  lemma StepSendsFrame(s: State, a: Action)
    requires EventFrames(s.frames) == Events(s.delivered)
    ensures EventFrames(Step(s, a).frames) == Events(Step(s, a).delivered)
  {
    if Enabled(s, a) && a.Deliver? {
      OneMoreFrame(s.frames, EventFrame(s.queue[0].event));
      assert Events(s.delivered + [s.queue[0]]) == Events(s.delivered) + [s.queue[0].event];
    } else if a.SendSnapshot? {
      OneMoreFrame(s.frames, SnapshotFrame(s.snapshot));
    }
  }

  lemma StepKeepsFirstFrame(s: State, a: Action)
    requires s.frames != [] ==> s.frames[0].SnapshotFrame?
    ensures Step(s, a).frames != [] ==> Step(s, a).frames[0].SnapshotFrame?
  {
  }

  lemma OneMoreFrame(frames: seq<Frame>, frame: Frame)
    ensures EventFrames(frames + [frame]) == EventFrames(frames) + if frame.EventFrame? then [frame.event] else []
  {
  }

  // ---------- freshness ----------

  /** No publisher stores while another is between its two steps. */
  predicate Serialized(s: State, run: seq<Action>) {
    run == [] ||
    var before := Run(s, run[..|run| - 1]);
    Serialized(s, run[..|run| - 1])
    && (run[|run| - 1].Store? ==> before.inFlight == map[])
  }

  predicate InStep(s: State) {
    || (s.inFlight == map[] && s.stored == s.log)
    || (exists p :: p in s.inFlight && s.inFlight == map[p := s.inFlight[p]] && s.stored == s.log + [s.inFlight[p]])
  }

  lemma {:induction false} SerializedRunsNotifyInOrder(snapshot: Event, run: seq<Action>)
    requires Serialized(Connected(snapshot), run)
    ensures InStep(Run(Connected(snapshot), run))
  {
    if run != [] {
      SerializedRunsNotifyInOrder(snapshot, run[..|run| - 1]);
      StepStaysInStep(Run(Connected(snapshot), run[..|run| - 1]), run[|run| - 1]);
    }
  }

  lemma StepStaysInStep(s: State, a: Action)
    requires InStep(s) && (a.Store? ==> s.inFlight == map[])
    ensures InStep(Step(s, a))
  {
  }

  lemma {:induction false} SnapshotIsLastStored(snapshot: Event, run: seq<Action>)
    ensures var s := Run(Connected(snapshot), run);
            s.snapshot == if s.stored == [] then snapshot else s.stored[|s.stored| - 1]
  {
    if run != [] {
      SnapshotIsLastStored(snapshot, run[..|run| - 1]);
      StepKeepsSnapshot(snapshot, Run(Connected(snapshot), run[..|run| - 1]), run[|run| - 1]);
    }
  }

  lemma StepKeepsSnapshot(snapshot: Event, s: State, a: Action)
    requires s.snapshot == if s.stored == [] then snapshot else s.stored[|s.stored| - 1]
    ensures var after := Step(s, a);
            after.snapshot == if after.stored == [] then snapshot else after.stored[|after.stored| - 1]
  {
  }

  predicate Quiet(s: State) {
    s.inFlight == map[] && s.pending == [] && s.queue == [] && s.stored != []
  }

  /** Everything has settled and the last notification was not lost; a lossless
      stream is the special case where none was. */
  predicate Settled(s: State) {
    Quiet(s) && s.log != [] && |s.log| - 1 !in s.dropped + s.refused
  }

  lemma {:induction false} SettledStreamEndsOnLastNotified(snapshot: Event, run: seq<Action>)
    requires Settled(Run(Connected(snapshot), run))
    ensures var s := Run(Connected(snapshot), run);
            s.delivered != [] && s.delivered[|s.delivered| - 1] == Stamped(s.log[|s.log| - 1], |s.log| - 1)
  {
    hide Connected, Run;
    var s := Run(Connected(snapshot), run);
    assert Accounted(Connected(snapshot)) by {
      ConnectedIsAccounted(snapshot);
    }
    RunKeepsAccounted(Connected(snapshot), run);
    assert s.delivered + s.queue + s.pending == s.delivered;
  }

  lemma ConnectedIsAccounted(snapshot: Event)
    ensures Accounted(Connected(snapshot))
  {
  }

  /** The publisher of the last event stored. */
  function LastStorer(s: State, run: seq<Action>): Option<nat> {
    if run == [] then None
    else
      var init, a := run[..|run| - 1], run[|run| - 1];
      if a.Store? && Enabled(Run(s, init), a) then Some(a.publisher) else LastStorer(s, init)
  }

  /** The publisher of the last event notified. */
  function LastNotifier(s: State, run: seq<Action>): Option<nat> {
    if run == [] then None
    else
      var init, a := run[..|run| - 1], run[|run| - 1];
      if a.Notify? && Enabled(Run(s, init), a) then Some(a.publisher) else LastNotifier(s, init)
  }

  /** What a publisher stored last. */
  function LastStoredBy(s: State, run: seq<Action>, publisher: nat): Option<Event> {
    if run == [] then None
    else
      var init, a := run[..|run| - 1], run[|run| - 1];
      if a.Store? && a.publisher == publisher && Enabled(Run(s, init), a) then Some(a.event)
      else LastStoredBy(s, init, publisher)
  }

  predicate LastOf(events: seq<Event>, event: Option<Event>) {
    if events == [] then event.None? else event == Some(events[|events| - 1])
  }

  /** Between its two steps a publisher carries what it stored last. */
  lemma {:induction false} InFlightIsLastStored(start: State, run: seq<Action>, publisher: nat)
    requires start.inFlight == map[]
    ensures publisher in Run(start, run).inFlight ==>
              LastStoredBy(start, run, publisher) == Some(Run(start, run).inFlight[publisher])
  {
    if run != [] {
      InFlightIsLastStored(start, run[..|run| - 1], publisher);
    }
  }

  lemma {:induction false} LastStoreIsOfLastStorer(start: State, run: seq<Action>)
    requires start.stored == []
    ensures var storer := LastStorer(start, run);
            LastOf(Run(start, run).stored, if storer.None? then None else LastStoredBy(start, run, storer.value))
  {
    if run != [] {
      var init, a := run[..|run| - 1], run[|run| - 1];
      LastStoreIsOfLastStorer(start, init);
      StepStores(Run(start, init), a);
    }
  }

  lemma StepStores(s: State, a: Action)
    ensures Step(s, a).stored == s.stored + if Enabled(s, a) && a.Store? then [a.event] else []
  {
  }

  lemma StepNotifies(s: State, a: Action)
    ensures Step(s, a).log == s.log + if Enabled(s, a) && a.Notify? then [s.inFlight[a.publisher]] else []
    ensures forall p :: p in Step(s, a).inFlight <==>
              if Enabled(s, a) && a.Store? && a.publisher == p then true
              else p in s.inFlight && !(a.Notify? && a.publisher == p)
  {
  }

  /** Once the last notifier is not between its steps, the log ends on what it
      stored last. */
  lemma {:induction false} LastNotifiedIsOfLastNotifier(start: State, run: seq<Action>)
    requires start.inFlight == map[] && start.log == []
    ensures var s, notifier := Run(start, run), LastNotifier(start, run);
            && (s.log == [] <==> notifier.None?)
            && (notifier.Some? && notifier.value !in s.inFlight ==>
                LastOf(s.log, LastStoredBy(start, run, notifier.value)))
  {
    hide Step;
    if run != [] {
      var init, a := run[..|run| - 1], run[|run| - 1];
      LastNotifiedIsOfLastNotifier(start, init);
      StepNotifies(Run(start, init), a);
      if a.Notify? {
        InFlightIsLastStored(start, init, a.publisher);
      }
    }
  }

  function LastFrame(s: State): Frame
    requires s.frames != []
  {
    s.frames[|s.frames| - 1]
  }

  /** The last frame sent shows the current snapshot. */
  predicate Current(s: State) {
    s.frames != [] && LastFrame(s).event == s.snapshot
  }

  /** How many notifications there had been when the last frame was sent. */
  function LogAtLastFrame(s: State, run: seq<Action>): nat {
    if run == [] then 0
    else
      var init, a := run[..|run| - 1], run[|run| - 1];
      if (a.SendSnapshot? || a.Deliver?) && Enabled(Run(s, init), a) then |Run(s, init).log| else LogAtLastFrame(s, init)
  }

  /** A last frame sent at log length `n`: nothing notified later has been delivered,
      and a snapshot frame is current unless something was stored since, which is in
      flight or has made the log grow. */
  predicate FrameSentAt(s: State, n: nat) {
    s.frames != [] ==>
      && n <= |s.log|
      && (forall i :: 0 <= i < |s.delivered| ==> s.delivered[i].at < n)
      && (LastFrame(s).SnapshotFrame? ==> LastFrame(s).event == s.snapshot || s.inFlight != map[] || n < |s.log|)
  }

  lemma StepKeepsFrameSentAt(s: State, a: Action, n: nat)
    requires FrameSentAt(s, n) && Reflects(Step(s, a).delivered, Step(s, a).log)
    ensures FrameSentAt(Step(s, a), if (a.SendSnapshot? || a.Deliver?) && Enabled(s, a) then |s.log| else n)
  {
    if Enabled(s, a) && a.Store? {
      assert a.publisher in Step(s, a).inFlight;
    }
  }

  lemma {:induction false} FramesAreSentAt(snapshot: Event, run: seq<Action>)
    ensures FrameSentAt(Run(Connected(snapshot), run), LogAtLastFrame(Connected(snapshot), run))
  {
    if run != [] {
      hide Step, FrameSentAt, Reflects;
      var init, a := run[..|run| - 1], run[|run| - 1];
      FramesAreSentAt(snapshot, init);
      StreamConserves(snapshot, run);
      StepKeepsFrameSentAt(Run(Connected(snapshot), init), a, LogAtLastFrame(Connected(snapshot), init));
    }
  }

  lemma LastEventFrame(frames: seq<Frame>)
    requires frames != [] && frames[|frames| - 1].EventFrame?
    ensures EventFrames(frames) != [] && EventFrames(frames)[|EventFrames(frames)| - 1] == frames[|frames| - 1].event
  {
  }

  /** A settled stream ends on the snapshot frame of a timeout, which is current, or
      on the last notification. */
  lemma SettledStreamEndsOnFrame(snapshot: Event, run: seq<Action>)
    requires Settled(Run(Connected(snapshot), run))
    ensures var s := Run(Connected(snapshot), run);
            && s.frames != []
            && LastFrame(s).event == if LastFrame(s).SnapshotFrame? then s.snapshot else s.log[|s.log| - 1]
  {
    hide Run, EventFrames;
    var s := Run(Connected(snapshot), run);
    SettledStreamEndsOnLastNotified(snapshot, run);
    FramesAreDeliveries(snapshot, run);
    FramesAreSentAt(snapshot, run);
    assert |Events(s.delivered)| > 0;
    if s.frames == [] {
      assert EventFrames([]) == [] by {
        NoFramesNoEvents();
      }
    } else if LastFrame(s).EventFrame? {
      LastEventFrame(s.frames);
    }
  }

  lemma NoFramesNoEvents()
    ensures EventFrames([]) == []
  {
  }

  /** When a settled stream is current, for any schedule: exactly when its last frame
      came from a timeout, or the publisher that notified last is the one that stored
      last, or had stored an equal event. */
  lemma SettledStreamIsCurrentIff(snapshot: Event, run: seq<Action>)
    requires Settled(Run(Connected(snapshot), run))
    ensures var start := Connected(snapshot);
            var s, storer, notifier := Run(start, run), LastStorer(start, run), LastNotifier(start, run);
            && s.frames != [] && storer.Some? && notifier.Some?
            && (Current(s) <==>
                || LastFrame(s).SnapshotFrame?
                || storer == notifier
                || LastStoredBy(start, run, notifier.value) == LastStoredBy(start, run, storer.value))
  {
    hide Run, LastStorer, LastNotifier, LastStoredBy;
    SettledStreamEndsOnFrame(snapshot, run);
    SnapshotIsLastStored(snapshot, run);
    LastStoreIsOfLastStorer(Connected(snapshot), run);
    LastNotifiedIsOfLastNotifier(Connected(snapshot), run);
  }

  /** A settled lossless stream is current exactly when its last frame came from a
      timeout or the log and the store end on the same event. */
  lemma LosslessStreamIsCurrentIff(snapshot: Event, run: seq<Action>)
    requires var s := Run(Connected(snapshot), run); Quiet(s) && s.dropped == {} && s.refused == {}
    ensures var s := Run(Connected(snapshot), run);
            && s.frames != [] && s.log != []
            && (Current(s) <==> LastFrame(s).SnapshotFrame? || s.log[|s.log| - 1] == s.stored[|s.stored| - 1])
  {
    hide Connected, Run;
    StoredAreNotifiedOrInFlight(snapshot, run);
    SettledStreamEndsOnFrame(snapshot, run);
    SnapshotIsLastStored(snapshot, run);
  }

  /** Any stream, settled or not, is current right after a timeout. */
  lemma TimeoutMakesCurrent(s: State, run: seq<Action>)
    ensures var after := Run(s, run + [SendSnapshot]);
            && Current(after) && LastFrame(after).SnapshotFrame?
            && after.snapshot == Run(s, run).snapshot && after.delivered == Run(s, run).delivered
  {
    assert (run + [SendSnapshot])[..|run|] == run;
  }

  lemma {:induction false} StoredAreNotifiedOrInFlight(snapshot: Event, run: seq<Action>)
    ensures var s := Run(Connected(snapshot), run);
            |s.stored| == |s.log| + |s.inFlight|
  {
    hide Step;
    if run != [] {
      StoredAreNotifiedOrInFlight(snapshot, run[..|run| - 1]);
      StepKeepsCount(Run(Connected(snapshot), run[..|run| - 1]), run[|run| - 1]);
    }
  }

  lemma StepKeepsCount(s: State, a: Action)
    requires |s.stored| == |s.log| + |s.inFlight|
    ensures |Step(s, a).stored| == |Step(s, a).log| + |Step(s, a).inFlight|
  {
    if Enabled(s, a) && a.Notify? {
      RemovingCounts(s.inFlight, a.publisher);
    }
  }

  lemma RemovingCounts(table: map<nat, Event>, key: nat)
    requires key in table
    ensures |table - {key}| == |table| - 1
  {
    assert table.Keys == (table - {key}).Keys + {key};
    assert |table.Keys| == |table| && |(table - {key}).Keys| == |table - {key}|;
  }

  /** Publishers that take turns therefore leave a settled stream current. */
  lemma SettledStreamIsCurrent(snapshot: Event, run: seq<Action>)
    requires Serialized(Connected(snapshot), run) && Settled(Run(Connected(snapshot), run))
    ensures Current(Run(Connected(snapshot), run))
  {
    hide Connected, Run, Serialized;
    SerializedRunsNotifyInOrder(snapshot, run);
    SettledStreamEndsOnFrame(snapshot, run);
    SnapshotIsLastStored(snapshot, run);
  }

  /** Two publishers that overlap can notify in the other order: the stream then
      settles, without loss, on an event that is no longer the snapshot, and shows it
      until the next timeout. */
  lemma OverlappingPublishersGoStale(start: Event, a: Event, b: Event) returns (run: seq<Action>)
    requires a != b
    ensures var s, healed := Run(Connected(start), run), Run(Connected(start), run + [SendSnapshot]);
            && !Serialized(Connected(start), run)
            && Settled(s) && s.dropped == {} && s.refused == {}
            && s.snapshot == b && s.frames != [] && LastFrame(s) == EventFrame(a) && !Current(s)
            && Settled(healed) && Current(healed) && LastFrame(healed) == SnapshotFrame(b)
  {
    run := OverlappingRun(a, b);
    OverlapEnds(start, a, b);
    OverlapIsRun(Connected(start), a, b);
    SerializedPrefix(Connected(start), run, 3);
    OverlapIsNotSerialized(Connected(start), a, b);
    hide Run, AfterOverlap, Serialized, OverlappingRun;
    OneMoreStep(Connected(start), run, SendSnapshot);
  }

  lemma OneMoreStep(s: State, run: seq<Action>, a: Action)
    ensures Run(s, run + [a]) == Step(Run(s, run), a)
  {
    assert (run + [a])[..|run|] == run;
  }

  function OverlappingRun(a: Event, b: Event): seq<Action> {
    [SendSnapshot, Store(0, a), Store(1, b), Notify(1, true), Notify(0, true), RunCallback, RunCallback, Deliver, Deliver]
  }

  function AfterOverlap(s: State, a: Event, b: Event): State {
    var notified := Step(Step(Step(Step(Step(s, SendSnapshot), Store(0, a)), Store(1, b)), Notify(1, true)),
                         Notify(0, true));
    Step(Step(Step(Step(notified, RunCallback), RunCallback), Deliver), Deliver)
  }

  lemma OverlapEnds(start: Event, a: Event, b: Event)
    ensures var s := AfterOverlap(Connected(start), a, b);
            && Settled(s) && s.dropped == {} && s.refused == {}
            && s.snapshot == b && s.frames == [SnapshotFrame(start), EventFrame(b), EventFrame(a)]
  {
  }

  lemma OverlapIsRun(s: State, a: Event, b: Event)
    ensures Run(s, OverlappingRun(a, b)) == AfterOverlap(s, a, b)
  {
    hide Step;
    var run := OverlappingRun(a, b);
    RunOneMore(s, run, 0);
    RunOneMore(s, run, 1);
    RunOneMore(s, run, 2);
    RunOneMore(s, run, 3);
    RunOneMore(s, run, 4);
    RunOneMore(s, run, 5);
    RunOneMore(s, run, 6);
    RunOneMore(s, run, 7);
    RunOneMore(s, run, 8);
    assert run[..0] == [] && run[..9] == run;
  }

  lemma OverlapIsNotSerialized(s: State, a: Event, b: Event)
    requires s.inFlight == map[]
    ensures !Serialized(s, OverlappingRun(a, b)[..3])
  {
  }

  lemma {:induction false} SerializedPrefix(s: State, run: seq<Action>, n: nat)
    requires n <= |run|
    ensures Serialized(s, run) ==> Serialized(s, run[..n])
  {
    if n == |run| {
      assert run[..n] == run;
    } else {
      SerializedPrefix(s, run[..|run| - 1], n);
      assert run[..|run| - 1][..n] == run[..n];
    }
  }

  lemma RunOneMore(s: State, run: seq<Action>, i: nat)
    requires i < |run|
    ensures Run(s, run[..i + 1]) == Step(Run(s, run[..i]), run[i])
  {
    hide Step;
    assert run[..i + 1][..i] == run[..i];
  }
}
