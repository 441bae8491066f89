/** The event store: any number of appenders, one writer thread, and a shutdown
    that drains what is left. Regions under the queue lock are single steps; a write
    to the database is an attempt. */
module EventQueue {

  type Entry(==, !new)

  /** The writer. It holds the lock in Evaluating, Parking, Draining and Finishing. */
  datatype Writer =
    | Testing
    | Evaluating
    | Parking
    | Blocked
    | Draining
    | Writing(e: Entry)
    | Finishing
    | Exited

  datatype Closer = Open | Stored | Notified

  /** `owed` counts appends whose notification is still to come; `appended` and
      `attempted` are histories. */
  datatype State = State(
    queue: seq<Entry>, running: bool, writer: Writer, closer: Closer, owed: nat,
    appended: seq<Entry>, attempted: seq<Entry>)

  const START := State([], true, Testing, Open, 0, [], [])

  predicate WriterHoldsLock(w: Writer) {
    w.Evaluating? || w.Parking? || w.Draining? || w.Finishing?
  }

  datatype Event =
    | Append(e: Entry)
    | NotifyAppended
    | WriterStep
    | Wake
    | StoreStopped
    | NotifyClosed

  predicate Enabled(s: State, e: Event) {
    match e
    case Append(_) => !WriterHoldsLock(s.writer)
    case NotifyAppended => s.owed > 0
    case WriterStep => !s.writer.Blocked? && !s.writer.Exited?
    case Wake => s.writer.Blocked?
    case StoreStopped => s.closer.Open?
    case NotifyClosed => s.closer.Stored?
  }

  /** A notification reaches the writer only if it is blocked at that moment. */
  function Notified1(s: State): State {
    if s.writer.Blocked? then s.(writer := Evaluating) else s
  }

  function WriterNext(s: State): State {
    match s.writer
    case Testing => if s.running then s.(writer := Evaluating) else s.(writer := Finishing)
    case Evaluating => s.(writer := if s.queue != [] || !s.running then Draining else Parking)
    case Parking => s.(writer := Blocked)
    case Draining =>
      if s.queue == [] then s.(writer := Testing) else s.(writer := Writing(s.queue[0]), queue := s.queue[1..])
    case Writing(e) => s.(writer := Draining, attempted := s.attempted + [e])
    case Finishing =>
      if s.queue == [] then s.(writer := Exited)
      else s.(attempted := s.attempted + [s.queue[0]], queue := s.queue[1..])
    case Blocked => s
    case Exited => s
  }

  function Next(s: State, e: Event): State
    requires Enabled(s, e)
  {
    match e
    case Append(x) => s.(queue := s.queue + [x], appended := s.appended + [x], owed := s.owed + 1)
    case NotifyAppended => Notified1(s).(owed := s.owed - 1)
    case WriterStep => WriterNext(s)
    case Wake => s.(writer := Evaluating)
    case StoreStopped => s.(running := false, closer := Stored)
    case NotifyClosed => Notified1(s).(closer := Notified)
  }

  /** The states that a sequence of events passes through. */
  ghost predicate Steps(states: seq<State>, events: seq<Event>) {
    && |states| == |events| + 1
    && (forall i | 0 <= i < |events| :: Enabled(states[i], events[i]) && states[i + 1] == Next(states[i], events[i]))
  }

  ghost predicate Execution(states: seq<State>, events: seq<Event>) {
    Steps(states, events) && states[0] == START
  }

  function InFlight(w: Writer): seq<Entry> {
    if w.Writing? then [w.e] else []
  }

  ghost predicate Inv(s: State) {
    && s.attempted + InFlight(s.writer) + s.queue == s.appended
    && (s.closer.Open? ==> s.running) && (!s.closer.Open? ==> !s.running)
    && (s.writer.Parking? ==> s.queue == [])
    && (s.writer.Blocked? && s.queue != [] ==> s.owed > 0)
  }

  lemma StepKeepsInv(s: State, e: Event)
    requires Inv(s) && Enabled(s, e)
    ensures Inv(Next(s, e))
  {
    var s' := Next(s, e);
    if e.Append? {
      assert s.attempted + InFlight(s.writer) + (s.queue + [e.e]) == (s.attempted + InFlight(s.writer) + s.queue) + [e.e];
    } else if e.WriterStep? {
      WriterKeepsInv(s);
    }
  }

  lemma WriterKeepsInv(s: State)
    requires Inv(s) && !s.writer.Blocked? && !s.writer.Exited?
    ensures Inv(WriterNext(s))
  {
    var s' := WriterNext(s);
    if s.writer.Draining? && s.queue != [] {
      assert s.attempted + [] + s.queue == s.attempted + [s.queue[0]] + s.queue[1..];
    } else if s.writer.Writing? {
      assert (s.attempted + [s.writer.e]) + [] + s.queue == s.attempted + [s.writer.e] + s.queue;
    } else if s.writer.Finishing? {
      if s.queue != [] {
        assert s.attempted + [] + s.queue == (s.attempted + [s.queue[0]]) + [] + s.queue[1..];
      }
    }
  }

  lemma {:induction false} AlwaysInv(states: seq<State>, events: seq<Event>, i: nat)
    requires Execution(states, events) && i < |states|
    ensures Inv(states[i])
  {
    if i > 0 {
      AlwaysInv(states, events, i - 1);
      StepKeepsInv(states[i - 1], events[i - 1]);
    }
  }

  /** First in, first out, each once: in every interleaving, what has been attempted,
      then what is being written, then what is queued, is what was appended. */
  lemma AttemptsFollowAppends(states: seq<State>, events: seq<Event>, i: nat)
    requires Execution(states, events) && i < |states|
    ensures var s := states[i]; s.attempted + InFlight(s.writer) + s.queue == s.appended
  {
    AlwaysInv(states, events, i);
  }

  /** When the writer has exited, every event appended before it did so has been
      attempted, in order and once; one appended later never is. */
  lemma {:induction false} ExitAfterDrain(states: seq<State>, events: seq<Event>, j: nat, i: nat)
    requires Execution(states, events) && j <= i < |states| && states[i].writer.Exited?
    ensures if states[j].writer.Exited? then states[i].attempted == states[j].attempted
            else states[j].appended <= states[i].attempted
  {
    if j < i {
      var s, e := states[i - 1], events[i - 1];
      if s.writer.Exited? {
        ExitAfterDrain(states, events, j, i - 1);
      } else {
        AlwaysInv(states, events, i - 1);
        AppendedGrows(states, events, j, i - 1);
        assert !states[j].writer.Exited? by {
          if states[j].writer.Exited? { ExitedForGood(states, events, j, i - 1); }
        }
        ExitsEmpty(s, e);
      }
    }
  }

  /** The step on which the writer exits finds the queue empty. */
  lemma ExitsEmpty(s: State, e: Event)
    requires Inv(s) && Enabled(s, e) && !s.writer.Exited? && Next(s, e).writer.Exited?
    ensures s.queue == [] && Next(s, e).attempted == s.appended == Next(s, e).appended
  {
  }

  lemma {:induction false} AppendedGrows(states: seq<State>, events: seq<Event>, j: nat, i: nat)
    requires Execution(states, events) && j <= i < |states|
    ensures states[j].appended <= states[i].appended
  {
    if j < i {
      AppendedGrows(states, events, j, i - 1);
      assert states[i - 1].appended <= states[i].appended;
    }
  }

  lemma {:induction false} ExitedForGood(states: seq<State>, events: seq<Event>, j: nat, i: nat)
    requires Execution(states, events) && j <= i < |states| && states[j].writer.Exited?
    ensures states[i].writer.Exited? && states[i].attempted == states[j].attempted
  {
    if j < i { ExitedForGood(states, events, j, i - 1); }
  }

  // ------------------------------------------------------------------
  //  Progress
  // ------------------------------------------------------------------

  /** No append is forgotten: a writer asleep over a queue that is not empty has a
      notification still to come, and any notification wakes it. */
  lemma AppendIsNotForgotten(states: seq<State>, events: seq<Event>, i: nat)
    requires Execution(states, events) && i < |states| && states[i].writer.Blocked? && states[i].queue != []
    ensures Enabled(states[i], NotifyAppended) && Next(states[i], NotifyAppended).writer == Evaluating
  {
    AlwaysInv(states, events, i);
  }

  /** `n` steps of the writer alone. */
  function Alone(s: State, n: nat): State
    decreases n
  {
    if n == 0 || s.writer.Blocked? || s.writer.Exited? then s else Alone(WriterNext(s), n - 1)
  }

  /** How far the writer is from having nothing to do. */
  function Distance(s: State): nat {
    10 * |s.queue| +
    match s.writer
    case Testing => if s.queue == [] then 4 else 5
    case Evaluating => if s.queue != [] then 4 else if s.running then 3 else 6
    case Parking => 2
    case Blocked => 0
    case Draining => if s.queue == [] then 5 else 3
    case Writing(_) => 9
    case Finishing => 3
    case Exited => 0
  }

  /** Left alone, a writer that is awake attempts everything that was appended. Then it
      sleeps if it is to go on, and exits if it is to stop. */
  lemma {:induction false} WriterSettles(s: State)
    requires Inv(s) && !s.writer.Blocked? && !s.writer.Exited?
    ensures var s' := Alone(s, Distance(s));
            && s'.attempted == s.appended == s'.appended && s'.queue == []
            && (s'.writer == Blocked || s'.writer == Exited)
            && (s.running && !s.writer.Finishing? ==> s'.writer == Blocked)
            && (!s.running && !s.writer.Parking? ==> s'.writer == Exited)
    decreases Distance(s)
  {
    var s1 := WriterNext(s);
    WriterKeepsInv(s);
    assert Distance(s1) < Distance(s);
    if !s1.writer.Blocked? && !s1.writer.Exited? {
      WriterSettles(s1);
    }
    LongerIsEnough(s1, Distance(s1), Distance(s) - 1);
  }

  lemma {:induction false} LongerIsEnough(s: State, n: nat, m: nat)
    requires n <= m && (Alone(s, n).writer.Blocked? || Alone(s, n).writer.Exited?)
    ensures Alone(s, m) == Alone(s, n)
    decreases n
  {
    if n > 0 && !s.writer.Blocked? && !s.writer.Exited? { LongerIsEnough(WriterNext(s), n - 1, m - 1); }
  }

  // ------------------------------------------------------------------
  //  Shutdown
  // ------------------------------------------------------------------

  /** The writer sleeps although it has been told to stop, and the notification that
      should have woken it is spent. */
  predicate Stranded(s: State) {
    s.writer.Blocked? && !s.running && s.closer.Notified?
  }

  ghost predicate CanStrand(s: State) {
    exists states, events :: Steps(states, events) && states[0] == s && Stranded(states[|events|])
  }

  /** The flag is stored without the lock. A shutdown can go wrong exactly when the
      store falls between the writer's test of the flag and its going to sleep; the
      queue is empty then. */
  lemma StrandsExactly(states: seq<State>, events: seq<Event>, i: nat)
    requires Execution(states, events) && i < |events| && events[i].StoreStopped?
    ensures CanStrand(states[i + 1]) <==> states[i].writer.Parking?
    ensures states[i].writer.Parking? ==> states[i].queue == []
  {
    AlwaysInv(states, events, i);
    var s := states[i + 1];
    if states[i].writer.Parking? {
      var s1, s2 := s.(closer := Notified), s.(closer := Notified, writer := Blocked);
      var path, moves := [s, s1, s2], [NotifyClosed, WriterStep];
      assert Steps(path, moves) && path[0] == s && Stranded(path[|moves|]);
    } else {
      forall path, moves | Steps(path, moves) && path[0] == s ensures !Stranded(path[|moves|]) {
        StaysAwake(path, moves, |moves|);
      }
    }
  }

  /** The writer will see the flag: it is not about to sleep, and if it sleeps it is
      still to be notified. */
  predicate WillSee(s: State) {
    && !s.running && !s.closer.Open?
    && !s.writer.Parking?
    && (s.writer.Blocked? ==> s.closer.Stored?)
  }

  lemma {:induction false} StaysAwake(states: seq<State>, events: seq<Event>, i: nat)
    requires Steps(states, events) && WillSee(states[0]) && i < |states|
    ensures WillSee(states[i]) && !Stranded(states[i])
  {
    if i > 0 { StaysAwake(states, events, i - 1); }
  }

  /** Storing the flag only while the writer does not hold the lock would do. */
  lemma {:induction false} LockedStoreNeverStrands(states: seq<State>, events: seq<Event>, i: nat)
    requires Execution(states, events) && i < |states|
    requires forall k | 0 <= k < |events| && events[k].StoreStopped? :: !WriterHoldsLock(states[k].writer)
    ensures !Stranded(states[i])
    ensures if states[i].closer.Open? then states[i].running else WillSee(states[i])
  {
    if i > 0 { LockedStoreNeverStrands(states, events, i - 1); }
  }

  /** A stranded writer sleeps on: without another append or a spurious wake-up it
      never exits, and `close` never returns. */
  lemma {:induction false} StrandedSleepsOn(states: seq<State>, events: seq<Event>, i: nat)
    requires Steps(states, events) && Stranded(states[0]) && states[0].owed == 0 && i < |states|
    requires forall k | 0 <= k < |events| :: !events[k].Append? && !events[k].Wake?
    ensures Stranded(states[i]) && states[i].owed == 0
  {
    if i > 0 { StrandedSleepsOn(states, events, i - 1); }
  }

  /** An execution that ends with the writer stranded. */
  lemma CloseCanStrandTheWriter(states: seq<State>, events: seq<Event>)
    requires events == [WriterStep, WriterStep, StoreStopped, NotifyClosed, WriterStep]
    requires states == [START, START.(writer := Evaluating), START.(writer := Parking),
                        START.(writer := Parking, running := false, closer := Stored),
                        START.(writer := Parking, running := false, closer := Notified),
                        START.(writer := Blocked, running := false, closer := Notified)]
    ensures Execution(states, events) && Stranded(states[5])
  {
    forall i | 0 <= i < 5
      ensures Enabled(states[i], events[i]) && states[i + 1] == Next(states[i], events[i])
    {
      assert i == 0 || i == 1 || i == 2 || i == 3 || i == 4;
    }
  }
}
