/**
 The callback delivery service as a machine of atomic steps: one consumer per partition, a bounded FIFO work channel,
 any number of workers, the gate that holds BLOCK_PROCESSED behind first-attempt STUMPs, in-process retry timers, the
 dead-letter route, and shutdown.

 Messages are pointers: containers hold ids (a partition and an offset in it) and `jobs` holds what the service changes
 in place. What the network, the dedup store and the clock do is chosen by the action.
 */
module Delivery {
  import opened Prelude
  import opened CallbackLog

  datatype Id = Id(part: nat, off: nat)

  /** The gate key; `GateKeysDistinct` shows that the concatenated string identifies the pair. */
  datatype Key = Key(block: Block, url: Url)

  /** Between attempts, during one, or after the last. */
  datatype Stage = Resting | Flying | Spent

  /** RetryCount, and as history: delivery attempts, failed dedup checks and the backoff scheduled so far. */
  datatype Job = Job(retry: nat, attempts: nat, checkErrors: nat, backoff: nat, stage: Stage)

  /** Where a worker is in `processDelivery`. */
  datatype Phase =
    | Idle
    | AtGate(id: Id)
    | Deleting(id: Id)
    | Checking(id: Id)
    | Posting(id: Id)
    | InFlight(id: Id)
    | Retrying(id: Id)
    | Arming(id: Id)
    | Returning
    | Exited

  /** A retry timer: parked, past the shutdown check, past the send, gone. */
  datatype Timer = Armed(id: Id) | Sending(id: Id) | Ending | Gone

  datatype Outcome = Delivered | Deduped | Exhausted | Permanent | Dropped

  datatype End = End(id: Id, outcome: Outcome)

  datatype Event = Posted(id: Id) | FirstDone(id: Id)

  /** History: where a message is. */
  datatype Place = Pending(part: nat) | Queued | Held(worker: nat) | Parked(timer: nat) | Final(outcome: Outcome)

  datatype Counters = Counters(processed: int, deduped: int, failed: int, retried: int, parked: int)

  /** What the dedup store is keyed by. */
  datatype DedupKey = DedupKey(kind: Kind, key: string, url: Url)

  /**
   `otherKey` is the txid or the hash of the txids of a message about transactions; `stored` is what the store knew
   before.
   */
  datatype Config = Config(part: Url -> nat, cap: nat, maxRetries: nat, base: nat, otherKey: Msg -> string,
                           stored: set<DedupKey>)

  datatype State = State(
    log: Log,
    pos: seq<nat>,
    pending: seq<Option<Id>>,
    ch: seq<Id>,
    /** Per worker: where it is, and the message whose deferred gate Done it owes. */
    phases: seq<Phase>,
    owes: seq<Option<Id>>,
    timers: seq<Timer>,
    gates: map<Key, int>,
    jobs: map<Id, Job>,
    dedup: set<DedupKey>,
    finished: seq<End>,
    counters: Counters,
    timerWg: int,
    /** 0 running, 1 shuttingDown set, 2 timers waited for, 3 channel closed. */
    stop: nat,
    panicked: bool,
    /**
     History: how far each partition's messages have been taken by workers, what has passed the gate, what has ended its
     first attempt, what happened in which order, and where every message is.
     */
    taken: seq<nat>,
    passed: set<Id>,
    done: set<Id>,
    events: seq<Event>,
    place: map<Id, Place>)

  datatype Action =
    | Publish(m: Msg)
    | Accept(p: nat)
    | Send(p: nat)
    | Take(w: nat)
    | PassGate(w: nat)
    | DeleteGate(w: nat)
    | CheckFails(w: nat)
    | Check(w: nat)
    | BeginPost(w: nat)
    | FailForGood(w: nat)
    | PostSucceeds(w: nat, recorded: bool)
    | PostFails(w: nat)
    | LoadFlag(w: nat)
    | Arm(w: nat)
    | Return(w: nat)
    | Fire(t: nat)
    | TimerSend(t: nat)
    | TimerEnd(t: nat)
    | StopFlag
    | StopWait
    | StopClose
    | Exit(w: nat)
    | Forget(k: DedupKey)

  // ---------------------------------------------------------------- reading the log

  predicate InLog(log: Log, id: Id) {
    id.part < |log| && id.off < |log[id.part]|
  }

  function MsgAt(log: Log, id: Id): Msg {
    if InLog(log, id) then log[id.part][id.off] else Msg(Other, "", "", 0)
  }

  function KeyOf(m: Msg): Key {
    Key(m.block, m.url)
  }

  predicate IsStumpAt(log: Log, id: Id) {
    MsgAt(log, id).kind == StumpMsg
  }

  predicate IsEndAt(log: Log, id: Id) {
    MsgAt(log, id).kind == BlockProcessed
  }

  // ---------------------------------------------------------------- dedup keys

  function Decimal(n: nat): string {
    if n < 10 then [('0' as int + n) as char] else Decimal(n / 10) + [('0' as int + n % 10) as char]
  }

  /** dedupKeyForMessage, with the URL and the type; None if there is no key. */
  function DedupKeyOf(c: Config, m: Msg): Option<DedupKey> {
    var key := match m.kind
      case BlockProcessed => m.block
      case StumpMsg => m.block + ":" + Decimal(m.tag)
      case Other => c.otherKey(m);
    if key == "" then None else Some(DedupKey(m.kind, key, m.url))
  }

  // ---------------------------------------------------------------- steps

  /** The message a worker is processing. */
  function Holds(p: Phase): Option<Id> {
    match p
    case AtGate(id) => Some(id)
    case Deleting(id) => Some(id)
    case Checking(id) => Some(id)
    case Posting(id) => Some(id)
    case InFlight(id) => Some(id)
    case Retrying(id) => Some(id)
    case Arming(id) => Some(id)
    case _ => None
  }

  function TimerHolds(t: Timer): Option<Id> {
    match t
    case Armed(id) => Some(id)
    case Sending(id) => Some(id)
    case _ => None
  }

  /** A message ends: recorded with its outcome, and the worker is on its way out of `processDelivery`. */
  function EndWith(s: State, w: nat, id: Id, o: Outcome): State
    requires w < |s.phases|
  {
    s.(phases := s.phases[w := Returning], finished := s.finished + [End(id, o)], place := s.place[id := Final(o)])
  }

  /** The consumer of a partition takes the next message, registers a STUMP with the gate, and is about to send. */
  function Accepted(s: State, p: nat): State {
    if p < |s.pos| && p < |s.pending| && p < |s.log| && s.pos[p] < |s.log[p]| && s.pending[p].None? then
      var id := Id(p, s.pos[p]);
      var m := s.log[p][s.pos[p]];
      var key := KeyOf(m);
      s.(pos := s.pos[p := s.pos[p] + 1], pending := s.pending[p := Some(id)],
         gates := if m.kind != StumpMsg then s.gates
                  else s.gates[key := (if key in s.gates then s.gates[key] else 0) + 1],
         jobs := s.jobs[id := Job(0, 0, 0, 0, Resting)], place := s.place[id := Pending(p)])
    else s
  }

  function Sent(c: Config, s: State, p: nat): State {
    if p < |s.pending| && s.pending[p].Some? && |s.ch| < c.cap && s.stop < 3 then
      var id := s.pending[p].value;
      s.(pending := s.pending[p := None], ch := s.ch + [id], place := s.place[id := Queued])
    else s
  }

  /** A worker receives from the channel; a first-attempt STUMP makes it owe the gate a Done. */
  function Took(s: State, w: nat): State {
    if w < |s.phases| && w < |s.owes| && s.phases[w].Idle? && s.ch != [] && s.ch[0] in s.jobs
        && s.ch[0].part < |s.taken| then
      var id := s.ch[0];
      var first := s.jobs[id].retry == 0;
      s.(ch := s.ch[1..],
         phases := s.phases[w := AtGate(id)],
         owes := s.owes[w := if first && IsStumpAt(s.log, id) then Some(id) else None],
         taken := if first then s.taken[id.part := id.off + 1] else s.taken,
         place := s.place[id := Held(w)])
    else s
  }

  /** Past the gate: at once, except for a BLOCK_PROCESSED whose gate still counts STUMPs. */
  function GatePassed(s: State, w: nat): State {
    if w < |s.phases| && s.phases[w].AtGate? then
      var id := s.phases[w].id;
      var key := KeyOf(MsgAt(s.log, id));
      if !IsEndAt(s.log, id) then s.(phases := s.phases[w := Checking(id)])
      else if key !in s.gates then s.(phases := s.phases[w := Checking(id)], passed := s.passed + {id})
      else if s.gates[key] == 0 then s.(phases := s.phases[w := Deleting(id)], passed := s.passed + {id})
      else s
    else s
  }

  function GateDeleted(s: State, w: nat): State {
    if w < |s.phases| && s.phases[w].Deleting? then
      var id := s.phases[w].id;
      s.(gates := s.gates - {KeyOf(MsgAt(s.log, id))}, phases := s.phases[w := Checking(id)])
    else s
  }

  /** scheduleRetryAfterFailure up to the call of scheduleRetry: RetryCount and the linear backoff. */
  function Bumped(c: Config, j: Job): Job {
    j.(retry := j.retry + 1, backoff := j.backoff + c.base * (j.retry + 1), stage := Resting)
  }

  function CheckFailed(c: Config, s: State, w: nat): State {
    if w < |s.phases| && s.phases[w].Checking? && s.phases[w].id in s.jobs
        && DedupKeyOf(c, MsgAt(s.log, s.phases[w].id)).Some? then
      var id := s.phases[w].id;
      var j := s.jobs[id];
      s.(phases := s.phases[w := Retrying(id)], jobs := s.jobs[id := Bumped(c, j).(checkErrors := j.checkErrors + 1)],
         counters := s.counters.(retried := s.counters.retried + 1))
    else s
  }

  function Checked(c: Config, s: State, w: nat): State {
    if w < |s.phases| && s.phases[w].Checking? then
      var id := s.phases[w].id;
      var key := DedupKeyOf(c, MsgAt(s.log, id));
      if key.Some? && key.value in s.dedup then
        EndWith(s, w, id, Deduped).(counters := s.counters.(deduped := s.counters.deduped + 1))
      else s.(phases := s.phases[w := Posting(id)])
    else s
  }

  function PostBegun(s: State, w: nat): State {
    if w < |s.phases| && s.phases[w].Posting? && s.phases[w].id in s.jobs then
      var id := s.phases[w].id;
      var j := s.jobs[id];
      s.(phases := s.phases[w := InFlight(id)], jobs := s.jobs[id := j.(attempts := j.attempts + 1, stage := Flying)],
         events := s.events + [Posted(id)])
    else s
  }

  /** The STUMP blob is gone: no attempt is made and the message goes to the DLQ. */
  function FailedForGood(s: State, w: nat): State {
    if w < |s.phases| && s.phases[w].Posting? && IsStumpAt(s.log, s.phases[w].id) then
      EndWith(s, w, s.phases[w].id, Permanent).(counters := s.counters.(failed := s.counters.failed + 1))
    else s
  }

  function PostSucceeded(c: Config, s: State, w: nat, recorded: bool): State {
    if w < |s.phases| && s.phases[w].InFlight? && s.phases[w].id in s.jobs then
      var id := s.phases[w].id;
      var key := DedupKeyOf(c, MsgAt(s.log, id));
      EndWith(s, w, id, Delivered)
        .(jobs := s.jobs[id := s.jobs[id].(stage := Spent)],
          dedup := s.dedup + (if recorded && key.Some? then {key.value} else {}),
          counters := s.counters.(processed := s.counters.processed + 1))
    else s
  }

  function PostFailed(c: Config, s: State, w: nat): State {
    if w < |s.phases| && s.phases[w].InFlight? && s.phases[w].id in s.jobs then
      var id := s.phases[w].id;
      var j := s.jobs[id];
      if j.retry >= c.maxRetries then
        EndWith(s, w, id, Exhausted)
          .(jobs := s.jobs[id := j.(stage := Spent)], counters := s.counters.(failed := s.counters.failed + 1))
      else
        s.(phases := s.phases[w := Retrying(id)], jobs := s.jobs[id := Bumped(c, j)],
           counters := s.counters.(retried := s.counters.retried + 1))
    else s
  }

  /** scheduleRetry reads the shutdown flag. */
  function FlagLoaded(s: State, w: nat): State {
    if w < |s.phases| && s.phases[w].Retrying? then
      var id := s.phases[w].id;
      if s.stop >= 1 then EndWith(s, w, id, Dropped) else s.(phases := s.phases[w := Arming(id)])
    else s
  }

  /** ... and then, flag or no flag by now, starts the timer. */
  function TimerArmed(s: State, w: nat): State {
    if w < |s.phases| && s.phases[w].Arming? then
      var id := s.phases[w].id;
      s.(phases := s.phases[w := Returning], timers := s.timers + [Armed(id)], timerWg := s.timerWg + 1,
         counters := s.counters.(parked := s.counters.parked + 1), place := s.place[id := Parked(|s.timers|)])
    else s
  }

  /** Leaving `processDelivery` runs the deferred Done. */
  function Returned(s: State, w: nat): State {
    if w < |s.phases| && w < |s.owes| && s.phases[w].Returning? then
      if s.owes[w].None? then s.(phases := s.phases[w := Idle])
      else
        var id := s.owes[w].value;
        var key := KeyOf(MsgAt(s.log, id));
        s.(phases := s.phases[w := Idle], owes := s.owes[w := None], done := s.done + {id},
           events := s.events + [FirstDone(id)],
           gates := if key in s.gates then s.gates[key := s.gates[key] - 1] else s.gates)
    else s
  }

  function TimerFired(s: State, t: nat): State {
    if t < |s.timers| && s.timers[t].Armed? then
      var id := s.timers[t].id;
      if s.stop >= 1 then
        s.(timers := s.timers[t := Ending], finished := s.finished + [End(id, Dropped)],
           place := s.place[id := Final(Dropped)])
      else s.(timers := s.timers[t := Sending(id)])
    else s
  }

  /** A send on the closed channel would panic. */
  function TimerSent(c: Config, s: State, t: nat): State {
    if t < |s.timers| && s.timers[t].Sending? then
      var id := s.timers[t].id;
      if s.stop >= 3 then
        s.(panicked := true, timers := s.timers[t := Ending], finished := s.finished + [End(id, Dropped)],
           place := s.place[id := Final(Dropped)])
      else if |s.ch| < c.cap then s.(ch := s.ch + [id], timers := s.timers[t := Ending], place := s.place[id := Queued])
      else s
    else s
  }

  function TimerEnded(s: State, t: nat): State {
    if t < |s.timers| && s.timers[t].Ending? then
      s.(timers := s.timers[t := Gone], timerWg := s.timerWg - 1,
         counters := s.counters.(parked := s.counters.parked - 1))
    else s
  }

  function Step(c: Config, s: State, a: Action): State {
    match a
    case Publish(m) => s.(log := Append(s.log, c.part, m))
    case Accept(p) => Accepted(s, p)
    case Send(p) => Sent(c, s, p)
    case Take(w) => Took(s, w)
    case PassGate(w) => GatePassed(s, w)
    case DeleteGate(w) => GateDeleted(s, w)
    case CheckFails(w) => CheckFailed(c, s, w)
    case Check(w) => Checked(c, s, w)
    case BeginPost(w) => PostBegun(s, w)
    case FailForGood(w) => FailedForGood(s, w)
    case PostSucceeds(w, recorded) => PostSucceeded(c, s, w, recorded)
    case PostFails(w) => PostFailed(c, s, w)
    case LoadFlag(w) => FlagLoaded(s, w)
    case Arm(w) => TimerArmed(s, w)
    case Return(w) => Returned(s, w)
    case Fire(t) => TimerFired(s, t)
    case TimerSend(t) => TimerSent(c, s, t)
    case TimerEnd(t) => TimerEnded(s, t)
    case StopFlag => s.(stop := if s.stop == 0 then 1 else s.stop)
    case StopWait => s.(stop := if s.stop == 1 && s.timerWg == 0 then 2 else s.stop)
    case StopClose => s.(stop := if s.stop == 2 then 3 else s.stop)
    case Exit(w) =>
      if w < |s.phases| && s.phases[w].Idle? && s.stop >= 3 && s.ch == [] then
        s.(phases := s.phases[w := Exited])
      else s
    case Forget(k) => s.(dedup := s.dedup - {k})
  }

  function Initial(c: Config, partitions: nat, workers: nat): State {
    State(seq(partitions, _ => []), seq(partitions, _ => 0), seq(partitions, _ => None), [],
          seq(workers, _ => Idle), seq(workers, _ => None), [],
          map[], map[], c.stored, [], Counters(0, 0, 0, 0, 0), 0, 0, false, seq(partitions, _ => 0), {}, {}, [], map[])
  }

  /** What a sequence of steps leads to. */
  function RunFrom(c: Config, s: State, actions: seq<Action>): State
    decreases |actions|
  {
    if actions == [] then s else RunFrom(c, Step(c, s, actions[0]), actions[1..])
  }

  // ---------------------------------------------------------------- keys tell messages apart

  /** The position of the first `c`, or the length. */
  function FirstOf(s: string, c: char): nat {
    if s == [] || s[0] == c then 0 else 1 + FirstOf(s[1..], c)
  }

  lemma {:induction false} FirstOfEnds(a: string, c: char, u: string)
    requires c !in a
    ensures FirstOf(a + [c] + u, c) == |a|
  {
    var s := a + [c] + u;
    if a == [] {
      assert s[0] == c;
    } else {
      assert s[0] == a[0] && a[0] in a;
      assert s[1..] == a[1..] + [c] + u;
      FirstOfEnds(a[1..], c, u);
    }
  }

  /** Two parts with a separator that is not in the first determine both. */
  lemma PartsDetermined(a: string, u: string, b: string, v: string, c: char)
    requires c !in a && c !in b && a + [c] + u == b + [c] + v
    ensures a == b && u == v
  {
    var s, t := a + [c] + u, b + [c] + v;
    FirstOfEnds(a, c, u);
    FirstOfEnds(b, c, v);
    assert s[..|a|] == a && s[|a| + 1..] == u;
    assert t[..|b|] == b && t[|b| + 1..] == v;
  }

  /** stumpGateKey tells (block, URL) pairs apart as long as block hashes contain no bar; they are hex. */
  function GateKey(block: Block, url: Url): string {
    block + "|" + url
  }

  lemma GateKeysDistinct(a: Key, b: Key)
    requires '|' !in a.block && '|' !in b.block
    ensures GateKey(a.block, a.url) == GateKey(b.block, b.url) <==> a == b
  {
    if GateKey(a.block, a.url) == GateKey(b.block, b.url) {
      PartsDetermined(a.block, a.url, b.block, b.url, '|');
    }
  }

  lemma {:induction false} DecimalInjective(m: nat, n: nat)
    requires Decimal(m) == Decimal(n)
    ensures m == n
  {
    var s, t := Decimal(m), Decimal(n);
    DecimalLast(m);
    DecimalLast(n);
    if m < 10 && n < 10 {
    } else {
      assert s[..|s| - 1] == t[..|t| - 1];
      DecimalInjective(m / 10, n / 10);
    }
  }

  lemma DecimalLast(n: nat)
    ensures var s := Decimal(n);
            && |s| >= 1 && s[|s| - 1] == ('0' as int + n % 10) as char
            && (n < 10 ==> |s| == 1) && (n >= 10 ==> |s| > 1 && s[..|s| - 1] == Decimal(n / 10))
  {
    if n >= 10 {
      DecimalNonEmpty(n / 10);
    }
  }

  lemma DecimalNonEmpty(n: nat)
    ensures |Decimal(n)| >= 1
  {
  }

  /** The dedup key of a STUMP or BLOCK_PROCESSED identifies it, as long as block hashes contain no colon. */
  lemma DedupKeysDistinct(c: Config, a: Msg, b: Msg)
    requires ':' !in a.block && ':' !in b.block && a.block != "" && b.block != "" && a.kind != Other
    ensures DedupKeyOf(c, a).Some?
    ensures DedupKeyOf(c, a) == DedupKeyOf(c, b)
       <==> a.kind == b.kind && a.block == b.block && a.url == b.url && (a.kind == StumpMsg ==> a.tag == b.tag)
  {
    if a.kind == StumpMsg && DedupKeyOf(c, a) == DedupKeyOf(c, b) {
      PartsDetermined(a.block, Decimal(a.tag), b.block, Decimal(b.tag), ':');
      DecimalInjective(a.tag, b.tag);
    }
  }
}
