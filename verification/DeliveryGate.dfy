/**
 What the gate guarantees over every run of the delivery machine: its counts are exact and never negative, no
 BLOCK_PROCESSED is posted before every STUMP of its block and URL has finished its first attempt, and no worker that
 waits at a gate waits in vain. The only thing asked of the publisher is the order of the log.
 */
module DeliveryGate {
  import opened Prelude
  import opened CallbackLog
  import opened Delivery

  // ---------------------------------------------------------------- the invariant, part by part

  /** How far each partition is consumed and taken; a message about to be sent is the last one accepted. */
  ghost predicate PosOk(log: Log, pos: seq<nat>, pending: seq<Option<Id>>, taken: seq<nat>) {
    && |pos| == |pending| == |taken| == |log|
    && (forall p: nat | p < |log| ::
          && taken[p] <= SentUpto(pos, pending, p) <= pos[p] <= |log[p]|
          && (pending[p].Some? ==>
                pending[p].value == Id(p, SentUpto(pos, pending, p)) && SentUpto(pos, pending, p) < pos[p]))
  }

  /** How many messages of a partition have been sent to the channel. */
  function SentUpto(pos: seq<nat>, pending: seq<Option<Id>>, p: nat): int
    requires p < |pos| == |pending|
  {
    pos[p] as int - (if pending[p].Some? then 1 else 0)
  }

  /** The messages of a partition in the channel that no worker has taken yet, in channel order. */
  function Fresh(ch: seq<Id>, p: nat, from: nat): seq<Id> {
    if ch == [] then []
    else (if ch[0].part == p && ch[0].off >= from then [ch[0]] else []) + Fresh(ch[1..], p, from)
  }

  function Range(p: nat, from: nat, to: int): seq<Id> {
    if from < to then seq(to - from, i requires 0 <= i => Id(p, from + i)) else []
  }

  /** The channel is FIFO: a partition's untaken messages stand in it in log order, without gaps. */
  ghost predicate FifoOk(pos: seq<nat>, pending: seq<Option<Id>>, taken: seq<nat>, ch: seq<Id>) {
    && |pos| == |pending| == |taken|
    && (forall p: nat | p < |taken| :: Fresh(ch, p, taken[p]) == Range(p, taken[p], SentUpto(pos, pending, p)))
    && (forall id | id in ch :: id.part < |pos| && id.off < pos[id.part])
  }

  /** A message has been retried exactly if it is back in the channel after having been taken. */
  ghost predicate RetryOk(jobs: map<Id, Job>, taken: seq<nat>, pending: seq<Option<Id>>, ch: seq<Id>) {
    && (forall p: nat | p < |pending| && pending[p].Some? :: pending[p].value in jobs)
    && (forall id | id in jobs :: id.part < |taken| && (id.off >= taken[id.part] ==> jobs[id].retry == 0))
    && (forall id | id in ch :: id in jobs && id.part < |taken| && (id.off < taken[id.part] ==> jobs[id].retry > 0))
  }

  ghost predicate TakenJob(jobs: map<Id, Job>, taken: seq<nat>, id: Id) {
    id in jobs && id.part < |taken| && id.off < taken[id.part]
  }

  /** What workers and timers hold has been taken; what is scheduled for retry counts as retried. */
  ghost predicate HeldOk(phases: seq<Phase>, timers: seq<Timer>, jobs: map<Id, Job>, taken: seq<nat>) {
    && (forall w: nat | w < |phases| && Holds(phases[w]).Some? :: TakenJob(jobs, taken, Holds(phases[w]).value))
    && (forall w: nat | w < |phases| && (phases[w].Retrying? || phases[w].Arming?) ::
          phases[w].id in jobs && jobs[phases[w].id].retry > 0)
    && (forall t: nat | t < |timers| && TimerHolds(timers[t]).Some? ::
          TakenJob(jobs, taken, TimerHolds(timers[t]).value) && jobs[TimerHolds(timers[t]).value].retry > 0)
  }

  predicate StumpFor(m: Msg, key: Key) {
    m.kind == StumpMsg && KeyOf(m) == key
  }

  /** The accepted STUMPs of a pair that have not finished their first attempt. */
  function Outstanding(c: Config, log: Log, pos: seq<nat>, done: set<Id>, key: Key): set<nat> {
    var p := c.part(key.url);
    if p < |log| && p < |pos| then set o: nat | o < pos[p] && o < |log[p]| && StumpFor(log[p][o], key)
        && Id(p, o) !in done
    else {}
  }

  function Count(gates: map<Key, int>, key: Key): int {
    if key in gates then gates[key] else 0
  }

  /** Every gate counts exactly the outstanding STUMPs of its pair. */
  ghost predicate GateOk(c: Config, log: Log, pos: seq<nat>, done: set<Id>, gates: map<Key, int>) {
    forall key: Key :: Count(gates, key) == |Outstanding(c, log, pos, done, key)|
  }

  ghost predicate Owable(log: Log, taken: seq<nat>, done: set<Id>, id: Id) {
    InLog(log, id) && id.part < |taken| && id.off < taken[id.part] && IsStumpAt(log, id) && id !in done
  }

  ghost predicate OwedBy(owes: seq<Option<Id>>, id: Id) {
    exists w: nat :: w < |owes| && owes[w] == Some(id)
  }

  /** The taken STUMPs that have not finished their first attempt are owed, each by one worker. */
  ghost predicate OwedOk(log: Log, taken: seq<nat>, owes: seq<Option<Id>>, done: set<Id>) {
    && (forall w: nat | w < |owes| && owes[w].Some? :: Owable(log, taken, done, owes[w].value))
    && (forall v: nat, w: nat | v < w < |owes| && owes[v].Some? :: owes[v] != owes[w])
    && (forall id | Owable(log, taken, done, id) :: OwedBy(owes, id))
    && (forall id | id in done :: id.part < |taken| && id.off < taken[id.part])
  }

  /** A worker owes for the message it is processing, and nothing when it has none. */
  ghost predicate TieOk(phases: seq<Phase>, owes: seq<Option<Id>>) {
    && |phases| == |owes|
    && (forall w: nat | w < |phases| && owes[w].Some? ::
          phases[w].Returning? || Holds(phases[w]) == owes[w])
  }

  /** Every STUMP of the pair that was ever published has finished its first attempt. */
  ghost predicate AllDone(log: Log, done: set<Id>, key: Key) {
    forall id | InLog(log, id) && StumpFor(MsgAt(log, id), key) :: id in done
  }

  ghost predicate PassedOk(log: Log, done: set<Id>, passed: set<Id>) {
    forall id | id in passed :: InLog(log, id) && IsEndAt(log, id) && AllDone(log, done, KeyOf(MsgAt(log, id)))
  }

  predicate BeyondGate(p: Phase) {
    !p.AtGate? && Holds(p).Some?
  }

  /** A worker with a BLOCK_PROCESSED is at the gate or has passed it. */
  ghost predicate BeyondOk(log: Log, phases: seq<Phase>, passed: set<Id>) {
    forall w: nat | w < |phases| && BeyondGate(phases[w]) ::
      && InLog(log, Holds(phases[w]).value)
      && (IsEndAt(log, Holds(phases[w]).value) ==> Holds(phases[w]).value in passed)
      && (phases[w].Deleting? ==> IsEndAt(log, Holds(phases[w]).value))
  }

  /** The post of a BLOCK_PROCESSED comes after the first attempt of every STUMP of its block and URL. */
  ghost predicate PostInOrder(log: Log, before: seq<Event>, id: Id) {
    InLog(log, id) &&
    (IsEndAt(log, id) ==>
       forall sid | InLog(log, sid) && StumpFor(MsgAt(log, sid), KeyOf(MsgAt(log, id))) :: FirstDone(sid) in before)
  }

  ghost predicate EventsOk(log: Log, events: seq<Event>, done: set<Id>) {
    && (forall id :: id in done <==> FirstDone(id) in events)
    && (forall i: nat | i < |events| && events[i].Posted? :: PostInOrder(log, events[..i], events[i].id))
  }

  ghost predicate LogOk(c: Config, log: Log) {
    Ordered(log) && Placed(c.part, log)
  }

  ghost predicate Inv(c: Config, s: State) {
    && LogOk(c, s.log)
    && PosOk(s.log, s.pos, s.pending, s.taken)
    && FifoOk(s.pos, s.pending, s.taken, s.ch)
    && RetryOk(s.jobs, s.taken, s.pending, s.ch)
    && HeldOk(s.phases, s.timers, s.jobs, s.taken)
    && GateOk(c, s.log, s.pos, s.done, s.gates)
    && OwedOk(s.log, s.taken, s.owes, s.done)
    && TieOk(s.phases, s.owes)
    && PassedOk(s.log, s.done, s.passed)
    && BeyondOk(s.log, s.phases, s.passed)
    && EventsOk(s.log, s.events, s.done)
  }

  /** The publisher keeps the log in order. */
  ghost predicate Allowed(c: Config, s: State, a: Action) {
    a.Publish? ==> Ordered(Append(s.log, c.part, a.m))
  }

  // ---------------------------------------------------------------- the log grows

  lemma AppendFacts(c: Config, log: Log, m: Msg)
    requires LogOk(c, log) && Ordered(Append(log, c.part, m))
    ensures var log' := Append(log, c.part, m);
            && LogOk(c, log') && |log'| == |log|
            && (forall p: nat | p < |log| :: |log[p]| <= |log'[p]| && log'[p][..|log[p]|] == log[p])
            && (forall id | InLog(log, id) :: InLog(log', id) && MsgAt(log', id) == MsgAt(log, id))
            && (forall id | InLog(log', id) && !InLog(log, id) ::
                  MsgAt(log', id) == m && id == Id(c.part(m.url), |log[id.part]|))
  {
  }

  /** A message published after a BLOCK_PROCESSED is no STUMP of its pair. */
  lemma NoLateStump(c: Config, log: Log, m: Msg, e: Id)
    requires LogOk(c, log) && Ordered(Append(log, c.part, m)) && InLog(log, e) && IsEndAt(log, e)
    ensures forall id | InLog(Append(log, c.part, m), id)
            && StumpFor(MsgAt(Append(log, c.part, m), id), KeyOf(MsgAt(log, e))) ::
              InLog(log, id) && MsgAt(Append(log, c.part, m), id) == MsgAt(log, id)
  {
    AppendFacts(c, log, m);
    var log' := Append(log, c.part, m);
    forall id | InLog(log', id) && StumpFor(MsgAt(log', id), KeyOf(MsgAt(log, e))) ensures InLog(log, id) {
      assert c.part(log'[id.part][id.off].url) == id.part;
      assert c.part(log[e.part][e.off].url) == e.part;
      assert log'[e.part][e.off] == log[e.part][e.off];
    }
  }

  lemma PublishKeeps(c: Config, s: State, m: Msg)
    requires Inv(c, s) && Ordered(Append(s.log, c.part, m))
    ensures Inv(c, s.(log := Append(s.log, c.part, m)))
  {
    hide LogOk, Ordered, Append, FifoOk, RetryOk, HeldOk, TieOk, Fresh;
    AppendFacts(c, s.log, m);
    var log': Log := Append(s.log, c.part, m);
    forall key: Key ensures Outstanding(c, log', s.pos, s.done, key) == Outstanding(c, s.log, s.pos, s.done, key) {
    }
    assert GateOk(c, log', s.pos, s.done, s.gates);
    hide Outstanding, GateOk;
    assert OwedOk(log', s.taken, s.owes, s.done);
    hide OwedOk;
    forall id | id in s.passed ensures AllDone(log', s.done, KeyOf(MsgAt(log', id))) {
      NoLateStump(c, s.log, m, id);
    }
    forall i: nat | i < |s.events| && s.events[i].Posted? ensures PostInOrder(log', s.events[..i], s.events[i].id) {
      assert PostInOrder(s.log, s.events[..i], s.events[i].id);
      if IsEndAt(s.log, s.events[i].id) {
        NoLateStump(c, s.log, m, s.events[i].id);
      }
    }
  }

  // ---------------------------------------------------------------- the consumer

  lemma AcceptKeeps(c: Config, s: State, p: nat)
    requires Inv(c, s)
    ensures Inv(c, Accepted(s, p))
  {
    hide LogOk, OwedOk, TieOk, PassedOk, BeyondOk, EventsOk, GateOk, FifoOk, RetryOk, HeldOk, Fresh;
    if p < |s.pos| && p < |s.pending| && p < |s.log| && s.pos[p] < |s.log[p]| && s.pending[p].None? {
      var id := Id(p, s.pos[p]);
      AcceptGate(c, s.log, s.pos, s.taken, s.owes, s.done, s.gates, p);
      AcceptFifo(s.pos, s.pending, s.taken, s.ch, p);
      AcceptRetry(s.jobs, s.taken, s.pending, s.ch, p, id, Job(0, 0, 0, 0, Resting));
      NewJobHeld(s.phases, s.timers, s.jobs, s.taken, id, Job(0, 0, 0, 0, Resting));
    }
  }

  lemma AcceptFifo(pos: seq<nat>, pending: seq<Option<Id>>, taken: seq<nat>, ch: seq<Id>, p: nat)
    requires FifoOk(pos, pending, taken, ch) && p < |pos| && pending[p].None?
    ensures FifoOk(pos[p := pos[p] + 1], pending[p := Some(Id(p, pos[p]))], taken, ch)
    ensures Id(p, pos[p]) !in ch
  {
    hide Fresh, Range;
  }

  lemma AcceptRetry(jobs: map<Id, Job>, taken: seq<nat>, pending: seq<Option<Id>>, ch: seq<Id>, p: nat, id: Id, j: Job)
    requires RetryOk(jobs, taken, pending, ch) && p < |pending| && id.part < |taken| && j.retry == 0 && id !in ch
    ensures RetryOk(jobs[id := j], taken, pending[p := Some(id)], ch)
  {
  }

  lemma NewJobHeld(phases: seq<Phase>, timers: seq<Timer>, jobs: map<Id, Job>, taken: seq<nat>, id: Id, j: Job)
    requires HeldOk(phases, timers, jobs, taken) && id.part < |taken| && id.off >= taken[id.part]
    ensures HeldOk(phases, timers, jobs[id := j], taken)
  {
    forall w: nat | w < |phases| && (phases[w].Retrying? || phases[w].Arming?) ensures phases[w].id != id {
      assert TakenJob(jobs, taken, Holds(phases[w]).value);
    }
    forall t: nat | t < |timers| && TimerHolds(timers[t]).Some? ensures TimerHolds(timers[t]).value != id {
      assert TakenJob(jobs, taken, TimerHolds(timers[t]).value);
    }
    forall w: nat | w < |phases| && Holds(phases[w]).Some?
        ensures TakenJob(jobs[id := j], taken, Holds(phases[w]).value) {
      assert TakenJob(jobs, taken, Holds(phases[w]).value);
    }
  }

  lemma AcceptGate(c: Config, log: Log, pos: seq<nat>, taken: seq<nat>, owes: seq<Option<Id>>, done: set<Id>,
                   gates: map<Key, int>, p: nat)
    requires LogOk(c, log) && GateOk(c, log, pos, done, gates) && OwedOk(log, taken, owes, done)
    requires |taken| == |pos| == |log| && p < |log| && taken[p] <= pos[p] < |log[p]|
    ensures var m := log[p][pos[p]];
            var key := KeyOf(m);
            GateOk(c, log, pos[p := pos[p] + 1], done,
                   if m.kind == StumpMsg then gates[key := Count(gates, key) + 1] else gates)
  {
    hide OwedOk, Outstanding;
    var m, pos' := log[p][pos[p]], pos[p := pos[p] + 1];
    DoneIsTaken(log, taken, owes, done, Id(p, pos[p]));
    assert c.part(m.url) == p;
    var key := KeyOf(m);
    var gates' := if m.kind == StumpMsg then gates[key := Count(gates, key) + 1] else gates;
    forall k: Key ensures Count(gates', k) == |Outstanding(c, log, pos', done, k)| {
      OutstandingAccept(c, log, pos, done, p, k);
    }
  }

  lemma OutstandingAccept(c: Config, log: Log, pos: seq<nat>, done: set<Id>, p: nat, key: Key)
    requires p < |log| == |pos| && pos[p] < |log[p]| && c.part(log[p][pos[p]].url) == p && Id(p, pos[p]) !in done
    ensures var o, o' := Outstanding(c, log, pos, done, key), Outstanding(c, log, pos[p := pos[p] + 1], done, key);
            |o'| == |o| + if StumpFor(log[p][pos[p]], key) then 1 else 0
  {
    var o, o' := Outstanding(c, log, pos, done, key), Outstanding(c, log, pos[p := pos[p] + 1], done, key);
    if c.part(key.url) != p {
      assert o' == o;
    } else {
      forall x: nat ensures x in o' <==> x in o || (x == pos[p] && StumpFor(log[p][pos[p]], key)) {
      }
      if StumpFor(log[p][pos[p]], key) {
        assert o' == o + {pos[p]};
      } else {
        assert o' == o;
      }
    }
  }

  lemma DoneIsTaken(log: Log, taken: seq<nat>, owes: seq<Option<Id>>, done: set<Id>, id: Id)
    requires OwedOk(log, taken, owes, done)
    ensures id in done ==> id.part < |taken| && id.off < taken[id.part]
  {
  }

  lemma FreshHead(x: Id, ch: seq<Id>, p: nat, from: nat)
    ensures Fresh([x] + ch, p, from) == (if x.part == p && x.off >= from then [x] else []) + Fresh(ch, p, from)
  {
    assert ([x] + ch)[1..] == ch;
  }

  lemma {:induction false} FreshSnoc(ch: seq<Id>, id: Id, p: nat, from: nat)
    ensures Fresh(ch + [id], p, from) == Fresh(ch, p, from) + if id.part == p && id.off >= from then [id] else []
  {
    if ch == [] {
      assert ch + [id] == [id] + [];
      FreshHead(id, [], p, from);
    } else {
      FreshSnoc(ch[1..], id, p, from);
      assert ch + [id] == [ch[0]] + (ch[1..] + [id]) && ch == [ch[0]] + ch[1..];
      FreshHead(ch[0], ch[1..] + [id], p, from);
      FreshHead(ch[0], ch[1..], p, from);
    }
  }

  lemma RangeSnoc(p: nat, from: nat, to: int)
    requires from <= to
    ensures Range(p, from, to + 1) == Range(p, from, to) + [Id(p, to)]
  {
  }

  lemma SendKeeps(c: Config, s: State, p: nat)
    requires Inv(c, s)
    ensures Inv(c, Delivery.Sent(c, s, p))
  {
    hide LogOk, OwedOk, TieOk, PassedOk, BeyondOk, EventsOk, GateOk, Fresh, Range, HeldOk;
    if p < |s.pending| && s.pending[p].Some? && |s.ch| < c.cap && s.stop < 3 {
      var id := s.pending[p].value;
      SendKeepsFifo(s, p);
      hide FifoOk;
      assert RetryOk(s.jobs, s.taken, s.pending[p := None], s.ch + [id]);
    }
  }

  lemma SendKeepsFifo(s: State, p: nat)
    requires PosOk(s.log, s.pos, s.pending, s.taken) && FifoOk(s.pos, s.pending, s.taken, s.ch)
    requires p < |s.pending| && s.pending[p].Some?
    ensures FifoOk(s.pos, s.pending[p := None], s.taken, s.ch + [s.pending[p].value])
  {
    hide Fresh, Range;
    var id := s.pending[p].value;
    forall q: nat | q < |s.taken|
      ensures Fresh(s.ch + [id], q, s.taken[q]) == Range(q, s.taken[q], SentUpto(s.pos, s.pending[p := None], q))
    {
      FreshSnoc(s.ch, id, q, s.taken[q]);
      if q == p {
        RangeSnoc(p, s.taken[p], SentUpto(s.pos, s.pending, p));
      } else {
        assert Fresh(s.ch, q, s.taken[q]) + [] == Fresh(s.ch, q, s.taken[q]);
      }
    }
  }

  // ---------------------------------------------------------------- taking from the channel

  lemma {:induction false} FreshFrom(ch: seq<Id>, p: nat, from: nat, from': nat)
    requires from <= from' && forall id | id in Fresh(ch, p, from) :: id.off >= from'
    ensures Fresh(ch, p, from') == Fresh(ch, p, from)
  {
    if ch == [] {
    } else {
      var head := if ch[0].part == p && ch[0].off >= from then [ch[0]] else [];
      assert Fresh(ch, p, from) == head + Fresh(ch[1..], p, from);
      forall id | id in Fresh(ch[1..], p, from) ensures id.off >= from' {
        assert id in Fresh(ch, p, from);
      }
      FreshFrom(ch[1..], p, from, from');
      if head != [] {
        assert ch[0] in Fresh(ch, p, from);
      }
    }
  }

  lemma FreshCons(ch: seq<Id>, p: nat, from: nat)
    requires ch != []
    ensures Fresh(ch, p, from)
         == (if ch[0].part == p && ch[0].off >= from then [ch[0]] else []) + Fresh(ch[1..], p, from)
  {
  }

  lemma {:induction false} FreshMember(ch: seq<Id>, p: nat, from: nat, id: Id)
    requires id.part == p && id.off >= from
    ensures id in ch ==> id in Fresh(ch, p, from)
  {
    if ch == [] {
    } else {
      FreshMember(ch[1..], p, from, id);
    }
  }

  lemma RangeCons(p: nat, from: nat, to: int, id: Id, rest: seq<Id>)
    requires Range(p, from, to) == [id] + rest
    ensures from < to && id == Id(p, from) && rest == Range(p, from + 1, to)
    ensures forall x | x in rest :: x.off >= from + 1
  {
    var r := Range(p, from, to);
    assert |r| >= 1;
    assert r[0] == id && r[1..] == rest;
    assert r[1..] == Range(p, from + 1, to);
  }

  /** The first untaken message of a partition in the channel is the next one in the log. */
  lemma TakeFirst(ch: seq<Id>, p: nat, from: nat, to: int)
    requires ch != [] && ch[0].part == p && ch[0].off >= from && Fresh(ch, p, from) == Range(p, from, to)
    ensures from < to && ch[0].off == from && Fresh(ch[1..], p, from + 1) == Range(p, from + 1, to) && ch[0] !in ch[1..]
  {
    FreshCons(ch, p, from);
    RangeCons(p, from, to, ch[0], Fresh(ch[1..], p, from));
    FreshMember(ch[1..], p, from, ch[0]);
    FreshFrom(ch[1..], p, from, from + 1);
  }

  lemma TakeOther(ch: seq<Id>, p: nat, from: nat)
    requires ch != [] && !(ch[0].part == p && ch[0].off >= from)
    ensures Fresh(ch[1..], p, from) == Fresh(ch, p, from)
  {
    FreshCons(ch, p, from);
    assert [] + Fresh(ch[1..], p, from) == Fresh(ch[1..], p, from);
  }

  lemma TakeFifo(pos: seq<nat>, pending: seq<Option<Id>>, taken: seq<nat>, ch: seq<Id>)
    requires FifoOk(pos, pending, taken, ch) && ch != []
    ensures var id := ch[0];
            && id.part < |taken|
            && (id.off >= taken[id.part] ==>
                  id.off == taken[id.part] < SentUpto(pos, pending, id.part) && id !in ch[1..])
            && FifoOk(pos, pending, if id.off >= taken[id.part] then taken[id.part := id.off + 1] else taken, ch[1..])
  {
    hide Fresh, Range;
    var id := ch[0];
    assert id in ch;
    forall q: nat | q < |taken| && !(id.part == q && id.off >= taken[q])
        ensures Fresh(ch[1..], q, taken[q]) == Fresh(ch, q, taken[q]) {
      TakeOther(ch, q, taken[q]);
    }
    if id.off >= taken[id.part] {
      TakeFirst(ch, id.part, taken[id.part], SentUpto(pos, pending, id.part));
    }
    assert forall x | x in ch[1..] :: x in ch;
  }

  lemma TakeRetry(jobs: map<Id, Job>, taken: seq<nat>, pending: seq<Option<Id>>, ch: seq<Id>)
    requires RetryOk(jobs, taken, pending, ch) && ch != [] && ch[0] in jobs && ch[0].part < |taken|
    requires ch[0].off >= taken[ch[0].part] ==> ch[0].off == taken[ch[0].part] && ch[0] !in ch[1..]
    ensures jobs[ch[0]].retry == 0 <==> ch[0].off >= taken[ch[0].part]
    ensures var taken' := if jobs[ch[0]].retry == 0 then taken[ch[0].part := ch[0].off + 1] else taken;
            RetryOk(jobs, taken', pending, ch[1..])
  {
    var id := ch[0];
    assert id in ch;
    var taken' := if jobs[id].retry == 0 then taken[id.part := id.off + 1] else taken;
    forall x | x in ch[1..] ensures x in jobs && x.part < |taken'| && (x.off < taken'[x.part] ==> jobs[x].retry > 0) {
      assert x in ch;
    }
  }

  lemma TakeHeld(phases: seq<Phase>, timers: seq<Timer>, jobs: map<Id, Job>, taken: seq<nat>, w: nat, id: Id)
    requires HeldOk(phases, timers, jobs, taken) && w < |phases| && id in jobs && id.part < |taken|
    ensures id.off >= taken[id.part] ==> HeldOk(phases[w := AtGate(id)], timers, jobs, taken[id.part := id.off + 1])
    ensures id.off < taken[id.part] ==> HeldOk(phases[w := AtGate(id)], timers, jobs, taken)
  {
  }

  lemma TakeKeeps(c: Config, s: State, w: nat)
    requires Inv(c, s)
    ensures Inv(c, Took(s, w))
  {
    hide LogOk, PassedOk, EventsOk, GateOk, FifoOk, OwedOk, RetryOk, HeldOk, Fresh;
    if w < |s.phases| && w < |s.owes| && s.phases[w].Idle? && s.ch != [] && s.ch[0] in s.jobs
        && s.ch[0].part < |s.taken| {
      var id := s.ch[0];
      TakeFifo(s.pos, s.pending, s.taken, s.ch);
      TakeRetry(s.jobs, s.taken, s.pending, s.ch);
      TakeHeld(s.phases, s.timers, s.jobs, s.taken, w, id);
      ChannelInLog(s.log, s.pos, s.pending, s.taken, s.ch);
      TakeOwed(s.log, s.taken, s.owes, s.done, w, id, s.jobs[id].retry == 0);
    }
  }

  lemma ChannelInLog(log: Log, pos: seq<nat>, pending: seq<Option<Id>>, taken: seq<nat>, ch: seq<Id>)
    requires PosOk(log, pos, pending, taken) && FifoOk(pos, pending, taken, ch)
    ensures forall i: nat | i < |ch| :: InLog(log, ch[i])
  {
    forall i: nat | i < |ch| ensures InLog(log, ch[i]) {
      assert ch[i] in ch;
    }
  }

  lemma TakeOwed(log: Log, taken: seq<nat>, owes: seq<Option<Id>>, done: set<Id>, w: nat, id: Id, first: bool)
    requires OwedOk(log, taken, owes, done) && w < |owes| && owes[w].None? && InLog(log, id) && id.part < |taken|
    requires first ==> id.off == taken[id.part]
    ensures OwedOk(log, if first then taken[id.part := id.off + 1] else taken,
                   owes[w := if first && IsStumpAt(log, id) then Some(id) else None], done)
  {
    var taken' := if first then taken[id.part := id.off + 1] else taken;
    var owes' := owes[w := if first && IsStumpAt(log, id) then Some(id) else None];
    forall x | Owable(log, taken', done, x) ensures OwedBy(owes', x) {
      if x == id && first {
        assert owes'[w] == Some(x);
      } else {
        assert Owable(log, taken, done, x);
        var v: nat :| v < |owes| && owes[v] == Some(x);
        assert owes'[v] == Some(x);
      }
    }
  }

  // ---------------------------------------------------------------- a worker moves on with the message it holds

  /** Steps of one worker that touch neither the gate nor what it owes. */
  lemma MoveKeeps(phases: seq<Phase>, owes: seq<Option<Id>>, timers: seq<Timer>, jobs: map<Id, Job>, taken: seq<nat>,
                  log: Log, passed: set<Id>, w: nat, to: Phase)
    requires w < |phases| && Holds(phases[w]).Some? && (Holds(to) == Holds(phases[w]) || to.Returning?)
    requires HeldOk(phases, timers, jobs, taken) && TieOk(phases, owes) && BeyondOk(log, phases, passed)
    requires to.Retrying? || to.Arming? ==> jobs[to.id].retry > 0
    requires to.Deleting? ==> IsEndAt(log, to.id)
    requires BeyondGate(to) ==>
               BeyondGate(phases[w]) || (InLog(log, to.id) && (IsEndAt(log, to.id) ==> to.id in passed))
    ensures HeldOk(phases[w := to], timers, jobs, taken) && TieOk(phases[w := to], owes)
            && BeyondOk(log, phases[w := to], passed)
  {
  }

  /** A retry count only goes up, and only of messages that were taken. */
  lemma BumpKeeps(phases: seq<Phase>, timers: seq<Timer>, jobs: map<Id, Job>, taken: seq<nat>,
                  pending: seq<Option<Id>>, ch: seq<Id>,
                  id: Id, j: Job)
    requires HeldOk(phases, timers, jobs, taken) && RetryOk(jobs, taken, pending, ch) && TakenJob(jobs, taken, id)
    requires j.retry >= jobs[id].retry
    ensures HeldOk(phases, timers, jobs[id := j], taken) && RetryOk(jobs[id := j], taken, pending, ch)
  {
    forall w: nat | w < |phases| && Holds(phases[w]).Some?
        ensures TakenJob(jobs[id := j], taken, Holds(phases[w]).value) {
      assert TakenJob(jobs, taken, Holds(phases[w]).value);
    }
    forall t: nat | t < |timers| && TimerHolds(timers[t]).Some?
        ensures TakenJob(jobs[id := j], taken, TimerHolds(timers[t]).value) {
      assert TakenJob(jobs, taken, TimerHolds(timers[t]).value);
    }
  }

  lemma HeldFacts(c: Config, s: State, w: nat)
    requires Inv(c, s) && w < |s.phases| && Holds(s.phases[w]).Some?
    ensures var id := Holds(s.phases[w]).value;
            TakenJob(s.jobs, s.taken, id) && InLog(s.log, id) && id.off < s.taken[id.part] <= s.pos[id.part]
  {
    hide LogOk, FifoOk, RetryOk, GateOk, OwedOk, PassedOk, BeyondOk, EventsOk;
    assert TakenJob(s.jobs, s.taken, Holds(s.phases[w]).value);
  }

  /** An empty gate means that every STUMP of the pair has finished: none can come after the BLOCK_PROCESSED. */
  lemma EmptyGateMeansDone(c: Config, s: State, id: Id)
    requires LogOk(c, s.log) && PosOk(s.log, s.pos, s.pending, s.taken) && GateOk(c, s.log, s.pos, s.done, s.gates)
    requires InLog(s.log, id) && IsEndAt(s.log, id) && id.off < s.pos[id.part]
    requires Count(s.gates, KeyOf(MsgAt(s.log, id))) == 0
    ensures AllDone(s.log, s.done, KeyOf(MsgAt(s.log, id)))
  {
    var key := KeyOf(MsgAt(s.log, id));
    assert Outstanding(c, s.log, s.pos, s.done, key) == {};
    assert c.part(s.log[id.part][id.off].url) == id.part;
    forall x | InLog(s.log, x) && StumpFor(MsgAt(s.log, x), key) ensures x in s.done {
      assert c.part(s.log[x.part][x.off].url) == x.part;
      assert x.part == id.part && x.off < id.off;
      assert x.off !in Outstanding(c, s.log, s.pos, s.done, key);
    }
  }

  lemma PassKeeps(c: Config, s: State, w: nat)
    requires Inv(c, s)
    ensures Inv(c, GatePassed(s, w))
  {
    hide LogOk, FifoOk, RetryOk, GateOk, OwedOk, EventsOk, HeldOk, TieOk, BeyondOk, PosOk, AllDone, Fresh;
    if w < |s.phases| && s.phases[w].AtGate? {
      var id := s.phases[w].id;
      HeldFacts(c, s, w);
      var key := KeyOf(MsgAt(s.log, id));
      if !IsEndAt(s.log, id) {
        MoveKeeps(s.phases, s.owes, s.timers, s.jobs, s.taken, s.log, s.passed, w, Checking(id));
      } else if Count(s.gates, key) == 0 {
        EmptyGateMeansDone(c, s, id);
        MorePassed(s.log, s.phases, s.passed, id);
        MoveKeeps(s.phases, s.owes, s.timers, s.jobs, s.taken, s.log, s.passed + {id}, w, Checking(id));
        MoveKeeps(s.phases, s.owes, s.timers, s.jobs, s.taken, s.log, s.passed + {id}, w, Deleting(id));
      }
    }
  }

  lemma MorePassed(log: Log, phases: seq<Phase>, passed: set<Id>, id: Id)
    requires BeyondOk(log, phases, passed)
    ensures BeyondOk(log, phases, passed + {id})
  {
  }

  lemma DeleteKeeps(c: Config, s: State, w: nat)
    requires Inv(c, s)
    ensures Inv(c, GateDeleted(s, w))
  {
    hide LogOk, FifoOk, RetryOk, OwedOk, EventsOk, HeldOk, TieOk, PosOk, Fresh;
    if w < |s.phases| && s.phases[w].Deleting? {
      var id := s.phases[w].id;
      var key := KeyOf(MsgAt(s.log, id));
      MoveKeeps(s.phases, s.owes, s.timers, s.jobs, s.taken, s.log, s.passed, w, Checking(id));
      DeleteGateOk(c, s, w);
    }
  }

  /** The deleted gate counted nothing. */
  lemma DeleteGateOk(c: Config, s: State, w: nat)
    requires GateOk(c, s.log, s.pos, s.done, s.gates) && PassedOk(s.log, s.done, s.passed)
             && BeyondOk(s.log, s.phases, s.passed)
    requires w < |s.phases| && s.phases[w].Deleting?
    ensures GateOk(c, s.log, s.pos, s.done, s.gates - {KeyOf(MsgAt(s.log, s.phases[w].id))})
  {
    var id := s.phases[w].id;
    assert BeyondGate(s.phases[w]) && id in s.passed;
    NothingOutstanding(c, s.log, s.pos, s.done, KeyOf(MsgAt(s.log, id)));
    hide Outstanding, AllDone;
  }

  lemma NothingOutstanding(c: Config, log: Log, pos: seq<nat>, done: set<Id>, key: Key)
    requires AllDone(log, done, key)
    ensures Outstanding(c, log, pos, done, key) == {}
  {
    forall o: nat ensures o !in Outstanding(c, log, pos, done, key) {
      var p := c.part(key.url);
      assert InLog(log, Id(p, o)) && StumpFor(MsgAt(log, Id(p, o)), key) ==> Id(p, o) in done;
    }
  }

  // ---------------------------------------------------------------- leaving processDelivery

  lemma ReturnKeeps(c: Config, s: State, w: nat)
    requires Inv(c, s)
    ensures Inv(c, Returned(s, w))
  {
    hide LogOk, FifoOk, RetryOk, GateOk, OwedOk, EventsOk, PassedOk, PosOk, Fresh;
    if w < |s.phases| && w < |s.owes| && s.phases[w].Returning? && s.owes[w].Some? {
      var id := s.owes[w].value;
      OwedFacts(s.log, s.taken, s.owes, s.done, w);
      ReturnOwed(s.log, s.taken, s.owes, s.done, w);
      ReturnGate(c, s.log, s.pos, s.pending, s.taken, s.done, s.gates, id);
      ReturnPassed(s.log, s.done, s.passed, id);
      ReturnEvents(s.log, s.events, s.done, id);
    }
  }

  lemma OwedFacts(log: Log, taken: seq<nat>, owes: seq<Option<Id>>, done: set<Id>, w: nat)
    requires OwedOk(log, taken, owes, done) && w < |owes| && owes[w].Some?
    ensures Owable(log, taken, done, owes[w].value)
  {
  }

  lemma ReturnOwed(log: Log, taken: seq<nat>, owes: seq<Option<Id>>, done: set<Id>, w: nat)
    requires OwedOk(log, taken, owes, done) && w < |owes| && owes[w].Some?
    ensures OwedOk(log, taken, owes[w := None], done + {owes[w].value})
  {
    var id, owes' := owes[w].value, owes[w := None];
    forall x | Owable(log, taken, done + {id}, x) ensures OwedBy(owes', x) {
      assert Owable(log, taken, done, x);
      var v: nat :| v < |owes| && owes[v] == Some(x);
      assert owes'[v] == Some(x);
    }
  }

  lemma ReturnGate(c: Config, log: Log, pos: seq<nat>, pending: seq<Option<Id>>, taken: seq<nat>, done: set<Id>,
                   gates: map<Key, int>, id: Id)
    requires LogOk(c, log) && PosOk(log, pos, pending, taken) && GateOk(c, log, pos, done, gates)
             && Owable(log, taken, done, id)
    ensures var key := KeyOf(MsgAt(log, id));
            && key in gates && gates[key] >= 1
            && GateOk(c, log, pos, done + {id}, gates[key := gates[key] - 1])
  {
    var key := KeyOf(MsgAt(log, id));
    assert c.part(log[id.part][id.off].url) == id.part;
    assert id.off in Outstanding(c, log, pos, done, key);
    forall k: Key
      ensures Outstanding(c, log, pos, done + {id}, k)
           == Outstanding(c, log, pos, done, k) - (if k == key then {id.off} else {})
    {
    }
    hide Outstanding;
  }

  lemma ReturnPassed(log: Log, done: set<Id>, passed: set<Id>, id: Id)
    requires PassedOk(log, done, passed)
    ensures PassedOk(log, done + {id}, passed)
  {
  }

  lemma ReturnEvents(log: Log, events: seq<Event>, done: set<Id>, id: Id)
    requires EventsOk(log, events, done)
    ensures EventsOk(log, events + [FirstDone(id)], done + {id})
  {
    var events' := events + [FirstDone(id)];
    forall i: nat | i < |events'| && events'[i].Posted? ensures PostInOrder(log, events'[..i], events'[i].id) {
      assert events'[..i] == events[..i] && events'[i] == events[i];
    }
  }

  /** A post is recorded; for a BLOCK_PROCESSED everything it has to follow is already recorded. */
  lemma PostEvents(log: Log, events: seq<Event>, done: set<Id>, passed: set<Id>, id: Id)
    requires EventsOk(log, events, done) && PassedOk(log, done, passed) && InLog(log, id)
             && (IsEndAt(log, id) ==> id in passed)
    ensures EventsOk(log, events + [Posted(id)], done)
  {
    var events' := events + [Posted(id)];
    forall i: nat | i < |events'| && events'[i].Posted? ensures PostInOrder(log, events'[..i], events'[i].id) {
      assert events'[..i] == events[..i];
      if i < |events| {
        assert events'[i] == events[i];
      } else {
        assert events[..i] == events;
      }
    }
  }

  // ---------------------------------------------------------------- timers

  /** A timer goes on with its message or lets go of it. */
  lemma TimerHeld(phases: seq<Phase>, timers: seq<Timer>, jobs: map<Id, Job>, taken: seq<nat>, t: nat, to: Timer)
    requires HeldOk(phases, timers, jobs, taken) && t < |timers|
             && (TimerHolds(to).None? || TimerHolds(to) == TimerHolds(timers[t]))
    ensures HeldOk(phases, timers[t := to], jobs, taken)
  {
  }

  lemma ArmHeld(phases: seq<Phase>, timers: seq<Timer>, jobs: map<Id, Job>, taken: seq<nat>, w: nat)
    requires HeldOk(phases, timers, jobs, taken) && w < |phases| && phases[w].Arming?
    ensures HeldOk(phases, timers + [Armed(phases[w].id)], jobs, taken)
  {
    assert TakenJob(jobs, taken, Holds(phases[w]).value);
  }

  /** A retry goes back into the channel behind what is there; no untaken message is affected. */
  lemma ResendKeeps(pos: seq<nat>, pending: seq<Option<Id>>, taken: seq<nat>, ch: seq<Id>, jobs: map<Id, Job>,
                    log: Log, id: Id)
    requires PosOk(log, pos, pending, taken) && FifoOk(pos, pending, taken, ch) && RetryOk(jobs, taken, pending, ch)
    requires TakenJob(jobs, taken, id) && jobs[id].retry > 0
    ensures FifoOk(pos, pending, taken, ch + [id]) && RetryOk(jobs, taken, pending, ch + [id])
  {
    hide Fresh, Range;
    forall p: nat | p < |taken| ensures Fresh(ch + [id], p, taken[p]) == Fresh(ch, p, taken[p]) {
      FreshSnoc(ch, id, p, taken[p]);
      assert Fresh(ch, p, taken[p]) + [] == Fresh(ch, p, taken[p]);
    }
  }

  lemma TimerSendKeeps(c: Config, s: State, t: nat)
    requires Inv(c, s)
    ensures Inv(c, TimerSent(c, s, t))
  {
    hide LogOk, FifoOk, RetryOk, GateOk, OwedOk, EventsOk, PassedOk, TieOk, BeyondOk, Fresh, PosOk;
    if t < |s.timers| && s.timers[t].Sending? {
      assert TakenJob(s.jobs, s.taken, TimerHolds(s.timers[t]).value);
      TimerHeld(s.phases, s.timers, s.jobs, s.taken, t, Ending);
      ResendKeeps(s.pos, s.pending, s.taken, s.ch, s.jobs, s.log, s.timers[t].id);
    }
  }

  // ---------------------------------------------------------------- every step

  /** A worker past the gate goes on with its message, or is done with it; what the message carries may change. */
  lemma AttemptKeeps(c: Config, s: State, w: nat, to: Phase, j: Job)
    requires Inv(c, s) && w < |s.phases| && BeyondGate(s.phases[w]) && Holds(s.phases[w]).value in s.jobs
    requires Holds(to) == Holds(s.phases[w]) || to.Returning?
    requires j.retry >= s.jobs[Holds(s.phases[w]).value].retry && !to.Deleting?
    requires to.Retrying? || to.Arming? ==> j.retry > 0
    ensures var jobs := s.jobs[Holds(s.phases[w]).value := j];
            && HeldOk(s.phases[w := to], s.timers, jobs, s.taken) && RetryOk(jobs, s.taken, s.pending, s.ch)
            && TieOk(s.phases[w := to], s.owes) && BeyondOk(s.log, s.phases[w := to], s.passed)
  {
    HeldFacts(c, s, w);
    hide LogOk, FifoOk, RetryOk, GateOk, OwedOk, EventsOk, PassedOk, PosOk, HeldOk, TieOk, BeyondOk, Fresh;
    var id := Holds(s.phases[w]).value;
    BumpKeeps(s.phases, s.timers, s.jobs, s.taken, s.pending, s.ch, id, j);
    MoveKeeps(s.phases, s.owes, s.timers, s.jobs[id := j], s.taken, s.log, s.passed, w, to);
  }

  lemma CheckFailsKeeps(c: Config, s: State, w: nat)
    requires Inv(c, s)
    ensures Inv(c, CheckFailed(c, s, w))
  {
    hide LogOk, FifoOk, RetryOk, GateOk, OwedOk, EventsOk, PassedOk, PosOk, HeldOk, TieOk, BeyondOk, Fresh;
    if w < |s.phases| && s.phases[w].Checking? && s.phases[w].id in s.jobs {
      var j := s.jobs[s.phases[w].id];
      AttemptKeeps(c, s, w, Retrying(s.phases[w].id), Bumped(c, j).(checkErrors := j.checkErrors + 1));
    }
  }

  lemma BeginPostKeeps(c: Config, s: State, w: nat)
    requires Inv(c, s)
    ensures Inv(c, PostBegun(s, w))
  {
    hide LogOk, FifoOk, RetryOk, GateOk, OwedOk, EventsOk, PassedOk, PosOk, HeldOk, TieOk, BeyondOk, Fresh;
    if w < |s.phases| && s.phases[w].Posting? && s.phases[w].id in s.jobs {
      var j := s.jobs[s.phases[w].id];
      AttemptKeeps(c, s, w, InFlight(s.phases[w].id), j.(attempts := j.attempts + 1, stage := Flying));
      BeyondFacts(s.log, s.phases, s.passed, w);
      PostEvents(s.log, s.events, s.done, s.passed, s.phases[w].id);
    }
  }

  lemma PostSucceedsKeeps(c: Config, s: State, w: nat, recorded: bool)
    requires Inv(c, s)
    ensures Inv(c, PostSucceeded(c, s, w, recorded))
  {
    hide LogOk, FifoOk, RetryOk, GateOk, OwedOk, EventsOk, PassedOk, PosOk, HeldOk, TieOk, BeyondOk, Fresh;
    if w < |s.phases| && s.phases[w].InFlight? && s.phases[w].id in s.jobs {
      AttemptKeeps(c, s, w, Returning, s.jobs[s.phases[w].id].(stage := Spent));
    }
  }

  lemma PostFailsKeeps(c: Config, s: State, w: nat)
    requires Inv(c, s)
    ensures Inv(c, PostFailed(c, s, w))
  {
    hide LogOk, FifoOk, RetryOk, GateOk, OwedOk, EventsOk, PassedOk, PosOk, HeldOk, TieOk, BeyondOk, Fresh;
    if w < |s.phases| && s.phases[w].InFlight? && s.phases[w].id in s.jobs {
      var j := s.jobs[s.phases[w].id];
      AttemptKeeps(c, s, w, Returning, j.(stage := Spent));
      AttemptKeeps(c, s, w, Retrying(s.phases[w].id), Bumped(c, j));
    }
  }

  lemma BeyondFacts(log: Log, phases: seq<Phase>, passed: set<Id>, w: nat)
    requires BeyondOk(log, phases, passed) && w < |phases| && BeyondGate(phases[w])
    ensures var id := Holds(phases[w]).value; InLog(log, id) && (IsEndAt(log, id) ==> id in passed)
  {
  }

  /** The same for steps that leave the message as it is. */
  lemma PlainMoveKeeps(c: Config, s: State, w: nat, to: Phase)
    requires Inv(c, s) && w < |s.phases| && BeyondGate(s.phases[w])
             && (Holds(to) == Holds(s.phases[w]) || to.Returning?)
    requires to.Arming? ==> s.phases[w].Retrying?
    requires !to.Deleting? && !to.Retrying?
    ensures HeldOk(s.phases[w := to], s.timers, s.jobs, s.taken)
    ensures TieOk(s.phases[w := to], s.owes) && BeyondOk(s.log, s.phases[w := to], s.passed)
  {
    HeldFacts(c, s, w);
    if s.phases[w].Retrying? {
      RetryingFacts(s.phases, s.timers, s.jobs, s.taken, w);
    }
    hide LogOk, FifoOk, RetryOk, GateOk, OwedOk, EventsOk, PassedOk, PosOk, HeldOk, TieOk, BeyondOk, Fresh;
    MoveKeeps(s.phases, s.owes, s.timers, s.jobs, s.taken, s.log, s.passed, w, to);
  }

  lemma CheckKeeps(c: Config, s: State, w: nat)
    requires Inv(c, s)
    ensures Inv(c, Checked(c, s, w))
  {
    hide LogOk, FifoOk, RetryOk, GateOk, OwedOk, EventsOk, PassedOk, PosOk, HeldOk, TieOk, BeyondOk, Fresh;
    if w < |s.phases| && s.phases[w].Checking? {
      PlainMoveKeeps(c, s, w, Returning);
      PlainMoveKeeps(c, s, w, Posting(s.phases[w].id));
    }
  }

  lemma FailForGoodKeeps(c: Config, s: State, w: nat)
    requires Inv(c, s)
    ensures Inv(c, FailedForGood(s, w))
  {
    hide LogOk, FifoOk, RetryOk, GateOk, OwedOk, EventsOk, PassedOk, PosOk, HeldOk, TieOk, BeyondOk, Fresh;
    if w < |s.phases| && s.phases[w].Posting? {
      PlainMoveKeeps(c, s, w, Returning);
    }
  }

  lemma LoadFlagKeeps(c: Config, s: State, w: nat)
    requires Inv(c, s)
    ensures Inv(c, FlagLoaded(s, w))
  {
    hide LogOk, FifoOk, RetryOk, GateOk, OwedOk, EventsOk, PassedOk, PosOk, HeldOk, TieOk, BeyondOk, Fresh;
    if w < |s.phases| && s.phases[w].Retrying? {
      PlainMoveKeeps(c, s, w, Returning);
      PlainMoveKeeps(c, s, w, Arming(s.phases[w].id));
    }
  }

  lemma ArmKeeps(c: Config, s: State, w: nat)
    requires Inv(c, s)
    ensures Inv(c, TimerArmed(s, w))
  {
    hide LogOk, FifoOk, RetryOk, GateOk, OwedOk, EventsOk, PassedOk, PosOk, HeldOk, TieOk, BeyondOk, Fresh;
    if w < |s.phases| && s.phases[w].Arming? {
      ArmHeld(s.phases, s.timers, s.jobs, s.taken, w);
      MoveKeeps(s.phases, s.owes, s.timers + [Armed(s.phases[w].id)], s.jobs, s.taken, s.log, s.passed, w, Returning);
    }
  }

  lemma ExitKeeps(c: Config, s: State, w: nat)
    requires Inv(c, s) && w < |s.phases| && s.phases[w].Idle?
    ensures Inv(c, s.(phases := s.phases[w := Exited]))
  {
    hide LogOk, FifoOk, RetryOk, GateOk, OwedOk, EventsOk, PassedOk, PosOk, Fresh;
  }

  lemma RetryingFacts(phases: seq<Phase>, timers: seq<Timer>, jobs: map<Id, Job>, taken: seq<nat>, w: nat)
    requires HeldOk(phases, timers, jobs, taken) && w < |phases| && phases[w].Retrying?
    ensures phases[w].id in jobs && jobs[phases[w].id].retry > 0
  {
  }

  lemma {:induction false} StepKeepsInv(c: Config, s: State, a: Action)
    requires Inv(c, s) && Allowed(c, s, a)
    ensures Inv(c, Step(c, s, a))
  {
    hide Inv, Ordered, Append, Accepted, Delivery.Sent, Took, GatePassed, GateDeleted, CheckFailed, Checked, PostBegun,
      FailedForGood,
      PostSucceeded, PostFailed, FlagLoaded, TimerArmed, Returned, TimerSent;
    match a
    case Publish(m) => PublishKeeps(c, s, m);
    case Accept(p) => AcceptKeeps(c, s, p);
    case Send(p) => SendKeeps(c, s, p);
    case Take(w) => TakeKeeps(c, s, w);
    case PassGate(w) => PassKeeps(c, s, w);
    case DeleteGate(w) => DeleteKeeps(c, s, w);
    case CheckFails(w) => CheckFailsKeeps(c, s, w);
    case Check(w) => CheckKeeps(c, s, w);
    case BeginPost(w) => BeginPostKeeps(c, s, w);
    case FailForGood(w) => FailForGoodKeeps(c, s, w);
    case PostSucceeds(w, recorded) => PostSucceedsKeeps(c, s, w, recorded);
    case PostFails(w) => PostFailsKeeps(c, s, w);
    case LoadFlag(w) => LoadFlagKeeps(c, s, w);
    case Arm(w) => ArmKeeps(c, s, w);
    case Return(w) => ReturnKeeps(c, s, w);
    case TimerSend(t) => TimerSendKeeps(c, s, t);
    case Exit(w) =>
      if w < |s.phases| && s.phases[w].Idle? {
        ExitKeeps(c, s, w);
      }
    case Fire(t) => TimerKeeps(c, s, a, t);
    case TimerEnd(t) => TimerKeeps(c, s, a, t);
    case StopFlag => StopKeeps(c, s, a);
    case StopWait => StopKeeps(c, s, a);
    case StopClose => StopKeeps(c, s, a);
    case Forget(_) => StopKeeps(c, s, a);
  }

  lemma TimerKeeps(c: Config, s: State, a: Action, t: nat)
    requires Inv(c, s) && (a == Fire(t) || a == TimerEnd(t))
    ensures Inv(c, Step(c, s, a))
  {
    hide LogOk, FifoOk, RetryOk, GateOk, OwedOk, EventsOk, PassedOk, PosOk, HeldOk, TieOk, BeyondOk, Fresh;
    if t < |s.timers| {
      TimerHeld(s.phases, s.timers, s.jobs, s.taken, t, Step(c, s, a).timers[t]);
    }
  }

  lemma StopKeeps(c: Config, s: State, a: Action)
    requires Inv(c, s) && (a.StopFlag? || a.StopWait? || a.StopClose? || a.Forget?)
    ensures Inv(c, Step(c, s, a))
  {
    hide LogOk, FifoOk, RetryOk, GateOk, OwedOk, EventsOk, PassedOk, PosOk, HeldOk, TieOk, BeyondOk, Fresh;
  }

  lemma InitialInv(c: Config, partitions: nat, workers: nat)
    ensures Inv(c, Initial(c, partitions, workers))
  {
    var s := Initial(c, partitions, workers);
    forall key: Key ensures Outstanding(c, s.log, s.pos, s.done, key) == {} {
    }
  }

  // ---------------------------------------------------------------- the theorems

  /** In every state: each gate counts its outstanding STUMPs exactly, so no count is ever negative. */
  lemma GateCountsExactly(c: Config, s: State, key: Key)
    requires Inv(c, s)
    ensures Count(s.gates, key) == |Outstanding(c, s.log, s.pos, s.done, key)| >= 0
  {
  }

  /** What a worker can always do next, unless it is idle, gone, or waiting at a gate. */
  predicate Waiting(s: State, w: nat)
    requires w < |s.phases|
  {
    s.phases[w].AtGate? && IsEndAt(s.log, s.phases[w].id) && Count(s.gates, KeyOf(MsgAt(s.log, s.phases[w].id))) != 0
  }

  predicate Busy(p: Phase) {
    !p.Idle? && !p.Exited?
  }

  function NextAction(s: State, w: nat): Action
    requires w < |s.phases|
  {
    match s.phases[w]
    case AtGate(_) => PassGate(w)
    case Deleting(_) => DeleteGate(w)
    case Checking(_) => Check(w)
    case Posting(_) => BeginPost(w)
    case InFlight(_) => PostFails(w)
    case Retrying(_) => LoadFlag(w)
    case Arming(_) => Arm(w)
    case Returning => Return(w)
    case _ => Take(w)
  }

  ghost predicate Moves(c: Config, s: State, w: nat)
    requires w < |s.phases|
  {
    var s' := Step(c, s, NextAction(s, w));
    w < |s'.phases| && s'.phases[w] != s.phases[w]
  }

  /** A busy worker that is not waiting at a gate can move. */
  lemma {:induction false} BusyMoves(c: Config, s: State, w: nat)
    requires Inv(c, s) && w < |s.phases| && Busy(s.phases[w]) && !Waiting(s, w)
    ensures Moves(c, s, w)
  {
    hide Inv, Moves, Waiting;
    match s.phases[w] {
      case Returning => ReturningMoves(c, s, w);
      case AtGate(_) => PassingMoves(c, s, w);
      case Deleting(_) => PassingMoves(c, s, w);
      case Posting(_) => PostingMoves(c, s, w);
      case InFlight(_) => PostingMoves(c, s, w);
      case _ => OthersMove(c, s, w);
    }
  }

  lemma ReturningMoves(c: Config, s: State, w: nat)
    requires Inv(c, s) && w < |s.phases| && s.phases[w].Returning?
    ensures Moves(c, s, w)
  {
    hide LogOk, FifoOk, RetryOk, GateOk, OwedOk, EventsOk, PassedOk, PosOk, HeldOk, BeyondOk, Fresh, MsgAt;
  }

  lemma PassingMoves(c: Config, s: State, w: nat)
    requires w < |s.phases| && (s.phases[w].AtGate? || s.phases[w].Deleting?) && !Waiting(s, w)
    ensures Moves(c, s, w)
  {
    hide MsgAt;
  }

  lemma PostingMoves(c: Config, s: State, w: nat)
    requires Inv(c, s) && w < |s.phases| && (s.phases[w].Posting? || s.phases[w].InFlight?)
    ensures Moves(c, s, w)
  {
    hide Inv, MsgAt, DedupKeyOf;
    HeldFacts(c, s, w);
  }

  lemma OthersMove(c: Config, s: State, w: nat)
    requires w < |s.phases| && (s.phases[w].Checking? || s.phases[w].Retrying? || s.phases[w].Arming?)
    ensures Moves(c, s, w)
  {
    hide MsgAt, DedupKeyOf;
  }

  /**
   A worker that waits at a gate waits for STUMPs that other workers are processing right now, and each of those workers
   can move: no STUMP it waits for is still in the channel or with the consumer.
   */
  lemma WaitsForRunningWorkers(c: Config, s: State, w: nat, o: nat)
    requires Inv(c, s) && w < |s.phases| && Waiting(s, w)
    requires o in Outstanding(c, s.log, s.pos, s.done, KeyOf(MsgAt(s.log, s.phases[w].id)))
    ensures exists v: nat :: v < |s.phases| && v != w && s.owes[v] == Some(Id(s.phases[w].id.part, o))
                             && Busy(s.phases[v]) && !Waiting(s, v)
  {
    var id := s.phases[w].id;
    HeldFacts(c, s, w);
    var key := KeyOf(MsgAt(s.log, id));
    var sid := Id(id.part, o);
    assert c.part(s.log[id.part][id.off].url) == id.part;
    assert sid.off < id.off;
    assert Owable(s.log, s.taken, s.done, sid);
    var v: nat :| v < |s.owes| && s.owes[v] == Some(sid);
    assert s.phases[v].Returning? || Holds(s.phases[v]) == Some(sid);
    assert IsStumpAt(s.log, sid) && IsEndAt(s.log, id);
  }

  /** For any number of workers: if some worker is busy, some worker can move; so the gate never deadlocks. */
  lemma NeverStuck(c: Config, s: State, w: nat)
    requires Inv(c, s) && w < |s.phases| && Busy(s.phases[w])
    ensures exists v: nat :: v < |s.phases| && Busy(s.phases[v]) && !Waiting(s, v)
  {
    if Waiting(s, w) {
      var key := KeyOf(MsgAt(s.log, s.phases[w].id));
      GateCountsExactly(c, s, key);
      var o :| o in Outstanding(c, s.log, s.pos, s.done, key);
      WaitsForRunningWorkers(c, s, w, o);
    }
  }
}
