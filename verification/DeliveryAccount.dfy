/**
 What becomes of a message over every run of the delivery machine: it is in exactly one place, the counters agree with
 the places, attempts and backoff are bounded, nothing undelivered is deduplicated away, and shutdown never makes a
 timer send on the closed channel.
 */
module DeliveryAccount {
  import opened Prelude
  import opened CallbackLog
  import opened Delivery

  // ---------------------------------------------------------------- places

  ghost predicate PosBound(log: Log, pos: seq<nat>) {
    |pos| == |log| && forall p: nat | p < |pos| :: pos[p] <= |log[p]|
  }

  /** Exactly the accepted messages have a job and a place. */
  ghost predicate Known(pos: seq<nat>, jobs: map<Id, Job>, place: map<Id, Place>) {
    place.Keys == jobs.Keys && forall id :: id in jobs <==> id.part < |pos| && id.off < pos[id.part]
  }

  ghost predicate PendOk(pending: seq<Option<Id>>, place: map<Id, Place>) {
    && (forall p: nat | p < |pending| && pending[p].Some? ::
          pending[p].value in place && place[pending[p].value] == Pending(p))
    && (forall id | id in place && place[id].Pending? ::
          place[id].part < |pending| && pending[place[id].part] == Some(id))
  }

  ghost predicate ChOk(ch: seq<Id>, place: map<Id, Place>) {
    && (forall i: nat | i < |ch| :: ch[i] in place && place[ch[i]] == Queued)
    && (forall i: nat, j: nat | i < j < |ch| :: ch[i] != ch[j])
    && (forall id | id in place && place[id] == Queued :: id in ch)
  }

  ghost predicate WorkOk(phases: seq<Phase>, place: map<Id, Place>) {
    && (forall w: nat | w < |phases| && Holds(phases[w]).Some? ::
          Holds(phases[w]).value in place && place[Holds(phases[w]).value] == Held(w))
    && (forall id | id in place && place[id].Held? ::
          place[id].worker < |phases| && Holds(phases[place[id].worker]) == Some(id))
  }

  ghost predicate TimerOk(timers: seq<Timer>, place: map<Id, Place>) {
    && (forall t: nat | t < |timers| && TimerHolds(timers[t]).Some? ::
          TimerHolds(timers[t]).value in place && place[TimerHolds(timers[t]).value] == Parked(t))
    && (forall id | id in place && place[id].Parked? ::
          place[id].timer < |timers| && TimerHolds(timers[place[id].timer]) == Some(id))
  }

  ghost predicate EndOk(finished: seq<End>, place: map<Id, Place>) {
    && (forall i: nat | i < |finished| ::
          finished[i].id in place && place[finished[i].id] == Final(finished[i].outcome))
    && (forall i: nat, j: nat | i < j < |finished| :: finished[i].id != finished[j].id)
    && (forall id | id in place && place[id].Final? :: End(id, place[id].outcome) in finished)
  }

  ghost predicate Places(s: State) {
    && PosBound(s.log, s.pos)
    && Known(s.pos, s.jobs, s.place)
    && PendOk(s.pending, s.place)
    && ChOk(s.ch, s.place)
    && WorkOk(s.phases, s.place)
    && TimerOk(s.timers, s.place)
    && EndOk(s.finished, s.place)
  }

  // ---------------------------------------------------------------- a message moves

  lemma PendFrame(pending: seq<Option<Id>>, place: map<Id, Place>, id: Id, to: Place)
    requires PendOk(pending, place) && !to.Pending? && id in place && !place[id].Pending?
    ensures PendOk(pending, place[id := to])
  {
  }

  lemma ChFrame(ch: seq<Id>, place: map<Id, Place>, id: Id, to: Place)
    requires ChOk(ch, place) && to != Queued && (id in place ==> place[id] != Queued)
    ensures ChOk(ch, place[id := to])
  {
  }

  lemma WorkFrame(phases: seq<Phase>, place: map<Id, Place>, id: Id, to: Place)
    requires WorkOk(phases, place) && !to.Held? && (id in place ==> !place[id].Held?)
    ensures WorkOk(phases, place[id := to])
  {
  }

  lemma TimerFrame(timers: seq<Timer>, place: map<Id, Place>, id: Id, to: Place)
    requires TimerOk(timers, place) && !to.Parked? && (id in place ==> !place[id].Parked?)
    ensures TimerOk(timers, place[id := to])
  {
  }

  lemma EndFrame(finished: seq<End>, place: map<Id, Place>, id: Id, to: Place)
    requires EndOk(finished, place) && !to.Final? && (id in place ==> !place[id].Final?)
    ensures EndOk(finished, place[id := to])
  {
  }

  lemma WorkSame(phases: seq<Phase>, place: map<Id, Place>, w: nat, to: Phase)
    requires WorkOk(phases, place) && w < |phases| && Holds(to) == Holds(phases[w])
    ensures WorkOk(phases[w := to], place)
  {
  }

  /** A worker lets go of its message. */
  lemma WorkDrops(phases: seq<Phase>, place: map<Id, Place>, w: nat, to: Place)
    requires WorkOk(phases, place) && w < |phases| && Holds(phases[w]).Some? && !to.Held?
    ensures var id := Holds(phases[w]).value;
            id in place && place[id] == Held(w) && WorkOk(phases[w := Returning], place[id := to])
  {
  }

  lemma EndMore(finished: seq<End>, place: map<Id, Place>, id: Id, o: Outcome)
    requires EndOk(finished, place) && id in place && !place[id].Final?
    ensures EndOk(finished + [End(id, o)], place[id := Final(o)])
  {
    var fin', place' := finished + [End(id, o)], place[id := Final(o)];
    forall x | x in place' && place'[x].Final? ensures End(x, place'[x].outcome) in fin' {
      if x == id {
        assert fin'[|finished|] == End(x, o);
      } else {
        assert End(x, place[x].outcome) in finished;
      }
    }
  }

  lemma ChMore(ch: seq<Id>, place: map<Id, Place>, id: Id)
    requires ChOk(ch, place) && id in place && place[id] != Queued
    ensures ChOk(ch + [id], place[id := Queued])
  {
    forall x | x in place[id := Queued] && place[id := Queued][x] == Queued ensures x in ch + [id] {
      if x != id {
        assert x in ch;
      }
    }
  }

  lemma AcceptPlaces(c: Config, s: State, p: nat)
    requires Places(s)
    ensures Places(Step(c, s, Accept(p)))
  {
    hide ChOk, WorkOk, TimerOk, EndOk, PendOk;
    if p < |s.pos| && p < |s.pending| && p < |s.log| && s.pos[p] < |s.log[p]| && s.pending[p].None? {
      var id := Id(p, s.pos[p]);
      assert id !in s.place;
      PendMore(s.pending, s.place, p, id);
      ChFrame(s.ch, s.place, id, Pending(p));
      WorkFrame(s.phases, s.place, id, Pending(p));
      TimerFrame(s.timers, s.place, id, Pending(p));
      EndFrame(s.finished, s.place, id, Pending(p));
    }
  }

  lemma PendMore(pending: seq<Option<Id>>, place: map<Id, Place>, p: nat, id: Id)
    requires PendOk(pending, place) && p < |pending| && pending[p].None? && id !in place
    ensures PendOk(pending[p := Some(id)], place[id := Pending(p)])
  {
  }

  lemma SendPlaces(c: Config, s: State, p: nat)
    requires Places(s)
    ensures Places(Step(c, s, Send(p)))
  {
    hide ChOk, WorkOk, TimerOk, EndOk;
    if p < |s.pending| && s.pending[p].Some? {
      var id := s.pending[p].value;
      ChMore(s.ch, s.place, id);
      WorkFrame(s.phases, s.place, id, Queued);
      TimerFrame(s.timers, s.place, id, Queued);
      EndFrame(s.finished, s.place, id, Queued);
    }
  }

  lemma TakePlaces(c: Config, s: State, w: nat)
    requires Places(s)
    ensures Places(Step(c, s, Take(w)))
  {
    hide PendOk, ChOk, WorkOk, TimerOk, EndOk;
    if w < |s.phases| && s.phases[w].Idle? && s.ch != [] && s.ch[0] in s.jobs {
      var id := s.ch[0];
      ChTakes(s.ch, s.place, Held(w));
      WorkGets(s.phases, s.place, w, id);
      PendFrame(s.pending, s.place, id, Held(w));
      TimerFrame(s.timers, s.place, id, Held(w));
      EndFrame(s.finished, s.place, id, Held(w));
    }
  }

  lemma ChTakes(ch: seq<Id>, place: map<Id, Place>, to: Place)
    requires ChOk(ch, place) && ch != [] && to != Queued
    ensures ch[0] in place && place[ch[0]] == Queued && ChOk(ch[1..], place[ch[0] := to])
  {
    forall x | x in place && place[x] == Queued && x != ch[0] ensures x in ch[1..] {
      assert x in ch;
    }
  }

  lemma WorkGets(phases: seq<Phase>, place: map<Id, Place>, w: nat, id: Id)
    requires WorkOk(phases, place) && w < |phases| && Holds(phases[w]).None? && id in place && !place[id].Held?
    ensures WorkOk(phases[w := AtGate(id)], place[id := Held(w)])
  {
  }

  /** A worker's message ends. */
  lemma EndPlaces(s: State, w: nat, o: Outcome)
    requires Places(s) && w < |s.phases| && Holds(s.phases[w]).Some?
    ensures Places(EndWith(s, w, Holds(s.phases[w]).value, o))
  {
    hide PendOk, ChOk, WorkOk, TimerOk, EndOk;
    var id := Holds(s.phases[w]).value;
    WorkDrops(s.phases, s.place, w, Final(o));
    PendFrame(s.pending, s.place, id, Final(o));
    ChFrame(s.ch, s.place, id, Final(o));
    TimerFrame(s.timers, s.place, id, Final(o));
    EndMore(s.finished, s.place, id, o);
  }

  lemma ArmPlaces(c: Config, s: State, w: nat)
    requires Places(s)
    ensures Places(Step(c, s, Arm(w)))
  {
    hide PendOk, ChOk, WorkOk, EndOk;
    if w < |s.phases| && s.phases[w].Arming? {
      var id, to := s.phases[w].id, Parked(|s.timers|);
      WorkDrops(s.phases, s.place, w, to);
      PendFrame(s.pending, s.place, id, to);
      ChFrame(s.ch, s.place, id, to);
      EndFrame(s.finished, s.place, id, to);
    }
  }

  /** A timer's message is dropped. */
  lemma TimerDropPlaces(s: State, t: nat, p: bool)
    requires Places(s) && t < |s.timers| && TimerHolds(s.timers[t]).Some?
    ensures var id := TimerHolds(s.timers[t]).value;
            Places(s.(timers := s.timers[t := Ending], finished := s.finished + [End(id, Dropped)],
                      place := s.place[id := Final(Dropped)], panicked := p))
  {
    hide PendOk, ChOk, WorkOk, EndOk;
    var id := TimerHolds(s.timers[t]).value;
    PendFrame(s.pending, s.place, id, Final(Dropped));
    ChFrame(s.ch, s.place, id, Final(Dropped));
    WorkFrame(s.phases, s.place, id, Final(Dropped));
    EndMore(s.finished, s.place, id, Dropped);
  }

  lemma TimerSendPlaces(c: Config, s: State, t: nat)
    requires Places(s)
    ensures Places(Step(c, s, TimerSend(t)))
  {
    hide PendOk, ChOk, WorkOk, EndOk;
    if t < |s.timers| && s.timers[t].Sending? {
      var id := s.timers[t].id;
      TimerDropPlaces(s, t, true);
      PendFrame(s.pending, s.place, id, Queued);
      ChMore(s.ch, s.place, id);
      WorkFrame(s.phases, s.place, id, Queued);
      EndFrame(s.finished, s.place, id, Queued);
    }
  }

  /** Every step moves a message to one new place or none. */
  lemma {:induction false} StepPlaces(c: Config, s: State, a: Action)
    requires Places(s)
    ensures Places(Step(c, s, a))
  {
    hide Places, Step;
    match a
    case Publish(m) => PublishPlaces(c, s, m);
    case Accept(p) => AcceptPlaces(c, s, p);
    case Send(p) => SendPlaces(c, s, p);
    case Take(w) => TakePlaces(c, s, w);
    case Arm(w) => ArmPlaces(c, s, w);
    case TimerSend(t) => TimerSendPlaces(c, s, t);
    case Fire(t) => FirePlaces(c, s, t);
    case TimerEnd(t) => TimerEndPlaces(c, s, t);
    case StopFlag => StopPlaces(c, s);
    case StopWait => StopPlaces(c, s);
    case StopClose => StopPlaces(c, s);
    case Forget(k) => ForgetPlaces(c, s, k);
    case PassGate(w) => KeepStepPlaces(c, s, a, w);
    case DeleteGate(w) => KeepStepPlaces(c, s, a, w);
    case CheckFails(w) => BumpStepPlaces(c, s, a, w);
    case BeginPost(w) => BumpStepPlaces(c, s, a, w);
    case Return(w) => IdleStepPlaces(c, s, a, w);
    case Exit(w) => IdleStepPlaces(c, s, a, w);
    case Check(w) => EndStepPlaces(c, s, a, w);
    case FailForGood(w) => EndStepPlaces(c, s, a, w);
    case PostSucceeds(w, recorded) => EndStepPlaces(c, s, a, w);
    case PostFails(w) => EndStepPlaces(c, s, a, w);
    case LoadFlag(w) => EndStepPlaces(c, s, a, w);
  }

  lemma PublishPlaces(c: Config, s: State, m: Msg)
    requires Places(s)
    ensures Places(Step(c, s, Publish(m)))
  {
    hide PendOk, ChOk, WorkOk, TimerOk, EndOk, Known;
    PublishBound(c, s.log, s.pos, m);
  }

  lemma ForgetPlaces(c: Config, s: State, k: DedupKey)
    requires Places(s)
    ensures Places(Step(c, s, Forget(k)))
  {
    hide PendOk, ChOk, WorkOk, TimerOk, EndOk, Known, PosBound;
  }

  lemma StopPlaces(c: Config, s: State)
    requires Places(s)
    ensures Places(Step(c, s, StopFlag)) && Places(Step(c, s, StopWait)) && Places(Step(c, s, StopClose))
  {
    hide PendOk, ChOk, WorkOk, TimerOk, EndOk, Known, PosBound;
  }

  lemma TimerEndPlaces(c: Config, s: State, t: nat)
    requires Places(s)
    ensures Places(Step(c, s, TimerEnd(t)))
  {
    hide PendOk, ChOk, WorkOk, TimerOk, EndOk, Known, PosBound;
    if t < |s.timers| && s.timers[t].Ending? {
      TimerSame(s.timers, s.place, t, Gone);
    }
  }

  lemma PublishBound(c: Config, log: Log, pos: seq<nat>, m: Msg)
    requires PosBound(log, pos)
    ensures PosBound(Append(log, c.part, m), pos)
  {
  }

  lemma TimerSame(timers: seq<Timer>, place: map<Id, Place>, t: nat, to: Timer)
    requires TimerOk(timers, place) && t < |timers| && TimerHolds(to) == TimerHolds(timers[t])
    ensures TimerOk(timers[t := to], place)
  {
  }

  lemma FirePlaces(c: Config, s: State, t: nat)
    requires Places(s)
    ensures Places(Step(c, s, Fire(t)))
  {
    if t < |s.timers| && s.timers[t].Armed? {
      TimerDropPlaces(s, t, s.panicked);
      TimerSame(s.timers, s.place, t, Sending(s.timers[t].id));
    }
    hide PendOk, ChOk, WorkOk, TimerOk, EndOk, Known;
  }

  /** A worker that keeps its message. */
  lemma KeepPlaces(s: State, w: nat, to: Phase)
    requires Places(s) && w < |s.phases| && Holds(to) == Holds(s.phases[w])
    ensures WorkOk(s.phases[w := to], s.place)
  {
    WorkSame(s.phases, s.place, w, to);
  }

  lemma KnownSame(pos: seq<nat>, jobs: map<Id, Job>, place: map<Id, Place>, id: Id, j: Job)
    requires Known(pos, jobs, place) && id in jobs
    ensures Known(pos, jobs[id := j], place)
  {
  }

  predicate EndStep(a: Action) {
    a.Check? || a.FailForGood? || a.PostSucceeds? || a.PostFails? || a.LoadFlag?
  }

  lemma IdleStepPlaces(c: Config, s: State, a: Action, w: nat)
    requires Places(s) && (a == Return(w) || a == Exit(w))
    ensures Places(Step(c, s, a))
  {
    hide PendOk, ChOk, WorkOk, TimerOk, EndOk, Known, PosBound;
    if w < |s.phases| && Holds(s.phases[w]).None? {
      KeepPlaces(s, w, Idle);
      KeepPlaces(s, w, Exited);
    }
  }

  lemma KeepStepPlaces(c: Config, s: State, a: Action, w: nat)
    requires Places(s) && (a == PassGate(w) || a == DeleteGate(w))
    ensures Places(Step(c, s, a))
  {
    hide PendOk, ChOk, WorkOk, TimerOk, EndOk, Known, PosBound;
    if w < |s.phases| && Holds(s.phases[w]).Some? {
      var id := Holds(s.phases[w]).value;
      KeepPlaces(s, w, Checking(id));
      KeepPlaces(s, w, Deleting(id));
    }
  }

  /** The job changes, but the worker keeps the message. */
  lemma BumpStepPlaces(c: Config, s: State, a: Action, w: nat)
    requires Places(s) && (a == CheckFails(w) || a == BeginPost(w))
    ensures Places(Step(c, s, a))
  {
    hide PendOk, ChOk, WorkOk, TimerOk, EndOk, Known, PosBound;
    if w < |s.phases| && Holds(s.phases[w]).Some? && Holds(s.phases[w]).value in s.jobs {
      var id := Holds(s.phases[w]).value;
      var j := s.jobs[id];
      KnownSame(s.pos, s.jobs, s.place, id, Bumped(c, j).(checkErrors := j.checkErrors + 1));
      KnownSame(s.pos, s.jobs, s.place, id, j.(attempts := j.attempts + 1, stage := Flying));
      KeepPlaces(s, w, Retrying(id));
      KeepPlaces(s, w, InFlight(id));
    }
  }

  lemma EndStepPlaces(c: Config, s: State, a: Action, w: nat)
    requires Places(s) && EndStep(a) && a.w == w
    ensures Places(Step(c, s, a))
  {
    hide PendOk, ChOk, WorkOk, TimerOk, EndOk, Known, PosBound;
    if w < |s.phases| && Holds(s.phases[w]).Some? {
      var id := Holds(s.phases[w]).value;
      match a
      case Check(_) => KeepPlaces(s, w, Posting(id)); EndPlaces(s, w, Deduped);
      case FailForGood(_) => EndPlaces(s, w, Permanent);
      case PostSucceeds(_, _) => SpendPlaces(s, w, Delivered);
      case PostFails(_) =>
        if id in s.jobs {
          KnownSame(s.pos, s.jobs, s.place, id, Bumped(c, s.jobs[id]));
        }
        SpendPlaces(s, w, Exhausted);
        KeepPlaces(s, w, Retrying(id));
      case LoadFlag(_) => KeepPlaces(s, w, Arming(id)); EndPlaces(s, w, Dropped);
    }
  }

  /** The last attempt of a message: it ends and its job is spent. */
  lemma SpendPlaces(s: State, w: nat, o: Outcome)
    requires Places(s) && w < |s.phases| && Holds(s.phases[w]).Some?
    ensures var id := Holds(s.phases[w]).value;
            id in s.jobs ==> Places(EndWith(s, w, id, o).(jobs := s.jobs[id := s.jobs[id].(stage := Spent)]))
  {
    hide PendOk, ChOk, WorkOk, TimerOk, EndOk, Known, PosBound;
    var id := Holds(s.phases[w]).value;
    EndPlaces(s, w, o);
    if id in s.jobs {
      KnownSame(s.pos, s.jobs, s.place[id := Final(o)], id, s.jobs[id].(stage := Spent));
    }
  }

  // ---------------------------------------------------------------- attempts and backoff

  /** 1 + 2 + ... + r. */
  function Triangle(r: nat): nat {
    if r == 0 then 0 else Triangle(r - 1) + r
  }

  lemma {:induction false} TriangleValue(r: nat)
    ensures 2 * Triangle(r) == r * (r + 1)
  {
    if r == 0 {
    } else {
      TriangleValue(r - 1);
    }
  }

  /**
   What RetryCount, attempts, failed checks and backoff have to do with each other between, during and after attempts.
   */
  ghost predicate JobOk(c: Config, j: Job) {
    && j.backoff == c.base * Triangle(j.retry)
    && (if j.stage == Resting then j.attempts + j.checkErrors == j.retry && j.attempts <= c.maxRetries
        else j.attempts + j.checkErrors == j.retry + 1 && j.attempts <= c.maxRetries + 1)
  }

  ghost predicate JobsOk(c: Config, jobs: map<Id, Job>) {
    forall id | id in jobs :: JobOk(c, jobs[id])
  }

  /** An attempt is under way exactly for the messages workers have in flight; exhausted means out of retries. */
  ghost predicate StageAt(c: Config, j: Job, p: Place, phases: seq<Phase>) {
    match p
    case Held(w) => w < |phases| && j.stage == if phases[w].InFlight? then Flying else Resting
    case Final(o) => j.stage != Flying && (o == Delivered || o == Exhausted ==> j.stage == Spent)
        && (o == Exhausted ==> j.retry >= c.maxRetries)
    case _ => j.stage == Resting
  }

  ghost predicate StagesOk(c: Config, jobs: map<Id, Job>, place: map<Id, Place>, phases: seq<Phase>) {
    forall id | id in jobs :: id in place && StageAt(c, jobs[id], place[id], phases)
  }

  function Posts(events: seq<Event>, id: Id): nat {
    if events == [] then 0 else Posts(events[..|events| - 1], id) + if events[|events| - 1] == Posted(id) then 1 else 0
  }

  ghost predicate AttemptsOk(events: seq<Event>, jobs: map<Id, Job>) {
    forall id :: Posts(events, id) == if id in jobs then jobs[id].attempts else 0
  }

  lemma PostsSnoc(events: seq<Event>, e: Event, id: Id)
    ensures Posts(events + [e], id) == Posts(events, id) + if e == Posted(id) then 1 else 0
  {
    assert (events + [e])[..|events|] == events;
  }

  lemma BumpedOk(c: Config, j: Job)
    requires JobOk(c, j)
    ensures j.stage == Resting ==> JobOk(c, Bumped(c, j).(checkErrors := j.checkErrors + 1))
    ensures j.stage == Flying && j.retry < c.maxRetries ==> JobOk(c, Bumped(c, j))
  {
    assert c.base * (Triangle(j.retry) + (j.retry + 1)) == c.base * Triangle(j.retry) + c.base * (j.retry + 1);
  }

  ghost predicate Jobs(c: Config, s: State) {
    JobsOk(c, s.jobs) && StagesOk(c, s.jobs, s.place, s.phases) && AttemptsOk(s.events, s.jobs)
  }

  /** What a worker holds has a job. */
  lemma HeldJob(s: State, w: nat)
    requires Places(s) && w < |s.phases| && Holds(s.phases[w]).Some?
    ensures Holds(s.phases[w]).value in s.jobs && s.place[Holds(s.phases[w]).value] == Held(w)
  {
  }

  lemma ParkedJob(s: State, t: nat)
    requires Places(s) && t < |s.timers| && TimerHolds(s.timers[t]).Some?
    ensures TimerHolds(s.timers[t]).value in s.jobs && s.place[TimerHolds(s.timers[t]).value] == Parked(t)
  {
  }

  lemma StageOf(c: Config, jobs: map<Id, Job>, place: map<Id, Place>, phases: seq<Phase>, id: Id)
    requires StagesOk(c, jobs, place, phases) && id in jobs
    ensures id in place && StageAt(c, jobs[id], place[id], phases)
  {
  }

  /** Only one worker's phase and the job it holds change. */
  lemma StageMove(c: Config, jobs: map<Id, Job>, place: map<Id, Place>, phases: seq<Phase>, w: nat, to: Phase, j: Job)
    requires StagesOk(c, jobs, place, phases) && WorkOk(phases, place) && w < |phases| && Holds(phases[w]).Some?
    requires Holds(phases[w]).value in jobs && j.stage == if to.InFlight? then Flying else Resting
    ensures StagesOk(c, jobs[Holds(phases[w]).value := j], place, phases[w := to])
  {
  }

  /** Only one worker's phase changes, and not into or out of an attempt. */
  lemma StageSame(c: Config, jobs: map<Id, Job>, place: map<Id, Place>, phases: seq<Phase>, w: nat, to: Phase)
    requires StagesOk(c, jobs, place, phases) && w < |phases| && (to.InFlight? <==> phases[w].InFlight?)
    ensures StagesOk(c, jobs, place, phases[w := to])
  {
  }

  /** A worker takes a resting message. */
  lemma StageTake(c: Config, jobs: map<Id, Job>, place: map<Id, Place>, phases: seq<Phase>, w: nat, id: Id)
    requires StagesOk(c, jobs, place, phases) && w < |phases| && phases[w].Idle? && id in jobs
             && jobs[id].stage == Resting
    ensures StagesOk(c, jobs, place[id := Held(w)], phases[w := AtGate(id)])
  {
  }

  /** A worker lets go of its message. */
  lemma StageLeave(c: Config, jobs: map<Id, Job>, place: map<Id, Place>, phases: seq<Phase>, w: nat, to: Place, j: Job)
    requires StagesOk(c, jobs, place, phases) && WorkOk(phases, place) && w < |phases| && Holds(phases[w]).Some?
    requires Holds(phases[w]).value in jobs && !to.Held? && StageAt(c, j, to, phases)
    ensures StagesOk(c, jobs[Holds(phases[w]).value := j], place[Holds(phases[w]).value := to], phases[w := Returning])
  {
  }

  /** ... and its job does not change. */
  lemma StageLeaveAsIs(c: Config, jobs: map<Id, Job>, place: map<Id, Place>, phases: seq<Phase>, w: nat, to: Place)
    requires StagesOk(c, jobs, place, phases) && WorkOk(phases, place) && w < |phases| && Holds(phases[w]).Some?
    requires Holds(phases[w]).value in jobs && !to.Held? && StageAt(c, jobs[Holds(phases[w]).value], to, phases)
    ensures StagesOk(c, jobs, place[Holds(phases[w]).value := to], phases[w := Returning])
  {
  }

  /** A message no worker has changes its place, or appears. */
  lemma StageRest(c: Config, jobs: map<Id, Job>, place: map<Id, Place>, phases: seq<Phase>, id: Id, to: Place)
    requires StagesOk(c, jobs, place, phases) && id in jobs && !to.Held? && StageAt(c, jobs[id], to, phases)
    ensures StagesOk(c, jobs, place[id := to], phases)
  {
  }

  lemma NewJob(c: Config, s: State, p: nat, id: Id)
    requires Jobs(c, s) && id !in s.jobs
    ensures var jobs := s.jobs[id := Job(0, 0, 0, 0, Resting)];
            JobsOk(c, jobs) && StagesOk(c, jobs, s.place[id := Pending(p)], s.phases) && AttemptsOk(s.events, jobs)
  {
    hide Posts;
  }

  lemma JobChange(c: Config, jobs: map<Id, Job>, id: Id, j: Job)
    requires JobsOk(c, jobs) && JobOk(c, j)
    ensures JobsOk(c, jobs[id := j])
  {
    hide JobOk;
  }

  lemma JobAt(c: Config, jobs: map<Id, Job>, id: Id)
    requires JobsOk(c, jobs) && id in jobs
    ensures JobOk(c, jobs[id])
  {
  }

  lemma AttemptsSame(events: seq<Event>, jobs: map<Id, Job>, id: Id, j: Job)
    requires AttemptsOk(events, jobs) && id in jobs && j.attempts == jobs[id].attempts
    ensures AttemptsOk(events, jobs[id := j])
  {
    hide Posts;
  }

  lemma AttemptsPosted(events: seq<Event>, jobs: map<Id, Job>, id: Id, j: Job)
    requires AttemptsOk(events, jobs) && id in jobs && j.attempts == jobs[id].attempts + 1
    ensures AttemptsOk(events + [Posted(id)], jobs[id := j])
  {
    forall x ensures Posts(events + [Posted(id)], x) == Posts(events, x) + if x == id then 1 else 0 {
      PostsSnoc(events, Posted(id), x);
    }
    hide Posts;
  }

  lemma AttemptsDone(events: seq<Event>, jobs: map<Id, Job>, id: Id)
    requires AttemptsOk(events, jobs)
    ensures AttemptsOk(events + [FirstDone(id)], jobs)
  {
    forall x ensures Posts(events + [FirstDone(id)], x) == Posts(events, x) {
      PostsSnoc(events, FirstDone(id), x);
    }
    hide Posts;
  }

  lemma AcceptJobs(c: Config, s: State, p: nat)
    requires Places(s) && Jobs(c, s)
    ensures Jobs(c, Step(c, s, Accept(p)))
  {
    hide JobsOk, StagesOk, AttemptsOk, PosBound, PendOk, ChOk, WorkOk, TimerOk, EndOk;
    if p < |s.pos| && p < |s.pending| && p < |s.log| && s.pos[p] < |s.log[p]| && s.pending[p].None? {
      NewJob(c, s, p, Id(p, s.pos[p]));
    }
  }

  lemma SendJobs(c: Config, s: State, p: nat)
    requires Places(s) && Jobs(c, s)
    ensures Jobs(c, Step(c, s, Send(p)))
  {
    hide JobsOk, StagesOk, AttemptsOk, PosBound, ChOk, WorkOk, TimerOk, EndOk;
    if p < |s.pending| && s.pending[p].Some? {
      var id := s.pending[p].value;
      StageOf(c, s.jobs, s.place, s.phases, id);
      StageRest(c, s.jobs, s.place, s.phases, id, Queued);
    }
  }

  lemma TakeJobs(c: Config, s: State, w: nat)
    requires Places(s) && Jobs(c, s)
    ensures Jobs(c, Step(c, s, Take(w)))
  {
    hide JobsOk, StagesOk, AttemptsOk, PosBound, PendOk, WorkOk, TimerOk, EndOk;
    if w < |s.phases| && s.phases[w].Idle? && s.ch != [] && s.ch[0] in s.jobs {
      StageOf(c, s.jobs, s.place, s.phases, s.ch[0]);
      StageTake(c, s.jobs, s.place, s.phases, w, s.ch[0]);
    }
  }

  lemma CheckFailsJobs(c: Config, s: State, w: nat)
    requires Places(s) && Jobs(c, s)
    ensures Jobs(c, Step(c, s, CheckFails(w)))
  {
    hide JobsOk, JobOk, StagesOk, AttemptsOk, PosBound, PendOk, ChOk, WorkOk, TimerOk, EndOk, Known;
    if w < |s.phases| && s.phases[w].Checking? && s.phases[w].id in s.jobs {
      var id := s.phases[w].id;
      var j' := Bumped(c, s.jobs[id]).(checkErrors := s.jobs[id].checkErrors + 1);
      HeldStage(c, s, w);
      BumpedOk(c, s.jobs[id]);
      JobChange(c, s.jobs, id, j');
      StageMove(c, s.jobs, s.place, s.phases, w, Retrying(id), j');
      AttemptsSame(s.events, s.jobs, id, j');
    }
  }

  /** What a worker holds is in flight or resting, according to the worker's phase. */
  lemma HeldStage(c: Config, s: State, w: nat)
    requires Places(s) && Jobs(c, s) && w < |s.phases| && Holds(s.phases[w]).Some?
    ensures var id := Holds(s.phases[w]).value;
            id in s.jobs && JobOk(c, s.jobs[id])
                && s.jobs[id].stage == if s.phases[w].InFlight? then Flying else Resting
  {
    hide JobsOk, JobOk, StagesOk, AttemptsOk, PosBound, PendOk, ChOk, WorkOk, TimerOk, EndOk, Known;
    HeldJob(s, w);
    var id := Holds(s.phases[w]).value;
    StageOf(c, s.jobs, s.place, s.phases, id);
    JobAt(c, s.jobs, id);
  }

  lemma BeginPostJobs(c: Config, s: State, w: nat)
    requires Places(s) && Jobs(c, s)
    ensures Jobs(c, Step(c, s, BeginPost(w)))
  {
    hide JobsOk, StagesOk, AttemptsOk, PosBound, PendOk, ChOk, WorkOk, TimerOk, EndOk, Known, Triangle;
    if w < |s.phases| && s.phases[w].Posting? && s.phases[w].id in s.jobs {
      var id := s.phases[w].id;
      var j' := s.jobs[id].(attempts := s.jobs[id].attempts + 1, stage := Flying);
      HeldStage(c, s, w);
      JobChange(c, s.jobs, id, j');
      StageMove(c, s.jobs, s.place, s.phases, w, InFlight(id), j');
      AttemptsPosted(s.events, s.jobs, id, j');
    }
  }

  /** The last attempt of a message. */
  lemma SpendJobs(c: Config, s: State, w: nat, o: Outcome)
    requires Places(s) && Jobs(c, s) && w < |s.phases| && s.phases[w].InFlight? && s.phases[w].id in s.jobs
    requires o == Exhausted ==> s.jobs[s.phases[w].id].retry >= c.maxRetries
    ensures var id := s.phases[w].id;
            Jobs(c, EndWith(s, w, id, o).(jobs := s.jobs[id := s.jobs[id].(stage := Spent)]))
  {
    hide JobsOk, StagesOk, AttemptsOk, PosBound, PendOk, ChOk, WorkOk, TimerOk, EndOk, Known, Triangle;
    var id := s.phases[w].id;
    var j' := s.jobs[id].(stage := Spent);
    HeldStage(c, s, w);
    JobChange(c, s.jobs, id, j');
    StageLeave(c, s.jobs, s.place, s.phases, w, Final(o), j');
    AttemptsSame(s.events, s.jobs, id, j');
  }

  lemma PostSucceedsJobs(c: Config, s: State, w: nat, recorded: bool)
    requires Places(s) && Jobs(c, s)
    ensures Jobs(c, Step(c, s, PostSucceeds(w, recorded)))
  {
    hide JobsOk, StagesOk, AttemptsOk, Places, MsgAt;
    if w < |s.phases| && s.phases[w].InFlight? && s.phases[w].id in s.jobs {
      SpendJobs(c, s, w, Delivered);
    }
  }

  lemma PostFailsJobs(c: Config, s: State, w: nat)
    requires Places(s) && Jobs(c, s)
    ensures Jobs(c, Step(c, s, PostFails(w)))
  {
    hide JobsOk, JobOk, StagesOk, AttemptsOk, PosBound, PendOk, ChOk, WorkOk, TimerOk, EndOk, Known;
    if w < |s.phases| && s.phases[w].InFlight? && s.phases[w].id in s.jobs {
      var id := s.phases[w].id;
      if s.jobs[id].retry >= c.maxRetries {
        SpendJobs(c, s, w, Exhausted);
      } else {
        var j' := Bumped(c, s.jobs[id]);
        HeldStage(c, s, w);
        BumpedOk(c, s.jobs[id]);
        JobChange(c, s.jobs, id, j');
        StageMove(c, s.jobs, s.place, s.phases, w, Retrying(id), j');
        AttemptsSame(s.events, s.jobs, id, j');
      }
    }
  }

  /** A worker without an attempt under way lets go of its message. */
  lemma LeaveJobs(c: Config, s: State, w: nat, to: Place)
    requires Places(s) && Jobs(c, s) && w < |s.phases| && Holds(s.phases[w]).Some? && !s.phases[w].InFlight?
    requires to.Parked? || to == Final(Deduped) || to == Final(Permanent) || to == Final(Dropped)
    ensures StagesOk(c, s.jobs, s.place[Holds(s.phases[w]).value := to], s.phases[w := Returning])
  {
    hide JobsOk, JobOk, StagesOk, AttemptsOk, PosBound, PendOk, ChOk, WorkOk, TimerOk, EndOk, Known;
    HeldStage(c, s, w);
    StageLeaveAsIs(c, s.jobs, s.place, s.phases, w, to);
  }

  lemma SameJobs(c: Config, s: State, w: nat, to: Phase)
    requires Jobs(c, s) && w < |s.phases| && (to.InFlight? <==> s.phases[w].InFlight?)
    ensures StagesOk(c, s.jobs, s.place, s.phases[w := to])
  {
    StageSame(c, s.jobs, s.place, s.phases, w, to);
  }

  lemma TimerJobs(c: Config, s: State, t: nat, to: Place)
    requires Places(s) && Jobs(c, s) && t < |s.timers| && TimerHolds(s.timers[t]).Some?
             && (to == Queued || to == Final(Dropped))
    ensures StagesOk(c, s.jobs, s.place[TimerHolds(s.timers[t]).value := to], s.phases)
  {
    hide JobsOk, JobOk, StagesOk, AttemptsOk, PosBound, PendOk, ChOk, WorkOk, TimerOk, EndOk, Known;
    ParkedJob(s, t);
    var id := TimerHolds(s.timers[t]).value;
    StageOf(c, s.jobs, s.place, s.phases, id);
    StageRest(c, s.jobs, s.place, s.phases, id, to);
  }

  lemma CheckJobs(c: Config, s: State, w: nat)
    requires Places(s) && Jobs(c, s)
    ensures Jobs(c, Step(c, s, Check(w))) && Jobs(c, Step(c, s, FailForGood(w)))
  {
    hide JobsOk, StagesOk, AttemptsOk, Places;
    if w < |s.phases| && (s.phases[w].Checking? || s.phases[w].Posting?) {
      LeaveJobs(c, s, w, Final(Deduped));
      LeaveJobs(c, s, w, Final(Permanent));
      SameJobs(c, s, w, Posting(s.phases[w].id));
    }
  }

  lemma ScheduleJobs(c: Config, s: State, w: nat)
    requires Places(s) && Jobs(c, s)
    ensures Jobs(c, Step(c, s, LoadFlag(w))) && Jobs(c, Step(c, s, Arm(w)))
  {
    hide JobsOk, StagesOk, AttemptsOk, Places;
    if w < |s.phases| && (s.phases[w].Retrying? || s.phases[w].Arming?) {
      LeaveJobs(c, s, w, Final(Dropped));
      LeaveJobs(c, s, w, Parked(|s.timers|));
      SameJobs(c, s, w, Arming(s.phases[w].id));
    }
  }

  lemma PassJobs(c: Config, s: State, w: nat)
    requires Jobs(c, s)
    ensures Jobs(c, Step(c, s, PassGate(w))) && Jobs(c, Step(c, s, DeleteGate(w)))
  {
    hide JobsOk, StagesOk, AttemptsOk;
    if w < |s.phases| && (s.phases[w].AtGate? || s.phases[w].Deleting?) {
      SameJobs(c, s, w, Checking(s.phases[w].id));
      SameJobs(c, s, w, Deleting(s.phases[w].id));
    }
  }

  lemma ReturnJobs(c: Config, s: State, w: nat)
    requires Jobs(c, s)
    ensures Jobs(c, Step(c, s, Return(w)))
  {
    hide JobsOk, StagesOk, AttemptsOk;
    if w < |s.phases| && w < |s.owes| && s.phases[w].Returning? {
      SameJobs(c, s, w, Idle);
      if s.owes[w].Some? {
        AttemptsDone(s.events, s.jobs, s.owes[w].value);
      }
    }
  }

  lemma TimersJobs(c: Config, s: State, t: nat)
    requires Places(s) && Jobs(c, s)
    ensures Jobs(c, Step(c, s, Fire(t))) && Jobs(c, Step(c, s, TimerEnd(t)))
  {
    hide JobsOk, StagesOk, AttemptsOk, Places;
    if t < |s.timers| && s.timers[t].Armed? {
      TimerJobs(c, s, t, Final(Dropped));
    }
  }

  lemma TimerSendJobs(c: Config, s: State, t: nat)
    requires Places(s) && Jobs(c, s)
    ensures Jobs(c, Step(c, s, TimerSend(t)))
  {
    hide JobsOk, StagesOk, AttemptsOk, Places;
    if t < |s.timers| && s.timers[t].Sending? {
      TimerJobs(c, s, t, Queued);
      TimerJobs(c, s, t, Final(Dropped));
    }
  }

  lemma ExitJobs(c: Config, s: State, w: nat)
    requires Jobs(c, s)
    ensures Jobs(c, Step(c, s, Exit(w)))
  {
    hide JobsOk, StagesOk, AttemptsOk;
    if w < |s.phases| && s.phases[w].Idle? {
      SameJobs(c, s, w, Exited);
    }
  }

  lemma StillJobs(c: Config, s: State, m: Msg)
    requires Jobs(c, s)
    ensures Jobs(c, Step(c, s, Publish(m)))
  {
    hide JobsOk, StagesOk, AttemptsOk, Append;
  }

  lemma ForgetJobs(c: Config, s: State, k: DedupKey)
    requires Jobs(c, s)
    ensures Jobs(c, Step(c, s, Forget(k)))
  {
    hide JobsOk, StagesOk, AttemptsOk;
  }

  lemma StopJobs(c: Config, s: State)
    requires Jobs(c, s)
    ensures Jobs(c, Step(c, s, StopFlag)) && Jobs(c, Step(c, s, StopWait)) && Jobs(c, Step(c, s, StopClose))
  {
    hide JobsOk, StagesOk, AttemptsOk;
  }

  /** Attempts, failed checks, RetryCount and backoff stay in step. */
  lemma {:induction false} StepJobs(c: Config, s: State, a: Action)
    requires Places(s) && Jobs(c, s)
    ensures Jobs(c, Step(c, s, a))
  {
    hide Places, Jobs, Step;
    match a
    case Publish(m) => StillJobs(c, s, m);
    case Accept(p) => AcceptJobs(c, s, p);
    case Send(p) => SendJobs(c, s, p);
    case Take(w) => TakeJobs(c, s, w);
    case PassGate(w) => PassJobs(c, s, w);
    case DeleteGate(w) => PassJobs(c, s, w);
    case CheckFails(w) => CheckFailsJobs(c, s, w);
    case Check(w) => CheckJobs(c, s, w);
    case BeginPost(w) => BeginPostJobs(c, s, w);
    case FailForGood(w) => CheckJobs(c, s, w);
    case PostSucceeds(w, recorded) => PostSucceedsJobs(c, s, w, recorded);
    case PostFails(w) => PostFailsJobs(c, s, w);
    case LoadFlag(w) => ScheduleJobs(c, s, w);
    case Arm(w) => ScheduleJobs(c, s, w);
    case Return(w) => ReturnJobs(c, s, w);
    case Fire(t) => TimersJobs(c, s, t);
    case TimerSend(t) => TimerSendJobs(c, s, t);
    case TimerEnd(t) => TimersJobs(c, s, t);
    case StopFlag => StopJobs(c, s);
    case StopWait => StopJobs(c, s);
    case StopClose => StopJobs(c, s);
    case Exit(w) => ExitJobs(c, s, w);
    case Forget(k) => ForgetJobs(c, s, k);
  }
}
