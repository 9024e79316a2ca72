/** The two passes of manual duplex printing against a print service, a clock and a user that may each
    answer anything, or fail, at any time. */
module DuplexWorkflow {
  import opened Outcomes

  datatype Pass = FrontPass | BackPass

  datatype Message = WaitingForReinsertion | Printing(pass: Pass) | BothCompleted
      | ServiceRestarted | CancelUnconfirmed | Incomplete

  datatype Event =
    | SawInstance(name: string) | Created(job: int) | Sent(job: int, pass: Pass, ok: bool)
    | SawState(job: int, state: int) | ReadClock(at: real) | Answered(yes: bool)
    | CancelRequested(job: int) | Said(message: Message)

  /** IPP job states, of section 5.3.7 of RFC 8011, in which a job goes on; 9 is completed. */
  predicate Unfinished(state: int) {
    state in {3, 4, 5, 6}
  }

  /** Where the grounds for a back pass are found in what happened. */
  datatype Grounds = Grounds(front: int, sent: nat, done: nat)

  predicate FrontsDone(t: seq<Event>, g: Grounds) {
    && g.sent < g.done < |t|
    && t[g.sent] == Sent(g.front, FrontPass, true) && t[g.done] == SawState(g.front, 9)
  }

  /** The fronts were seen complete. Right after that the user was asked, between two readings of the clock
      that are less than the timeout apart, and said yes; and then neither had the service been restarted
      nor had the front job changed. */
  predicate Authorized(t: seq<Event>, instance: string, timeout: real, g: Grounds) {
    && FrontsDone(t, g) && g.done + 6 < |t|
    && t[g.done + 1] == Said(WaitingForReinsertion)
    && t[g.done + 2].ReadClock? && t[g.done + 3] == Answered(true) && t[g.done + 4].ReadClock?
    && t[g.done + 4].at < t[g.done + 2].at + timeout
    && t[g.done + 5] == SawInstance(instance) && t[g.done + 6] == SawState(g.front, 9)
  }

  /** A document goes only to a job that was just created, in a service that was checked after that; the
      clock was read in between, and nothing else happened. */
  predicate ToNewJob(t: seq<Event>, i: nat, instance: string)
    requires i < |t| && t[i].Sent?
  {
    i >= 3 && t[i - 3] == Created(t[i].job) && t[i - 2] == SawInstance(instance) && t[i - 1].ReadClock?
  }

  predicate BackGrounded(t: seq<Event>, i: nat, instance: string, timeout: real, g: Grounds)
    requires i < |t| && t[i].Sent?
  {
    Authorized(t, instance, timeout, g) && g.done + 12 == i && ToNewJob(t, i, instance)
  }

  predicate BothDone(t: seq<Event>, i: nat, instance: string, timeout: real, sent: nat, g: Grounds) {
    && 0 < i <= |t| && sent + 1 < i && t[sent].Sent? && t[sent].ok && t[sent].pass.BackPass?
    && BackGrounded(t, sent, instance, timeout, g) && t[i - 1] == SawState(t[sent].job, 9)
  }

  /** What must have come before an event. */
  ghost predicate EventOk(t: seq<Event>, i: nat, instance: string, timeout: real)
    requires i < |t|
  {
    if t[i].Sent? && t[i].pass.FrontPass? then ToNewJob(t, i, instance)
    else if t[i].Sent? then exists g :: BackGrounded(t, i, instance, timeout, g)
    else if t[i].Created? then t[i].job > 0
    else if t[i].CancelRequested? then i > 0 && t[i - 1] == SawInstance(instance)
    else if t[i] == Said(BothCompleted) then exists sent, g :: BothDone(t, i, instance, timeout, sent, g)
    else true
  }

  ghost predicate Safe(t: seq<Event>, instance: string, timeout: real) {
    forall i :: 0 <= i < |t| ==> EventOk(t, i, instance, timeout)
  }

  datatype Tally = Tally(passes: seq<Pass>, cancels: nat, completions: nat)

  function Tallied(t: seq<Event>): Tally {
    if t == [] then Tally([], 0, 0)
    else Add(Tallied(t[..|t| - 1]), t[|t| - 1])
  }

  function Add(n: Tally, e: Event): Tally {
    if e.Sent? then n.(passes := n.passes + [e.pass])
    else if e.CancelRequested? then n.(cancels := n.cancels + 1)
    else if e == Said(BothCompleted) then n.(completions := n.completions + 1)
    else n
  }

  lemma EventStaysOk(t: seq<Event>, u: seq<Event>, i: nat, instance: string, timeout: real)
    requires t <= u && i < |t| && EventOk(t, i, instance, timeout)
    ensures EventOk(u, i, instance, timeout)
  {
    if t[i].Sent? && t[i].pass.BackPass? {
      var g :| BackGrounded(t, i, instance, timeout, g);
      assert BackGrounded(u, i, instance, timeout, g);
    } else if t[i] == Said(BothCompleted) {
      var sent, g :| BothDone(t, i, instance, timeout, sent, g);
      assert BothDone(u, i, instance, timeout, sent, g);
    }
  }

  lemma OneMoreEvent(t: seq<Event>, e: Event, instance: string, timeout: real)
    requires Safe(t, instance, timeout) && EventOk(t + [e], |t|, instance, timeout)
    ensures Safe(t + [e], instance, timeout) && Tallied(t + [e]) == Add(Tallied(t), e)
  {
    assert (t + [e])[..|t|] == t;
    forall i | 0 <= i < |t|
      ensures EventOk(t + [e], i, instance, timeout)
    {
      EventStaysOk(t, t + [e], i, instance, timeout);
    }
  }

  /** What the world answers when it is asked: how the call ends, and what it returns if it does. */
  datatype Answer = Answer(outcome: Outcome, text: string, number: int, yes: bool, clock: real)

  /** All answers to come. After the last, the process is killed. */
  datatype World = Silence | Reply(answer: Answer, rest: World)

  function Head(w: World): Answer {
    if w.Silence? then Answer(Crashed, "", 0, false, 0.0) else w.answer
  }

  function Tail(w: World): World {
    if w.Silence? then w else w.rest
  }

  function Named(name: string): Answer {
    Answer(Done, name, 0, false, 0.0)
  }

  function Numbered(number: int): Answer {
    Answer(Done, "", number, false, 0.0)
  }

  /** The next answer names that service. */
  predicate Same(w: World, instance: string) {
    Head(w).outcome.Done? && Head(w).text == instance
  }

  /** What is left of the answers once the job has been seen completed, if it is: until then every poll sees
      the same service and an unfinished job, and is before the deadline. */
  function Polled(w: World, instance: string, deadline: real): Option<World> {
    if !Same(w, instance) || !Head(Tail(w)).outcome.Done? then None
    else if Head(Tail(w)).number == 9 then Some(Tail(Tail(w)))
    else if !Unfinished(Head(Tail(w)).number) then None
    else
      var clock := Head(Tail(Tail(w)));
      if !clock.outcome.Done? || clock.clock >= deadline then None
      else Polled(Tail(Tail(Tail(w))), instance, deadline)
  }

  /** The document is sent after the clock was read, and its job completes in time. */
  function Delivered(w: World, instance: string, timeout: real): Option<World> {
    if !Head(w).outcome.Done? || !Head(Tail(w)).outcome.Done? then None
    else Polled(Tail(Tail(w)), instance, Head(w).clock + timeout)
  }

  /** The answers under which a pass succeeds, and what they leave. */
  function Passed(w: World, instance: string, timeout: real): Option<World> {
    var created := Head(Tail(w));
    if Same(w, instance) && created.outcome.Done? && created.number > 0 && Same(Tail(Tail(w)), instance)
    then Delivered(Tail(Tail(Tail(w))), instance, timeout) else None
  }

  /** Yes is answered, and the clock is then still short of the deadline that was set before asking. */
  predicate InTime(w: World, timeout: real) {
    && Head(w).outcome.Done? && Head(Tail(w)).outcome.Done? && Head(Tail(w)).yes
    && Head(Tail(Tail(w))).outcome.Done? && Head(Tail(Tail(w))).clock < Head(w).clock + timeout
  }

  function At(clock: real): Answer {
    Answer(Done, "", 0, false, clock)
  }

  /** Of ten minutes that begin before the question, the last moment is too late, however quick the clock is
      read after the answer. */
  lemma TimeRunsFromBeforeTheQuestion(rest: World)
    ensures var yes := Answer(Done, "", 0, true, 0.0);
            && InTime(Reply(At(0.0), Reply(yes, Reply(At(599.9), rest))), 600.0)
            && !InTime(Reply(At(0.0), Reply(yes, Reply(At(600.0), rest))), 600.0)
            && !InTime(Reply(At(0.0), Reply(Answer(Done, "", 0, false, 0.0), Reply(At(1.0), rest))), 600.0)
  {
  }

  /** After that the service is the same one, and the front job is still completed. */
  function Reinserted(w: World, instance: string, timeout: real): Option<World> {
    var rest := Tail(Tail(Tail(w)));
    if InTime(w, timeout) && Same(rest, instance) && Head(Tail(rest)).outcome.Done? && Head(Tail(rest)).number == 9
    then Some(Tail(Tail(rest))) else None
  }

  /** Fronts, reinsertion and backs, all in a service of that name. */
  predicate BothPassed(w: World, instance: string, timeout: real) {
    var fronts := Passed(w, instance, timeout);
    fronts.Some? &&
    var turned := Reinserted(fronts.value, instance, timeout);
    turned.Some? && Passed(turned.value, instance, timeout).Some?
  }

  /** A pass whose job is still processing (5) at one look, and completed (9) at the next. */
  function PassAnswers(job: int, begun: real, now: real, state: int, rest: World): World {
    Reply(Named("a"), Reply(Numbered(job), Reply(Named("a"), Reply(At(begun), Reply(Named(""),
      Reply(Named("a"), Reply(Numbered(5), Reply(At(now), Reply(Named("a"), Reply(Numbered(state), rest))))))))))
  }

  lemma TwoLooks(now: real, state: int, rest: World)
    ensures Polled(Reply(Named("a"), Reply(Numbered(5), Reply(At(now), Reply(Named("a"),
              Reply(Numbered(state), rest))))), "a", 700.0) ==
            if now < 700.0 && state == 9 then Some(rest)
            else if now < 700.0 && state in {3, 4, 5, 6} then
              Polled(Reply(Named("a"), Reply(Numbered(state), rest)), "a", 700.0)
            else None
  {
  }

  /** Ten minutes are counted from before the sending. */
  lemma PassByTheClock(rest: World)
    ensures Passed(PassAnswers(1, 100.0, 699.9, 9, rest), "a", 600.0) == Some(rest)
    ensures Passed(PassAnswers(1, 100.0, 700.0, 9, rest), "a", 600.0).None?
  {
    TwoLooks(699.9, 9, rest);
    TwoLooks(700.0, 9, rest);
  }

  /** Only a completed job with a number will do, and only in the service that the workflow began with. */
  lemma PassByTheJob(rest: World)
    ensures Passed(PassAnswers(1, 100.0, 699.9, 7, rest), "a", 600.0).None?
    ensures Passed(PassAnswers(1, 100.0, 699.9, 8, rest), "a", 600.0).None?
    ensures Passed(PassAnswers(0, 100.0, 699.9, 9, rest), "a", 600.0).None?
    ensures Passed(PassAnswers(1, 100.0, 699.9, 9, rest), "b", 600.0).None?
  {
    TwoLooks(699.9, 7, rest);
    TwoLooks(699.9, 8, rest);
  }

  /** The answers that are left after so many. */
  function Drop(w: World, n: nat): World {
    if n == 0 then w else Drop(Tail(w), n - 1)
  }

  /** The job was seen completed in poll `n`, and all earlier ones were as they have to be. */
  ghost predicate CompletedAt(w: World, instance: string, deadline: real, n: nat) {
    && (forall k: nat :: k < n ==> GoesOn(Drop(w, 3 * k), instance, deadline))
    && Same(Drop(w, 3 * n), instance)
    && var state := Head(Tail(Drop(w, 3 * n)));
       state.outcome.Done? && state.number == 9
  }

  predicate GoesOn(w: World, instance: string, deadline: real) {
    var state, clock := Head(Tail(w)), Head(Tail(Tail(w)));
    && Same(w, instance) && state.outcome.Done? && state.number in {3, 4, 5, 6}
    && clock.outcome.Done? && clock.clock < deadline
  }

  /** Waiting succeeds exactly if there is a poll that sees the job completed, no earlier one saw another
      service or an ended job, and the clock had not reached the deadline in any of those. */
  lemma {:induction false} PollingEndsInTime(w: World, instance: string, deadline: real)
    ensures Polled(w, instance, deadline).Some? <==> exists n: nat :: CompletedAt(w, instance, deadline, n)
  {
    var rest := Tail(Tail(Tail(w)));
    assert Drop(w, 0) == w;
    if GoesOn(w, instance, deadline) {
      PollingEndsInTime(rest, instance, deadline);
      forall k: nat
        ensures Drop(w, 3 * (k + 1)) == Drop(rest, 3 * k)
      {
        assert Drop(w, 3 * k + 3) == Drop(Tail(w), 3 * k + 2) == Drop(Tail(Tail(w)), 3 * k + 1);
      }
      if n: nat :| CompletedAt(rest, instance, deadline, n) {
        forall k: nat | k < n + 1
          ensures GoesOn(Drop(w, 3 * k), instance, deadline)
        {
          if k > 0 {
            assert GoesOn(Drop(rest, 3 * (k - 1)), instance, deadline);
          }
        }
        assert CompletedAt(w, instance, deadline, n + 1);
      }
      if n: nat :| CompletedAt(w, instance, deadline, n) {
        assert n > 0;
        forall k: nat | k < n - 1
          ensures GoesOn(Drop(rest, 3 * k), instance, deadline)
        {
          assert GoesOn(Drop(w, 3 * (k + 1)), instance, deadline);
        }
        assert CompletedAt(rest, instance, deadline, n - 1);
      }
    } else {
      forall n: nat | n > 0
        ensures !CompletedAt(w, instance, deadline, n)
      {
        assert !GoesOn(Drop(w, 3 * 0), instance, deadline);
      }
      assert CompletedAt(w, instance, deadline, 0) <==> Polled(w, instance, deadline).Some?;
    }
  }

  lemma FirstAnswer(name: string, timeout: real)
    ensures Safe([SawInstance(name)], name, timeout) && Tallied([SawInstance(name)]) == Tally([], 0, 0)
  {
    assert [] + [SawInstance(name)] == [SawInstance(name)];
    OneMoreEvent([], SawInstance(name), name, timeout);
  }

  lemma AnswerThenRest(before: seq<Event>, name: string, now: seq<Event>)
    requires before + [SawInstance(name)] < now && |now| <= |before| + 3
    requires now[|before| + 1].CancelRequested? || now[|before| + 1] == Said(ServiceRestarted)
    requires |now| == |before| + 3 ==> now[|before| + 2] == Said(CancelUnconfirmed)
    ensures before < now && now[|before|] == SawInstance(name)
    ensures forall k :: |before| < k < |now| ==>
              now[k].CancelRequested? || now[k] in {Said(ServiceRestarted), Said(CancelUnconfirmed)}
  {
    var seen := before + [SawInstance(name)];
    assert now[|before|] == seen[|before|] && now[..|seen|] == seen;
  }

  class Workflow {
    const timeout: real
    var world: World
    var instance: string
    var active: Option<int>
    ghost var trace: seq<Event>

    constructor (timeout: real, world: World)
      ensures this.timeout == timeout && this.world == world && active.None? && trace == []
    {
      this.timeout, this.world, instance, active, trace := timeout, world, "", None, [];
    }

    ghost predicate Valid()
      reads this
    {
      Safe(trace, instance, timeout)
    }

    ghost method Record(e: Event)
      requires Valid() && EventOk(trace + [e], |trace|, instance, timeout)
      modifies this`trace
      ensures Valid() && trace == old(trace) + [e] && Tallied(trace) == Add(old(Tallied(trace)), e)
    {
      OneMoreEvent(trace, e, instance, timeout);
      trace := trace + [e];
    }

    method Say(message: Message)
      requires Valid() && !message.BothCompleted?
      modifies this`trace
      ensures Valid() && trace == old(trace) + [Said(message)] && Tallied(trace) == old(Tallied(trace))
    {
      Record(Said(message));
    }

    /** Any call may raise, and the process may be killed in it. */
    method Ask() returns (a: Answer)
      modifies this`world
      ensures a == Head(old(world)) && world == Tail(old(world))
    {
      a := Head(world);
      world := Tail(world);
    }

    method Instance() returns (o: Outcome, name: string)
      requires Valid()
      modifies this`trace, this`world
      ensures Valid() && Tallied(trace) == old(Tallied(trace))
      ensures o == Head(old(world)).outcome && name == Head(old(world)).text && world == Tail(old(world))
      ensures trace == if o.Done? then old(trace) + [SawInstance(name)] else old(trace)
    {
      var a := Ask();
      o, name := a.outcome, a.text;
      if o.Done? {
        Record(SawInstance(name));
      }
    }

    /** Raises if the service is not the one the workflow began with. */
    method CheckInstance() returns (o: Outcome)
      requires Valid()
      modifies this`trace, this`world
      ensures Valid() && Tallied(trace) == old(Tallied(trace)) && world == Tail(old(world))
      ensures var a := Head(old(world));
              && o == (if a.outcome.Done? && a.text != instance then Raised else a.outcome)
              && trace == if a.outcome.Done? then old(trace) + [SawInstance(a.text)] else old(trace)
    {
      var name;
      o, name := Instance();
      if o.Done? && name != instance {
        o := Raised;
      }
    }

    method Create() returns (o: Outcome)
      requires Valid()
      modifies this`trace, this`active, this`world
      ensures Valid() && Tallied(trace) == old(Tallied(trace)) && world == Tail(old(world))
      ensures if o.Done? then active == Some(Head(old(world)).number) && trace == old(trace) + [Created(active.value)]
              else active == old(active) && trace == old(trace)
      ensures o.Done? <==> Head(old(world)).outcome.Done? && Head(old(world)).number > 0
    {
      var a := Ask();
      o := a.outcome;
      if o.Done? {
        if a.number <= 0 {
          return Raised;
        }
        active := Some(a.number);
        Record(Created(a.number));
      }
    }

    method State(job: int) returns (o: Outcome, state: int)
      requires Valid()
      modifies this`trace, this`world
      ensures Valid() && Tallied(trace) == old(Tallied(trace))
      ensures o == Head(old(world)).outcome && state == Head(old(world)).number && world == Tail(old(world))
      ensures trace == if o.Done? then old(trace) + [SawState(job, state)] else old(trace)
    {
      var a := Ask();
      o, state := a.outcome, a.number;
      if o.Done? {
        Record(SawState(job, state));
      }
    }

    method Clock() returns (o: Outcome, at: real)
      requires Valid()
      modifies this`trace, this`world
      ensures Valid() && Tallied(trace) == old(Tallied(trace))
      ensures o == Head(old(world)).outcome && at == Head(old(world)).clock && world == Tail(old(world))
      ensures trace == if o.Done? then old(trace) + [ReadClock(at)] else old(trace)
    {
      var a := Ask();
      o, at := a.outcome, a.clock;
      if o.Done? {
        Record(ReadClock(at));
      }
    }

    method Prompt() returns (o: Outcome, yes: bool)
      requires Valid()
      modifies this`trace, this`world
      ensures Valid() && Tallied(trace) == old(Tallied(trace))
      ensures o == Head(old(world)).outcome && yes == Head(old(world)).yes && world == Tail(old(world))
      ensures trace == if o.Done? then old(trace) + [Answered(yes)] else old(trace)
    {
      var a := Ask();
      o, yes := a.outcome, a.yes;
      if o.Done? {
        Record(Answered(yes));
      }
    }

    /** Hands a document over. The attempt counts even if it fails or the process is killed in it. */
    method Send(job: int, pass: Pass) returns (o: Outcome)
      requires Valid() && forall ok: bool :: EventOk(trace + [Sent(job, pass, ok)], |trace|, instance, timeout)
      modifies this`trace, this`world
      ensures Valid() && trace == old(trace) + [Sent(job, pass, o.Done?)]
      ensures o == Head(old(world)).outcome && world == Tail(old(world))
      ensures Tallied(trace) == old(Tallied(trace)).(passes := old(Tallied(trace)).passes + [pass])
    {
      var a := Ask();
      o := a.outcome;
      Record(Sent(job, pass, o.Done?));
    }

    /** Polls the job until it is completed, fails, or takes too long. */
    method AwaitCompletion(deadline: real) returns (o: Outcome)
      requires Valid() && active.Some?
      modifies this`trace, this`world
      ensures Valid() && Tallied(trace) == old(Tallied(trace)) && old(trace) <= trace
      ensures o.Done? ==> |trace| > |old(trace)| && trace[|trace| - 1] == SawState(active.value, 9)
      ensures if o.Done? then Polled(old(world), instance, deadline) == Some(world)
              else Polled(old(world), instance, deadline).None?
    {
      while true
        invariant Valid() && Tallied(trace) == old(Tallied(trace)) && old(trace) <= trace
        invariant Polled(old(world), instance, deadline) == Polled(world, instance, deadline)
        decreases world
      {
        var again;
        o, again := Poll(deadline);
        if !again {
          return;
        }
      }
    }

    /** One look at the service and at the job. */
    method Poll(deadline: real) returns (o: Outcome, again: bool)
      requires Valid() && active.Some?
      modifies this`trace, this`world
      ensures Valid() && Tallied(trace) == old(Tallied(trace)) && old(trace) <= trace
      ensures o.Done? && !again ==> |trace| > |old(trace)| && trace[|trace| - 1] == SawState(active.value, 9)
      ensures var w := old(world);
              if again then
                && Polled(w, instance, deadline) == Polled(world, instance, deadline)
                && w.Reply? && w.rest.Reply? && w.rest.rest.Reply? && world == w.rest.rest.rest
              else if o.Done? then Polled(w, instance, deadline) == Some(world)
              else Polled(w, instance, deadline).None?
    {
      again := false;
      o := CheckInstance();
      if !o.Done? {
        return;
      }
      var state;
      o, state := State(active.value);
      if !o.Done? || state == 9 {
        return;
      }
      if !Unfinished(state) {
        return Raised, false;
      }
      var now;
      o, now := Clock();
      if o.Done? && now >= deadline {
        o := Raised;
      }
      again := o.Done?;
    }

    /** Gets a job of its own for a pass, from a service that has not been restarted. */
    method OpenJob(pass: Pass) returns (o: Outcome)
      requires Valid()
      modifies this`trace, this`active, this`world
      ensures Valid() && Tallied(trace) == old(Tallied(trace)) && old(trace) <= trace
      ensures o.Done? ==>
                && active.Some? && |trace| == |old(trace)| + 4
                && trace[|old(trace)| + 2] == Created(active.value) && trace[|old(trace)| + 3] == SawInstance(instance)
      ensures o.Done? ==> world == Tail(Tail(Tail(old(world))))
      ensures o.Done? <==>
                && Same(old(world), instance) && Head(Tail(old(world))).outcome.Done?
                && Head(Tail(old(world))).number > 0 && Same(Tail(Tail(old(world))), instance)
    {
      Say(Printing(pass));
      :- CheckInstance();
      :- Create();
      o := CheckInstance();
    }

    /** Sends the document, the clock having been read. */
    method SendTimed(pass: Pass, ghost g: Grounds) returns (o: Outcome, begun: real)
      requires Valid() && active.Some? && |trace| >= 2
      requires trace[|trace| - 2] == Created(active.value) && trace[|trace| - 1] == SawInstance(instance)
      requires pass.BackPass? ==> Authorized(trace, instance, timeout, g) && g.done + 11 == |trace|
      modifies this`trace, this`world
      ensures Valid() && old(trace) <= trace
      ensures o.Done? ==>
                && trace == old(trace) + [ReadClock(begun)] + [Sent(active.value, pass, true)]
                && begun == Head(old(world)).clock && world == Tail(Tail(old(world)))
      ensures o.Done? <==> Head(old(world)).outcome.Done? && Head(Tail(old(world))).outcome.Done?
      ensures var passes := old(Tallied(trace)).passes;
              Tallied(trace) == old(Tallied(trace)).(passes :=
                if Head(old(world)).outcome.Done? then passes + [pass] else passes)
    {
      o, begun := Clock();
      if o.Done? {
        forall ok: bool
          ensures EventOk(trace + [Sent(active.value, pass, ok)], |trace|, instance, timeout)
        {
          var t := trace + [Sent(active.value, pass, ok)];
          assert ToNewJob(t, |trace|, instance);
          assert pass.BackPass? ==> BackGrounded(t, |trace|, instance, timeout, g);
        }
        o := Send(active.value, pass);
      }
    }

    /** Sends the document and waits for its job; the time for both begins before the sending. */
    method Deliver(pass: Pass, ghost g: Grounds) returns (o: Outcome)
      requires Valid() && active.Some? && |trace| >= 2
      requires trace[|trace| - 2] == Created(active.value) && trace[|trace| - 1] == SawInstance(instance)
      requires pass.BackPass? ==> Authorized(trace, instance, timeout, g) && g.done + 11 == |trace|
      modifies this`trace, this`world
      ensures Valid() && old(trace) <= trace
      ensures Tallied(trace) in
              {old(Tallied(trace)), old(Tallied(trace)).(passes := old(Tallied(trace)).passes + [pass])}
      ensures o.Done? ==>
                && |trace| > |old(trace)| + 2 && trace[|old(trace)| + 1] == Sent(active.value, pass, true)
                && ToNewJob(trace, |old(trace)| + 1, instance)
                && trace[|trace| - 1] == SawState(active.value, 9)
                && Tallied(trace).passes == old(Tallied(trace)).passes + [pass]
      ensures if o.Done? then Delivered(old(world), instance, timeout) == Some(world)
              else Delivered(old(world), instance, timeout).None?
    {
      var begun;
      o, begun := SendTimed(pass, g);
      if o.Done? {
        ghost var sent := trace;
        o := AwaitCompletion(begun + timeout);
        assert trace[|sent| - 1] == sent[|sent| - 1];
      }
    }

    /** One pass. What it did is found at `sent`, if it sent anything. */
    method PrintPass(pass: Pass, ghost g: Grounds) returns (o: Outcome, ghost sent: nat)
      requires Valid()
      requires pass.BackPass? ==> Authorized(trace, instance, timeout, g) && g.done + 7 == |trace|
      modifies this`trace, this`active, this`world
      ensures Valid() && old(trace) <= trace
      ensures Tallied(trace) in
              {old(Tallied(trace)), old(Tallied(trace)).(passes := old(Tallied(trace)).passes + [pass])}
      ensures o.Done? ==>
                && sent == |old(trace)| + 5 && sent + 1 < |trace| && active.Some?
                && trace[sent] == Sent(active.value, pass, true) && ToNewJob(trace, sent, instance)
                && trace[|trace| - 1] == SawState(active.value, 9)
                && Tallied(trace).passes == old(Tallied(trace)).passes + [pass]
      ensures if o.Done? then Passed(old(world), instance, timeout) == Some(world)
              else Passed(old(world), instance, timeout).None?
    {
      sent := |trace| + 5;
      o := OpenJob(pass);
      if o.Done? {
        o := Deliver(pass, g);
      }
    }

    /** What is answered to the user's prompt, and whether that was in time. */
    method Heed(begun: real) returns (o: Outcome)
      requires Valid()
      modifies this`trace, this`world
      ensures Valid() && Tallied(trace) == old(Tallied(trace)) && old(trace) <= trace
      ensures var answer, clock := Head(old(world)), Head(Tail(old(world)));
              && (o.Done? <==>
                   && answer.outcome.Done? && answer.yes && clock.outcome.Done? && clock.clock < begun + timeout)
              && (o.Done? ==>
                   && world == Tail(Tail(old(world)))
                   && trace == old(trace) + [Answered(true)] + [ReadClock(clock.clock)])
    {
      var yes, at;
      o, yes := Prompt();
      if o.Done? && !yes {
        o := Raised;
      }
      if o.Done? {
        o, at := Clock();
        if o.Done? && at >= begun + timeout {
          o := Raised;
        }
      }
    }

    /** Asks for the fronts to be reinserted. The deadline is set before asking, and a late answer is no
        answer. */
    method Confirm() returns (o: Outcome)
      requires Valid()
      modifies this`trace, this`world
      ensures Valid() && Tallied(trace) == old(Tallied(trace)) && old(trace) <= trace
      ensures o.Done? <==> InTime(old(world), timeout)
      ensures o.Done? ==>
                && world == Tail(Tail(Tail(old(world))))
                && trace == old(trace) + [Said(WaitingForReinsertion)] + [ReadClock(Head(old(world)).clock)]
                            + [Answered(true)] + [ReadClock(Head(Tail(Tail(old(world)))).clock)]
    {
      Say(WaitingForReinsertion);
      var begun;
      o, begun := Clock();
      if o.Done? {
        o := Heed(begun);
      }
    }

    /** After the confirmation, looks again at the service and at the front job. */
    method Recheck(job: int) returns (o: Outcome)
      requires Valid()
      modifies this`trace, this`world
      ensures Valid() && Tallied(trace) == old(Tallied(trace)) && old(trace) <= trace
      ensures o.Done? ==> trace == old(trace) + [SawInstance(instance)] + [SawState(job, 9)]
      ensures o.Done? <==>
                && Same(old(world), instance)
                && Head(Tail(old(world))).outcome.Done? && Head(Tail(old(world))).number == 9
      ensures o.Done? ==> world == Tail(Tail(old(world)))
    {
      o := CheckInstance();
      if o.Done? {
        var state;
        o, state := State(job);
        if o.Done? && state != 9 {
          o := Raised;
        }
      }
    }

    /** The confirmation and then the second look: together the grounds for the backs. */
    method AwaitReinsertion(ghost g: Grounds) returns (o: Outcome)
      requires Valid() && FrontsDone(trace, g) && g.done + 1 == |trace| && active == Some(g.front)
      modifies this`trace, this`world
      ensures Valid() && Tallied(trace) == old(Tallied(trace)) && old(trace) <= trace
      ensures o.Done? ==> Authorized(trace, instance, timeout, g) && g.done + 7 == |trace|
      ensures if o.Done? then Reinserted(old(world), instance, timeout) == Some(world)
              else Reinserted(old(world), instance, timeout).None?
    {
      o := Confirm();
      if o.Done? {
        o := Recheck(active.value);
      }
    }

    /** The backs, on these grounds. */
    method PrintBacks(ghost g: Grounds) returns (o: Outcome)
      requires Valid() && Authorized(trace, instance, timeout, g) && g.done + 7 == |trace|
      requires Tallied(trace) == Tally([FrontPass], 0, 0)
      modifies this`trace, this`active, this`world
      ensures Valid() && old(trace) <= trace
      ensures Tallied(trace).cancels == 0 && Tallied(trace).passes <= [FrontPass, BackPass]
      ensures Tallied(trace).completions == if o.Done? then 1 else 0
      ensures o.Done? ==> trace[|trace| - 1] == Said(BothCompleted) && Tallied(trace).passes == [FrontPass, BackPass]
      ensures o.Done? <==> Passed(old(world), instance, timeout).Some?
    {
      ghost var sent;
      o, sent := PrintPass(BackPass, g);
      if o.Done? {
        assert BothDone(trace + [Said(BothCompleted)], |trace|, instance, timeout, sent, g);
        Record(Said(BothCompleted));
      }
    }

    /** Both passes, as far as they go. */
    method PrintBoth() returns (o: Outcome)
      requires Valid() && Tallied(trace) == Tally([], 0, 0)
      modifies this`trace, this`active, this`world
      ensures Valid() && old(trace) <= trace
      ensures Tallied(trace).cancels == 0 && Tallied(trace).passes <= [FrontPass, BackPass]
      ensures Tallied(trace).completions == if o.Done? then 1 else 0
      ensures o.Done? ==> trace[|trace| - 1] == Said(BothCompleted) && Tallied(trace).passes == [FrontPass, BackPass]
      ensures o.Done? <==> BothPassed(old(world), instance, timeout)
    {
      ghost var sent, g := 0, Grounds(0, 0, 0);
      o, sent := PrintPass(FrontPass, g);
      if !o.Done? {
        return;
      }
      g := Grounds(active.value, sent, |trace| - 1);
      o := AwaitReinsertion(g);
      if !o.Done? {
        return;
      }
      o := PrintBacks(g);
    }

    /** Whether what was seen next is the service that the workflow began with. */
    ghost predicate SameAt(n: nat)
      reads this
    {
      n < |trace| && trace[n] == SawInstance(instance)
    }

    /** Nothing happens from there on but a cleanup, which asks for the service once, first of all. */
    ghost predicate OnlyCleanup(n: nat)
      reads this
    {
      forall k :: n <= k < |trace| ==>
        || trace[k].CancelRequested?
        || trace[k] in {Said(ServiceRestarted), Said(CancelUnconfirmed), Said(Incomplete)}
        || (k == n && trace[k].SawInstance?)
    }

    /** The cleanup did ask, and either there was an answer or it says so. */
    ghost predicate AskedAt(n: nat)
      reads this
    {
      n < |trace| && (trace[n].SawInstance? || trace[n] == Said(CancelUnconfirmed))
    }

    /** The service has answered: if it is the same one, its job is canceled. */
    method CancelIfSame(name: string) returns (o: Outcome)
      requires Valid() && active.Some? && |trace| > 0 && trace[|trace| - 1] == SawInstance(name)
      modifies this`trace, this`world
      ensures Valid() && old(trace) < trace && |trace| == |old(trace)| + if o.Raised? then 2 else 1
      ensures trace[|old(trace)|] == if name == instance then CancelRequested(active.value) else Said(ServiceRestarted)
      ensures o.Raised? ==> trace[|old(trace)| + 1] == Said(CancelUnconfirmed)
      ensures Tallied(trace) ==
              old(Tallied(trace)).(cancels := old(Tallied(trace)).cancels + if name == instance then 1 else 0)
    {
      o := Done;
      if name == instance {
        Record(CancelRequested(active.value));
        var a := Ask();
        o := a.outcome;
      } else {
        Say(ServiceRestarted);
      }
      if o.Raised? {
        Say(CancelUnconfirmed);
      }
    }

    /** Cancels the active job exactly if the service, asked once more, answers as the one it began with. */
    method CancelActive() returns (o: Outcome)
      requires Valid() && active.Some?
      modifies this`trace, this`world
      ensures Valid() && old(trace) <= trace
      ensures SameAt(|old(trace)|) <==> Head(old(world)).outcome.Done? && Head(old(world)).text == instance
      ensures Tallied(trace) ==
              old(Tallied(trace)).(cancels := old(Tallied(trace)).cancels + if SameAt(|old(trace)|) then 1 else 0)
      ensures SameAt(|old(trace)|) ==>
                |trace| > |old(trace)| + 1 && trace[|old(trace)| + 1] == CancelRequested(active.value)
      ensures OnlyCleanup(|old(trace)|) && (!o.Crashed? ==> AskedAt(|old(trace)|))
    {
      var name;
      o, name := Instance();
      if o.Done? {
        o := CancelIfSame(name);
        AnswerThenRest(old(trace), name, trace);
      } else if o.Raised? {
        Say(CancelUnconfirmed);
      }
    }

    /** Gives up the job that is in the printer's hands, if there is one, whatever was seen of the service
        before: only its answer now counts. */
    method GiveUp() returns (o: Outcome)
      requires Valid()
      modifies this`trace, this`world
      ensures Valid() && old(trace) <= trace && o != Done
      ensures o.Raised? ==> trace != [] && trace[|trace| - 1] == Said(Incomplete)
      ensures Tallied(trace) == old(Tallied(trace)).(cancels := old(Tallied(trace)).cancels
                                                      + if active.Some? && SameAt(|old(trace)|) then 1 else 0)
      ensures active.Some? ==>
                (SameAt(|old(trace)|) <==> Head(old(world)).outcome.Done? && Head(old(world)).text == instance)
      ensures active.Some? && SameAt(|old(trace)|) ==>
                |trace| > |old(trace)| + 1 && trace[|old(trace)| + 1] == CancelRequested(active.value)
      ensures OnlyCleanup(|old(trace)|) && (o.Raised? && active.Some? ==> AskedAt(|old(trace)|))
    {
      o := Raised;
      if active.Some? {
        o := CancelActive();
      }
      if o.Raised? || o.Done? {
        Say(Incomplete);
        o := Raised;
      }
    }

    /** The body of the workflow and its cleanup. */
    method Work() returns (o: Outcome, ghost failed: nat)
      requires Valid() && Tallied(trace) == Tally([], 0, 0) && active.None? && trace != []
      modifies this`trace, this`active, this`world
      ensures Valid() && trace != []
      ensures Tallied(trace).passes <= [FrontPass, BackPass] && Tallied(trace).cancels <= 1
      ensures o.Done? <==> Tallied(trace).completions == 1
      ensures o.Done? <==> BothPassed(old(world), instance, timeout)
      ensures o.Done? ==>
                Tallied(trace) == Tally([FrontPass, BackPass], 0, 1) && trace[|trace| - 1] == Said(BothCompleted)
      ensures o.Raised? ==> trace[|trace| - 1] == Said(Incomplete)
      ensures Tallied(trace).cancels == 1 <==> active.Some? && SameAt(failed)
      ensures Tallied(trace).cancels == 1 ==> |trace| > failed + 1 && trace[failed + 1] == CancelRequested(active.value)
      ensures OnlyCleanup(failed) && (o.Raised? && active.Some? ==> AskedAt(failed))
    {
      o := PrintBoth();
      failed := |trace|;
      if o.Raised? {
        o := GiveUp();
      }
    }

    /** Nothing is ever sent but the fronts and then the backs, each to a job of its own in a service just
        checked, the backs only on fresh grounds; success is said and returned only when both passes were
        seen complete. Anything else ends with at most one cancellation: there is one exactly if a job
        was created and the first thing seen after the failure, at `failed`, is the same service. */
    method RunWorkflow() returns (o: Outcome, ghost failed: nat)
      requires trace == [] && active.None?
      modifies this
      ensures Safe(trace, instance, timeout)
      ensures Tallied(trace).passes <= [FrontPass, BackPass] && Tallied(trace).cancels <= 1
      ensures o.Done? <==> Tallied(trace).completions == 1
      ensures o.Done? <==>
                && timeout > 0.0 && Head(old(world)).outcome.Done?
                && BothPassed(Tail(old(world)), Head(old(world)).text, timeout)
      ensures o.Done? ==>
                && Tallied(trace) == Tally([FrontPass, BackPass], 0, 1) && trace != []
                && trace[|trace| - 1] == Said(BothCompleted)
      ensures o.Raised? ==> trace == [] || trace[|trace| - 1] == Said(Incomplete)
      ensures Tallied(trace).cancels == 1 <==> active.Some? && SameAt(failed)
      ensures Tallied(trace).cancels == 1 ==> |trace| > failed + 1 && trace[failed + 1] == CancelRequested(active.value)
      ensures OnlyCleanup(failed) && (o.Raised? && active.Some? ==> AskedAt(failed))
    {
      o, failed := Raised, 0;
      if timeout > 0.0 {
        o := Meet();
        if o.Done? {
          o, failed := Work();
        }
      }
    }

    /** The first answer says which service this is about. */
    method Meet() returns (o: Outcome)
      requires trace == []
      modifies this`trace, this`world, this`instance
      ensures Valid() && Tallied(trace) == Tally([], 0, 0)
      ensures o == Head(old(world)).outcome && instance == Head(old(world)).text && world == Tail(old(world))
      ensures trace == if o.Done? then [SawInstance(instance)] else []
    {
      var a := Ask();
      o, instance := a.outcome, a.text;
      if o.Done? {
        FirstAnswer(instance, timeout);
        trace := [SawInstance(instance)];
      }
    }
  }

  /** A service that is seen changed and then, by the cleanup, unchanged: the same calls that the workflow
      makes, in its order. The job is canceled although the workflow had just been told that its service
      was gone. */
  method ChangedThenBack() returns (w: Workflow)
    ensures fresh(w) && Safe(w.trace, w.instance, w.timeout) && w.instance == "a" && |w.trace| > 6
    ensures w.trace[4] == SawInstance("b") && w.trace[5] == SawInstance("a") && w.trace[6] == CancelRequested(1)
  {
    var cleanup := Reply(Named("a"), Silence);
    w := new Workflow(600.0, Reply(Named("a"), Reply(Named("a"), Reply(Numbered(1), Reply(Named("b"), cleanup)))));
    var o := w.Meet();
    w.Say(Printing(FrontPass));
    o := w.CheckInstance();
    o := w.Create();
    assert w.active == Some(1) && |w.trace| == 4 && w.world == Reply(Named("b"), cleanup);
    o := w.CheckInstance();
    ghost var seen := w.trace;
    assert |seen| == 5 && seen[4] == SawInstance("b") && w.world == cleanup;
    o := w.GiveUp();
    assert seen <= w.trace && w.SameAt(5);
  }
}
