/** Whole histories of an installation: any number of commands, crashes and power losses. */
module UpdateRuns {
  import opened Outcomes
  import opened UpdateState
  import opened UpdateHost
  import opened UpdateSafety
  import opened UpdateTransaction

  datatype Event = Command(threat: Threat, source: Option<Tree>, run: RunId) | PowerLoss

  /** The machine between two events. */
  datatype Scene = Scene(live: Install, disk: Disk, service: Service, past: Past)

  ghost function Now(t: Transaction): Scene
    reads t.host
  {
    Scene(t.host.live, t.host.disk, t.host.service, t.host.past)
  }

  /** What one event may do: a power loss restarts what is enabled; a command finishes a pending journal
      under the old order, or begins exactly its own, or is refused. */
  ghost predicate Stepped(a: Scene, e: Event, b: Scene) {
    match e
    case PowerLoss =>
      var up := a.service.enabled;
      b == a.(service := a.service.(running := up, accepting := up && !Held(a.live)))
    case Command(_, source, run) =>
      if a.disk.journal.Some? then
        && b.past.order == a.past.order
        && (!Forward(a.disk.journal) ==>
          !Forward(b.disk.journal) && (b.disk.journal.None? ==> SameCode(b.past.order.base, b.live)))
      else
        || (Given(a.live, a.disk, a.past.stops, source, run, b.past.order)
            && (SameCode(a.live, b.live) || SameCode(a.live, b.past.prior)))
        || (b.past.order == a.past.order && b.disk.journal.None? && b.service == a.service && Drifts(a.live, b.live))
  }

  ghost predicate Chained(events: seq<Event>, scenes: seq<Scene>) {
    |scenes| == |events| + 1 && forall i :: 0 <= i < |events| ==> Stepped(scenes[i], events[i], scenes[i + 1])
  }

  /** That command found the installation of the scene before it at rest, and was given this order on it. */
  ghost predicate BegunAt(events: seq<Event>, scenes: seq<Scene>, k: nat, order: Order)
    requires |scenes| == |events| + 1
  {
    && k < |events| && events[k].Command? && scenes[k].disk.journal.None?
    && Given(scenes[k].live, scenes[k].disk, scenes[k].past.stops, events[k].source, events[k].run, order)
  }

  /** The order that is gone by in the end was there from the start, or one of the commands began it. */
  lemma {:induction false} OrderHasACommand(events: seq<Event>, scenes: seq<Scene>, n: nat)
    requires Chained(events, scenes) && n <= |events|
    ensures scenes[n].past.order == scenes[0].past.order || exists k :: BegunAt(events, scenes, k, scenes[n].past.order)
  {
    if n > 0 {
      OrderHasACommand(events, scenes, n - 1);
      if scenes[n].past.order != scenes[n - 1].past.order {
        assert Stepped(scenes[n - 1], events[n - 1], scenes[n]);
        assert BegunAt(events, scenes, n - 1, scenes[n].past.order);
      }
    }
  }

  predicate CrashesOnly(events: seq<Event>) {
    forall i :: 0 <= i < |events| && events[i].Command? ==> !events[i].threat.MayFail?
  }

  method Happen(t: Transaction, e: Event)
    requires t.Steady()
    modifies t, t.host
    ensures t.Steady() && Stepped(old(Now(t)), e, Now(t))
    ensures !(e.Command? && e.threat.MayFail?) && !old(t.host.past.tripped) ==> !t.host.past.tripped
    ensures forall r :: r in old(t.host.disk.saved) ==>
              r in t.host.disk.saved && t.host.disk.saved[r] == old(t.host.disk.saved)[r]
  {
    match e {
      case PowerLoss =>
        RestartIsSafe(t.host.live, t.host.disk, t.host.service, t.host.past);
        t.host.Restart();
      case Command(threat, source, run) =>
        t.host.threat := threat;
        var _ := t.Execute(source, run);
    }
  }

  /** However the commands end, every instant between them is safe, and each scene follows from the last. */
  method Live(t: Transaction, events: seq<Event>) returns (ghost scenes: seq<Scene>)
    requires t.Steady()
    modifies t, t.host
    ensures t.Steady()
    ensures CrashesOnly(events) && !old(t.host.past.tripped) ==> !t.host.past.tripped
    ensures forall r :: r in old(t.host.disk.saved) ==>
              r in t.host.disk.saved && t.host.disk.saved[r] == old(t.host.disk.saved)[r]
    ensures Chained(events, scenes) && scenes[0] == old(Now(t)) && scenes[|events|] == Now(t)
  {
    scenes := [Now(t)];
    for i := 0 to |events|
      invariant t.Steady()
      invariant CrashesOnly(events) && !old(t.host.past.tripped) ==> !t.host.past.tripped
      invariant forall r :: r in old(t.host.disk.saved) ==>
                  r in t.host.disk.saved && t.host.disk.saved[r] == old(t.host.disk.saved)[r]
      invariant Chained(events[..i], scenes) && scenes[0] == old(Now(t)) && scenes[i] == Now(t)
    {
      Happen(t, events[i]);
      Extended(events, i, scenes, Now(t));
      scenes := scenes + [Now(t)];
    }
    assert events[..|events|] == events;
  }

  lemma Extended(events: seq<Event>, i: nat, scenes: seq<Scene>, next: Scene)
    requires i < |events| && Chained(events[..i], scenes) && Stepped(scenes[i], events[i], next)
    ensures Chained(events[..i + 1], scenes + [next])
  {
    var more := scenes + [next];
    forall j | 0 <= j < i + 1
      ensures Stepped(more[j], events[..i + 1][j], more[j + 1])
    {
      if j < i {
        assert Stepped(scenes[j], events[..i][j], scenes[j + 1]);
      }
    }
  }

  /** After any history of updates, rollbacks and recoveries cut short by crashes and power losses, one
      undisturbed recovery clears the journal with the service running and accepting. The program that
      runs is the one the last command found, never stopped or last started from exactly the installation
      found at the stop; or it was last started from exactly what that command ordered: its payload
      activated on the installation found at the stop, or the snapshot it was to roll back to. The scenes
      follow one another from the machine as it was, and one of them is what that command found. */
  method CrashesThenRecovery(t: Transaction, events: seq<Event>) returns (ghost scenes: seq<Scene>)
    requires t.Steady() && !t.host.past.tripped && CrashesOnly(events)
    modifies t, t.host
    ensures t.Steady() && t.host.disk.journal.None?
    ensures Up(t.host.live, t.host.service)
    ensures Chained(events, scenes) && scenes[0] == old(Now(t)) && scenes[|events|].past.order == t.host.past.order
    ensures t.host.past.order == old(t.host.past.order) || exists k :: BegunAt(events, scenes, k, t.host.past.order)
    ensures var p := t.host.past;
            || (SameCode(p.order.base, t.host.live)
                && (p.stops == p.order.stops || LastStart(t.host.live, p, p.prior)))
            || (SameCode(p.order.base, p.prior) && Fulfils(p.order, p.prior, p.goal)
                && LastStart(t.host.live, p, p.goal))
  {
    scenes := Live(t, events);
    OrderHasACommand(events, scenes, |events|);
    t.host.threat := NoThreat;
    var _ := t.Recover();
  }

  /** What can come between a command and the recovery that is left alone: a recovery by a later command,
      killed anywhere, or a power loss. */
  datatype Cut = Retried | Lost

  /** The program of `before` runs, never stopped or last started from exactly what was found at the stop. */
  ghost predicate Unchanged(before: Scene, now: Scene) {
    && SameCode(before.live, now.live)
    && (now.past.stops == before.past.stops || LastStart(now.live, now.past, now.past.prior))
  }

  /** What was asked for runs, last started exactly as it was asked for, on what was found at the stop. */
  ghost predicate Reached(before: Scene, source: Option<Tree>, now: Scene) {
    && SameCode(before.live, now.past.prior) && LastStart(now.live, now.past, now.past.goal)
    && if source.Some? then Activated(now.past.prior, Secured(source.value)) == Some(now.past.goal)
       else
         && before.disk.previous.Some? && before.disk.previous.value in before.disk.saved
         && now.past.goal == before.disk.saved[before.disk.previous.value].contents
  }

  /** What one cut may do: nothing at rest; a commit stays; and what is not committed never becomes so. */
  ghost predicate CutTo(a: Scene, b: Scene) {
    && b.past.order == a.past.order
    && (a.disk.journal.None? ==> b.live == a.live && b.past == a.past && b.disk == a.disk)
    && (a.disk.journal.Some? && !Forward(a.disk.journal) ==>
      && !Forward(b.disk.journal)
      && (b.disk.journal.None? ==> SameCode(b.past.order.base, b.live)))
    && (Forward(a.disk.journal) ==>
      && b.past == a.past.(served := b.past.served, vetted := b.past.vetted)
      && SameCode(a.live, b.live) && b.disk.journal in {None, a.disk.journal})
  }

  method Interrupt(t: Transaction, cut: Cut)
    requires t.Steady() && !t.host.past.tripped
    modifies t, t.host
    ensures t.Steady() && !t.host.past.tripped && CutTo(old(Now(t)), Now(t))
  {
    if cut.Lost? {
      RestartIsSafe(t.host.live, t.host.disk, t.host.service, t.host.past);
      t.host.Restart();
    } else if t.host.disk.journal.Some? {
      t.host.threat := MayCrash;
      var _ := t.Resume();
    }
  }

  /** What `now` owes to the command that found `before`: its order, or nothing has happened. */
  ghost predicate Owes(before: Scene, source: Option<Tree>, run: RunId, now: Scene) {
    || Given(before.live, before.disk, before.past.stops, source, run, now.past.order)
    || (now.disk.journal.None? && Drifts(before.live, now.live) && now.past.stops == before.past.stops)
  }

  lemma OrderedIsReached(before: Scene, source: Option<Tree>, run: RunId, now: Scene)
    requires Given(before.live, before.disk, before.past.stops, source, run, now.past.order)
    requires SameCode(now.past.order.base, now.past.prior) && LastStart(now.live, now.past, now.past.goal)
    requires Fulfils(now.past.order, now.past.prior, now.past.goal)
    ensures Reached(before, source, now)
  {
  }

  /** At rest and never failed, the end is one of the two. */
  lemma RestIsUnchangedOrReached(before: Scene, source: Option<Tree>, run: RunId, now: Scene)
    requires Owes(before, source, run, now) && !now.past.tripped && now.disk.journal.None?
    requires Safe(now.live, now.disk, now.service, now.past)
    ensures Unchanged(before, now) || Reached(before, source, now)
  {
    if Given(before.live, before.disk, before.past.stops, source, run, now.past.order) {
      var p := now.past;
      if SameCode(p.order.base, p.prior) && Fulfils(p.order, p.prior, p.goal) && LastStart(now.live, p, p.goal) {
        OrderedIsReached(before, source, run, now);
      }
    }
  }

  /** What the journal that a command left decides, and every later scene keeps. */
  ghost predicate Decided(before: Scene, source: Option<Tree>, done: bool, found: Option<Record>, now: Scene) {
    && (found.None? ==> now.disk.journal.None?)
    && (done || Forward(found) ==> now.disk.journal in {None, found} && Reached(before, source, now))
    && (found.Some? && !Forward(found) ==>
      && !Forward(now.disk.journal) && (now.disk.journal.None? ==> SameCode(before.live, now.live)))
  }

  method Begin(t: Transaction, source: Option<Tree>, run: RunId) returns (o: Outcome, ghost found: Option<Record>)
    requires t.Steady() && !t.host.past.tripped && t.host.disk.journal.None?
    modifies t, t.host
    ensures t.Steady() && !t.host.past.tripped && found == t.host.disk.journal && (o.Done? ==> found.None?)
    ensures Owes(old(Now(t)), source, run, Now(t)) && Decided(old(Now(t)), source, o.Done?, found, Now(t))
  {
    ghost var before := Now(t);
    t.host.threat := MayCrash;
    o := t.Execute(source, run);
    found := t.host.disk.journal;
    if o.Done? || Forward(found) {
      OrderedIsReached(before, source, run, Now(t));
    }
  }

  lemma CutKeepsDecision(before: Scene, source: Option<Tree>, run: RunId, done: bool, found: Option<Record>,
                         a: Scene, b: Scene)
    requires Owes(before, source, run, a) && Decided(before, source, done, found, a) && CutTo(a, b)
    requires done ==> found.None?
    requires a.disk.journal.Some? ==> Given(before.live, before.disk, before.past.stops, source, run, a.past.order)
    ensures Owes(before, source, run, b) && Decided(before, source, done, found, b)
  {
  }

  /** One command on an installation at rest, killed anywhere, then any number of recoveries killed anywhere
      and power losses, and one recovery that is left alone: what runs in the end is the program from before
      the command or what it asked for. The journal that the command left decides which, and no cut changes
      that. */
  method CrashedCommand(t: Transaction, source: Option<Tree>, run: RunId, cuts: seq<Cut>)
    returns (o: Outcome, ghost found: Option<Record>)
    requires t.Steady() && !t.host.past.tripped && t.host.disk.journal.None?
    modifies t, t.host
    ensures t.Steady() && t.host.disk.journal.None? && Up(t.host.live, t.host.service)
    ensures Unchanged(old(Now(t)), Now(t)) || Reached(old(Now(t)), source, Now(t))
    ensures o.Done? || Forward(found) ==> Reached(old(Now(t)), source, Now(t))
    ensures found.Some? && !Forward(found) ==> SameCode(old(t.host.live), t.host.live)
  {
    ghost var before := Now(t);
    o, found := Begin(t, source, run);
    for i := 0 to |cuts|
      invariant t.Steady() && !t.host.past.tripped
      invariant Owes(before, source, run, Now(t)) && Decided(before, source, o.Done?, found, Now(t))
    {
      ghost var scene := Now(t);
      Interrupt(t, cuts[i]);
      CutKeepsDecision(before, source, run, o.Done?, found, scene, Now(t));
    }
    Conclude(t, source, run, before, o.Done?, found);
  }

  /** The recovery that is left alone. */
  method Conclude(t: Transaction, source: Option<Tree>, run: RunId, ghost before: Scene, ghost done: bool,
                  ghost found: Option<Record>)
    requires t.Steady() && !t.host.past.tripped && (done ==> found.None?)
    requires Owes(before, source, run, Now(t)) && Decided(before, source, done, found, Now(t))
    modifies t, t.host
    ensures t.Steady() && t.host.disk.journal.None? && Up(t.host.live, t.host.service)
    ensures Unchanged(before, Now(t)) || Reached(before, source, Now(t))
    ensures Decided(before, source, done, found, Now(t))
  {
    t.host.threat := NoThreat;
    var _ := t.Recover();
    RestIsUnchangedOrReached(before, source, run, Now(t));
  }

  /** One step of a command fails, and nothing else does: the program from before is up again, unless the
      new one had been committed, and then that is. */
  method OneFailure(t: Transaction, source: Option<Tree>, run: RunId) returns (o: Outcome, ghost committed: bool)
    requires t.Steady() && !t.host.past.tripped && t.host.disk.journal.None?
    modifies t, t.host
    ensures t.Steady()
    ensures o.Raised? ==> t.host.disk.journal.None? && Up(t.host.live, t.host.service)
    ensures o.Raised? && !committed ==> SameCode(old(t.host.live), t.host.live)
    ensures o.Raised? && committed ==> Reached(old(Now(t)), source, Now(t))
  {
    committed := false;
    var rollback;
    t.host.threat := NoThreat;
    o, rollback := t.Admit(source, run);
    if o.Done? {
      var operation := if source.None? then Rollback else Update;
      t.host.threat := MayFail(false);
      o := t.Attempt(Record(run, operation, Preparing, None, None), source, rollback);
      if o.Raised? {
        committed := t.record.phase.Committed?;
        LeadBack(t, source, run, old(Now(t)));
      }
    }
  }

  /** What follows the failed step. */
  method LeadBack(t: Transaction, source: Option<Tree>, run: RunId, ghost before: Scene)
    requires t.Steady() && t.SoundNow(t.record) && !t.host.past.tripped && t.record.recovery.None?
    requires Given(before.live, before.disk, before.past.stops, source, run, t.host.past.order)
    modifies t, t.host
    ensures t.Steady() && t.host.disk.journal.None? && Up(t.host.live, t.host.service)
    ensures if old(t.record.phase).Committed? then Reached(before, source, Now(t))
            else SameCode(before.live, t.host.live)
  {
    t.host.threat := NoThreat;
    var _ := t.Fallback();
    if old(t.record.phase).Committed? {
      OrderedIsReached(before, source, run, Now(t));
    }
  }

  /** Rolling a rollback back leads to the very installation that the first rollback left. */
  method RollBackTwice(t: Transaction, first: RunId, second: RunId) returns (o: Outcome, ghost left: Install)
    requires t.Steady() && t.host.disk.journal.None?
    modifies t, t.host
    ensures t.Steady()
    ensures o.Done? ==> SameCode(old(t.host.live), left) && t.host.past.goal == left
    ensures o.Done? ==> LastStart(t.host.live, t.host.past, left)
  {
    left := t.host.live;
    :- t.Execute(None, first);
    left := t.host.past.prior;
    :- t.Execute(None, second);
    return Done, left;
  }

  /** The one way a cleared journal can leave the service down, step by step: a transaction has begun and
      not closed admission yet, a recovery of it fails in its first step, the caller then stops a service
      which its journal says was never touched, and the next recovery keeps what it finds. */
  method PreparedButStopped(live: Install, acceptable: Tree -> bool) returns (t: Transaction, failed: Outcome)
    requires State in live && !Held(live)
    ensures fresh(t) && fresh(t.host) && t.Steady() && SameCode(live, t.host.live)
    ensures failed.Raised?
    ensures t.host.disk.journal.None? && Down(t.host.service) && !Up(t.host.live, t.host.service)
  {
    var host := new Host(live, acceptable);
    t := new Transaction(host);
    host.threat := NoThreat;
    var begun := t.Begin(Record(0, Update, Preparing, None, None));
    host.threat := MayFail(true);
    failed := t.Recover();
    host.threat := NoThreat;
    var abandoned := t.Abandon();
    var recovered := t.Recover();
  }
}
