/** Journaled update and rollback of the installation, and the recovery of an interrupted one. */
module UpdateTransaction {
  import opened Outcomes
  import opened UpdateState
  import opened UpdateHost
  import opened UpdateFiles
  import opened UpdateSafety

  class Transaction {
    const host: Host
    /** The record that the running code holds; it can be ahead of the journal. */
    var record: Record

    constructor (host: Host)
      ensures this.host == host
    {
      this.host := host;
      record := Record(0, Update, Preparing, None, None);
    }

    ghost predicate Steady()
      reads host
    {
      Safe(host.live, host.disk, host.service, host.past)
    }

    ghost predicate SoundNow(r: Record)
      reads host
    {
      && Sane(host.live, host.disk, host.service, host.past)
      && Sound(r, host.live, host.disk, host.service, host.past)
    }

    /** The order has only just been given, to this run. */
    ghost predicate Fresh(run: RunId)
      reads host
    {
      && host.past.order.run == run && SameCode(host.past.order.base, host.live)
      && host.past.stops == host.past.order.stops
    }

    method Phase(r: Record, phase: Phase) returns (o: Outcome)
      modifies this`record, host`live, host`past, host`disk
      ensures record == r.(phase := phase)
      ensures Aged(old(host.live), host.service, old(host.past), host.live, host.past)
      ensures SamePast(old(host.past), host.past)
      ensures host.disk == if o.Done? then old(host.disk).(journal := Some(record)) else old(host.disk)
      ensures host.threat.NoThreat? ==> o.Done?
      ensures o.Raised? ==> host.threat.MayFail?
    {
      record := r.(phase := phase);
      :- host.Elapse();
      host.disk := host.disk.(journal := Some(record));
      return Done;
    }

    /** The result is durable before the journal goes. */
    method Finish(r: Record, verdict: Verdict) returns (o: Outcome)
      modifies host`live, host`past, host`disk
      ensures Aged(old(host.live), host.service, old(host.past), host.live, host.past)
      ensures SamePast(old(host.past), host.past)
      ensures host.disk == old(host.disk).(result := host.disk.result, journal := host.disk.journal)
      ensures host.disk.journal == old(host.disk.journal) || host.disk.journal == None
      ensures host.disk.journal.None? ==> old(host.disk.journal).None? || host.disk.result == Some((r.run, verdict))
      ensures o.Done? ==> host.disk.journal.None? && host.disk.result == Some((r.run, verdict))
      ensures host.threat.NoThreat? ==> o.Done?
      ensures o.Raised? ==> host.threat.MayFail?
      ensures host.threat == MayFail(true) ==> o.Raised? && host.disk.journal == old(host.disk.journal)
    {
      o := Done;
      :- host.Elapse();
      host.disk := host.disk.(result := Some((r.run, verdict)));
      :- host.Elapse();
      host.disk := host.disk.(journal := None);
      :- host.Elapse();
      return Done;
    }

    /** The tail of every transaction and recovery: nothing here stops the service or replaces a path. */
    method Reopen(r: Record, verdict: Verdict) returns (o: Outcome)
      requires Steady() && host.disk.journal == Some(r) && r.phase.Committed?
      modifies host`live, host`past, host`disk, host`service
      ensures Steady()
      ensures SamePast(old(host.past), host.past) && SameCode(old(host.live), host.live)
      ensures host.disk == old(host.disk).(result := host.disk.result, journal := host.disk.journal)
      ensures host.disk.journal == Some(r) || host.disk.journal.None?
      ensures host.service.enabled
      ensures !o.Done? ==> SoundNow(r)
      ensures o.Done? ==> host.disk.journal.None? && host.disk.result == Some((r.run, verdict))
      ensures o.Done? ==> Up(host.live, host.service)
      ensures host.threat.NoThreat? ==> o.Done?
      ensures o.Raised? ==> host.threat.MayFail?
    {
      o := host.Release();
      if o.Done? {
        o := Finish(r, verdict);
      }
    }

    /** Admission may already be open: a committed runtime is never reverted or interrupted. */
    method RecoverCommitted(r: Record) returns (o: Outcome)
      requires Steady() && host.disk.journal == Some(r) && r.phase.Committed?
      modifies host`live, host`past, host`disk, host`service
      ensures Steady()
      ensures host.past == old(host.past).(served := host.past.served, vetted := host.past.vetted)
      ensures SameCode(old(host.live), host.live) && host.service.enabled
      ensures host.disk == old(host.disk).(result := host.disk.result, journal := host.disk.journal)
      ensures host.disk.journal == Some(r) || host.disk.journal.None?
      ensures o.Done? ==> host.disk.journal.None?
      ensures o.Done? ==> host.disk.result == Some((r.run,
                            if r.recovery.Some? then r.recovery.value else Completed(r.operation)))
      ensures o.Done? ==> Up(host.live, host.service)
      ensures host.threat.NoThreat? ==> o.Done?
      ensures o.Raised? ==> host.threat.MayFail?
    {
      o := Done;
      :- host.Health();
      o := Reopen(r, if r.recovery.Some? then r.recovery.value else Completed(r.operation));
    }

    /** Nothing has happened yet but the staging of a payload, so only the record is closed. */
    method RecoverPreparing(r: Record) returns (o: Outcome)
      requires Steady() && host.disk.journal == Some(r) && r.phase.Preparing?
      modifies host`live, host`past, host`disk
      ensures Steady()
      ensures SamePast(old(host.past), host.past) && Drifts(old(host.live), host.live)
      ensures host.disk == old(host.disk).(result := host.disk.result, journal := host.disk.journal)
      ensures host.disk.journal == Some(r) || host.disk.journal.None?
      ensures o.Done? ==> host.disk.journal.None? && host.disk.result == Some((r.run, PrepareFailed))
      ensures host.threat.NoThreat? ==> o.Done?
      ensures o.Raised? ==> host.threat.MayFail?
      ensures host.threat == MayFail(true) ==> o.Raised? && host.disk.journal == Some(r)
    {
      o := Finish(r, PrepareFailed);
    }

    /** The service cannot have been stopped yet, so only the admission holds are undone. */
    method RecoverAdmission(r: Record) returns (o: Outcome)
      requires Steady() && host.disk.journal == Some(r) && r.phase.Admission?
      modifies host`live, host`past, host`disk, host`service
      ensures Steady()
      ensures SamePast(old(host.past), host.past) && SameCode(old(host.live), host.live)
      ensures host.service.enabled == old(host.service.enabled)
      ensures host.disk == old(host.disk).(result := host.disk.result, journal := host.disk.journal)
      ensures host.disk.journal == Some(r) || host.disk.journal.None?
      ensures o.Done? ==> host.disk.journal.None? && host.disk.result == Some((r.run, Deferred))
      ensures o.Done? ==> Up(host.live, host.service.(enabled := true)) && old(host.service.running)
      ensures host.threat.NoThreat? ==>
                && !o.Crashed? && (o.Done? <==> old(host.service.running) && State in old(host.live))
                && (!o.Done? ==> host.disk.journal == Some(r))
      ensures old(host.service.running) && State in old(host.live) && o.Raised? ==> host.threat.MayFail?
    {
      o := host.Release();
      if o.Done? {
        o := Finish(r, Deferred);
      }
    }

    /** A start, and the health check that must pass before anything is committed to it. */
    method Launch() returns (o: Outcome)
      requires Down(host.service) && Held(host.live)
      modifies host`live, host`past, host`service
      ensures host.past == old(host.past).(served := host.past.served,
              starts := host.past.starts, vetted := host.past.vetted)
      ensures SameCode(old(host.live), host.live) && Held(host.live)
      ensures !host.service.accepting && host.service.queueOpen == old(host.service.queueOpen)
      ensures host.past.starts in {old(host.past.starts), old(host.past.starts) + [Unheld(old(host.live))]}
      ensures !Down(host.service) ==> host.past.starts == old(host.past.starts) + [Unheld(old(host.live))]
      ensures !Down(host.service) ==> OnlyService(host.live, host.past.served)
      ensures o.Done? ==> host.service.enabled && host.service.running && host.past.vetted
      ensures host.threat.NoThreat? ==> o.Done?
      ensures o.Raised? ==> host.threat.MayFail?
    {
      o := Done;
      :- host.Start();
      :- host.Health();
      return Done;
    }

    /** Starts the service on the installation found at the stop, and commits to it. */
    method Relaunch(r: Record, verdict: Verdict) returns (o: Outcome)
      requires Steady() && host.disk.journal == Some(r) && r.phase in {Stopping, Restoring}
      requires Down(host.service) && host.live == host.past.prior && Held(host.live)
      modifies this`record, host`live, host`past, host`disk, host`service
      ensures Steady()
      ensures host.past == old(host.past).(served := host.past.served,
              starts := host.past.starts, vetted := host.past.vetted)
      ensures host.disk == if o.Done? then old(host.disk).(journal := Some(Recovered(r, verdict))) else old(host.disk)
      ensures o.Done? ==> host.past.starts == old(host.past.starts) + [Unheld(host.past.prior)]
      ensures host.threat.NoThreat? ==> o.Done?
      ensures o.Raised? ==> host.threat.MayFail?
    {
      o := Done;
      :- Launch();
      :- Phase(r.(recovery := Some(verdict)), Committed);
      return Done;
    }

    static function Recovered(r: Record, verdict: Verdict): Record {
      r.(phase := Committed, recovery := Some(verdict))
    }

    /** The gates were shut and perhaps the service stopped; every path is as it was. */
    method RecoverStopping(r: Record) returns (o: Outcome)
      requires Steady() && host.disk.journal == Some(r) && r.phase.Stopping?
      modifies this`record, host`live, host`past, host`disk, host`service
      ensures Steady()
      ensures host.past.tripped == old(host.past.tripped) && host.past.order == old(host.past.order)
      ensures host.disk == old(host.disk).(result := host.disk.result, journal := host.disk.journal)
      ensures host.disk.journal in {None, Some(r), Some(Recovered(r, Unchanged))}
      ensures host.disk.journal.None? ==> SameCode(host.live, host.past.prior)
      ensures o.Done? ==> host.disk.journal.None? && host.disk.result == Some((r.run, Unchanged))
      ensures o.Done? ==> Up(host.live, host.service)
      ensures o.Done? ==> SameCode(host.live, host.past.prior) && SameCode(host.past.prior, old(host.live))
      ensures o.Done? ==> host.past.starts == [Unheld(host.past.prior)]
      ensures host.threat.NoThreat? ==> o.Done?
      ensures o.Raised? ==> host.threat.MayFail?
    {
      o := Done;
      :- host.Stop();
      host.past := host.past.(prior := host.live, goal := host.live, starts := []);
      :- Relaunch(r, Unchanged);
      o := Reopen(Recovered(r, Unchanged), Unchanged);
    }

    /** Stops the service first: the journal says `Restoring` only while nothing runs. */
    method Retreat(r: Record) returns (o: Outcome)
      requires Steady() && host.disk.journal == Some(r)
      requires r.phase in {BackedUp, Migrating, Starting, Healthy, Restoring}
      modifies this`record, host`live, host`past, host`disk, host`service
      ensures Steady()
      ensures host.past == old(host.past).(served := host.past.served,
              vetted := host.past.vetted, stops := host.past.stops)
      ensures host.disk == if o.Done? then old(host.disk).(journal := Some(record)) else old(host.disk)
      ensures o.Done? ==> record == r.(phase := Restoring) && Down(host.service)
      ensures host.threat.NoThreat? ==> o.Done?
      ensures o.Raised? ==> host.threat.MayFail?
    {
      o := host.Stop();
      if o.Done? {
        ghost var live, disk, past := host.live, host.disk, host.past;
        assert Steady();
        o := Phase(r, Restoring);
        TimeIsSafe(live, host.live, disk, host.service, past, host.past);
        JournalIsSafe(record, live, host.live, disk, host.service, past, host.past);
      }
    }

    /** Restores the snapshot, however often an earlier recovery was interrupted in it. */
    method RecoverRestoring(r: Record) returns (o: Outcome)
      requires Steady() && host.disk.journal == Some(r)
      requires r.phase in {BackedUp, Migrating, Starting, Healthy, Restoring}
      modifies this`record, host`live, host`past, host`disk, host`service
      ensures Steady()
      ensures host.past.tripped == old(host.past.tripped) && host.past.order == old(host.past.order)
      ensures host.past.prior == old(host.past.prior) && host.past.goal == old(host.past.goal)
      ensures host.disk.saved == old(host.disk.saved) && host.disk.previous == old(host.disk.previous)
      ensures !Forward(host.disk.journal) && (host.disk.journal.None? ==> SameCode(host.live, host.past.prior))
      ensures o.Done? ==> host.disk.journal.None? && host.disk.result == Some((r.run, RolledBack))
      ensures o.Done? ==> Up(host.live, host.service) && SameCode(host.live, host.past.prior)
      ensures o.Done? ==> host.past.starts == old(host.past.starts) + [Unheld(host.past.prior)]
      ensures host.threat.NoThreat? ==> o.Done?
      ensures o.Raised? ==> host.threat.MayFail?
    {
      o := Done;
      :- Retreat(r);
      var restoring := record;
      :- Restore(host, restoring.run);
      :- Relaunch(restoring, RolledBack);
      o := Reopen(Recovered(restoring, RolledBack), RolledBack);
    }

    static function Verdict(r: Record): Verdict {
      match r.phase
      case Preparing => PrepareFailed
      case Admission => Deferred
      case Stopping => Unchanged
      case Committed => if r.recovery.Some? then r.recovery.value else Completed(r.operation)
      case _ => RolledBack
    }

    /** Before the stop only the journal, and perhaps the gates, have to be put right. */
    method RecoverEarly(r: Record) returns (o: Outcome)
      requires Steady() && host.disk.journal == Some(r) && r.phase in {Preparing, Admission}
      modifies host`live, host`past, host`disk, host`service
      ensures Steady() && SamePast(old(host.past), host.past) && SameCode(old(host.live), host.live)
      ensures host.disk == old(host.disk).(result := host.disk.result, journal := host.disk.journal)
      ensures host.disk.journal in {None, Some(r)}
      ensures o.Done? ==> host.disk.journal.None? && host.disk.result == Some((r.run, Verdict(r)))
      ensures host.service.enabled == old(host.service.enabled)
      ensures r.phase.Preparing? ==> host.service == old(host.service) && Drifts(old(host.live), host.live)
      ensures o.Done? && r.phase.Admission? ==> Up(host.live, host.service.(enabled := true))
      ensures host.threat.NoThreat? ==>
                && !o.Crashed? && (!o.Done? ==> host.disk.journal == Some(r))
                && (o.Done? <==> r.phase.Preparing? || old(host.service.running && State in host.live))
      ensures o.Raised? && !host.threat.MayFail? ==>
                r.phase.Admission? && !old(host.service.running && State in host.live)
      ensures r.phase.Preparing? && host.threat == MayFail(true) ==> o.Raised? && host.disk.journal == Some(r)
    {
      if r.phase.Preparing? {
        o := RecoverPreparing(r);
      } else {
        o := RecoverAdmission(r);
      }
    }

    /** From the stop on, the service ends up on the prior installation, or on the one committed to. */
    method RecoverLate(r: Record) returns (o: Outcome)
      requires Steady() && host.disk.journal == Some(r) && r.phase !in {Preparing, Admission}
      modifies this`record, host`live, host`past, host`disk, host`service
      ensures Steady()
      ensures host.past.tripped == old(host.past.tripped) && host.past.order == old(host.past.order)
      ensures host.disk.saved == old(host.disk.saved) && host.disk.previous == old(host.disk.previous)
      ensures o.Done? ==> host.disk.journal.None? && host.disk.result == Some((r.run, Verdict(r)))
      ensures o.Done? ==>
                && Up(host.live, host.service)
                && LastStart(host.live, host.past,
                    if r.phase.Committed? then Settled(r, host.past) else host.past.prior)
      ensures r.phase.Committed? ==>
                && host.past == old(host.past).(served := host.past.served, vetted := host.past.vetted)
                && SameCode(old(host.live), host.live) && OnlyService(host.live, host.past.served)
                && host.disk.journal in {None, Some(r)}
      ensures r.phase.Stopping? && o.Done? ==>
                SameCode(old(host.live), host.live) && host.past.starts == [Unheld(host.past.prior)]
      ensures !r.phase.Stopping? ==> host.past.prior == old(host.past.prior) && host.past.goal == old(host.past.goal)
      ensures o.Done? && r.phase !in {Committed, Stopping} ==>
                host.past.starts == old(host.past.starts) + [Unheld(host.past.prior)]
      ensures !Forward(Some(r)) ==> !Forward(host.disk.journal)
      ensures !Forward(Some(r)) && host.disk.journal.None? ==> SameCode(host.past.order.base, host.live)
      ensures host.threat.NoThreat? ==> o.Done?
      ensures o.Raised? ==> host.threat.MayFail?
    {
      if r.phase.Committed? {
        o := RecoverCommitted(r);
      } else if r.phase.Stopping? {
        o := RecoverStopping(r);
      } else {
        o := RecoverRestoring(r);
      }
    }

    /** Replays the journal, whatever invocation left it behind and wherever that one stopped. */
    method Recover() returns (o: Outcome)
      requires Steady()
      modifies this`record, host`live, host`past, host`disk, host`service
      ensures Steady()
      ensures host.past.tripped == old(host.past.tripped) && host.past.order == old(host.past.order)
      ensures host.disk.saved == old(host.disk.saved) && host.disk.previous == old(host.disk.previous)
      ensures old(host.disk.journal).None? ==>
                o.Done? && host.live == old(host.live)
                && host.service == old(host.service) && host.past == old(host.past)
      ensures o.Done? ==> host.disk.journal.None?
      ensures old(host.disk.journal).Some? && o.Done? ==>
                var r := old(host.disk.journal).value;
                host.disk.result == Some((r.run, Verdict(r)))
      ensures old(host.disk.journal).Some? && o.Done? ==>
                match old(host.disk.journal).value.phase
                case Preparing => host.service == old(host.service) && SameCode(old(host.live), host.live)
                case Admission => Up(host.live, host.service.(enabled := true)) && SameCode(old(host.live), host.live)
                case Committed => Up(host.live, host.service) && SameCode(old(host.live), host.live)
                case Stopping => Up(host.live, host.service) && SameCode(old(host.live), host.live)
                                 && host.past.starts == [Unheld(host.past.prior)]
                case _ => Up(host.live, host.service) && SameCode(host.live, old(host.past.prior))
                          && host.past.starts == old(host.past.starts) + [Unheld(old(host.past.prior))]
      ensures old(host.disk.journal).Some? && o.Done?
              && old(host.disk.journal).value.phase !in {Preparing, Admission} ==>
                var r := old(host.disk.journal).value;
                LastStart(host.live, host.past, if r.phase.Committed? then Settled(r, host.past) else host.past.prior)
      // However it ends: a commit is never undone, nor made up, and what is not committed ends unchanged.
      ensures old(host.disk.journal).Some? && old(host.disk.journal).value.phase.Committed? ==>
                && host.past == old(host.past).(served := host.past.served, vetted := host.past.vetted)
                && SameCode(old(host.live), host.live) && OnlyService(host.live, host.past.served)
                && host.disk.journal in {None, old(host.disk.journal)}
      ensures old(host.disk.journal).Some? && !Forward(old(host.disk.journal)) ==>
                && !Forward(host.disk.journal)
                && (host.disk.journal.None? ==> SameCode(host.past.order.base, host.live))
      ensures old(host.disk.journal).Some? && !old(host.disk.journal).value.phase.Stopping? ==>
                host.past.prior == old(host.past.prior) && host.past.goal == old(host.past.goal)
      // Undisturbed: exactly when the journal is cleared with the service up, and when at all.
      ensures host.threat.NoThreat? ==>
                (host.disk.journal.None? && Up(host.live, host.service) <==>
                  match old(host.disk.journal)
                  case None => old(Up(host.live, host.service))
                  case Some(r) =>
                    if r.phase.Preparing? then old(Up(host.live, host.service))
                    else if r.phase.Admission? then
                      old(host.service.enabled && host.service.running && State in host.live)
                    else true)
      ensures host.threat.NoThreat? ==>
                && !o.Crashed? && (!o.Done? ==> host.disk.journal == old(host.disk.journal))
                && (o.Done? <==> !(old(host.disk.journal).Some? && old(host.disk.journal).value.phase.Admission?)
                                 || old(host.service.running && State in host.live))
      ensures host.threat.NoThreat? && !old(host.past.tripped) ==> o.Done? && Up(host.live, host.service)
      ensures o.Raised? && !old(host.past.tripped) ==> host.threat.MayFail?
      ensures o.Raised? && !host.threat.MayFail? ==>
                old(host.disk.journal).Some? && old(host.disk.journal).value.phase.Admission?
                && !old(host.service.running && State in host.live)
      ensures old(host.disk.journal).Some? && old(host.disk.journal).value.phase.Preparing? ==>
                && host.service == old(host.service) && SamePast(old(host.past), host.past)
                && host.disk.journal in {None, old(host.disk.journal)}
                && (host.threat == MayFail(true) ==> o.Raised? && host.disk.journal.Some?)
    {
      if host.disk.journal.None? {
        o := Done;
      } else if host.disk.journal.value.phase in {Preparing, Admission} {
        o := RecoverEarly(host.disk.journal.value);
      } else {
        o := RecoverLate(host.disk.journal.value);
      }
    }

    method WriteStaged(tree: Tree, run: RunId) returns (o: Outcome)
      modifies host`live, host`past, host`disk
      ensures Aged(old(host.live), host.service, old(host.past), host.live, host.past)
      ensures SamePast(old(host.past), host.past)
      ensures host.disk == if o.Done? then old(host.disk).(staged := old(host.disk.staged)[run := tree])
              else old(host.disk)
      ensures host.threat.NoThreat? ==> o.Done?
      ensures o.Raised? ==> host.threat.MayFail?
    {
      o := Done;
      :- host.Elapse();
      host.disk := host.disk.(staged := host.disk.staged[run := tree]);
      return Done;
    }

    method CopyStaged(source: Tree, run: RunId) returns (o: Outcome)
      modifies host`live, host`past, host`disk
      ensures Aged(old(host.live), host.service, old(host.past), host.live, host.past)
      ensures SamePast(old(host.past), host.past)
      ensures host.disk == old(host.disk).(staged := host.disk.staged)
      ensures host.threat.NoThreat? ==> o.Done?
    {
      var part: Tree := *;
      :- WriteStaged(part, run);
      o := WriteStaged(source, run);
    }

    /** A private, root-owned copy of the payload, accepted by the host before anything is closed. */
    method Stage(source: Tree, run: RunId) returns (o: Outcome)
      modifies host`live, host`past, host`disk
      ensures o.Crashed? ==> !host.threat.NoThreat?
      ensures Aged(old(host.live), host.service, old(host.past), host.live, host.past)
      ensures SamePast(old(host.past), host.past)
      ensures host.disk == old(host.disk).(staged := host.disk.staged)
      ensures o.Done? ==> run in host.disk.staged && host.disk.staged[run] == Secured(source)
      ensures o.Done? ==> host.acceptable(Secured(source))
      ensures host.threat.NoThreat? && host.acceptable(Secured(source)) ==> o.Done?
    {
      o := Done;
      :- CopyStaged(source, run);
      :- WriteStaged(Secured(source), run);
      :- host.Elapse();
      if !host.acceptable(host.disk.staged[run]) {
        return Raised;
      }
      return Done;
    }

    method Migrate() returns (o: Outcome)
      requires Down(host.service)
      modifies host`live, host`past
      ensures o.Crashed? ==> !host.threat.NoThreat?
      ensures host.past == old(host.past)
      ensures o.Done? ==> Migrated(old(host.live)) == Some(host.live)
      ensures forall n: Name, path: string :: n != Config || path != "state-version.json" ==>
                FileAt(host.live, n, path) == FileAt(old(host.live), n, path)
      ensures host.threat.NoThreat? && Migrated(old(host.live)).Some? ==> o.Done?
    {
      o := Done;
      :- host.Elapse();
      var version := ReadVersion(host.live);
      if version.None? || !(0 <= version.value <= SCHEMA) {
        return Raised;
      }
      if version.value == 0 {
        :- host.Elapse();
        if Config !in host.live || "." !in host.live[Config].m {
          return Raised;
        }
        var config := host.live[Config];
        var entry := Entry(0x1A4, ROOT, StateVersion(SCHEMA));
        host.live := host.live[Config := Tree(config.m[STATE_VERSION := entry], config.hold)];
        :- host.Elapse();
        entry := entry.(owner := config.m["."].owner, mode := 0x180);
        host.live := host.live[Config := Tree(config.m[STATE_VERSION := entry], config.hold)];
        assert host.live == old(host.live)[Config := Tree(config.m[STATE_VERSION := entry], config.hold)];
      }
      :- host.Elapse();
      return Done;
    }

    method Begin(r: Record) returns (o: Outcome)
      requires Steady() && host.disk.journal.None? && Fresh(r.run) && r.recovery.None?
      requires host.past.tripped || Up(host.live, host.service)
      modifies this`record, host`live, host`past, host`disk
      ensures Steady() && SoundNow(record) && record == r.(phase := Preparing)
      ensures SamePast(old(host.past), host.past) && SameCode(old(host.live), host.live)
      ensures host.disk == if o.Done? then old(host.disk).(journal := Some(record)) else old(host.disk)
      ensures host.threat.NoThreat? ==> o.Done?
    {
      o := Phase(r, Preparing);
    }

    method StagePayload(source: Tree) returns (o: Outcome)
      requires Steady() && host.disk.journal == Some(record) && record.phase.Preparing?
      modifies host`live, host`past, host`disk
      ensures o.Crashed? ==> !host.threat.NoThreat?
      ensures Steady() && SamePast(old(host.past), host.past) && SameCode(old(host.live), host.live)
      ensures host.disk == old(host.disk).(staged := host.disk.staged)
      ensures o.Done? ==> record.run in host.disk.staged && host.disk.staged[record.run] == Secured(source)
      ensures o.Done? ==> host.acceptable(Secured(source))
      ensures host.threat.NoThreat? && host.acceptable(Secured(source)) ==> o.Done?
    {
      o := Stage(source, record.run);
    }

    predicate Accepts(source: Option<Tree>)
      reads host
    {
      source.Some? ==> host.acceptable(Secured(source.value))
    }

    /** Journals the transaction and stages its payload; then shuts the gates. */
    method Announce(r: Record, source: Option<Tree>) returns (o: Outcome)
      requires Steady() && host.disk.journal.None? && Fresh(r.run) && r.recovery.None?
      requires (host.past.tripped || Up(host.live, host.service))
      modifies this`record, host`live, host`past, host`disk, host`service
      ensures o.Crashed? ==> !host.threat.NoThreat?
      ensures Steady() && (o.Raised? ==> SoundNow(record))
      ensures SamePast(old(host.past), host.past) && SameCode(old(host.live), host.live)
      ensures record == r.(phase := record.phase) && record.phase in {Preparing, Admission, Stopping}
      ensures host.disk == old(host.disk).(journal := host.disk.journal, staged := host.disk.staged)
      ensures o.Done? ==> record.phase.Stopping? && host.disk.journal == Some(record)
      ensures o.Done? && source.Some? ==> r.run in host.disk.staged && host.disk.staged[r.run] == Secured(source.value)
      ensures o.Done? && source.Some? ==> host.acceptable(Secured(source.value))
      ensures host.threat.NoThreat? && Accepts(source) && !host.past.tripped ==> o.Done?
    {
      o := Done;
      :- Begin(r);
      if source.Some? {
        :- StagePayload(source.value);
      }
      :- CloseGates();
      return Done;
    }

    /** Up to the journaled intent to stop. */
    method CloseGates() returns (o: Outcome)
      requires Steady() && host.disk.journal == Some(record) && record.phase.Preparing?
      modifies this`record, host`live, host`past, host`disk, host`service
      ensures o.Crashed? ==> !host.threat.NoThreat?
      ensures Steady() && (o.Raised? ==> SoundNow(record))
      ensures SamePast(old(host.past), host.past) && SameCode(old(host.live), host.live)
      ensures record == old(record).(phase := record.phase) && record.phase in {Admission, Stopping}
      ensures host.disk == old(host.disk).(journal := host.disk.journal)
      ensures o.Done? ==> record.phase.Stopping? && host.disk.journal == Some(record)
      ensures host.threat.NoThreat? && !host.past.tripped ==> o.Done?
    {
      ghost var live, disk, past := host.live, host.disk, host.past;
      o := Phase(record, Admission);
      JournalIsSafe(record, live, host.live, disk, host.service, past, host.past);
      if o.Done? {
        o := ShutGates();
      }
    }

    method ShutGates() returns (o: Outcome)
      requires Steady() && host.disk.journal == Some(record) && record.phase.Admission?
      modifies this`record, host`live, host`past, host`disk, host`service
      ensures o.Crashed? ==> !host.threat.NoThreat?
      ensures Steady() && (o.Raised? ==> SoundNow(record))
      ensures SamePast(old(host.past), host.past) && SameCode(old(host.live), host.live)
      ensures record == old(record).(phase := record.phase) && record.phase in {Admission, Stopping}
      ensures host.disk == old(host.disk).(journal := host.disk.journal)
      ensures o.Done? ==> record.phase.Stopping? && host.disk.journal == Some(record)
      ensures host.threat.NoThreat? && !host.past.tripped ==> o.Done?
    {
      o := host.CloseAdmission();
      if o.Done? {
        o := Phase(record, Stopping);
      }
    }

    method StopForSnapshot() returns (o: Outcome)
      requires Steady() && host.disk.journal == Some(record) && record.phase.Stopping?
      modifies host`live, host`past, host`service
      ensures Steady()
      ensures SameCode(old(host.live), host.live)
      ensures host.past.tripped == old(host.past.tripped) && host.past.order == old(host.past.order)
      ensures o.Done? ==> Down(host.service) && host.live == host.past.prior && host.past.starts == []
      ensures o.Done? ==> host.past.goal == Meant(host.past.order, host.past.prior)
      ensures host.threat.NoThreat? ==> o.Done?
    {
      o := Done;
      :- host.Stop();
      host.past := host.past.(prior := host.live, goal := Meant(host.past.order, host.live), starts := []);
      return Done;
    }

    /** Keeps what the stopped service left behind. */
    method Capture() returns (o: Outcome)
      requires Steady() && host.disk.journal == Some(record) && record.phase.Stopping?
      requires Down(host.service) && host.live == host.past.prior
      requires host.past.goal == Meant(host.past.order, host.past.prior) && Stocked(record, host.disk, host.past.order)
      requires record.run in host.disk.runs && record.run !in host.disk.saved
      modifies this`record, host`live, host`past, host`disk
      ensures o.Crashed? ==> !host.threat.NoThreat?
      ensures Steady() && (o.Raised? ==> SoundNow(record))
      ensures host.live == old(host.live) && host.past == old(host.past)
      ensures record == old(record).(phase := record.phase) && record.phase in {Stopping, BackedUp}
      ensures host.disk == old(host.disk).(journal := host.disk.journal, saved := host.disk.saved)
      ensures OthersKept(old(host.disk.saved), host.disk.saved, record.run)
      ensures o.Done? ==> record.phase.BackedUp? && host.disk.journal == Some(record)
      ensures host.threat.NoThreat? && Plist in host.live ==> o.Done?
    {
      o := Retain();
      if o.Done? {
        ghost var live, disk, past := host.live, host.disk, host.past;
        o := Phase(record, BackedUp);
        JournalIsSafe(record, live, host.live, disk, host.service, past, host.past);
      }
    }

    /** The snapshot itself. */
    method Retain() returns (o: Outcome)
      requires Steady() && host.disk.journal == Some(record) && record.phase.Stopping?
      requires Down(host.service) && host.live == host.past.prior
      requires record.run in host.disk.runs && record.run !in host.disk.saved
      modifies host`live, host`past, host`disk
      ensures o.Crashed? ==> !host.threat.NoThreat?
      ensures Steady() && host.live == old(host.live) && host.past == old(host.past)
      ensures host.disk == old(host.disk).(saved := host.disk.saved)
      ensures OthersKept(old(host.disk.saved), host.disk.saved, record.run)
      ensures o.Done? ==> Keeps(host.disk, record.run, host.past.prior)
      ensures host.threat.NoThreat? && Plist in host.live ==> o.Done?
    {
      o := TakeSnapshot(host, record.run);
      SavingIsSafe(host.live, old(host.disk), host.disk.saved, record.run, host.service, host.past);
    }

    /** Everything before the first live path changes. */
    method BackUp(r: Record, source: Option<Tree>, rollback: Option<RunId>) returns (o: Outcome)
      requires Asked(source, rollback) && (r.operation.Update? <==> source.Some?)
      requires Steady() && host.disk.journal.None? && Fresh(r.run) && (host.past.tripped || Up(host.live, host.service))
      requires r.run in host.disk.runs && r.run !in host.disk.saved && r.recovery.None?
      modifies this`record, host`live, host`past, host`disk, host`service
      ensures o.Crashed? ==> !host.threat.NoThreat?
      ensures Steady() && (o.Raised? ==> SoundNow(record))
      ensures host.past.tripped == old(host.past.tripped) && host.past.order == old(host.past.order)
      ensures record == r.(phase := record.phase)
      ensures SameCode(old(host.live), host.live) && record.phase in {Preparing, Admission, Stopping, BackedUp}
      ensures record.phase.BackedUp? ==> host.live == host.past.prior
      ensures host.disk.previous == old(host.disk.previous)
      ensures OthersKept(old(host.disk.saved), host.disk.saved, r.run)
      ensures o.Done? ==> record.phase.BackedUp? && host.disk.journal == Some(record)
      ensures o.Done? ==> host.past.starts == []
      ensures o.Done? ==> host.past.goal == Meant(host.past.order, host.past.prior)
      ensures o.Done? && source.Some? ==> r.run in host.disk.staged && host.disk.staged[r.run] == Secured(source.value)
      ensures o.Done? && source.Some? ==> host.acceptable(Secured(source.value))
      ensures host.threat.NoThreat? && Accepts(source) && !host.past.tripped && Plist in old(host.live) ==> o.Done?
    {
      o := Done;
      :- Announce(r, source);
      :- StopForSnapshot();
      :- Capture();
      return Done;
    }

    /** Replaces the payload and the launchd job, and migrates the state they will run on. */
    method ActivatePayload(payload: Tree) returns (o: Outcome)
      requires Steady() && host.disk.journal == Some(record) && record.phase.BackedUp?
      modifies this`record, host`live, host`past, host`disk
      ensures o.Crashed? ==> !host.threat.NoThreat?
      ensures Steady() && (o.Raised? ==> SoundNow(record)) && host.past == old(host.past)
      ensures record == old(record).(phase := record.phase) && record.phase in {BackedUp, Migrating}
      ensures host.disk ==
              old(host.disk).(journal := host.disk.journal, spare := host.disk.spare, parked := host.disk.parked)
      ensures o.Done? ==> record.phase.Migrating? && host.disk.journal == Some(record)
      ensures o.Done? ==> Activated(old(host.live), payload) == Some(host.live)
      ensures host.threat.NoThreat? && Activated(old(host.live), payload).Some? ==> o.Done?
    {
      o := PutPayload(payload);
      if o.Done? {
        o := Phase(record, Migrating);
        if o.Done? {
          o := Migrate();
          StoppedIsSafe(record, old(host.live), host.live, host.disk, host.service, host.past);
        }
      }
    }

    /** The payload and its launchd job, one path after the other. */
    method PutPayload(payload: Tree) returns (o: Outcome)
      requires Steady() && host.disk.journal == Some(record) && record.phase.BackedUp?
      modifies host`live, host`past, host`disk
      ensures o.Crashed? ==> !host.threat.NoThreat?
      ensures Steady() && host.past == old(host.past)
      ensures host.disk == old(host.disk).(spare := host.disk.spare, parked := host.disk.parked)
      ensures o.Done? ==>
                var plist := Member(payload, SERVICE_PLIST);
                plist.Some? && host.live == old(host.live)[Payload := payload][Plist := plist.value]
      ensures host.threat.NoThreat? && Member(payload, SERVICE_PLIST).Some? ==> o.Done?
    {
      ghost var before := host.live;
      o := Replace(host, Some(payload), Payload);
      if o.Done? {
        o := Replace(host, if Payload in host.live then Member(host.live[Payload], SERVICE_PLIST) else None, Plist);
        if o.Done? {
          assert host.live == before[Payload := payload][Plist := Member(payload, SERVICE_PLIST).value];
        }
      }
    }

    /** The start itself, and the record that it went well. */
    method RunGoal() returns (o: Outcome)
      requires Steady() && host.disk.journal == Some(record) && record.phase.Starting? && record.recovery.None?
      requires host.live == host.past.goal && Held(host.live) && Down(host.service)
      modifies this`record, host`live, host`past, host`disk, host`service
      ensures Steady() && (o.Raised? ==> SoundNow(record))
      ensures record == old(record).(phase := record.phase)
      ensures host.past == old(host.past).(served := host.past.served,
              starts := host.past.starts, vetted := host.past.vetted)
      ensures host.disk == old(host.disk).(journal := host.disk.journal)
      ensures o.Done? ==> host.disk.journal == Some(record) && record.phase.Healthy?
      ensures o.Done? ==> host.service.enabled && host.service.running && host.past.vetted
      ensures host.threat.NoThreat? ==> o.Done?
    {
      o := Launch();
      if o.Done? {
        o := Phase(record, Healthy);
      }
    }

    /** Starts the finished installation, held, and checks its health. */
    method GoLive() returns (o: Outcome)
      requires Steady() && host.disk.journal == Some(record) && record.phase in {BackedUp, Migrating}
      requires host.live == host.past.goal && Held(host.live)
      requires record.recovery.None? && Fulfils(host.past.order, host.past.prior, host.past.goal)
      modifies this`record, host`live, host`past, host`disk, host`service
      ensures Steady() && (o.Raised? ==> SoundNow(record))
      ensures record == old(record).(phase := record.phase)
      ensures host.past == old(host.past).(served := host.past.served,
              starts := host.past.starts, vetted := host.past.vetted)
      ensures host.disk == old(host.disk).(journal := host.disk.journal)
      ensures o.Done? ==> host.disk.journal == Some(record) && record.phase.Healthy?
      ensures o.Done? ==> host.service.enabled && host.service.running && host.past.vetted
      ensures host.threat.NoThreat? ==> o.Done?
    {
      ghost var live, disk, past := host.live, host.disk, host.past;
      o := Phase(record, Starting);
      JournalIsSafe(record, live, host.live, disk, host.service, past, host.past);
      if o.Done? {
        o := RunGoal();
      }
    }

    /** The pointer to the way back is durable before the transaction commits. */
    method Seal() returns (o: Outcome)
      requires Steady() && host.disk.journal == Some(record) && record.phase.Healthy? && record.recovery.None?
      requires host.service.enabled && host.service.running && host.past.vetted
      modifies this`record, host`live, host`past, host`disk
      ensures Steady() && (o.Raised? ==> SoundNow(record))
      ensures record == old(record).(phase := record.phase)
      ensures SamePast(old(host.past), host.past)
      ensures host.disk == old(host.disk).(journal := host.disk.journal, previous := host.disk.previous)
      ensures host.disk.previous in {old(host.disk.previous), Some(record.run)}
      ensures o.Done? ==> host.disk.journal == Some(record) && record.phase.Committed?
      ensures host.threat.NoThreat? ==> o.Done?
    {
      o := Point();
      if o.Done? {
        ghost var live, disk, past := host.live, host.disk, host.past;
        o := Phase(record, Committed);
        JournalIsSafe(record, live, host.live, disk, host.service, past, host.past);
      }
    }

    /** The pointer itself. */
    method Point() returns (o: Outcome)
      requires Steady() && host.disk.journal == Some(record) && record.phase.Healthy?
      modifies host`live, host`past, host`disk
      ensures Steady() && SamePast(old(host.past), host.past)
      ensures host.disk == if o.Done? then old(host.disk).(previous := Some(record.run)) else old(host.disk)
      ensures host.threat.NoThreat? ==> o.Done?
    {
      ghost var live, past := host.live, host.past;
      o := host.Elapse();
      TimeIsSafe(live, host.live, host.disk, host.service, past, host.past);
      if o.Done? {
        host.disk := host.disk.(previous := Some(record.run));
      }
    }

    /** What the order asks for is at hand: the payload staged, or the snapshot verifying. */
    ghost predicate Provided(rollback: Option<RunId>)
      reads this, host
    {
      var order := host.past.order;
      match rollback
      case None => order.source.Some? && record.run in host.disk.staged
        && host.disk.staged[record.run] == Secured(order.source.value)
      case Some(run) => order.source.None? && Retained(host.disk, run) && host.disk.saved[run].contents == order.target
    }

    /** Puts the goal in place. */
    method Activate(rollback: Option<RunId>) returns (o: Outcome)
      requires Steady() && host.disk.journal == Some(record) && record.phase.BackedUp?
      requires host.live == host.past.prior && host.past.goal == Meant(host.past.order, host.past.prior)
      requires Provided(rollback)
      modifies this`record, host`live, host`past, host`disk
      ensures o.Crashed? ==> !host.threat.NoThreat?
      ensures Steady() && (o.Raised? ==> SoundNow(record)) && host.past == old(host.past)
      ensures record == old(record).(phase := record.phase) && record.phase in {BackedUp, Migrating}
      ensures host.disk ==
              old(host.disk).(journal := host.disk.journal, spare := host.disk.spare, parked := host.disk.parked)
      ensures o.Done? ==> host.disk.journal == Some(record)
      ensures o.Done? ==> host.live == host.past.goal && Held(host.live)
      ensures o.Done? ==> Fulfils(host.past.order, host.past.prior, host.past.goal)
      ensures host.threat.NoThreat? ==> (o.Done? <==> Feasible(host.past.order, host.past.prior))
    {
      if rollback.None? {
        :- ActivatePayload(host.disk.staged[record.run]);
        ActivationKeepsTheHold(host.past.prior, host.disk.staged[record.run]);
      } else {
        :- Restore(host, rollback.value);
      }
      return Done;
    }

    /** The order is for this payload, or for the snapshot to roll back to. */
    ghost predicate Asked(source: Option<Tree>, rollback: Option<RunId>)
      reads host
    {
      && host.past.order.source == source && host.past.order.from == rollback && (source.Some? <==> rollback.None?)
      && (rollback.Some? ==>
            && Retained(host.disk, rollback.value)
            && host.disk.saved[rollback.value].contents == host.past.order.target)
    }

    /** Everything up to the finished, still stopped, replacement. */
    method Exchange(r: Record, source: Option<Tree>, rollback: Option<RunId>) returns (o: Outcome)
      requires Steady() && host.disk.journal.None? && Fresh(r.run) && (host.past.tripped || Up(host.live, host.service))
      requires r.run in host.disk.runs && r.run !in host.disk.saved && r.recovery.None?
      requires Asked(source, rollback) && (r.operation.Update? <==> source.Some?)
      modifies this`record, host`live, host`past, host`disk, host`service
      ensures o.Crashed? ==> !host.threat.NoThreat?
      ensures Steady() && (o.Raised? ==> SoundNow(record))
      ensures host.past.tripped == old(host.past.tripped) && host.past.order == old(host.past.order)
      ensures record == r.(phase := record.phase)
      ensures OthersKept(old(host.disk.saved), host.disk.saved, r.run)
      ensures host.disk.previous == old(host.disk.previous)
      ensures o.Done? ==> record.phase in {BackedUp, Migrating} && host.disk.journal == Some(record)
      ensures o.Done? ==> host.live == host.past.goal && Held(host.live) && host.past.starts == []
      ensures o.Done? ==> SameCode(old(host.live), host.past.prior) && Keeps(host.disk, r.run, host.past.prior)
      ensures o.Done? ==> Fulfils(host.past.order, host.past.prior, host.past.goal)
      ensures o.Done? && source.Some? ==> host.acceptable(Secured(source.value))
      ensures host.threat.NoThreat? && Accepts(source) && !host.past.tripped && Plist in old(host.live) ==>
                && (o.Done? <==> Feasible(host.past.order, host.past.prior))
                && record.phase in {BackedUp, Migrating}
    {
      o := Done;
      :- BackUp(r, source, rollback);
      o := Activate(rollback);
    }

    /** The start on the goal, the commit, and the reopening. */
    method Settle(verdict: Verdict) returns (o: Outcome)
      requires Steady() && host.disk.journal == Some(record) && record.phase in {BackedUp, Migrating}
      requires host.live == host.past.goal && Held(host.live) && host.past.starts == [] && record.recovery.None?
      requires Fulfils(host.past.order, host.past.prior, host.past.goal)
      modifies this`record, host`live, host`past, host`disk, host`service
      ensures Steady() && (o.Raised? ==> SoundNow(record))
      ensures host.past == old(host.past).(served := host.past.served,
              starts := host.past.starts, vetted := host.past.vetted)
      ensures record == old(record).(phase := record.phase)
      ensures host.disk.saved == old(host.disk.saved)
      ensures host.disk.previous in {old(host.disk.previous), Some(record.run)}
      ensures o.Done? ==> host.disk.previous == Some(record.run)
      ensures o.Done? ==> host.disk.journal.None? && host.disk.result == Some((record.run, verdict))
      ensures o.Done? ==> Up(host.live, host.service) && SameCode(host.live, host.past.goal)
      ensures o.Done? ==> |host.past.starts| > 0 && host.past.starts[|host.past.starts| - 1] == Unheld(host.past.goal)
      ensures host.threat.NoThreat? ==> o.Done?
    {
      o := Done;
      :- GoLive();
      :- Seal();
      o := Reopen(record, verdict);
    }

    /** Fail closed: whatever a failed recovery left running is stopped, unless it has committed. */
    method Abandon() returns (o: Outcome)
      requires Steady()
      modifies host`live, host`past, host`service
      ensures Steady()
      ensures host.disk.journal.None? || host.disk.journal.value.phase.Committed? ==>
                o.Done? && host.live == old(host.live)
                && host.service == old(host.service) && host.past == old(host.past)
      ensures host.disk.journal.Some? && !host.disk.journal.value.phase.Committed? && o.Done? ==> Down(host.service)
      ensures !(host.disk.journal.Some? && host.disk.journal.value.phase in {Preparing, Admission}) ==>
                host.past.tripped == old(host.past.tripped)
      ensures host.past.order == old(host.past.order) && host.past.prior == old(host.past.prior)
      ensures SameCode(old(host.live), host.live) && (host.threat.NoThreat? ==> o.Done?)
    {
      if host.disk.journal.Some? && !host.disk.journal.value.phase.Committed? {
        if host.disk.journal.value.phase in {Preparing, Admission} {
          host.past := host.past.(tripped := true);
        }
        :- host.Stop();
      }
      return Done;
    }

    /** The phase that failed goes on record; the journal may so catch up with the code. */
    method MarkFailed() returns (o: Outcome)
      requires Steady() && SoundNow(record)
      modifies this`record, host`live, host`past, host`disk
      ensures Steady() && SamePast(old(host.past), host.past) && SameCode(old(host.live), host.live)
      ensures record == old(record).(failedPhase := Some(old(record).phase))
      ensures host.disk == if o.Done? then old(host.disk).(journal := Some(record)) else old(host.disk)
      ensures host.threat.NoThreat? ==> o.Done?
      ensures o.Raised? ==> host.threat.MayFail?
    {
      ghost var live, disk, past := host.live, host.disk, host.past;
      o := Phase(record.(failedPhase := Some(record.phase)), record.phase);
      JournalIsSafe(record, live, host.live, disk, host.service, past, host.past);
      TimeIsSafe(live, host.live, disk, host.service, past, host.past);
    }

    /** What follows an error inside a transaction: recover at once, and fail closed if that fails too. */
    method Fallback() returns (o: Outcome)
      requires Steady() && SoundNow(record)
      modifies this`record, host`live, host`past, host`disk, host`service
      ensures Steady() && !o.Done?
      ensures !host.threat.MayFail? && !old(host.past.tripped) ==> !host.past.tripped
      ensures host.disk.saved == old(host.disk.saved)
      ensures host.threat.NoThreat? && !old(host.past.tripped) ==>
                host.disk.journal.None? && Up(host.live, host.service)
      ensures host.past.order == old(host.past.order)
      ensures old(record.phase) !in {Preparing, Admission, Stopping} ==> host.past.prior == old(host.past.prior)
      ensures old(record.phase).Committed? ==>
                && host.past == old(host.past).(served := host.past.served, vetted := host.past.vetted)
                && SameCode(old(host.live), host.live)
      ensures host.threat.NoThreat? && !old(host.past.tripped) && !old(record.phase).Committed? ==>
                SameCode(host.past.order.base, host.live)
      ensures host.threat.NoThreat? ==> host.disk.journal.None? || Down(host.service)
    {
      o := Done;
      :- MarkFailed();
      var recovered := Recover();
      if recovered.Raised? {
        :- Abandon();
      }
      return if recovered.Crashed? then Crashed else Raised;
    }

    /** The transaction itself, as far as it goes. */
    method Attempt(r: Record, source: Option<Tree>, rollback: Option<RunId>) returns (o: Outcome)
      requires Steady() && host.disk.journal.None? && Fresh(r.run) && (host.past.tripped || Up(host.live, host.service))
      requires r.run in host.disk.runs && r.run !in host.disk.saved && r.recovery.None?
      requires Asked(source, rollback) && (r.operation.Update? <==> source.Some?)
      modifies this`record, host`live, host`past, host`disk, host`service
      ensures Steady() && (o.Raised? ==> SoundNow(record))
      ensures host.past.tripped == old(host.past.tripped) && host.past.order == old(host.past.order)
      ensures record == r.(phase := record.phase)
      ensures OthersKept(old(host.disk.saved), host.disk.saved, r.run)
      ensures o.Done? ==> host.disk.journal.None? && host.disk.previous == Some(r.run)
      ensures o.Done? ==> host.disk.result == Some((r.run, if rollback.Some? then RolledBack else Updated))
      ensures o.Done? ==> Up(host.live, host.service) && SameCode(host.live, host.past.goal)
      ensures o.Done? ==> LastStart(host.live, host.past, host.past.goal)
      ensures o.Done? ==> SameCode(old(host.live), host.past.prior) && Keeps(host.disk, r.run, host.past.prior)
      ensures o.Done? ==> Fulfils(host.past.order, host.past.prior, host.past.goal)
      ensures o.Done? && source.Some? ==> host.acceptable(Secured(source.value))
      ensures host.threat.NoThreat? ==> !o.Crashed? && (o.Raised? ==> !record.phase.Committed?)
      ensures host.threat.NoThreat? && Accepts(source) && !host.past.tripped && Plist in old(host.live) ==>
                && (o.Done? <==> Feasible(host.past.order, host.past.prior))
                && (o.Raised? ==> record.phase in {BackedUp, Migrating})
    {
      o := Exchange(r, source, rollback);
      if o.Done? {
        o := Settle(if rollback.Some? then RolledBack else Updated);
      }
    }

    /** An error leads back at once. */
    method Transact(r: Record, source: Option<Tree>, rollback: Option<RunId>) returns (o: Outcome)
      requires Steady() && host.disk.journal.None? && Fresh(r.run) && (host.past.tripped || Up(host.live, host.service))
      requires r.run in host.disk.runs && r.run !in host.disk.saved && r.recovery.None?
      requires Asked(source, rollback) && (r.operation.Update? <==> source.Some?)
      modifies this`record, host`live, host`past, host`disk, host`service
      ensures Steady()
      ensures !host.threat.MayFail? && !old(host.past.tripped) ==> !host.past.tripped
      ensures OthersKept(old(host.disk.saved), host.disk.saved, r.run)
      ensures o.Done? ==> host.disk.journal.None? && host.disk.previous == Some(r.run)
      ensures o.Done? ==> host.disk.result == Some((r.run, if rollback.Some? then RolledBack else Updated))
      ensures o.Done? ==> Up(host.live, host.service) && SameCode(host.live, host.past.goal)
      ensures o.Done? ==> LastStart(host.live, host.past, host.past.goal)
      ensures o.Done? ==> SameCode(old(host.live), host.past.prior) && Keeps(host.disk, r.run, host.past.prior)
      ensures o.Done? ==> Fulfils(host.past.order, host.past.prior, host.past.goal)
      ensures o.Done? && source.Some? ==> host.acceptable(Secured(source.value))
      ensures host.past.order == old(host.past.order)
      ensures host.threat.NoThreat? && !old(host.past.tripped) ==>
                host.disk.journal.None? && Up(host.live, host.service)
      ensures host.threat.NoThreat? && !old(host.past.tripped) && !o.Done? ==> SameCode(old(host.live), host.live)
      ensures host.threat.NoThreat? && Accepts(source) && !old(host.past.tripped) && Plist in old(host.live) ==>
                (o.Done? <==> Feasible(host.past.order, host.past.prior))
    {
      o := Attempt(r, source, rollback);
      if o.Raised? {
        o := Fallback();
      }
    }

    /** A later invocation finishes what the journal says, or leaves the service stopped. */
    method Resume() returns (o: Outcome)
      requires Steady() && host.disk.journal.Some?
      modifies this`record, host`live, host`past, host`disk, host`service
      ensures Steady()
      ensures !host.threat.MayFail? && !old(host.past.tripped) ==> !host.past.tripped
      ensures host.disk.saved == old(host.disk.saved) && host.past.order == old(host.past.order)
      ensures host.threat.NoThreat? && !old(host.past.tripped) ==> o.Done?
      ensures host.threat.NoThreat? && !o.Done? ==> Down(host.service)
      ensures o.Done? ==> host.disk.journal.None? && (Up(host.live, host.service) || old(host.past.tripped))
      ensures !Forward(old(host.disk.journal)) ==>
                && !Forward(host.disk.journal)
                && (host.disk.journal.None? ==> SameCode(host.past.order.base, host.live))
      ensures old(host.disk.journal).value.phase.Committed? ==>
                && host.past == old(host.past).(served := host.past.served, vetted := host.past.vetted)
                && SameCode(old(host.live), host.live) && host.disk.journal in {None, old(host.disk.journal)}
    {
      o := Recover();
      if o.Raised? {
        :- Abandon();
        return Raised;
      }
    }

    /** Picks the snapshot to roll back to, if that is asked for. */
    method Locate(source: Option<Tree>) returns (o: Outcome, rollback: Option<RunId>)
      requires Steady() && host.disk.journal.None?
      modifies host`live, host`past
      ensures Steady() && SamePast(old(host.past), host.past) && Drifts(old(host.live), host.live)
      ensures o.Done? ==> rollback == if source.None? then host.disk.previous else None
      ensures o.Done? && source.None? ==> rollback.Some?
      ensures o.Crashed? ==> !host.threat.NoThreat?
      ensures host.threat.NoThreat? && (source.Some? || host.disk.previous.Some?) ==> o.Done?
    {
      o, rollback := Done, None;
      if source.None? {
        ghost var live, past := host.live, host.past;
        o := host.Elapse();
        TimeIsSafe(live, host.live, host.disk, host.service, past, host.past);
        if o.Done? {
          rollback := host.disk.previous;
          if rollback.None? || !Retained(host.disk, rollback.value) {
            o := Raised;
          }
        }
      }
    }

    /** Makes the directory of the run; its name is not in use. */
    method MakeRun(run: RunId) returns (o: Outcome)
      requires Steady() && host.disk.journal.None?
      modifies host`live, host`past, host`disk
      ensures Steady() && SamePast(old(host.past), host.past) && Drifts(old(host.live), host.live)
      ensures host.disk == if o.Done? then old(host.disk).(runs := old(host.disk).runs + {run}) else old(host.disk)
      ensures o.Done? ==> run !in old(host.disk).runs
      ensures o.Crashed? ==> !host.threat.NoThreat?
      ensures host.threat.NoThreat? && run !in old(host.disk).runs ==> o.Done?
    {
      ghost var live, past := host.live, host.past;
      o := host.Elapse();
      TimeIsSafe(live, host.live, host.disk, host.service, past, host.past);
      if o.Done? {
        if run in host.disk.runs {
          o := Raised;
        } else {
          host.disk := host.disk.(runs := host.disk.runs + {run});
        }
      }
    }

    method Reserve(source: Option<Tree>, run: RunId) returns (o: Outcome, rollback: Option<RunId>)
      requires Steady() && host.disk.journal.None?
      modifies host`live, host`past, host`disk
      ensures Steady() && SamePast(old(host.past), host.past) && Drifts(old(host.live), host.live)
      ensures host.disk == if o.Done? then old(host.disk).(runs := old(host.disk).runs + {run}) else old(host.disk)
      ensures o.Done? ==> run !in old(host.disk).runs
      ensures o.Done? ==> rollback == if source.None? then host.disk.previous else None
      ensures o.Done? && source.None? ==> rollback.Some?
      ensures o.Crashed? ==> !host.threat.NoThreat?
      ensures (host.threat.NoThreat? && run !in old(host.disk).runs
               && (source.Some? || old(host.disk).previous.Some?)) ==> o.Done?
    {
      o, rollback := Locate(source);
      if o.Done? {
        o := MakeRun(run);
      }
    }

    /** What the command asks for, on the installation as it is. */
    ghost function Ordered(source: Option<Tree>, run: RunId, rollback: Option<RunId>): Order
      reads host
    {
      Order(run, host.live, host.past.stops, source, rollback,
            if rollback.Some? && rollback.value in host.disk.saved
              then host.disk.saved[rollback.value].contents else host.live)
    }

    method Inspect() returns (o: Outcome)
      requires Steady() && host.disk.journal.None?
      modifies host`live, host`past
      ensures Steady() && SamePast(old(host.past), host.past) && Drifts(old(host.live), host.live)
      ensures o.Done? ==> host.service.running && host.service.accepting && host.service.queueOpen
      ensures old(Up(host.live, host.service)) && host.threat.NoThreat? ==> o.Done?
    {
      ghost var live, past := host.live, host.past;
      o := host.Preflight();
      TimeIsSafe(live, host.live, host.disk, host.service, past, host.past);
    }

    /** Everything that is looked at before the order is taken; a refusal changes nothing. */
    method Admit(source: Option<Tree>, run: RunId) returns (o: Outcome, rollback: Option<RunId>)
      requires Steady() && host.disk.journal.None?
      modifies host`live, host`past, host`disk
      ensures Steady() && Drifts(old(host.live), host.live)
      ensures host.disk == if o.Done? then old(host.disk).(runs := old(host.disk).runs + {run}) else old(host.disk)
      ensures host.past.tripped ==> old(host.past.tripped)
      ensures !o.Done? ==> SamePast(old(host.past), host.past)
      ensures o.Done? ==> Fresh(run) && Asked(source, rollback) && (host.past.tripped || Up(host.live, host.service))
      ensures o.Done? ==>
                && run !in old(host.disk).runs
                && Given(old(host.live), old(host.disk), old(host.past.stops), source, run, host.past.order)
      ensures o.Done? ==> host.service.running && host.service.accepting && host.service.queueOpen
      ensures (host.threat.NoThreat? && old(Up(host.live, host.service)) && run !in old(host.disk).runs
               && (source.Some? || old(host.disk).previous.Some?)) ==> o.Done?
    {
      rollback := None;
      o := Inspect();
      if o.Done? {
        o, rollback := Reserve(source, run);
      }
      if o.Done? {
        Take(source, run, rollback, old(host.live), old(host.disk));
      }
    }

    /** A new order is given on the installation as it is now. */
    ghost method Take(source: Option<Tree>, run: RunId, rollback: Option<RunId>, live: Install, disk: Disk)
      requires Steady() && host.disk.journal.None? && SameCode(live, host.live) && host.disk.saved == disk.saved
      requires rollback == (if source.None? then disk.previous else None) && (source.Some? <==> rollback.None?)
      requires rollback.Some? ==> Retained(host.disk, rollback.value)
      modifies host`past
      ensures Steady() && Fresh(run) && Asked(source, rollback)
      ensures Given(live, disk, host.past.stops, source, run, host.past.order)
      ensures host.past.tripped == (old(host.past.tripped) && !Up(host.live, host.service))
      ensures host.past.stops == old(host.past.stops)
    {
      host.past := host.past.(order := Ordered(source, run, rollback),
        tripped := host.past.tripped && !Up(host.live, host.service));
    }

    /** One run of the administrator's command. A pending journal is recovered, and nothing else is begun. */
    method Execute(source: Option<Tree>, run: RunId) returns (o: Outcome)
      requires Steady()
      modifies this`record, host`live, host`past, host`disk, host`service
      ensures Steady()
      ensures !host.threat.MayFail? && !old(host.past.tripped) ==> !host.past.tripped
      ensures forall r :: r in old(host.disk.saved) ==>
                r in host.disk.saved && host.disk.saved[r] == old(host.disk.saved)[r]
      ensures host.threat.NoThreat? && !old(host.past.tripped) ==>
                host.disk.journal.None? && Up(host.live, host.service)
      ensures o.Done? ==> host.disk.journal.None?
      ensures old(host.disk.journal.None? && !(host.service.running && host.service.accepting
                  && host.service.queueOpen)) ==>
                !o.Done? && host.disk == old(host.disk)
                && host.service == old(host.service) && Drifts(old(host.live), host.live)
      // However it ends, the last order is the one before or, if anything was begun, exactly this one.
      ensures old(host.disk.journal).Some? ==> host.past.order == old(host.past.order)
      ensures old(host.disk.journal).Some? && !Forward(old(host.disk.journal)) ==>
                && !Forward(host.disk.journal)
                && (host.disk.journal.None? ==> SameCode(host.past.order.base, host.live))
      ensures old(host.disk.journal).None? ==>
                Given(old(host.live), old(host.disk), old(host.past.stops), source, run, host.past.order)
                || (!o.Done? && SamePast(old(host.past), host.past) && host.disk.journal.None?
                    && host.service == old(host.service) && Drifts(old(host.live), host.live))
      ensures old(host.disk.journal).None? ==>
                SameCode(old(host.live), host.live) || SameCode(old(host.live), host.past.prior)
      ensures old(host.disk.journal).None? && o.Done? ==>
                && Up(host.live, host.service) && SameCode(host.live, host.past.goal)
                && LastStart(host.live, host.past, host.past.goal)
                && SameCode(old(host.live), host.past.prior)
                && Fulfils(host.past.order, host.past.prior, host.past.goal)
                && host.disk.previous == Some(run) && Keeps(host.disk, run, host.past.prior)
                && host.disk.result == Some((run, if source.Some? then Updated else RolledBack))
                && (source.Some? ==> host.acceptable(Secured(source.value)))
      ensures host.threat.NoThreat? && !old(host.past.tripped) && old(host.disk.journal).None? && !o.Done? ==>
                SameCode(old(host.live), host.live)
      // Undisturbed, an update or rollback that can be carried out is, and only such a one.
      ensures (host.threat.NoThreat? && !old(host.past.tripped) && old(host.disk.journal).None?
               && (source.None? ==> old(host.disk.previous).Some?) && Accepts(source)
               && run !in old(host.disk.runs) && Plist in old(host.live)) ==>
                (o.Done? <==> Feasible(host.past.order, host.past.prior))
    {
      if host.disk.journal.Some? {
        o := Resume();
      } else {
        var rollback;
        o, rollback := Admit(source, run);
        if o.Done? {
          var operation := if source.None? then Rollback else Update;
          o := Transact(Record(run, operation, Preparing, None, None), source, rollback);
        }
      }
    }
  }

  /** The order is what this command asked for: on the program of `live`, an update to this payload or a
      rollback to the snapshot that `disk` named then. */
  ghost predicate Given(live: Install, disk: Disk, stops: nat, source: Option<Tree>, run: RunId, order: Order) {
    && order.run == run && order.stops == stops && order.source == source && SameCode(live, order.base)
    && (source.None? ==> disk.previous.Some? && order.from == disk.previous && disk.previous.value in disk.saved
                         && order.target == disk.saved[disk.previous.value].contents)
  }
}
