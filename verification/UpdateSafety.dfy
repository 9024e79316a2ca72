/** What must hold of the machine at every instant of an update, a rollback or a recovery. */
module UpdateSafety {
  import opened Outcomes
  import opened UpdateState

  /** The snapshot of `run` is complete, verifies, and is the installation found at the stop. */
  ghost predicate Keeps(disk: Disk, run: RunId, prior: Install) {
    Retained(disk, run) && disk.saved[run].contents == prior
  }

  /** The journal has committed to the new installation. */
  predicate Forward(journal: Option<Record>) {
    journal.Some? && journal.value.phase.Committed? && journal.value.recovery.None?
  }

  /** The installation that a committed journal has settled on. */
  function Settled(r: Record, p: Past): Install {
    if r.recovery.Some? then p.prior else p.goal
  }

  /** The journaled transaction is the one that was ordered: it found the program that the order was given
      on, it has not touched it or keeps it as the prior installation, and it aims where the order says. */
  ghost predicate Accounted(r: Record, live: Install, p: Past) {
    && r.run == p.order.run && (r.recovery.Some? ==> r.phase.Committed?)
    && if r.phase in {Preparing, Admission} then SameCode(p.order.base, live) && (p.tripped || p.stops == p.order.stops)
       else if r.phase.Stopping? then SameCode(p.order.base, live)
       else
         && SameCode(p.order.base, p.prior)
         && (r.recovery.None? ==>
           if r.phase in {Starting, Healthy, Committed} then Fulfils(p.order, p.prior, p.goal)
           else p.goal == Meant(p.order, p.prior))
  }

  /** How the last order ended, once its journal is gone: the program is the one it was given on, never
      stopped or last started from exactly the installation found at the stop; or the order was carried
      out on that installation, of which a verifying snapshot is kept. */
  ghost predicate Concluded(live: Install, disk: Disk, p: Past) {
    || (SameCode(p.order.base, live) && (p.tripped || p.stops == p.order.stops || LastStart(live, p, p.prior)))
    || (SameCode(p.order.base, p.prior) && Fulfils(p.order, p.prior, p.goal) && LastStart(live, p, p.goal)
        && disk.previous == Some(p.order.run) && Keeps(disk, p.order.run, p.prior))
  }

  /** What the journal promises to the next invocation, phase by phase. */
  ghost predicate Sound(r: Record, live: Install, disk: Disk, s: Service, p: Past) {
    Accounted(r, live, p) && Pending(r, live, disk, s, p)
  }

  /** The store still holds what was ordered: the secured payload, or the snapshot to roll back to. */
  ghost predicate Stocked(r: Record, disk: Disk, order: Order) {
    if r.operation.Update? then
      order.source.Some? && r.run in disk.staged && disk.staged[r.run] == Secured(order.source.value)
    else
      order.source.None? && order.from.Some? && order.from.value in disk.saved
      && disk.saved[order.from.value].contents == order.target
  }

  ghost predicate Pending(r: Record, live: Install, disk: Disk, s: Service, p: Past) {
    if r.phase.Preparing? then p.tripped || Up(live, s)
    else if r.phase.Admission? then p.tripped || (s.enabled && s.running && State in live)
    else if r.phase.Stopping? then Held(live) && !s.accepting && !s.queueOpen
    else if r.phase.Committed? then
      && s.enabled && s.running && p.vetted && State in live
      && LastStart(live, p, Settled(r, p))
      && (r.recovery.None? ==> disk.previous == Some(r.run) && Keeps(disk, r.run, p.prior) && Stocked(r, disk, p.order))
    else
      && Keeps(disk, r.run, p.prior) && Stocked(r, disk, p.order) && Closed(live, s)
      && (!Down(s) ==> r.phase !in {BackedUp, Migrating}
                       && LastStart(live, p, if r.phase.Restoring? then p.prior else p.goal))
  }

  /** The program is that of `install`, which launchd was last allowed to start exactly as it is there. */
  ghost predicate LastStart(live: Install, p: Past, install: Install) {
    SameCode(live, install) && |p.starts| > 0 && p.starts[|p.starts| - 1] == Unheld(install)
  }

  ghost predicate Lineage(p: Past) {
    forall i :: 0 <= i < |p.starts| ==> p.starts[i] == Unheld(p.prior) || p.starts[i] == Unheld(p.goal)
  }

  /** Everything but the journal. */
  ghost predicate Sane(live: Install, disk: Disk, s: Service, p: Past) {
    && (!Down(s) ==> OnlyService(live, p.served))
    && (disk.previous.Some? ==> Retained(disk, disk.previous.value))
    && disk.saved.Keys <= disk.runs
    && Lineage(p)
  }

  ghost predicate Safe(live: Install, disk: Disk, s: Service, p: Past) {
    && Sane(live, disk, s, p)
    && match disk.journal
       case None => (p.tripped || Up(live, s)) && Concluded(live, disk, p)
       case Some(r) => Sound(r, live, disk, s, p)
  }

  lemma TimeKeepsPromises(r: Record, a: Install, b: Install, disk: Disk, s: Service, p: Past, q: Past)
    requires Aged(a, s, p, b, q) && SamePast(p, q)
    ensures Accounted(r, a, p) ==> Accounted(r, b, q)
    ensures Pending(r, a, disk, s, p) ==> Pending(r, b, disk, s, q)
  {
  }

  lemma TimeKeepsConclusions(a: Install, b: Install, disk: Disk, s: Service, p: Past, q: Past)
    requires Aged(a, s, p, b, q) && SamePast(p, q)
    ensures Sane(a, disk, s, p) ==> Sane(b, disk, s, q)
    ensures Concluded(a, disk, p) ==> Concluded(b, disk, q)
    ensures Up(a, s) ==> Up(b, s)
  {
  }

  /** Whatever a running service writes, what was safe stays safe. */
  lemma TimeIsSafe(a: Install, b: Install, disk: Disk, s: Service, p: Past, q: Past)
    requires Safe(a, disk, s, p) && Aged(a, s, p, b, q) && SamePast(p, q)
    ensures Safe(b, disk, s, q)
  {
    TimeKeepsConclusions(a, b, disk, s, p, q);
    if disk.journal.Some? {
      TimeKeepsPromises(disk.journal.value, a, b, disk, s, p, q);
    }
  }

  /** A record that is sound by the time it is begun to be written is safe to have been written. */
  lemma JournalIsSafe(r: Record, a: Install, b: Install, disk: Disk, s: Service, p: Past, q: Past)
    requires Sane(a, disk, s, p) && Sound(r, a, disk, s, p) && Aged(a, s, p, b, q) && SamePast(p, q)
    ensures Sane(b, disk, s, q) && Sound(r, b, disk, s, q)
    ensures Safe(b, disk.(journal := Some(r)), s, q)
  {
    TimeKeepsConclusions(a, b, disk, s, p, q);
    TimeKeepsPromises(r, a, b, disk, s, p, q);
  }

  /** While the service is down past its stop, the live paths may be anything. */
  lemma StoppedIsSafe(r: Record, a: Install, b: Install, disk: Disk, s: Service, p: Past)
    requires Safe(a, disk, s, p) && disk.journal == Some(r) && Down(s)
    requires r.phase in {BackedUp, Migrating, Starting, Healthy, Restoring}
    ensures Safe(b, disk, s, p)
  {
  }

  /** A power loss brings back only an enabled service, and reopens its gate only without a hold. */
  lemma RestartIsSafe(live: Install, disk: Disk, s: Service, p: Past)
    requires Safe(live, disk, s, p)
    ensures Safe(live, disk, s.(running := s.enabled, accepting := s.enabled && !Held(live)), p)
  {
  }

  /** In every state and phase, a service that runs, or that launchd would run, has the program the last
      order was given on, or its installation is one of two in full: the one found at the stop, or the one
      ordered, activated on exactly that. Nothing else has written to it since it was last started. */
  lemma NeverMixed(live: Install, disk: Disk, s: Service, p: Past)
    requires Safe(live, disk, s, p)
    requires s.enabled || s.running
    ensures OnlyService(live, p.served)
    ensures || SameCode(p.order.base, live)
            || (SameCode(p.order.base, p.prior) && Fulfils(p.order, p.prior, p.goal) && LastStart(live, p, p.goal))
    ensures disk.journal.Some? && disk.journal.value.phase !in {Preparing, Admission, Stopping} ==>
              LastStart(live, p, p.prior) || (Fulfils(p.order, p.prior, p.goal) && LastStart(live, p, p.goal))
  {
  }

  /** What the store holds tells where a pending transaction leads: to its snapshot, or from that to its
      staged payload or to another snapshot in it. */
  lemma StoreTellsGoal(live: Install, disk: Disk, s: Service, p: Past)
    requires Safe(live, disk, s, p) && disk.journal.Some?
    requires disk.journal.value.phase in {Starting, Healthy, Committed} && disk.journal.value.recovery.None?
    ensures var r := disk.journal.value;
            && r.run in disk.saved && disk.saved[r.run].contents == p.prior && SameCode(p.order.base, p.prior)
            && if r.operation.Update? then
                 r.run in disk.staged && Activated(p.prior, disk.staged[r.run]) == Some(p.goal)
               else exists q :: q in disk.saved && p.goal == disk.saved[q].contents
  {
    if disk.journal.value.operation.Rollback? {
      assert p.order.from.value in disk.saved;
    }
  }

  /** From the stop to the commit, nobody can submit a job to a service that runs or might be run. */
  lemma ClosedUntilCommitted(live: Install, disk: Disk, s: Service, p: Past)
    requires Safe(live, disk, s, p) && disk.journal.Some?
    requires disk.journal.value.phase !in {Preparing, Admission, Committed} && (s.enabled || s.running)
    ensures Held(live) && !s.accepting && !s.queueOpen
  {
  }

  /** A new snapshot, complete or not, takes nothing away from the retained ones. */
  lemma SavingIsSafe(live: Install, disk: Disk, more: map<RunId, Snapshot>, run: RunId, s: Service, p: Past)
    requires Sane(live, disk, s, p)
    requires run in disk.runs && run !in disk.saved && OthersKept(disk.saved, more, run)
    ensures Sane(live, disk.(saved := more), s, p)
  {
  }

  /** What an update leaves: the payload, private and otherwise as it was given, under its own launchd job;
      in the configuration the version file, which says 1; and every other file as it was. */
  lemma UpdateChangesTheseFiles(order: Order, prior: Install, goal: Install)
    requires order.source.Some? && Fulfils(order, prior, goal)
    ensures forall path: string :: FileAt(goal, Payload, path).Some? <==> path in order.source.value.m
    ensures forall path: string :: path in order.source.value.m ==>
              var a, b := order.source.value.m[path], FileAt(goal, Payload, path).value;
              b.owner == 0 && b.mode & 18 == 0 && b.mode & 0xF1ED == a.mode & 0xF1ED && b.content == a.content
    ensures FileAt(goal, Plist, ".").Some? && goal[Plist].m.Keys == {"."}
    ensures FileAt(goal, Plist, ".") == FileAt(goal, Payload,
              "Contents/Library/LaunchDaemons/com.bartekpapierski.hplj1020.service.plist")
    ensures FileAt(goal, Config, "state-version.json").Some?
            && FileAt(goal, Config, "state-version.json").value.content == StateVersion(1)
    ensures forall n: Name, path: string ::
              n !in {Payload, Plist} && (n != Config || path != "state-version.json") ==>
                FileAt(goal, n, path) == FileAt(prior, n, path)
    ensures goal.Keys == prior.Keys + {Payload, Plist} && (Held(goal) <==> Held(prior))
  {
    var payload := Secured(order.source.value);
    var plist := Member(payload, SERVICE_PLIST).value;
    var placed := prior[Payload := payload][Plist := plist];
    MigrationWritesOneFile(placed);
    forall path: string
      ensures FileAt(goal, Payload, path) == FileAt(placed, Payload, path)
    {
    }
    forall path: string | path in order.source.value.m
      ensures var a, b := order.source.value.m[path], payload.m[path];
              b.owner == 0 && b.mode & 18 == 0 && b.mode & 0xF1ED == a.mode & 0xF1ED && b.content == a.content
    {
      SecuredIsPrivate(order.source.value, path);
    }
  }

  /** An update can be carried out exactly if its payload brings a launchd job, and the configuration either
      says version 1 or is there to have its version raised. */
  lemma UpdateIsFeasibleExactly(order: Order, prior: Install)
    requires order.source.Some?
    ensures var version := FileAt(prior, Config, "state-version.json");
            Feasible(order, prior) <==>
              && "Contents/Library/LaunchDaemons/com.bartekpapierski.hplj1020.service.plist" in order.source.value.m
              && if version.None? || version.value.content == StateVersion(0) then FileAt(prior, Config, ".").Some?
                 else version.value.content == StateVersion(1)
  {
    var payload := Secured(order.source.value);
    if Member(payload, SERVICE_PLIST).Some? {
      MigratesExactly(prior[Payload := payload][Plist := Member(payload, SERVICE_PLIST).value]);
    }
  }

  /** An activated installation still holds admission, and runs the new payload under its own job. */
  lemma ActivationKeepsTheHold(prior: Install, payload: Tree)
    requires Held(prior) && Activated(prior, payload).Some?
    ensures Held(Activated(prior, payload).value)
    ensures At(Activated(prior, payload).value, Payload) == Some(payload)
    ensures At(Activated(prior, payload).value, Plist) == Member(payload, SERVICE_PLIST)
    ensures forall n: Name :: n !in {Payload, Plist, Config} ==>
              At(Activated(prior, payload).value, n) == At(prior, n)
  {
  }
}
