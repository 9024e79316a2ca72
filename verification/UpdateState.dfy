/** The values that an update transaction moves around, and the pure rules about them. */
module UpdateState {
  import opened Outcomes

  datatype Content = Directory | StateVersion(version: int) | Bytes(digest: nat)

  datatype Entry = Entry(mode: bv16, owner: nat, content: Content)

  /** A file or directory, as its inventory: relative path to entry, "." being the root.
      The admission hold marker, which is a file of the state directory, is kept apart in `hold`. */
  datatype Tree = Tree(m: map<string, Entry>, hold: bool)

  /** The named paths of an installation, in no particular order. */
  datatype Name = Payload | Config | State | Spool | Firmware | Cache | Home | Plist

  /** A missing name is a missing path. */
  type Install = map<Name, Tree>

  type RunId = nat

  /** A run's `before` directory; the inventory file is written last. */
  datatype Snapshot = Snapshot(contents: Install, inventory: Option<Install>)

  datatype Operation = Update | Rollback

  datatype Phase =
    | Preparing | Admission | Stopping | BackedUp | Migrating
    | Starting | Healthy | Committed | Restoring

  datatype Verdict =
    | PrepareFailed | Deferred | Unchanged | RolledBack | Updated | Completed(operation: Operation)

  datatype Record = Record(
    run: RunId, operation: Operation, phase: Phase,
    recovery: Option<Verdict>, failedPhase: Option<Phase>)

  /** `spare` and `parked` are the fixed siblings that replacing a live path uses. */
  datatype Disk = Disk(
    spare: Install, parked: Install,
    runs: set<RunId>, staged: map<RunId, Tree>, saved: map<RunId, Snapshot>,
    journal: Option<Record>, previous: Option<RunId>, result: Option<(RunId, Verdict)>)

  /** launchd remembers `enabled` across restarts of the machine; the provider forgets `accepting`,
      its own admission gate. `queueOpen` is the gate of the CUPS queue. */
  datatype Service = Service(enabled: bool, running: bool, accepting: bool, queueOpen: bool)

  /** What has happened, as far as the claims about a transaction need it.
   - `served`: the installation as the service last left it; only a start or the service changes it;
   - `starts`: every installation launchd was allowed to run since `prior` was captured;
   - `prior`, `goal`: the installation found when the service stopped, and the one aimed at;
   - `vetted`: the service passed its health check after its last start;
   - `tripped`: the service was stopped on an error although its journal says it was never touched;
   - `order`: what the last command that began a transaction was asked for.
   */
  datatype Past = Past(
    served: Install, starts: seq<Install>, prior: Install, goal: Install,
    vetted: bool, stops: nat, tripped: bool, order: Order)

  /** The run, the installation and the number of stops when it was given, and the payload to update to
      or else the run to roll back to the snapshot of, and what that holds. */
  datatype Order = Order(
    run: RunId, base: Install, stops: nat, source: Option<Tree>, from: Option<RunId>, target: Install)

  /** What the surroundings of one invocation are able to do to it. Where steps may fail, the process may
      also be killed; `surely` makes every step fail. */
  datatype Threat = NoThreat | MayCrash | MayFail(surely: bool)

  const SCHEMA := 1
  const ROOT := 0
  const STATE_VERSION := "state-version.json"
  const SERVICE_PLIST := "Contents/Library/LaunchDaemons/com.bartekpapierski.hplj1020.service.plist"

  /** The payload and then the data directories: the order in which they are saved and restored. */
  const TREES: seq<Name> := [Payload, Config, State, Spool, Firmware, Cache, Home]

  predicate Held(live: Install) {
    State in live && live[State].hold
  }

  /** The installation without the admission hold marker. */
  function Unheld(live: Install): Install {
    if Held(live) then live[State := live[State].(hold := false)] else live
  }

  function WithHold(live: Install): Install
    requires State in live
  {
    live[State := live[State].(hold := true)]
  }

  function At(live: Install, n: Name): Option<Tree> {
    if n in live then Some(live[n]) else None
  }

  /** A file or directory below one of the named paths. */
  function FileAt(live: Install, n: Name, path: string): Option<Entry> {
    if n in live && path in live[n].m then Some(live[n].m[path]) else None
  }

  predicate SamePath(a: Install, b: Install, n: Name) {
    At(a, n) == At(b, n)
  }

  /** The same program under the same launchd job: only data may differ. */
  predicate SameCode(a: Install, b: Install) {
    SamePath(a, b, Payload) && SamePath(a, b, Plist)
  }

  /** What a running service may do to its installation: write its own data directories. */
  predicate Drifts(a: Install, b: Install) {
    SameCode(a, b) && (Held(a) <==> Held(b)) && (State in a <==> State in b)
  }

  /** `b` is `a` with the path `n` changed, if anything. */
  ghost predicate SameExcept(a: Install, b: Install, n: Name) {
    forall m: Name :: m != n ==> (m in a <==> m in b) && (m in a ==> a[m] == b[m])
  }

  ghost predicate OthersKept(a: map<RunId, Snapshot>, b: map<RunId, Snapshot>, run: RunId) {
    forall r :: r != run ==> (r in a <==> r in b) && (r in a ==> a[r] == b[r])
  }

  /** Root ownership, and no write permission for group and others. */
  function Secured(t: Tree): Tree {
    Tree(map p | p in t.m :: t.m[p].(owner := ROOT, mode := t.m[p].mode & 0xFFED), t.hold)
  }

  /** A single file inside a tree, as a tree of its own. */
  function Member(t: Tree, path: string): Option<Tree> {
    if path in t.m then Some(Tree(map["." := t.m[path]], false)) else None
  }

  function ReadVersion(live: Install): Option<int> {
    if Config !in live || STATE_VERSION !in live[Config].m then Some(0)
    else match live[Config].m[STATE_VERSION].content
         case StateVersion(v) => Some(v)
         case _ => None
  }

  /** The installation after the state migration, where it has one. */
  function Migrated(live: Install): Option<Install> {
    match ReadVersion(live)
    case None => None
    case Some(v) =>
      if v == 0 then
        if Config in live && "." in live[Config].m then
          Some(live[Config := Tree(live[Config].m[STATE_VERSION :=
            Entry(0x180, live[Config].m["."].owner, StateVersion(SCHEMA))], live[Config].hold)])
        else None
      else if 0 < v <= SCHEMA then Some(live)
      else None
  }

  /** The installation that an update to `payload` is meant to end in. */
  function Activated(prior: Install, payload: Tree): Option<Install> {
    match Member(payload, SERVICE_PLIST)
    case None => None
    case Some(plist) => Migrated(prior[Payload := payload][Plist := plist])
  }

  /** The migration writes one file, and that says version 1; every other file of every path stays, and so
      does an installation that already says so. */
  lemma MigrationWritesOneFile(live: Install)
    requires Migrated(live).Some?
    ensures var after := Migrated(live).value;
            && after.Keys == live.Keys && (Held(after) <==> Held(live))
            && (forall n: Name, path: string :: n != Config || path != "state-version.json" ==>
                 FileAt(after, n, path) == FileAt(live, n, path))
            && FileAt(after, Config, "state-version.json").Some?
            && FileAt(after, Config, "state-version.json").value.content == StateVersion(1)
            && Migrated(after) == Some(after)
    ensures FileAt(live, Config, "state-version.json").Some?
            && FileAt(live, Config, "state-version.json").value.content == StateVersion(1) ==>
              Migrated(live) == Some(live)
  {
    if ReadVersion(live) == Some(0) {
      var after := Migrated(live).value;
      assert ReadVersion(after) == Some(1);
    }
  }

  /** Without a version, or with version 0, the file is made anew, private and owned as its directory is;
      any other version but 1 is refused. */
  lemma MigratesExactly(live: Install)
    ensures var version := FileAt(live, Config, "state-version.json");
            var directory := FileAt(live, Config, ".");
            if version.None? || version.value.content == StateVersion(0) then
              && (Migrated(live).Some? <==> directory.Some?)
              && (directory.Some? ==> FileAt(Migrated(live).value, Config, "state-version.json") ==
                                      Some(Entry(384, directory.value.owner, StateVersion(1))))
            else Migrated(live).Some? <==> version.value.content == StateVersion(1)
  {
  }

  /** The private copy belongs to root, nobody else may write to it, and otherwise it is the original. */
  lemma SecuredIsPrivate(t: Tree, path: string)
    ensures path in Secured(t).m <==> path in t.m
    ensures path in t.m ==>
              var a, b := t.m[path], Secured(t).m[path];
              b.owner == 0 && b.mode & 18 == 0 && b.mode & 0xF1ED == a.mode & 0xF1ED && b.content == a.content
  {
  }

  /** The order has been carried out on `prior` by ending in `goal`. */
  predicate Fulfils(order: Order, prior: Install, goal: Install) {
    if order.source.Some? then Activated(prior, Secured(order.source.value)) == Some(goal) else goal == order.target
  }

  /** A rollback can always be carried out, and an update if its payload can be activated on `prior`. */
  predicate Feasible(order: Order, prior: Install) {
    order.source.Some? ==> Activated(prior, Secured(order.source.value)).Some?
  }

  /** Where the order leads from `prior`; nowhere, if the payload cannot be activated on it. */
  function Meant(order: Order, prior: Install): Install {
    if order.source.None? then order.target
    else
      var activated := Activated(prior, Secured(order.source.value));
      if activated.Some? then activated.value else prior
  }

  /** No copy of the service runs, and none will after a restart of the machine. */
  predicate Down(s: Service) {
    !s.enabled && !s.running && !s.accepting
  }

  predicate Up(live: Install, s: Service) {
    s.enabled && s.running && s.accepting && s.queueOpen && State in live && !Held(live)
  }

  /** Nobody can submit a job, not even to a service that starts by itself. */
  predicate Closed(live: Install, s: Service) {
    (s.enabled || s.running ==> Held(live)) && !s.accepting && !s.queueOpen
  }

  /** The past when time passes without a start. */
  predicate SamePast(a: Past, b: Past) {
    b == a.(served := b.served)
  }

  /** The service is the only one that has written to the installation it runs. */
  predicate OnlyService(live: Install, served: Install) {
    Unheld(live) == served
  }

  /** What the passing of time may change: the data of a running service. */
  predicate Aged(a: Install, s: Service, p: Past, b: Install, q: Past) {
    && Drifts(a, b)
    && (!s.running ==> a == b && p.served == q.served)
    && (OnlyService(a, p.served) ==> OnlyService(b, q.served))
  }

  /** A complete snapshot: it passes verification, and a service can be started from it. */
  predicate Retained(disk: Disk, run: RunId) {
    && run in disk.saved
    && disk.saved[run].inventory == Some(disk.saved[run].contents)
    && Plist in disk.saved[run].contents
    && Held(disk.saved[run].contents)
  }

  lemma HoldIsOnlyAMarker(live: Install)
    requires State in live
    ensures Held(WithHold(live))
    ensures Unheld(WithHold(live)) == Unheld(live)
    ensures SameCode(WithHold(live), live) && SameCode(Unheld(live), live)
    ensures !Held(Unheld(live)) && Unheld(Unheld(live)) == Unheld(live)
    ensures State in Unheld(live)
  {
    var held := WithHold(live);
    assert live[State].(hold := true).(hold := false) == live[State].(hold := false);
    if !Held(live) {
      assert live[State].(hold := false) == live[State];
      assert Unheld(held) == live;
    } else {
      assert Unheld(held) == Unheld(live);
    }
  }
}
