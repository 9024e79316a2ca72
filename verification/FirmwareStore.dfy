/** The private firmware store: a generation holds the firmware and its metadata, is written aside, and
    takes the place of the active one in a single exchange. */
module FirmwareStore {
  import opened Outcomes

  datatype Generation = Generation(contents: Option<string>, metadata: Option<string>)

  /** `Odd` is something that is not a directory. */
  datatype Entry = Missing | Odd | Present(generation: Generation)

  datatype Place = Active | Staging

  datatype File = Contents | Metadata

  function Pair(contents: string, metadata: string): Entry {
    Present(Generation(Some(contents), Some(metadata)))
  }

  function Put(e: Entry, file: File, bytes: string): Entry {
    if !e.Present? then e
    else if file.Contents? then Present(e.generation.(contents := Some(bytes)))
    else Present(e.generation.(metadata := Some(bytes)))
  }

  /** A generation of which removal has taken so many steps: contents, metadata, directory. */
  function Removed(e: Entry, steps: nat): Entry
    requires steps <= 3
  {
    if !e.Present? || steps == 0 then e
    else if steps == 1 then Present(e.generation.(contents := None))
    else if steps == 2 then Present(Generation(None, None))
    else Missing
  }

  /** Either untouched or gone, or it is torn, and then its contents are gone first: whatever metadata is
      left has no firmware beside it. */
  lemma TornHasNoContents(contents: string, metadata: string, steps: nat)
    requires steps <= 3
    ensures Removed(Pair(contents, metadata), steps) in {Pair(contents, metadata), Missing} <==> steps in {0, 3}
    ensures steps in {1, 2} ==> Removed(Pair(contents, metadata), steps).generation.contents.None?
  {
  }

  /** What the system answers to one call: it succeeds, writes so many bytes of what it is given, fails,
      or the process is stopped before it. */
  datatype Answer = Whole | Part(bytes: nat) | Fails | Stops

  /** The answers to come, in order; after the last, everything succeeds. */
  datatype Script = AllWell | Then(first: Answer, rest: Script)

  function Next(s: Script): Answer {
    if s.AllWell? then Whole else s.first
  }

  function After(s: Script): Script {
    if s.AllWell? then s else s.rest
  }

  /** How some calls ended, and the answers that are left. */
  datatype Ended = Ended(outcome: Outcome, left: Script)

  function Calling(s: Script): Ended {
    Ended(if Next(s).Fails? then Raised else if Next(s).Stops? then Crashed else Done, After(s))
  }

  function Writing(remaining: nat, s: Script): Ended
    decreases remaining
  {
    if remaining == 0 then Ended(Done, s)
    else
      match Next(s)
      case Fails => Ended(Raised, After(s))
      case Stops => Ended(Crashed, After(s))
      case Whole => Ended(Done, After(s))
      case Part(n) =>
        if n == 0 then Ended(Raised, After(s))
        else if n >= remaining then Ended(Done, After(s))
        else Writing(remaining - n, After(s))
  }

  /** Opening, writing, syncing and closing a file of that size. */
  function Filing(size: nat, s: Script): Ended {
    var begun := Calling(s);
    if !begun.outcome.Done? then begun
    else
      var written := Writing(size, begun.left);
      if !written.outcome.Done? then written
      else
        var synced := Calling(written.left);
        if !synced.outcome.Done? then synced else Calling(synced.left)
  }

  /** Allocating the text, writing both files, and syncing their directory. */
  function Staged(contents: nat, metadata: nat, s: Script): Ended {
    var ready := Calling(s);
    if !ready.outcome.Done? then ready
    else
      var first := Filing(contents, ready.left);
      if !first.outcome.Done? then first
      else
        var second := Filing(metadata, first.left);
        if !second.outcome.Done? then second else Calling(second.left)
  }

  /** Looking at the active place, and renaming or exchanging. */
  function Installed(active: Entry, s: Script): Ended {
    var seen := Calling(s);
    if !seen.outcome.Done? then seen
    else if active.Odd? then Ended(Raised, seen.left)
    else Calling(seen.left)
  }

  /** How many of the steps of a removal are taken. */
  function Removing(steps: nat, s: Script): (nat, Ended)
    requires steps <= 3
    decreases 3 - steps
  {
    if steps == 3 then (3, Ended(Done, s))
    else
      var call := Calling(s);
      if call.outcome.Done? then Removing(steps + 1, call.left) else (steps, call)
  }

  /** The active place and the verdict after a commit, decided by what was there and by the answers. */
  datatype Result = Result(active: Entry, outcome: Outcome)

  function Cleaned(active: Entry, verdict: Outcome, s: Script): Result {
    Result(active, if Removing(0, s).1.outcome.Crashed? then Crashed else verdict)
  }

  function RolledBack(before: Entry, pair: Entry, s: Script): Result {
    if before.Present? then
      var swap := Calling(s);
      if swap.outcome.Done? then Cleaned(before, Raised, swap.left) else Result(pair, swap.outcome)
    else
      var (steps, end) := Removing(0, s);
      Result(Removed(pair, steps), if end.outcome.Crashed? then Crashed else Raised)
  }

  function Committing(before: Entry, contents: string, metadata: string, s: Script): Result {
    var pair := Pair(contents, metadata);
    var made := Calling(s);
    if !made.outcome.Done? then Result(before, made.outcome)
    else
      var staged := Staged(|contents|, |metadata|, made.left);
      var placed := if staged.outcome.Done? then Installed(before, staged.left) else staged;
      if placed.outcome.Crashed? then Result(before, Crashed)
      else if placed.outcome.Raised? then Cleaned(before, Raised, placed.left)
      else
        var synced := Calling(placed.left);
        match synced.outcome
        case Crashed => Result(pair, Crashed)
        case Raised => RolledBack(before, pair, synced.left)
        case Done => if before.Present? then Cleaned(pair, Done, synced.left) else Result(pair, Done)
  }

  lemma {:induction false} RemovingCounts(steps: nat, s: Script)
    requires steps <= 3
    ensures var (taken, end) := Removing(steps, s); steps <= taken <= 3 && (end.outcome.Done? <==> taken == 3)
    decreases 3 - steps
  {
    if steps < 3 {
      RemovingCounts(steps + 1, After(s));
    }
  }

  lemma RolledBackIsSafe(before: Entry, pair: Entry, s: Script)
    requires pair.Present? && !before.Odd?
    ensures var r := RolledBack(before, pair, s);
            && !r.outcome.Done?
            && (before.Present? ==> r.active in {before, pair})
            && (before.Missing? ==> r.active in {Missing, pair, Removed(pair, 1), Removed(pair, 2)})
  {
    RemovingCounts(0, s);
  }

  /** Under any answers at all: what was active before is kept whole or replaced whole, something that is
      not a directory is never touched, and success means the new pair, byte for byte. Where nothing was
      active, what is left is nothing, the new pair, or the new pair partly removed. */
  lemma CommittingIsSafe(before: Entry, contents: string, metadata: string, s: Script)
    ensures var r := Committing(before, contents, metadata, s);
            var pair := Pair(contents, metadata);
            && (r.outcome.Done? ==> r.active == pair)
            && (before.Odd? ==> r.active == before && !r.outcome.Done?)
            && (before.Present? ==> r.active in {before, pair})
            && (before.Missing? ==> r.active in {Missing, pair, Removed(pair, 1), Removed(pair, 2)})
  {
    var staged := Staged(|contents|, |metadata|, After(s));
    var placed := if staged.outcome.Done? then Installed(before, staged.left) else staged;
    if before.Odd? {
      assert !placed.outcome.Done?;
    } else {
      RolledBackIsSafe(before, Pair(contents, metadata), After(placed.left));
    }
  }

  /** So many calls that succeed, and then the rest. */
  function Fine(n: nat, rest: Script): Script {
    if n == 0 then rest else Then(Whole, Fine(n - 1, rest))
  }

  lemma FilingIsFine(size: nat, rest: Script)
    requires size > 0
    ensures Filing(size, Fine(4, rest)) == Ended(Done, rest)
  {
    assert Fine(1, rest) == Then(Whole, Fine(0, rest)) && Fine(2, rest) == Then(Whole, Fine(1, rest));
    assert Fine(3, rest) == Then(Whole, Fine(2, rest)) && Fine(4, rest) == Then(Whole, Fine(3, rest));
  }

  /** When every call succeeds, so does the commit, over a pair and over nothing. */
  lemma AllWellCommits(before: Entry, contents: string, metadata: string)
    ensures Committing(before, contents, metadata, AllWell) ==
            if before.Odd? then Result(before, Raised) else Result(Pair(contents, metadata), Done)
  {
    assert Removing(0, AllWell).1.outcome.Done? by {
      assert Removing(2, AllWell) == Removing(3, AllWell) == (3, Ended(Done, AllWell));
      assert Removing(1, AllWell) == Removing(2, AllWell);
    }
    assert Filing(|contents|, AllWell) == Filing(|metadata|, AllWell) == Ended(Done, AllWell);
  }

  /** All is well until the directory cannot be synced; then the process is stopped in the rollback. */
  function Unlucky(steps: nat): Script {
    Fine(2, Fine(4, Fine(4, Fine(3, Then(Fails, Fine(steps, Then(Stops, AllWell)))))))
  }

  lemma StoppedRemoval(steps: nat)
    requires 1 <= steps <= 2
    ensures Removing(0, Fine(steps, Then(Stops, AllWell))) == (steps, Ended(Crashed, AllWell))
  {
    var stop := Then(Stops, AllWell);
    assert Removing(steps, stop) == (steps, Ended(Crashed, AllWell));
    assert Removing(1, Fine(steps - 1, stop)) == (steps, Ended(Crashed, AllWell));
  }

  /** Where nothing was active, there is a run that leaves the pair torn. */
  lemma UnluckyIsTorn(contents: string, metadata: string, steps: nat)
    requires contents != "" && metadata != "" && 1 <= steps <= 2
    ensures Committing(Missing, contents, metadata, Unlucky(steps)) ==
            Result(Removed(Pair(contents, metadata), steps), Crashed)
  {
    var rolling := Fine(steps, Then(Stops, AllWell));
    var placing := Fine(3, Then(Fails, rolling));
    assert placing == Then(Whole, Then(Whole, Then(Whole, Then(Fails, rolling))));
    FilingIsFine(|metadata|, placing);
    FilingIsFine(|contents|, Fine(4, placing));
    assert Unlucky(steps) == Then(Whole, Then(Whole, Fine(4, Fine(4, placing))));
    assert Staged(|contents|, |metadata|, After(Unlucky(steps))) == Ended(Done, After(placing));
    StoppedRemoval(steps);
  }

  /** When only the sync of the directory fails, everything is as it was, over a pair and over nothing. */
  lemma FailedSyncIsRolledBack(before: Entry, contents: string, metadata: string)
    requires contents != "" && metadata != "" && !before.Odd?
    ensures Committing(before, contents, metadata, Fine(2, Fine(4, Fine(4, Fine(3, Then(Fails, AllWell)))))) ==
            Result(before, Raised)
  {
    var failing := Then(Fails, AllWell);
    var placing := Fine(3, failing);
    assert placing == Then(Whole, Then(Whole, Then(Whole, failing)));
    FilingIsFine(|metadata|, placing);
    FilingIsFine(|contents|, Fine(4, placing));
    var script := Fine(2, Fine(4, Fine(4, placing)));
    assert script == Then(Whole, Then(Whole, Fine(4, Fine(4, placing))));
    assert Staged(|contents|, |metadata|, After(script)) == Ended(Done, After(placing));
    assert Removing(2, AllWell) == Removing(3, AllWell) == (3, Ended(Done, AllWell));
    assert Removing(1, AllWell) == Removing(2, AllWell);
    assert Removing(0, AllWell) == Removing(1, AllWell);
  }

  /** A commit is atomic exactly if something was in the active place before. */
  lemma AtomicExactlyOverSomething(before: Entry, contents: string, metadata: string)
    requires contents != "" && metadata != ""
    ensures (forall s :: Committing(before, contents, metadata, s).active in {before, Pair(contents, metadata)})
          <==> !before.Missing?
  {
    if before.Missing? {
      UnluckyIsTorn(contents, metadata, 1);
      assert Committing(before, contents, metadata, Unlucky(1)).active !in {before, Pair(contents, metadata)};
    } else {
      forall s
        ensures Committing(before, contents, metadata, s).active in {before, Pair(contents, metadata)}
      {
        CommittingIsSafe(before, contents, metadata, s);
      }
    }
  }

  class LocalStore {
    var active: Entry
    var staging: Entry
    var answers: Script

    constructor (answers: Script)
      ensures active.Missing? && staging.Missing? && this.answers == answers
    {
      active, staging, this.answers := Missing, Missing, answers;
    }

    function At(place: Place): Entry
      reads this
    {
      if place.Active? then active else staging
    }

    method Call() returns (o: Outcome)
      modifies this`answers
      ensures Ended(o, answers) == Calling(old(answers))
    {
      var answer := Next(answers);
      answers := After(answers);
      return if answer.Fails? then Raised else if answer.Stops? then Crashed else Done;
    }

    /** How much of a piece is taken by one write. */
    method Write(remaining: nat) returns (o: Outcome, taken: nat)
      requires remaining > 0
      modifies this`answers
      ensures taken <= remaining && (o.Done? ==> taken > 0)
      ensures Writing(remaining, old(answers)) ==
              if o.Done? then Writing(remaining - taken, answers) else Ended(o, answers)
    {
      var answer := Next(answers);
      o := Call();
      taken := if answer.Whole? then remaining
          else if answer.Part? && answer.bytes < remaining then answer.bytes else remaining;
      if o.Done? && taken == 0 {
        o := Raised;
      }
    }

    /** Writes a staged file piece by piece, so that it may be left short. */
    method WritePrivate(file: File, bytes: string) returns (o: Outcome)
      requires staging.Present?
      modifies this`staging, this`answers
      ensures Ended(o, answers) == Filing(|bytes|, old(answers))
      ensures o.Done? ==> staging == Put(old(staging), file, bytes)
      ensures staging == old(staging) || exists n: nat :: n <= |bytes| && staging == Put(old(staging), file, bytes[..n])
    {
      o := Call();
      if !o.Done? {
        return;
      }
      ghost var begun := answers;
      staging := Put(staging, file, bytes[..0]);
      var written := 0;
      while written < |bytes|
        invariant written <= |bytes| && staging == Put(old(staging), file, bytes[..written])
        invariant Writing(|bytes|, begun) == Writing(|bytes| - written, answers)
        decreases |bytes| - written
      {
        var taken;
        o, taken := Write(|bytes| - written);
        if !o.Done? {
          return;
        }
        written := written + taken;
        staging := Put(staging, file, bytes[..written]);
      }
      assert bytes[..written] == bytes;
      o := Call();
      if o.Done? {
        o := Call();
      }
    }

    method RemoveGeneration(place: Place) returns (o: Outcome, ghost steps: nat)
      modifies this
      ensures (steps, Ended(o, answers)) == Removing(0, old(answers)) && steps <= 3
      ensures active == if place.Active? then Removed(old(active), steps) else old(active)
      ensures staging == if place.Staging? then Removed(old(staging), steps) else old(staging)
    {
      steps := 0;
      for step := 0 to 3
        invariant steps == step && Removing(0, old(answers)) == Removing(steps, answers)
        invariant active == if place.Active? then Removed(old(active), steps) else old(active)
        invariant staging == if place.Staging? then Removed(old(staging), steps) else old(staging)
      {
        o := Call();
        if !o.Done? {
          return;
        }
        var entry := if !At(place).Present? then At(place)
                     else if step == 0 then Present(At(place).generation.(contents := None))
                     else if step == 1 then Present(At(place).generation.(metadata := None))
                     else Missing;
        if place.Active? {
          active := entry;
        } else {
          staging := entry;
        }
        steps := steps + 1;
      }
      o := Done;
    }

    /** Writes the new pair aside and syncs it. */
    method Stage(contents: string, metadata: string) returns (o: Outcome)
      requires staging == Present(Generation(None, None))
      modifies this`staging, this`answers
      ensures Ended(o, answers) == Staged(|contents|, |metadata|, old(answers))
      ensures staging.Present? && (o.Done? ==> staging == Pair(contents, metadata))
    {
      o := Call();
      if o.Done? {
        o := WritePrivate(Contents, contents);
      }
      if o.Done? {
        o := WritePrivate(Metadata, metadata);
        if o.Done? {
          o := Call();
        }
      }
    }

    /** Renames the staged pair into place, or exchanges it with the pair that is there. */
    method Install() returns (o: Outcome)
      requires staging.Present?
      modifies this
      ensures Ended(o, answers) == Installed(old(active), old(answers))
      ensures !o.Done? ==> active == old(active) && staging == old(staging)
      ensures o.Done? ==> active == old(staging) && staging == old(active)
    {
      o := Call();
      if o.Done? {
        if active.Odd? {
          return Raised;
        }
        o := Call();
        if o.Done? {
          active, staging := staging, active;
        }
      }
    }

    /** The directory could not be synced: puts the previous pair back, or removes the new one. */
    method Rollback() returns (o: Outcome)
      requires active.Present? && !staging.Odd?
      modifies this
      ensures Result(active, o) == RolledBack(old(staging), old(active), old(answers))
    {
      ghost var steps: nat := 0;
      if staging.Present? {
        o := Call();
        if o.Done? {
          active, staging := staging, active;
          o, steps := RemoveGeneration(Staging);
          o := if o.Crashed? then Crashed else Raised;
        }
      } else {
        o, steps := RemoveGeneration(Active);
        o := if o.Crashed? then Crashed else Raised;
      }
    }

    /** The commit does exactly what its answers decide, call by call. */
    method Commit(contents: string, metadata: string) returns (o: Outcome)
      modifies this
      ensures Result(active, o) == Committing(old(active), contents, metadata, old(answers))
    {
      o := Call();
      if !o.Done? {
        return;
      }
      // A fresh name: whatever an interrupted commit left lies elsewhere.
      staging := Present(Generation(None, None));
      o := Stage(contents, metadata);
      if o.Done? {
        o := Install();
      }
      if o.Crashed? {
        return;
      }
      ghost var steps: nat := 0;
      var cleaned: Outcome;
      if o.Raised? {
        cleaned, steps := RemoveGeneration(Staging);
        o := if cleaned.Crashed? then Crashed else Raised;
        return;
      }
      o := Call();
      if o.Raised? {
        o := Rollback();
      } else if o.Done? && staging.Present? {
        cleaned, steps := RemoveGeneration(Staging);
        o := if cleaned.Crashed? then Crashed else Done;
      }
    }
  }

  datatype Import = Import(contents: string, metadata: string)

  /** One of the pairs that was committed, as a whole. */
  ghost predicate OneOf(e: Entry, imports: seq<Import>) {
    exists i :: 0 <= i < |imports| && e == Pair(imports[i].contents, imports[i].metadata)
  }

  /** Nothing, one committed pair and nothing else, or something without firmware in it. */
  ghost predicate Unmixed(e: Entry, imports: seq<Import>) {
    e.Missing? || OneOf(e, imports) || (e.Present? && e.generation.contents.None?)
  }

  lemma MoreImports(e: Entry, imports: seq<Import>, more: seq<Import>)
    requires OneOf(e, imports)
    ensures OneOf(e, imports + more)
  {
    var i :| 0 <= i < |imports| && e == Pair(imports[i].contents, imports[i].metadata);
    assert (imports + more)[i] == imports[i];
  }

  /** One more commit on a store that earlier commits have left, however they ended. */
  method CommitOne(store: LocalStore, earlier: seq<Import>, latest: Import) returns (o: Outcome)
    requires Unmixed(store.active, earlier)
    modifies store
    ensures Unmixed(store.active, earlier + [latest])
    ensures OneOf(old(store.active), earlier) ==> OneOf(store.active, earlier + [latest])
    ensures o.Done? ==> store.active == Pair(latest.contents, latest.metadata)
  {
    ghost var before, answers := store.active, store.answers;
    o := store.Commit(latest.contents, latest.metadata);
    CommittingIsSafe(before, latest.contents, latest.metadata, answers);
    TornHasNoContents(latest.contents, latest.metadata, 1);
    TornHasNoContents(latest.contents, latest.metadata, 2);
    assert (earlier + [latest])[|earlier|] == latest;
    if OneOf(before, earlier) {
      MoreImports(before, earlier, [latest]);
    }
  }

  /** Any number of commits on top of any number of earlier ones, each of which may fail or be stopped
      anywhere: the active place never mixes two imports, and once it is whole it stays whole. */
  method CommitAll(store: LocalStore, earlier: seq<Import>, imports: seq<Import>)
    requires Unmixed(store.active, earlier)
    modifies store
    ensures Unmixed(store.active, earlier + imports)
    ensures OneOf(old(store.active), earlier) ==> OneOf(store.active, earlier + imports)
  {
    assert earlier + imports[..0] == earlier;
    for i := 0 to |imports|
      invariant Unmixed(store.active, earlier + imports[..i])
      invariant OneOf(old(store.active), earlier) ==> OneOf(store.active, earlier + imports[..i])
    {
      var _ := CommitOne(store, earlier + imports[..i], imports[i]);
      assert earlier + imports[..i] + [imports[i]] == earlier + imports[..i + 1];
    }
    assert earlier + imports[..|imports|] == earlier + imports;
  }
}
