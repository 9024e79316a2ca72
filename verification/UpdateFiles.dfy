/** Copying, replacing, saving and restoring the named paths of a stopped installation. */
module UpdateFiles {
  import opened Outcomes
  import opened UpdateState
  import opened UpdateHost

  lemma EveryName(a: Install, b: Install)
    requires forall k :: 0 <= k < |TREES| ==> At(a, TREES[k]) == At(b, TREES[k])
    requires At(a, Plist) == At(b, Plist)
    ensures a == b
  {
    forall n: Name
      ensures (n in a <==> n in b) && (n in a ==> a[n] == b[n])
    {
      if n != Plist {
        var k := match n
          case Payload => 0 case Config => 1 case State => 2 case Spool => 3
          case Firmware => 4 case Cache => 5 case Home => 6;
        assert TREES[k] == n;
      }
      assert At(a, n) == At(b, n);
    }
  }

  /** Deleting a tree is not atomic: what is left in the meantime can be any part of it. */
  method RemoveSpare(host: Host, n: Name) returns (o: Outcome)
    requires Down(host.service)
    modifies host`live, host`past, host`disk
    ensures host.live == old(host.live) && host.past == old(host.past)
    ensures host.disk == old(host.disk).(spare := host.disk.spare)
    ensures o.Done? ==> n !in host.disk.spare
    ensures host.threat.NoThreat? ==> o.Done?
    ensures o.Raised? ==> host.threat.MayFail?
  {
    o := Done;
    :- host.Elapse();
    if n in host.disk.spare {
      var part: Tree := *;
      host.disk := host.disk.(spare := host.disk.spare[n := part]);
      :- host.Elapse();
      host.disk := host.disk.(spare := host.disk.spare - {n});
    }
    return Done;
  }

  method RemoveParked(host: Host, n: Name) returns (o: Outcome)
    requires Down(host.service)
    modifies host`live, host`past, host`disk
    ensures host.live == old(host.live) && host.past == old(host.past)
    ensures host.disk == old(host.disk).(parked := host.disk.parked)
    ensures o.Done? ==> n !in host.disk.parked
    ensures host.threat.NoThreat? ==> o.Done?
    ensures o.Raised? ==> host.threat.MayFail?
  {
    o := Done;
    :- host.Elapse();
    if n in host.disk.parked {
      var part: Tree := *;
      host.disk := host.disk.(parked := host.disk.parked[n := part]);
      :- host.Elapse();
      host.disk := host.disk.(parked := host.disk.parked - {n});
    }
    return Done;
  }

  method RemoveLive(host: Host, n: Name) returns (o: Outcome)
    requires Down(host.service)
    modifies host`live, host`past
    ensures host.past == old(host.past)
    ensures SameExcept(old(host.live), host.live, n)
    ensures o.Done? ==> n !in host.live
    ensures host.threat.NoThreat? ==> o.Done?
    ensures o.Raised? ==> host.threat.MayFail?
  {
    o := Done;
    :- host.Elapse();
    if n in host.live {
      var part: Tree := *;
      host.live := host.live[n := part];
      :- host.Elapse();
      host.live := host.live - {n};
    }
    return Done;
  }

  /** Copying over something that is there would mix the two, which the inventories then betray. */
  method CopyToSpare(host: Host, source: Option<Tree>, n: Name) returns (o: Outcome)
    requires Down(host.service)
    modifies host`live, host`past, host`disk
    ensures o.Crashed? ==> !host.threat.NoThreat?
    ensures host.live == old(host.live) && host.past == old(host.past)
    ensures host.disk == old(host.disk).(spare := host.disk.spare)
    ensures o.Done? ==> source.Some? && n in host.disk.spare && host.disk.spare[n] == source.value
    ensures source.Some? && n !in old(host.disk.spare) && host.threat.NoThreat? ==> o.Done?
    ensures source.Some? && n !in old(host.disk.spare) && o.Raised? ==> host.threat.MayFail?
  {
    o := Done;
    :- host.Elapse();
    if source.None? || n in host.disk.spare {
      return Raised;
    }
    var part: Tree := *;
    host.disk := host.disk.(spare := host.disk.spare[n := part]);
    :- host.Elapse();
    host.disk := host.disk.(spare := host.disk.spare[n := source.value]);
    return Done;
  }

  /** Renames refuse to overwrite, so each one needs its target out of the way. */
  method Park(host: Host, n: Name) returns (o: Outcome)
    requires Down(host.service)
    modifies host`live, host`past, host`disk
    ensures host.past == old(host.past)
    ensures SameExcept(old(host.live), host.live, n)
    ensures host.disk == old(host.disk).(parked := host.disk.parked)
    ensures o.Done? ==> n !in host.live
    ensures n !in old(host.disk.parked) && host.threat.NoThreat? ==> o.Done?
    ensures n !in old(host.disk.parked) && o.Raised? ==> host.threat.MayFail?
  {
    o := Done;
    :- host.Elapse();
    if n in host.live {
      if n in host.disk.parked {
        return Raised;
      }
      host.disk := host.disk.(parked := host.disk.parked[n := host.live[n]]);
      host.live := host.live - {n};
    }
    return Done;
  }

  method Install(host: Host, n: Name) returns (o: Outcome)
    requires Down(host.service)
    modifies host`live, host`past, host`disk
    ensures host.past == old(host.past)
    ensures SameExcept(old(host.live), host.live, n)
    ensures host.disk == old(host.disk).(spare := host.disk.spare)
    ensures o.Done? ==> At(host.live, n) == At(old(host.disk.spare), n)
    ensures n !in old(host.live) && n in old(host.disk.spare) && host.threat.NoThreat? ==> o.Done?
    ensures n !in old(host.live) && n in old(host.disk.spare) && o.Raised? ==> host.threat.MayFail?
  {
    o := Done;
    :- host.Elapse();
    if n in host.live || n !in host.disk.spare {
      return Raised;
    }
    host.live := host.live[n := host.disk.spare[n]];
    host.disk := host.disk.(spare := host.disk.spare - {n});
    return Done;
  }

  /** Puts a copy of `source` in place of a live path, through the two fixed siblings. */
  method Replace(host: Host, source: Option<Tree>, n: Name) returns (o: Outcome)
    requires Down(host.service)
    modifies host`live, host`past, host`disk
    ensures o.Crashed? ==> !host.threat.NoThreat?
    ensures host.past == old(host.past)
    ensures SameExcept(old(host.live), host.live, n)
    ensures host.disk == old(host.disk).(spare := host.disk.spare, parked := host.disk.parked)
    ensures o.Done? ==> source.Some? && At(host.live, n) == source
    ensures source.Some? && host.threat.NoThreat? ==> o.Done?
    ensures source.Some? && o.Raised? ==> host.threat.MayFail?
  {
    o := Done;
    :- RemoveSpare(host, n);
    :- CopyToSpare(host, source, n);
    :- RemoveParked(host, n);
    :- Park(host, n);
    :- Install(host, n);
    :- RemoveParked(host, n);
    return Done;
  }

  /** The copy of one path of a new snapshot. */
  method Save(host: Host, run: RunId, n: Name) returns (o: Outcome)
    requires Down(host.service)
    requires run in host.disk.saved && n !in host.disk.saved[run].contents
    modifies host`live, host`past, host`disk
    ensures o.Crashed? ==> !host.threat.NoThreat?
    ensures host.live == old(host.live) && host.past == old(host.past)
    ensures run in host.disk.saved
    ensures host.disk == old(host.disk).(saved := host.disk.saved)
    ensures OthersKept(old(host.disk.saved), host.disk.saved, run)
    ensures o.Done? ==> n in host.live
    ensures o.Done? ==> host.disk.saved[run] ==
                        old(host.disk.saved[run]).(contents := old(host.disk.saved[run].contents)[n := host.live[n]])
    ensures n in host.live && host.threat.NoThreat? ==> o.Done?
    ensures n in host.live && o.Raised? ==> host.threat.MayFail?
  {
    var before := host.disk.saved[run];
    :- host.Elapse();
    if n !in host.live {
      return Raised;
    }
    var part: Tree := *;
    host.disk := host.disk.(saved := host.disk.saved[run := before.(contents := before.contents[n := part])]);
    :- host.Elapse();
    host.disk := host.disk.(saved := host.disk.saved[run := before.(contents := before.contents[n := host.live[n]])]);
    return Done;
  }

  method SaveTrees(host: Host, run: RunId) returns (o: Outcome)
    requires Down(host.service)
    requires run in host.disk.saved && host.disk.saved[run] == Snapshot(map[], None)
    modifies host`live, host`past, host`disk
    ensures host.live == old(host.live) && host.past == old(host.past)
    ensures run in host.disk.saved
    ensures host.disk == old(host.disk).(saved := host.disk.saved)
    ensures OthersKept(old(host.disk.saved), host.disk.saved, run)
    ensures o.Done? ==> Plist !in host.disk.saved[run].contents && host.disk.saved[run].inventory.None?
    ensures o.Done? ==> forall k :: 0 <= k < |TREES| ==>
                        At(host.disk.saved[run].contents, TREES[k]) == At(host.live, TREES[k])
    ensures host.threat.NoThreat? ==> o.Done?
    ensures o.Raised? ==> host.threat.MayFail?
  {
    var i := 0;
    while i < |TREES|
      invariant 0 <= i <= |TREES|
      invariant host.live == old(host.live) && host.past == old(host.past)
      invariant run in host.disk.saved
      invariant host.disk == old(host.disk).(saved := host.disk.saved)
      invariant OthersKept(old(host.disk.saved), host.disk.saved, run)
      invariant host.disk.saved[run].inventory.None? && Plist !in host.disk.saved[run].contents
      invariant forall k :: 0 <= k < i ==> At(host.disk.saved[run].contents, TREES[k]) == At(host.live, TREES[k])
      invariant forall k :: i <= k < |TREES| ==> TREES[k] !in host.disk.saved[run].contents
    {
      if TREES[i] in host.live {
        :- Save(host, run, TREES[i]);
      }
      i := i + 1;
    }
    return Done;
  }

  method SaveAll(host: Host, run: RunId) returns (o: Outcome)
    requires Down(host.service)
    requires run in host.disk.saved && host.disk.saved[run] == Snapshot(map[], None)
    modifies host`live, host`past, host`disk
    ensures o.Crashed? ==> !host.threat.NoThreat?
    ensures host.live == old(host.live) && host.past == old(host.past)
    ensures host.disk == old(host.disk).(saved := host.disk.saved)
    ensures run in host.disk.saved && OthersKept(old(host.disk.saved), host.disk.saved, run)
    ensures o.Done? ==> host.disk.saved[run] == Snapshot(host.live, None) && Plist in host.live
    ensures Plist in host.live && host.threat.NoThreat? ==> o.Done?
    ensures Plist in host.live && o.Raised? ==> host.threat.MayFail?
  {
    o := Done;
    :- SaveTrees(host, run);
    :- Save(host, run, Plist);
    EveryName(host.disk.saved[run].contents, host.live);
    return Done;
  }

  /** Saves the whole installation; the inventory, written last, makes the snapshot complete. */
  method TakeSnapshot(host: Host, run: RunId) returns (o: Outcome)
    requires Down(host.service)
    requires run !in host.disk.saved
    modifies host`live, host`past, host`disk
    ensures o.Crashed? ==> !host.threat.NoThreat?
    ensures host.live == old(host.live) && host.past == old(host.past)
    ensures host.disk == old(host.disk).(saved := host.disk.saved)
    ensures OthersKept(old(host.disk.saved), host.disk.saved, run)
    ensures o.Done? ==> run in host.disk.saved && Plist in host.live
    ensures o.Done? ==> host.disk.saved[run] == Snapshot(host.live, Some(host.live))
    ensures Plist in host.live && host.threat.NoThreat? ==> o.Done?
    ensures Plist in host.live && o.Raised? ==> host.threat.MayFail?
  {
    o := Done;
    :- host.Elapse();
    host.disk := host.disk.(saved := host.disk.saved[run := Snapshot(map[], None)]);
    :- SaveAll(host, run);
    :- host.Elapse();
    host.disk := host.disk.(saved := host.disk.saved[run :=
      host.disk.saved[run].(inventory := Some(host.disk.saved[run].contents))]);
    return Done;
  }

  method RestoreOne(host: Host, snapshot: Install, n: Name) returns (o: Outcome)
    requires Down(host.service)
    modifies host`live, host`past, host`disk
    ensures host.past == old(host.past)
    ensures SameExcept(old(host.live), host.live, n)
    ensures host.disk == old(host.disk).(spare := host.disk.spare, parked := host.disk.parked)
    ensures o.Done? ==> At(host.live, n) == At(snapshot, n)
    ensures host.threat.NoThreat? ==> o.Done?
    ensures o.Raised? ==> host.threat.MayFail?
  {
    if n in snapshot {
      o := Replace(host, Some(snapshot[n]), n);
    } else {
      o := RemoveLive(host, n);
    }
  }

  /** All trees of a snapshot, one after the other. */
  method RestoreTrees(host: Host, snapshot: Install) returns (o: Outcome)
    requires Down(host.service)
    modifies host`live, host`past, host`disk
    ensures host.past == old(host.past)
    ensures host.disk == old(host.disk).(spare := host.disk.spare, parked := host.disk.parked)
    ensures o.Done? ==> forall k :: 0 <= k < |TREES| ==> At(host.live, TREES[k]) == At(snapshot, TREES[k])
    ensures host.threat.NoThreat? ==> o.Done?
    ensures o.Raised? ==> host.threat.MayFail?
  {
    o := Done;
    for i := 0 to |TREES|
      invariant host.past == old(host.past)
      invariant host.disk == old(host.disk).(spare := host.disk.spare, parked := host.disk.parked)
      invariant forall k :: 0 <= k < i ==> At(host.live, TREES[k]) == At(snapshot, TREES[k])
      invariant o.Done?
    {
      o := RestoreOne(host, snapshot, TREES[i]);
      if !o.Done? {
        return;
      }
    }
  }

  /** Puts back every path of a snapshot, and removes what it did not have. */
  method Restore(host: Host, run: RunId) returns (o: Outcome)
    requires Down(host.service)
    modifies host`live, host`past, host`disk
    ensures host.past == old(host.past)
    ensures host.disk == old(host.disk).(spare := host.disk.spare, parked := host.disk.parked)
    ensures o.Done? ==> run in host.disk.saved && host.live == host.disk.saved[run].contents
    ensures !(run in host.disk.saved && host.disk.saved[run].inventory == Some(host.disk.saved[run].contents)) ==>
              !o.Done? && host.live == old(host.live) && host.disk == old(host.disk)
    ensures Retained(host.disk, run) && host.threat.NoThreat? ==> o.Done?
    ensures Retained(host.disk, run) && o.Raised? ==> host.threat.MayFail?
  {
    o := host.Elapse();
    if o.Done? {
      if run !in host.disk.saved || host.disk.saved[run].inventory != Some(host.disk.saved[run].contents) {
        return Raised;
      }
      var snapshot := host.disk.saved[run].contents;
      o := RestoreTrees(host, snapshot);
      if o.Done? {
        o := Replace(host, At(snapshot, Plist), Plist);
        if o.Done? {
          EveryName(host.live, snapshot);
        }
      }
    }
  }
}
