/** The Mac that a transaction changes: its files, its launchd service and its two admission gates. */
module UpdateHost {
  import opened Outcomes
  import opened UpdateState

  class Host {
    var live: Install
    var disk: Disk
    var service: Service
    ghost var past: Past
    var threat: Threat
    /** The host's verdict on a payload: its identity, its state contract and its signature. */
    const acceptable: Tree -> bool

    constructor (live: Install, acceptable: Tree -> bool)
      requires State in live && !Held(live)
      ensures this.acceptable == acceptable
      ensures this.live == live && disk == Disk(map[], map[], {}, map[], map[], None, None, None)
      ensures Up(live, service)
      ensures past == Past(live, [], live, live, true, 0, false, Order(0, live, 0, None, None, live))
    {
      this.live := live;
      disk := Disk(map[], map[], {}, map[], map[], None, None, None);
      service := Service(true, true, true, true);
      past := Past(live, [], live, live, true, 0, false, Order(0, live, 0, None, None, live));
      threat := NoThreat;
      this.acceptable := acceptable;
    }

    /** Any step may be the last one, may fail, or may take a while. */
    method Elapse() returns (o: Outcome)
      modifies `live, `past
      ensures Aged(old(live), service, old(past), live, past)
      ensures SamePast(old(past), past)
      ensures threat.NoThreat? ==> o.Done?
      ensures o.Raised? ==> threat.MayFail?
      ensures threat == MayFail(true) ==> o.Raised?
    {
      var data: Install := *;
      var writes: bool := *;
      if service.running && writes && Drifts(live, data) {
        live, past := data, past.(served := Unheld(data));
      }
      o := *;
      if threat.NoThreat? || (o.Raised? && threat.MayCrash?) {
        o := Done;
      } else if threat == MayFail(true) {
        o := Raised;
      }
    }

    /** Both admission gates are checked, and both job lists, before anything is touched. */
    method Preflight() returns (o: Outcome)
      modifies `live, `past
      ensures Aged(old(live), service, old(past), live, past)
      ensures SamePast(old(past), past)
      ensures o.Done? ==> service.running && service.accepting && service.queueOpen
      ensures old(Up(live, service)) && threat.NoThreat? ==> o.Done?
    {
      o := Done;
      :- Elapse();
      if !(service.running && service.accepting && service.queueOpen) {
        return Raised;
      }
      return Done;
    }

    method WriteHold() returns (o: Outcome)
      modifies `live, `past
      ensures o.Crashed? ==> !threat.NoThreat?
      ensures SamePast(old(past), past)
      ensures SameCode(old(live), live)
      ensures !o.Done? ==> Drifts(old(live), live)
      ensures State in old(live) <==> State in live
      ensures OnlyService(old(live), old(past.served)) ==> OnlyService(live, past.served)
      ensures !old(service.running) ==> Unheld(live) == Unheld(old(live)) && past.served == old(past.served)
      ensures o.Done? ==> Held(live)
      ensures State in old(live) && threat.NoThreat? ==> o.Done?
      ensures State in old(live) && o.Raised? ==> threat.MayFail?
    {
      o := Done;
      :- Elapse();
      if State !in live {
        return Raised;
      }
      HoldIsOnlyAMarker(live);
      live := WithHold(live);
      return Done;
    }

    /** Shuts both gates and then looks for jobs once more. */
    method CloseAdmission() returns (o: Outcome)
      modifies `live, `past, `service
      ensures o.Crashed? ==> !threat.NoThreat?
      ensures SamePast(old(past), past)
      ensures SameCode(old(live), live)
      ensures State in old(live) <==> State in live
      ensures OnlyService(old(live), old(past.served)) ==> OnlyService(live, past.served)
      ensures service.enabled == old(service.enabled)
      ensures service.running == old(service.running)
      ensures (service.accepting ==> old(service.accepting)) && (service.queueOpen ==> old(service.queueOpen))
      ensures o.Done? ==> Held(live) && !service.accepting && !service.queueOpen
      ensures old(service.queueOpen) && !service.queueOpen ==> Held(live)
      ensures old(service.accepting) && !service.accepting ==> Held(live) && !service.queueOpen
      ensures State in old(live) && old(service.running) && threat.NoThreat? ==> o.Done?
      ensures State in old(live) && old(service.running) && o.Raised? ==> threat.MayFail?
    {
      o := WriteHold();
      if o.Done? {
        o := ShutBoth();
      }
    }

    /** The queue first, and then the provider. */
    method ShutBoth() returns (o: Outcome)
      modifies `live, `past, `service
      ensures Aged(old(live), old(service), old(past), live, past) && SamePast(old(past), past)
      ensures service == old(service).(accepting := service.accepting, queueOpen := service.queueOpen)
      ensures (service.accepting ==> old(service.accepting)) && (service.queueOpen ==> old(service.queueOpen))
      ensures old(service.accepting) && !service.accepting ==> !service.queueOpen
      ensures o.Done? ==> !service.accepting && !service.queueOpen
      ensures old(service.running) && threat.NoThreat? ==> o.Done?
      ensures o.Crashed? ==> !threat.NoThreat?
      ensures old(service.running) && o.Raised? ==> threat.MayFail?
    {
      o := Done;
      :- Elapse();
      service := service.(queueOpen := false);
      :- Elapse();
      if !service.running {
        return Raised;
      }
      service := service.(accepting := false);
      :- Elapse();
      return Done;
    }

    /** One host command of stopping the service. */
    method StopPart(target: Service, ghost vetted: bool) returns (o: Outcome)
      modifies `live, `past, `service
      ensures Aged(old(live), old(service), old(past), live, past)
      ensures SamePast(old(past), past.(vetted := old(past.vetted)))
      ensures threat.NoThreat? ==> o.Done?
      ensures o.Raised? ==> threat.MayFail?
      ensures service == if o.Done? then target else old(service)
      ensures past.vetted == if o.Done? then vetted else old(past.vetted)
    {
      o := Done;
      :- Elapse();
      service, past := target, past.(vetted := vetted);
      return Done;
    }

    /** Keeps launchd from bringing the service back, whatever becomes of the queue command. */
    method Override() returns (o: Outcome)
      modifies `live, `past, `service
      ensures Aged(old(live), old(service), old(past), live, past)
      ensures SamePast(old(past), past)
      ensures service == old(service).(queueOpen := service.queueOpen, enabled := service.enabled)
      ensures (service.enabled ==> old(service.enabled)) && (service.queueOpen ==> old(service.queueOpen))
      ensures o.Done? ==> !service.enabled && !service.queueOpen
      ensures threat.NoThreat? ==> o.Done?
      ensures o.Raised? ==> threat.MayFail?
    {
      var queue := StopPart(service.(queueOpen := false), past.vetted);
      if queue.Crashed? { return Crashed; }
      :- StopPart(service.(enabled := false), past.vetted);
      return queue;
    }

    /** Keeps going after a failed part, and reports the failure at the end. */
    method Stop() returns (o: Outcome)
      modifies `live, `past, `service
      ensures SamePast(old(past), past.(vetted := old(past.vetted), stops := old(past.stops)))
      ensures past.stops == old(past.stops) + 1
      ensures Aged(old(live), old(service), old(past), live, past)
      ensures service.enabled ==> old(service.enabled)
      ensures service.queueOpen ==> old(service.queueOpen)
      ensures service.running ==> old(service.running)
      ensures service.accepting ==> old(service.accepting)
      ensures o.Done? ==> Down(service) && !service.queueOpen
      ensures threat.NoThreat? ==> o.Done?
      ensures o.Raised? ==> threat.MayFail?
    {
      past := past.(stops := past.stops + 1);
      var override := Override();
      if override.Crashed? { return Crashed; }
      var job := StopPart(service.(running := false, accepting := false), false);
      if job.Crashed? { return Crashed; }
      var check := Elapse();
      return if override.Raised? || job.Raised? then (if check.Crashed? then Crashed else Raised) else check;
    }

    /** Enabling is what lets launchd run the installation, so that is what `starts` records. */
    method Start() returns (o: Outcome)
      requires Down(service)
      modifies `live, `past, `service
      ensures SamePast(old(past), past.(vetted := old(past.vetted), starts := old(past.starts)))
      ensures past.starts == old(past.starts) || past.starts == old(past.starts) + [Unheld(old(live))]
      ensures !Down(service) ==> past.starts == old(past.starts) + [Unheld(old(live))]
      ensures !Down(service) ==> Held(live) && OnlyService(live, past.served)
      ensures Down(service) ==> Unheld(live) == Unheld(old(live))
      ensures Held(old(live)) ==> Held(live)
      ensures SameCode(old(live), live)
      ensures !service.accepting && service.queueOpen == old(service.queueOpen)
      ensures service.running ==> service.enabled
      ensures o.Done? ==> service.enabled && service.running && State in live
      ensures State in old(live) && threat.NoThreat? ==> o.Done?
      ensures State in old(live) && o.Raised? ==> threat.MayFail?
    {
      o := Done;
      :- WriteHold();
      :- Elapse();
      service := service.(enabled := true);
      past := past.(served := Unheld(live), starts := past.starts + [Unheld(live)], vetted := false);
      :- Elapse();
      service := service.(running := true, accepting := !Held(live));
      :- Elapse();
      return Done;
    }

    method Health() returns (o: Outcome)
      modifies `live, `past
      ensures Aged(old(live), service, old(past), live, past)
      ensures SamePast(old(past), past.(vetted := old(past.vetted)))
      ensures o.Done? ==> service.running
      ensures past.vetted == (old(past.vetted) || o.Done?)
      ensures old(service.running) && threat.NoThreat? ==> o.Done?
      ensures old(service.running) && o.Raised? ==> threat.MayFail?
    {
      o := Done;
      :- Elapse();
      if !service.running {
        return Raised;
      }
      past := past.(vetted := true);
      return Done;
    }

    /** Removes the hold marker and reopens both gates. */
    method Release() returns (o: Outcome)
      modifies `live, `past, `service
      ensures o.Crashed? ==> !threat.NoThreat?
      ensures SamePast(old(past), past)
      ensures SameCode(old(live), live)
      ensures State in old(live) <==> State in live
      ensures OnlyService(old(live), old(past.served)) ==> OnlyService(live, past.served)
      ensures service.enabled == old(service.enabled)
      ensures service.running == old(service.running)
      ensures service.accepting ==> old(service.accepting) || service.running
      ensures service.accepting && !old(service.accepting) ==> !Held(live)
      ensures service.queueOpen && !old(service.queueOpen) ==> !Held(live) && service.accepting
      ensures o.Done? ==> State in live && !Held(live)
      ensures o.Done? ==> service.accepting && service.queueOpen && service.running && old(service.running)
      ensures State in old(live) && old(service.running) && threat.NoThreat? ==> o.Done?
      ensures State in old(live) && old(service.running) && o.Raised? ==> threat.MayFail?
    {
      o := Done;
      :- Elapse();
      if State !in live {
        return Raised;
      }
      HoldIsOnlyAMarker(live);
      live := Unheld(live);
      :- Elapse();
      if !service.running {
        return Raised;
      }
      service := service.(accepting := true);
      :- Elapse();
      service := service.(queueOpen := true);
      :- Elapse();
      return Done;
    }

    /** A power loss: launchd brings an enabled service back, with its gate as the marker says. */
    method Restart()
      modifies `service
      ensures service == old(service).(running := service.enabled, accepting := service.enabled && !Held(live))
    {
      service := service.(running := service.enabled, accepting := service.enabled && !Held(live));
    }
  }
}
