/** The resource broker: its fields, and one method for each critical section and
    each call into a native lease. */
module ResourceBrokers {
  import opened Wrappers
  import opened ResourceBrokerSteps

  datatype BrokerError =
    | BookmarkInvalid | BookmarkTooLarge | BrokerClosed | GrantLimit | CapabilityInvalid | CapabilityNotFound

  class ResourceBroker {
    const maxActive: nat
    const maxBookmarkBytes: nat
    var leases: map<Capability, Lease>
    var pending: nat
    var closed: bool
    var closing: Closing
    var draining: set<Lease>
    /** The grants and releases in progress, counted by the wait group. */
    var grants: map<nat, Grant>
    var releases: map<nat, Lease>
    ghost var released: seq<Lease>
    ghost var places: map<Lease, Place>

    ghost function View(): Broker
      reads this
    {
      Broker(maxActive, leases, pending, closed, closing, draining, grants, releases, released, places)
    }

    /** The table and the grants under way stay within the limit, every lease that
        was resolved is in one place, and none was released twice. */
    ghost predicate Valid()
      reads this
    {
      Inv(View())
    }

    constructor (maxActive: nat, maxBookmarkBytes: nat)
      ensures View() == NewBroker(maxActive) && Valid() && this.maxBookmarkBytes == maxBookmarkBytes
    {
      this.maxActive, this.maxBookmarkBytes := maxActive, maxBookmarkBytes;
      leases, pending, closed, closing, draining := map[], 0, false, NotClosing, {};
      grants, releases, released, places := map[], map[], [], map[];
    }

    /** Grant up to the call of the resolver. */
    method BeginGrant(op: nat, bookmarkBytes: nat, validScope: bool) returns (r: Result<(), BrokerError>)
      requires Valid() && op !in grants
      modifies this
      ensures Valid()
      ensures r.Ok? <==>
                && 0 < bookmarkBytes <= maxBookmarkBytes && validScope && !closed
                && old(|leases| + |grants|) < maxActive
      ensures r.Ok? ==> op in grants && |grants| == old(|grants|) + 1
      ensures r.Ok? ==> CanStep(old(View()), Step.BeginGrant(op)) && View() == Next(old(View()), Step.BeginGrant(op))
      ensures r.Err? ==> View() == old(View())
      ensures r.Err? ==> r.error == if bookmarkBytes == 0 || !validScope then BookmarkInvalid
                                    else if bookmarkBytes > maxBookmarkBytes then BookmarkTooLarge
                                    else if closed then BrokerClosed else GrantLimit
    {
      if bookmarkBytes == 0 || !validScope { return Err(BookmarkInvalid); }
      if bookmarkBytes > maxBookmarkBytes { return Err(BookmarkTooLarge); }
      if closed { return Err(BrokerClosed); }
      if |leases| + pending >= maxActive { return Err(GrantLimit); }
      NextKeepsInv(View(), Step.BeginGrant(op));
      hide Inv, CanStep;
      pending := pending + 1;
      grants := grants[op := Resolving];
      r := Ok(());
    }

    /** The resolver returns an error or no lease. */
    method ResolverFails(op: nat)
      requires Valid() && CanStep(View(), Step.ResolveFails(op))
      modifies this
      ensures Valid()
      ensures View() == Next(old(View()), Step.ResolveFails(op))
      ensures places == old(places) && leases == old(leases) && released == old(released)
    {
      NextKeepsInv(View(), Step.ResolveFails(op));
      grants := grants[op := Ending];
    }

    method ResolverAnswers(op: nat, lease: Lease)
      requires Valid() && CanStep(View(), Step.Resolve(op, lease))
      modifies this
      ensures Valid()
      ensures View() == Next(old(View()), Step.Resolve(op, lease))
      ensures lease !in old(places) && places[lease] == ByGrant(op) && leases == old(leases)
    {
      NextKeepsInv(View(), Step.Resolve(op, lease));
      grants := grants[op := Holding(lease)];
      places := places[lease := ByGrant(op)];
    }

    /** A blank path, or no capability could be made. */
    method RejectLease(op: nat)
      requires Valid() && CanStep(View(), Step.Reject(op))
      modifies this
      ensures Valid()
      ensures View() == Next(old(View()), Step.Reject(op))
      ensures leases == old(leases) && released == old(released) && places == old(places)
    {
      NextKeepsInv(View(), Step.Reject(op));
      grants := grants[op := GivingUp(grants[op].lease)];
    }

    /** The lease goes into the table, unless the broker closed meanwhile. */
    method InsertLease(op: nat, capability: Capability) returns (granted: bool)
      requires Valid() && CanStep(View(), Step.Insert(op, capability))
      modifies this
      ensures Valid()
      ensures View() == Next(old(View()), Step.Insert(op, capability))
      ensures granted <==> !closed
      ensures granted ==> leases == old(leases)[capability := old(grants[op].lease)] && |leases| <= maxActive
      ensures !granted ==> leases == old(leases) && grants[op] == GivingUp(old(grants[op].lease))
    {
      NextKeepsInv(View(), Step.Insert(op, capability));
      var lease := grants[op].lease;
      if closed {
        grants := grants[op := GivingUp(lease)];
        return false;
      }
      leases := leases[capability := lease];
      grants := grants[op := Inserted];
      places := places[lease := InTable(capability)];
      granted := true;
    }

    /** The grant releases the native lease itself. */
    method GiveUpLease(op: nat)
      requires Valid() && CanStep(View(), Step.GiveUp(op))
      modifies this
      ensures Valid()
      ensures View() == Next(old(View()), Step.GiveUp(op))
      ensures old(grants[op].lease) !in old(released) && released == old(released) + [old(grants[op].lease)]
    {
      NextKeepsInv(View(), Step.GiveUp(op));
      assert places[grants[op].lease] == ByGrant(op);
      var lease := grants[op].lease;
      grants := grants[op := Ending];
      released := released + [lease];
      places := places[lease := Released];
    }

    method FinishGrant(op: nat)
      requires Valid() && CanStep(View(), Step.FinishGrant(op))
      modifies this
      ensures Valid()
      ensures View() == Next(old(View()), Step.FinishGrant(op))
      ensures places == old(places) && released == old(released)
    {
      NextKeepsInv(View(), Step.FinishGrant(op));
      pending := pending - 1;
      grants := grants - {op};
    }

    /** Release up to the native call; a capability this broker once issued and
        that is gone is no error. */
    method BeginRelease(op: nat, capability: Capability, validCapability: bool, issued: bool)
      returns (r: Result<bool, BrokerError>)
      requires Valid() && op !in releases
      modifies this
      ensures Valid()
      ensures capability in old(leases) && r == Ok(true) ==> old(leases)[capability] !in released
      ensures r == Ok(true) ==> CanStep(old(View()), Step.BeginRelease(op, capability))
                                && View() == Next(old(View()), Step.BeginRelease(op, capability))
      ensures r != Ok(true) ==> View() == old(View())
      ensures r == if !validCapability then Err(CapabilityInvalid) else if closed then Err(BrokerClosed)
                   else if capability in old(leases) then Ok(true)
                   else if issued then Ok(false) else Err(CapabilityNotFound)
    {
      if !validCapability { return Err(CapabilityInvalid); }
      if closed { return Err(BrokerClosed); }
      if capability !in leases { return if issued then Ok(false) else Err(CapabilityNotFound); }
      hide Inv;
      TakeOut(op, capability);
      r := Ok(true);
    }

    /** The lease leaves the table for the release. */
    method TakeOut(op: nat, capability: Capability)
      requires Valid() && CanStep(View(), Step.BeginRelease(op, capability))
      modifies this
      ensures Valid() && View() == Next(old(View()), Step.BeginRelease(op, capability))
      ensures old(leases)[capability] !in released
    {
      InTableIsOpen(View(), capability);
      NextKeepsInv(View(), Step.BeginRelease(op, capability));
      hide Inv;
      var lease := leases[capability];
      leases := leases - {capability};
      releases := releases[op := lease];
      places := places[lease := ByRelease(op)];
    }

    /** The native release, and the wait group is left. */
    method EndRelease(op: nat)
      requires Valid() && CanStep(View(), Step.EndRelease(op))
      modifies this
      ensures Valid()
      ensures View() == Next(old(View()), Step.EndRelease(op))
      ensures old(releases[op]) !in old(released) && released == old(released) + [old(releases[op])]
    {
      NextKeepsInv(View(), Step.EndRelease(op));
      assert places[releases[op]] == ByRelease(op);
      var lease := releases[op];
      releases := releases - {op};
      released := released + [lease];
      places := places[lease := Released];
    }

    /** The first call of Close; later calls only wait. */
    method BeginClose() returns (first: bool)
      requires Valid()
      modifies this
      ensures Valid()
      ensures first <==> !old(closed)
      ensures first ==> View() == Next(old(View()), Step.BeginClose)
      ensures !first ==> View() == old(View())
    {
      if closed { return false; }
      NextKeepsInv(View(), Step.BeginClose);
      hide Inv;
      closed := true;
      closing := Waiting;
      first := true;
    }

    /** After active.Wait, Close empties the table ... */
    method TakeLeases()
      requires Valid() && CanStep(View(), Step.TakeLeases)
      modifies this
      ensures Valid()
      ensures View() == Next(old(View()), Step.TakeLeases)
      ensures forall capability | capability in old(leases) :: old(leases)[capability] in draining
      ensures draining !! (set lease | lease in released)
    {
      NextKeepsInv(View(), Step.TakeLeases);
      forall lease | lease in released
        ensures places[lease] == Released
      {
      }
      draining := set capability | capability in leases :: leases[capability];
      leases := map[];
      closing := Draining;
      places := map lease | lease in places :: if places[lease].InTable? then ByClose else places[lease];
    }

    /** ... and releases what it took, one lease after the other, in any order. */
    method ReleaseTaken()
      requires Valid() && closing.Draining?
      modifies this
      ensures Valid() && closing.CloseDone?
      ensures draining == {} && leases == old(leases) && grants == old(grants) && releases == old(releases)
      ensures forall lease | lease in old(draining) :: lease in released
      ensures old(released) <= released && |released| == |old(released)| + |old(draining)|
      ensures places.Keys == old(places.Keys)
    {
      while draining != {}
        invariant Valid() && closing.Draining? && draining <= old(draining)
        invariant leases == old(leases) && grants == old(grants) && releases == old(releases)
        invariant forall lease | lease in old(draining) :: lease in released || lease in draining
        invariant old(released) <= released && |released| + |draining| == |old(released)| + |old(draining)|
        invariant places.Keys == old(places.Keys)
        decreases draining
      {
        var lease :| lease in draining;
        NextKeepsInv(View(), CloseLease(lease));
        hide Inv;
        CloseOne(lease);
      }
      NextKeepsInv(View(), EndClose);
      closing := CloseDone;
    }

    method CloseOne(lease: Lease)
      requires CanStep(View(), Step.CloseLease(lease))
      modifies this
      ensures View() == Next(old(View()), Step.CloseLease(lease))
    {
      draining := draining - {lease};
      released := released + [lease];
      places := places[lease := Released];
    }
  }
}
