/** The resource broker as a state machine: grants, releases and close, each
    critical section and each call into the native lease a step. */
module ResourceBrokerSteps {
  import opened Text
  import opened Totals

  type Capability = string
  type Lease = nat

  /** Where a grant is: counted as pending throughout. */
  datatype Grant =
    | Resolving
    | Holding(lease: Lease)
    | GivingUp(lease: Lease)
    | Inserted
    | Ending

  datatype Closing = NotClosing | Waiting | Draining | CloseDone

  /** Where a resolved lease is. */
  datatype Place = ByGrant(op: nat) | InTable(capability: Capability) | ByRelease(op: nat) | ByClose | Released

  datatype Broker = Broker(
    maxActive: nat,
    leases: map<Capability, Lease>,
    pending: nat,
    closed: bool,
    closing: Closing,
    /** The leases Close took out of the table and has not released yet. */
    draining: set<Lease>,
    grants: map<nat, Grant>,
    releases: map<nat, Lease>,
    /** Calls of the native release, in order, and where every resolved lease is. */
    released: seq<Lease>,
    places: map<Lease, Place>)

  datatype Step =
    | BeginGrant(op: nat)
    | ResolveFails(op: nat)
    | Resolve(op: nat, lease: Lease)
    | Reject(op: nat)
    | Insert(op: nat, capability: Capability)
    | GiveUp(op: nat)
    | FinishGrant(op: nat)
    | BeginRelease(op: nat, capability: Capability)
    | EndRelease(op: nat)
    | BeginClose
    | TakeLeases
    | CloseLease(lease: Lease)
    | EndClose

  function NewBroker(maxActive: nat): Broker {
    Broker(maxActive, map[], 0, false, NotClosing, {}, map[], map[], [], map[])
  }

  /** The wait group: grants and releases in progress. */
  function Active(b: Broker): nat {
    |b.grants| + |b.releases|
  }

  predicate CanStep(b: Broker, s: Step) {
    match s
    case BeginGrant(op) => op !in b.grants && !b.closed && |b.leases| + b.pending < b.maxActive
    case ResolveFails(op) => op in b.grants && b.grants[op].Resolving?
    case Resolve(op, lease) => op in b.grants && b.grants[op].Resolving? && lease !in b.places
    case Reject(op) => op in b.grants && b.grants[op].Holding?
    case Insert(op, capability) => op in b.grants && b.grants[op].Holding? && capability !in b.leases
    case GiveUp(op) => op in b.grants && b.grants[op].GivingUp?
    case FinishGrant(op) => op in b.grants && (b.grants[op].Inserted? || b.grants[op].Ending?) && b.pending > 0
    case BeginRelease(op, capability) => op !in b.releases && !b.closed && capability in b.leases
    case EndRelease(op) => op in b.releases
    case BeginClose => !b.closed
    case TakeLeases => b.closing.Waiting? && Active(b) == 0
    case CloseLease(lease) => b.closing.Draining? && lease in b.draining
    case EndClose => b.closing.Draining? && b.draining == {}
  }

  function Next(b: Broker, s: Step): Broker
    requires CanStep(b, s)
  {
    match s
    case BeginGrant(op) => b.(pending := b.pending + 1, grants := b.grants[op := Resolving])
    case ResolveFails(op) => b.(grants := b.grants[op := Ending])
    case Resolve(op, lease) => b.(grants := b.grants[op := Holding(lease)], places := b.places[lease := ByGrant(op)])
    case Reject(op) => b.(grants := b.grants[op := GivingUp(b.grants[op].lease)])
    case Insert(op, capability) =>
      var lease := b.grants[op].lease;
      if b.closed then b.(grants := b.grants[op := GivingUp(lease)])
      else
        b.(leases := b.leases[capability := lease], grants := b.grants[op := Inserted],
           places := b.places[lease := InTable(capability)])
    case GiveUp(op) =>
      var lease := b.grants[op].lease;
      b.(grants := b.grants[op := Ending], released := b.released + [lease], places := b.places[lease := Released])
    case FinishGrant(op) => b.(pending := b.pending - 1, grants := b.grants - {op})
    case BeginRelease(op, capability) =>
      var lease := b.leases[capability];
      b.(leases := b.leases - {capability}, releases := b.releases[op := lease],
         places := b.places[lease := ByRelease(op)])
    case EndRelease(op) =>
      var lease := b.releases[op];
      b.(releases := b.releases - {op}, released := b.released + [lease], places := b.places[lease := Released])
    case BeginClose => b.(closed := true, closing := Waiting)
    case TakeLeases =>
      b.(leases := map[], closing := Draining,
         draining := set capability | capability in b.leases :: b.leases[capability],
         places := map lease | lease in b.places :: if b.places[lease].InTable? then ByClose else b.places[lease])
    case CloseLease(lease) =>
      b.(draining := b.draining - {lease}, released := b.released + [lease], places := b.places[lease := Released])
    case EndClose => b.(closing := CloseDone)
  }

  // ---- Every lease is in one place ----

  predicate HoldsLease(g: Grant, lease: Lease) {
    (g.Holding? || g.GivingUp?) && g.lease == lease
  }

  /** The place on record is where the lease is. */
  ghost predicate PlaceSound(b: Broker, lease: Lease, place: Place) {
    match place
    case ByGrant(op) => op in b.grants && HoldsLease(b.grants[op], lease)
    case InTable(capability) => capability in b.leases && b.leases[capability] == lease
    case ByRelease(op) => op in b.releases && b.releases[op] == lease
    case ByClose => lease in b.draining
    case Released => lease in b.released
  }

  ghost predicate PlacesSound(b: Broker) {
    forall lease | lease in b.places :: PlaceSound(b, lease, b.places[lease])
  }

  /** And it is nowhere else. */
  ghost predicate PlacesComplete(b: Broker) {
    && (forall op | op in b.grants && (b.grants[op].Holding? || b.grants[op].GivingUp?) ::
          b.grants[op].lease in b.places && b.places[b.grants[op].lease] == ByGrant(op))
    && (forall c | c in b.leases :: b.leases[c] in b.places && b.places[b.leases[c]] == InTable(c))
    && (forall op | op in b.releases :: b.releases[op] in b.places && b.places[b.releases[op]] == ByRelease(op))
    && (forall lease | lease in b.draining :: lease in b.places && b.places[lease] == ByClose)
    && ReleasedOnce(b.released, b.places)
  }

  /** No lease is released twice. */
  ghost predicate ReleasedOnce(released: seq<Lease>, places: map<Lease, Place>) {
    && (forall lease | lease in released :: lease in places && places[lease] == Released)
    && (forall i, j | 0 <= i < j < |released| :: released[i] != released[j])
  }

  lemma OneMoreReleased(released: seq<Lease>, places: map<Lease, Place>, lease: Lease)
    requires ReleasedOnce(released, places) && (lease in places ==> places[lease] != Released)
    ensures ReleasedOnce(released + [lease], places[lease := Released])
  {
  }

  // ---- Counting ----

  /** Grants whose lease is not in the table yet. */
  function Uninserted(grants: map<nat, Grant>): set<nat> {
    set op | op in grants && !grants[op].Inserted?
  }

  ghost predicate Counted(b: Broker) {
    && b.pending == |b.grants|
    && |b.leases| + |Uninserted(b.grants)| <= b.maxActive
  }

  ghost predicate CloseSound(b: Broker) {
    && (b.closed <==> !b.closing.NotClosing?)
    && (b.closing.Draining? || b.closing.CloseDone? ==> b.grants == map[] && b.releases == map[] && b.leases == map[])
    && (!b.closing.Draining? ==> b.draining == {})
  }

  /** Close takes no more leases than the table could hold. */
  ghost predicate DrainBounded(b: Broker) {
    |b.draining| <= b.maxActive
  }

  ghost predicate Inv(b: Broker) {
    PlacesSound(b) && PlacesComplete(b) && Counted(b) && CloseSound(b) && DrainBounded(b)
  }

  lemma NextKeepsClose(b: Broker, s: Step)
    requires CloseSound(b) && CanStep(b, s)
    ensures CloseSound(Next(b, s))
  {
  }

  lemma GrantSizes(grants: map<nat, Grant>, op: nat, g: Grant)
    ensures |grants[op := g]| == |grants| + if op in grants then 0 else 1
    ensures op in grants ==> |grants - {op}| == |grants| - 1
  {
    assert grants[op := g].Keys == grants.Keys + {op};
    assert (grants - {op}).Keys == grants.Keys - {op};
  }

  lemma UninsertedChange(grants: map<nat, Grant>, op: nat, g: Grant)
    ensures Uninserted(grants[op := g]) == if g.Inserted? then Uninserted(grants) - {op} else Uninserted(grants) + {op}
    ensures Uninserted(grants - {op}) == Uninserted(grants) - {op}
  {
  }

  lemma UninsertedSize(grants: map<nat, Grant>)
    ensures |Uninserted(grants)| <= |grants|
  {
    SubsetSize(Uninserted(grants), grants.Keys);
  }

  ghost function Image<K(!new), V(!new)>(keys: set<K>, f: K -> V): set<V> {
    set k | k in keys :: f(k)
  }

  lemma {:induction false} ImageSize<K(!new), V(!new)>(keys: set<K>, f: K -> V)
    ensures |Image(keys, f)| <= |keys|
  {
    if keys != {} {
      var k :| k in keys;
      assert Image(keys, f) == Image(keys - {k}, f) + {f(k)};
      ImageSize(keys - {k}, f);
    }
  }

  lemma LeaseSizes(leases: map<Capability, Lease>, c: Capability, lease: Lease)
    ensures c !in leases ==> |leases[c := lease]| == |leases| + 1
    ensures c in leases ==> |leases - {c}| == |leases| - 1
  {
    assert leases[c := lease].Keys == leases.Keys + {c};
    assert (leases - {c}).Keys == leases.Keys - {c};
  }

  lemma GrantKeepsCount(b: Broker, s: Step)
    requires Counted(b) && CanStep(b, s) && (s.BeginGrant? || s.ResolveFails? || s.Resolve? || s.Reject? || s.GiveUp?
              || s.FinishGrant?)
    ensures Counted(Next(b, s))
  {
    var g := if s.FinishGrant? then Ending else Next(b, s).grants[s.op];
    GrantSizes(b.grants, s.op, g);
    UninsertedChange(b.grants, s.op, g);
    UninsertedSize(b.grants);
    hide Uninserted;
  }

  lemma InsertKeepsCount(b: Broker, s: Step)
    requires Counted(b) && CanStep(b, s) && s.Insert?
    ensures Counted(Next(b, s))
  {
    GrantSizes(b.grants, s.op, Next(b, s).grants[s.op]);
    UninsertedChange(b.grants, s.op, Next(b, s).grants[s.op]);
    LeaseSizes(b.leases, s.capability, b.grants[s.op].lease);
    assert s.op in Uninserted(b.grants);
    hide Uninserted;
  }

  lemma OtherKeepsCount(b: Broker, s: Step)
    requires Counted(b) && CanStep(b, s)
    requires s.BeginRelease? || s.EndRelease? || s.BeginClose? || s.TakeLeases? || s.CloseLease? || s.EndClose?
    ensures Counted(Next(b, s))
  {
    if s.BeginRelease? {
      LeaseSizes(b.leases, s.capability, 0);
    }
    hide Uninserted;
  }

  lemma OneGrantChanged(b: Broker, n: Broker, op: nat)
    requires PlacesSound(b) && n.places == b.places && n.leases == b.leases && n.releases == b.releases
    requires n.draining == b.draining && n.released == b.released
    requires forall other | other in b.grants && other != op :: other in n.grants && n.grants[other] == b.grants[other]
    requires op in b.grants ==> forall lease | HoldsLease(b.grants[op], lease) ::
              op in n.grants && HoldsLease(n.grants[op], lease)
    ensures PlacesSound(n)
  {
    forall lease | lease in n.places
      ensures PlaceSound(n, lease, n.places[lease])
    {
      assert PlaceSound(b, lease, b.places[lease]);
    }
  }

  lemma QuietGrantKeepsPlaces(b: Broker, s: Step)
    requires PlacesSound(b) && CanStep(b, s) && (s.BeginGrant? || s.ResolveFails? || s.Reject? || s.FinishGrant?)
    ensures PlacesSound(Next(b, s))
  {
    hide PlacesSound;
    OneGrantChanged(b, Next(b, s), s.op);
  }

  lemma ResolveKeepsPlaces(b: Broker, s: Step)
    requires PlacesSound(b) && CanStep(b, s) && s.Resolve?
    ensures PlacesSound(Next(b, s))
  {
    var n := Next(b, s);
    forall lease | lease in n.places
      ensures PlaceSound(n, lease, n.places[lease])
    {
      if lease != s.lease {
        assert PlaceSound(b, lease, b.places[lease]);
      }
    }
  }

  lemma GrantKeepsPlaces(b: Broker, s: Step)
    requires PlacesSound(b) && PlacesComplete(b) && CanStep(b, s)
    requires s.BeginGrant? || s.ResolveFails? || s.Resolve? || s.Reject? || s.FinishGrant?
    ensures PlacesSound(Next(b, s))
  {
    hide PlacesSound, PlacesComplete, CanStep, Next;
    if s.Resolve? {
      ResolveKeepsPlaces(b, s);
    } else {
      QuietGrantKeepsPlaces(b, s);
    }
  }

  lemma GrantKeepsComplete(b: Broker, s: Step)
    requires PlacesSound(b) && PlacesComplete(b) && CanStep(b, s)
    requires s.BeginGrant? || s.ResolveFails? || s.Resolve? || s.Reject? || s.FinishGrant?
    ensures PlacesComplete(Next(b, s))
  {
  }

  lemma MoveKeepsPlaces(b: Broker, s: Step)
    requires PlacesSound(b) && PlacesComplete(b) && CanStep(b, s)
    requires s.Insert? || s.GiveUp?
    ensures PlacesSound(Next(b, s))
  {
  }

  lemma GiveUpKeepsComplete(b: Broker, s: Step)
    requires PlacesSound(b) && PlacesComplete(b) && CanStep(b, s) && s.GiveUp?
    ensures PlacesComplete(Next(b, s))
  {
    OneMoreReleased(b.released, b.places, b.grants[s.op].lease);
    hide ReleasedOnce;
  }

  lemma InsertKeepsComplete(b: Broker, s: Step)
    requires PlacesSound(b) && PlacesComplete(b) && CanStep(b, s) && s.Insert?
    ensures PlacesComplete(Next(b, s))
  {
  }

  lemma BeginKeepsPlaces(b: Broker, s: Step)
    requires PlacesSound(b) && PlacesComplete(b) && CanStep(b, s) && s.BeginRelease?
    ensures PlacesSound(Next(b, s))
  {
  }

  lemma BeginKeepsComplete(b: Broker, s: Step)
    requires PlacesSound(b) && PlacesComplete(b) && CanStep(b, s) && s.BeginRelease?
    ensures PlacesComplete(Next(b, s))
  {
  }

  lemma EndKeepsPlaces(b: Broker, s: Step)
    requires PlacesSound(b) && PlacesComplete(b) && CanStep(b, s) && s.EndRelease?
    ensures PlacesSound(Next(b, s))
  {
  }

  lemma EndKeepsComplete(b: Broker, s: Step)
    requires PlacesSound(b) && PlacesComplete(b) && CanStep(b, s) && s.EndRelease?
    ensures PlacesComplete(Next(b, s))
  {
    OneMoreReleased(b.released, b.places, b.releases[s.op]);
    hide ReleasedOnce;
  }

  lemma CloseKeepsPlaces(b: Broker, s: Step)
    requires PlacesSound(b) && PlacesComplete(b) && CloseSound(b) && CanStep(b, s)
    requires s.BeginClose? || s.TakeLeases? || s.CloseLease? || s.EndClose?
    ensures PlacesSound(Next(b, s))
  {
  }

  lemma CloseKeepsComplete(b: Broker, s: Step)
    requires PlacesSound(b) && PlacesComplete(b) && CloseSound(b) && CanStep(b, s)
    requires s.BeginClose? || s.TakeLeases? || s.CloseLease? || s.EndClose?
    ensures PlacesComplete(Next(b, s))
  {
  }

  lemma NextKeepsCount(b: Broker, s: Step)
    requires Counted(b) && CanStep(b, s)
    ensures Counted(Next(b, s))
  {
    hide Counted, CanStep, Next;
    if s.Insert? {
      InsertKeepsCount(b, s);
    } else if s.BeginGrant? || s.ResolveFails? || s.Resolve? || s.Reject? || s.GiveUp? || s.FinishGrant? {
      GrantKeepsCount(b, s);
    } else {
      OtherKeepsCount(b, s);
    }
  }

  lemma NextKeepsPlaces(b: Broker, s: Step)
    requires PlacesSound(b) && PlacesComplete(b) && CloseSound(b) && CanStep(b, s)
    ensures PlacesSound(Next(b, s)) && PlacesComplete(Next(b, s))
  {
    hide PlacesSound, PlacesComplete, CloseSound, CanStep, Next;
    if s.BeginGrant? || s.ResolveFails? || s.Resolve? || s.Reject? || s.FinishGrant? {
      GrantKeepsPlaces(b, s);
      GrantKeepsComplete(b, s);
    } else if s.Insert? || s.GiveUp? {
      MoveKeepsPlaces(b, s);
      if s.Insert? {
        InsertKeepsComplete(b, s);
      } else {
        GiveUpKeepsComplete(b, s);
      }
    } else if s.BeginRelease? {
      BeginKeepsPlaces(b, s);
      BeginKeepsComplete(b, s);
    } else if s.EndRelease? {
      EndKeepsPlaces(b, s);
      EndKeepsComplete(b, s);
    } else {
      CloseKeepsPlaces(b, s);
      CloseKeepsComplete(b, s);
    }
  }

  function TableLease(b: Broker): Capability -> Lease {
    c => if c in b.leases then b.leases[c] else 0
  }

  lemma TakenLeases(b: Broker)
    requires CanStep(b, TakeLeases)
    ensures |Next(b, TakeLeases).draining| <= |b.leases|
  {
    assert Next(b, TakeLeases).draining == Image(b.leases.Keys, TableLease(b));
    ImageSize(b.leases.Keys, TableLease(b));
  }

  lemma NextKeepsDrain(b: Broker, s: Step)
    requires Counted(b) && DrainBounded(b) && CanStep(b, s)
    ensures DrainBounded(Next(b, s))
  {
    match s
    case TakeLeases =>
      TakenLeases(b);
    case CloseLease(lease) => SubsetSize(b.draining - {lease}, b.draining);
    case _ =>
  }

  lemma NextKeepsInv(b: Broker, s: Step)
    requires Inv(b) && CanStep(b, s)
    ensures Inv(Next(b, s)) && Next(b, s).maxActive == b.maxActive
  {
    hide PlacesSound, PlacesComplete, CloseSound, Counted, CanStep, DrainBounded;
    NextKeepsDrain(b, s);
    NextKeepsPlaces(b, s);
    NextKeepsCount(b, s);
    NextKeepsClose(b, s);
  }

  // ---- Every run ----

  predicate Runs(b: Broker, steps: seq<Step>)
    decreases |steps|
  {
    steps == [] || (CanStep(b, steps[0]) && Runs(Next(b, steps[0]), steps[1..]))
  }

  function After(b: Broker, steps: seq<Step>): Broker
    requires Runs(b, steps)
    decreases |steps|
  {
    if steps == [] then b else After(Next(b, steps[0]), steps[1..])
  }

  lemma {:induction false} RunKeepsInv(b: Broker, steps: seq<Step>)
    requires Inv(b) && Runs(b, steps)
    ensures Inv(After(b, steps)) && After(b, steps).maxActive == b.maxActive
    decreases |steps|
  {
    if steps != [] {
      hide Inv, CanStep, Next;
      NextKeepsInv(b, steps[0]);
      RunKeepsInv(Next(b, steps[0]), steps[1..]);
    }
  }

  /** In every reachable state the table with the grants under way stays within
      the limit, every resolved lease is where its one place says and nowhere
      else, and no native release is called twice. */
  lemma LeasesAreAccounted(maxActive: nat, steps: seq<Step>)
    requires Runs(NewBroker(maxActive), steps)
    ensures var b := After(NewBroker(maxActive), steps);
            && |b.leases| + |Uninserted(b.grants)| <= maxActive
            && PlacesSound(b) && PlacesComplete(b)
            && (forall i, j | 0 <= i < j < |b.released| :: b.released[i] != b.released[j])
  {
    RunKeepsInv(NewBroker(maxActive), steps);
  }

  /** When Close has finished, every lease ever resolved was released exactly once. */
  lemma ClosedReleasedAll(b: Broker)
    requires Inv(b) && b.closing.CloseDone?
    ensures forall lease | lease in b.places :: lease in b.released
    ensures forall lease | lease in b.released :: lease in b.places
    ensures forall i, j | 0 <= i < j < |b.released| :: b.released[i] != b.released[j]
  {
    forall lease | lease in b.places
      ensures lease in b.released
    {
      assert PlaceSound(b, lease, b.places[lease]);
    }
  }

  // ---- Close comes to an end ----

  /** How many steps a grant can still take once the broker is closed. */
  function GrantSteps(g: Grant): nat {
    match g
    case Resolving => 4
    case Holding(_) => 3
    case GivingUp(_) => 2
    case Inserted => 1
    case Ending => 1
  }

  function ClosingSteps(c: Closing): nat {
    match c
    case NotClosing => 3
    case Waiting => 2
    case Draining => 1
    case CloseDone => 0
  }

  /** And how many the closed broker can take, at most. */
  ghost function StepsLeft(b: Broker): nat {
    Total(b.grants, GrantSteps) + |b.releases| + |b.leases| + |b.draining| + ClosingSteps(b.closing)
  }

  lemma GrantProgress(b: Broker, s: Step)
    requires b.closed && CanStep(b, s)
    requires s.ResolveFails? || s.Resolve? || s.Reject? || s.Insert? || s.GiveUp? || s.FinishGrant?
    ensures StepsLeft(Next(b, s)) < StepsLeft(b) && Next(b, s).closed
  {
    hide Total;
    if s.FinishGrant? {
      TotalWithout(b.grants, GrantSteps, s.op);
    } else {
      TotalUpdate(b.grants, GrantSteps, s.op, Next(b, s).grants[s.op]);
    }
  }

  lemma OneLess<V>(m: map<nat, V>, key: nat)
    requires key in m
    ensures |m - {key}| == |m| - 1
  {
    assert (m - {key}).Keys == m.Keys - {key};
  }

  lemma ReleaseProgress(b: Broker, op: nat)
    requires b.closed && CanStep(b, EndRelease(op))
    ensures StepsLeft(Next(b, EndRelease(op))) < StepsLeft(b) && Next(b, EndRelease(op)).closed
  {
    hide Total;
    OneLess(b.releases, op);
  }

  lemma TakeProgress(b: Broker)
    requires b.draining == {} && b.closed && CanStep(b, TakeLeases)
    ensures StepsLeft(Next(b, TakeLeases)) < StepsLeft(b) && Next(b, TakeLeases).closed
  {
    hide Total;
    TakenLeases(b);
    var n := Next(b, TakeLeases);
    assert n.grants == b.grants && n.releases == b.releases && |n.leases| == 0 && |b.draining| == 0;
  }

  lemma DrainProgress(b: Broker, s: Step)
    requires b.closed && CanStep(b, s) && (s.CloseLease? || s.EndClose?)
    ensures StepsLeft(Next(b, s)) < StepsLeft(b) && Next(b, s).closed
  {
    hide Total;
    if s.CloseLease? {
      assert |b.draining - {s.lease}| == |b.draining| - 1;
    }
  }

  /** Every step of a closed broker, of a grant, a release or Close itself, brings
      the end closer. */
  lemma CloseProgress(b: Broker, s: Step)
    requires Inv(b) && b.closed && CanStep(b, s)
    ensures StepsLeft(Next(b, s)) < StepsLeft(b) && Next(b, s).closed
  {
    assert s.TakeLeases? ==> b.draining == {};
    assert !s.BeginGrant? && !s.BeginRelease? && !s.BeginClose?;
    hide Inv, CanStep, Next, StepsLeft;
    match s
    case EndRelease(op) => ReleaseProgress(b, op);
    case TakeLeases => TakeProgress(b);
    case CloseLease(_) => DrainProgress(b, s);
    case EndClose => DrainProgress(b, s);
    case _ => GrantProgress(b, s);
  }

  /** A grant whose resolver returned can always go on. */
  lemma GrantNotStuck(b: Broker, op: nat) returns (s: Step)
    requires Counted(b) && op in b.grants
    ensures CanStep(b, s)
  {
    assert op in b.grants.Keys && |b.grants| == |b.grants.Keys|;
    match b.grants[op]
    case Resolving => s := ResolveFails(op);
    case Holding(_) =>
      var unused := UnusedTexts(b.leases.Keys, 1);
      s := Insert(op, unused[0]);
    case GivingUp(_) => s := GiveUp(op);
    case Inserted => s := FinishGrant(op);
    case Ending => s := FinishGrant(op);
  }

  /** And until Close has finished, something can go on. */
  lemma CloseIsNotStuck(b: Broker) returns (s: Step)
    requires Inv(b) && b.closed && !b.closing.CloseDone?
    ensures CanStep(b, s)
  {
    if op :| op in b.grants {
      s := GrantNotStuck(b, op);
    } else if op :| op in b.releases {
      s := EndRelease(op);
    } else if b.closing.Waiting? {
      s := TakeLeases;
    } else if lease :| lease in b.draining {
      s := CloseLease(lease);
    } else {
      s := EndClose;
    }
  }

  /** In every run a closed broker takes at most so many steps, and when it can
      take no more, Close has finished: every lease was released exactly once. */
  lemma {:induction false} CloseEnds(b: Broker, steps: seq<Step>)
    requires Inv(b) && b.closed && Runs(b, steps)
    ensures |steps| <= StepsLeft(b)
    ensures (forall s :: !CanStep(After(b, steps), s)) <==> After(b, steps).closing.CloseDone?
    decreases |steps|
  {
    if steps == [] {
      if !b.closing.CloseDone? {
        var s := CloseIsNotStuck(b);
      }
    } else {
      CloseProgress(b, steps[0]);
      NextKeepsInv(b, steps[0]);
      hide Inv, CanStep, Next, StepsLeft;
      CloseEnds(Next(b, steps[0]), steps[1..]);
    }
  }

  lemma InTableIsOpen(b: Broker, capability: Capability)
    requires Inv(b) && capability in b.leases
    ensures b.leases[capability] !in b.released
  {
    assert b.places[b.leases[capability]] == InTable(capability);
  }

  // ---- The limit counts the table, not the native leases ----

  /** Leases the native side still holds open. */
  function Unreleased(b: Broker): set<Lease> {
    set lease | lease in b.places && !b.places[lease].Released?
  }

  lemma UnionSize<T>(a: set<T>, b: set<T>, c: set<T>, all: set<T>)
    requires all <= a + b + c
    ensures |all| <= |a| + |b| + |c|
  {
    SubsetSize(all, a + b + c);
    assert |a + b| <= |a| + |b|;
  }

  /** The lease of a grant, of a capability and of a release in progress. */
  function GrantLease(b: Broker): nat -> Lease {
    op => if op in b.grants && (b.grants[op].Holding? || b.grants[op].GivingUp?) then b.grants[op].lease else 0
  }

  function ReleaseLease(b: Broker): nat -> Lease {
    op => if op in b.releases then b.releases[op] else 0
  }

  lemma UnreleasedPlace(b: Broker, lease: Lease)
    requires PlacesSound(b) && lease in Unreleased(b) && lease !in b.draining
    ensures lease in Image(Uninserted(b.grants), GrantLease(b))
            || lease in Image(b.leases.Keys, TableLease(b)) || lease in Image(b.releases.Keys, ReleaseLease(b))
  {
    assert PlaceSound(b, lease, b.places[lease]);
    match b.places[lease]
    case ByGrant(op) => assert op in Uninserted(b.grants) && GrantLease(b)(op) == lease;
    case InTable(c) => assert c in b.leases.Keys && TableLease(b)(c) == lease;
    case ByRelease(op) => assert op in b.releases.Keys && ReleaseLease(b)(op) == lease;
    case _ =>
  }

  lemma DrainingHoldsAll(b: Broker)
    requires Inv(b) && b.closing.Draining?
    ensures Unreleased(b) <= b.draining
  {
    forall lease | lease in Unreleased(b)
      ensures lease in b.draining
    {
      assert PlaceSound(b, lease, b.places[lease]);
    }
  }

  /** The native leases exceed the limit by no more than the releases in progress. */
  lemma NativeLeasesBound(b: Broker)
    requires Inv(b)
    ensures |Unreleased(b)| <= b.maxActive + |b.releases|
  {
    if b.closing.Draining? {
      DrainingHoldsAll(b);
      SubsetSize(Unreleased(b), b.draining);
    } else {
      OpenLeasesBound(b);
    }
  }

  lemma OpenLeasesBound(b: Broker)
    requires Inv(b) && b.draining == {}
    ensures |Unreleased(b)| <= b.maxActive + |b.releases|
  {
    hide Image, GrantLease, TableLease, ReleaseLease, Uninserted, Unreleased, PlacesComplete;
    var held := Uninserted(b.grants);
    forall lease | lease in Unreleased(b)
      ensures lease in Image(held, GrantLease(b)) + Image(b.leases.Keys, TableLease(b))
                + Image(b.releases.Keys, ReleaseLease(b))
    {
      UnreleasedPlace(b, lease);
    }
    UnionSize(Image(held, GrantLease(b)), Image(b.leases.Keys, TableLease(b)), Image(b.releases.Keys, ReleaseLease(b)),
              Unreleased(b));
    ImageSize(held, GrantLease(b));
    ImageSize(b.leases.Keys, TableLease(b));
    ImageSize(b.releases.Keys, ReleaseLease(b));
  }

  /** Some leases are being released, others are held by grants. */
  ghost predicate Stalled(b: Broker, releasing: nat, holding: nat) {
    && b.leases == map[] && b.pending == holding && !b.closed
    && |b.releases| == releasing && |b.places| == releasing + holding
    && Below(b, releasing + holding)
    && forall lease | lease in b.places :: !b.places[lease].Released?
  }

  /** Only numbers below were used so far. */
  ghost predicate Below(b: Broker, n: nat) {
    && (forall op | op in b.releases :: op < n)
    && (forall op | op in b.grants :: op < n)
    && (forall lease | lease in b.places :: lease < n)
  }

  lemma OneMoreKey<V>(m: map<nat, V>, key: nat, value: V)
    requires key !in m
    ensures |m[key := value]| == |m| + 1
  {
    assert m[key := value].Keys == m.Keys + {key};
  }

  ghost predicate Goes(b: Broker, s: Step, n: Broker) {
    CanStep(b, s) && n == Next(b, s)
  }

  ghost predicate Leads(b: Broker, steps: seq<Step>, n: Broker) {
    Runs(b, steps) && After(b, steps) == n
  }

  lemma LeadsFirst(b: Broker, s: Step, n: Broker, rest: seq<Step>, end: Broker)
    requires Goes(b, s, n) && Leads(n, rest, end)
    ensures Leads(b, [s] + rest, end)
  {
    assert ([s] + rest)[1..] == rest;
  }

  lemma {:induction false} LeadsOn(b: Broker, steps: seq<Step>, mid: Broker, more: seq<Step>, end: Broker)
    requires Leads(b, steps, mid) && Leads(mid, more, end)
    ensures Leads(b, steps + more, end)
    decreases |steps|
  {
    hide CanStep, Next;
    if steps == [] {
      assert steps + more == more;
    } else {
      LeadsOn(Next(b, steps[0]), steps[1..], mid, more, end);
      assert (steps + more)[1..] == steps[1..] + more;
    }
  }

  /** The grant of the next lease, up to the answer of the resolver. */
  function Held(b: Broker, op: nat): Broker {
    b.(pending := b.pending + 1, grants := b.grants[op := Holding(op)], places := b.places[op := ByGrant(op)])
  }

  lemma HeldIsStalled(b: Broker, n: nat, m: nat)
    requires Stalled(b, n, m)
    ensures Stalled(Held(b, n + m), n, m + 1)
  {
    OneMoreKey(b.places, n + m, ByGrant(n + m));
  }

  lemma GrantHolds(b: Broker, op: nat) returns (n: Broker)
    requires b.leases == map[] && b.pending < b.maxActive && !b.closed && op !in b.grants && op !in b.places
    ensures Goes(b, BeginGrant(op), n) && Goes(n, Resolve(op, op), Held(b, op))
  {
    n := Next(b, BeginGrant(op));
    assert n.grants == b.grants[op := Resolving];
  }

  lemma HoldRun(b: Broker, op: nat) returns (steps: seq<Step>)
    requires b.leases == map[] && b.pending < b.maxActive && !b.closed && op !in b.grants && op !in b.places
    ensures Leads(b, steps, Held(b, op))
  {
    var b1 := GrantHolds(b, op);
    hide Goes, Held;
    LeadsFirst(b1, Resolve(op, op), Held(b, op), [], Held(b, op));
    LeadsFirst(b, BeginGrant(op), b1, [Resolve(op, op)] + [], Held(b, op));
    steps := [BeginGrant(op)] + ([Resolve(op, op)] + []);
  }

  /** The lease is in the table and its release begun, which frees its place
      there before the native release is called. */
  function Let(b: Broker, op: nat): Broker {
    b.(releases := b.releases[op := op], places := b.places[op := ByRelease(op)])
  }

  lemma LetIsStalled(b: Broker, n: nat)
    requires Stalled(b, n, 0)
    ensures Stalled(Let(b, n), n + 1, 0)
  {
    OneMoreKey(b.places, n, ByRelease(n));
    OneMoreKey(b.releases, n, n);
  }

  function Tabled(b: Broker, op: nat): Broker {
    b.(leases := map["c" := op], pending := b.pending + 1, grants := b.grants[op := Inserted],
       places := b.places[op := InTable("c")])
  }

  lemma HeldIsTabled(b: Broker, op: nat)
    requires b.leases == map[] && !b.closed
    ensures Goes(Held(b, op), Insert(op, "c"), Tabled(b, op))
  {
    assert Held(b, op).grants[op := Inserted] == b.grants[op := Inserted];
    assert Held(b, op).places[op := InTable("c")] == b.places[op := InTable("c")];
  }

  function Issued(b: Broker, op: nat): Broker {
    b.(leases := map["c" := op], places := b.places[op := InTable("c")])
  }

  lemma TabledIsIssued(b: Broker, op: nat)
    requires op !in b.grants
    ensures Goes(Tabled(b, op), FinishGrant(op), Issued(b, op))
  {
    assert b.grants[op := Inserted] - {op} == b.grants;
  }

  lemma IssuedIsLet(b: Broker, op: nat)
    requires b.leases == map[] && !b.closed && op !in b.releases
    ensures Goes(Issued(b, op), BeginRelease(op, "c"), Let(b, op))
  {
    assert map["c" := op] - {"c"} == map[];
    assert b.places[op := InTable("c")][op := ByRelease(op)] == b.places[op := ByRelease(op)];
  }

  lemma LetRun(b: Broker, op: nat) returns (steps: seq<Step>)
    requires b.leases == map[] && !b.closed && op !in b.grants && op !in b.releases
    ensures Leads(Held(b, op), steps, Let(b, op))
  {
    HeldIsTabled(b, op);
    TabledIsIssued(b, op);
    IssuedIsLet(b, op);
    hide Goes, Held, Tabled, Issued, Let;
    LeadsFirst(Issued(b, op), BeginRelease(op, "c"), Let(b, op), [], Let(b, op));
    var last := [BeginRelease(op, "c")] + [];
    LeadsFirst(Tabled(b, op), FinishGrant(op), Issued(b, op), last, Let(b, op));
    last := [FinishGrant(op)] + last;
    LeadsFirst(Held(b, op), Insert(op, "c"), Tabled(b, op), last, Let(b, op));
    steps := [Insert(op, "c")] + last;
  }

  lemma HoldRound(b: Broker, n: nat, m: nat) returns (steps: seq<Step>)
    requires Stalled(b, n, m) && m < b.maxActive
    ensures Leads(b, steps, Held(b, n + m)) && Stalled(Held(b, n + m), n, m + 1)
  {
    HeldIsStalled(b, n, m);
    steps := HoldRun(b, n + m);
  }

  lemma ReleaseRound(b: Broker, n: nat) returns (steps: seq<Step>)
    requires Stalled(b, n, 0) && b.maxActive > 0
    ensures Leads(b, steps, Let(b, n)) && Stalled(Let(b, n), n + 1, 0)
  {
    LetIsStalled(b, n);
    var hold := HoldRun(b, n);
    var last := LetRun(b, n);
    hide *;
    LeadsOn(b, hold, Held(b, n), last, Let(b, n));
    steps := hold + last;
  }

  lemma NothingStalled(maxActive: nat)
    ensures Leads(NewBroker(maxActive), [], NewBroker(maxActive)) && Stalled(NewBroker(maxActive), 0, 0)
  {
  }

  lemma {:induction false} StalledIsReached(maxActive: nat, n: nat, m: nat) returns (steps: seq<Step>, b: Broker)
    requires 0 < maxActive && m <= maxActive
    ensures Leads(NewBroker(maxActive), steps, b) && Stalled(b, n, m) && b.maxActive == maxActive
    decreases n, m
  {
    hide Leads, Stalled;
    var more, next;
    if m > 0 {
      steps, b := StalledIsReached(maxActive, n, m - 1);
      more := HoldRound(b, n, m - 1);
      next := Held(b, n + m - 1);
    } else if n > 0 {
      steps, b := StalledIsReached(maxActive, n - 1, 0);
      more := ReleaseRound(b, n - 1);
      next := Let(b, n - 1);
    } else {
      NothingStalled(maxActive);
      return [], NewBroker(maxActive);
    }
    LeadsOn(NewBroker(maxActive), steps, b, more, next);
    steps, b := steps + more, next;
  }

  /** And that many are reached: with any limit and any number of releases in
      progress, the native side can hold the limit and all of those. */
  lemma NativeLeasesReached(maxActive: nat, n: nat) returns (steps: seq<Step>)
    requires maxActive > 0
    ensures Runs(NewBroker(maxActive), steps)
    ensures |After(NewBroker(maxActive), steps).releases| == n
    ensures |Unreleased(After(NewBroker(maxActive), steps))| == maxActive + n
  {
    var b;
    steps, b := StalledIsReached(maxActive, n, maxActive);
    assert Unreleased(b) == b.places.Keys && |b.places| == |b.places.Keys|;
  }
}
