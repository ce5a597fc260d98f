/** The reviewed capacity envelope: app/capacity.py, validate_capacity_config and the lane table. */
module CapacityConfig {
  import opened Common
  import opened Admission
  import opened AdmissionInvariant

  /** A setting as Python sees it; flags, texts and numbers that are not finite are all Unusable. */
  datatype Value = Whole(n: int) | Fraction(x: real) | Unusable

  datatype Deadline =
    | AuthBody | IngestBody | ImportBody | Response | RoutineSql | OperationSql | Lock

  datatype InputBound = AuthForm | BasicHeader | MultipartOverhead | MultipartFields | MultipartFiles

  /** The capacity settings that are present; the rest have their defaults. */
  datatype Config = Config(
    slots: map<LaneName, Value>, pending: map<LaneName, Value>, waits: map<LaneName, Value>,
    deadlines: map<Deadline, Value>, bounds: map<InputBound, Value>)

  const DEFAULTS := Config(map[], map[], map[], map[], map[])

  function Setting<K, T>(settings: map<K, T>, name: K, standard: T): T {
    if name in settings then settings[name] else standard
  }

  /** The number in a setting of whole numbers; no valid one is negative. */
  function WholeOf(v: Value): int {
    if v.Whole? then v.n else -1
  }

  /** The number in a setting of seconds; no valid one is zero. */
  function SecondsOf(v: Value): real {
    match v
    case Whole(n) => n as real
    case Fraction(x) => x
    case Unusable => 0.0
  }

  const LANES := {Ingest, Routine, Navigation, Foreground, Background, IngestIdentity, Identity, Lifecycle, Mail,
                  AuthIngest, AuthInteractive}
  const RUNTIME_LANES := [Ingest, Routine, Navigation, Foreground, Background]
  const CONTROL_LANES := [IngestIdentity, Identity, Lifecycle, Mail]
  const RUNTIME_POOL_MAX_SIZE := 6
  const CONTROL_POOL_MAX_SIZE := 5

  function Standard(lane: LaneName): LaneSpec {
    match lane
    case Ingest => LaneSpec(2, 4, 0.25)
    case Routine => LaneSpec(1, 4, 1.0)
    case Navigation => LaneSpec(1, 4, 1.0)
    case Foreground => LaneSpec(1, 4, 2.0)
    case Background => LaneSpec(1, 0, 0.0)
    case IngestIdentity => LaneSpec(1, 1, 0.25)
    case Identity => LaneSpec(1, 4, 1.0)
    case Lifecycle => LaneSpec(1, 0, 0.0)
    case Mail => LaneSpec(2, 0, 0.0)
    case AuthIngest => LaneSpec(2, 8, 1.0)
    case AuthInteractive => LaneSpec(1, 0, 0.0)
    case OtherLane(_) => LaneSpec(0, 0, 0.0)
  }

  function SlotsOf(c: Config, lane: LaneName): int {
    WholeOf(Setting(c.slots, lane, Whole(Standard(lane).limit)))
  }

  function PendingOf(c: Config, lane: LaneName): int {
    WholeOf(Setting(c.pending, lane, Whole(Standard(lane).pending)))
  }

  function WaitOf(c: Config, lane: LaneName): real {
    SecondsOf(Setting(c.waits, lane, Fraction(Standard(lane).wait)))
  }

  function StandardDeadline(d: Deadline): real {
    match d
    case AuthBody | IngestBody | OperationSql => 15.0
    case ImportBody | Response => 60.0
    case RoutineSql => 5.0
    case Lock => 1.0
  }

  function DeadlineOf(c: Config, d: Deadline): real {
    SecondsOf(Setting(c.deadlines, d, Fraction(StandardDeadline(d))))
  }

  /** Deadlines that the database enforces, in milliseconds of 31 bits. */
  predicate IsSqlDeadline(d: Deadline) {
    d == RoutineSql || d == OperationSql || d == Lock
  }

  const MAX_SQL_DEADLINE := 2147483.647

  /** What a connection sets as its timeout: milliseconds, rounded up. */
  function Milliseconds(seconds: real): int {
    var up := -((-(seconds * 1000.0)).Floor);
    if up < 1 then 1 else up
  }

  /** The default of a bound is also its maximum. */
  function BoundMaximum(b: InputBound): nat {
    match b
    case AuthForm | MultipartOverhead => 65536
    case BasicHeader => 8192
    case MultipartFields => 16
    case MultipartFiles => 1
  }

  function BoundOf(c: Config, b: InputBound): int {
    WholeOf(Setting(c.bounds, b, Whole(BoundMaximum(b))))
  }

  function SlotTotal(c: Config, lanes: seq<LaneName>): int {
    if lanes == [] then 0 else SlotsOf(c, lanes[0]) + SlotTotal(c, lanes[1..])
  }

  function SlotMaximum(lane: LaneName): Option<int> {
    match lane
    case Routine | Navigation | Foreground | Background | IngestIdentity | Identity | AuthInteractive => Some(1)
    case Mail | AuthIngest => Some(2)
    case _ => None
  }

  function WaitMaximum(lane: LaneName): Option<real> {
    match lane
    case AuthIngest => Some(1.0)
    case IngestIdentity => Some(0.25)
    case Navigation => Some(1.0)
    case _ => None
  }

  /** validate_capacity_config raises nothing. */
  predicate Accepts(c: Config) {
    && (forall l :: l in LANES ==> SlotsOf(c, l) > 0)
    && SlotTotal(c, RUNTIME_LANES) <= 6
    && SlotTotal(c, CONTROL_LANES) <= 5
    && (forall l :: l in LANES && SlotMaximum(l).Some? ==> SlotsOf(c, l) <= SlotMaximum(l).value)
    && (forall l :: l in LANES && Standard(l).pending > 0 ==>
          && 0 <= PendingOf(c, l) <= Standard(l).pending
          && 0.0 < WaitOf(c, l)
          && (WaitMaximum(l).Some? ==> WaitOf(c, l) <= WaitMaximum(l).value))
    && (forall d :: 0.0 < DeadlineOf(c, d) && (IsSqlDeadline(d) ==> DeadlineOf(c, d) <= MAX_SQL_DEADLINE))
    && (forall b :: 0 < BoundOf(c, b) <= BoundMaximum(b))
  }

  function SpecOf(c: Config, lane: LaneName): LaneSpec
    requires Accepts(c) && lane in LANES
  {
    if Standard(lane).pending > 0 then
      LaneSpec(SlotsOf(c, lane), PendingOf(c, lane), WaitOf(c, lane))
    else
      LaneSpec(SlotsOf(c, lane), 0, 0.0)
  }

  /** The lanes of a manager built from an accepted configuration. */
  function Lanes(c: Config): map<LaneName, LaneSpec>
    requires Accepts(c)
  {
    map l | l in LANES :: SpecOf(c, l)
  }

  function LimitTotal(lanes: map<LaneName, LaneSpec>, names: seq<LaneName>): nat
    requires forall l :: l in names ==> l in lanes
  {
    if names == [] then 0 else lanes[names[0]].limit + LimitTotal(lanes, names[1..])
  }

  lemma {:induction false} LimitsAreSlots(c: Config, names: seq<LaneName>)
    requires Accepts(c) && forall l :: l in names ==> l in LANES
    ensures LimitTotal(Lanes(c), names) == SlotTotal(c, names)
  {
    if names != [] {
      LimitsAreSlots(c, names[1..]);
    }
  }

  lemma NamedLanes(names: seq<LaneName>)
    requires names == RUNTIME_LANES || names == CONTROL_LANES
    ensures forall l :: l in names ==> l in LANES
  {
  }

  /** Whatever is configured, an accepted manager starts sound, its database lanes fit the two pools, and each
      SQL deadline, in milliseconds, fits the 31 bits that the database has for it. */
  lemma AcceptedEnvelope(c: Config)
    requires Accepts(c)
    ensures SpecsOk(Lanes(c))
    ensures forall l :: l in Lanes(c) ==> 1 <= Lanes(c)[l].limit
    ensures forall l :: l in Lanes(c) ==> (Lanes(c)[l].pending > 0 ==> Lanes(c)[l].wait > 0.0)
    ensures forall l :: l in RUNTIME_LANES || l in CONTROL_LANES ==> l in Lanes(c)
    ensures LimitTotal(Lanes(c), RUNTIME_LANES) <= RUNTIME_POOL_MAX_SIZE
    ensures LimitTotal(Lanes(c), CONTROL_LANES) <= CONTROL_POOL_MAX_SIZE
    ensures forall d :: IsSqlDeadline(d) ==> 1 <= Milliseconds(DeadlineOf(c, d)) <= 0x7fff_ffff
  {
    NamedLanes(RUNTIME_LANES);
    NamedLanes(CONTROL_LANES);
    LimitsAreSlots(c, RUNTIME_LANES);
    LimitsAreSlots(c, CONTROL_LANES);
    forall d | IsSqlDeadline(d)
      ensures 1 <= Milliseconds(DeadlineOf(c, d)) <= 0x7fff_ffff
    {
      assert 0.0 < DeadlineOf(c, d) <= MAX_SQL_DEADLINE;
    }
  }

  lemma TotalFrom(c: Config, names: seq<LaneName>, i: nat)
    requires i < |names|
    ensures SlotTotal(c, names[i..]) == SlotsOf(c, names[i]) + SlotTotal(c, names[i + 1..])
  {
    assert names[i..][1..] == names[i + 1..];
  }

  lemma PoolTotals(c: Config, runtime: seq<LaneName>, control: seq<LaneName>)
    requires runtime == RUNTIME_LANES && control == CONTROL_LANES
    ensures SlotTotal(c, runtime)
         == SlotsOf(c, Ingest) + SlotsOf(c, Routine) + SlotsOf(c, Navigation) + SlotsOf(c, Foreground) + SlotsOf(c, Background)
    ensures SlotTotal(c, control)
         == SlotsOf(c, IngestIdentity) + SlotsOf(c, Identity) + SlotsOf(c, Lifecycle) + SlotsOf(c, Mail)
  {
    hide SlotTotal, SlotsOf;
    assert runtime[0..] == runtime && control[0..] == control;
    TotalFrom(c, runtime, 0); TotalFrom(c, runtime, 1); TotalFrom(c, runtime, 2);
    TotalFrom(c, runtime, 3); TotalFrom(c, runtime, 4);
    TotalFrom(c, control, 0); TotalFrom(c, control, 1); TotalFrom(c, control, 2); TotalFrom(c, control, 3);
    EmptyTotal(c, runtime[5..]);
    EmptyTotal(c, control[4..]);
  }

  lemma DefaultTotals(c: Config, runtime: seq<LaneName>, control: seq<LaneName>)
    requires c == DEFAULTS && runtime == RUNTIME_LANES && control == CONTROL_LANES
    ensures SlotTotal(c, runtime) == 6 && SlotTotal(c, control) == 5
  {
    PoolTotals(c, runtime, control);
    hide SlotTotal;
  }

  lemma EmptyTotal(c: Config, names: seq<LaneName>)
    requires names == []
    ensures SlotTotal(c, names) == 0
  {
  }

  lemma LanesHaveSlots(c: Config)
    requires Accepts(c)
    ensures forall l :: l in LANES ==> SlotsOf(c, l) > 0 && (SlotMaximum(l).Some? ==> SlotsOf(c, l) <= SlotMaximum(l).value)
    ensures SlotTotal(c, RUNTIME_LANES) <= 6 && SlotTotal(c, CONTROL_LANES) <= 5
  {
  }

  /** No accepted configuration takes more than the defaults do: not in slots, where only the lifecycle lane may have a
      second one, and only one that the mail lane gives up, nor in queues, nor in the input that is taken. */
  lemma EnvelopeNeverGrows(c: Config)
    requires Accepts(c)
    ensures forall l :: l in LANES && l != Lifecycle ==> SlotsOf(c, l) <= Standard(l).limit
    ensures SlotsOf(c, Lifecycle) <= 1 || (SlotsOf(c, Lifecycle) == 2 && SlotsOf(c, Mail) == 1)
    ensures forall l :: l in Lanes(c) ==> Lanes(c)[l].pending <= Standard(l).pending
    ensures forall b :: BoundOf(c, b) <= BoundOf(DEFAULTS, b)
  {
    hide SlotTotal, SlotsOf, PendingOf, WaitOf, DeadlineOf;
    LanesHaveSlots(c);
    PoolTotals(c, RUNTIME_LANES, CONTROL_LANES);
    assert Ingest in LANES && Routine in LANES && Navigation in LANES && Foreground in LANES && Background in LANES;
    assert IngestIdentity in LANES && Identity in LANES && Lifecycle in LANES && Mail in LANES;
  }

  /** A configuration within the defaults. */
  predicate Shrinks(c: Config) {
    && (forall l :: l in LANES ==> 1 <= SlotsOf(c, l) <= Standard(l).limit)
    && (forall l :: l in LANES && Standard(l).pending > 0 ==>
          0 <= PendingOf(c, l) <= Standard(l).pending && 0.0 < WaitOf(c, l) <= Standard(l).wait)
    && (forall d :: 0.0 < DeadlineOf(c, d) <= StandardDeadline(d))
    && (forall b :: 1 <= BoundOf(c, b) <= BoundOf(DEFAULTS, b))
  }

  /** And every configuration that takes no more than the defaults is accepted. */
  lemma ShrinkingIsAccepted(c: Config)
    requires Shrinks(c)
    ensures Accepts(c)
  {
    hide SlotTotal, SlotsOf, PendingOf, WaitOf, DeadlineOf;
    PoolTotals(c, RUNTIME_LANES, CONTROL_LANES);
    assert Ingest in LANES && Routine in LANES && Navigation in LANES && Foreground in LANES && Background in LANES;
    assert IngestIdentity in LANES && Identity in LANES && Lifecycle in LANES && Mail in LANES;
    forall l | l in LANES
      ensures SlotMaximum(l).Some? ==> Standard(l).limit <= SlotMaximum(l).value
      ensures Standard(l).pending > 0 && WaitMaximum(l).Some? ==> Standard(l).wait <= WaitMaximum(l).value
    {
    }
  }

  lemma DefaultLane(l: LaneName)
    requires l in LANES
    ensures SlotsOf(DEFAULTS, l) > 0 && (SlotMaximum(l).Some? ==> SlotsOf(DEFAULTS, l) <= SlotMaximum(l).value)
    ensures PendingOf(DEFAULTS, l) == Standard(l).pending && WaitOf(DEFAULTS, l) == Standard(l).wait
    ensures Standard(l).pending > 0 ==> 0.0 < Standard(l).wait
    ensures Standard(l).pending > 0 && WaitMaximum(l).Some? ==> Standard(l).wait <= WaitMaximum(l).value
  {
  }

  lemma DefaultBounds(d: Deadline, b: InputBound)
    ensures 0.0 < DeadlineOf(DEFAULTS, d) <= MAX_SQL_DEADLINE && 0 < BoundOf(DEFAULTS, b) <= BoundMaximum(b)
  {
  }

  /** The defaults are accepted, and leave no slot of either pool to spare. */
  lemma DefaultsAreAccepted()
    ensures Accepts(DEFAULTS)
    ensures SlotTotal(DEFAULTS, RUNTIME_LANES) == RUNTIME_POOL_MAX_SIZE
    ensures SlotTotal(DEFAULTS, CONTROL_LANES) == CONTROL_POOL_MAX_SIZE
  {
    hide SlotTotal, SlotsOf, PendingOf, WaitOf, DeadlineOf, BoundOf, SlotMaximum, WaitMaximum, Standard, BoundMaximum;
    DefaultTotals(DEFAULTS, RUNTIME_LANES, CONTROL_LANES);
    forall l | l in LANES { DefaultLane(l); }
    forall d { DefaultBounds(d, AuthForm); }
    forall b { DefaultBounds(Lock, b); }
  }
}
