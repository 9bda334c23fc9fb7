// The data directory and the controller, with failing operations: the file transactions of
// src-tauri/src/config.rs.
module Host {
  import opened Basics
  import opened Yaml
  import opened Config
  import opened Dns

  /** The TUN recovery file. `legacy` is the override text an old version saved; Missing or Blank means none. */
  datatype Session = Session(profile: string, legacy: File<Value>)

  /** Everything that survives a crash. `sources` holds the downloaded documents by profile id. */
  datatype Disk = Disk(
    session: File<Session>,
    runtimeOverride: File<Value>,
    localOverride: File<Value>,
    activeBase: File<Value>,
    config: File<Value>,
    activeProfile: File<string>,
    candidate: File<Value>,
    sources: map<string, File<Value>>)

  predicate FlagOn(file: File<Value>) {
    file.Doc? && TunEnabled(file.content)
  }

  /** The crash invariant: TUN is on nowhere on disk unless a recovery file is there to undo it. */
  predicate Guarded(disk: Disk) {
    FlagOn(disk.runtimeOverride) || FlagOn(disk.config) ==> disk.session.Exists()
  }

  /** The profile's base would have an editable `tun` section. */
  predicate ShapedSource(source: File<Value>, local: Result<Value>) {
    source.Doc? && local.Ok? ==> TunShaped(Merge(source.content, local.value))
  }

  /** An override text saved by an old version, or none: it can be written back, and leaves every profile with an
      editable `tun` section. */
  ghost predicate LegacyLocal(legacy: File<Value>, sources: map<string, File<Value>>) {
    || legacy.Missing?
    || ((legacy.Blank? || (legacy.Doc? && ValidConfig(legacy.content)))
        && forall p | p in sources :: ShapedSource(sources[p], LocalFrom(legacy)))
  }

  /** And the session's own profile can be built over it with TUN off. */
  ghost predicate LegacyFit(legacy: File<Value>, profile: Option<string>, sources: map<string, File<Value>>) {
    && LegacyLocal(legacy, sources)
    && (legacy.Doc? ==> profile.Some? && profile.value in sources && sources[profile.value].Doc?
                        && FitBase(Merge(sources[profile.value].content, legacy.content)))
  }

  ghost predicate SessionFit(session: Session, sources: map<string, File<Value>>) {
    LegacyFit(session.legacy, Some(session.profile), sources)
  }

  /** A disk on which every recovery can succeed: files this program or an older version wrote, and bases that
      can be built with TUN off. */
  ghost predicate Fit(disk: Disk) {
    && OwnWriting(disk.runtimeOverride)
    && (disk.session.Missing? || (disk.session.Doc? && SessionFit(disk.session.content, disk.sources)))
    && BaseOf(disk).Ok? && BaseOf(disk).value.Some? && FitBase(BaseOf(disk).value.value)
    && (forall p | p in disk.sources :: ShapedSource(disk.sources[p], LocalOf(disk)))
  }

  predicate FitBase(base: Value) {
    ValidConfig(base) && TunShaped(base)
  }

  /** What every durable state satisfies; `shaped` says that the starting disk was fit. */
  ghost predicate Kept(disk: Disk, shaped: bool) {
    Guarded(disk) && (shaped ==> Fit(disk))
  }

  /** One atomic write or removal changes one file. */
  predicate OneFileApart(a: Disk, b: Disk) {
    || b == a.(session := b.session)
    || b == a.(runtimeOverride := b.runtimeOverride)
    || b == a.(localOverride := b.localOverride)
    || b == a.(activeBase := b.activeBase)
    || b == a.(config := b.config)
    || b == a.(activeProfile := b.activeProfile)
    || b == a.(candidate := b.candidate)
  }

  // ---------- what the stored files mean ----------

  /** The active base, or the migrated old configuration when there is none yet. */
  function BaseOf(disk: Disk): Result<Option<Value>> {
    BaseFrom(disk.activeBase, disk.config)
  }

  function BaseFrom(activeBase: File<Value>, config: File<Value>): Result<Option<Value>> {
    match activeBase
    case Doc(value) => if value.Mapping? then Ok(Some(value)) else Err
    case Blank => Err
    case Garbled => Err
    case Missing =>
      match config
      case Missing => Ok(None)
      case Blank => Err
      case Garbled => Err
      case Doc(value) => if ValidConfig(value) then Ok(Some(value)) else Err
  }

  /** Which base is found: the stored one if it is a mapping, and without one the old configuration if that is
      accepted; a file that is there and cannot be used is an error, two missing ones are none. */
  lemma BaseIsFoundExactly(disk: Disk, base: Value)
    ensures BaseOf(disk) == Ok(Some(base))
            <==> if disk.activeBase.Missing? then disk.config == Doc(base) && ValidConfig(base)
                 else disk.activeBase == Doc(base) && base.Mapping?
    ensures BaseOf(disk) == Ok(None) <==> disk.activeBase.Missing? && disk.config.Missing?
  {
  }

  /** What counts as local override: a mapping, or a file that is missing or blank as an empty one. */
  lemma LocalIsReadExactly(disk: Disk, value: Value)
    ensures LocalOf(disk) == Ok(value)
            <==> || ((disk.localOverride.Missing? || disk.localOverride.Blank?) && value == Mapping(map[]))
                 || (disk.localOverride == Doc(value) && value.Mapping?)
  {
  }

  function LocalOf(disk: Disk): Result<Value> {
    LocalFrom(disk.localOverride)
  }

  function LocalFrom(file: File<Value>): Result<Value> {
    match file
    case Missing => Ok(EMPTY)
    case Blank => Ok(EMPTY)
    case Garbled => Err
    case Doc(value) => if value.Mapping? then Ok(value) else Err
  }

  function RuntimeOf(disk: Disk, base: Value, secret: string, outbound: Outbound, port: Option<int>): Result<Value> {
    match ReadRuntimeOverride(disk.runtimeOverride)
    case Err => Err
    case Ok(over) => Layered(base, over, Surroundings(secret, outbound, port))
  }

  function BuildOf(disk: Disk, profile: string, secret: string, outbound: Outbound, port: Option<int>): Result<Built> {
    if profile !in disk.sources || !disk.sources[profile].Doc? || LocalOf(disk).Err?
       || ReadRuntimeOverride(disk.runtimeOverride).Err? then Err
    else BuiltFrom(disk.sources[profile].content, LocalOf(disk).value,
                   ReadRuntimeOverride(disk.runtimeOverride).value, Surroundings(secret, outbound, port))
  }

  lemma RuntimeFlag(disk: Disk, base: Value, secret: string, outbound: Outbound, port: Option<int>)
    ensures var r := RuntimeOf(disk, base, secret, outbound, port);
            r.Ok? ==> TunEnabled(r.value) == FlagOn(disk.runtimeOverride)
  {
    if RuntimeOf(disk, base, secret, outbound, port).Ok? {
      TunComesFromRuntimeOverride(base, ReadRuntimeOverride(disk.runtimeOverride).value,
                                  Surroundings(secret, outbound, port));
      assert Field(EMPTY, "tun") == None;
    }
  }

  lemma BuildFlag(disk: Disk, profile: string, secret: string, outbound: Outbound, port: Option<int>)
    ensures var r := BuildOf(disk, profile, secret, outbound, port);
            r.Ok? ==> TunEnabled(r.value.runtime) == FlagOn(disk.runtimeOverride)
  {
    if BuildOf(disk, profile, secret, outbound, port).Ok? {
      TunComesFromRuntimeOverride(Merge(disk.sources[profile].content, LocalOf(disk).value),
                                  ReadRuntimeOverride(disk.runtimeOverride).value,
                                  Surroundings(secret, outbound, port));
      assert Field(EMPTY, "tun") == None;
    }
  }

  /** What `active_runtime_value_at` yields when nothing fails. */
  function RestorableAt(disk: Disk, secret: string, outbound: Outbound): Result<Option<Value>> {
    match BaseOf(disk)
    case Err => Err
    case Ok(None) => Ok(None)
    case Ok(Some(base)) =>
      match RuntimeOf(disk, base, secret, outbound, RuntimePort(disk.config))
      case Err => Err
      case Ok(runtime) => Ok(Some(runtime))
  }

  /** The active runtime is the layering of the base under the override that is read. */
  lemma RestorableIsLayered(disk: Disk, base: Value, over: Value, secret: string, outbound: Outbound)
    requires BaseOf(disk) == Ok(Some(base)) && ReadRuntimeOverride(disk.runtimeOverride) == Ok(over)
    ensures var runtime := Layered(base, over, Surroundings(secret, outbound, RuntimePort(disk.config)));
            RestorableAt(disk, secret, outbound) == if runtime.Ok? then Ok(Some(runtime.value)) else Err
  {
    hide Layered, RuntimePort, BaseOf, ReadRuntimeOverride;
  }

  lemma BaseIgnoresOverride(disk: Disk, file: File<Value>)
    ensures BaseOf(disk.(runtimeOverride := file)) == BaseOf(disk)
  {
  }

  /** A base stands for the same value once stored, whatever the configuration beside it becomes. */
  lemma StoredBaseStays(disk: Disk, config: File<Value>)
    requires BaseOf(disk).Ok? && BaseOf(disk).value.Some?
    ensures BaseOf(disk).value.value.Mapping?
    ensures BaseOf(disk.(activeBase := Doc(BaseOf(disk).value.value), config := config)) == BaseOf(disk)
  {
  }

  lemma NoPortInOverrides()
    ensures ON.Mapping? && Field(ON, "mixed-port").None? && Field(EMPTY, "mixed-port").None?
    ensures ReadRuntimeOverride(Missing) == Ok(EMPTY)
  {
    assert |"mixed-port"| == 10 && |"tun"| == 3 && |"dns"| == 3;
  }

  /** TUN on and off again, storing the base and the runtime on the way: the override file is gone and the active
      runtime is what it was before, whether the base was stored already or had to be migrated. */
  lemma OnThenOffRestores(disk: Disk, secret: string, outbound: Outbound)
    requires disk.runtimeOverride.Missing? && BaseOf(disk).Ok? && BaseOf(disk).value.Some?
    requires RestorableAt(disk.(runtimeOverride := Doc(ON)), secret, outbound).Ok?
    ensures Switched(Missing, true) == Ok(Doc(ON)) && Switched(Doc(ON), false) == Ok(Missing)
    ensures var on := RestorableAt(disk.(runtimeOverride := Doc(ON)), secret, outbound).value;
            && on.Some? && TunEnabled(on.value)
            && RestorableAt(disk.(activeBase := Doc(BaseOf(disk).value.value), config := Doc(on.value)), secret, outbound)
               == RestorableAt(disk, secret, outbound)
  {
    hide Layered, ValidConfig, RuntimePort, Merge, ON, TunEnabled, BaseOf, RestorableAt, ReadRuntimeOverride, Switched;
    var base := BaseOf(disk).value.value;
    var around := Surroundings(secret, outbound, RuntimePort(disk.config));
    var switched := disk.(runtimeOverride := Doc(ON));
    SwitchOnWrites(Missing);
    SwitchOffDeletes(Doc(ON));
    OnIsOn();
    NoPortInOverrides();
    BaseIgnoresOverride(disk, Doc(ON));
    RestorableIsLayered(switched, base, ON, secret, outbound);
    var on := Layered(base, ON, around);
    TunComesFromRuntimeOverride(base, ON, around);
    StoredBaseStays(disk, Doc(on.value));
    StoredPortIsNeutral(base, ON, EMPTY, around);
    RestorableIsLayered(disk.(activeBase := Doc(base), config := Doc(on.value)), base, EMPTY, secret, outbound);
    RestorableIsLayered(disk, base, EMPTY, secret, outbound);
    assert Layered(base, EMPTY, around.(port := RuntimePort(Doc(on.value)))) == Layered(base, EMPTY, around);
  }

  // ---------- what a rebuilt disk holds ----------

  /** The value is the runtime of this base under this override, with the port that the configuration stored
      before named, or without a stored port when that configuration could not be read. */
  ghost predicate RuntimeShown(
      value: Value, base: Value, over: Value, stored: File<Value>, secret: string, outbound: Outbound, read: bool)
  {
    || Shows(value, base, over, Surroundings(secret, outbound, RuntimePort(stored)))
    || (!read && Shows(value, base, over, Surroundings(secret, outbound, None)))
  }

  /** The disk holds this base, and its runtime under this override as `config.yaml`. */
  ghost predicate Holds(
      disk: Disk, base: Value, over: Value, stored: File<Value>, secret: string, outbound: Outbound, read: bool)
  {
    disk.activeBase == Doc(base) && disk.config.Doc?
    && RuntimeShown(disk.config.content, base, over, stored, secret, outbound, read)
  }

  /** The runtime override as far as it can be read. */
  function OverOf(disk: Disk): Value {
    if ReadRuntimeOverride(disk.runtimeOverride).Ok? then ReadRuntimeOverride(disk.runtimeOverride).value else EMPTY
  }

  /** The base that could be read before is what the disk holds now, with its runtime under the override that is
      now stored; without a base nothing has changed. */
  ghost predicate Rebuilt(before: Disk, after: Disk, secret: string, outbound: Outbound, read: bool) {
    var base := BaseFrom(before.activeBase, before.config);
    base.Ok? &&
    if base.value.None? then after.activeBase == before.activeBase && after.config == before.config
    else Holds(after, base.value.value, OverOf(after), before.config, secret, outbound, read)
  }

  /** The active base is as it was, or the old configuration has been migrated to it. */
  predicate BaseKept(before: Disk, after: Disk) {
    || after.activeBase == before.activeBase
    || (BaseOf(before).Ok? && BaseOf(before).value.Some? && after.activeBase == Doc(BaseOf(before).value.value))
  }

  lemma KeepsItsBase(before: Disk, after: Disk)
    requires after.activeBase == before.activeBase
    ensures BaseKept(before, after)
  {
  }

  lemma BaseKeptAcross(a: Disk, b: Disk, c: Disk)
    requires BaseKept(a, b) && b.config == a.config && BaseKept(b, c)
    ensures BaseKept(a, c)
  {
  }

  lemma NothingToRebuild(disk: Disk, secret: string, outbound: Outbound, read: bool)
    requires BaseOf(disk) == Ok(None)
    ensures disk.activeBase.Missing? && disk.config.Missing?
    ensures Rebuilt(disk, disk, secret, outbound, read)
  {
  }

  /** The stored override holds what switching on writes. */
  predicate SwitchedTo(before: Disk, after: Disk) {
    Switched(before.runtimeOverride, true).Ok? && after.runtimeOverride == Switched(before.runtimeOverride, true).value
  }

  /** `config.yaml` is as it was, or has been rebuilt from the same base. */
  ghost predicate ConfigKept(before: Disk, after: Disk, secret: string, outbound: Outbound) {
    after.config == before.config
    || exists mid :: BaseKept(before, mid) && Rebuilt(mid, after, secret, outbound, false)
  }

  lemma ConfigKeptAcross(a: Disk, b: Disk, c: Disk, secret: string, outbound: Outbound)
    requires BaseKept(a, b) && b.config == a.config && ConfigKept(b, c, secret, outbound)
    ensures ConfigKept(a, c, secret, outbound)
  {
    hide Rebuilt, BaseKept;
    if c.config != b.config {
      var mid :| BaseKept(b, mid) && Rebuilt(mid, c, secret, outbound, false);
      BaseKeptAcross(a, b, mid);
    }
  }

  /** A base migrated first is the base rebuilt from. */
  lemma MigratedThenRebuilt(
      before: Disk, migrated: Disk, after: Disk, secret: string, outbound: Outbound, read: bool, read': bool)
    requires BaseKept(before, migrated) && migrated.config == before.config && BaseOf(before).Ok? && BaseOf(before).value.Some?
    requires Rebuilt(migrated, after, secret, outbound, read) && (read' ==> read)
    ensures Rebuilt(before, after, secret, outbound, read')
  {
    hide Shows, RuntimePort, ReadRuntimeOverride;
  }

  /** The disk holds what this profile builds over the files of before, as the active profile. */
  ghost predicate ProfileRuns(before: Disk, after: Disk, profile: string, secret: string, outbound: Outbound, read: bool) {
    && profile in before.sources && before.sources[profile].Doc? && LocalOf(before).Ok?
    && after.activeProfile == Doc(profile)
    && Holds(after, Merge(before.sources[profile].content, LocalOf(before).value), OverOf(before), before.config,
             secret, outbound, read)
  }

  lemma ProfileRunsLooksAt(
      before: Disk, after: Disk, after': Disk, profile: string, secret: string, outbound: Outbound, read: bool, read': bool)
    requires ProfileRuns(before, after, profile, secret, outbound, read) && (read' ==> read)
    requires after'.activeBase == after.activeBase && after'.config == after.config
    requires after'.activeProfile == after.activeProfile
    ensures ProfileRuns(before, after', profile, secret, outbound, read')
  {
    hide Shows, RuntimePort, ReadRuntimeOverride, Merge;
  }

  lemma CommittedBuildRuns(
      before: Disk, after: Disk, built: Built, profile: string, secret: string, outbound: Outbound, read: bool, read': bool)
    requires IsBuildOf(built, before, profile, secret, outbound, read) && (read' ==> read)
    requires after.activeBase == Doc(built.base) && after.config == Doc(built.runtime) && after.activeProfile == Doc(profile)
    ensures ProfileRuns(before, after, profile, secret, outbound, read')
  {
    hide Shows, RuntimePort, ReadRuntimeOverride, Merge, ValidConfig;
  }

  /** What is known of the port's reading may be forgotten. */
  lemma ShownAnyhow(
      value: Value, base: Value, over: Value, stored: File<Value>, secret: string, outbound: Outbound, read: bool, read': bool)
    requires RuntimeShown(value, base, over, stored, secret, outbound, read) && (read' ==> read)
    ensures RuntimeShown(value, base, over, stored, secret, outbound, read')
  {
  }

  lemma StoredIsRebuilt(
      before: Disk, built: Disk, after: Disk, runtime: Value, secret: string, outbound: Outbound, read: bool, read': bool)
    requires BaseOf(before).Ok? && BaseOf(before).value.Some? && (read' ==> read)
    requires RuntimeShown(runtime, BaseOf(before).value.value, OverOf(built), before.config, secret, outbound, read)
    requires after.activeBase == Doc(BaseOf(before).value.value) && after.config == Doc(runtime)
    requires after.runtimeOverride == built.runtimeOverride
    ensures Rebuilt(before, after, secret, outbound, read')
  {
    hide RuntimeShown, ReadRuntimeOverride, BaseFrom;
    ShownAnyhow(runtime, BaseOf(before).value.value, OverOf(built), before.config, secret, outbound, read, read');
  }

  /** Only the base, the configuration and the override matter to that. */
  lemma RebuiltLooksAt(
      before: Disk, after: Disk, before': Disk, after': Disk, secret: string, outbound: Outbound, read: bool, read': bool)
    requires Rebuilt(before, after, secret, outbound, read) && (read' ==> read)
    requires before'.activeBase == before.activeBase && before'.config == before.config
    requires after'.activeBase == after.activeBase && after'.config == after.config
    requires after'.runtimeOverride == after.runtimeOverride
    ensures Rebuilt(before', after', secret, outbound, read')
  {
    hide Shows, RuntimePort, ReadRuntimeOverride;
  }

  lemma RuntimeIsShown(
      disk: Disk, base: Value, secret: string, outbound: Outbound, port: Option<int>, stored: File<Value>, read: bool)
    requires RuntimeOf(disk, base, secret, outbound, port).Ok?
    requires port == RuntimePort(stored) || (!read && port == None)
    ensures RuntimeShown(RuntimeOf(disk, base, secret, outbound, port).value, base, OverOf(disk), stored, secret, outbound,
                         read)
  {
    hide Layered, Shows;
    LayeredShows(base, ReadRuntimeOverride(disk.runtimeOverride).value, Surroundings(secret, outbound, port));
  }

  // ---------- which writes keep the invariant ----------

  lemma SwitchKeeps(disk: Disk, enabled: bool, shaped: bool)
    requires Kept(disk, shaped) && Switched(disk.runtimeOverride, enabled).Ok?
    requires enabled ==> disk.session.Exists()
    ensures Kept(disk.(runtimeOverride := Switched(disk.runtimeOverride, enabled).value), shaped)
  {
    if enabled && OwnWriting(disk.runtimeOverride) {
      SwitchOnWrites(disk.runtimeOverride);
    }
    if !enabled {
      SwitchOffDeletes(disk.runtimeOverride);
    }
    assert BaseOf(disk.(runtimeOverride := Switched(disk.runtimeOverride, enabled).value)) == BaseOf(disk);
  }

  lemma ConfigKeeps(disk: Disk, file: File<Value>, shaped: bool)
    requires Kept(disk, shaped) && (FlagOn(file) ==> disk.session.Exists())
    requires shaped && disk.activeBase.Missing? ==> file == disk.config || (file.Doc? && FitBase(file.content))
    ensures Kept(disk.(config := file), shaped)
  {
  }

  lemma BaseKeeps(disk: Disk, file: File<Value>, shaped: bool)
    requires Kept(disk, shaped)
    requires shaped ==> file == disk.activeBase || (file.Doc? && FitBase(file.content))
                        || (file.Missing? && disk.config.Doc? && FitBase(disk.config.content))
    ensures Kept(disk.(activeBase := file), shaped)
  {
  }

  lemma LocalKeeps(disk: Disk, legacy: File<Value>, shaped: bool)
    requires Kept(disk, shaped) && (shaped ==> LegacyLocal(legacy, disk.sources)) && !legacy.Missing?
    ensures Kept(disk.(localOverride := legacy), shaped)
  {
    assert BaseOf(disk.(localOverride := legacy)) == BaseOf(disk);
  }

  lemma OtherFilesKeep(disk: Disk, active: File<string>, candidate: File<Value>, shaped: bool)
    requires Kept(disk, shaped)
    ensures Kept(disk.(activeProfile := active, candidate := candidate), shaped)
  {
  }

  lemma MigrationKeeps(disk: Disk, shaped: bool)
    requires Kept(disk, shaped) && BaseOf(disk).Ok? && BaseOf(disk).value.Some?
    ensures Kept(disk.(activeBase := Doc(BaseOf(disk).value.value)), shaped)
  {
  }

  /** A build is the profile's source under the local override, accepted, and the runtime of that. */
  ghost predicate IsBuildOf(built: Built, disk: Disk, profile: string, secret: string, outbound: Outbound, read: bool) {
    && profile in disk.sources && disk.sources[profile].Doc? && LocalOf(disk).Ok?
    && built.base == Merge(disk.sources[profile].content, LocalOf(disk).value) && ValidConfig(built.base)
    && RuntimeShown(built.runtime, built.base, OverOf(disk), disk.config, secret, outbound, read)
  }

  lemma BuildIsShown(disk: Disk, profile: string, secret: string, outbound: Outbound, port: Option<int>, read: bool)
    requires BuildOf(disk, profile, secret, outbound, port).Ok?
    requires port == RuntimePort(disk.config) || (!read && port == None)
    ensures IsBuildOf(BuildOf(disk, profile, secret, outbound, port).value, disk, profile, secret, outbound, read)
  {
    hide Layered, Shows, Merge, ValidConfig, ReadRuntimeOverride, RuntimePort;
    LayeredShows(Merge(disk.sources[profile].content, LocalOf(disk).value), OverOf(disk),
                 Surroundings(secret, outbound, port));
  }

  lemma BuildAnyhow(
      built: Built, disk: Disk, profile: string, secret: string, outbound: Outbound, read: bool, read': bool)
    requires IsBuildOf(built, disk, profile, secret, outbound, read) && (read' ==> read)
    ensures IsBuildOf(built, disk, profile, secret, outbound, read')
  {
    hide Shows, Merge, ValidConfig, RuntimePort, ReadRuntimeOverride;
  }

  /** When a profile builds: everything it reads is there, its own layers are a valid configuration, and with the
      runtime override on top they have an editable `tun` section. */
  lemma BuildsExactly(disk: Disk, profile: string, secret: string, outbound: Outbound, port: Option<int>)
    requires ReadRuntimeOverride(disk.runtimeOverride).Ok? ==> ValidConfig(OverOf(disk))
    requires port.Some? ==> 1 <= port.value <= 65535
    ensures BuildOf(disk, profile, secret, outbound, port).Ok?
            <==> && profile in disk.sources && disk.sources[profile].Doc? && LocalOf(disk).Ok?
                 && ReadRuntimeOverride(disk.runtimeOverride).Ok?
                 && var base := Merge(disk.sources[profile].content, LocalOf(disk).value);
                    ValidConfig(base) && TunShaped(Merge(base, OverOf(disk)))
  {
    hide Layered, Merge, ValidConfig, ReadRuntimeOverride, TunShaped;
    if profile in disk.sources && disk.sources[profile].Doc? && LocalOf(disk).Ok?
       && ReadRuntimeOverride(disk.runtimeOverride).Ok? {
      var base := Merge(disk.sources[profile].content, LocalOf(disk).value);
      if ValidConfig(base) {
        MergeKeepsValid(base, OverOf(disk));
        LayersAcceptExactly(base, OverOf(disk), Surroundings(secret, outbound, port));
      }
    }
  }

  /** What a transaction needs of the runtime it is about to store. */
  predicate Storable(disk: Disk, built: Built, shaped: bool) {
    && (TunEnabled(built.runtime) ==> disk.session.Exists())
    && (shaped ==> FitBase(built.base) && FitBase(built.runtime))
  }

  lemma BuildIsStorable(disk: Disk, profile: string, secret: string, outbound: Outbound, port: Option<int>, shaped: bool)
    requires Kept(disk, shaped)
    requires BuildOf(disk, profile, secret, outbound, port).Ok?
    ensures Storable(disk, BuildOf(disk, profile, secret, outbound, port).value, shaped)
  {
    BuildFlag(disk, profile, secret, outbound, port);
    LayeredIsFit(Merge(disk.sources[profile].content, LocalOf(disk).value),
                 ReadRuntimeOverride(disk.runtimeOverride).value, Surroundings(secret, outbound, port));
    assert ShapedSource(disk.sources[profile], LocalOf(disk)) || !shaped;
  }

  /** How applying a profile ended. */
  datatype Applied = Committed | Refused | RolledBack | Stuck

  class Machine {
    var disk: Disk
    var loaded: Value              // the controller's configuration
    var step: nat                  // operations attempted so far
    const faults: nat -> bool      // whether the n-th operation fails
    const answers: nat -> bool     // what the n-th look at the outside world reports
    const secret: string
    const outbound: Outbound
    ghost const shaped: bool
    ghost const sources: map<string, File<Value>>   // downloads do not happen meanwhile
    var trace: seq<Disk>           // every durable state so far: a crash leaves one of them

    ghost predicate Valid()
      reads this
    {
      && trace != [] && trace[|trace| - 1] == disk && Kept(disk, shaped) && disk.sources == sources
      && (forall d | d in trace :: Kept(d, shaped))
    }

    /** No operation from here on fails. */
    ghost predicate Working()
      reads this
    {
      forall n: nat | n >= step :: !faults(n)
    }

    ghost predicate NoFaults(from: int, to: int) {
      forall m: nat | from <= m < to :: !faults(m)
    }

    ghost predicate AtMostOneFault(from: nat, to: nat) {
      forall m, n | from <= m < to && from <= n < to && faults(m) && faults(n) :: m == n
    }

    lemma OneMore(from: int, to: nat)
      requires from <= to && NoFaults(from, to) && !faults(to)
      ensures NoFaults(from, to + 1)
    {
    }

    /** The controller runs what `config.yaml` holds. */
    predicate Coherent()
      reads this
    {
      disk.config == Doc(loaded)
    }

    constructor (disk: Disk, loaded: Value, faults: nat -> bool, answers: nat -> bool, secret: string,
                 outbound: Outbound, ghost shaped: bool)
      requires Kept(disk, shaped)
      ensures Valid() && this.disk == disk && this.loaded == loaded && trace == [disk] && step == 0
      ensures this.faults == faults && this.answers == answers
      ensures this.secret == secret && this.outbound == outbound && this.shaped == shaped && sources == disk.sources
    {
      this.disk, this.loaded, this.step := disk, loaded, 0;
      this.faults, this.answers, this.secret, this.outbound := faults, answers, secret, outbound;
      this.shaped, this.sources := shaped, disk.sources;
      this.trace := [disk];
    }

    // ---------- single operations ----------

    method Attempt() returns (ok: bool)
      modifies this`step
      ensures step == old(step) + 1 && ok == !faults(old(step))
    {
      ok := !faults(step);
      step := step + 1;
    }

    method Ask() returns (answer: bool)
      modifies this`step
      ensures step == old(step) + 1 && answer == answers(old(step))
    {
      answer := answers(step);
      step := step + 1;
    }

    /** An atomic file write or removal. */
    method Write(next: Disk) returns (ok: bool)
      requires Valid() && Kept(next, shaped) && OneFileApart(disk, next)
      modifies this`disk, this`step, this`trace
      ensures Valid() && step == old(step) + 1 && ok == !faults(old(step))
      ensures disk == if ok then next else old(disk)
      ensures trace == if ok then old(trace) + [next] else old(trace)
    {
      ok := Attempt();
      if ok {
        disk := next;
        trace := trace + [next];
      }
    }

    /** PUT of a stored configuration; a rejected one leaves the controller as it was. */
    method Load(file: File<Value>) returns (ok: bool)
      modifies this`loaded, this`step
      ensures step == old(step) + 1 && (ok <==> file.Doc? && !faults(old(step)))
      ensures loaded == if ok then file.content else old(loaded)
    {
      ok := Attempt();
      ok := ok && file.Doc?;
      if ok {
        loaded := file.content;
      }
    }

    /** PUT after the geodata preparation. */
    method LoadCandidate(file: File<Value>) returns (ok: bool)
      modifies this`loaded, this`step
      ensures step > old(step)
      ensures ok ==> file.Doc? && loaded == file.content && NoFaults(old(step), step) && step == old(step) + 2
      ensures !ok ==> loaded == old(loaded) && (file.Doc? ==> !NoFaults(old(step), step))
      ensures old(Working()) && file.Doc? ==> ok
    {
      var prepared := Attempt();
      if !prepared {
        return false;
      }
      ok := Load(file);
    }

    /** GET of the configuration and the proxies, comparing the TUN flag. */
    method VerifyController(expectedTun: bool) returns (ok: bool)
      modifies this`step
      ensures old(step) < step <= old(step) + 2
      ensures ok <==> !faults(old(step)) && !faults(old(step) + 1) && TunEnabled(loaded) == expectedTun
      ensures ok ==> NoFaults(old(step), step) && step == old(step) + 2
      ensures !ok && TunEnabled(loaded) == expectedTun ==> !NoFaults(old(step), step)
      ensures old(Working()) && TunEnabled(loaded) == expectedTun ==> ok
    {
      var configs := Attempt();
      if !configs {
        return false;
      }
      var proxies := Attempt();
      ok := proxies && TunEnabled(loaded) == expectedTun;
    }

    // ---------- the override and the active runtime ----------

    method SetTun(enabled: bool) returns (ok: bool)
      requires Valid() && (enabled ==> disk.session.Exists())
      modifies this`disk, this`step, this`trace
      ensures Valid() && step > old(step)
      ensures ok ==> Switched(old(disk).runtimeOverride, enabled).Ok?
                     && disk == old(disk).(runtimeOverride := Switched(old(disk).runtimeOverride, enabled).value)
      ensures ok ==> NoFaults(old(step), step) && step == old(step) + 2
      ensures !ok ==> disk == old(disk)
      ensures old(Working()) ==> ok == Switched(old(disk).runtimeOverride, enabled).Ok?
    {
      var readable := Attempt();
      if !readable {
        return false;
      }
      var next := SwitchTun(disk.runtimeOverride, enabled);
      if next.Err? {
        return false;
      }
      SwitchKeeps(disk, enabled, shaped);
      ok := Write(disk.(runtimeOverride := next.value));
    }

    method ReadBase() returns (r: Result<Option<Value>>)
      requires Valid()
      modifies this`disk, this`step, this`trace
      ensures Valid() && step > old(step)
      ensures r.Ok? ==> r == BaseOf(old(disk))
      ensures disk == if r.Ok? && r.value.Some? then old(disk).(activeBase := Doc(r.value.value)) else old(disk)
      ensures r.Ok? ==> NoFaults(old(step), step)
      ensures old(disk).activeBase.Exists() ==> trace == old(trace) && step == old(step) + 1
      ensures r.Ok? && old(disk).activeBase.Missing? ==> step == old(step) + if r.value.Some? then 3 else 2
      ensures old(Working()) ==> r == BaseOf(old(disk))
    {
      var readable := Attempt();
      if !readable {
        return Err;
      }
      if disk.activeBase.Exists() {
        return BaseOf(disk);
      }
      readable := Attempt();
      if !readable {
        return Err;
      }
      r := BaseOf(disk);
      if r.Ok? && r.value.Some? {
        MigrationKeeps(disk, shaped);
        var written := Write(disk.(activeBase := Doc(r.value.value)));
        if !written {
          r := Err;
        }
      }
    }

    /** The port of the stored configuration; a failed read counts as no port. */
    method ReadPort() returns (port: Option<int>)
      modifies this`step
      ensures step == old(step) + 1
      ensures port == if faults(old(step)) then None else RuntimePort(disk.config)
    {
      var readable := Attempt();
      port := if readable then RuntimePort(disk.config) else None;
    }

    method ActiveRuntime() returns (r: Result<Option<Value>>, ghost port: Option<int>)
      requires Valid()
      modifies this`disk, this`step, this`trace
      ensures Valid() && step > old(step)
      ensures port == RuntimePort(old(disk).config) || port == None
      ensures disk == old(disk) || (BaseOf(old(disk)).Ok? && BaseOf(old(disk)).value.Some?
                                    && disk == old(disk).(activeBase := Doc(BaseOf(old(disk)).value.value)))
      ensures r.Ok? && r.value.Some? ==>
                NoFaults(old(step), step - 1) && step == old(step) + if old(disk).activeBase.Exists() then 3 else 5
      ensures r == Ok(None) ==> BaseOf(old(disk)) == Ok(None) && disk == old(disk)
      ensures r.Ok? && r.value.Some? ==>
                && BaseOf(old(disk)).Ok? && BaseOf(old(disk)).value.Some?
                && Ok(r.value.value) == RuntimeOf(old(disk), BaseOf(old(disk)).value.value, secret, outbound, port)
                && disk == old(disk).(activeBase := Doc(BaseOf(old(disk)).value.value))
                && TunEnabled(r.value.value) == FlagOn(disk.runtimeOverride)
                && RuntimeShown(r.value.value, BaseOf(old(disk)).value.value, OverOf(disk), old(disk).config, secret,
                                outbound, old(Working()))
      ensures old(Working()) ==> r == RestorableAt(old(disk), secret, outbound)
    {
      hide NoFaults, BaseFrom, TunEnabled, RuntimePort, Layered, Shows;
      port := None;
      var base := ReadBase();
      if base.Err? {
        return Err, port;
      }
      if base.value.None? {
        return Ok(None), port;
      }
      var readable := Attempt();
      if !readable {
        return Err, port;
      }
      OneMore(old(step), step - 1);
      var over := ReadRuntimeOverride(disk.runtimeOverride);
      if over.Err? {
        return Err, port;
      }
      var seen := ReadPort();
      port := seen;
      var runtime := ApplyRuntimeLayers(base.value.value, over.value, Surroundings(secret, outbound, seen));
      RuntimeFlag(disk, base.value.value, secret, outbound, seen);
      if runtime.Ok? {
        RuntimeIsShown(disk, base.value.value, secret, outbound, seen, disk.config, old(Working()));
      }
      r := if runtime.Ok? then Ok(Some(runtime.value)) else Err;
    }

    /** Rewrites `config.yaml` from the active base; false when there is nothing to rebuild from. */
    method RestoreActiveRuntime() returns (r: Result<bool>)
      requires Valid()
      modifies this`disk, this`step, this`trace
      ensures Valid() && step > old(step)
      ensures disk == old(disk).(activeBase := disk.activeBase, config := disk.config)
      ensures r.Ok? ==> BaseOf(old(disk)).Ok? && r.value == BaseOf(old(disk)).value.Some?
      ensures r.Ok? && r.value ==> disk.config.Doc? && FlagOn(disk.config) == FlagOn(disk.runtimeOverride)
      ensures r.Ok? ==> Rebuilt(old(disk), disk, secret, outbound, old(Working()))
      ensures BaseKept(old(disk), disk)
      ensures disk.activeBase.Missing? ==> disk.config == old(disk).config
      ensures r.Ok? && !r.value ==> disk == old(disk) && disk.config.Missing?
      ensures r.Ok? && r.value ==> NoFaults(old(step), step - 2) && !faults(step - 1)
      ensures r.Err? ==> disk.config == old(disk).config
      ensures old(Working()) ==> (r.Ok? <==> RestorableAt(old(disk), secret, outbound).Ok?)
    {
      hide NoFaults, BaseOf, Rebuilt, RuntimeShown, ReadRuntimeOverride, RuntimeOf, RestorableAt, TunEnabled, OverOf, Fit;
      var value, port := ActiveRuntime();
      if value.Err? {
        return Err;
      }
      if value.value.None? {
        NothingToRebuild(disk, secret, outbound, old(Working()));
        return Ok(false);
      }
      ConfigKeeps(disk, Doc(value.value.value), shaped);
      ghost var built := disk;
      var written := Write(disk.(config := Doc(value.value.value)));
      StoredIsRebuilt(old(disk), built, built.(config := Doc(value.value.value)), value.value.value, secret, outbound,
                      old(Working()), old(Working()));
      r := if written then Ok(true) else Err;
    }

    // ---------- applying a profile ----------

    method BuildValue(profile: string) returns (r: Result<Built>, ghost port: Option<int>)
      modifies this`step
      ensures step > old(step)
      ensures port == RuntimePort(disk.config) || port == None
      ensures r.Ok? ==> r == BuildOf(disk, profile, secret, outbound, port)
                        && TunEnabled(r.value.runtime) == FlagOn(disk.runtimeOverride)
                        && IsBuildOf(r.value, disk, profile, secret, outbound, old(Working()))
      ensures r.Ok? ==> NoFaults(old(step), step - 1) && step == old(step) + 5
      ensures old(Working()) ==> r == BuildOf(disk, profile, secret, outbound, RuntimePort(disk.config))
    {
      assert NoFaults(old(step), step);
      hide NoFaults;
      port := None;
      var registry := Attempt();
      if !registry || profile !in disk.sources {
        return Err, port;
      }
      OneMore(old(step), step - 1);
      var source := Attempt();
      if !source || !disk.sources[profile].Doc? {
        return Err, port;
      }
      OneMore(old(step), step - 1);
      var local := Attempt();
      if !local || LocalOf(disk).Err? {
        return Err, port;
      }
      var base := MergeValues(disk.sources[profile].content, LocalOf(disk).value);
      if !ValidConfig(base) {
        return Err, port;
      }
      OneMore(old(step), step - 1);
      var over := Attempt();
      if !over || ReadRuntimeOverride(disk.runtimeOverride).Err? {
        return Err, port;
      }
      OneMore(old(step), step - 1);
      var seen := ReadPort();
      port := seen;
      var runtime := ApplyRuntimeLayers(base, ReadRuntimeOverride(disk.runtimeOverride).value,
                                        Surroundings(secret, outbound, seen));
      BuildFlag(disk, profile, secret, outbound, seen);
      r := if runtime.Ok? then Ok(Built(base, runtime.value)) else Err;
      if r.Ok? {
        BuildIsShown(disk, profile, secret, outbound, seen, old(Working()));
      }
    }

    /** Writes base, configuration and active pointer, putting all three back if one write fails. */
    method CommitRuntimeState(profile: string, built: Built) returns (outcome: Applied)
      requires Valid() && Storable(disk, built, shaped)
      modifies this`disk, this`step, this`trace
      ensures Valid() && step > old(step)
      ensures disk == old(disk).(activeBase := disk.activeBase, config := disk.config, activeProfile := disk.activeProfile)
      ensures outcome.Committed? ==> disk == old(disk).(activeBase := Doc(built.base), config := Doc(built.runtime),
                                                        activeProfile := Doc(profile))
      ensures outcome.Committed? ==> NoFaults(old(step), step) && step == old(step) + 6
      ensures outcome.Refused? || outcome.RolledBack? ==> disk == old(disk)
      ensures disk.config == old(disk).config || disk.config == Doc(built.runtime)
      ensures disk.activeBase == old(disk).activeBase || disk.activeBase == Doc(built.base)
      ensures !outcome.Committed? ==> !NoFaults(old(step), step)
      ensures AtMostOneFault(old(step), step) ==> !outcome.Stuck?
      ensures old(Working()) ==> outcome.Committed?
    {
      var stableRead := Attempt();
      var baseRead := Attempt();
      var activeRead := Attempt();
      if !stableRead || !baseRead || !activeRead {
        return Refused;
      }
      var previous := disk;
      var committed := WriteThree(profile, built);
      if committed {
        return Committed;
      }
      outcome := UndoCommit(previous, built);
    }

    /** The three writes, until one fails. */
    method WriteThree(profile: string, built: Built) returns (done: bool)
      requires Valid() && Storable(disk, built, shaped)
      modifies this`disk, this`step, this`trace
      ensures Valid() && step > old(step)
      ensures done ==> disk == old(disk).(activeBase := Doc(built.base), config := Doc(built.runtime),
                                          activeProfile := Doc(profile))
      ensures !done ==> disk == old(disk).(activeBase := disk.activeBase, config := disk.config)
      ensures disk.config == old(disk).config || disk.config == Doc(built.runtime)
      ensures disk.activeBase == old(disk).activeBase || disk.activeBase == Doc(built.base)
      ensures if done then NoFaults(old(step), step) && step == old(step) + 3 else !NoFaults(old(step), step)
    {
      BaseKeeps(disk, Doc(built.base), shaped);
      done := Write(disk.(activeBase := Doc(built.base)));
      if done {
        ConfigKeeps(disk, Doc(built.runtime), shaped);
        done := Write(disk.(config := Doc(built.runtime)));
      }
      if done {
        OtherFilesKeep(disk, Doc(profile), disk.candidate, shaped);
        done := Write(disk.(activeProfile := Doc(profile)));
      }
    }

    /** Puts the three files back after a failed write. */
    method UndoCommit(previous: Disk, built: Built) returns (outcome: Applied)
      requires Valid() && Storable(disk, built, shaped) && Kept(previous, shaped)
      requires disk == previous.(activeBase := disk.activeBase, config := disk.config)
      requires disk.activeBase == previous.activeBase || disk.activeBase == Doc(built.base)
      requires disk.config == previous.config || disk.config == Doc(built.runtime)
      modifies this`disk, this`step, this`trace
      ensures Valid() && step > old(step)
      ensures disk == previous.(activeBase := disk.activeBase, config := disk.config)
      ensures outcome.RolledBack? || outcome.Stuck?
      ensures outcome.RolledBack? ==> disk == previous
      ensures outcome.RolledBack? <==> NoFaults(old(step), step)
      ensures step == old(step) + 3
      ensures disk.config == previous.config || disk.config == old(disk).config
      ensures disk.activeBase == previous.activeBase || disk.activeBase == old(disk).activeBase
    {
      BaseKeeps(disk, previous.activeBase, shaped);
      var baseBack := Write(disk.(activeBase := previous.activeBase));
      ConfigKeeps(disk, previous.config, shaped);
      var stableBack := Write(disk.(config := previous.config));
      OtherFilesKeep(disk, previous.activeProfile, disk.candidate, shaped);
      var activeBack := Write(disk.(activeProfile := previous.activeProfile));
      outcome := if baseBack && stableBack && activeBack then RolledBack else Stuck;
    }

    /** Removing the candidate; a failure is ignored. */
    method DropCandidate()
      requires Valid()
      modifies this`disk, this`step, this`trace
      ensures Valid() && step == old(step) + 1
      ensures disk == if faults(old(step)) then old(disk) else old(disk).(candidate := Missing)
    {
      OtherFilesKeep(disk, disk.activeProfile, Missing, shaped);
      var _ := Write(disk.(candidate := Missing));
    }

    /** Rewrites the previous configuration and loads it again. */
    method UndoLoad(previous: File<Value>) returns (ok: bool)
      requires Valid() && (FlagOn(previous) ==> disk.session.Exists())
      requires shaped && disk.activeBase.Missing?
               ==> previous == disk.config || (previous.Doc? && FitBase(previous.content))
      modifies this`disk, this`loaded, this`step, this`trace
      ensures Valid() && step > old(step)
      ensures disk == old(disk).(config := disk.config)
      ensures disk.config == old(disk).config || disk.config == previous
      ensures ok ==> disk.config == previous && Doc(loaded) == previous
      ensures !ok && previous.Doc? ==> !NoFaults(old(step), step)
      ensures disk.config == if faults(old(step)) then old(disk).config else previous
    {
      ConfigKeeps(disk, previous, shaped);
      ok := Write(disk.(config := previous));
      if ok {
        ok := Load(disk.config);
      }
    }

    /** The candidate's PUT, its verification and the commit. */
    method LoadThenCommit(profile: string, built: Built) returns (accepted: bool, commit: Applied)
      requires Valid() && disk.candidate == Doc(built.runtime) && Storable(disk, built, shaped)
      modifies this`disk, this`loaded, this`step, this`trace
      ensures Valid() && step > old(step)
      ensures disk == old(disk).(activeBase := disk.activeBase, config := disk.config, activeProfile := disk.activeProfile)
      ensures loaded == if accepted then built.runtime else old(loaded)
      ensures !accepted ==> commit.Refused?
      ensures commit.Committed? ==> accepted && NoFaults(old(step), step) && step == old(step) + 10
                                    && disk == old(disk).(activeBase := Doc(built.base), config := Doc(built.runtime),
                                                          activeProfile := Doc(profile))
      ensures commit.Refused? || commit.RolledBack? ==> disk == old(disk)
      ensures disk.config == old(disk).config || disk.config == Doc(built.runtime)
      ensures disk.activeBase == old(disk).activeBase || disk.activeBase == Doc(built.base)
      ensures !commit.Committed? ==> !NoFaults(old(step), step)
      ensures AtMostOneFault(old(step), step) ==> !commit.Stuck?
    {
      hide Kept, TunEnabled;
      commit := Refused;
      accepted := LoadCandidate(disk.candidate);
      if accepted {
        var verified := VerifyController(TunEnabled(built.runtime));
        if verified {
          commit := CommitRuntimeState(profile, built);
        }
      }
    }

    /** From the candidate's PUT to the end of the transaction. */
    method LoadAndCommit(profile: string, built: Built) returns (outcome: Applied)
      requires Valid() && disk.config.Exists() && disk.candidate == Doc(built.runtime)
      requires Storable(disk, built, shaped)
      modifies this`disk, this`loaded, this`step, this`trace
      ensures Valid() && step > old(step)
      ensures disk == old(disk).(activeBase := disk.activeBase, config := disk.config,
                                 activeProfile := disk.activeProfile, candidate := disk.candidate)
      ensures outcome.Committed? ==> disk == old(disk).(activeBase := Doc(built.base), config := Doc(built.runtime),
                                       activeProfile := Doc(profile), candidate := disk.candidate)
                                     && loaded == built.runtime
      ensures outcome.Refused? || outcome.RolledBack? ==> disk == old(disk).(candidate := disk.candidate)
      ensures outcome.Refused? ==> loaded == old(loaded)
      ensures outcome.RolledBack? ==> Doc(loaded) == old(disk).config
      ensures disk.config == old(disk).config || disk.config == Doc(built.runtime)
      ensures outcome.Committed? ==> NoFaults(old(step), step - 1)
      ensures disk.candidate.Missing? || faults(step - 1)
      ensures AtMostOneFault(old(step), step) && old(disk).config.Doc? ==> !outcome.Stuck?
      ensures old(Working()) ==> outcome.Committed?
    {
      var previous := disk.config;
      PreviousIsSafe(disk, shaped);
      hide Kept, TunEnabled;
      var accepted, commit := LoadThenCommit(profile, built);
      if !accepted {
        DropCandidate();
        return Refused;
      }
      if !commit.Committed? {
        var undone := UndoLoad(previous);
        DropCandidate();
        return if undone && !commit.Stuck? then RolledBack else Stuck;
      }
      DropCandidate();
      outcome := Committed;
    }
  }

  lemma PreviousIsSafe(disk: Disk, shaped: bool)
    requires Kept(disk, shaped)
    ensures FlagOn(disk.config) ==> disk.session.Exists()
    ensures shaped && disk.activeBase.Missing? ==> disk.config.Doc? && FitBase(disk.config.content)
  {
  }
}
