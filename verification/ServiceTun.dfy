// The TUN session of the Windows service (src-tauri/src/service.rs).
module ServiceTun {
  import opened Basics
  import opened Yaml
  import opened Config
  import opened Dns
  import opened Host
  import opened TunSession

  /** The in-memory session. */
  datatype Tun = Tun(status: Status, profile: Option<string>, legacy: File<Value>)

  const NO_TUN := Tun(Disabled, None, Missing)

  /** How reloading the active runtime ended; ReloadedUnready reports failure after having committed. */
  datatype Reload = Reloaded | ReloadedUnready | NotLoaded | Undone | Broken

  function Normalized(legacy: File<Value>): File<Value> {
    if legacy.Blank? then Missing else legacy
  }

  /** A saved override that can be written back. */
  predicate RestorableOverride(legacy: File<Value>) {
    legacy.Doc? && ValidConfig(legacy.content)
  }

  /** What the daemon is asked to do; CoreStart stands for the TUN part of starting the core. */
  datatype Command = Enable(profile: Option<string>) | Disable | Apply(id: string) | CoreStart | Shutdown

  /** One run of the service: its faults, the outside's answers, its commands and where it crashes. */
  datatype Life = Life(faults: nat -> bool, answers: nat -> bool, loaded: Value, commands: seq<Command>, crash: nat)

  /** What the status claims about the disk. */
  predicate Truthful(tun: Tun, disk: Disk) {
    && (tun.status.Disabled? ==> disk.session.Missing?)
    && (tun.status.Running? ==> disk.session.Doc? && FlagOn(disk.runtimeOverride) && FlagOn(disk.config))
  }

  /** Without a controller, a session with this saved override and profile can be ended when nothing fails. */
  predicate EndableOffline(disk: Disk, legacy: File<Value>, profile: Option<string>, secret: string, outbound: Outbound) {
    ReadRuntimeOverride(disk.runtimeOverride).Ok? &&
    var off := disk.(runtimeOverride := Missing);
    if legacy.Missing? then RestorableAt(off, secret, outbound).Ok?
    else
      RestorableOverride(legacy) && profile.Some?
      && BuildOf(off.(localOverride := legacy), profile.value, secret, outbound, RuntimePort(disk.config)).Ok?
  }

  /** From this disk a recovery without failures succeeds. */
  predicate Recoverable(disk: Disk, secret: string, outbound: Outbound) {
    disk.session.Doc? &&
    var session := disk.session.content;
    EndableOffline(disk, Normalized(session.legacy), Some(session.profile), secret, outbound)
  }

  /** The saved override and the profile with which a session is to be ended. */
  function LegacyToEnd(disk: Disk, tun: Tun): File<Value> {
    if disk.session.Doc? then Normalized(disk.session.content.legacy)
    else if tun.profile.None? then Missing
    else Normalized(tun.legacy)
  }

  function ProfileToEnd(disk: Disk, tun: Tun): Option<string> {
    if disk.session.Doc? then Some(disk.session.content.profile) else tun.profile
  }

  /** The files with the override off and a saved local override written back. */
  function FilesOff(disk: Disk, legacy: File<Value>): Disk {
    disk.(runtimeOverride := Missing, localOverride := if legacy.Missing? then disk.localOverride else legacy)
  }

  /** A session's end: the override is off and `config.yaml` is the active base's runtime without it, or, with a
      saved override, what the session's profile builds over that. */
  ghost predicate Ended(
      before: Disk, after: Disk, legacy: File<Value>, profile: Option<string>, secret: string, outbound: Outbound,
      read: bool)
  {
    && after.runtimeOverride.Missing? && after.localOverride == FilesOff(before, legacy).localOverride
    && if legacy.Missing? then
         Rebuilt(FilesOff(before, legacy), after, secret, outbound, read) && after.activeProfile == before.activeProfile
       else profile.Some? && ProfileRuns(FilesOff(before, legacy), after, profile.value, secret, outbound, read)
  }

  lemma RolledBackKeeps(
      before: Disk, recorded: Disk, failed: Disk, after: Disk, secret: string, outbound: Outbound, read: bool)
    requires recorded.activeBase == before.activeBase && recorded.config == before.config
    requires BaseKept(recorded, failed) && before.activeBase.Exists()
    requires Ended(failed, after, Missing, None, secret, outbound, read) && BaseKept(failed, after)
    ensures BaseKept(before, after) && ConfigKept(before, after, secret, outbound)
  {
    hide Rebuilt;
    RebuiltLooksAt(FilesOff(failed, Missing), after, failed, after, secret, outbound, read, false);
    assert BaseKept(before, failed) && Rebuilt(failed, after, secret, outbound, false);
  }

  /** The recovery file and the candidate do not matter to that. */
  lemma EndedLooksAt(
      before: Disk, after: Disk, before': Disk, after': Disk, legacy: File<Value>, profile: Option<string>,
      secret: string, outbound: Outbound, read: bool, read': bool)
    requires Ended(before, after, legacy, profile, secret, outbound, read) && (read' ==> read)
    requires after == after'.(session := after.session, candidate := after.candidate)
    requires before == before'.(session := before.session, candidate := before.candidate)
    ensures Ended(before', after', legacy, profile, secret, outbound, read')
  {
    hide Rebuilt, ProfileRuns;
    if legacy.Missing? {
      RebuiltLooksAt(FilesOff(before, legacy), after, FilesOff(before', legacy), after', secret, outbound, read, read');
    } else {
      ProfileRunsLooksAt(FilesOff(before, legacy), after, after', profile.value, secret, outbound, read, read');
      ProfileRunsFrom(FilesOff(before, legacy), FilesOff(before', legacy), after', profile.value, secret, outbound, read');
    }
  }

  lemma ProfileRunsFrom(
      before: Disk, before': Disk, after: Disk, profile: string, secret: string, outbound: Outbound, read: bool)
    requires ProfileRuns(before, after, profile, secret, outbound, read)
    requires before == before'.(session := before.session, candidate := before.candidate)
    ensures ProfileRuns(before', after, profile, secret, outbound, read)
  {
    hide Shows, RuntimePort, ReadRuntimeOverride, Merge;
  }

  class ServiceRuntime {
    const m: Machine
    var tun: Tun

    constructor (m: Machine)
      ensures this.m == m && tun == NO_TUN
    {
      this.m, this.tun := m, NO_TUN;
    }

    ghost predicate Valid()
      reads this, m
    {
      && m.Valid() && Truthful(tun, m.disk) && (m.shaped ==> LegacyFit(tun.legacy, tun.profile, m.sources))
      && (tun.status.Running? ==> tun.legacy.Missing?)
    }

    /** Nothing fails and every question to the outside gets the favourable answer. */
    ghost predicate Calm()
      reads m
    {
      m.Working() && forall n: nat | n >= m.step :: m.answers(n)
    }

    /** Every question gets the favourable answer, whatever fails: the core is there, managed and ready. */
    ghost predicate Attended()
      reads m
    {
      forall n: nat | n >= m.step :: m.answers(n)
    }

    /** Nothing fails and no core runs. */
    ghost predicate Idle()
      reads m
    {
      m.Working() && forall n: nat | n >= m.step :: !m.answers(n)
    }

    method OwnedCoreReady() returns (ready: Result<bool>)
      modifies m`step
      ensures ready == if m.faults(old(m.step)) then Err else Ok(m.answers(old(m.step) + 1))
      ensures m.step == old(m.step) + if ready.Err? then 1 else 2
    {
      var asked := m.Attempt();
      if !asked {
        return Err;
      }
      var answer := m.Ask();
      ready := Ok(answer);
    }

    method ReadTunPersisted() returns (r: Result<File<Session>>)
      modifies m`step
      ensures m.step == old(m.step) + 1 && (m.faults(old(m.step)) ==> r.Err?)
      ensures r.Ok? ==> r.value == m.disk.session && (r.value.Missing? || r.value.Doc?)
      ensures old(m.Working()) ==> (r.Ok? <==> m.disk.session.Missing? || m.disk.session.Doc?)
    {
      var readable := m.Attempt();
      r := if readable && (m.disk.session.Missing? || m.disk.session.Doc?) then Ok(m.disk.session) else Err;
    }

    method WriteTunPersisted() returns (ok: bool)
      requires m.Valid() && tun.profile.Some? && (m.shaped ==> LegacyFit(tun.legacy, tun.profile, m.sources))
      modifies m`disk, m`step, m`trace
      ensures m.Valid() && m.step > old(m.step)
      ensures m.disk == if ok then old(m.disk).(session := Doc(Session(tun.profile.value, Normalized(tun.legacy))))
                        else old(m.disk)
      ensures old(m.Working()) ==> ok
    {
      SessionKeeps(m.disk, Doc(Session(tun.profile.value, Normalized(tun.legacy))), m.shaped);
      ok := m.Write(m.disk.(session := Doc(Session(tun.profile.value, Normalized(tun.legacy)))));
    }

    method ClearTunPersisted() returns (ok: bool)
      requires m.Valid() && !FlagOn(m.disk.runtimeOverride) && !FlagOn(m.disk.config)
      modifies m`disk, m`step, m`trace
      ensures m.Valid() && m.step > old(m.step)
      ensures m.disk == if ok then old(m.disk).(session := Missing) else old(m.disk)
      ensures old(m.Working()) ==> ok
    {
      SessionKeeps(m.disk, Missing, m.shaped);
      ok := m.Write(m.disk.(session := Missing));
    }

    predicate HasTunRecovery()
      reads this, m
    {
      m.disk.session.Exists() || tun.profile.Some?
    }

    // ---------- reloading the controller ----------

    method ApplyActiveRuntime(expectedTun: bool) returns (outcome: Reload)
      requires m.Valid()
      modifies m`disk, m`loaded, m`step, m`trace
      ensures m.Valid() && m.step > old(m.step)
      ensures m.disk == old(m.disk).(activeBase := m.disk.activeBase, config := m.disk.config, candidate := m.disk.candidate)
      ensures outcome.Reloaded? || outcome.ReloadedUnready? ==>
                m.disk.config == Doc(m.loaded) && TunEnabled(m.loaded) == expectedTun
      ensures outcome.Reloaded? || outcome.ReloadedUnready? ==>
                Rebuilt(old(m.disk), m.disk, m.secret, m.outbound, old(m.Working()))
      ensures !(outcome.Reloaded? || outcome.ReloadedUnready?) ==> m.disk.config == old(m.disk).config
      ensures BaseKept(old(m.disk), m.disk)
      ensures m.faults(old(m.step)) || !m.answers(old(m.step) + 1) ==> outcome.NotLoaded? && m.disk == old(m.disk)
      ensures outcome.NotLoaded? ==> m.loaded == old(m.loaded)
      ensures outcome.Undone? ==> Doc(m.loaded) == m.disk.config
      ensures old(Calm()) ==>
        (outcome.Reloaded? <==> Reloadable(old(m.disk), m.secret, m.outbound, expectedTun))
      ensures old(m.Working()) && m.answers(old(m.step) + 1) && Reloadable(old(m.disk), m.secret, m.outbound, expectedTun) ==>
        outcome == if m.answers(m.step - 1) then Reloaded else ReloadedUnready
    {
      hide Fit, TunEnabled, BaseOf, RuntimeOf, RuntimeShown, Rebuilt, OverOf;
      var ready := OwnedCoreReady();
      if ready != Ok(true) {
        return NotLoaded;
      }
      ghost var working := m.Working();
      var value, port := m.ActiveRuntime();
      if value.Err? || value.value.None? || TunEnabled(value.value.value) != expectedTun {
        return NotLoaded;
      }
      var runtime := value.value.value;
      var previousRead := m.Attempt();
      if !previousRead || !m.disk.config.Exists() {
        return NotLoaded;
      }
      ghost var built := m.disk;
      outcome := Swap(runtime, expectedTun);
      if !outcome.Reloaded? {
        return;
      }
      StoredIsRebuilt(old(m.disk), built, m.disk, runtime, m.secret, m.outbound, working, old(m.Working()));
      ready := OwnedCoreReady();
      outcome := if ready == Ok(true) then Reloaded else ReloadedUnready;
    }

    /** Candidate, PUT, read-back and commit of `config.yaml`, undone on failure. */
    method Swap(runtime: Value, expectedTun: bool) returns (outcome: Reload)
      requires m.Valid() && m.disk.config.Exists() && m.disk.activeBase.Exists()
      requires TunEnabled(runtime) == expectedTun && (expectedTun ==> m.disk.session.Exists())
      modifies m`disk, m`loaded, m`step, m`trace
      ensures m.Valid() && m.step > old(m.step)
      ensures m.disk == old(m.disk).(config := m.disk.config, candidate := m.disk.candidate)
      ensures outcome.Reloaded? ==> m.disk.config == Doc(runtime) && m.loaded == runtime
      ensures !outcome.Reloaded? ==> m.disk.config == old(m.disk).config
      ensures outcome.NotLoaded? ==> m.loaded == old(m.loaded)
      ensures outcome.Undone? ==> Doc(m.loaded) == m.disk.config
      ensures !outcome.ReloadedUnready?
      ensures outcome.Reloaded? ==> m.NoFaults(old(m.step), m.step - 1)
      ensures outcome.NotLoaded? ==> m.disk == old(m.disk) && m.faults(old(m.step))
      ensures !outcome.NotLoaded? ==> m.disk.candidate.Missing? || m.faults(m.step - 1)
      ensures m.AtMostOneFault(old(m.step), m.step) && old(m.disk).config.Doc? ==> !outcome.Broken?
      ensures old(m.Working()) ==> outcome.Reloaded?
    {
      hide Fit, TunEnabled, BaseOf;
      var previous := m.disk.config;
      PreviousIsSafe(m.disk, m.shaped);
      OtherFilesKeep(m.disk, m.disk.activeProfile, Doc(runtime), m.shaped);
      var staged := m.Write(m.disk.(candidate := Doc(runtime)));
      outcome := NotLoaded;
      if staged {
        var done := LoadAndStore(runtime, expectedTun);
        outcome := Reloaded;
        if !done {
          var undone := m.UndoLoad(previous);
          outcome := if undone then Undone else Broken;
        }
        m.DropCandidate();
      }
    }

    method LoadAndStore(runtime: Value, expectedTun: bool) returns (done: bool)
      requires m.Valid() && m.disk.activeBase.Exists() && m.disk.candidate == Doc(runtime)
      requires TunEnabled(runtime) == expectedTun && (expectedTun ==> m.disk.session.Exists())
      modifies m`disk, m`loaded, m`step, m`trace
      ensures m.Valid() && m.step > old(m.step)
      ensures m.disk == if done then old(m.disk).(config := Doc(runtime)) else old(m.disk)
      ensures done ==> m.loaded == runtime && m.NoFaults(old(m.step), m.step) && m.step == old(m.step) + 5
      ensures !done ==> !m.NoFaults(old(m.step), m.step)
      ensures old(m.Working()) ==> done
    {
      hide Fit, TunEnabled, BaseOf;
      done := m.LoadCandidate(m.disk.candidate);
      if done {
        done := m.VerifyController(expectedTun);
      }
      if done {
        ConfigKeeps(m.disk, Doc(runtime), m.shaped);
        done := m.Write(m.disk.(config := Doc(runtime)));
      }
    }

    // ---------- applying a profile ----------

    /** Builds the profile's runtime and stages it as the candidate. */
    method PrepareCandidate(profile: string) returns (r: Result<Built>, ghost port: Option<int>)
      requires m.Valid()
      modifies m`disk, m`step, m`trace
      ensures m.Valid() && m.step > old(m.step)
      ensures port == RuntimePort(m.disk.config) || port == None
      ensures m.disk == old(m.disk).(candidate := m.disk.candidate)
      ensures r.Ok? ==> r == BuildOf(old(m.disk), profile, m.secret, m.outbound, port)
                        && TunEnabled(r.value.runtime) == FlagOn(m.disk.runtimeOverride)
                        && Storable(m.disk, r.value, m.shaped)
                        && m.disk.candidate == Doc(r.value.runtime) && m.disk.config.Exists()
                        && IsBuildOf(r.value, old(m.disk), profile, m.secret, m.outbound, old(m.Working()))
      ensures m.faults(old(m.step)) || !m.answers(old(m.step) + 1) ==> r.Err? && m.disk == old(m.disk)
      ensures r.Ok? ==> m.NoFaults(m.step - 2, m.step)
      ensures old(Calm()) ==> r == if m.disk.config.Exists()
                                   then BuildOf(old(m.disk), profile, m.secret, m.outbound, RuntimePort(m.disk.config))
                                   else Err
    {
      hide Kept, Fit, TunEnabled, BuildOf, RuntimePort, IsBuildOf;
      var ready := OwnedCoreReady();
      port := None;
      r := Err;
      if ready == Ok(true) {
        ghost var working := m.Working();
        r, port := m.BuildValue(profile);
        if r.Ok? {
          BuildAnyhow(r.value, m.disk, profile, m.secret, m.outbound, working, old(m.Working()));
        }
      }
      if r.Ok? {
        BuildIsStorable(m.disk, profile, m.secret, m.outbound, port, m.shaped);
        OtherFilesKeep(m.disk, m.disk.activeProfile, Doc(r.value.runtime), m.shaped);
        var readable := m.Attempt();
        var staged := false;
        if readable && m.disk.config.Exists() {
          staged := m.Write(m.disk.(candidate := Doc(r.value.runtime)));
        }
        if !staged {
          r := Err;
        }
      }
    }

    method ApplyProfile(profile: string) returns (outcome: Applied, ghost port: Option<int>)
      requires m.Valid()
      modifies m`disk, m`loaded, m`step, m`trace
      ensures m.Valid() && m.step > old(m.step)
      ensures m.disk == old(m.disk).(activeBase := m.disk.activeBase, config := m.disk.config,
                                     activeProfile := m.disk.activeProfile, candidate := m.disk.candidate)
      ensures outcome.Committed? ==>
                && m.disk.activeProfile == Doc(profile) && m.disk.config == Doc(m.loaded)
                && BuildOf(old(m.disk), profile, m.secret, m.outbound, port).Ok?
                && m.disk.activeBase == Doc(BuildOf(old(m.disk), profile, m.secret, m.outbound, port).value.base)
                && m.loaded == BuildOf(old(m.disk), profile, m.secret, m.outbound, port).value.runtime
                && ProfileRuns(old(m.disk), m.disk, profile, m.secret, m.outbound, old(m.Working()))
      ensures port == RuntimePort(old(m.disk).config) || port == None
      ensures outcome.Refused? || outcome.RolledBack? ==> m.disk == old(m.disk).(candidate := m.disk.candidate)
      ensures outcome.Refused? ==> m.loaded == old(m.loaded)
      ensures outcome.RolledBack? ==> Doc(m.loaded) == old(m.disk).config
      ensures m.disk.config == old(m.disk).config || FlagOn(m.disk.config) == FlagOn(m.disk.runtimeOverride)
      ensures outcome.Committed? ==> FlagOn(m.disk.config) == FlagOn(m.disk.runtimeOverride)
      ensures old(Calm()) ==>
        (outcome.Committed?
         <==> (old(m.disk).config.Exists()
               && BuildOf(old(m.disk), profile, m.secret, m.outbound, RuntimePort(old(m.disk).config)).Ok?))
    {
      hide Kept, Fit, TunEnabled, BuildOf, Storable, RuntimePort, IsBuildOf, ProfileRuns;
      var built;
      built, port := PrepareCandidate(profile);
      outcome := Refused;
      if built.Ok? {
        outcome := m.LoadAndCommit(profile, built.value);
        if outcome.Committed? {
          CommittedBuildRuns(old(m.disk), m.disk, built.value, profile, m.secret, m.outbound, old(m.Working()),
                             old(m.Working()));
        }
      }
    }

    // ---------- switching off ----------

    /** Undoes a failed enable. */
    method RollbackTun(profile: string)
      requires m.Valid() && m.disk.session.Doc? && tun.legacy.Missing?
      modifies this`tun, m`disk, m`loaded, m`step, m`trace
      ensures Valid() && m.step > old(m.step)
      ensures m.disk.localOverride == old(m.disk).localOverride && m.disk.sources == old(m.disk).sources
      ensures (tun == NO_TUN && AllOff(m.disk))
              || (tun == old(tun).(status := Failed, profile := Some(profile)) && m.disk.session == old(m.disk).session)
      ensures tun == NO_TUN ==> Ended(old(m.disk), m.disk, Missing, None, m.secret, m.outbound, old(m.Working()))
      ensures tun == NO_TUN && old(Calm()) ==> Doc(m.loaded) == m.disk.config
      ensures BaseKept(old(m.disk), m.disk)
      ensures old(Calm()) ==> (tun == NO_TUN <==> Endable(old(m.disk), Missing, None, m.secret, m.outbound))
      ensures old(Idle()) ==> (tun == NO_TUN <==> EndableOffline(old(m.disk), Missing, None, m.secret, m.outbound))
    {
      hide Fit, TunEnabled, RestorableAt, BaseOf, Ended, Endable, EndableOffline;
      var restored := SwitchBack();
      if restored {
        ghost var done := m.disk;
        restored := ClearTunPersisted();
        EndedLooksAt(old(m.disk), done, old(m.disk), m.disk, Missing, None, m.secret, m.outbound, old(m.Working()),
                     old(m.Working()));
      }
      tun := if restored then NO_TUN else tun.(status := Failed, profile := Some(profile));
    }

    /** The file and controller work of that: override off, and the runtime without it. */
    method SwitchBack() returns (restored: bool)
      requires m.Valid()
      modifies m`disk, m`loaded, m`step, m`trace
      ensures m.Valid() && m.step > old(m.step)
      ensures m.disk == old(m.disk).(runtimeOverride := m.disk.runtimeOverride, activeBase := m.disk.activeBase,
                                     config := m.disk.config, candidate := m.disk.candidate)
      ensures restored ==> m.disk.runtimeOverride.Missing? && !FlagOn(m.disk.config)
      ensures restored ==> Ended(old(m.disk), m.disk, Missing, None, m.secret, m.outbound, old(m.Working()))
      ensures restored && old(Calm()) ==> Doc(m.loaded) == m.disk.config
      ensures BaseKept(old(m.disk), m.disk)
      ensures old(Calm()) ==> (restored <==> Endable(old(m.disk), Missing, None, m.secret, m.outbound))
      ensures old(Idle()) ==> (restored <==> EndableOffline(old(m.disk), Missing, None, m.secret, m.outbound))
    {
      hide Fit, TunEnabled, RestorableAt, BaseFrom, Rebuilt, ReadRuntimeOverride;
      SwitchOffDeletes(m.disk.runtimeOverride);
      restored := m.SetTun(false);
      if restored {
        ghost var off := m.disk;
        var ready := OwnedCoreReady();
        ghost var now := m.Working();
        if ready == Ok(true) {
          var reload := ApplyActiveRuntime(false);
          restored := reload.Reloaded?;
        } else {
          var rebuilt := m.RestoreActiveRuntime();
          restored := rebuilt.Ok?;
        }
        if restored {
          RebuiltLooksAt(off, m.disk, off, m.disk, m.secret, m.outbound, now, old(m.Working()));
        }
      }
    }

    method DisableTun() returns (ok: bool)
      requires Valid()
      modifies this`tun, m`disk, m`loaded, m`step, m`trace
      ensures Valid() && m.step >= old(m.step)
      ensures ok ==> tun == NO_TUN && AllOff(m.disk) && m.disk.runtimeOverride.Missing?
      ensures !ok ==> (tun == old(tun) && (m.disk == old(m.disk) || old(m.disk).session.Missing?))
                      || ((tun.status.Stopping? || tun.status.Failed?) && tun == old(tun).(status := tun.status))
      ensures ok ==> Ended(old(m.disk), m.disk, LegacyToEnd(old(m.disk), old(tun)), ProfileToEnd(old(m.disk), old(tun)),
                           m.secret, m.outbound, old(m.Working()))
      ensures ok && ProfileToEnd(old(m.disk), old(tun)).Some? && old(Attended()) ==> Doc(m.loaded) == m.disk.config
      ensures m.faults(old(m.step))
              || (ProfileToEnd(old(m.disk), old(tun)).Some?
                  && (m.faults(old(m.step) + 1) || (!m.answers(old(m.step) + 2) && m.answers(old(m.step) + 3)))) ==>
                !ok && m.disk == old(m.disk) && m.loaded == old(m.loaded) && tun == old(tun)
      ensures !ok ==> m.disk.session == old(m.disk).session
      ensures LegacyToEnd(old(m.disk), old(tun)).Missing? ==> BaseKept(old(m.disk), m.disk)
      ensures old(Calm()) ==> (ok <==> Stoppable(old(m.disk), old(tun), m.secret, m.outbound))
      ensures old(Idle()) ==>
        (ok <==> (old(m.disk).session.Missing? || old(m.disk).session.Doc?)
                 && EndableOffline(old(m.disk), LegacyToEnd(old(m.disk), old(tun)), ProfileToEnd(old(m.disk), old(tun)),
                                   m.secret, m.outbound))
    {
      hide Kept, Fit, TunEnabled, BuildOf, BaseOf, RestorableAt, RestorableOverride, ReadRuntimeOverride, RuntimePort, Ended, EndableOffline;
      ghost var working := old(m.Working());
      var persisted := ReadTunPersisted();
      ok := false;
      if persisted.Ok? {
        ghost var now := m.Working();
        if persisted.value.Missing? && tun.profile.None? {
          ok := DisableWithoutSession();
        } else {
          ok := DisableSession(persisted.value);
        }
        if ok {
          EndedLooksAt(old(m.disk), m.disk, old(m.disk), m.disk, LegacyToEnd(old(m.disk), old(tun)),
                       ProfileToEnd(old(m.disk), old(tun)), m.secret, m.outbound, now, working);
        }
        NoSessionMeansOff(m.disk, m.shaped);
      }
    }

    method DisableSession(persisted: File<Session>) returns (ok: bool)
      requires Valid() && persisted == m.disk.session
      requires persisted.Doc? || (persisted.Missing? && tun.profile.Some?)
      modifies this`tun, m`disk, m`loaded, m`step, m`trace
      ensures Valid() && m.step >= old(m.step)
      ensures ok ==> tun == NO_TUN && m.disk.session.Missing? && m.disk.runtimeOverride.Missing?
      ensures !ok ==> (tun == old(tun) && (m.disk == old(m.disk) || old(m.disk).session.Missing?))
                      || ((tun.status.Stopping? || tun.status.Failed?) && tun == old(tun).(status := tun.status))
      ensures ok ==> Ended(old(m.disk), m.disk, LegacyToEnd(old(m.disk), old(tun)), ProfileToEnd(old(m.disk), old(tun)),
                           m.secret, m.outbound, old(m.Working()))
      ensures ok && old(Attended()) ==> Doc(m.loaded) == m.disk.config
      ensures m.faults(old(m.step)) || (!m.answers(old(m.step) + 1) && m.answers(old(m.step) + 2)) ==>
                !ok && m.disk == old(m.disk) && m.loaded == old(m.loaded) && tun == old(tun)
      ensures !ok ==> m.disk.session == old(m.disk).session
      ensures LegacyToEnd(old(m.disk), old(tun)).Missing? ==> BaseKept(old(m.disk), m.disk)
      ensures old(Calm()) ==> (ok <==> Stoppable(old(m.disk), old(tun), m.secret, m.outbound))
      ensures old(Idle()) ==>
        (ok <==> (old(m.disk).session.Missing? || old(m.disk).session.Doc?)
                 && EndableOffline(old(m.disk), LegacyToEnd(old(m.disk), old(tun)), ProfileToEnd(old(m.disk), old(tun)),
                                   m.secret, m.outbound))
    {
      hide Kept, Fit, TunEnabled, BuildOf, BaseOf, RestorableAt, RestorableOverride, ReadRuntimeOverride, RuntimePort, Ended, EndableOffline;
      var legacy := Normalized(if persisted.Doc? then persisted.content.legacy else tun.legacy);
      var profile := if persisted.Doc? then Some(persisted.content.profile) else tun.profile;
      var ours := CoreIsOurs();
      ok := false;
      if ours {
        tun := tun.(status := Stopping);
        StoredSessionFits(m.disk, m.shaped);
        ghost var now := m.Working();
        var ended := EndSession(legacy, profile);
        tun := if ended == Ok(true) then NO_TUN else if ended == Ok(false) then tun.(status := Failed) else tun;
        ok := ended == Ok(true);
        if ok {
          EndedLooksAt(old(m.disk), m.disk, old(m.disk), m.disk, legacy, profile, m.secret, m.outbound, now, old(m.Working()));
        }
      }
    }

    /** No foreign core is running in place of the service's own. */
    method CoreIsOurs() returns (ok: bool)
      modifies m`step
      ensures m.step > old(m.step)
      ensures ok <==> && !m.faults(old(m.step))
                      && (m.answers(old(m.step) + 1) || !m.answers(old(m.step) + 2))
    {
      ok := m.Attempt();
      if ok {
        var managed := m.Ask();
        if !managed {
          var foreign := m.Ask();
          ok := !foreign;
        }
      }
    }

    /** The file and controller work of switching off; Err leaves the status Stopping. */
    method EndSession(legacy: File<Value>, profile: Option<string>) returns (r: Result<bool>)
      requires m.Valid() && !legacy.Blank? && (m.shaped ==> LegacyLocal(legacy, m.sources))
      modifies m`disk, m`loaded, m`step, m`trace
      ensures m.Valid() && m.step >= old(m.step)
      ensures r == Ok(true) ==> m.disk.session.Missing? && m.disk.runtimeOverride.Missing?
                                && Ended(old(m.disk), m.disk, legacy, profile, m.secret, m.outbound, old(m.Working()))
      ensures r == Ok(true) && old(Attended()) ==> Doc(m.loaded) == m.disk.config
      ensures legacy.Missing? ==> BaseKept(old(m.disk), m.disk)
      ensures r != Ok(true) ==> m.disk.session == old(m.disk).session
      ensures old(Calm()) ==>
        (r == Ok(true) <==> Endable(old(m.disk), legacy, profile, m.secret, m.outbound))
      ensures old(Idle()) ==>
        (r == Ok(true) <==> EndableOffline(old(m.disk), legacy, profile, m.secret, m.outbound))
    {
      hide Kept, Fit, TunEnabled, BaseOf, Ended, Endable, EndableOffline;
      r := Unwind(legacy, profile);
      if r == Ok(true) {
        ghost var done := m.disk;
        var cleared := ClearTunPersisted();
        r := Ok(cleared);
        EndedLooksAt(old(m.disk), done, old(m.disk), m.disk, legacy, profile, m.secret, m.outbound, old(m.Working()),
                     old(m.Working()));
      }
    }

    /** All of that but the recovery file. */
    method Unwind(legacy: File<Value>, profile: Option<string>) returns (r: Result<bool>)
      requires m.Valid() && !legacy.Blank? && (m.shaped ==> LegacyLocal(legacy, m.sources))
      modifies m`disk, m`loaded, m`step, m`trace
      ensures m.Valid() && m.step >= old(m.step) && m.disk.session == old(m.disk).session
      ensures r == Ok(true) ==> m.disk.runtimeOverride.Missing? && !FlagOn(m.disk.config)
                                && Ended(old(m.disk), m.disk, legacy, profile, m.secret, m.outbound, old(m.Working()))
      ensures r == Ok(true) && old(Attended()) ==> Doc(m.loaded) == m.disk.config && m.NoFaults(m.step - 4, m.step - 1)
      ensures legacy.Missing? ==> BaseKept(old(m.disk), m.disk)
      ensures old(Calm()) ==>
        (r == Ok(true) <==> Endable(old(m.disk), legacy, profile, m.secret, m.outbound))
      ensures old(Idle()) ==>
        (r == Ok(true) <==> EndableOffline(old(m.disk), legacy, profile, m.secret, m.outbound))
    {
      hide Kept, Fit, TunEnabled, BuildOf, BaseOf, RestorableAt, RestorableOverride, ReadRuntimeOverride, RuntimePort, Rebuilt,
           ProfileRuns, BaseKept;
      KeepsItsBase(m.disk, FilesOff(m.disk, legacy));
      var switched := SwitchFilesOff(legacy);
      if !switched {
        KeepsItsBase(old(m.disk), m.disk);
        return Ok(false);
      }
      ghost var off := FilesOff(old(m.disk), legacy);
      assert m.disk == off;
      var ready := ConfirmCore();
      if ready.Err? || ready.value.None? {
        return if ready.Err? then Err else Ok(false);
      }
      ghost var now := m.Working();
      var restored := RestoreRuntime(legacy, profile, ready.value.value);
      if legacy.Missing? {
        BaseKeptAcross(old(m.disk), off, m.disk);
      }
      r := Ok(restored);
      if restored {
        assert Ended(old(m.disk), m.disk, legacy, profile, m.secret, m.outbound, now);
        EndedLooksAt(old(m.disk), m.disk, old(m.disk), m.disk, legacy, profile, m.secret, m.outbound, now, old(m.Working()));
      }
      if restored && ready.value.value {
        r := ConfirmOff();
      }
    }

    /** Whether the core is ready; None when a managed core is there but not ready. */
    method ConfirmCore() returns (r: Result<Option<bool>>)
      modifies m`step
      ensures m.step > old(m.step)
      ensures r == if m.faults(old(m.step)) || m.faults(old(m.step) + 2) then Err
                   else
                     var ready, managed := m.answers(old(m.step) + 1), m.answers(old(m.step) + 3);
                     Ok(if managed && !ready then None else Some(ready))
    {
      var ready := OwnedCoreReady();
      if ready.Err? {
        return Err;
      }
      var pid := m.Attempt();
      if !pid {
        return Err;
      }
      var managed := m.Ask();
      r := Ok(if managed && !ready.value then None else Some(ready.value));
    }

    method ConfirmOff() returns (r: Result<bool>)
      modifies m`step
      ensures m.step > old(m.step)
      ensures r.Err? || r.value ==> !TunEnabled(m.loaded)
      ensures r == Ok(true) ==> m.step == old(m.step) + 4 && m.NoFaults(old(m.step), m.step - 1) && m.answers(m.step - 1)
      ensures old(Calm()) ==> r == Ok(!TunEnabled(m.loaded))
    {
      var verified := m.VerifyController(false);
      if !verified {
        return Ok(false);
      }
      r := OwnedCoreReady();
    }

    /** The saved local override, if any, and then the runtime override. */
    method SwitchFilesOff(legacy: File<Value>) returns (ok: bool)
      requires m.Valid() && !legacy.Blank? && (m.shaped ==> LegacyLocal(legacy, m.sources))
      modifies m`disk, m`step, m`trace
      ensures m.Valid() && m.step >= old(m.step)
      ensures ok ==> m.disk == old(m.disk).(runtimeOverride := Missing,
                       localOverride := if legacy.Missing? then old(m.disk).localOverride else legacy)
      ensures m.disk == old(m.disk).(runtimeOverride := m.disk.runtimeOverride, localOverride := m.disk.localOverride)
      ensures ok ==> (legacy.Missing? || RestorableOverride(legacy)) && ReadRuntimeOverride(old(m.disk).runtimeOverride).Ok?
      ensures old(m.Working()) ==>
        (ok <==> (legacy.Missing? || RestorableOverride(legacy)) && ReadRuntimeOverride(old(m.disk).runtimeOverride).Ok?)
    {
      if !legacy.Missing? {
        var restored := RestoreOverride(legacy);
        if !restored {
          return false;
        }
      }
      SwitchOffDeletes(m.disk.runtimeOverride);
      ok := m.SetTun(false);
    }

    method DisableWithoutSession() returns (ok: bool)
      requires Valid() && m.disk.session.Missing? && tun.profile.None?
      modifies this`tun, m`disk, m`loaded, m`step, m`trace
      ensures Valid() && m.step >= old(m.step)
      ensures m.disk.session.Missing?
      ensures tun == if ok then NO_TUN else old(tun)
      ensures ok ==> m.disk.runtimeOverride.Missing?
      ensures ok ==> Ended(old(m.disk), m.disk, Missing, None, m.secret, m.outbound, old(m.Working()))
      ensures ok && old(Calm()) && m.disk.activeBase.Exists() ==> Doc(m.loaded) == m.disk.config
      ensures BaseKept(old(m.disk), m.disk)
      ensures old(Idle()) ==> (ok <==> EndableOffline(old(m.disk), Missing, None, m.secret, m.outbound))
      ensures old(Calm()) ==> (ok <==> Stoppable(old(m.disk), old(tun), m.secret, m.outbound))
    {
      hide Fit, TunEnabled, BaseFrom, ReadRuntimeOverride, Rebuilt;
      SwitchOffDeletes(m.disk.runtimeOverride);
      ok := m.SetTun(false);
      if ok {
        ghost var off, now := m.disk, m.Working();
        ok := RebuildWithoutSession();
        if ok {
          RebuiltLooksAt(off, m.disk, off, m.disk, m.secret, m.outbound, now, old(m.Working()));
        }
      }
      if ok {
        tun := NO_TUN;
      }
    }

    method RebuildWithoutSession() returns (ok: bool)
      requires m.Valid() && m.disk.session.Missing? && m.disk.runtimeOverride.Missing?
      modifies m`disk, m`loaded, m`step, m`trace
      ensures m.Valid() && m.step >= old(m.step)
      ensures m.disk == old(m.disk).(activeBase := m.disk.activeBase, config := m.disk.config, candidate := m.disk.candidate)
      ensures ok ==> Rebuilt(old(m.disk), m.disk, m.secret, m.outbound, old(m.Working()))
      ensures ok && old(Calm()) && m.disk.activeBase.Exists() ==> Doc(m.loaded) == m.disk.config
      ensures BaseKept(old(m.disk), m.disk)
      ensures old(Idle()) ==> (ok <==> RestorableAt(old(m.disk), m.secret, m.outbound).Ok?)
      ensures old(Calm()) ==>
        (ok <==> RestorableAt(old(m.disk), m.secret, m.outbound).Ok?
                 && (RestorableAt(old(m.disk), m.secret, m.outbound).value.Some? ==> old(m.disk).config.Exists()))
    {
      hide Fit, TunEnabled, BaseFrom, RuntimeOf, Rebuilt, RuntimeShown, OverOf;
      ghost var off := m.disk;
      var ready := OwnedCoreReady();
      ok := false;
      ghost var now := m.Working();
      if ready == Ok(true) {
        var value, port := m.ActiveRuntime();
        ok := value == Ok(None);
        if value.Ok? && value.value.Some? {
          ghost var migrated := m.disk;
          RebuildSeesSameBase(off, m.disk, m.secret, m.outbound);
          now := m.Working();
          var reload := ApplyActiveRuntime(false);
          ok := reload.Reloaded?;
          BaseKeptAcross(off, migrated, m.disk);
          if ok {
            MigratedThenRebuilt(off, migrated, m.disk, m.secret, m.outbound, now, old(m.Working()));
          }
        } else if ok {
          NothingToRebuild(off, m.secret, m.outbound, old(m.Working()));
        }
      } else if ready == Ok(false) {
        var rebuilt := m.RestoreActiveRuntime();
        ok := rebuilt.Ok?;
        if ok {
          RebuiltLooksAt(off, m.disk, off, m.disk, m.secret, m.outbound, now, old(m.Working()));
        }
      }
    }

    /** Puts the configuration back once the runtime override is off. */
    method RestoreRuntime(legacy: File<Value>, profile: Option<string>, ready: bool) returns (ok: bool)
      requires m.Valid() && m.disk.runtimeOverride.Missing?
      modifies m`disk, m`loaded, m`step, m`trace
      ensures m.Valid() && m.step >= old(m.step)
      ensures m.disk == old(m.disk).(activeBase := m.disk.activeBase, config := m.disk.config,
                                     activeProfile := m.disk.activeProfile, candidate := m.disk.candidate)
      ensures ok ==> !FlagOn(m.disk.config)
      ensures ok && ready ==> m.disk.config == Doc(m.loaded)
      ensures ok && legacy.Missing? ==>
                Rebuilt(old(m.disk), m.disk, m.secret, m.outbound, old(m.Working())) && m.disk.activeProfile == old(m.disk).activeProfile
      ensures ok && !legacy.Missing? ==>
                profile.Some? && ProfileRuns(old(m.disk), m.disk, profile.value, m.secret, m.outbound, old(m.Working()))
      ensures legacy.Missing? ==> BaseKept(old(m.disk), m.disk)
      ensures old(m.Working()) && !ready ==>
        (ok <==> if legacy.Missing? then RestorableAt(old(m.disk), m.secret, m.outbound).Ok?
                 else profile.Some?
                      && BuildOf(old(m.disk), profile.value, m.secret, m.outbound, RuntimePort(old(m.disk).config)).Ok?)
      ensures old(Calm()) && ready ==>
        (ok <==> if legacy.Missing? then Reloadable(old(m.disk), m.secret, m.outbound, false)
                 else profile.Some? && old(m.disk).config.Exists()
                      && BuildOf(old(m.disk), profile.value, m.secret, m.outbound, RuntimePort(old(m.disk).config)).Ok?)
    {
      hide Fit, TunEnabled, BuildOf, BaseOf, Storable, Rebuilt, ProfileRuns, IsBuildOf;
      if legacy.Missing? {
        if ready {
          var reload := ApplyActiveRuntime(false);
          return reload.Reloaded?;
        }
        var rebuilt := m.RestoreActiveRuntime();
        return rebuilt.Ok?;
      }
      if profile.None? {
        return false;
      }
      if ready {
        var applied, port := ApplyProfile(profile.value);
        return applied.Committed?;
      }
      var built, port := m.BuildValue(profile.value);
      if built.Err? {
        return false;
      }
      BuildIsStorable(m.disk, profile.value, m.secret, m.outbound, port, m.shaped);
      var committed := m.CommitRuntimeState(profile.value, built.value);
      ok := committed.Committed?;
      if ok {
        CommittedBuildRuns(old(m.disk), m.disk, built.value, profile.value, m.secret, m.outbound, old(m.Working()),
                           old(m.Working()));
      }
    }

    // ---------- starting up ----------

    /** Recovery of an interrupted session when the service starts. */
    method Startup()
      requires m.Valid() && tun == NO_TUN
      modifies this`tun, m`disk, m`step, m`trace
      ensures Valid()
      ensures tun.status.Disabled? || tun.status.Failed?
      ensures tun.status.Disabled? ==> AllOff(m.disk)
      ensures tun.status.Disabled? && old(m.disk).session.Missing? ==> m.disk == old(m.disk)
      ensures tun.status.Disabled? && old(m.disk).session.Doc? ==>
                Ended(old(m.disk), m.disk, LegacyToEnd(old(m.disk), NO_TUN), ProfileToEnd(old(m.disk), NO_TUN), m.secret,
                      m.outbound, old(m.Working()))
      ensures tun.status.Disabled? && old(m.disk).session.Exists() ==> m.disk.runtimeOverride.Missing?
      ensures tun.status.Failed? ==> m.disk.session == old(m.disk).session
      ensures old(m.Working()) ==>
        (tun.status.Disabled? <==> old(m.disk).session.Missing? || Recoverable(old(m.disk), m.secret, m.outbound))
    {
      hide Fit, BaseOf, RuntimeOf, RestorableAt, ReadRuntimeOverride, TunEnabled, Recoverable, Ended;
      NoSessionMeansOff(m.disk, m.shaped);
      var recovered := Recover();
      if recovered.Err? {
        tun := tun.(status := Failed);
      }
    }

    method Recover() returns (r: Result<()>)
      requires m.Valid() && tun == NO_TUN
      modifies this`tun, m`disk, m`step, m`trace
      ensures m.Valid() && (m.shaped ==> LegacyFit(tun.legacy, tun.profile, m.sources))
      ensures r.Err? ==> tun == NO_TUN && m.disk.session == old(m.disk).session
      ensures r.Ok? && tun.status.Disabled? ==> AllOff(m.disk)
      ensures r.Ok? && old(m.disk).session.Missing? ==> m.disk == old(m.disk) && tun == NO_TUN
      ensures r.Ok? && tun.status.Disabled? && old(m.disk).session.Doc? ==>
                Ended(old(m.disk), m.disk, LegacyToEnd(old(m.disk), NO_TUN), ProfileToEnd(old(m.disk), NO_TUN), m.secret,
                      m.outbound, old(m.Working()))
      ensures r.Ok? && tun.status.Disabled? && old(m.disk).session.Exists() ==> m.disk.runtimeOverride.Missing?
      ensures r.Ok? && !tun.status.Disabled? ==> tun.status.Failed? && m.disk.session == old(m.disk).session
      ensures old(m.Working()) ==>
        (r.Ok? && tun.status.Disabled?
         <==> (old(m.disk).session.Missing? || Recoverable(old(m.disk), m.secret, m.outbound)))
    {
      hide Fit, BaseOf, RuntimeOf, RestorableAt, ReadRuntimeOverride, TunEnabled, BuildOf, Ended;
      NoSessionMeansOff(m.disk, m.shaped);
      StoredSessionFits(m.disk, m.shaped);
      var persisted := ReadTunPersisted();
      if persisted.Err? {
        return Err;
      }
      if persisted.value.Missing? {
        return Ok(());
      }
      var session := persisted.value.content;
      ghost var now := m.Working();
      var restored := RestoreDisk(session);
      if !restored {
        tun := Tun(Failed, Some(session.profile), Normalized(session.legacy));
        return Ok(());
      }
      ghost var done := m.disk;
      var cleared := ClearTunPersisted();
      EndedLooksAt(old(m.disk), done, old(m.disk), m.disk, Normalized(session.legacy), Some(session.profile), m.secret,
                   m.outbound, now, old(m.Working()));
      r := if cleared then Ok(()) else Err;
    }

    /** Switches the stored files back to TUN off, without a controller. */
    method RestoreDisk(session: Session) returns (ok: bool)
      requires m.Valid() && m.disk.session == Doc(session) && (m.shaped ==> LegacyLocal(session.legacy, m.sources))
      modifies m`disk, m`step, m`trace
      ensures m.Valid() && m.step >= old(m.step)
      ensures m.disk.session == old(m.disk).session
      ensures ok ==> m.disk.runtimeOverride.Missing? && !FlagOn(m.disk.config)
      ensures ok ==> Ended(old(m.disk), m.disk, Normalized(session.legacy), Some(session.profile), m.secret, m.outbound,
                           old(m.Working()))
      ensures old(m.Working()) ==> (ok <==> Recoverable(old(m.disk), m.secret, m.outbound))
    {
      hide Fit, BaseOf, RuntimeOf, RestorableAt, ReadRuntimeOverride, TunEnabled, BuildOf, Rebuilt, ProfileRuns, BaseKept;
      var legacy := Normalized(session.legacy);
      ok := SwitchFilesOff(legacy);
      if !ok {
        return;
      }
      ghost var off, now := m.disk, m.Working();
      assert off == FilesOff(old(m.disk), legacy);
      if legacy.Missing? {
        var rebuilt := m.RestoreActiveRuntime();
        ok := rebuilt.Ok?;
      } else {
        ok := CommitBuilt(session.profile);
      }
      if ok {
        assert Ended(old(m.disk), m.disk, legacy, Some(session.profile), m.secret, m.outbound, now);
        EndedLooksAt(old(m.disk), m.disk, old(m.disk), m.disk, legacy, Some(session.profile), m.secret, m.outbound, now,
                     old(m.Working()));
      }
    }

    method CommitBuilt(profile: string) returns (ok: bool)
      requires m.Valid()
      modifies m`disk, m`step, m`trace
      ensures m.Valid() && m.step >= old(m.step)
      ensures m.disk == old(m.disk).(activeBase := m.disk.activeBase, config := m.disk.config, activeProfile := m.disk.activeProfile)
      ensures ok ==> FlagOn(m.disk.config) == FlagOn(m.disk.runtimeOverride)
      ensures ok ==> ProfileRuns(old(m.disk), m.disk, profile, m.secret, m.outbound, old(m.Working()))
      ensures old(m.Working()) ==>
        (ok <==> BuildOf(old(m.disk), profile, m.secret, m.outbound, RuntimePort(old(m.disk).config)).Ok?)
    {
      hide Kept, Fit, TunEnabled, BuildOf, ProfileRuns, IsBuildOf;
      var built, port := m.BuildValue(profile);
      ok := built.Ok?;
      if ok {
        BuildIsStorable(m.disk, profile, m.secret, m.outbound, port, m.shaped);
        var committed := m.CommitRuntimeState(profile, built.value);
        ok := committed.Committed?;
        if ok {
          CommittedBuildRuns(old(m.disk), m.disk, built.value, profile, m.secret, m.outbound, old(m.Working()),
                             old(m.Working()));
        }
      }
    }

    // ---------- serving ----------

    method HandleApply(profile: string) returns (outcome: Applied)
      requires Valid()
      modifies this`tun, m`disk, m`loaded, m`step, m`trace
      ensures Valid() && m.step >= old(m.step)
      ensures outcome.Committed? ==>
                && m.disk.activeProfile == Doc(profile) && m.disk.config == Doc(m.loaded)
                && ProfileRuns(old(m.disk), m.disk, profile, m.secret, m.outbound, old(m.Working()))
      ensures old(Calm()) && !old(tun.status.Starting? || tun.status.Stopping? || (tun.status.Failed? && HasTunRecovery())) ==>
                && (outcome.Committed?
                    <==> (old(m.disk).config.Exists()
                          && BuildOf(old(m.disk), profile, m.secret, m.outbound, RuntimePort(old(m.disk).config)).Ok?))
                && (outcome.Committed? && old(tun).status.Running? ==>
                      tun == old(tun).(profile := Some(profile)) && m.disk.session == Doc(Session(profile, Missing)))
      ensures !outcome.Committed? ==> tun == old(tun) && m.disk.session == old(m.disk).session
      ensures outcome.Refused? || outcome.RolledBack? ==> m.disk == old(m.disk).(candidate := m.disk.candidate)
      ensures tun.status == old(tun).status && m.disk.runtimeOverride == old(m.disk).runtimeOverride
      ensures old(tun.status.Starting? || tun.status.Stopping? || (tun.status.Failed? && HasTunRecovery())) ==>
                outcome.Refused? && m.disk == old(m.disk)
      ensures outcome.Committed? && old(tun).status.Running? ==>
                || (tun == old(tun).(profile := Some(profile)) && m.disk.session == Doc(Session(profile, Missing)))
                || (tun == old(tun) && m.disk.session == old(m.disk).session)
      ensures outcome.Committed? && !old(tun).status.Running? ==> tun == old(tun) && m.disk.session == old(m.disk).session
    {
      hide Fit, TunEnabled, BuildOf, RuntimePort, ProfileRuns;
      if tun.status.Starting? || tun.status.Stopping? || (tun.status.Failed? && HasTunRecovery()) {
        return Refused;
      }
      ghost var port;
      outcome, port := ApplyProfile(profile);
      ghost var applied := m.disk;
      if outcome.Committed? && tun.status.Running? {
        var before := tun.profile;
        tun := tun.(profile := Some(profile));
        var written := WriteTunPersisted();
        if !written {
          tun := tun.(profile := before);
        }
        ProfileRunsLooksAt(old(m.disk), applied, m.disk, profile, m.secret, m.outbound, old(m.Working()), old(m.Working()));
      }
    }

    /** The TUN part of starting the core: a core never starts on files that have TUN on. */
    method HandleCoreStart() returns (ok: bool)
      requires Valid()
      modifies this`tun, m`disk, m`loaded, m`step, m`trace
      ensures Valid() && m.step >= old(m.step)
      ensures ok ==> AllOff(m.disk)
      ensures !ok ==> m.disk.session == old(m.disk).session || AllOff(m.disk)
      ensures ok && !old(HasTunRecovery()) ==> Rebuilt(old(m.disk), m.disk, m.secret, m.outbound, old(m.Working()))
      ensures ok && old(HasTunRecovery()) ==>
                exists ended :: Rebuilt(ended, m.disk, m.secret, m.outbound, old(m.Working()))
                  && Ended(old(m.disk), ended, LegacyToEnd(old(m.disk), old(tun)), ProfileToEnd(old(m.disk), old(tun)),
                           m.secret, m.outbound, old(m.Working()))
      ensures old(Calm()) && !old(HasTunRecovery()) ==> (ok <==> RestorableAt(old(m.disk), m.secret, m.outbound).Ok?)
      ensures old(Calm()) && old(HasTunRecovery()) && m.shaped ==>
                (ok <==> Stoppable(old(m.disk), old(tun), m.secret, m.outbound))
    {
      hide Fit, TunEnabled, BaseOf, RuntimeOf, RestorableAt, ReadRuntimeOverride, Stoppable, Rebuilt, Ended;
      ok := true;
      ghost var ended, now := m.disk, m.Working();
      if HasTunRecovery() {
        ok := DisableTun();
        ended, now := m.disk, m.Working();
        if ok && m.shaped {
          FitRebuilds(m.disk, m.secret, m.outbound);
        }
      }
      if ok && !HasTunRecovery() {
        NoSessionMeansOff(m.disk, m.shaped);
        var rebuilt := m.RestoreActiveRuntime();
        ok := rebuilt.Ok?;
        if ok {
          RebuiltLooksAt(ended, m.disk, ended, m.disk, m.secret, m.outbound, now, old(m.Working()));
        }
        NoSessionMeansOff(m.disk, m.shaped);
      }
    }

    /** A run of profile applications: unless an undo step failed, the controller runs `config.yaml`, and
        the stored state is the last committed profile's. */
    method ApplyProfiles(ids: seq<string>) returns (outcomes: seq<Applied>)
      requires m.Valid() && m.Coherent()
      modifies m`disk, m`loaded, m`step, m`trace
      ensures m.Valid() && |outcomes| == |ids|
      ensures Stuck !in outcomes ==> m.Coherent()
      ensures Stuck !in outcomes && LastCommitted(outcomes) == |outcomes| ==>
                m.disk == old(m.disk).(candidate := m.disk.candidate) && m.loaded == old(m.loaded)
      ensures Stuck !in outcomes && LastCommitted(outcomes) < |outcomes| ==>
                var last := ids[LastCommitted(outcomes)];
                m.disk.activeProfile == Doc(last) && BaseIs(m.disk, last)
    {
      hide Kept, TunEnabled, BuildOf, RuntimePort, BaseIs, LocalOf;
      outcomes := [];
      for i := 0 to |ids|
        invariant m.Valid() && |outcomes| == i
        invariant Stuck !in outcomes ==> m.Coherent()
        invariant Stuck !in outcomes && LastCommitted(outcomes) == |outcomes| ==>
                    m.disk == old(m.disk).(candidate := m.disk.candidate) && m.loaded == old(m.loaded)
        invariant Stuck !in outcomes && LastCommitted(outcomes) < |outcomes| ==>
                    var last := ids[LastCommitted(outcomes)];
                    m.disk.activeProfile == Doc(last) && BaseIs(m.disk, last)
      {
        ghost var before := m.disk;
        var outcome, port := ApplyProfile(ids[i]);
        if outcome.Committed? {
          BuildHasBase(before, m.disk, ids[i], m.secret, m.outbound, port);
        } else if !outcome.Stuck? && LastCommitted(outcomes) < |outcomes| {
          CandidateIsInvisible(before, m.disk, ids[LastCommitted(outcomes)]);
        }
        LastOfAppended(outcomes, outcome);
        outcomes := outcomes + [outcome];
      }
    }

    /** Any sequence of commands keeps the crash invariant at every durable state. */
    method Serve(commands: seq<Command>)
      requires Valid()
      modifies this`tun, m`disk, m`loaded, m`step, m`trace
      ensures Valid()
      ensures old(Idle()) && m.shaped && commands != [] && commands[|commands| - 1] in {Disable, Shutdown} ==> AllOff(m.disk)
    {
      hide Kept, Fit, TunEnabled, Ended, EndableOffline, LegacyToEnd, ProfileToEnd, Rebuilt, LegacyFit, Truthful;
      for i := 0 to |commands|
        invariant Valid() && m.step >= old(m.step)
        invariant old(Idle()) && m.shaped && i > 0 && commands[i - 1] in {Disable, Shutdown} ==> AllOff(m.disk)
      {
        if m.shaped {
          FitEndsOffline(m.disk, tun, m.secret, m.outbound);
        }
        NoSessionMeansOff(m.disk, m.shaped);
        match commands[i] {
          case Enable(profile) => var _ := EnableTun(profile);
          case Disable => var _ := DisableTun();
          case Apply(id) => var _ := HandleApply(id);
          case CoreStart => var _ := HandleCoreStart();
          case Shutdown =>
            if HasTunRecovery() {
              var _ := DisableTun();
            }
        }
      }
    }

    // ---------- switching on ----------

    method EnableTun(profile: Option<string>) returns (ok: bool)
      requires Valid()
      modifies this`tun, m`disk, m`loaded, m`step, m`trace
      ensures Valid() && m.step >= old(m.step)
      ensures ok ==> tun.status.Running? && m.disk.session.Doc?
      ensures !m.answers(old(m.step)) || m.faults(old(m.step) + 1) || !m.answers(old(m.step) + 2) || profile.None? ==>
                !ok && tun == old(tun) && m.disk == old(m.disk) && m.loaded == old(m.loaded)
      ensures ok && !old(tun).status.Running? ==>
                && profile.Some? && tun == Tun(Running, profile, Missing)
                && m.disk.session == Doc(Session(profile.value, Missing))
      ensures !ok ==>
                || (tun == old(tun) && m.disk.session == old(m.disk).session
                    && m.disk.runtimeOverride == old(m.disk).runtimeOverride && m.disk.config == old(m.disk).config)
                || (tun.status.Disabled? && AllOff(m.disk))
                || ((tun.status.Failed? || tun.status.Stopping?) && m.disk.session.Doc?)
      ensures ok && !old(tun).status.Running? ==>
                && SwitchedTo(old(m.disk), m.disk) && FlagOn(m.disk.runtimeOverride) && FlagOn(m.disk.config)
                && m.disk.config == Doc(m.loaded)
                && Rebuilt(old(m.disk), m.disk, m.secret, m.outbound, old(m.Working()))
      ensures ok && old(tun).status.Running? ==> tun == old(tun) && m.disk == old(m.disk)
      ensures !ok && !old(tun).status.Running? && tun.status.Disabled? ==>
                BaseKept(old(m.disk), m.disk) && ConfigKept(old(m.disk), m.disk, m.secret, m.outbound)
      ensures !ok && old(tun).status.Running? && tun.status.Disabled? ==>
                Ended(old(m.disk), m.disk, LegacyToEnd(old(m.disk), old(tun)), ProfileToEnd(old(m.disk), old(tun)),
                      m.secret, m.outbound, false)
      ensures old(Calm()) && old(tun).status.Running? && profile.Some? ==> (ok <==> TunEnabled(old(m.loaded)))
      ensures old(Calm()) && old(tun).status.Disabled? ==>
        (ok <==> profile.Some? && !TunEnabled(old(m.loaded)) && Startable(old(m.disk), m.secret, m.outbound))
    {
      hide Fit, TunEnabled, BaseOf, RuntimeOf, RestorableAt, ReadRuntimeOverride, Launchable, Rebuilt, Ended;
      ghost var before := m.disk;
      var allowed := MayEnable();
      ok := false;
      if allowed && profile.Some? {
        if tun.status.Running? {
          ok := ConfirmRunning();
        } else {
          var baseline := CheckBaseline();
          if baseline {
            ghost var migrated, now := m.disk, m.Working();
            ok := StartSession(profile.value);
            if ok {
              MigratedThenRebuilt(before, migrated, m.disk, m.secret, m.outbound, now, old(m.Working()));
            } else if tun.status.Disabled? {
              BaseKeptAcross(before, migrated, m.disk);
              ConfigKeptAcross(before, migrated, m.disk, m.secret, m.outbound);
            }
          }
        }
      }
    }

    /** Administrator rights, and no foreign TUN. */
    method MayEnable() returns (ok: bool)
      modifies m`step
      ensures m.step > old(m.step)
      ensures ok <==> m.answers(old(m.step)) && !m.faults(old(m.step) + 1) && m.answers(old(m.step) + 2)
    {
      ok := m.Ask();
      if ok {
        ok := m.Attempt();
      }
      if ok {
        ok := m.Ask();
      }
    }

    /** An enable while running confirms the session or ends it. */
    method ConfirmRunning() returns (ok: bool)
      requires Valid() && tun.status.Running?
      modifies this`tun, m`disk, m`loaded, m`step, m`trace
      ensures Valid() && m.step >= old(m.step)
      ensures ok ==> tun == old(tun) && m.disk == old(m.disk)
      ensures ok ==> !m.faults(old(m.step)) && m.NoFaults(old(m.step) + 2, m.step) && m.answers(old(m.step) + 1)
                     && m.step == old(m.step) + 4 && TunEnabled(m.loaded)
      ensures m.faults(old(m.step)) ==> !ok && tun == old(tun) && m.disk == old(m.disk)
      ensures !ok ==>
                || (tun == old(tun) && m.disk.session == old(m.disk).session
                    && m.disk.runtimeOverride == old(m.disk).runtimeOverride && m.disk.config == old(m.disk).config)
                || (tun.status.Disabled? && AllOff(m.disk))
                || ((tun.status.Failed? || tun.status.Stopping?) && m.disk.session.Doc?)
      ensures !ok && tun.status.Disabled? ==>
                Ended(old(m.disk), m.disk, LegacyToEnd(old(m.disk), old(tun)), ProfileToEnd(old(m.disk), old(tun)),
                      m.secret, m.outbound, false)
      ensures old(Calm()) ==> (ok <==> TunEnabled(old(m.loaded)))
      ensures old(Calm()) && !ok ==> (tun == NO_TUN <==> Stoppable(old(m.disk), old(tun), m.secret, m.outbound))
    {
      hide Fit, TunEnabled, BaseOf, RuntimeOf, RestorableAt, ReadRuntimeOverride, Stoppable, Ended;
      var ready := OwnedCoreReady();
      ok := false;
      if ready.Ok? {
        if ready.value {
          ok := m.VerifyController(true);
        }
        if !ok {
          ghost var now := m.Working();
          var off := DisableTun();
          if off {
            EndedLooksAt(old(m.disk), m.disk, old(m.disk), m.disk, LegacyToEnd(old(m.disk), old(tun)),
                         ProfileToEnd(old(m.disk), old(tun)), m.secret, m.outbound, now, false);
          }
        }
      }
    }

    /** The checks before a session may start; they may migrate the active base. */
    method CheckBaseline() returns (ok: bool)
      requires Valid() && !tun.status.Running?
      modifies m`disk, m`step, m`trace
      ensures Valid() && m.step > old(m.step)
      ensures m.disk == old(m.disk).(activeBase := m.disk.activeBase)
      ensures BaseKept(old(m.disk), m.disk)
      ensures m.faults(old(m.step)) || !m.answers(old(m.step) + 1) ==> !ok && m.disk == old(m.disk)
      ensures ok && TunEnabled(m.loaded) ==> m.faults(m.step - 1)
      ensures ok ==> m.disk.session.Missing? && m.disk.activeBase.Exists()
      ensures ok ==> RestorableAt(m.disk, m.secret, m.outbound) == RestorableAt(old(m.disk), m.secret, m.outbound)
                     && BaseOf(old(m.disk)).Ok? && BaseOf(old(m.disk)).value.Some?
                     && m.disk.activeBase == Doc(BaseOf(old(m.disk)).value.value)
      ensures old(Calm()) && old(tun).status.Disabled? ==>
        (ok <==> RestorableAt(old(m.disk), m.secret, m.outbound).Ok?
                 && RestorableAt(old(m.disk), m.secret, m.outbound).value.Some? && !TunEnabled(m.loaded))
    {
      hide Fit, TunEnabled, BaseOf, RuntimeOf;
      ghost var before := m.disk;
      var ready := OwnedCoreReady();
      ok := ready == Ok(true) && !tun.status.Starting? && !tun.status.Stopping?
            && !(tun.status.Failed? && HasTunRecovery());
      if ok {
        var value, port := m.ActiveRuntime();
        ok := value.Ok? && value.value.Some?;
        if ok {
          RebuildSeesSameBase(before, m.disk, m.secret, m.outbound);
          var answered := m.Attempt();
          ok := !(answered && TunEnabled(m.loaded));
        }
      }
    }

    /** The write-ahead part: recovery file, override, controller, confirmation. */
    method StartSession(profile: string) returns (ok: bool)
      requires Valid() && m.disk.session.Missing? && m.disk.activeBase.Exists()
      modifies this`tun, m`disk, m`loaded, m`step, m`trace
      ensures Valid() && m.step >= old(m.step)
      ensures ok ==> tun == Tun(Running, Some(profile), Missing) && m.disk.session == Doc(Session(profile, Missing))
      ensures !ok ==> (tun.status.Disabled? && AllOff(m.disk)) || (tun.status.Failed? && m.disk.session.Doc?)
      ensures ok ==> SwitchedTo(old(m.disk), m.disk) && FlagOn(m.disk.runtimeOverride) && FlagOn(m.disk.config)
                     && m.disk.config == Doc(m.loaded)
                     && Rebuilt(old(m.disk), m.disk, m.secret, m.outbound, old(m.Working()))
      ensures !ok && tun.status.Disabled? ==> BaseKept(old(m.disk), m.disk) && ConfigKept(old(m.disk), m.disk, m.secret, m.outbound)
      ensures old(Calm()) ==> (ok <==> Launchable(old(m.disk), m.secret, m.outbound))
    {
      hide Fit, TunEnabled, BaseFrom, RuntimeOf, RestorableAt, ReadRuntimeOverride, Rebuilt, Switched, Launchable;
      ghost var before := m.disk;
      tun := Tun(Starting, Some(profile), Missing);
      var written := WriteTunPersisted();
      if !written {
        tun := NO_TUN;
        NoSessionMeansOff(m.disk, m.shaped);
        return false;
      }
      ghost var recorded := m.disk;
      SessionIsInvisible(before, recorded, m.secret, m.outbound);
      ghost var now := m.Working();
      ok := Launch();
      ghost var launched := m.disk;
      if ok {
        tun := tun.(status := Running);
        ok := WriteTunPersisted();
        RebuiltLooksAt(recorded, launched, before, m.disk, m.secret, m.outbound, now, old(m.Working()));
      }
      if !ok {
        ghost var failed, trying := m.disk, m.Working();
        RollbackTun(profile);
        if tun.status.Disabled? {
          RolledBackKeeps(before, recorded, failed, m.disk, m.secret, m.outbound, trying);
        }
      }
    }

    /** Override on, runtime reloaded, adapter up. */
    method Launch() returns (ok: bool)
      requires m.Valid() && m.disk.session.Exists()
      modifies m`disk, m`loaded, m`step, m`trace
      ensures m.Valid() && m.step > old(m.step)
      ensures m.disk == old(m.disk).(runtimeOverride := m.disk.runtimeOverride, activeBase := m.disk.activeBase,
                                     config := m.disk.config, candidate := m.disk.candidate)
      ensures ok ==> FlagOn(m.disk.runtimeOverride) && m.disk.config == Doc(m.loaded) && TunEnabled(m.loaded)
      ensures ok ==> SwitchedTo(old(m.disk), m.disk) && Rebuilt(old(m.disk), m.disk, m.secret, m.outbound, old(m.Working()))
      ensures ok ==> !m.faults(m.step - 1)
      ensures BaseKept(old(m.disk), m.disk)
      ensures old(Calm()) ==> (ok <==> Launchable(old(m.disk), m.secret, m.outbound))
    {
      hide Fit, BaseFrom, RuntimeOf, RestorableAt, ReadRuntimeOverride, TunEnabled, Switched, Reloadable, Rebuilt;
      ok := m.SetTun(true);
      if ok {
        SwitchedOnIsOn(old(m.disk).runtimeOverride);
        ghost var on, now := m.disk, m.Working();
        var reload := ApplyActiveRuntime(true);
        ok := reload.Reloaded?;
        if ok {
          RebuiltLooksAt(on, m.disk, old(m.disk), m.disk, m.secret, m.outbound, now, old(m.Working()));
        }
      }
      if ok {
        ok := m.Attempt();
      }
    }

    /** Writes a saved local override back. */
    method RestoreOverride(legacy: File<Value>) returns (ok: bool)
      requires m.Valid() && (legacy.Doc? || legacy.Garbled?) && (m.shaped ==> LegacyLocal(legacy, m.sources))
      modifies m`disk, m`step, m`trace
      ensures m.Valid() && m.step >= old(m.step)
      ensures m.disk == if ok then old(m.disk).(localOverride := legacy) else old(m.disk)
      ensures ok ==> RestorableOverride(legacy)
      ensures old(m.Working()) ==> (ok <==> RestorableOverride(legacy))
      ensures ok ==> legacy.Doc? && ValidConfig(legacy.content)
      ensures old(m.Working()) && legacy.Doc? && ValidConfig(legacy.content) ==> ok
    {
      if !RestorableOverride(legacy) {
        return false;
      }
      LocalKeeps(m.disk, legacy, m.shaped);
      ok := m.Write(m.disk.(localOverride := legacy));
    }
  }

  /** The active base is this profile's source under the local override. */
  predicate BaseIs(disk: Disk, profile: string) {
    && profile in disk.sources && disk.sources[profile].Doc? && LocalOf(disk).Ok?
    && disk.activeBase == Doc(Merge(disk.sources[profile].content, LocalOf(disk).value))
  }

  /** The last application that committed, or the number of applications when none did. */
  function LastCommitted(outcomes: seq<Applied>): (n: nat)
    ensures n <= |outcomes|
    ensures n < |outcomes| ==> outcomes[n].Committed?
  {
    if outcomes == [] then 0
    else if outcomes[|outcomes| - 1].Committed? then |outcomes| - 1
    else
      var n := LastCommitted(outcomes[..|outcomes| - 1]);
      if n == |outcomes| - 1 then |outcomes| else n
  }

  lemma BuildHasBase(before: Disk, after: Disk, profile: string, secret: string, outbound: Outbound, port: Option<int>)
    requires BuildOf(before, profile, secret, outbound, port).Ok?
    requires after.sources == before.sources && after.localOverride == before.localOverride
    requires after.activeBase == Doc(BuildOf(before, profile, secret, outbound, port).value.base)
    ensures BaseIs(after, profile)
  {
    hide Layered, ValidConfig, Merge, ReadRuntimeOverride;
  }

  lemma CandidateIsInvisible(before: Disk, after: Disk, profile: string)
    requires after == before.(candidate := after.candidate)
    ensures BaseIs(after, profile) == BaseIs(before, profile)
  {
  }

  lemma LastOfAppended(outcomes: seq<Applied>, outcome: Applied)
    ensures LastCommitted(outcomes + [outcome])
            == if outcome.Committed? then |outcomes|
               else if LastCommitted(outcomes) == |outcomes| then |outcomes| + 1 else LastCommitted(outcomes)
  {
  }

  /** Any number of service runs, each crashing between any two durable steps of any command or of its
      own recovery. Every disk they leave behind is guarded. If the first one was fit they are all
      recoverable, and a run without failures then switches everything off. */
  method SurviveCrashes(disk: Disk, lives: seq<Life>, last: Life, secret: string, outbound: Outbound, ghost shaped: bool)
    returns (crashes: seq<Disk>, final: Disk, status: Status)
    requires Kept(disk, shaped) && forall n :: !last.faults(n)
    ensures |crashes| == |lives|
    ensures forall d | d in crashes :: Guarded(d) && (shaped && d.session.Exists() ==> Recoverable(d, secret, outbound))
    ensures Guarded(final) && (shaped ==> status.Disabled? && AllOff(final))
    ensures var left := if lives == [] then disk else crashes[|lives| - 1];
            shaped ==>
              if left.session.Missing? then final == left
              else Ended(left, final, LegacyToEnd(left, NO_TUN), ProfileToEnd(left, NO_TUN), secret, outbound, true)
  {
    hide Fit, Recoverable, Truthful, AllOff, FlagOn, Ended;
    var current := disk;
    crashes := [];
    for i := 0 to |lives|
      invariant |crashes| == i && Kept(current, shaped)
      invariant current == if i == 0 then disk else crashes[i - 1]
      invariant forall d | d in crashes :: Guarded(d) && (shaped && d.session.Exists() ==> Recoverable(d, secret, outbound))
    {
      var m := new Machine(current, lives[i].loaded, lives[i].faults, lives[i].answers, secret, outbound, shaped);
      var service := new ServiceRuntime(m);
      service.Startup();
      service.Serve(lives[i].commands);
      assert m.Valid();
      current := m.trace[lives[i].crash % |m.trace|];
      assert current in m.trace;
      crashes := crashes + [current];
      if shaped {
        FitIsRecoverable(current, secret, outbound);
      }
    }
    if shaped {
      FitIsRecoverable(current, secret, outbound);
    }
    var m := new Machine(current, last.loaded, last.faults, last.answers, secret, outbound, shaped);
    var service := new ServiceRuntime(m);
    assert m.Working();
    service.Startup();
    final, status := m.disk, service.tun.status;
  }

  /** Over a fit base a build without the runtime override succeeds at every usable port. */
  lemma OffBuild(source: Value, legacy: Value, secret: string, outbound: Outbound, port: Option<int>)
    requires FitBase(Merge(source, legacy)) && (port.Some? ==> 1 <= port.value <= 65535)
    ensures BuiltFrom(source, legacy, EMPTY, Surroundings(secret, outbound, port)).Ok?
  {
    var base := Merge(source, legacy);
    assert Merge(base, EMPTY).entries == base.entries;
    LayersAcceptExactly(base, EMPTY, Surroundings(secret, outbound, port));
  }

  lemma OlderSessionBuilds(disk: Disk, session: Session, secret: string, outbound: Outbound)
    requires SessionFit(session, disk.sources) && session.legacy.Doc?
    ensures BuildOf(disk.(runtimeOverride := Missing, localOverride := session.legacy), session.profile, secret,
                    outbound, RuntimePort(disk.config)).Ok?
  {
    OffBuild(disk.sources[session.profile].content, session.legacy.content, secret, outbound, RuntimePort(disk.config));
    hide Layered, ON, TunEnabled, Merge, BuiltFrom, TunShaped, RuntimePort;
  }

  /** Over a fit disk with the override off the active runtime builds. */
  lemma FitRebuilds(disk: Disk, secret: string, outbound: Outbound)
    requires Fit(disk) && disk.runtimeOverride.Missing?
    ensures RestorableAt(disk, secret, outbound).Ok? && RestorableAt(disk, secret, outbound).value.Some?
    ensures !TunEnabled(RestorableAt(disk, secret, outbound).value.value)
  {
    hide Layered, ON, ValidConfig, Merge, BuildOf, RuntimePort, ShapedSource, TunEnabled;
    OnIsOn();
    OffRuntime(disk, BaseOf(disk).value.value, secret, outbound);
    RuntimeFlag(disk, BaseOf(disk).value.value, secret, outbound, RuntimePort(disk.config));
  }

  lemma FitIsRecoverable(disk: Disk, secret: string, outbound: Outbound)
    requires Fit(disk)
    ensures disk.session.Missing? || (disk.session.Doc? && Recoverable(disk, secret, outbound))
  {
    hide Layered, ON, ValidConfig, TunEnabled, Merge, BuildOf, RuntimePort, ShapedSource;
    OnIsOn();
    var off := disk.(runtimeOverride := Missing);
    if disk.session.Doc? && disk.session.content.legacy.Doc? {
      OlderSessionBuilds(disk, disk.session.content, secret, outbound);
      assert off.(localOverride := disk.session.content.legacy)
             == disk.(runtimeOverride := Missing, localOverride := disk.session.content.legacy);
    } else {
      assert BaseOf(off) == BaseOf(disk);
      OffRuntime(off, BaseOf(disk).value.value, secret, outbound);
    }
  }

  /** And without a controller it always can, the one in memory included. */
  lemma FitEndsOffline(disk: Disk, tun: Tun, secret: string, outbound: Outbound)
    requires Kept(disk, true) && LegacyFit(tun.legacy, tun.profile, disk.sources)
    ensures disk.session.Missing? || disk.session.Doc?
    ensures EndableOffline(disk, LegacyToEnd(disk, tun), ProfileToEnd(disk, tun), secret, outbound)
  {
    hide Layered, ON, ValidConfig, TunEnabled, Merge, BuildOf, RuntimePort, ShapedSource, BaseFrom;
    FitIsRecoverable(disk, secret, outbound);
    if disk.session.Missing? {
      var off := disk.(runtimeOverride := Missing);
      OnIsOn();
      if tun.profile.Some? && tun.legacy.Doc? {
        OlderSessionBuilds(disk, Session(tun.profile.value, tun.legacy), secret, outbound);
        assert off.(localOverride := tun.legacy) == disk.(runtimeOverride := Missing, localOverride := tun.legacy);
      } else {
        assert BaseOf(off) == BaseOf(disk);
        OffRuntime(off, BaseOf(disk).value.value, secret, outbound);
      }
    }
  }

  /** A fit disk's session can be ended, older ones included, and so can a TUN left on without a session. */
  lemma FitIsStoppable(disk: Disk, tun: Tun, secret: string, outbound: Outbound)
    requires Fit(disk) && disk.config.Exists() && (disk.session.Doc? || tun.profile.None?)
    ensures Stoppable(disk, tun, secret, outbound)
  {
    hide Layered, ON, ValidConfig, TunEnabled, Merge, BuildOf, RuntimePort, ShapedSource;
    OnIsOn();
    var off := disk.(runtimeOverride := Missing);
    assert BaseOf(off) == BaseOf(disk);
    if disk.session.Doc? && disk.session.content.legacy.Doc? {
      OlderSessionBuilds(disk, disk.session.content, secret, outbound);
      assert off.(localOverride := disk.session.content.legacy)
             == disk.(runtimeOverride := Missing, localOverride := disk.session.content.legacy);
    } else {
      OffRuntime(off, BaseOf(disk).value.value, secret, outbound);
      RuntimeFlag(off, BaseOf(disk).value.value, secret, outbound, RuntimePort(disk.config));
    }
  }

  /** With no override yet, a session starts over a valid base exactly when its `tun` section is a mapping or
      absent and there is a configuration to replace. */
  lemma StartsExactlyWhenShaped(disk: Disk, base: Value, secret: string, outbound: Outbound)
    requires disk.runtimeOverride.Missing? && BaseOf(disk) == Ok(Some(base)) && ValidConfig(base)
    ensures Startable(disk, secret, outbound) <==> TunShaped(base) && disk.config.Exists()
  {
    hide Layered, ON, ValidConfig, TunEnabled, Merge, RuntimePort, BaseOf, TunShaped;
    OnIsOn();
    SwitchOnWrites(Missing);
    OffRuntime(disk, base, secret, outbound);
    StoredBaseStays(disk, disk.config);
    var stored := disk.(activeBase := Doc(base));
    BaseIgnoresOverride(stored, Doc(ON));
    OnAcceptsEveryValidBase(base, Surroundings(secret, outbound, RuntimePort(disk.config)));
    RestorableIsLayered(stored.(runtimeOverride := Doc(ON)), base, ON, secret, outbound);
    RuntimeFlag(stored.(runtimeOverride := Doc(ON)), base, secret, outbound, RuntimePort(disk.config));
  }

  /** With a valid active base, a session of this version can be ended or recovered exactly when the
      base's `tun` section is a mapping or absent. */
  lemma EndsExactlyWhenShaped(disk: Disk, base: Value, tun: Tun, secret: string, outbound: Outbound)
    requires disk.session.Doc? && disk.session.content.legacy.Missing? && OwnWriting(disk.runtimeOverride)
    requires BaseOf(disk) == Ok(Some(base)) && ValidConfig(base) && disk.config.Exists()
    ensures Recoverable(disk, secret, outbound) <==> TunShaped(base)
    ensures Stoppable(disk, tun, secret, outbound) <==> TunShaped(base)
  {
    OnIsOn();
    var off := disk.(runtimeOverride := Missing);
    assert BaseOf(off) == BaseOf(disk);
    OffRuntime(off, base, secret, outbound);
    RuntimeFlag(off, base, secret, outbound, RuntimePort(disk.config));
  }

  /** While TUN is on every valid base is accepted, whatever its `tun` section. */
  lemma OnAcceptsEveryValidBase(base: Value, around: Surroundings)
    requires ValidConfig(base) && UsablePort(around)
    ensures Layered(base, ON, around).Ok?
  {
    OnIsOn();
    MergeKeepsValid(base, ON);
    LayersAcceptExactly(base, ON, around);
    assert Field(Merge(base, ON), "tun").Some?;
    assert Field(ON, "tun") == Some(TunSection(EMPTY));
  }

  /** So a profile whose `tun` is a number can be applied during a session, which then cannot end. */
  lemma SessionCanBeTrapped(disk: Disk, tun: Tun, secret: string, outbound: Outbound)
    requires disk.session.Doc? && disk.session.content.legacy.Missing? && disk.runtimeOverride == Doc(ON)
    requires disk.localOverride.Missing? && disk.config.Exists()
    requires disk.activeBase == Doc(UNEDITABLE) && "p" in disk.sources && disk.sources["p"] == Doc(UNEDITABLE)
    ensures BuildOf(disk, "p", secret, outbound, RuntimePort(disk.config)).Ok?
    ensures !Stoppable(disk, tun, secret, outbound) && !Recoverable(disk, secret, outbound)
  {
    hide Layered, Stoppable, Recoverable, Merge;
    UneditableIsValid();
    OnIsOn();
    OnAcceptsEveryValidBase(UNEDITABLE, Surroundings(secret, outbound, RuntimePort(disk.config)));
    EndsExactlyWhenShaped(disk, UNEDITABLE, tun, secret, outbound);
  }

  const UNEDITABLE: Value := Mapping(map[Key("tun") := Num(Integer(5))])

  lemma UneditableIsValid()
    ensures ValidConfig(UNEDITABLE) && !TunShaped(UNEDITABLE) && Merge(UNEDITABLE, EMPTY) == UNEDITABLE
  {
  }

  /** From this state switching off succeeds when nothing fails. */
  predicate Stoppable(disk: Disk, tun: Tun, secret: string, outbound: Outbound) {
    (disk.session.Missing? || disk.session.Doc?) && ReadRuntimeOverride(disk.runtimeOverride).Ok? &&
    var legacy := Normalized(if disk.session.Doc? then disk.session.content.legacy else tun.legacy);
    var profile := if disk.session.Doc? then Some(disk.session.content.profile) else tun.profile;
    var off := disk.(runtimeOverride := Missing);
    if profile.None? then
      RestorableAt(off, secret, outbound).Ok?
      && (RestorableAt(off, secret, outbound).value.Some? ==> disk.config.Exists())
    else Endable(disk, legacy, profile, secret, outbound)
  }

  predicate Endable(disk: Disk, legacy: File<Value>, profile: Option<string>, secret: string, outbound: Outbound) {
    ReadRuntimeOverride(disk.runtimeOverride).Ok? &&
    var off := disk.(runtimeOverride := Missing);
    if legacy.Missing? then Reloadable(off, secret, outbound, false)
    else
      RestorableOverride(legacy) && disk.config.Exists() && profile.Some?
      && BuildOf(off.(localOverride := legacy), profile.value, secret, outbound, RuntimePort(disk.config)).Ok?
  }

  /** Switching the override on and reloading succeeds when nothing fails. */
  predicate Launchable(disk: Disk, secret: string, outbound: Outbound) {
    var on := Switched(disk.runtimeOverride, true);
    on.Ok? && Reloadable(disk.(runtimeOverride := on.value), secret, outbound, true)
  }

  /** A session can start from here when nothing fails. */
  predicate Startable(disk: Disk, secret: string, outbound: Outbound) {
    && RestorableAt(disk, secret, outbound).Ok? && RestorableAt(disk, secret, outbound).value.Some?
    && Launchable(disk.(activeBase := Doc(BaseOf(disk).value.value)), secret, outbound)
  }

  lemma SessionIsInvisible(before: Disk, after: Disk, secret: string, outbound: Outbound)
    requires after == before.(session := after.session)
    ensures Launchable(after, secret, outbound) == Launchable(before, secret, outbound)
  {
    hide Layered, ReadRuntimeOverride, Switched, ValidConfig, TunEnabled;
    var on := Switched(before.runtimeOverride, true);
    if on.Ok? {
      assert BaseOf(after.(runtimeOverride := on.value)) == BaseOf(before.(runtimeOverride := on.value));
    }
  }

  lemma RebuildSeesSameBase(before: Disk, after: Disk, secret: string, outbound: Outbound)
    requires BaseOf(before).Ok? && BaseOf(before).value.Some? && after == before.(activeBase := Doc(BaseOf(before).value.value))
    ensures RestorableAt(after, secret, outbound) == RestorableAt(before, secret, outbound)
  {
  }

  predicate Reloadable(disk: Disk, secret: string, outbound: Outbound, expectedTun: bool) {
    var runtime := RestorableAt(disk, secret, outbound);
    && runtime.Ok? && runtime.value.Some? && disk.config.Exists()
    && TunEnabled(runtime.value.value) == expectedTun
  }
}
