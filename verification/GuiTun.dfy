// The TUN session of the window process (src-tauri/src/tun.rs), with its own recovery file.
module GuiTun {
  import opened Basics
  import opened Yaml
  import opened Config
  import opened Dns
  import opened Host
  import opened TunSession
  import ServiceTun

  /** The in-memory session; `blocked` means that the recovery file could not be read. */
  datatype Runtime = Runtime(status: Status, profile: Option<string>, legacy: File<Value>, blocked: bool)

  const IDLE := Runtime(Disabled, None, Missing, false)

  datatype Command = Enable(profile: Option<string>) | Disable | CoreExit | Lifecycle | Apply(id: string)

  datatype Life = Life(faults: nat -> bool, answers: nat -> bool, loaded: Value, commands: seq<Command>, crash: nat)

  predicate RequiresRecovery(rt: Runtime) {
    || rt.blocked || rt.status.Starting? || rt.status.Running? || rt.status.Stopping?
    || (rt.status.Failed? && rt.profile.Some?)
  }

  /** A saved override this process writes back; blank text empties the local override. */
  predicate RestorableLegacy(legacy: File<Value>) {
    legacy.Missing? || legacy.Blank? || (legacy.Doc? && ValidConfig(legacy.content))
  }

  /** From this disk the recovery at startup succeeds when nothing fails. */
  predicate Recoverable(disk: Disk, secret: string, outbound: Outbound) {
    && disk.session.Doc? && RestorableLegacy(disk.session.content.legacy)
    && Rebuildable(disk, secret, outbound)
  }

  /** With the override off there is a runtime to rebuild. */
  predicate Rebuildable(disk: Disk, secret: string, outbound: Outbound) {
    ReadRuntimeOverride(disk.runtimeOverride).Ok? &&
    var off := RestorableAt(disk.(runtimeOverride := Missing), secret, outbound);
    off.Ok? && off.value.Some?
  }

  /** A session's end: the override is off, a saved local override is back, and `config.yaml` is the active base's
      runtime without the override. */
  ghost predicate Ended(
      before: Disk, after: Disk, legacy: File<Value>, secret: string, outbound: Outbound, read: bool)
  {
    && after.runtimeOverride.Missing? && BaseOf(before).Ok? && BaseOf(before).value.Some?
    && after.localOverride == (if legacy.Missing? then before.localOverride else legacy)
    && after.activeProfile == before.activeProfile && Rebuilt(before, after, secret, outbound, read)
  }

  lemma EndedLooksAt(
      before: Disk, after: Disk, before': Disk, after': Disk, legacy: File<Value>, secret: string, outbound: Outbound,
      read: bool, read': bool)
    requires Ended(before, after, legacy, secret, outbound, read) && (read' ==> read)
    requires after == after'.(session := after.session)
    requires before == before'.(session := before.session)
    ensures Ended(before', after', legacy, secret, outbound, read')
  {
    hide Rebuilt;
    RebuiltLooksAt(before, after, before', after', secret, outbound, read, read');
  }

  lemma RolledBackKeeps(
      before: Disk, failed: Disk, after: Disk, ended: bool, secret: string, outbound: Outbound, read: bool)
    requires BaseKept(before, failed) && BaseKept(failed, after)
    requires failed.activeBase.Missing? ==> failed.config == before.config
    requires ended ==> Ended(failed, after, Missing, secret, outbound, read)
    ensures BaseKept(before, after)
    ensures ended ==> ConfigKept(before, after, secret, outbound)
  {
    hide Rebuilt;
    if ended {
      RebuiltLooksAt(failed, after, failed, after, secret, outbound, read, false);
    }
  }

  class TunController {
    const m: Machine
    var rt: Runtime

    constructor (m: Machine)
      ensures this.m == m && rt == IDLE
    {
      this.m, this.rt := m, IDLE;
    }

    ghost predicate Valid()
      reads this, m
    {
      && m.Valid() && (m.shaped ==> LegacyFit(rt.legacy, rt.profile, m.sources))
      && (rt.status.Running? ==> rt.legacy.Missing? && !rt.blocked)
      && (!RequiresRecovery(rt) ==> m.disk.session.Missing?)
      && (rt.status.Starting? || rt.status.Running? || rt.status.Stopping? ==> rt.profile.Some?)
      && (rt.status.Running? ==> m.disk.session.Exists())
    }

    ghost predicate Calm()
      reads m
    {
      m.Working() && forall n: nat | n >= m.step :: m.answers(n)
    }

    /** Every question gets the favourable answer, whatever fails: the core is ours and managed. */
    ghost predicate Attended()
      reads m
    {
      forall n: nat | n >= m.step :: m.answers(n)
    }

    /** No core of ours runs. */
    ghost predicate Deserted()
      reads m
    {
      forall n: nat | n >= m.step :: !m.answers(n)
    }

    method WritePersisted() returns (ok: bool)
      requires m.Valid() && rt.profile.Some? && (m.shaped ==> LegacyFit(rt.legacy, rt.profile, m.sources))
      modifies m`disk, m`step, m`trace
      ensures m.Valid() && m.step > old(m.step)
      ensures m.disk == if ok then old(m.disk).(session := Doc(Session(rt.profile.value, rt.legacy))) else old(m.disk)
      ensures old(m.Working()) ==> ok
    {
      SessionKeeps(m.disk, Doc(Session(rt.profile.value, rt.legacy)), m.shaped);
      ok := m.Write(m.disk.(session := Doc(Session(rt.profile.value, rt.legacy))));
    }

    method ClearPersisted() returns (ok: bool)
      requires m.Valid() && !FlagOn(m.disk.runtimeOverride) && !FlagOn(m.disk.config)
      modifies m`disk, m`step, m`trace
      ensures m.Valid() && m.step > old(m.step)
      ensures m.disk == if ok then old(m.disk).(session := Missing) else old(m.disk)
      ensures old(m.Working()) ==> ok
    {
      SessionKeeps(m.disk, Missing, m.shaped);
      ok := m.Write(m.disk.(session := Missing));
    }

    method RestoreLegacy(legacy: File<Value>) returns (ok: bool)
      requires m.Valid() && (m.shaped ==> LegacyLocal(legacy, m.sources))
      modifies m`disk, m`step, m`trace
      ensures m.Valid() && m.step >= old(m.step)
      ensures m.disk == old(m.disk).(localOverride := m.disk.localOverride)
      ensures ok ==> m.disk.localOverride == if legacy.Missing? then old(m.disk).localOverride else legacy
      ensures old(m.Working()) ==> (ok <==> RestorableLegacy(legacy))
      ensures ok && legacy.Doc? ==> ValidConfig(legacy.content)
      ensures old(m.Working()) && (legacy.Blank? || (legacy.Doc? && ValidConfig(legacy.content))) ==> ok
    {
      ok := RestorableLegacy(legacy);
      if ok && !legacy.Missing? {
        LocalKeeps(m.disk, legacy, m.shaped);
        ok := m.Write(m.disk.(localOverride := legacy));
      }
    }

    /** Override off and `config.yaml` rebuilt; there must be something to rebuild from. */
    method RebuildRuntimeOnDisk(legacy: File<Value>) returns (ok: bool)
      requires m.Valid() && (m.shaped ==> LegacyLocal(legacy, m.sources))
      modifies m`disk, m`step, m`trace
      ensures m.Valid() && m.step >= old(m.step)
      ensures m.disk.session == old(m.disk).session
      ensures ok ==> m.disk.runtimeOverride.Missing? && m.disk.config.Doc? && !FlagOn(m.disk.config)
      ensures ok ==> Ended(old(m.disk), m.disk, legacy, m.secret, m.outbound, old(m.Working()))
      ensures BaseKept(old(m.disk), m.disk)
      ensures old(m.Working()) ==>
        (ok <==> RestorableLegacy(legacy) && Rebuildable(old(m.disk), m.secret, m.outbound))
    {
      hide Fit, TunEnabled, BaseFrom, RuntimeOf, ReadRuntimeOverride, RestorableLegacy, ValidConfig, Rebuilt, RuntimeShown;
      ok := RestoreLegacy(legacy);
      if ok {
        KeepsItsBase(old(m.disk), m.disk);
        LocalOverrideIsInvisible(old(m.disk), m.disk, m.secret, m.outbound);
        SwitchOffDeletes(m.disk.runtimeOverride);
        ok := m.SetTun(false);
      }
      if ok {
        ghost var off, now := m.disk, m.Working();
        var rebuilt := m.RestoreActiveRuntime();
        BaseKeptAcross(old(m.disk), off, m.disk);
        RestorableHasBase(off, m.secret, m.outbound);
        ok := rebuilt.Ok? && rebuilt.value;
        if ok {
          RebuiltLooksAt(off, m.disk, old(m.disk), m.disk, m.secret, m.outbound, now, old(m.Working()));
        }
      }
    }

    /** Reloads `config.yaml`, checks the TUN flag and that the core stays managed. */
    method LoadStable(expectedTun: bool) returns (ok: bool)
      requires m.disk.config.Doc? && FlagOn(m.disk.config) == expectedTun
      modifies m`loaded, m`step
      ensures m.step > old(m.step)
      ensures ok ==> Doc(m.loaded) == m.disk.config && m.NoFaults(old(m.step), m.step) && m.step == old(m.step) + 4
      ensures old(m.Working()) ==> ok
    {
      ok := m.Load(m.disk.config);
      if ok {
        ok := m.VerifyController(expectedTun);
      }
      if ok {
        ok := m.Attempt();
      }
    }

    method LoadTunRuntime() returns (ok: bool)
      requires m.Valid() && FlagOn(m.disk.runtimeOverride)
      modifies m`disk, m`loaded, m`step, m`trace
      ensures m.Valid() && m.step > old(m.step)
      ensures m.disk == old(m.disk).(activeBase := m.disk.activeBase, config := m.disk.config)
      ensures ok ==> FlagOn(m.disk.config) && Doc(m.loaded) == m.disk.config
      ensures ok ==> Rebuilt(old(m.disk), m.disk, m.secret, m.outbound, old(m.Working()))
      ensures ok ==> m.NoFaults(m.step - 4, m.step)
      ensures BaseKept(old(m.disk), m.disk)
      ensures m.disk.activeBase.Missing? ==> m.disk.config == old(m.disk).config
      ensures old(m.Working()) ==> (ok <==> RestorableAt(old(m.disk), m.secret, m.outbound).Ok?
                                            && RestorableAt(old(m.disk), m.secret, m.outbound).value.Some?)
    {
      hide Fit, TunEnabled, BaseOf, RuntimeOf, Rebuilt;
      RestorableHasBase(m.disk, m.secret, m.outbound);
      var rebuilt := m.RestoreActiveRuntime();
      ok := rebuilt.Ok? && rebuilt.value;
      if ok {
        ok := LoadStable(true);
      }
    }

    method RestoreNonTunRuntime(legacy: File<Value>) returns (ok: bool)
      requires m.Valid() && (m.shaped ==> LegacyLocal(legacy, m.sources))
      modifies m`disk, m`loaded, m`step, m`trace
      ensures m.Valid() && m.step >= old(m.step)
      ensures m.disk.session == old(m.disk).session
      ensures ok ==> m.disk.runtimeOverride.Missing? && !FlagOn(m.disk.config)
      ensures ok ==> Ended(old(m.disk), m.disk, legacy, m.secret, m.outbound, old(m.Working()))
      ensures ok && old(Attended()) ==> Doc(m.loaded) == m.disk.config
      ensures old(Deserted()) ==> m.loaded == old(m.loaded)
      ensures BaseKept(old(m.disk), m.disk)
      ensures old(m.Working()) ==>
        (ok <==> RestorableLegacy(legacy) && Rebuildable(old(m.disk), m.secret, m.outbound))
    {
      hide Fit, TunEnabled, BaseOf, RuntimeOf, RestorableLegacy, Rebuildable, Ended;
      ok := RebuildRuntimeOnDisk(legacy);
      if ok {
        var owned := m.Ask();
        if owned {
          ok := LoadStable(false);
        }
      }
    }

    // ---------- enable ----------

    method RollbackEnable()
      requires m.Valid() && rt.profile.Some? && !rt.blocked && rt.legacy.Missing?
      modifies this`rt, m`disk, m`loaded, m`step, m`trace
      ensures Valid() && m.step >= old(m.step) && (rt.blocked ==> old(rt).blocked)
      ensures (rt == IDLE && AllOff(m.disk)) || (rt == old(rt).(status := Failed) && m.disk.session == old(m.disk).session)
      ensures rt == IDLE ==> Ended(old(m.disk), m.disk, Missing, m.secret, m.outbound, old(m.Working()))
      ensures rt == IDLE && old(Attended()) ==> Doc(m.loaded) == m.disk.config
      ensures old(Deserted()) ==> m.loaded == old(m.loaded)
      ensures BaseKept(old(m.disk), m.disk)
      ensures old(m.Working()) ==> (rt == IDLE <==> Rebuildable(old(m.disk), m.secret, m.outbound))
    {
      hide Fit, TunEnabled, BaseOf, Rebuildable, Ended;
      ghost var working := old(m.Working());
      var restored := RestoreNonTunRuntime(Missing);
      if restored {
        ghost var done := m.disk;
        restored := ClearPersisted();
        EndedLooksAt(old(m.disk), done, old(m.disk), m.disk, Missing, m.secret, m.outbound, working, working);
      }
      rt := if restored then IDLE else rt.(status := Failed);
    }

    method EnableTun(profile: Option<string>) returns (ok: bool)
      requires Valid()
      modifies this`rt, m`disk, m`loaded, m`step, m`trace
      ensures Valid() && m.step >= old(m.step) && (rt.blocked ==> old(rt).blocked)
      ensures old(rt).status.Running? && ok ==> (rt == old(rt) && m.disk == old(m.disk)) || (rt == IDLE && AllOff(m.disk))
      ensures old(rt).status.Running? && !ok ==>
                rt == old(rt).(status := Failed) && m.disk.session == old(m.disk).session && m.disk.session.Exists()
      ensures !old(rt).status.Running? && ok ==>
                && profile.Some? && rt == Runtime(Running, profile, Missing, false)
                && m.disk.session == Doc(Session(profile.value, Missing))
                && FlagOn(m.disk.runtimeOverride) && FlagOn(m.disk.config) && Doc(m.loaded) == m.disk.config
      ensures !old(rt).status.Running? && !ok ==>
                || (rt == old(rt).(status := rt.status) && m.disk == old(m.disk))
                || (rt == IDLE && AllOff(m.disk))
                || (rt.status.Failed? && rt.profile == profile && m.disk.session.Exists())
      ensures !old(rt).status.Running? && ok ==>
                SwitchedTo(old(m.disk), m.disk) && Rebuilt(old(m.disk), m.disk, m.secret, m.outbound, old(m.Working()))
      ensures !old(rt).status.Running? && rt == IDLE ==>
                BaseKept(old(m.disk), m.disk) && ConfigKept(old(m.disk), m.disk, m.secret, m.outbound)
      ensures old(rt).status.Running? && rt == IDLE ==>
                Ended(old(m.disk), m.disk, Missing, m.secret, m.outbound, false)
                && (old(Attended()) ==> Doc(m.loaded) == m.disk.config)
      ensures old(rt).status.Running? && rt == old(rt) ==> m.answers(old(m.step)) && !m.faults(old(m.step) + 1)
      ensures RequiresRecovery(old(rt)) && !old(rt).status.Running? ==> !ok && rt == old(rt) && m.disk == old(m.disk)
      ensures !RequiresRecovery(old(rt)) && profile.Some? && !m.answers(old(m.step)) ==>
                !ok && rt == old(rt).(status := Failed) && m.disk == old(m.disk)
      ensures !RequiresRecovery(old(rt)) && profile.Some? && m.answers(old(m.step)) && m.faults(old(m.step) + 1) ==>
                !ok && rt == old(rt) && m.disk == old(m.disk)
      ensures old(Calm()) && !RequiresRecovery(old(rt)) && !TunEnabled(old(m.loaded)) && profile.Some? ==>
                (ok <==> Startable(old(m.disk), m.secret, m.outbound))
    {
      hide Fit, TunEnabled, BaseOf, Rebuildable, Startable, Rebuilt, Ended;
      ok := false;
      if rt.status.Running? {
        ok := ConfirmRunning();
        return;
      }
      if RequiresRecovery(rt) || profile.None? {
        return;
      }
      var ready, recorded := CheckBaseline();
      if ready {
        ghost var checked, now := m.disk, m.Working();
        ok := StartSession(profile.value);
        if ok {
          RebuiltLooksAt(checked, m.disk, old(m.disk), m.disk, m.secret, m.outbound, now, old(m.Working()));
        }
      } else if recorded {
        rt := rt.(status := Failed);
      }
    }

    method ConfirmRunning() returns (ok: bool)
      requires Valid() && rt.status.Running?
      modifies this`rt, m`disk, m`loaded, m`step, m`trace
      ensures Valid() && m.step >= old(m.step) && (rt.blocked ==> old(rt).blocked)
      ensures ok ==> (rt == old(rt) && m.disk == old(m.disk)) || (rt == IDLE && AllOff(m.disk))
      ensures !ok ==> rt == old(rt).(status := Failed) && m.disk.session == old(m.disk).session && m.disk.session.Exists()
      ensures rt == IDLE ==> Ended(old(m.disk), m.disk, Missing, m.secret, m.outbound, false)
                             && (old(Attended()) ==> Doc(m.loaded) == m.disk.config)
      ensures rt == old(rt) ==> m.answers(old(m.step)) && !m.faults(old(m.step) + 1)
      ensures old(Calm()) ==> ok && rt == old(rt)
    {
      hide Fit, TunEnabled, BaseOf, Rebuildable, Ended;
      var owned := m.Ask();
      ok := false;
      if owned {
        ok := m.Attempt();
      }
      if !ok {
        ghost var now := m.Working();
        ok := DisableTun();
        if ok {
          EndedLooksAt(old(m.disk), m.disk, old(m.disk), m.disk, Missing, m.secret, m.outbound, now, false);
        }
      }
    }

    /** Administrator, no foreign TUN, an owned and managed core, and a controller without TUN. Every
        refusal is recorded as an error, except a failed look for foreign TUNs. */
    method CheckBaseline() returns (ok: bool, recorded: bool)
      modifies m`step
      ensures m.step >= old(m.step)
      ensures ok ==> recorded
      ensures var at := old(m.step);
              ok <==> && m.answers(at) && !m.faults(at + 1) && m.answers(at + 2) && m.answers(at + 3) && !m.faults(at + 4)
                      && !m.faults(at + 5) && !m.faults(at + 6) && !TunEnabled(m.loaded)
      ensures !recorded <==> m.answers(old(m.step)) && m.faults(old(m.step) + 1)
      ensures old(Calm()) && !TunEnabled(m.loaded) ==> ok
    {
      hide m.NoFaults, TunEnabled;
      recorded := true;
      ok := m.Ask();
      if ok {
        recorded := m.Attempt();
        ok := recorded;
      }
      if ok {
        ok := m.Ask();
      }
      if ok {
        ok := m.Ask();
      }
      if ok {
        ok := m.Attempt();
      }
      if ok {
        ok := m.VerifyController(false);
      }
    }

    method StartSession(profile: string) returns (ok: bool)
      requires Valid() && m.disk.session.Missing?
      modifies this`rt, m`disk, m`loaded, m`step, m`trace
      ensures Valid() && m.step >= old(m.step) && (rt.blocked ==> old(rt).blocked)
      ensures ok ==> rt == Runtime(Running, Some(profile), Missing, false)
                     && m.disk.session == Doc(Session(profile, Missing))
                     && FlagOn(m.disk.runtimeOverride) && FlagOn(m.disk.config) && Doc(m.loaded) == m.disk.config
      ensures !ok ==> (rt == IDLE && AllOff(m.disk))
                      || (rt == Runtime(Failed, Some(profile), Missing, false) && m.disk.session.Exists())
      ensures ok ==> SwitchedTo(old(m.disk), m.disk) && Rebuilt(old(m.disk), m.disk, m.secret, m.outbound, old(m.Working()))
      ensures BaseKept(old(m.disk), m.disk)
      ensures rt == IDLE ==> ConfigKept(old(m.disk), m.disk, m.secret, m.outbound)
      ensures old(Calm()) ==> (ok <==> Startable(old(m.disk), m.secret, m.outbound))
    {
      hide Fit, TunEnabled, BaseFrom, Rebuildable, Startable, Rebuilt, Switched;
      ghost var before := m.disk;
      rt := Runtime(Starting, Some(profile), Missing, false);
      var written := WritePersisted();
      if !written {
        rt := IDLE;
        NoSessionMeansOff(m.disk, m.shaped);
        return false;
      }
      ghost var recorded := m.disk;
      SessionIsInvisible(before, recorded, m.secret, m.outbound);
      ghost var now := m.Working();
      ok := Launch();
      ghost var launched := m.disk;
      if ok {
        rt := rt.(status := Running);
        ok := WritePersisted();
        RebuiltLooksAt(recorded, launched, before, m.disk, m.secret, m.outbound, now, old(m.Working()));
      }
      if !ok {
        ghost var failed, trying := m.disk, m.Working();
        RollbackEnable();
        RolledBackKeeps(before, failed, m.disk, rt == IDLE, m.secret, m.outbound, trying);
      }
    }

    method Launch() returns (ok: bool)
      requires m.Valid() && m.disk.session.Exists()
      modifies m`disk, m`loaded, m`step, m`trace
      ensures m.Valid() && m.step > old(m.step)
      ensures m.disk == old(m.disk).(runtimeOverride := m.disk.runtimeOverride, activeBase := m.disk.activeBase,
                                     config := m.disk.config)
      ensures ok ==> FlagOn(m.disk.runtimeOverride) && FlagOn(m.disk.config) && Doc(m.loaded) == m.disk.config
      ensures ok ==> SwitchedTo(old(m.disk), m.disk) && Rebuilt(old(m.disk), m.disk, m.secret, m.outbound, old(m.Working()))
      ensures ok ==> m.NoFaults(m.step - 6, m.step)
      ensures BaseKept(old(m.disk), m.disk)
      ensures m.disk.activeBase.Missing? ==> m.disk.config == old(m.disk).config
      ensures old(m.Working()) ==> (ok <==> Startable(old(m.disk), m.secret, m.outbound))
    {
      hide Fit, TunEnabled, BaseFrom, RuntimeOf, RestorableAt, Switched, Rebuilt, ReadRuntimeOverride;
      ok := m.SetTun(true);
      if ok {
        SwitchedOnIsOn(old(m.disk).runtimeOverride);
        ghost var on, now := m.disk, m.Working();
        ok := LoadTunRuntime();
        if ok {
          RebuiltLooksAt(on, m.disk, old(m.disk), m.disk, m.secret, m.outbound, now, old(m.Working()));
        }
      }
      if ok {
        ok := m.Attempt();
      }
      if ok {
        ok := m.Attempt();
      }
    }

    // ---------- disable, exit, startup ----------

    method DisableTun() returns (ok: bool)
      requires Valid()
      modifies this`rt, m`disk, m`loaded, m`step, m`trace
      ensures Valid() && m.step >= old(m.step) && (rt.blocked ==> old(rt).blocked)
      ensures old(Deserted()) ==> m.loaded == old(m.loaded)
      ensures ok ==> rt.status.Disabled? && AllOff(m.disk)
      ensures ok && RequiresRecovery(old(rt)) ==> rt == IDLE && m.disk.runtimeOverride.Missing?
      ensures !ok ==> m.disk.session == old(m.disk).session
                      && rt == if old(rt).blocked then old(rt) else old(rt).(status := Failed)
      ensures ok && RequiresRecovery(old(rt)) ==>
                && Ended(old(m.disk), m.disk, old(rt).legacy, m.secret, m.outbound, old(m.Working()))
                && (old(Attended()) ==> Doc(m.loaded) == m.disk.config)
      ensures !RequiresRecovery(old(rt)) ==> ok && m.disk == old(m.disk)
      ensures RequiresRecovery(old(rt)) && m.answers(old(m.step)) && m.faults(old(m.step) + 1) ==>
                !ok && m.disk == old(m.disk) && m.loaded == old(m.loaded)
      ensures old(m.Working()) && RequiresRecovery(old(rt)) && !m.answers(old(m.step)) ==>
        (ok <==> !old(rt).blocked && RestorableLegacy(old(rt).legacy) && Rebuildable(old(m.disk), m.secret, m.outbound))
      ensures old(Calm()) && RequiresRecovery(old(rt)) ==>
        (ok <==> !old(rt).blocked && RestorableLegacy(old(rt).legacy) && Rebuildable(old(m.disk), m.secret, m.outbound))
    {
      hide Fit, TunEnabled, BaseOf, Rebuildable, RestorableLegacy, Ended;
      NoSessionMeansOff(m.disk, m.shaped);
      if !RequiresRecovery(rt) {
        rt := rt.(status := Disabled);
        return true;
      }
      if rt.blocked {
        return false;
      }
      var owned := m.Ask();
      ok := true;
      if owned {
        ok := m.Attempt();
      }
      if ok {
        rt := rt.(status := Stopping);
        ghost var now := m.Working();
        ok := EndSession(rt.legacy);
        if ok {
          EndedLooksAt(old(m.disk), m.disk, old(m.disk), m.disk, old(rt).legacy, m.secret, m.outbound, now, old(m.Working()));
        }
      }
      rt := if ok then IDLE else rt.(status := Failed);
    }

    method EndSession(legacy: File<Value>) returns (ok: bool)
      requires m.Valid() && (m.shaped ==> LegacyLocal(legacy, m.sources))
      modifies m`disk, m`loaded, m`step, m`trace
      ensures m.Valid() && m.step >= old(m.step)
      ensures ok ==> AllOff(m.disk) && m.disk.runtimeOverride.Missing?
      ensures !ok ==> m.disk.session == old(m.disk).session
      ensures ok ==> Ended(old(m.disk), m.disk, legacy, m.secret, m.outbound, old(m.Working()))
      ensures ok && old(Attended()) ==> Doc(m.loaded) == m.disk.config
      ensures old(Deserted()) ==> m.loaded == old(m.loaded)
      ensures old(m.Working()) ==>
        (ok <==> RestorableLegacy(legacy) && Rebuildable(old(m.disk), m.secret, m.outbound))
    {
      hide Fit, TunEnabled, BaseOf, Rebuildable, RestorableLegacy, Ended;
      ok := RestoreNonTunRuntime(legacy);
      if ok {
        ghost var done := m.disk;
        ok := ClearPersisted();
        EndedLooksAt(old(m.disk), done, old(m.disk), m.disk, legacy, m.secret, m.outbound, old(m.Working()), old(m.Working()));
        NoSessionMeansOff(m.disk, m.shaped);
      }
    }

    /** The recovery file, or the in-memory session when there is none. */
    method SessionToEnd() returns (r: Result<Option<Session>>)
      requires Valid()
      modifies m`step
      ensures m.step == old(m.step) + 1 && (m.faults(old(m.step)) ==> r.Err?)
      ensures r.Ok? && m.disk.session.Missing? ==>
                r.value == if rt.profile.Some? then Some(Session(rt.profile.value, rt.legacy)) else None
      ensures r.Ok? ==> m.disk.session.Missing? || m.disk.session.Doc?
      ensures r.Ok? && r.value.Some? ==> m.shaped ==> SessionFit(r.value.value, m.sources)
      ensures r.Ok? && m.disk.session.Doc? ==> r.value == Some(m.disk.session.content)
      ensures old(m.Working()) ==> (r.Ok? <==> m.disk.session.Doc? || m.disk.session.Missing?)
    {
      StoredSessionFits(m.disk, m.shaped);
      var readable := m.Attempt();
      r := Err;
      if readable && m.disk.session.Doc? {
        r := Ok(Some(m.disk.session.content));
      } else if readable && m.disk.session.Missing? {
        r := Ok(if rt.profile.Some? then Some(Session(rt.profile.value, rt.legacy)) else None);
      }
    }

    /** Ends the session before the window closes. */
    method RestoreForLifecycle() returns (ok: bool)
      requires Valid()
      modifies this`rt, m`disk, m`loaded, m`step, m`trace
      ensures Valid() && m.step >= old(m.step) && (rt.blocked ==> old(rt).blocked)
      ensures old(Deserted()) ==> m.loaded == old(m.loaded)
      ensures ok ==> AllOff(m.disk)
      ensures ok && old(m.disk).session.Doc? ==>
                && rt == IDLE
                && Ended(old(m.disk), m.disk, old(m.disk).session.content.legacy, m.secret, m.outbound, old(m.Working()))
                && (old(Attended()) ==> Doc(m.loaded) == m.disk.config)
      ensures old(m.Working()) && old(m.disk).session.Missing? && old(rt).profile.None? ==> ok && m.disk == old(m.disk)
      ensures old(m.Working()) && old(m.disk).session.Doc? ==>
        (ok <==> RestorableLegacy(old(m.disk).session.content.legacy) && Rebuildable(old(m.disk), m.secret, m.outbound))
    {
      hide Fit, TunEnabled, BaseOf, Rebuildable, RestorableLegacy, Ended;
      NoSessionMeansOff(m.disk, m.shaped);
      var session := SessionToEnd();
      ok := session.Ok?;
      if ok && session.value.Some? {
        ghost var now := m.Working();
        ok := EndSession(session.value.value.legacy);
        if ok {
          EndedLooksAt(old(m.disk), m.disk, old(m.disk), m.disk, session.value.value.legacy, m.secret, m.outbound, now,
                       old(m.Working()));
          rt := IDLE;
        }
      }
    }

    /** The managed core died: the files are switched back, the controller is gone. */
    method OnCoreExit()
      requires Valid()
      modifies this`rt, m`disk, m`step, m`trace
      ensures Valid() && m.step >= old(m.step) && (rt.blocked ==> old(rt).blocked)
      ensures rt == old(rt) || rt.status.Failed? || (rt == IDLE && AllOff(m.disk))
      ensures old(m.Working()) && old(m.disk).session.Doc? ==>
        (rt == IDLE <==> Recoverable(old(m.disk), m.secret, m.outbound))
      ensures old(m.disk).session.Doc? && rt == IDLE ==>
                Ended(old(m.disk), m.disk, old(m.disk).session.content.legacy, m.secret, m.outbound, old(m.Working()))
      ensures old(m.disk).session.Doc? ==> rt == IDLE || (rt.status.Failed? && m.disk.session == old(m.disk).session)
    {
      hide Fit, TunEnabled, BaseOf, Rebuildable, RestorableLegacy, Ended;
      var session := SessionToEnd();
      if session.Err? {
        rt := rt.(status := Failed);
      } else if session.value.Some? {
        ghost var now := m.Working();
        var ok := RebuildAndClear(session.value.value.legacy);
        if ok {
          EndedLooksAt(old(m.disk), m.disk, old(m.disk), m.disk, session.value.value.legacy, m.secret, m.outbound, now,
                       old(m.Working()));
        }
        rt := if ok then IDLE
              else rt.(status := Failed, profile := Some(session.value.value.profile), legacy := session.value.value.legacy);
      }
    }

    method RebuildAndClear(legacy: File<Value>) returns (ok: bool)
      requires m.Valid() && (m.shaped ==> LegacyLocal(legacy, m.sources))
      modifies m`disk, m`step, m`trace
      ensures m.Valid() && m.step >= old(m.step)
      ensures ok ==> AllOff(m.disk) && m.disk.runtimeOverride.Missing?
      ensures !ok ==> m.disk.session == old(m.disk).session
      ensures ok ==> Ended(old(m.disk), m.disk, legacy, m.secret, m.outbound, old(m.Working()))
      ensures old(m.Working()) ==>
        (ok <==> RestorableLegacy(legacy) && Rebuildable(old(m.disk), m.secret, m.outbound))
    {
      hide Fit, TunEnabled, BaseOf, Rebuildable, RestorableLegacy, Ended;
      ok := RebuildRuntimeOnDisk(legacy);
      if ok {
        ghost var done := m.disk;
        ok := ClearPersisted();
        EndedLooksAt(old(m.disk), done, old(m.disk), m.disk, legacy, m.secret, m.outbound, old(m.Working()), old(m.Working()));
        NoSessionMeansOff(m.disk, m.shaped);
      }
    }

    method RecoverAfterStartup()
      requires m.Valid() && rt == IDLE
      modifies this`rt, m`disk, m`loaded, m`step, m`trace
      ensures Valid()
      ensures old(Deserted()) ==> m.loaded == old(m.loaded)
      ensures rt == IDLE ==> AllOff(m.disk)
      ensures m.faults(old(m.step)) ==> rt == Runtime(Failed, None, Missing, true) && m.disk == old(m.disk)
      ensures rt == IDLE && old(m.disk).session.Missing? ==> m.disk == old(m.disk)
      ensures rt == IDLE && old(m.disk).session.Doc? ==>
                && Ended(old(m.disk), m.disk, old(m.disk).session.content.legacy, m.secret, m.outbound, old(m.Working()))
                && (old(Attended()) ==> Doc(m.loaded) == m.disk.config)
      ensures rt != IDLE ==> rt.status.Failed? && m.disk.session == old(m.disk).session
      ensures old(m.Working()) ==>
        (rt == IDLE <==> old(m.disk).session.Missing? || Recoverable(old(m.disk), m.secret, m.outbound))
    {
      hide Fit, TunEnabled, BaseOf, Rebuildable, RestorableLegacy, Ended;
      NoSessionMeansOff(m.disk, m.shaped);
      StoredSessionFits(m.disk, m.shaped);
      var readable := m.Attempt();
      if !readable || m.disk.session.Blank? || m.disk.session.Garbled? {
        rt := Runtime(Failed, None, Missing, true);
        return;
      }
      if m.disk.session.Missing? {
        return;
      }
      var session := m.disk.session.content;
      var owned := m.Ask();
      ghost var now := m.Working();
      var ok;
      if owned {
        ok := EndSession(session.legacy);
      } else {
        ok := RebuildAndClear(session.legacy);
      }
      if ok {
        EndedLooksAt(old(m.disk), m.disk, old(m.disk), m.disk, session.legacy, m.secret, m.outbound, now, old(m.Working()));
      }
      rt := if ok then IDLE else Runtime(Failed, Some(session.profile), session.legacy, false);
    }

    // ---------- applying a profile ----------

    method ApplyConfig(profile: string) returns (outcome: Applied)
      requires m.Valid()
      modifies m`disk, m`loaded, m`step, m`trace
      ensures m.Valid() && m.step > old(m.step)
      ensures m.disk == old(m.disk).(activeBase := m.disk.activeBase, config := m.disk.config,
                                     activeProfile := m.disk.activeProfile, candidate := m.disk.candidate)
      ensures outcome.Committed? ==> m.disk.activeProfile == Doc(profile) && m.disk.config == Doc(m.loaded)
      ensures outcome.Committed? ==> ProfileRuns(old(m.disk), m.disk, profile, m.secret, m.outbound, old(m.Working()))
      ensures outcome.Refused? || outcome.RolledBack? ==> m.disk == old(m.disk).(candidate := m.disk.candidate)
      ensures outcome.Refused? ==> m.loaded == old(m.loaded)
      ensures outcome.Committed? ==> !m.faults(old(m.step) + 5)
      ensures outcome.RolledBack? ==> Doc(m.loaded) == old(m.disk).config
      ensures old(m.Working()) ==>
        (outcome.Committed?
         <==> (old(m.disk).config.Exists()
               && BuildOf(old(m.disk), profile, m.secret, m.outbound, RuntimePort(old(m.disk).config)).Ok?))
    {
      hide Kept, Fit, TunEnabled, BuildOf, Storable, RuntimePort, ProfileRuns, IsBuildOf;
      var built, port := m.BuildValue(profile);
      var readable := m.Attempt();
      outcome := Refused;
      if built.Ok? && readable && m.disk.config.Exists() {
        BuildIsStorable(m.disk, profile, m.secret, m.outbound, port, m.shaped);
        var staged := Stage(built.value);
        if staged {
          outcome := m.LoadAndCommit(profile, built.value);
          if outcome.Committed? {
            CommittedBuildRuns(old(m.disk), m.disk, built.value, profile, m.secret, m.outbound, old(m.Working()),
                               old(m.Working()));
          }
        }
      }
    }

    /** Writes the candidate and checks the core before it is loaded. */
    method Stage(built: Built) returns (ok: bool)
      requires m.Valid() && Storable(m.disk, built, m.shaped)
      modifies m`disk, m`step, m`trace
      ensures m.Valid() && m.step > old(m.step)
      ensures m.disk == old(m.disk).(candidate := m.disk.candidate) && Storable(m.disk, built, m.shaped)
      ensures ok ==> m.disk.candidate == Doc(built.runtime)
      ensures !ok ==> m.disk == old(m.disk) || m.disk.candidate.Missing? || m.faults(m.step - 1)
      ensures old(m.Working()) ==> ok
    {
      OtherFilesKeep(m.disk, m.disk.activeProfile, Doc(built.runtime), m.shaped);
      ok := m.Write(m.disk.(candidate := Doc(built.runtime)));
      if ok {
        ok := m.Attempt();
        if !ok {
          m.DropCandidate();
        }
      }
    }

    method HandleApply(profile: string) returns (outcome: Applied)
      requires Valid()
      modifies this`rt, m`disk, m`loaded, m`step, m`trace
      ensures Valid() && m.step >= old(m.step) && (rt.blocked ==> old(rt).blocked)
      ensures rt.status == old(rt).status
      ensures outcome.Committed? ==>
                m.disk.config == Doc(m.loaded)
                && ProfileRuns(old(m.disk), m.disk, profile, m.secret, m.outbound, old(m.Working()))
      ensures outcome.Refused? || outcome.RolledBack? ==> m.disk == old(m.disk).(candidate := m.disk.candidate)
      ensures old(m.Working()) && !old(rt.status.Starting? || rt.status.Stopping? || (rt.status.Failed? && RequiresRecovery(rt))) ==>
                && (outcome.Committed?
                    <==> (old(m.disk).config.Exists()
                          && BuildOf(old(m.disk), profile, m.secret, m.outbound, RuntimePort(old(m.disk).config)).Ok?))
                && (outcome.Committed? && old(rt).status.Running? ==> m.disk.session == Doc(Session(profile, Missing)))
      ensures !outcome.Committed? ==> rt == old(rt) && m.disk.session == old(m.disk).session
      ensures old(rt.status.Starting? || rt.status.Stopping? || (rt.status.Failed? && RequiresRecovery(rt))) ==>
                outcome.Refused? && m.disk == old(m.disk)
      ensures outcome.Committed? && old(rt).status.Running? ==>
                && rt == old(rt).(profile := Some(profile))
                && (m.disk.session == Doc(Session(profile, Missing)) || m.disk.session == old(m.disk).session)
      ensures outcome.Committed? && !old(rt).status.Running? ==> rt == old(rt) && m.disk.session == old(m.disk).session
    {
      hide Kept, Fit, TunEnabled, BuildOf, Storable, RuntimePort, ProfileRuns;
      if rt.status.Starting? || rt.status.Stopping? || (rt.status.Failed? && RequiresRecovery(rt)) {
        return Refused;
      }
      outcome := ApplyConfig(profile);
      if outcome.Committed? && rt.status.Running? {
        rt := rt.(profile := Some(profile));
        ghost var applied := m.disk;
        var _ := WritePersisted();
        ProfileRunsLooksAt(old(m.disk), applied, m.disk, profile, m.secret, m.outbound, old(m.Working()), old(m.Working()));
      }
    }

    method Serve(commands: seq<Command>)
      requires Valid()
      modifies this`rt, m`disk, m`loaded, m`step, m`trace
      ensures Valid()
      ensures old(m.Working() && Deserted()) && m.shaped && !old(rt).blocked && commands != []
              && commands[|commands| - 1] == Disable ==>
                AllOff(m.disk)
    {
      hide Kept, Fit, TunEnabled, Ended, Rebuilt, LegacyFit, RestorableLegacy, Rebuildable;
      for i := 0 to |commands|
        invariant Valid() && m.step >= old(m.step) && (rt.blocked ==> old(rt).blocked)
        invariant old(m.Working() && Deserted()) && m.shaped && !old(rt).blocked && i > 0 && commands[i - 1] == Disable ==>
                    AllOff(m.disk)
      {
        if m.shaped {
          FitEnds(m.disk, rt, m.secret, m.outbound);
        }
        match commands[i] {
          case Enable(profile) => var _ := EnableTun(profile);
          case Disable => var _ := DisableTun();
          case CoreExit => OnCoreExit();
          case Lifecycle => var _ := RestoreForLifecycle();
          case Apply(id) => var _ := HandleApply(id);
        }
      }
    }
  }

  /** A session can start from here when nothing fails. */
  predicate Startable(disk: Disk, secret: string, outbound: Outbound) {
    var on := Switched(disk.runtimeOverride, true);
    on.Ok? &&
    var runtime := RestorableAt(disk.(runtimeOverride := on.value), secret, outbound);
    runtime.Ok? && runtime.value.Some?
  }

  /** Runs of the window process, each crashing between any two durable steps of any command or of its own
      recovery. Every disk they leave is guarded; from a fit first disk they are all recoverable, and a run
      without failures then switches everything off. */
  method SurviveCrashes(disk: Disk, lives: seq<Life>, last: Life, secret: string, outbound: Outbound, ghost shaped: bool)
    returns (crashes: seq<Disk>, final: Disk, rt: Runtime)
    requires Kept(disk, shaped) && forall n :: !last.faults(n)
    ensures |crashes| == |lives|
    ensures forall d | d in crashes :: Guarded(d) && (shaped && d.session.Exists() ==> Recoverable(d, secret, outbound))
    ensures Guarded(final) && (shaped ==> rt == IDLE && AllOff(final))
    ensures var left := if lives == [] then disk else crashes[|lives| - 1];
            shaped ==>
              if !left.session.Doc? then final == left
              else Ended(left, final, left.session.content.legacy, secret, outbound, true)
  {
    hide Fit, Recoverable, AllOff, FlagOn, Ended;
    var current := disk;
    crashes := [];
    for i := 0 to |lives|
      invariant |crashes| == i && Kept(current, shaped)
      invariant current == if i == 0 then disk else crashes[i - 1]
      invariant forall d | d in crashes :: Guarded(d) && (shaped && d.session.Exists() ==> Recoverable(d, secret, outbound))
    {
      var m := new Machine(current, lives[i].loaded, lives[i].faults, lives[i].answers, secret, outbound, shaped);
      var gui := new TunController(m);
      gui.RecoverAfterStartup();
      gui.Serve(lives[i].commands);
      assert m.Valid();
      current := m.trace[lives[i].crash % |m.trace|];
      assert current in m.trace;
      crashes := crashes + [current];
      if shaped {
        FitIsRecoverable(current, secret, outbound);
      }
    }
    if shaped {
      FitIsRecoverable(current, secret, outbound);
    }
    var m := new Machine(current, last.loaded, last.faults, last.answers, secret, outbound, shaped);
    var gui := new TunController(m);
    assert m.Working();
    gui.RecoverAfterStartup();
    final, rt := m.disk, gui.rt;
  }

  /** A session of a fit disk can always be ended. */
  lemma FitEnds(disk: Disk, rt: Runtime, secret: string, outbound: Outbound)
    requires Kept(disk, true) && LegacyFit(rt.legacy, rt.profile, disk.sources)
    ensures RestorableLegacy(rt.legacy) && Rebuildable(disk, secret, outbound)
  {
    hide Layered, ON, ValidConfig, TunEnabled, Merge, RuntimePort;
    OnIsOn();
    var off := disk.(runtimeOverride := Missing);
    assert BaseOf(off) == BaseOf(disk);
    OffRuntime(off, BaseOf(disk).value.value, secret, outbound);
  }

  lemma FitIsRecoverable(disk: Disk, secret: string, outbound: Outbound)
    requires Fit(disk)
    ensures disk.session.Missing? || (disk.session.Doc? && Recoverable(disk, secret, outbound))
  {
    hide Layered, ON, ValidConfig, TunEnabled, Merge, RuntimePort;
    OnIsOn();
    var off := disk.(runtimeOverride := Missing);
    assert BaseOf(off) == BaseOf(disk);
    OffRuntime(off, BaseOf(disk).value.value, secret, outbound);
  }

  /** From no override and a valid base a session can always start here, whatever the base's `tun` section is. */
  lemma StartsOverEveryValidBase(disk: Disk, base: Value, secret: string, outbound: Outbound)
    requires disk.runtimeOverride.Missing? && BaseOf(disk) == Ok(Some(base)) && ValidConfig(base)
    ensures Startable(disk, secret, outbound)
  {
    hide Layered, ON, ValidConfig, TunEnabled, Merge, RuntimePort, BaseOf;
    OnIsOn();
    SwitchOnWrites(Missing);
    BaseIgnoresOverride(disk, Doc(ON));
    ServiceTun.OnAcceptsEveryValidBase(base, Surroundings(secret, outbound, RuntimePort(disk.config)));
    RestorableIsLayered(disk.(runtimeOverride := Doc(ON)), base, ON, secret, outbound);
  }

  /** And without a base it cannot. */
  lemma NoBaseNoSession(disk: Disk, secret: string, outbound: Outbound)
    requires !BaseOf(disk).Ok? || BaseOf(disk).value.None?
    ensures !Startable(disk, secret, outbound) && !Recoverable(disk, secret, outbound)
  {
    hide Layered, ON, ValidConfig, TunEnabled, Merge, RuntimePort, BaseFrom, ReadRuntimeOverride, Switched;
  }

  /** With a readable base and override, a session of this version is recoverable here if and only if there is a
      base and its `tun` section is a mapping or absent. */
  lemma RecoverableExactly(disk: Disk, secret: string, outbound: Outbound)
    requires disk.session.Doc? && disk.session.content.legacy.Missing? && OwnWriting(disk.runtimeOverride)
    requires BaseOf(disk).Ok? && (BaseOf(disk).value.Some? ==> ValidConfig(BaseOf(disk).value.value))
    ensures Recoverable(disk, secret, outbound) <==> BaseOf(disk).value.Some? && TunShaped(BaseOf(disk).value.value)
  {
    hide Layered, ON, ValidConfig, TunEnabled, Merge, RuntimePort, TunShaped;
    OnIsOn();
    var off := disk.(runtimeOverride := Missing);
    assert BaseOf(off) == BaseOf(disk);
    if BaseOf(disk).value.Some? {
      OffRuntime(off, BaseOf(disk).value.value, secret, outbound);
    }
  }

  /** A session over files that hold no base at all: the service would recover it, the window process cannot. */
  lemma BaselessSessionIsStuck(disk: Disk, secret: string, outbound: Outbound)
    requires disk.session.Doc? && disk.session.content.legacy.Missing? && disk.runtimeOverride == Doc(ON)
    requires disk.activeBase.Missing? && disk.config.Missing?
    ensures !Recoverable(disk, secret, outbound) && ServiceTun.Recoverable(disk, secret, outbound)
  {
    hide Layered, ON, ValidConfig, TunEnabled, RuntimePort;
    OnIsOn();
  }

  lemma LocalOverrideIsInvisible(before: Disk, after: Disk, secret: string, outbound: Outbound)
    requires after == before.(localOverride := after.localOverride)
    ensures Rebuildable(after, secret, outbound) == Rebuildable(before, secret, outbound)
  {
  }

  lemma SessionIsInvisible(before: Disk, after: Disk, secret: string, outbound: Outbound)
    requires after == before.(session := after.session)
    ensures Startable(after, secret, outbound) == Startable(before, secret, outbound)
  {
    hide Layered, ReadRuntimeOverride, Switched, ValidConfig, TunEnabled;
    var on := Switched(before.runtimeOverride, true);
    if on.Ok? {
      assert BaseOf(after.(runtimeOverride := on.value)) == BaseOf(before.(runtimeOverride := on.value));
    }
  }

  lemma RestorableHasBase(disk: Disk, secret: string, outbound: Outbound)
    ensures RestorableAt(disk, secret, outbound).Ok? ==>
              BaseOf(disk).Ok? && RestorableAt(disk, secret, outbound).value.Some? == BaseOf(disk).value.Some?
  {
  }
}
