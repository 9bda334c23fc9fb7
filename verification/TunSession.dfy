// What the TUN sessions of the service and of the window share (src-tauri/src/tun.rs, service.rs).
module TunSession {
  import opened Basics
  import opened Yaml
  import opened Config
  import opened Host

  datatype Status = Disabled | Starting | Running | Stopping | Failed

  /** TUN is off everywhere on disk and nothing is left to recover. */
  predicate AllOff(disk: Disk) {
    disk.session.Missing? && !FlagOn(disk.runtimeOverride) && !FlagOn(disk.config)
  }

  lemma StoredSessionFits(disk: Disk, shaped: bool)
    requires Kept(disk, shaped)
    ensures shaped && disk.session.Doc? ==> SessionFit(disk.session.content, disk.sources)
  {
  }

  lemma NoSessionMeansOff(disk: Disk, shaped: bool)
    requires Kept(disk, shaped)
    ensures disk.session.Missing? ==> AllOff(disk)
  {
  }

  lemma SessionKeeps(disk: Disk, session: File<Session>, shaped: bool)
    requires Kept(disk, shaped)
    requires session.Exists() || (!FlagOn(disk.runtimeOverride) && !FlagOn(disk.config))
    requires shaped ==> session.Missing? || (session.Doc? && SessionFit(session.content, disk.sources))
    ensures Kept(disk.(session := session), shaped)
  {
  }

  lemma OffRuntime(disk: Disk, base: Value, secret: string, outbound: Outbound)
    requires ValidConfig(base) && disk.runtimeOverride.Missing?
    ensures RuntimeOf(disk, base, secret, outbound, RuntimePort(disk.config)).Ok? <==> TunShaped(base)
  {
    assert Merge(base, EMPTY).entries == base.entries;
    LayersAcceptExactly(base, EMPTY, Surroundings(secret, outbound, RuntimePort(disk.config)));
  }

  lemma SwitchedOnIsOn(file: File<Value>)
    requires Switched(file, true).Ok?
    ensures FlagOn(Switched(file, true).value)
  {
    var value := ReadRuntimeOverride(file).value;
    var tun := TunSection(FieldOr(value, "tun", EMPTY));
    assert TUN_SETTINGS[Key("enable")] == Bool(true);
    assert Field(tun, "enable") == Some(Bool(true));
    assert Field(Switched(file, true).value.content, "tun") == Some(tun);
  }
}
