// Ownership of the Windows proxy settings (src-tauri/src/system_proxy.rs): a five-value update that is not
// atomic, taken and given back while other programs may write the same values.
module SystemProxy {
  import opened Basics
  import opened Text

  datatype Settings = Settings(
    enable: Option<nat>, server: Option<string>, bypass: Option<string>, autoUrl: Option<string>,
    autoDetect: Option<nat>)

  /** Settings to go back to, and the process that listened on the mixed port when they were taken. */
  datatype Snapshot = Snapshot(settings: Settings, pid: Option<nat>)

  datatype Write =
    | PutEnable(enable: Option<nat>) | PutServer(text: Option<string>) | PutBypass(text: Option<string>)
    | PutUrl(text: Option<string>) | PutDetect(detect: Option<nat>)

  datatype Actual = Disabled | MioProxyEndpoint | ExternalEndpoint

  datatype Owner = MioProxy | External | Nobody

  datatype Expectation = Enabled | UpdateDisabled

  // ---------- single writes and bursts of them ----------

  function Put(s: Settings, w: Write): Settings {
    match w
    case PutEnable(v) => s.(enable := v)
    case PutServer(v) => s.(server := v)
    case PutBypass(v) => s.(bypass := v)
    case PutUrl(v) => s.(autoUrl := v)
    case PutDetect(v) => s.(autoDetect := v)
  }

  function PutAll(s: Settings, ws: seq<Write>): Settings {
    if ws == [] then s else Put(PutAll(s, ws[..|ws| - 1]), ws[|ws| - 1])
  }

  function Endpoint(port: nat): string {
    "127.0.0.1:" + Decimal(port)
  }

  function Bypass(from: Settings): string {
    if from.bypass.Some? && !IsBlank(from.bypass.value) then from.bypass.value else "<local>"
  }

  function EnableWrites(port: nat, from: Settings): seq<Write> {
    [PutEnable(Some(1)), PutServer(Some(Endpoint(port))), PutBypass(Some(Bypass(from))), PutUrl(None), PutDetect(None)]
  }

  function RestoreWrites(s: Settings): seq<Write> {
    [PutEnable(s.enable), PutServer(s.server), PutBypass(s.bypass), PutUrl(s.autoUrl), PutDetect(s.autoDetect)]
  }

  /** The registry after the first k writes of an enable that started from `before`. */
  function Reached(before: Settings, from: Settings, port: nat, k: nat): Settings
    requires k <= 5
  {
    PutAll(before, EnableWrites(port, from)[..k])
  }

  /** The registry after the first k writes of a restore. */
  function Restored(before: Settings, to: Settings, k: nat): Settings
    requires k <= 5
  {
    PutAll(before, RestoreWrites(to)[..k])
  }

  lemma FirstFive(s: Settings, ws: seq<Write>)
    requires |ws| == 5
    ensures PutAll(s, ws[..0]) == s
    ensures forall k | 0 <= k < 5 :: PutAll(s, ws[..k + 1]) == Put(PutAll(s, ws[..k]), ws[k])
    ensures PutAll(s, ws) == PutAll(s, ws[..5])
  {
    forall k | 0 <= k < 5
      ensures PutAll(s, ws[..k + 1]) == Put(PutAll(s, ws[..k]), ws[k])
    {
      assert ws[..k + 1][..k] == ws[..k];
    }
    assert ws[..5] == ws;
  }

  /** The five values of a finished enable. */
  function FullyOn(port: nat, from: Settings): Settings {
    Settings(Some(1), Some(Endpoint(port)), Some(Bypass(from)), None, None)
  }

  lemma FullyOnShows(port: nat, from: Settings)
    ensures FullyOn(port, from) == Settings(
              Some(1), Some("127.0.0.1:" + Decimal(port)),
              Some(if from.bypass.Some? && !IsBlank(from.bypass.value) then from.bypass.value else "<local>"), None, None)
  {
  }

  /** What each number of enabling writes leaves, value by value. */
  lemma EnableSteps(before: Settings, from: Settings, port: nat)
    ensures var e, b := Some(Endpoint(port)), Some(Bypass(from));
            && Reached(before, from, port, 0) == before
            && Reached(before, from, port, 1) == before.(enable := Some(1))
            && Reached(before, from, port, 2) == before.(enable := Some(1), server := e)
            && Reached(before, from, port, 3) == before.(enable := Some(1), server := e, bypass := b)
            && Reached(before, from, port, 4) == before.(enable := Some(1), server := e, bypass := b, autoUrl := None)
            && Reached(before, from, port, 5) == FullyOn(port, from)
  {
    FirstFive(before, EnableWrites(port, from));
    var ws := EnableWrites(port, from);
    assert Reached(before, from, port, 1) == Put(Reached(before, from, port, 0), ws[0]);
    assert Reached(before, from, port, 2) == Put(Reached(before, from, port, 1), ws[1]);
    assert Reached(before, from, port, 3) == Put(Reached(before, from, port, 2), ws[2]);
    assert Reached(before, from, port, 4) == Put(Reached(before, from, port, 3), ws[3]);
    assert Reached(before, from, port, 5) == Put(Reached(before, from, port, 4), ws[4]);
  }

  lemma RestoreValues(before: Settings, to: Settings)
    ensures forall k | 0 <= k <= 5 ::
              Restored(before, to, k) == Settings(
                if k >= 1 then to.enable else before.enable, if k >= 2 then to.server else before.server,
                if k >= 3 then to.bypass else before.bypass, if k >= 4 then to.autoUrl else before.autoUrl,
                if k >= 5 then to.autoDetect else before.autoDetect)
  {
    FirstFive(before, RestoreWrites(to));
    var ws := RestoreWrites(to);
    assert Restored(before, to, 1) == Put(Restored(before, to, 0), ws[0]);
    assert Restored(before, to, 2) == Put(Restored(before, to, 1), ws[1]);
    assert Restored(before, to, 3) == Put(Restored(before, to, 2), ws[2]);
    assert Restored(before, to, 4) == Put(Restored(before, to, 3), ws[3]);
    assert Restored(before, to, 5) == Put(Restored(before, to, 4), ws[4]);
  }

  /** A completed restore leaves exactly the settings asked for, whatever was there. */
  lemma RestoreSteps(before: Settings, to: Settings)
    ensures Restored(before, to, 0) == before
    ensures Restored(before, to, 1) == before.(enable := to.enable)
    ensures Restored(before, to, 5) == to
  {
    RestoreValues(before, to);
  }

  // ---------- bursts with other programs writing in between ----------

  function Overtaken(others: nat -> Option<Settings>, s: Settings, m: nat): Settings {
    if others(m).Some? then others(m).value else s
  }

  /** The registry after the first n writes of a burst that begins at step `first`. */
  function Raced(others: nat -> Option<Settings>, s: Settings, ws: seq<Write>, first: nat, n: nat): Settings
    requires n <= |ws|
  {
    if n == 0 then s
    else Put(Overtaken(others, Raced(others, s, ws, first, n - 1), first + n - 1), ws[n - 1])
  }

  /** And after a burst that failed when it had made n of its writes, or ended. */
  function Left(others: nat -> Option<Settings>, s: Settings, ws: seq<Write>, first: nat, n: nat): Settings
    requires n <= |ws|
  {
    var raced := Raced(others, s, ws, first, n);
    if n == |ws| then raced else Overtaken(others, raced, first + n)
  }

  lemma {:induction false} RacedAlone(others: nat -> Option<Settings>, s: Settings, ws: seq<Write>, first: nat, n: nat)
    requires n <= |ws| && forall m | first <= m < first + n :: others(m).None?
    ensures Raced(others, s, ws, first, n) == PutAll(s, ws[..n])
  {
    if n > 0 {
      RacedAlone(others, s, ws, first, n - 1);
      assert ws[..n][..n - 1] == ws[..n - 1];
    }
  }

  lemma NothingWritten(others: nat -> Option<Settings>, s: Settings, ws: seq<Write>, first: nat)
    requires ws != []
    ensures Left(others, s, ws, first, 0) == Overtaken(others, s, first)
  {
  }

  /** Of all the writes of other programs during a burst the last one decides: what is left is that one with the
      rest of the burst on top. */
  lemma {:induction false} LastOtherWriteDecides(
      others: nat -> Option<Settings>, s: Settings, ws: seq<Write>, first: nat, n: nat, k: nat)
    requires k < n <= |ws| && others(first + k).Some? && forall m | first + k < m < first + n :: others(m).None?
    ensures Raced(others, s, ws, first, n) == PutAll(others(first + k).value, ws[k..n])
  {
    if n == k + 1 {
      assert ws[k..n] == [ws[k]] && ws[k..n][..0] == [];
    } else {
      LastOtherWriteDecides(others, s, ws, first, n - 1, k);
      assert ws[k..n][..n - 1 - k] == ws[k..n - 1];
    }
  }

  /** One write to each of the five values, in the order both bursts use. */
  predicate FieldWise(ws: seq<Write>) {
    |ws| == 5 && ws[0].PutEnable? && ws[1].PutServer? && ws[2].PutBypass? && ws[3].PutUrl? && ws[4].PutDetect?
  }

  lemma RestOfBurst(s: Settings, ws: seq<Write>, k: nat)
    requires FieldWise(ws) && k <= 5
    ensures PutAll(s, ws[k..]) == Settings(
              if k > 0 then s.enable else ws[0].enable, if k > 1 then s.server else ws[1].text,
              if k > 2 then s.bypass else ws[2].text, if k > 3 then s.autoUrl else ws[3].text,
              if k > 4 then s.autoDetect else ws[4].detect)
  {
    var rest := ws[k..];
    assert forall i | 0 <= i < |rest| :: rest[..i + 1][..i] == rest[..i];
    assert forall i | 0 <= i < |rest| :: PutAll(s, rest[..i + 1]) == Put(PutAll(s, rest[..i]), rest[i]);
    assert rest[..|rest|] == rest && PutAll(s, rest[..0]) == s;
  }

  /** A write that falls into a burst just before its k-th write survives if and only if it already agrees with
      every value the burst has still to write. */
  lemma OtherWriteSurvivesExactly(theirs: Settings, ws: seq<Write>, k: nat)
    requires FieldWise(ws) && k <= 5
    ensures PutAll(theirs, ws[k..]) == theirs <==> forall i | k <= i < 5 :: Put(theirs, ws[i]) == theirs
  {
    RestOfBurst(theirs, ws, k);
    hide PutAll;
    if forall i | k <= i < 5 :: Put(theirs, ws[i]) == theirs {
      assert k <= 4 ==> Put(theirs, ws[4]) == theirs;
      assert k <= 3 ==> Put(theirs, ws[3]) == theirs;
      assert k <= 2 ==> Put(theirs, ws[2]) == theirs;
      assert k <= 1 ==> Put(theirs, ws[1]) == theirs;
      assert k <= 0 ==> Put(theirs, ws[0]) == theirs;
    }
  }

  // ---------- recognising states ----------

  predicate HasAutoConfig(s: Settings) {
    || (s.autoUrl.Some? && !IsBlank(s.autoUrl.value))
    || (s.autoDetect.Some? && s.autoDetect.value != 0)
  }

  predicate AtEndpoint(s: Settings, port: nat) {
    s.server == Some(Endpoint(port))
  }

  predicate IsMioProxy(s: Settings, port: nat) {
    s.enable == Some(1) && AtEndpoint(s, port) && !HasAutoConfig(s)
  }

  function ActualState(s: Settings, port: nat): Actual {
    if IsMioProxy(s, port) then MioProxyEndpoint
    else if s.enable == Some(1) || HasAutoConfig(s) then ExternalEndpoint
    else Disabled
  }

  predicate Inactive(s: Settings) {
    s.enable != Some(1) && !HasAutoConfig(s)
  }

  predicate BelongTo(listeners: set<Option<nat>>, pid: nat) {
    listeners != {} && forall l <- listeners :: l == Some(pid)
  }

  lemma SameListener(listeners: set<Option<nat>>, a: nat, b: nat)
    requires BelongTo(listeners, a) && (listeners == {} || BelongTo(listeners, b))
    ensures a == b
  {
    var l :| l in listeners;
  }

  predicate Shape(s: Settings, port: nat, expectation: Expectation) {
    && !HasAutoConfig(s) && AtEndpoint(s, port)
    && s.enable == Some(if expectation == Enabled then 1 else 0)
  }

  predicate StillOwned(s: Settings, port: nat, pid: Option<nat>, listeners: set<Option<nat>>, expectation: Expectation) {
    && Shape(s, port, expectation)
    && (listeners == {} || (pid.Some? && BelongTo(listeners, pid.value)))
  }

  /** The states an enable, a pause and a restore tell apart, value by value. */
  lemma StatesExactly(s: Settings, port: nat)
    ensures var quiet := (s.autoUrl.Some? ==> IsBlank(s.autoUrl.value)) && (s.autoDetect == None || s.autoDetect == Some(0));
            var here := s.server == Some("127.0.0.1:" + Decimal(port));
            && (Inactive(s) <==> s.enable != Some(1) && quiet)
            && (Shape(s, port, Enabled) <==> s.enable == Some(1) && here && quiet)
            && (Shape(s, port, UpdateDisabled) <==> s.enable == Some(0) && here && quiet)
  {
  }

  function OwnerOf(actual: Actual, hasSnapshot: bool, owned: bool): Owner {
    match actual
    case Disabled => Nobody
    case ExternalEndpoint => External
    case MioProxyEndpoint => if hasSnapshot && owned then MioProxy else External
  }

  predicate CanEnable(actual: Actual, hasSnapshot: bool, owned: bool) {
    OwnerOf(actual, hasSnapshot, owned) != External
  }

  predicate FullyWritten(current: Settings, from: Settings, port: nat, pid: nat, listeners: set<Option<nat>>) {
    && current.enable == Some(1)
    && AtEndpoint(current, port)
    && current.bypass == Some(Bypass(from))
    && current.autoUrl.None?
    && current.autoDetect.None?
    && StillOwned(current, port, Some(pid), listeners, Enabled)
  }

  /** The registry shows between one and five writes of this enable, and nothing else. */
  ghost predicate KnownStep(current: Settings, before: Settings, from: Settings, port: nat) {
    exists k :: 1 <= k <= 5 && current == Reached(before, from, port, k)
  }

  predicate ListenersAllow(listeners: set<Option<nat>>, pid: nat) {
    listeners == {} || BelongTo(listeners, pid)
  }

  /** `enable_write_matches_known_step`, with its local copy updated in place. */
  method MatchesKnownStep(current: Settings, before: Settings, from: Settings, port: nat) returns (known: bool)
    ensures known <==> KnownStep(current, before, from, port)
  {
    EnableSteps(before, from, port);
    var expected := before.(enable := Some(1));
    if current == expected {
      assert current == Reached(before, from, port, 1);
      return true;
    }
    expected := expected.(server := Some(Endpoint(port)));
    if current == expected {
      assert current == Reached(before, from, port, 2);
      return true;
    }
    expected := expected.(bypass := Some(Bypass(from)));
    if current == expected {
      assert current == Reached(before, from, port, 3);
      return true;
    }
    expected := expected.(autoUrl := None);
    if current == expected {
      assert current == Reached(before, from, port, 4);
      return true;
    }
    expected := expected.(autoDetect := None);
    assert current == expected ==> current == Reached(before, from, port, 5);
    known := current == expected;
  }

  /** The separate test for a finished enable accepts nothing the step test would not: it is step five. */
  lemma FullyWrittenIsTheLastStep(
      current: Settings, before: Settings, from: Settings, port: nat, pid: nat, listeners: set<Option<nat>>)
    ensures FullyWritten(current, from, port, pid, listeners)
            <==> current == Reached(before, from, port, 5) && ListenersAllow(listeners, pid)
  {
    EnableSteps(before, from, port);
  }

  /** The gap between the confirming reading and the first write: a proxy that another program switches on just
      then, over a known step of an enable, is gone after a rollback that completes. */
  lemma WriteInTheGapIsLost(others: nat -> Option<Settings>, first: nat, from: Settings, port: nat)
    requires others(first) == Some(Settings(Some(1), Some("corp:8080"), None, None, None))
    requires forall m | first < m < first + 5 :: others(m).None?
    ensures var before := Settings(Some(0), None, None, None, None);
            var seen := before.(enable := Some(1));
            && KnownStep(seen, before, from, port) && !KnownStep(others(first).value, before, from, port)
            && Raced(others, seen, RestoreWrites(before), first, 5) == before
  {
    var before := Settings(Some(0), None, None, None, None);
    var ws := RestoreWrites(before);
    EnableSteps(before, from, port);
    assert Reached(before, from, port, 1) == before.(enable := Some(1));
    assert Endpoint(port)[0] != "corp:8080"[0];
    LastOtherWriteDecides(others, before.(enable := Some(1)), ws, first, 5, 0);
    RestOfBurst(others(first).value, ws, 0);
    assert ws[0..5] == ws[0..];
  }

  method StepStillOwned(
      current: Settings, before: Settings, from: Settings, port: nat, pid: nat, listeners: set<Option<nat>>)
    returns (owned: bool)
    ensures owned <==> KnownStep(current, before, from, port) && ListenersAllow(listeners, pid)
  {
    FullyWrittenIsTheLastStep(current, before, from, port, pid, listeners);
    owned := FullyWritten(current, from, port, pid, listeners);
    if !owned {
      var known := MatchesKnownStep(current, before, from, port);
      owned := known && (listeners == {} || BelongTo(listeners, pid));
    }
  }

  // ---------- what is kept ----------

  /** What survives a crash: the registry and the two snapshot files. */
  datatype Disk = Disk(registry: Settings, file: Option<Snapshot>, update: Option<Snapshot>)

  predicate Keeps(record: Option<Snapshot>, original: Settings) {
    record.Some? ==> record.value.settings == original
  }

  predicate Off(d: Disk, original: Settings) {
    d.registry == original && Keeps(d.file, original)
  }

  predicate On(d: Disk, original: Settings, port: nat) {
    d.file.Some? && d.file.value.settings == original && Shape(d.registry, port, Enabled)
  }

  predicate Paused(d: Disk, original: Settings, port: nat) {
    d.file.Some? && d.file.value.settings == original && Shape(d.registry, port, UpdateDisabled)
  }

  /** What an update would go back to is a running MioProxy. */
  predicate Resumable(d: Disk, port: nat) {
    d.update.Some? ==> Shape(d.update.value.settings, port, Enabled)
  }

  /** The settings from before the first enable are in the registry or on record. */
  predicate Held(d: Disk, original: Settings, port: nat) {
    Resumable(d, port) && (Off(d, original) || On(d, original, port) || Paused(d, original, port))
  }

  /** Only the first enabling write happened: a proxy of the user's own is switched on. */
  predicate Bare(d: Disk, original: Settings) {
    d.file.Some? && d.file.value.settings == original && d.registry == original.(enable := Some(1))
  }

  predicate AnyShape(s: Settings, port: nat) {
    Shape(s, port, Enabled) || Shape(s, port, UpdateDisabled)
  }

  /** A restore stopped part of the way. */
  ghost predicate Torn(d: Disk, original: Settings, port: nat) {
    && d.file.Some? && d.file.value.settings == original
    && exists x, j :: AnyShape(x, port) && 1 <= j < 5 && d.registry == Restored(x, original, j)
  }

  ghost predicate CrashPoint(d: Disk, original: Settings, port: nat) {
    Resumable(d, port) && (Held(d, original, port) || Bare(d, original) || Torn(d, original, port))
  }

  /** Every one of these disks has the registry as some number of a burst's writes leaves it. */
  ghost predicate StepsOf(
      disks: seq<Disk>, before: Settings, ws: seq<Write>, file: Option<Snapshot>, update: Option<Snapshot>)
  {
    forall d <- disks :: exists k :: 0 <= k <= |ws| && d == Disk(PutAll(before, ws[..k]), file, update)
  }

  lemma StepsGrow(
      disks: seq<Disk>, before: Settings, ws: seq<Write>, n: nat, file: Option<Snapshot>, update: Option<Snapshot>)
    requires n <= |ws| && StepsOf(disks, before, ws, file, update)
    ensures StepsOf(disks + [Disk(PutAll(before, ws[..n]), file, update)], before, ws, file, update)
  {
  }

  /** While settings are being given back, every crash still has the original on record. */
  lemma RestoringIsCrashable(
      disks: seq<Disk>, before: Settings, original: Settings, port: nat, file: Option<Snapshot>, update: Option<Snapshot>)
    requires AnyShape(before, port) && file.Some? && file.value.settings == original
    requires CrashPoint(Disk(before, file, update), original, port)
    requires StepsOf(disks, before, RestoreWrites(original), file, update)
    ensures forall d <- disks :: CrashPoint(d, original, port)
  {
    hide Shape, Bare;
    forall d | d in disks
      ensures CrashPoint(d, original, port)
    {
      var k :| 0 <= k <= 5 && d == Disk(PutAll(before, RestoreWrites(original)[..k]), file, update);
      RestoreSteps(before, original);
      if 1 <= k < 5 {
        assert d.registry == Restored(before, original, k);
      }
    }
  }

  lemma TornAt(d: Disk, before: Settings, original: Settings, port: nat, n: nat)
    requires AnyShape(before, port) && d.file.Some? && d.file.value.settings == original && n <= 5
    requires d.registry == Restored(before, original, n) && CrashPoint(d.(registry := before), original, port)
    ensures CrashPoint(d, original, port)
  {
    RestoreSteps(before, original);
    if n == 0 {
      assert d == d.(registry := before);
    }
  }

  /** What the next start makes of a crash, with the core gone and no other program on its port. */
  function Recovered(d: Disk, port: nat): Disk {
    if d.file.None? then d
    else if Shape(d.registry, port, Enabled) then d.(registry := d.file.value.settings, file := None)
    else d.(file := None)
  }

  /** A crash after k enabling writes is undone at the next start unless k is one: the single write then left
      switches on the proxy server the user had set but not enabled, and the record of it is dropped. */
  lemma CutEnableRecovers(d: Disk, original: Settings, port: nat, k: nat)
    requires Inactive(original) && k <= 5
    requires d.file.Some? && d.file.value.settings == original && d.registry == Reached(original, original, port, k)
    ensures Recovered(d, port).registry == original <==> k != 1 || AtEndpoint(original, port)
  {
    EnableSteps(original, original, port);
  }

  /** A restore cut after any write but the last is never resumed: the next start only drops the record. */
  lemma CutRestoreIsAbandoned(d: Disk, before: Settings, original: Settings, port: nat, k: nat)
    requires Inactive(original) && AnyShape(before, port) && 1 <= k <= 5
    requires d.file.Some? && d.file.value.settings == original && d.registry == Restored(before, original, k)
    ensures Recovered(d, port) == d.(file := None)
  {
    RestoreValues(before, original);
  }

  /** A session still paused at the next start is given up: the record goes, the settings stay as they are. So the
      original is back if and only if the paused settings were the original ones. */
  lemma PausedIsAbandoned(d: Disk, original: Settings, port: nat)
    requires Paused(d, original, port)
    ensures Recovered(d, port) == d.(file := None)
    ensures Recovered(d, port).registry == original <==> Shape(original, port, UpdateDisabled) && d.registry == original
  {
  }

  /** A take-over may start from the settings of before, all off, or from an enable paused by an update. */
  predicate CanStart(d: Disk, original: Settings, port: nat) {
    && d.file.Some? && d.file.value.settings == original && Inactive(original) && Resumable(d, port)
    && (d.registry == original || Paused(d, original, port))
  }

  /** Whatever number of enabling writes has happened, the original is on record. */
  lemma EnablingAt(d: Disk, original: Settings, port: nat, n: nat)
    requires CanStart(d, original, port) && n <= 5
    ensures var e := d.(registry := Reached(d.registry, original, port, n));
            && CrashPoint(e, original, port)
            && (n >= 2 || (n >= 1 && Paused(d, original, port)) ==> On(e, original, port))
            && (n == 1 && d.registry == original ==> Bare(e, original))
            && (n == 0 ==> e == d)
            && (n == 5 ==> e.registry == FullyOn(port, original))
  {
    EnableSteps(d.registry, original, port);
    hide Reached;
  }

  /** Going back from a paused or running state to a running one passes through nothing else. */
  lemma ResumingIsCrashable(disks: seq<Disk>, d: Disk, to: Settings, original: Settings, port: nat)
    requires AnyShape(d.registry, port) && Shape(to, port, Enabled)
    requires d.file.Some? && d.file.value.settings == original
    requires Resumable(d, port)
    requires StepsOf(disks, d.registry, RestoreWrites(to), d.file, d.update)
    ensures forall e <- disks :: CrashPoint(e, original, port)
  {
    hide HasAutoConfig, AtEndpoint, Torn, Bare;
    forall e | e in disks
      ensures CrashPoint(e, original, port)
    {
      var ws := RestoreWrites(to);
      var k :| 0 <= k <= |ws| && e == Disk(PutAll(d.registry, ws[..k]), d.file, d.update);
      assert e.registry == Restored(d.registry, to, k);
      ResumingAt(d.registry, to, port, k);
    }
  }

  lemma ResumingAt(before: Settings, to: Settings, port: nat, k: nat)
    requires AnyShape(before, port) && Shape(to, port, Enabled) && k <= 5
    ensures k == 0 ==> Restored(before, to, k) == before
    ensures k > 0 ==> Shape(Restored(before, to, k), port, Enabled)
  {
    RestoreSteps(before, to);
    if k > 0 {
      StaysPaused(before, to, port, k);
    }
  }

  lemma EnabledShape(before: Settings, from: Settings, port: nat)
    ensures Shape(Reached(before, from, port, 5), port, Enabled)
  {
    EnableSteps(before, from, port);
  }

  lemma ReachedIsKnown(before: Settings, from: Settings, port: nat, n: nat)
    requires n <= 5
    ensures KnownStep(Reached(before, from, port, n), before, from, port) || Reached(before, from, port, n) == before
  {
  }

  /** And so it is after any number of writes of the rollback that follows. */
  lemma RollingBackAt(d: Disk, original: Settings, port: nat, n: nat, k: nat)
    requires CanStart(d, original, port) && n <= 5 && k <= 5
    ensures var x := Reached(d.registry, original, port, n);
            CrashPoint(d.(registry := Restored(x, d.registry, k)), original, port)
  {
    var x := Reached(d.registry, original, port, n);
    EnablingAt(d, original, port, n);
    RestoreSteps(x, d.registry);
    var e := d.(registry := Restored(x, d.registry, k));
    if k == 0 {
      assert e == d.(registry := x);
    } else if Paused(d, original, port) {
      StaysPaused(x, d.registry, port, k);
    } else if n >= 2 {
      assert AnyShape(x, port);
      TornAt(e, x, original, port, k);
    } else {
      OneStepBack(x, original, k);
    }
  }

  lemma EnablingIsCrashable(disks: seq<Disk>, d: Disk, original: Settings, port: nat)
    requires CanStart(d, original, port)
    requires StepsOf(disks, d.registry, EnableWrites(port, original), d.file, d.update)
    ensures forall e <- disks :: CrashPoint(e, original, port)
  {
    hide Shape, Bare, CrashPoint, CanStart;
    forall e | e in disks
      ensures CrashPoint(e, original, port)
    {
      var ws := EnableWrites(port, original);
      var k :| 0 <= k <= |ws| && e == Disk(PutAll(d.registry, ws[..k]), d.file, d.update);
      EnablingAt(d, original, port, k);
      assert e == d.(registry := Reached(d.registry, original, port, k));
    }
  }

  lemma RollingBackIsCrashable(disks: seq<Disk>, d: Disk, original: Settings, port: nat, n: nat)
    requires CanStart(d, original, port) && n <= 5
    requires StepsOf(disks, Reached(d.registry, original, port, n), RestoreWrites(d.registry), d.file, d.update)
    ensures forall e <- disks :: CrashPoint(e, original, port)
  {
    hide Shape, Bare, CrashPoint, CanStart;
    forall e | e in disks
      ensures CrashPoint(e, original, port)
    {
      var x, ws := Reached(d.registry, original, port, n), RestoreWrites(d.registry);
      var k :| 0 <= k <= |ws| && e == Disk(PutAll(x, ws[..k]), d.file, d.update);
      RollingBackAt(d, original, port, n, k);
      assert e == d.(registry := Restored(x, d.registry, k));
    }
  }

  /** Giving back settings of some shape at the endpoint keeps that shape from the first write on. */
  lemma StaysPaused(before: Settings, to: Settings, port: nat, k: nat)
    requires AnyShape(before, port) && AnyShape(to, port) && 1 <= k <= 5
    ensures Shape(to, port, UpdateDisabled) ==> Shape(Restored(before, to, k), port, UpdateDisabled)
    ensures Shape(to, port, Enabled) ==> Shape(Restored(before, to, k), port, Enabled)
  {
    RestoreValues(before, to);
  }

  /** A single enabling write is undone by the first write of the rollback. */
  lemma OneStepBack(before: Settings, to: Settings, k: nat)
    requires before.(enable := to.enable) == to && 1 <= k <= 5
    ensures Restored(before, to, k) == to
  {
    RestoreValues(before, to);
  }

  /** The disks passed through by the first n writes of a burst, whatever other programs write in between. */
  function RacedDisks(
      others: nat -> Option<Settings>, d: Disk, ws: seq<Write>, first: nat, n: nat): seq<Disk>
    requires n <= |ws|
  {
    if n == 0 then []
    else RacedDisks(others, d, ws, first, n - 1) + [d.(registry := Raced(others, d.registry, ws, first, n))]
  }

  lemma {:induction false} RacedDisksAlone(
      others: nat -> Option<Settings>, d: Disk, ws: seq<Write>, first: nat, n: nat)
    requires n <= |ws| && forall m | first <= m < first + n :: others(m).None?
    ensures StepsOf(RacedDisks(others, d, ws, first, n), d.registry, ws, d.file, d.update)
  {
    if n > 0 {
      hide StepsOf, PutAll, Raced;
      RacedDisksAlone(others, d, ws, first, n - 1);
      RacedAlone(others, d.registry, ws, first, n);
      StepsGrow(RacedDisks(others, d, ws, first, n - 1), d.registry, ws, n, d.file, d.update);
    }
  }

  // ---------- what is logged ----------

  datatype Entry = Saw(settings: Settings) | Wrote(write: Write)

  function Wrotes(ws: seq<Write>): (entries: seq<Entry>)
    ensures |entries| == |ws|
  {
    seq(|ws|, i requires 0 <= i < |ws| => Wrote(ws[i]))
  }

  lemma RacedStep(others: nat -> Option<Settings>, d: Disk, ws: seq<Write>, first: nat, n: nat)
    requires n < |ws|
    ensures var next := Put(Overtaken(others, Raced(others, d.registry, ws, first, n), first + n), ws[n]);
            && Raced(others, d.registry, ws, first, n + 1) == next
            && RacedDisks(others, d, ws, first, n + 1)
               == RacedDisks(others, d, ws, first, n) + [d.(registry := next)]
    ensures Wrotes(ws[..n + 1]) == Wrotes(ws[..n]) + [Wrote(ws[n])]
  {
  }

  ghost predicate NoWrites(entries: seq<Entry>) {
    forall e <- entries :: e.Saw?
  }

  ghost predicate Burst(entries: seq<Entry>, seen: seq<Entry>, ws: seq<Write>, n: nat) {
    n <= |ws| && entries == seen + Wrotes(ws[..n])
  }

  lemma HasWrites(entries: seq<Entry>, seen: seq<Entry>, ws: seq<Write>, n: nat)
    requires Burst(entries, seen, ws, n) && n > 0
    ensures !NoWrites(entries)
  {
    assert entries[|seen|] == Wrote(ws[0]) && entries[|seen|] in entries;
  }

  /** The step of a rollback, counted from its first, at which its writes begin. */
  const UNDO_AT := 4

  /** A rollback writes only after two readings in a row that both show the same step of its own enable. */
  ghost predicate RollbackLog(entries: seq<Entry>, before: Settings, from: Settings, port: nat) {
    || NoWrites(entries)
    || exists x, n :: KnownStep(x, before, from, port) && Burst(entries, [Saw(x), Saw(x)], RestoreWrites(before), n)
  }

  ghost predicate AttemptShape(
      entries: seq<Entry>, x: Settings, from: Settings, port: nat, n: nat, looks: seq<Entry>, tail: seq<Entry>)
  {
    && n <= 5 && NoWrites(looks) && RollbackLog(tail, x, from, port)
    && entries == [Saw(x)] + Wrotes(EnableWrites(port, from)[..n]) + looks + tail
  }

  /** What a take-over from x, with `from` to return to, logs after its first look. */
  ghost predicate AttemptLog(entries: seq<Entry>, x: Settings, from: Settings, port: nat) {
    NoWrites(entries) || exists n, looks, tail :: AttemptShape(entries, x, from, port, n, looks, tail)
  }

  /** The settings an enable that saw x returns to: those just seen, or those on record if x is its own pause. */
  function Source(x: Settings, record: Option<Snapshot>, resuming: bool): Settings {
    if resuming && record.Some? then record.value.settings else x
  }

  lemma SourceIsOriginal(x: Settings, record: Option<Snapshot>, original: Settings)
    ensures x == original && (record.Some? ==> record.value.settings == original) ==>
              forall resuming :: Source(x, record, resuming) == original
  {
  }

  predicate CanResume(x: Settings, record: Option<Snapshot>, port: nat) {
    record.Some? && Shape(x, port, UpdateDisabled)
  }

  /** An enable writes only after two readings in a row that show the same settings with every proxy off. */
  ghost predicate EnableLog(entries: seq<Entry>, record: Option<Snapshot>, port: nat) {
    || NoWrites(entries)
    || (exists x, resuming :: |entries| > 0 && entries[0] == Saw(x) && Inactive(x)
                              && (resuming ==> CanResume(x, record, port))
                              && AttemptLog(entries[1..], x, Source(x, record, resuming), port))
  }

  /** Settings are given back only right after a reading that shows MioProxy's own. */
  ghost predicate RestoreLog(entries: seq<Entry>, port: nat) {
    || NoWrites(entries)
    || exists x, to, n :: Shape(x, port, Enabled) && Burst(entries, [Saw(x)], RestoreWrites(to), n)
  }

  // ---------- the running program ----------

  /** Steps of an enable: after its second look, after its own writes, where the writes of a rollback would begin,
      and after its last look at Windows. */
  datatype Marks = Marks(looked: nat, written: nat, undo: nat, done: nat)

  datatype Command = TurnOn | TurnOff | Relaunch

  predicate EndsWith(commands: seq<Command>, last: Command) {
    commands != [] && commands[|commands| - 1] == last
  }

  class SystemProxy {
    const port: nat
    /** What another program writes just before a given step of ours. */
    const others: nat -> Option<Settings>
    const faults: nat -> bool
    const listening: nat -> set<Option<nat>>
    /** The process id of an authenticated managed core, if there is one. */
    const ready: nat -> Option<nat>
    const running: nat -> bool

    var step: nat
    var registry: Settings
    var memory: Option<Snapshot>
    var file: Option<Snapshot>
    var update: Option<Snapshot>
    ghost const original: Settings
    ghost var log: seq<Entry>
    ghost var trace: seq<Disk>

    function Durable(): Disk
      reads this
    {
      Disk(registry, file, update)
    }

    /** Every snapshot on record shows a proxy that is off. */
    ghost predicate Valid()
      reads this
    {
      && (memory.Some? ==> Inactive(memory.value.settings))
      && (file.Some? ==> Inactive(file.value.settings))
    }

    /** No other program writes before any step from `from` up to `to`. */
    ghost predicate Silent(from: nat, to: nat) {
      forall m | from <= m < to :: others(m).None?
    }

    ghost predicate Crashable()
      reads this
    {
      forall d <- trace :: CrashPoint(d, original, port)
    }

    method Attempt() returns (ok: bool)
      modifies `step
      ensures step == old(step) + 1 && ok == !faults(old(step))
    {
      ok := !faults(step);
      step := step + 1;
    }

    method ReadSettings() returns (r: Result<Settings>)
      modifies `step, `registry, `log
      ensures step == old(step) + 1 && registry == Overtaken(others, old(registry), old(step))
      ensures r.Err? <==> faults(old(step))
      ensures r.Ok? ==> r.value == registry && log == old(log) + [Saw(registry)]
      ensures r.Err? ==> log == old(log)
    {
      if others(step).Some? {
        registry := others(step).value;
      }
      var ok := Attempt();
      if ok {
        log := log + [Saw(registry)];
      }
      r := if ok then Ok(registry) else Err;
    }

    ghost predicate NoFaults(from: nat, to: nat) {
      forall m | from <= m < to :: !faults(m)
    }

    method WriteOne(w: Write) returns (ok: bool)
      modifies `step, `registry, `log, `trace
      ensures step == old(step) + 1 && ok == !faults(old(step))
      ensures log == if ok then old(log) + [Wrote(w)] else old(log)
      ensures trace == if ok then old(trace) + [Durable()] else old(trace)
      ensures registry == var seen := Overtaken(others, old(registry), old(step)); if ok then Put(seen, w) else seen
    {
      if others(step).Some? {
        registry := others(step).value;
      }
      ok := Attempt();
      if ok {
        registry := Put(registry, w);
        log := log + [Wrote(w)];
        trace := trace + [Durable()];
      }
    }

    /** One write after another until one fails. */
    method WriteEach(ws: seq<Write>) returns (ok: bool, ghost n: nat)
      modifies `step, `registry, `log, `trace
      ensures n <= |ws| && (ok <==> n == |ws|) && step == old(step) + n + if ok then 0 else 1
      ensures if ok then NoFaults(old(step), step) else faults(step - 1)
      ensures log == old(log) + Wrotes(ws[..n])
      ensures registry == Left(others, old(registry), ws, old(step), n)
      ensures trace == old(trace) + RacedDisks(others, old(Durable()), ws, old(step), n)
    {
      ghost var d := Durable();
      n := 0;
      assert Wrotes(ws[..0]) == [] && Raced(others, registry, ws, step, 0) == registry
             && RacedDisks(others, d, ws, step, 0) == [];
      hide Wrotes, Overtaken, Raced, RacedDisks, Put;
      for i := 0 to |ws|
        invariant n == i && step == old(step) + i && NoFaults(old(step), step)
        invariant log == old(log) + Wrotes(ws[..i])
        invariant registry == Raced(others, d.registry, ws, old(step), i)
        invariant trace == old(trace) + RacedDisks(others, d, ws, old(step), i)
      {
        RacedStep(others, d, ws, old(step), i);
        ok := WriteOne(ws[i]);
        if !ok {
          return;
        }
        n := i + 1;
      }
      ok := true;
    }

    /** A burst of writes and the notification that ends it. */
    method WriteAll(ws: seq<Write>) returns (ok: bool, ghost n: nat)
      modifies `step, `registry, `log, `trace
      ensures n <= |ws| && (ok ==> n == |ws|) && (!ok ==> step > old(step) && faults(step - 1))
      ensures old(step) + n < step && (ok ==> NoFaults(old(step), step))
      ensures log == old(log) + Wrotes(ws[..n])
      ensures registry == Left(others, old(registry), ws, old(step), n)
      ensures Silent(old(step), step) ==> registry == PutAll(old(registry), ws[..n])
      ensures old(trace) <= trace
      ensures Silent(old(step), step) ==> StepsOf(trace[|old(trace)|..], old(registry), ws, file, update)
    {
      ghost var d := Durable();
      hide PutAll, Wrotes, StepsOf, Raced, RacedDisks;
      ok, n := WriteEach(ws);
      if Silent(old(step), step) {
        RacedAlone(others, d.registry, ws, old(step), n);
        RacedDisksAlone(others, d, ws, old(step), n);
        assert trace[|old(trace)|..] == RacedDisks(others, d, ws, old(step), n);
      }
      if ok {
        ok := Attempt();
      }
    }

    method Listeners() returns (r: Result<set<Option<nat>>>)
      modifies `step
      ensures step == old(step) + 1
      ensures r == if faults(old(step)) then Err else Ok(listening(old(step)))
    {
      r := if faults(step) then Err else Ok(listening(step));
      step := step + 1;
    }

    method ManagedListener(listeners: set<Option<nat>>) returns (r: Result<Option<nat>>)
      modifies `step
      ensures step == old(step) + 1 && (r.Err? <==> faults(old(step)))
      ensures r.Ok? ==> r.value == if ready(old(step)).Some? && BelongTo(listeners, ready(old(step)).value)
                                   then ready(old(step)) else None
    {
      var candidate := ready(step);
      var ok := Attempt();
      if !ok {
        return Err;
      }
      r := Ok(if candidate.Some? && BelongTo(listeners, candidate.value) then candidate else None);
    }

    /** The listener a restore may trust: the recorded one if it still holds the port, else the current managed core. */
    method RestoreListenerPid(snapshot: Snapshot, listeners: set<Option<nat>>) returns (r: Result<Option<nat>>)
      modifies `step
      ensures if listeners == {} || (snapshot.pid.Some? && BelongTo(listeners, snapshot.pid.value)) then
                r == Ok(snapshot.pid) && step == old(step)
              else
                && step == old(step) + 1 && (r.Err? <==> faults(old(step)))
                && (r.Ok? ==> r.value == if ready(old(step)).Some? && BelongTo(listeners, ready(old(step)).value)
                                         then ready(old(step)) else None)
    {
      if listeners == {} || (snapshot.pid.Some? && forall l <- listeners :: l == Some(snapshot.pid.value)) {
        return Ok(snapshot.pid);
      }
      r := ManagedListener(listeners);
    }

    method Managed() returns (r: Result<Option<Snapshot>>)
      modifies `step
      ensures step == old(step) + if memory.Some? then 0 else 1
      ensures r.Err? <==> memory.None? && faults(old(step))
      ensures r.Ok? ==> r.value == if memory.Some? then memory else file
    {
      if memory.Some? {
        return Ok(memory);
      }
      var ok := Attempt();
      r := if ok then Ok(file) else Err;
    }

    method Persist(snapshot: Snapshot) returns (ok: bool)
      modifies `step, `file, `trace
      ensures step == old(step) + 1 && ok == !faults(old(step))
      ensures file == if ok then Some(snapshot) else old(file)
      ensures trace == if ok then old(trace) + [Durable()] else old(trace)
    {
      ok := Attempt();
      if ok {
        file := Some(snapshot);
        trace := trace + [Durable()];
      }
    }

    method StoreManaged(snapshot: Snapshot) returns (ok: bool)
      modifies `step, `file, `memory, `trace
      ensures step == old(step) + 1 && ok == !faults(old(step))
      ensures file == if ok then Some(snapshot) else old(file)
      ensures memory == if ok then Some(snapshot) else old(memory)
      ensures trace == if ok then old(trace) + [Durable()] else old(trace)
    {
      ok := Persist(snapshot);
      if ok {
        memory := Some(snapshot);
      }
    }

    method Forget() returns (ok: bool)
      modifies `step, `file, `memory, `trace
      ensures step == old(step) + 1 && ok == !faults(old(step))
      ensures file == if ok then None else old(file)
      ensures memory == if ok then None else old(memory)
      ensures trace == if ok then old(trace) + [Durable()] else old(trace)
    {
      ok := Attempt();
      if ok {
        file, memory := None, None;
        trace := trace + [Durable()];
      }
    }

    method SetUpdate(snapshot: Option<Snapshot>) returns (ok: bool)
      modifies `step, `update, `trace
      ensures step == old(step) + 1 && ok == !faults(old(step))
      ensures update == if ok then snapshot else old(update)
      ensures trace == if ok then old(trace) + [Durable()] else old(trace)
    {
      ok := Attempt();
      if ok {
        update := snapshot;
        trace := trace + [Durable()];
      }
    }

    /** `write_snapshot` */
    method GiveBack(to: Settings) returns (ok: bool, ghost n: nat)
      modifies `step, `registry, `log, `trace
      ensures n <= 5 && old(step) <= step
      ensures ok ==> n == 5 && NoFaults(old(step), step)
      ensures !ok ==> step > old(step) && faults(step - 1)
      ensures old(log) <= log && old(trace) <= trace && Burst(log[|old(log)|..], [], RestoreWrites(to), n)
      ensures registry == Left(others, old(registry), RestoreWrites(to), old(step), n)
      ensures Silent(old(step), step) ==> registry == Restored(old(registry), to, n) && (n == 5 ==> registry == to)
      ensures Silent(old(step), step) ==> (n == 0 ==> registry == old(registry))
      ensures Silent(old(step), step) ==> StepsOf(trace[|old(trace)|..], old(registry), RestoreWrites(to), file, update)
    {
      RestoreSteps(registry, to);
      assert |RestoreWrites(to)| == 5;
      hide PutAll, RestoreWrites, Wrotes, StepsOf, Left;
      ok, n := WriteAll(RestoreWrites(to));
      assert log[|old(log)|..] == [] + Wrotes(RestoreWrites(to)[..n]);
    }

    method OwnsStep(seen: Settings, before: Settings, from: Settings, pid: nat) returns (r: Result<bool>)
      modifies `step
      ensures step == old(step) + 1 && (r.Err? ==> faults(old(step)))
      ensures r.Ok? ==> (r.value <==> KnownStep(seen, before, from, port) && ListenersAllow(listening(old(step)), pid))
    {
      var listeners := Listeners();
      if listeners.Err? {
        return Err;
      }
      var owned := StepStillOwned(seen, before, from, port, pid, listeners.value);
      r := Ok(owned);
    }

    /** Another program's write before one of these steps is what the registry holds. */
    ghost predicate OthersWrote(s: Settings, from: nat, to: nat) {
      exists m :: from <= m < to && others(m) == Some(s)
    }

    /** The readings of a rollback: Some if the settings may be put back, and then both showed this step. */
    method ConfirmStep(before: Settings, from: Settings, pid: nat) returns (r: Result<Option<bool>>)
      modifies `step, `registry, `log
      ensures old(step) < step && old(log) <= log
      ensures registry == old(registry) || OthersWrote(registry, old(step), step)
      ensures r.Err? ==> !NoFaults(old(step), step)
      ensures r == Ok(Some(true)) ==> step == old(step) + UNDO_AT && KnownStep(registry, before, from, port)
                                      && log == old(log) + [Saw(registry), Saw(registry)]
      ensures r == Ok(Some(true)) ==>
                ListenersAllow(listening(old(step) + 1), pid) && ListenersAllow(listening(old(step) + 3), pid)
      ensures r != Ok(Some(true)) ==> NoWrites(log[|old(log)|..])
      ensures r.Ok? && r.value.Some? && !r.value.value ==> registry == before
      ensures Silent(old(step), step) && r == Ok(None) ==>
                && old(registry) != before
                && (KnownStep(registry, before, from, port) ==>
                      exists m :: old(step) <= m < step && !ListenersAllow(listening(m), pid))
    {
      hide KnownStep, ListenersAllow;
      r := Err;
      var observed := ReadSettings();
      if observed.Err? {
        return;
      }
      if observed.value == before {
        return Ok(Some(false));
      }
      var owned := OwnsStep(observed.value, before, from, pid);
      if owned.Err? || !owned.value {
        return if owned.Err? then Err else Ok(None);
      }
      var confirmed := ReadSettings();
      if confirmed.Err? {
        return;
      }
      var still := OwnsStep(confirmed.value, before, from, pid);
      if still.Err? || confirmed.value != observed.value || !still.value {
        return if still.Err? then Err else Ok(None);
      }
      r := Ok(Some(true));
    }

    /** What a rollback from the known step x leaves after n of its writes, other programs writing in between. */
    ghost predicate RacedUndo(s: Settings, x: Settings, n: nat, before: Settings, from: Settings, begun: nat) {
      n <= 5 && KnownStep(x, before, from, port) && s == Left(others, x, RestoreWrites(before), begun + UNDO_AT, n)
    }

    /** `restore_failed_enable_if_still_owned`. Its writes, if it makes any, begin with its fifth step. Unless
        another program writes between the confirming reading and the last write, it puts back exactly the
        settings of before or leaves the registry alone, whatever was written earlier. */
    method RestoreFailedEnable(before: Settings, from: Settings, pid: nat) returns (r: Result<bool>)
      modifies `step, `registry, `log, `trace
      ensures old(step) < step && old(log) <= log && old(trace) <= trace
      ensures RollbackLog(log[|old(log)|..], before, from, port)
      ensures NoWrites(log[|old(log)|..]) ==> registry == old(registry) || OthersWrote(registry, old(step), step)
      ensures !NoWrites(log[|old(log)|..]) ==> exists x, n :: RacedUndo(registry, x, n, before, from, old(step))
      ensures Silent(old(step) + UNDO_AT, step) && NoFaults(old(step) + UNDO_AT, step) ==>
                registry == before || NoWrites(log[|old(log)|..])
      ensures Silent(old(step) + UNDO_AT, step) && r.Ok? && r.value ==> registry == before
      ensures r.Ok? && !r.value ==> NoWrites(log[|old(log)|..])
      ensures Silent(old(step), step) && r.Ok? && !r.value ==>
                && registry == old(registry) && old(registry) != before
                && (KnownStep(registry, before, from, port) ==>
                      exists m :: old(step) <= m < step && !ListenersAllow(listening(m), pid))
      ensures Silent(old(step), step) && r.Err? ==>
                && !NoFaults(old(step), step)
                && exists j :: 0 <= j <= 5 && registry == Restored(old(registry), before, j)
      ensures Silent(old(step), step) ==> StepsOf(trace[|old(trace)|..], old(registry), RestoreWrites(before), file, update)
    {
      RestoreSteps(registry, before);
      assert |RestoreWrites(before)| == 5;
      hide PutAll, RestoreWrites, KnownStep, Wrotes, Restored, ListenersAllow, Left;
      var confirmed := ConfirmStep(before, from, pid);
      if confirmed.Err? || confirmed.value.None? {
        return if confirmed.Err? then Err else Ok(false);
      }
      if !confirmed.value.value {
        return Ok(true);
      }
      ghost var x := registry;
      ghost var seen := [Saw(x), Saw(x)];
      RestoreSteps(x, before);
      var ok, n := GiveBack(before);
      assert Burst(log[|old(log)|..], seen, RestoreWrites(before), n) by {
        assert log[|old(log)|..] == seen + log[|old(log)| + 2..];
      }
      assert RacedUndo(registry, x, n, before, from, old(step));
      if n == 0 {
        NothingWritten(others, x, RestoreWrites(before), old(step) + UNDO_AT);
      } else {
        HasWrites(log[|old(log)|..], seen, RestoreWrites(before), n);
      }
      r := if ok then Ok(true) else Err;
    }

    ghost predicate CoreOnly() {
      forall n: nat :: listening(n) == {} || (ready(n + 1).Some? && BelongTo(listening(n), ready(n + 1).value))
    }

    ghost predicate Ready()
      reads this
    {
      && Valid() && Crashable() && Keeps(memory, original) && Resumable(Durable(), port)
      && (Off(Durable(), original) || On(Durable(), original, port))
    }

    /** What the registry shows, which listener may be trusted, and whether the settings are still MioProxy's. */
    method Inspect(snapshot: Snapshot) returns (r: Result<(Settings, Option<nat>, bool)>)
      modifies `step, `registry, `log
      ensures old(log) <= log && (Silent(old(step), step) ==> registry == old(registry))
      ensures old(step) < step && (r.Err? ==> NoWrites(log[|old(log)|..]) && !NoFaults(old(step), step))
      ensures r.Ok? ==> registry == r.value.0 && log == old(log) + [Saw(registry)]
      ensures r.Ok? && r.value.2 ==> Shape(registry, port, Enabled)
      ensures r.Ok? && CoreOnly() && Shape(registry, port, Enabled) ==> r.value.2
    {
      hide Shape;
      var current := ReadSettings();
      if current.Err? {
        return Err;
      }
      var listeners := Listeners();
      if listeners.Err? {
        return Err;
      }
      var expected := RestoreListenerPid(snapshot, listeners.value);
      if expected.Err? {
        return Err;
      }
      r := Ok((current.value, expected.value,
               StillOwned(current.value, port, expected.value, listeners.value, Enabled)));
    }

    /** The settings on record are written over what a session left, paused or running. */
    method GiveOriginal(to: Settings) returns (given: bool, ghost n: nat)
      modifies `step, `registry, `log, `trace
      ensures n <= 5 && old(log) <= log && Burst(log[|old(log)|..], [], RestoreWrites(to), n)
      ensures old(step) <= step && (!given ==> !NoFaults(old(step), step)) && (Silent(old(step), step) && given ==> registry == to)
      ensures Silent(old(step), step) && to == original && old(AnyShape(registry, port) && CrashPoint(Durable(), original, port)
                                               && file.Some? && file.value.settings == original && Crashable()) ==>
                Crashable() && CrashPoint(Durable(), original, port)
    {
      hide PutAll, RestoreWrites, Wrotes, StepsOf, CrashPoint, AnyShape, Restored;
      ghost var d := Durable();
      given, n := GiveBack(to);
      if Silent(old(step), step) && to == original && old(AnyShape(registry, port) && CrashPoint(Durable(), original, port)
                                         && file.Some? && file.value.settings == original && Crashable()) {
        RestoringIsCrashable(trace[|old(trace)|..], d.registry, original, port, file, update);
        assert trace == old(trace) + trace[|old(trace)|..];
        assert Durable().(registry := d.registry) == d;
        TornAt(Durable(), d.registry, original, port, n);
      }
    }

    /** Settings just seen to be MioProxy's are replaced by those on record. */
    method HandBack(seen: Settings, to: Settings) returns (given: bool)
      requires log != [] && log[|log| - 1] == Saw(seen) && Shape(seen, port, Enabled)
      modifies `step, `registry, `log, `trace
      ensures old(log) <= log && RestoreLog(log[|old(log)| - 1..], port)
      ensures old(step) <= step && (!given ==> !NoFaults(old(step), step)) && (Silent(old(step), step) && given ==> registry == to)
      ensures Silent(old(step), step) && old(registry) == seen && to == original
              && old(On(Durable(), original, port) && Resumable(Durable(), port) && Crashable()) ==>
                Crashable() && CrashPoint(Durable(), original, port)
    {
      hide PutAll, RestoreWrites, Wrotes, Torn, HasAutoConfig, AtEndpoint, Bare;
      ghost var n;
      given, n := GiveOriginal(to);
      assert Burst(log[|old(log)| - 1..], [Saw(seen)], RestoreWrites(to), n) by {
        assert log[|old(log)| - 1..] == [Saw(seen)] + log[|old(log)|..];
      }
    }

    /** The end of a session: what is still MioProxy's is given back, and the record is dropped. */
    method EndSession(snapshot: Snapshot) returns (ok: bool)
      modifies `step, `registry, `log, `trace, `file, `memory
      ensures old(step) <= step && (!ok ==> !NoFaults(old(step), step))
      ensures old(log) <= log && RestoreLog(log[|old(log)|..], port)
      ensures Silent(old(step), step) && CoreOnly() && old(Ready()) && snapshot.settings == original && Inactive(original) ==>
                && Crashable() && CrashPoint(Durable(), original, port) && Keeps(memory, original)
                && (ok ==> registry == original && file.None? && memory.None?)
      ensures file == old(file) || file == None
      ensures memory == old(memory) || memory == None
      ensures Silent(old(step), step) && ok && !old(Shape(registry, port, Enabled)) ==>
                registry == old(registry) && file.None? && memory.None?
    {
      hide Torn, HasAutoConfig, AtEndpoint, Restored;
      var seen := Inspect(snapshot);
      if seen.Err? {
        return false;
      }
      if seen.value.2 {
        var given := HandBack(seen.value.0, snapshot.settings);
        if !given {
          return false;
        }
      }
      ok := Forget();
    }

    /** `restore_for_lifecycle_inner`: disabling, leaving the program, and the core's exit all come here. */
    method Disable() returns (ok: bool)
      modifies `step, `registry, `log, `trace, `file, `memory
      ensures old(Valid()) ==> Valid()
      ensures old(step) <= step && (!ok ==> !NoFaults(old(step), step))
      ensures old(log) <= log && RestoreLog(log[|old(log)|..], port)
      ensures Silent(old(step), step) && CoreOnly() && old(Ready()) ==>
                && Crashable() && CrashPoint(Durable(), original, port) && Keeps(memory, original)
                && (ok ==> registry == original && file.None? && memory.None?)
      ensures Silent(old(step), step) && old(Paused(Durable(), original, port)) && ok ==>
                registry == old(registry) && file.None? && memory.None?
    {
      var snapshot := Managed();
      if snapshot.Err? {
        return false;
      }
      ok := true;
      if snapshot.value.Some? {
        ok := EndSession(snapshot.value.value);
      }
    }

    /** `recover_stale_state`, run once at startup. */
    method RecoverStale() returns (ok: bool)
      modifies `step, `registry, `log, `trace, `file, `memory
      ensures old(Valid()) ==> Valid()
      ensures old(step) <= step && (!ok ==> !NoFaults(old(step), step))
      ensures old(log) <= log && RestoreLog(log[|old(log)|..], port)
      ensures faults(old(step)) ==>
                !ok && registry == old(registry) && file == old(file) && memory == old(memory) && log == old(log)
      ensures Silent(old(step), step) && NoFaults(old(step), step) && old(file).Some? && !old(Shape(registry, port, Enabled)) ==>
                ok && registry == old(registry) && file.None? && memory.None?
      ensures Silent(old(step), step) && CoreOnly() && old(Ready()) ==>
                && Crashable() && CrashPoint(Durable(), original, port) && Keeps(memory, original)
                && (ok ==> Ready())
      ensures Silent(old(step), step) && CoreOnly() && NoFaults(old(step), step) && (forall n :: !running(n)) ==>
                Durable() == Recovered(old(Durable()), port) && (old(memory).None? ==> memory.None?)
      ensures Silent(old(step), step) && CoreOnly() && NoFaults(old(step), step) && (forall n :: running(n))
              && old(file.Some? && Shape(registry, port, Enabled)) ==>
                registry == old(registry) && memory == file && file.Some? && file.value.settings == old(file).value.settings
    {
      hide Torn, HasAutoConfig, AtEndpoint, Restored;
      var readable := Attempt();
      if !readable {
        return false;
      }
      if file.None? {
        return true;
      }
      var snapshot := file.value;
      var seen := Inspect(snapshot);
      if seen.Err? {
        return false;
      }
      if seen.value.2 && running(step) {
        ok := StoreManaged(Snapshot(snapshot.settings, seen.value.1));
      } else {
        var given := true;
        if seen.value.2 {
          given := HandBack(seen.value.0, snapshot.settings);
        }
        ok := given;
        if given {
          ok := Forget();
        }
      }
    }

    /** The program ends and starts again: what was only in memory is gone. */
    method Restart()
      modifies `memory
      ensures memory == None
    {
      memory := None;
    }

    method Verify(pid: nat) returns (ok: bool)
      modifies `step, `registry, `log
      ensures old(step) < step && old(log) <= log && NoWrites(log[|old(log)|..])
      ensures ok ==> log == old(log) + [Saw(registry)] && Shape(registry, port, Enabled) && ListenersAllow(listening(step - 1), pid)
      ensures registry == old(registry) || OthersWrote(registry, old(step), step)
      ensures Silent(old(step), step) && !ok && Shape(registry, port, Enabled) ==>
                exists m :: old(step) <= m < step && (faults(m) || !ListenersAllow(listening(m), pid))
    {
      var verified := ReadSettings();
      if verified.Err? {
        return false;
      }
      var listeners := Listeners();
      if listeners.Err? {
        return false;
      }
      ok := StillOwned(verified.value, port, Some(pid), listeners.value, Enabled);
    }

    ghost predicate AtMostOneFault(from: nat, to: nat) {
      forall m, n | from <= m < to && from <= n < to && faults(m) && faults(n) :: m == n
    }

    ghost predicate OnlyListener(pid: nat, from: nat, to: nat) {
      forall m | from <= m < to :: ListenersAllow(listening(m), pid)
    }

    /** `write_mioproxy_settings` */
    method WriteEnable(from: Settings) returns (ok: bool, ghost n: nat)
      modifies `step, `registry, `log, `trace
      ensures n <= 5 && old(step) <= step && (ok ==> n == 5)
      ensures ok ==> NoFaults(old(step), step)
      ensures !ok ==> step > old(step) && faults(step - 1)
      ensures log == old(log) + Wrotes(EnableWrites(port, from)[..n])
      ensures Silent(old(step), step) ==> registry == Reached(old(registry), from, port, n)
      ensures Silent(old(step), step) && from == original && old(CanStart(Durable(), original, port) && Crashable()) ==>
                && Crashable() && CrashPoint(Durable(), original, port)
                && (ok ==> registry == FullyOn(port, original))
                && (ok ==> On(Durable(), original, port))
    {
      hide PutAll, CanStart, StepsOf, CrashPoint, Wrotes, HasAutoConfig, On;
      ghost var d := Durable();
      ok, n := WriteAll(EnableWrites(port, from));
      if Silent(old(step), step) && from == original && old(CanStart(Durable(), original, port) && Crashable()) {
        EnablingAt(d, original, port, n);
        assert Durable() == d.(registry := Reached(d.registry, original, port, n));
        EnablingIsCrashable(trace[|old(trace)|..], d, original, port);
        assert trace == old(trace) + trace[|old(trace)|..];
      }
    }

    /** The rollback of an enable that got n writes far. */
    method UndoEnable(before: Settings, from: Settings, pid: nat, ghost n: nat) returns (restored: bool)
      modifies `step, `registry, `log, `trace
      ensures old(log) <= log && old(step) < step
      ensures RollbackLog(log[|old(log)|..], before, from, port)
      ensures restored && Silent(old(step) + UNDO_AT, step) ==> registry == before
      ensures Silent(old(step) + UNDO_AT, step) && NoFaults(old(step) + UNDO_AT, step) ==>
                registry == before || registry == old(registry) || OthersWrote(registry, old(step), step)
      ensures Silent(old(step), step) && n <= 5 && old(registry) == Reached(before, from, port, n) ==>
                && (!restored && OnlyListener(pid, old(step), step) ==> !NoFaults(old(step), step))
                && (!restored && NoFaults(old(step), step) ==> registry == old(registry))
      ensures Silent(old(step), step) && from == original && n <= 5 && old(registry) == Reached(before, original, port, n)
              && old(CanStart(Durable().(registry := before), original, port) && Crashable()) ==>
                Crashable() && CrashPoint(Durable(), original, port)
    {
      hide Reached, Restored, KnownStep, CanStart, RollbackLog, StepsOf, ListenersAllow, CrashPoint, RacedUndo;
      var r := RestoreFailedEnable(before, from, pid);
      restored := r.Ok? && r.value;
      if n <= 5 {
        ReachedIsKnown(before, from, port, n);
      }
      if Silent(old(step), step) && from == original && n <= 5 && old(registry) == Reached(before, original, port, n)
         && old(CanStart(Durable().(registry := before), original, port) && Crashable()) {
        ghost var d := old(Durable()).(registry := before);
        RollingBackIsCrashable(trace[|old(trace)|..], d, original, port, n);
        assert trace == old(trace) + trace[|old(trace)|..];
        EnablingAt(d, original, port, n);
        assert Durable() == d.(registry := registry);
        if r.Err? {
          ghost var j :| 0 <= j <= 5 && registry == Restored(old(registry), before, j);
          RollingBackAt(d, original, port, n, j);
        } else if r.value {
          RollingBackAt(d, original, port, n, 5);
          RestoreSteps(old(registry), before);
        }
      }
    }

    /** The five writes and their verification. */
    method WriteAndVerify(from: Settings, pid: nat)
      returns (ok: bool, ghost n: nat, ghost looks: seq<Entry>, ghost written: nat)
      modifies `step, `registry, `log, `trace
      ensures n <= 5 && old(step) <= written <= step && old(step) < step && NoWrites(looks) && (ok ==> n == 5)
      ensures log == old(log) + Wrotes(EnableWrites(port, from)[..n]) + looks
      ensures Silent(old(step), written) ==>
                registry == Reached(old(registry), from, port, n) || OthersWrote(registry, written, step)
      ensures Silent(old(step), step) ==>
                && registry == Reached(old(registry), from, port, n)
                && (!ok && OnlyListener(pid, old(step), step) ==> !NoFaults(old(step), step))
      ensures ok ==> looks == [Saw(registry)] && Shape(registry, port, Enabled) && ListenersAllow(listening(step - 1), pid)
      ensures n < 5 ==> !NoFaults(old(step), step)
      ensures Silent(old(step), step) && from == original && old(CanStart(Durable(), original, port) && Crashable()) ==>
                && Crashable() && CrashPoint(Durable(), original, port)
                && (n == 5 ==> On(Durable(), original, port))
    {
      assert |EnableWrites(port, from)| == 5;
      ghost var d := Durable();
      EnabledShape(registry, from, port);
      hide Reached, CanStart, CrashPoint, Wrotes, EnableWrites, HasAutoConfig, Bypass, Endpoint;
      looks := [];
      ok, n := WriteEnable(from);
      written := step;
      if ok {
        label Written:
        ok := Verify(pid);
        looks := log[|old@Written(log)|..];
      } else if Silent(old(step), step) && from == original && old(CanStart(Durable(), original, port)) && n == 5 {
        EnablingAt(d, original, port, 5);
        assert Durable() == d.(registry := registry);
      }
    }

    /** Without a write of another program during the two bursts themselves, nothing is mixed: the registry ends as
        it was, at a step of this enable, or with what another program wrote last. */
    ghost predicate Unmixed(x: Settings, from: Settings, marks: Marks)
      reads this
    {
      Silent(marks.looked, marks.written) && Silent(marks.undo, marks.done) && NoFaults(marks.undo, marks.done) ==>
        || registry == x || KnownStep(registry, x, from, port)
        || OthersWrote(registry, marks.written, marks.done)
    }

    /** The five writes and their verification, rolled back when they fail. */
    method WriteVerified(current: Settings, from: Settings, pid: nat)
      returns (ok: bool, restored: bool, ghost marks: Marks)
      requires log != [] && log[|log| - 1] == Saw(current) && registry == current
      modifies `step, `registry, `log, `trace
      ensures old(log) <= log && !(ok && restored)
      ensures old(step) == marks.looked <= marks.written <= step == marks.done && old(step) < step
      ensures AttemptLog(log[|old(log)| - 1..], current, from, port)
      ensures Unmixed(current, from, marks)
      ensures ok ==> log[|log| - 1] == Saw(registry) && Shape(registry, port, Enabled) && ListenersAllow(listening(step - 1), pid)
      ensures restored && Silent(marks.undo, step) ==> registry == current
      ensures Silent(old(step), step) && NoFaults(old(step), step) && OnlyListener(pid, old(step), step) ==> ok
      ensures Silent(old(step), step) ==>
                && (ok ==> registry == FullyOn(port, from))
                && (!ok && AtMostOneFault(old(step), step) && OnlyListener(pid, old(step), step) ==> restored)
                && (restored ==> registry == current)
      ensures Silent(old(step), step) && from == original && old(CanStart(Durable(), original, port) && Crashable()) ==>
                && Crashable() && CrashPoint(Durable(), original, port)
                && (ok ==> On(Durable(), original, port))
                && (NoFaults(old(step), step) ==> restored || On(Durable(), original, port))
    {
      assert |EnableWrites(port, from)| == 5 && RollbackLog([], current, from, port);
      EnableSteps(current, from, port);
      hide Reached, CanStart, RollbackLog, CrashPoint, Wrotes, EnableWrites, Shape, ListenersAllow, KnownStep, FullyOn;
      ghost var d := Durable();
      restored := false;
      ghost var n, looks, tail, written;
      ok, n, looks, written := WriteAndVerify(from, pid);
      ReachedIsKnown(current, from, port, n);
      tail := [];
      marks := Marks(old(step), written, step, step);
      if !ok {
        assert Silent(old(step), step) ==> Durable().(registry := current) == d;
        label Failed:
        restored := UndoEnable(current, from, pid, n);
        tail := log[|old@Failed(log)|..];
        marks := Marks(old(step), written, old@Failed(step) + UNDO_AT, step);
      }
      assert log[|old(log)| - 1..] == [Saw(current)] + Wrotes(EnableWrites(port, from)[..n]) + looks + tail;
      assert AttemptShape(log[|old(log)| - 1..], current, from, port, n, looks, tail);
    }

    /** Enabled just now: all five values are MioProxy's, and both records hold the original. */
    ghost predicate Fresh(pid: nat)
      reads this
    {
      && registry == FullyOn(port, original)
      && memory == file == Some(Snapshot(original, Some(pid))) && update.None? && On(Durable(), original, port)
    }

    ghost predicate MayTakeOver(current: Settings, resuming: bool)
      reads this
    {
      && registry == current && Inactive(current) && Inactive(original)
      && Crashable() && Keeps(memory, original) && Resumable(Durable(), port)
      && ((current == original && Keeps(file, original)) || (resuming && Paused(Durable(), original, port)))
    }

    /** The settings to return to go on record, and Windows is looked at once more. */
    method Prepare(current: Settings, snapshot: Snapshot, resuming: bool) returns (ready: bool)
      requires Inactive(snapshot.settings)
      modifies `step, `registry, `log, `trace, `file, `memory
      ensures old(Valid()) ==> Valid()
      ensures old(log) <= log && old(step) < step
      ensures if ready then log == old(log) + [Saw(current)] else NoWrites(log[|old(log)|..])
      ensures !ready && !resuming && Silent(old(step), step) && AtMostOneFault(old(step), step) && old(registry) == current ==>
                file == old(file) || file.None?
      ensures Silent(old(step), step) && NoFaults(old(step), step) && old(registry) == current ==> ready
      ensures ready ==> file == Some(snapshot) && memory == old(memory) && registry == current
      ensures Silent(old(step), step) && snapshot.settings == original && old(MayTakeOver(current, resuming)) ==>
                MayTakeOver(current, resuming) && (ready ==> CanStart(Durable(), original, port))
    {
      hide Shape, HasAutoConfig, Inactive, Torn, Bare;
      ready := Persist(snapshot);
      if ready {
        var again := ReadSettings();
        ready := again.Ok? && again.value == current;
        if !ready && !resuming {
          var _ := Forget();
        }
      }
    }

    /** The settings of before, or those of a finished enable. */
    ghost predicate Whole(s: Settings, x: Settings, from: Settings) {
      s == x || s == FullyOn(port, from)
    }

    /** What an enable without failures leaves when it saw every proxy off: the five values are MioProxy's, with the
        bypass list of the settings to return to unless that is blank, and those settings are on record twice. */
    ghost predicate TurnedOn(from: Settings, pid: nat)
      reads this
    {
      && registry == Settings(
           Some(1), Some("127.0.0.1:" + Decimal(port)),
           Some(if from.bypass.Some? && !IsBlank(from.bypass.value) then from.bypass.value else "<local>"), None, None)
      && file == Some(Snapshot(from, Some(pid))) && memory == file && update.None?
    }

    /** And when it saw the settings that are MioProxy's own: the listener on record is brought up to date. */
    ghost predicate StayedOn(x: Settings, record: Snapshot, pid: nat)
      reads this
    {
      registry == x && update.None? && (record.pid != Some(pid) ==> file == Some(Snapshot(record.settings, Some(pid))) && memory == file)
    }

    /** From the decision to enable: prepare, write and verify, record. */
    method TakeOver(current: Settings, from: Settings, pid: nat, resuming: bool) returns (ok: bool, ghost marks: Marks)
      requires Inactive(from)
      modifies `step, `registry, `log, `trace, `file, `memory, `update
      ensures old(Valid()) ==> Valid()
      ensures old(log) <= log && old(step) <= marks.looked <= marks.written <= marks.done <= step
      ensures AttemptLog(log[|old(log)|..], current, from, port)
      ensures NoWrites(log[|old(log)|..]) || Unmixed(current, from, marks)
      ensures ok ==> 0 < marks.done && Shape(registry, port, Enabled) && ListenersAllow(listening(marks.done - 1), pid)
      ensures ok && Silent(marks.looked, marks.done) ==> registry == FullyOn(port, from)
      ensures Silent(old(step), step) && NoFaults(old(step), step) && OnlyListener(pid, old(step), step) && old(registry) == current ==>
                ok && TurnedOn(from, pid)
      ensures !ok && !resuming && Silent(old(step), step) && AtMostOneFault(old(step), step)
              && OnlyListener(pid, old(step), step) && old(registry) == current ==>
                file == old(file) || file.None? || registry == FullyOn(port, from)
      ensures Calm(marks) && OnlyListener(pid, marks.looked, marks.done) ==>
                NoWrites(log[|old(log)|..]) || Whole(registry, current, from)
      ensures Silent(old(step), step) && from == original && old(MayTakeOver(current, resuming)) ==>
                && Crashable() && CrashPoint(Durable(), original, port) && Keeps(memory, original)
                && (ok ==> Fresh(pid))
                && (NoFaults(old(step), step) ==> registry == current || On(Durable(), original, port))
                && (AtMostOneFault(old(step), step) && OnlyListener(pid, old(step), step) ==>
                      registry == current || On(Durable(), original, port))
    {
      hide Shape, HasAutoConfig, Torn, FullyOn, Inactive, Bare, AttemptLog, KnownStep, TurnedOn, Unmixed, Whole, Calm, Fresh;
      assert AttemptLog([], current, from, port) by {
        NothingLogged(current, from);
      }
      var snapshot := Snapshot(from, Some(pid));
      ok := Prepare(current, snapshot, resuming);
      marks := Marks(step, step, step, step);
      if ok {
        label Ready:
        ok, marks := Commit(current, snapshot, pid, resuming);
        assert log[|old(log)|..] == log[|old@Ready(log)| - 1..];
      } else {
        NothingLoggedAfter(log[|old(log)|..], current, from);
      }
    }

    lemma NothingLogged(current: Settings, from: Settings)
      ensures AttemptLog([], current, from, port)
    {
    }

    lemma NothingLoggedAfter(entries: seq<Entry>, current: Settings, from: Settings)
      requires NoWrites(entries)
      ensures AttemptLog(entries, current, from, port)
    {
    }

    /** The rest of it, right after the second look. */
    method Commit(current: Settings, snapshot: Snapshot, pid: nat, resuming: bool) returns (ok: bool, ghost marks: Marks)
      requires log != [] && log[|log| - 1] == Saw(current) && registry == current
      requires snapshot.pid == Some(pid) && Inactive(snapshot.settings) && file == Some(snapshot)
      modifies `step, `registry, `log, `trace, `file, `memory, `update
      ensures old(Valid()) ==> Valid()
      ensures old(log) <= log && old(step) == marks.looked <= marks.written <= marks.done <= step
      ensures AttemptLog(log[|old(log)| - 1..], current, snapshot.settings, port)
      ensures Unmixed(current, snapshot.settings, marks)
      ensures ok ==> 0 < marks.done && Shape(registry, port, Enabled) && ListenersAllow(listening(marks.done - 1), pid)
      ensures ok && Silent(marks.looked, marks.done) ==> registry == FullyOn(port, snapshot.settings)
      ensures Silent(old(step), step) && NoFaults(old(step), step) && OnlyListener(pid, old(step), step) ==>
                ok && TurnedOn(snapshot.settings, pid)
      ensures !ok && !resuming && Silent(old(step), step) && AtMostOneFault(old(step), step) && OnlyListener(pid, old(step), step) ==>
                file.None? || registry == FullyOn(port, snapshot.settings)
      ensures Calm(marks) && OnlyListener(pid, marks.looked, marks.done) ==> Whole(registry, current, snapshot.settings)
      ensures Silent(old(step), step) && snapshot.settings == original
              && old(MayTakeOver(current, resuming) && CanStart(Durable(), original, port)) ==>
                && Crashable() && CrashPoint(Durable(), original, port) && Keeps(memory, original)
                && (ok ==> Fresh(pid))
                && (NoFaults(old(step), step) ==> registry == current || On(Durable(), original, port))
                && (AtMostOneFault(old(step), step) && OnlyListener(pid, old(step), step) ==>
                      registry == current || On(Durable(), original, port))
    {
      FullyOnShows(port, snapshot.settings);
      hide IsBlank, Decimal, Shape, HasAutoConfig, RollbackLog, Torn, FullyOn, Inactive, Bare, AttemptLog, AttemptShape, Wrotes,
           KnownStep;
      var restored;
      ok, restored, marks := WriteVerified(current, snapshot.settings, pid);
      if ok {
        ok := StoreManaged(snapshot);
        if ok {
          ok := SetUpdate(None);
        }
      } else if !resuming && restored {
        var _ := Forget();
      }
    }

    /** Anything but a cut: off, on, or paused for an update, with the original in the registry or on record. */
    ghost predicate Sound()
      reads this
    {
      Valid() && Crashable() && Keeps(memory, original) && Held(Durable(), original, port)
    }

    /** What an enable decides on: the confirmed listener, the settings in force and the snapshot on record. */
    method Survey() returns (seen: Option<(set<Option<nat>>, nat, Settings, Option<Snapshot>)>)
      modifies `step, `registry, `log
      ensures old(step) < step && old(log) <= log && (Silent(old(step), step) ==> registry == old(registry))
      ensures seen.None? ==> NoWrites(log[|old(log)|..])
      ensures NoFaults(old(step), step) ==> old(step) + 1 < step
      ensures NoFaults(old(step), step) ==>
                (seen.Some? <==> ready(old(step) + 1).Some? && BelongTo(listening(old(step)), ready(old(step) + 1).value))
      ensures seen.Some? ==>
                && log == old(log) + [Saw(seen.value.2)] && registry == seen.value.2
                && seen.value.0 == listening(old(step)) && BelongTo(seen.value.0, seen.value.1)
                && seen.value.3 == if memory.Some? then memory else file
    {
      var listeners := Listeners();
      if listeners.Err? {
        return None;
      }
      var pid := ManagedListener(listeners.value);
      if pid.Err? || pid.value.None? {
        return None;
      }
      var current := ReadSettings();
      if current.Err? {
        return None;
      }
      var existing := Managed();
      seen := if existing.Ok? then Some((listeners.value, pid.value.value, current.value, existing.value)) else None;
    }

    /** Already enabled: the listener on record is brought up to date and a finished update forgotten. */
    method Refresh(existing: Snapshot, pid: nat) returns (ok: bool)
      requires Inactive(existing.settings)
      modifies `step, `file, `memory, `update, `trace
      ensures old(Valid()) ==> Valid()
      ensures old(step) <= step
      ensures !ok ==> update == old(update)
      ensures NoFaults(old(step), step) ==>
                && ok && update.None?
                && if existing.pid != Some(pid) then file == Some(Snapshot(existing.settings, Some(pid))) && memory == file
                   else file == old(file) && memory == old(memory)
      ensures existing.settings == original && old(On(Durable(), original, port) && Resumable(Durable(), port)
                                                   && Crashable() && Keeps(memory, original)) ==>
                On(Durable(), original, port) && Resumable(Durable(), port) && Crashable() && Keeps(memory, original)
    {
      hide Shape, Inactive, Torn, Bare;
      ok := true;
      if existing.pid != Some(pid) {
        ok := StoreManaged(existing.(pid := Some(pid)));
      }
      if ok {
        ok := SetUpdate(None);
      }
    }

    ghost predicate Began(entries: seq<Entry>, x: Settings) {
      entries != [] && entries[0] == Saw(x)
    }

    /** From the second look on, no other program writes and at most one operation fails. */
    ghost predicate Calm(marks: Marks) {
      Silent(marks.looked, marks.done) && AtMostOneFault(marks.looked, marks.done)
    }

    /** What a reading led to: nothing but readings, or a take-over that mixed nothing. */
    ghost predicate Answered(entries: seq<Entry>, record: Option<Snapshot>, marks: Marks, begun: nat)
      reads this
    {
      || NoWrites(entries)
      || exists x, resuming ::
           var from := Source(x, record, resuming);
           && Began(entries, x) && (resuming ==> CanResume(x, record, port)) && Unmixed(x, from, marks)
           && (Calm(marks) && (exists pid :: OnlyListener(pid, begun, step)) ==> Whole(registry, x, from))
    }

    /** The decision and what follows from it, for settings just seen. */
    method Decide(listeners: set<Option<nat>>, pid: nat, current: Settings, existing: Option<Snapshot>)
      returns (ok: bool, ghost marks: Marks)
      requires Valid() && existing == if memory.Some? then memory else file
      requires log != [] && log[|log| - 1] == Saw(current) && BelongTo(listeners, pid)
      modifies `step, `registry, `log, `trace, `file, `memory, `update
      ensures Valid() && old(log) <= log && old(step) <= marks.looked <= marks.written <= marks.done <= step
      ensures EnableLog(log[|old(log)| - 1..], existing, port)
      ensures ok && old(registry) == current ==> Shape(registry, port, Enabled)
      ensures || NoWrites(log[|old(log)| - 1..])
              || exists resuming ::
                   var from := Source(current, existing, resuming);
                   && (resuming ==> CanResume(current, existing, port)) && Unmixed(current, from, marks)
                   && (Calm(marks) && OnlyListener(pid, marks.looked, marks.done) ==> Whole(registry, current, from))
      ensures Silent(old(step), step) && NoFaults(old(step), step) && OnlyListener(pid, old(step), step) && old(registry) == current ==>
                && (ok <==> Inactive(current) || (existing.Some? && Shape(current, port, Enabled)))
                && (Inactive(current) ==> TurnedOn(Source(current, existing, CanResume(current, existing, port)), pid))
                && (ok && !Inactive(current) ==> StayedOn(current, existing.value, pid))
                && (!ok ==> registry == old(registry) && file == old(file) && memory == old(memory) && update == old(update))
      ensures Silent(old(step), step) && old(Sound() && registry == current) ==>
                && Crashable() && CrashPoint(Durable(), original, port) && Keeps(memory, original)
                && (old(On(Durable(), original, port)) ==> On(Durable(), original, port) && registry == old(registry))
                && (ok && !old(On(Durable(), original, port)) ==> Fresh(pid))
                && (NoFaults(old(step), step) ==> registry == current || On(Durable(), original, port))
                && (AtMostOneFault(old(step), step) && OnlyListener(pid, old(step), step) ==>
                      registry == current || On(Durable(), original, port))
    {
      hide AttemptLog, Torn, Bare, Fresh, Endpoint, HasAutoConfig, FullyOn, Unmixed, Whole, TurnedOn, IsBlank;
      ok := false;
      marks := Marks(step, step, step, step);
      var owned := existing.Some? && StillOwned(current, port, Some(pid), listeners, Enabled);
      if CanEnable(ActualState(current, port), existing.Some?, owned) {
        if owned {
          ok := Refresh(existing.value, pid);
        } else {
          var resuming := existing.Some? && StillOwned(current, port, Some(pid), listeners, UpdateDisabled);
          var from := if resuming then existing.value.settings else current;
          assert from == Source(current, existing, resuming) && (resuming ==> CanResume(current, existing, port));
          ok, marks := TakeOver(current, from, pid, resuming);
          ghost var tail := log[|old(log)|..];
          assert log[|old(log)| - 1..] == [Saw(current)] + tail;
          assert NoWrites(tail) ==> NoWrites(log[|old(log)| - 1..]);
        }
      }
    }

    /** Throughout, one process alone listens on the mixed port, and it is the managed core, ready. */
    ghost predicate HeldBy(pid: nat, from: nat, to: nat) {
      forall m | from <= m < to :: listening(m) == {Some(pid)} && ready(m) == Some(pid)
    }

    lemma HeldByOne(p: nat, pid: nat, from: nat, seen: nat, to: nat)
      requires from + 1 < to && from <= seen && BelongTo(listening(from), pid)
      ensures HeldBy(p, from, to) ==> p == pid && OnlyListener(pid, seen, to)
    {
      if HeldBy(p, from, to) {
        assert Some(p) in listening(from);
      }
    }

    lemma HeldIsConfirmed(p: nat, from: nat, to: nat)
      requires from + 1 < to && HeldBy(p, from, to)
      ensures ready(from + 1) == Some(p) && BelongTo(listening(from), p)
    {
      assert Some(p) in listening(from);
    }

    /** `set_enabled(true)` */
    method Enable() returns (ok: bool, ghost marks: Marks)
      requires Valid()
      modifies `step, `registry, `log, `trace, `file, `memory, `update
      ensures Valid() && old(log) <= log && old(step) < step
      ensures old(step) <= marks.looked <= marks.written <= marks.done <= step
      ensures ok ==> Shape(registry, port, Enabled)
      ensures EnableLog(log[|old(log)|..], old(if memory.Some? then memory else file), port)
      ensures Answered(log[|old(log)|..], old(if memory.Some? then memory else file), marks, old(step))
      ensures Silent(old(step), step) && NoFaults(old(step), step) ==>
                var x, record := old(registry), old(if memory.Some? then memory else file);
                && (forall pid | HeldBy(pid, old(step), step) ::
                      && (ok <==> Inactive(x) || (record.Some? && Shape(x, port, Enabled)))
                      && (Inactive(x) ==> TurnedOn(Source(x, record, CanResume(x, record, port)), pid))
                      && (ok && !Inactive(x) ==> StayedOn(x, record.value, pid)))
                && ((ready(old(step) + 1).None? || !BelongTo(listening(old(step)), ready(old(step) + 1).value)) ==>
                      !ok && registry == x && file == old(file) && memory == old(memory) && update == old(update))
      ensures Silent(old(step), step) && old(Sound()) ==>
                && Crashable() && CrashPoint(Durable(), original, port) && Keeps(memory, original)
                && (old(On(Durable(), original, port)) ==> On(Durable(), original, port) && registry == old(registry))
                && (ok && !old(On(Durable(), original, port)) ==> exists pid :: Fresh(pid))
                && (NoFaults(old(step), step) ==> registry == old(registry) || On(Durable(), original, port))
                && (AtMostOneFault(old(step), step) && (exists pid :: OnlyListener(pid, old(step), step)) ==>
                      registry == old(registry) || On(Durable(), original, port))
    {
      hide AttemptLog, Torn, Bare, Fresh, Shape, FullyOn, Unmixed, Whole, TurnedOn, StayedOn, Inactive, CanResume, Source;
      ok := false;
      var seen := Survey();
      marks := Marks(step, step, step, step);
      if NoFaults(old(step), step) {
        forall p | HeldBy(p, old(step), step)
          ensures seen.Some?
        {
          HeldIsConfirmed(p, old(step), step);
        }
      }
      if seen.Some? {
        var (listeners, pid, current, existing) := seen.value;
        label Seen:
        ok, marks := Decide(listeners, pid, current, existing);
        assert log[|old(log)|..] == log[|old@Seen(log)| - 1..];
        assert existing == old(if memory.Some? then memory else file);
        assert Began(log[|old(log)|..], current);
        if NoFaults(old(step), step) {
          forall p | HeldBy(p, old(step), step)
            ensures p == pid && OnlyListener(pid, old@Seen(step), step)
          {
            HeldByOne(p, pid, old(step), old@Seen(step), step);
          }
        }
        if p :| OnlyListener(p, old(step), step) {
          SameListener(listeners, pid, p);
        }
      }
    }

    /** Whoever listens on the mixed port meanwhile is the process on record. */
    ghost predicate Allowed(record: Option<Snapshot>, from: nat, to: nat) {
      record.Some? && forall m | from <= m < to ::
        listening(m) == {} || (record.value.pid.Some? && BelongTo(listening(m), record.value.pid.value))
    }

    /** Whoever listens on the mixed port meanwhile is another process, such as a core started anew. */
    ghost predicate Strange(record: Snapshot, from: nat, to: nat) {
      forall m | from <= m < to ::
        listening(m) != {} && !(record.pid.Some? && BelongTo(listening(m), record.pid.value))
    }

    /** Where an interrupted session stands: running or paused, with the original on record. */
    ghost predicate Underway()
      reads this
    {
      && Crashable() && AnyShape(registry, port)
      && file.Some? && file.value.settings == original
      && Resumable(Durable(), port)
    }

    /** The running state an update interrupted is written back. */
    method GoBack(to: Settings) returns (ok: bool)
      modifies `step, `registry, `log, `trace
      ensures old(step) <= step && (!ok ==> !NoFaults(old(step), step))
      ensures Silent(old(step), step) && Shape(to, port, Enabled) && old(Underway()) ==>
                Underway() && (ok ==> registry == to) && (Shape(old(registry), port, Enabled) ==> Shape(registry, port, Enabled))
    {
      hide HasAutoConfig, AtEndpoint, Torn, Bare, StepsOf, Restored, RestoreWrites;
      ghost var d := Durable();
      ghost var n;
      ok, n := GiveBack(to);
      if Silent(old(step), step) && Shape(to, port, Enabled) && old(Underway()) {
        ResumingIsCrashable(trace[|old(trace)|..], d, to, original, port);
        assert trace == old(trace) + trace[|old(trace)|..];
        ResumingAt(d.registry, to, port, n);
      }
    }

    /** The one write that pauses the proxy, the notification, and the look that confirms it. */
    method SwitchOff(pid: Option<nat>, listeners: set<Option<nat>>) returns (ok: bool)
      modifies `step, `registry, `log, `trace
      ensures old(step) < step
      ensures Silent(old(step), step) && old(Underway()) ==> Underway()
      ensures ok <==> NoFaults(old(step), step) && step == old(step) + 3
                      && StillOwned(registry, port, pid, listeners, UpdateDisabled)
      ensures ok ==> log == old(log) + [Wrote(PutEnable(Some(0))), Saw(registry)]
      ensures Silent(old(step), step) && ok ==> registry == old(registry).(enable := Some(0))
      ensures Silent(old(step), step) && StillOwned(old(registry), port, pid, listeners, Enabled) && !ok ==> !NoFaults(old(step), step)
    {
      hide Torn, Bare;
      ok := WriteOne(PutEnable(Some(0)));
      if ok {
        ok := Attempt();
        if ok {
          var verified := ReadSettings();
          ok := verified.Ok? && StillOwned(verified.value, port, pid, listeners, UpdateDisabled);
        }
      }
    }

    /** The settings in force go on record, the proxy is switched off; on failure both are taken back. */
    method PauseOwned(current: Settings, pid: Option<nat>, listeners: set<Option<nat>>) returns (ok: bool)
      modifies `step, `registry, `log, `trace, `update
      ensures old(step) <= step
      ensures Silent(old(step), step) && Shape(current, port, Enabled) && old(registry == current && Underway()) ==>
                && Underway()
                && (ok ==> registry == current.(enable := Some(0)) && update == Some(Snapshot(current, pid)))
                && (!ok && StillOwned(current, port, pid, listeners, Enabled) ==>
                      && !NoFaults(old(step), step)
                      && (AtMostOneFault(old(step), step) ==>
                            registry == current && (update.None? || update == old(update))))
    {
      hide HasAutoConfig, AtEndpoint, Torn, Bare;
      ok := SetUpdate(Some(Snapshot(current, pid)));
      if ok {
        ok := SwitchOff(pid, listeners);
        if !ok {
          var _ := GoBack(current);
          var _ := SetUpdate(None);
        }
      }
    }

    /** `disable_for_update` */
    method Pause() returns (r: Result<bool>)
      modifies `step, `registry, `log, `trace, `update
      ensures old(step) <= step
      ensures Silent(old(step), step) && old(Sound()) && !Shape(original, port, Enabled) ==>
                && Sound()
                && (r.Ok? && r.value ==>
                      && old(On(Durable(), original, port)) && registry == old(registry).(enable := Some(0))
                      && update == Some(Snapshot(old(registry), if memory.Some? then memory.value.pid else file.value.pid)))
                && (r.Ok? && !r.value ==> registry == old(registry) && update == old(update))
                && (old(Paused(Durable(), original, port)) ==>
                      !(r.Ok? && r.value) && registry == old(registry) && update == old(update))
                && (r.Err? ==> !NoFaults(old(step), step))
                && (old(On(Durable(), original, port)) && r.Ok?
                    && Allowed(if memory.Some? then memory else file, old(step), step)
                    ==> r.value)
    {
      hide HasAutoConfig, AtEndpoint, Torn, Bare;
      r := Err;
      var current := ReadSettings();
      var managed := Managed();
      if current.Ok? && managed.Ok? {
        var pid := if managed.value.Some? then managed.value.value.pid else None;
        var listeners := Listeners();
        if listeners.Ok? {
          if StillOwned(current.value, port, pid, listeners.value, Enabled) {
            var paused := PauseOwned(current.value, pid, listeners.value);
            r := if paused then Ok(true) else Err;
          } else {
            r := Ok(false);
          }
        }
      }
    }

    /** An update's own record: the running state is written back, left for later, or given up. */
    method RestoreFromUpdate(record: Snapshot) returns (ok: bool)
      modifies `step, `registry, `log, `trace, `update, `file, `memory
      ensures old(step) < step
      ensures file != old(file) || memory != old(memory) ==> update.None?
      ensures Silent(old(step), step) && old(Underway()) && old(update) == Some(record) ==>
                (old(Shape(registry, port, UpdateDisabled)) ==>
                   && Underway() && file == old(file) && memory == old(memory)
                   && (ok ==> || (registry == record.settings && update.None?)
                              || (registry == old(registry) && update == old(update)))
                   && (NoFaults(old(step), step) && Allowed(old(update), old(step), step) ==>
                         ok && registry == record.settings && update.None?)
                   && (NoFaults(old(step), step) && Strange(record, old(step), step) ==>
                         ok && registry == old(registry) && update == old(update)))
      ensures Silent(old(step), step) && !old(Shape(registry, port, UpdateDisabled)) ==>
                && !ok && registry == old(registry)
                && (NoFaults(old(step), step) ==> update.None? && file.None? && memory.None?)
    {
      hide HasAutoConfig, AtEndpoint, Torn, Bare;
      ok := false;
      var current := ReadSettings();
      var listeners: Result<set<Option<nat>>> := Err;
      if current.Ok? {
        listeners := Listeners();
      }
      if current.Ok? && listeners.Ok? {
        if StillOwned(current.value, port, record.pid, listeners.value, UpdateDisabled) {
          ok := GoBack(record.settings);
          if ok {
            ok := SetUpdate(None);
          }
        } else if Shape(current.value, port, UpdateDisabled) {
          ok := true;
        } else {
          var cleared := SetUpdate(None);
          if cleared {
            var _ := Forget();
          }
        }
      }
    }

    /** Without an update's record, the session's own one decides; here a paused session ends. */
    method RestoreFromSession(record: Snapshot) returns (ok: bool)
      modifies `step, `registry, `log, `trace, `file, `memory
      ensures old(step) < step
      ensures Silent(old(step), step) && old(Sound() && Paused(Durable(), original, port)) && record.settings == original ==>
                && Crashable() && CrashPoint(Durable(), original, port) && Keeps(memory, original)
                && (ok ==> Sound())
      ensures Silent(old(step), step) && old(Shape(registry, port, UpdateDisabled)) ==>
                && (ok ==> || (registry == record.settings && file.None? && memory.None?)
                           || (registry == old(registry) && file == old(file) && memory == old(memory)))
                && (NoFaults(old(step), step) && Allowed(Some(record), old(step), step) ==>
                      ok && registry == record.settings && file.None? && memory.None?)
                && (NoFaults(old(step), step) && Strange(record, old(step), step) ==>
                      ok && registry == old(registry) && file == old(file) && memory == old(memory))
      ensures Silent(old(step), step) && !old(Shape(registry, port, UpdateDisabled)) ==>
                && !ok && registry == old(registry)
                && (NoFaults(old(step), step) ==> file.None? && memory.None?)
    {
      hide HasAutoConfig, AtEndpoint, Torn, Bare, Inactive;
      ok := false;
      var current := ReadSettings();
      var listeners: Result<set<Option<nat>>> := Err;
      if current.Ok? {
        listeners := Listeners();
      }
      if current.Ok? && listeners.Ok? {
        if StillOwned(current.value, port, record.pid, listeners.value, UpdateDisabled) {
          var given, _ := GiveOriginal(record.settings);
          if given {
            ok := Forget();
          }
        } else if Shape(current.value, port, UpdateDisabled) {
          ok := true;
        } else {
          var _ := Forget();
        }
      }
    }

    /** `restore_after_update_failure`, which also serves a successful update. */
    method RestoreAfterUpdate() returns (ok: bool)
      modifies `step, `registry, `log, `trace, `update, `file, `memory
      ensures old(step) < step
      ensures faults(old(step)) || (old(update).None? && faults(old(step) + 1)) ==>
                !ok && registry == old(registry) && Durable() == old(Durable()) && memory == old(memory)
      ensures NoFaults(old(step), step) && old(update).None? && old(file).None? ==>
                ok && Durable() == old(Durable()) && memory == old(memory)
      ensures Silent(old(step), step) && old(Sound() && Paused(Durable(), original, port)) ==>
                && Crashable() && CrashPoint(Durable(), original, port) && Keeps(memory, original)
                && (ok ==> Sound())
                && (NoFaults(old(step), step) && Allowed(old(update), old(step), step) ==>
                      ok && registry == old(update).value.settings && update.None? && file == old(file)
                      && memory == old(memory))
                && (NoFaults(old(step), step) && old(update).Some? && Strange(old(update).value, old(step), step) ==>
                      ok && registry == old(registry) && update == old(update) && file == old(file) && memory == old(memory))
      ensures Silent(old(step), step) && old(On(Durable(), original, port)) ==>
                && !ok && registry == old(registry)
                && (NoFaults(old(step), step) ==> update.None? && file.None? && memory.None?)
    {
      hide HasAutoConfig, AtEndpoint, Torn, Bare, Inactive;
      ok := Attempt();
      if ok {
        if update.Some? {
          ok := RestoreFromUpdate(update.value);
        } else {
          ok := Attempt();
          if ok && file.Some? {
            ok := RestoreFromSession(file.value);
          }
        }
      }
    }

    /** An application update around a running proxy: pause, pause again before the installer, restart, go back. */
    method UpdateApplication() returns (paused: Result<bool>, again: Result<bool>, ok: bool)
      modifies `step, `registry, `log, `trace, `update, `file, `memory
      ensures Silent(old(step), step) && old(Sound() && On(Durable(), original, port)) && !Shape(original, port, Enabled)
              && NoFaults(old(step), step) && Allowed(old(if memory.Some? then memory else file), old(step), step) ==>
                && paused.Ok? && paused.value && again.Ok? && !again.value && ok
                && registry == old(registry) && On(Durable(), original, port) && update.None?
                && Crashable() && memory.None?
    {
      hide Torn, Bare, BelongTo;
      paused := Pause();
      again := Pause();
      Restart();
      ok := RestoreAfterUpdate();
    }

    /** The start after an update, with the core not yet running: the restore, then the recovery. If the port is
        free or still the recorded process's, the original is back. If some other process listens, the restore is
        put off, and the recovery that follows at once drops the only record of the original. */
    method StartAfterUpdate() returns (restored: bool, recovered: bool)
      modifies `step, `registry, `log, `trace, `update, `file, `memory
      ensures Silent(old(step), step) && CoreOnly() && NoFaults(old(step), step) && (forall n :: !running(n))
              && old(Sound() && Paused(Durable(), original, port) && update.Some?) ==>
                && (Allowed(old(update), old(step), step) ==> registry == original && file.None?)
                && (Strange(old(update).value, old(step), step) ==> registry == old(registry) && file.None? && memory.None?)
    {
      hide HasAutoConfig, AtEndpoint, Torn, Bare, Inactive, BelongTo;
      Restart();
      restored := RestoreAfterUpdate();
      recovered := RecoverStale();
    }

    /** A command that went as well as its part below needs: an enable may have one failing operation. */
    ghost predicate Tolerable(command: Command, from: nat, to: nat) {
      || NoFaults(from, to)
      || (command == TurnOn && AtMostOneFault(from, to) && exists pid :: OnlyListener(pid, from, to))
    }

    ghost predicate AllTolerable(commands: seq<Command>, bounds: seq<nat>) {
      |bounds| == |commands| + 1 && forall i | 0 <= i < |commands| :: Tolerable(commands[i], bounds[i], bounds[i + 1])
    }

    /** An enable that nothing hinders. */
    ghost predicate Unhindered(from: nat, to: nat) {
      NoFaults(from, to) && exists pid :: HeldBy(pid, from, to)
    }

    method Run(command: Command)
      requires Valid()
      modifies `step, `registry, `log, `trace, `file, `memory, `update
      ensures Valid() && old(step) <= step
      ensures Silent(old(step), step) && CoreOnly() && old(Ready()) && Tolerable(command, old(step), step) ==>
                Ready() && (command == TurnOff ==> registry == original && file.None? && memory.None?)
      ensures command == Relaunch && Silent(old(step), step) && CoreOnly() && NoFaults(old(step), step) && (forall n :: !running(n)) ==>
                Durable() == Recovered(old(Durable()), port) && memory.None?
      ensures Silent(old(step), step) && CoreOnly() && old(Ready()) && Inactive(original) && command == TurnOn
              && Unhindered(old(step), step) ==>
                On(Durable(), original, port)
    {
      hide Shape, CoreOnly, Answered, EnableLog, RestoreLog, Restored, Inactive, Source, HeldBy, IsBlank;
      match command {
        case TurnOn =>
          SourceIsOriginal(registry, if memory.Some? then memory else file, original);
          StatesExactly(original, port);
          var _, _ := Enable();
          StatesExactly(registry, port);
        case TurnOff => var _ := Disable();
        case Relaunch =>
          Restart();
          var _ := RecoverStale();
      }
    }

    /** Any number of enables, disables and restarts, in any order, the i-th between steps bounds[i] and
        bounds[i + 1]. */
    method Serve(commands: seq<Command>) returns (ghost bounds: seq<nat>)
      requires Valid()
      modifies `step, `registry, `log, `trace, `file, `memory, `update
      ensures |bounds| == |commands| + 1 && bounds[0] == old(step) && bounds[|commands|] == step
      ensures Silent(old(step), step) && CoreOnly() && old(Ready()) && AllTolerable(commands, bounds) ==>
                && Ready() && (EndsWith(commands, TurnOff) ==> registry == original && file.None? && memory.None?)
                && (EndsWith(commands, TurnOn) && Unhindered(bounds[|commands| - 1], step) && Inactive(original) ==>
                      On(Durable(), original, port))
    {
      bounds := [step];
      hide Ready, Valid, Tolerable, CoreOnly, Unhindered, Inactive, On;
      ghost var kept := true;
      var i := 0;
      while i < |commands|
        invariant 0 <= i <= |commands| && old(step) <= step && |bounds| == i + 1
        invariant bounds[0] == old(step) && bounds[i] == step && Valid()
        invariant AllTolerable(commands[..i], bounds) ==> kept
        invariant Silent(old(step), step) && CoreOnly() && old(Ready()) && kept ==> Ready()
        invariant Silent(old(step), step) && CoreOnly() && old(Ready()) && kept && i > 0 && commands[i - 1] == TurnOff ==>
                    registry == original && file.None? && memory.None?
        invariant Silent(old(step), step) && CoreOnly() && old(Ready()) && kept && i > 0 && commands[i - 1] == TurnOn
                  && Unhindered(bounds[i - 1], bounds[i]) && Inactive(original) ==>
                    On(Durable(), original, port)
        decreases |commands| - i
      {
        ghost var begun, was := step, bounds;
        Run(commands[i]);
        kept := kept && Tolerable(commands[i], begun, step);
        bounds := bounds + [step];
        i := i + 1;
        if AllTolerable(commands[..i], bounds) {
          EarlierTolerable(commands[..i], bounds);
          assert commands[..i][..i - 1] == commands[..i - 1] && bounds[..i] == was;
        }
      }
      assert commands[..i] == commands;
    }

    lemma EarlierTolerable(commands: seq<Command>, bounds: seq<nat>)
      requires commands != [] && AllTolerable(commands, bounds)
      ensures AllTolerable(commands[..|commands| - 1], bounds[..|commands|])
      ensures Tolerable(commands[|commands| - 1], bounds[|commands| - 1], bounds[|commands|])
    {
      var before, earlier := commands[..|commands| - 1], bounds[..|commands|];
      forall i | 0 <= i < |before|
        ensures Tolerable(before[i], earlier[i], earlier[i + 1])
      {
        assert Tolerable(commands[i], bounds[i], bounds[i + 1]);
      }
    }
  }
}
