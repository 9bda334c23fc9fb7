// Building a profile's runtime and the DNS settings stored in the local override
// (src-tauri/src/config.rs).
module Dns {
  import opened Basics
  import opened Yaml
  import opened Config

  // ---------- building ----------

  datatype Built = Built(base: Value, runtime: Value)

  function BuiltFrom(source: Value, local: Value, runtimeOverride: Value, around: Surroundings): Result<Built> {
    var base := Merge(source, local);
    if !ValidConfig(base) then Err
    else
      match Layered(base, runtimeOverride, around)
      case Err => Err
      case Ok(runtime) => Ok(Built(base, runtime))
  }

  // ---------- settings ----------

  datatype Settings = Settings(
    enabled: bool, enhancedMode: string, defaultNameserver: seq<string>, nameserver: seq<string>,
    fallback: seq<string>, filterMode: string, filter: seq<string>)

  function Texts(items: seq<Value>): seq<string> {
    if items == [] then []
    else (if items[0].Str? then [items[0].text] else []) + Texts(items[1..])
  }

  function Quoted(texts: seq<string>): Value {
    Sequence(seq(|texts|, i requires 0 <= i < |texts| => Str(texts[i])))
  }

  function ListAt(dns: Value, name: string): seq<string> {
    var items := Field(dns, name);
    if items.Some? && items.value.Sequence? then Texts(items.value.items) else []
  }

  function TextAt(dns: Value, name: string, default: string): string {
    var text := Field(dns, name);
    if text.Some? && text.value.Str? then text.value.text else default
  }

  function SettingsFrom(dns: Value): Settings {
    Settings(Field(dns, "enable") == Some(Bool(true)),
             TextAt(dns, "enhanced-mode", "redir-host"),
             ListAt(dns, "default-nameserver"), ListAt(dns, "nameserver"), ListAt(dns, "fallback"),
             TextAt(dns, "fake-ip-filter-mode", "blacklist"), ListAt(dns, "fake-ip-filter"))
  }

  const MANAGED := ["enable", "enhanced-mode", "default-nameserver", "nameserver", "fallback",
                    "fake-ip-filter-mode", "fake-ip-filter"]

  function Encoded(settings: Settings): seq<Value> {
    [Bool(settings.enabled), Str(settings.enhancedMode), Quoted(settings.defaultNameserver),
     Quoted(settings.nameserver), Quoted(settings.fallback), Str(settings.filterMode), Quoted(settings.filter)]
  }

  function DnsValue(settings: Settings): Value {
    Mapping(map i | 0 <= i < 7 :: Key(MANAGED[i]) := Encoded(settings)[i])
  }

  /** The local override after the settings were stored, or failure with the file untouched. */
  function Stored(local: Value, settings: Settings): Result<Value>
    requires local.Mapping?
  {
    var next := Insert(local, "dns", Merge(FieldOr(local, "dns", EMPTY), DnsValue(settings)));
    if ValidConfig(next) then Ok(next) else Err
  }

  /** The settings a reader sees in a built runtime. */
  function Shown(runtime: Value): Settings {
    SettingsFrom(FieldOr(runtime, "dns", Null))
  }

  lemma {:induction false} TextsOfQuoted(texts: seq<string>)
    ensures Texts(Quoted(texts).items) == texts
  {
    if texts != [] {
      TextsOfQuoted(texts[1..]);
      assert Quoted(texts).items[1..] == Quoted(texts[1..]).items;
    }
  }

  /** The `dns` section holds the managed entries of the settings. */
  predicate Carries(dns: Value, settings: Settings) {
    dns.Mapping? && forall i | 0 <= i < 7 :: Field(dns, MANAGED[i]) == Some(Encoded(settings)[i])
  }

  ghost predicate ListsTexts(entry: Option<Value>, texts: seq<string>) {
    entry.Some? && entry.value.Sequence? && |entry.value.items| == |texts|
    && forall i | 0 <= i < |texts| :: entry.value.items[i] == Str(texts[i])
  }

  /** The managed entries under their names in the file. */
  lemma CarriesExactly(dns: Value, settings: Settings)
    ensures Carries(dns, settings) <==>
              && dns.Mapping? && Field(dns, "enable") == Some(Bool(settings.enabled))
              && Field(dns, "enhanced-mode") == Some(Str(settings.enhancedMode))
              && Field(dns, "fake-ip-filter-mode") == Some(Str(settings.filterMode))
              && ListsTexts(Field(dns, "default-nameserver"), settings.defaultNameserver)
              && ListsTexts(Field(dns, "nameserver"), settings.nameserver)
              && ListsTexts(Field(dns, "fallback"), settings.fallback)
              && ListsTexts(Field(dns, "fake-ip-filter"), settings.filter)
  {
    var names := ["enable", "enhanced-mode", "default-nameserver", "nameserver", "fallback", "fake-ip-filter-mode",
                  "fake-ip-filter"];
    assert MANAGED == names;
    QuotedLists(Field(dns, "default-nameserver"), settings.defaultNameserver);
    QuotedLists(Field(dns, "nameserver"), settings.nameserver);
    QuotedLists(Field(dns, "fallback"), settings.fallback);
    QuotedLists(Field(dns, "fake-ip-filter"), settings.filter);
    hide Quoted, ListsTexts;
    assert (forall i | 0 <= i < 7 :: Field(dns, MANAGED[i]) == Some(Encoded(settings)[i])) <==>
           (&& Field(dns, MANAGED[0]) == Some(Encoded(settings)[0]) && Field(dns, MANAGED[1]) == Some(Encoded(settings)[1])
            && Field(dns, MANAGED[2]) == Some(Encoded(settings)[2]) && Field(dns, MANAGED[3]) == Some(Encoded(settings)[3])
            && Field(dns, MANAGED[4]) == Some(Encoded(settings)[4]) && Field(dns, MANAGED[5]) == Some(Encoded(settings)[5])
            && Field(dns, MANAGED[6]) == Some(Encoded(settings)[6]));
  }

  lemma QuotedLists(entry: Option<Value>, texts: seq<string>)
    ensures entry == Some(Quoted(texts)) <==> ListsTexts(entry, texts)
  {
    if ListsTexts(entry, texts) {
      assert entry.value.items == Quoted(texts).items;
    }
  }

  /** The texts of a list, or none; other items are passed over. */
  predicate ShowsTexts(texts: seq<string>, entry: Option<Value>) {
    texts == if entry.Some? && entry.value.Sequence? then Texts(entry.value.items) else []
  }

  lemma {:induction false} TextsAreKept(items: seq<Value>)
    ensures forall text <- Texts(items) :: Str(text) in items
    ensures (forall item <- items :: item.Str?) ==>
              |Texts(items)| == |items| && forall i | 0 <= i < |items| :: items[i] == Str(Texts(items)[i])
  {
    if items != [] {
      TextsAreKept(items[1..]);
      assert items == [items[0]] + items[1..];
    }
  }

  /** The settings shown for a section, entry by entry: what is missing or of the wrong kind shows as its default. */
  lemma ShownExactly(dns: Value)
    ensures var s, mode, filter := SettingsFrom(dns), Field(dns, "enhanced-mode"), Field(dns, "fake-ip-filter-mode");
            && (s.enabled <==> Field(dns, "enable") == Some(Bool(true)))
            && s.enhancedMode == (if mode.Some? && mode.value.Str? then mode.value.text else "redir-host")
            && s.filterMode == (if filter.Some? && filter.value.Str? then filter.value.text else "blacklist")
            && ShowsTexts(s.defaultNameserver, Field(dns, "default-nameserver"))
            && ShowsTexts(s.nameserver, Field(dns, "nameserver"))
            && ShowsTexts(s.fallback, Field(dns, "fallback"))
            && ShowsTexts(s.filter, Field(dns, "fake-ip-filter"))
  {
  }

  lemma CarriedIsShown(dns: Value, settings: Settings)
    requires Carries(dns, settings)
    ensures SettingsFrom(dns) == settings
  {
    TextsOfQuoted(settings.defaultNameserver);
    TextsOfQuoted(settings.nameserver);
    TextsOfQuoted(settings.fallback);
    TextsOfQuoted(settings.filter);
    assert forall i | 0 <= i < 7 :: Field(dns, MANAGED[i]) == Some(Encoded(settings)[i]);
    assert MANAGED[0] == "enable" && MANAGED[1] == "enhanced-mode" && MANAGED[2] == "default-nameserver";
    assert MANAGED[3] == "nameserver" && MANAGED[4] == "fallback";
    assert MANAGED[5] == "fake-ip-filter-mode" && MANAGED[6] == "fake-ip-filter";
  }

  lemma MergeCarries(dns: Value, over: Value, settings: Settings)
    requires Carries(over, settings)
    ensures Carries(Merge(dns, over), settings)
  {
  }

  lemma DnsValueCarries(settings: Settings)
    ensures Carries(DnsValue(settings), settings)
  {
  }

  // ---------- storing, then reading back ----------

  /** Storing settings touches the `dns` section only, and there only the managed entries. */
  lemma StoredKeepsTheRest(local: Value, settings: Settings)
    requires local.Mapping? && Stored(local, settings).Ok?
    ensures var next := Stored(local, settings).value;
            && next.entries - {Key("dns")} == local.entries - {Key("dns")}
            && Field(next, "dns").Some? && Carries(Field(next, "dns").value, settings)
            && forall key | key !in set i | 0 <= i < 7 :: Key(MANAGED[i]) ::
                 DnsEntry(next, key) == DnsEntry(local, key)
  {
    DnsValueCarries(settings);
    MergeCarries(FieldOr(local, "dns", EMPTY), DnsValue(settings), settings);
  }

  /** An arbitrary entry of the `dns` section. */
  function DnsEntry(config: Value, key: Value): Option<Value> {
    var dns := FieldOr(config, "dns", EMPTY);
    if dns.Mapping? && key in dns.entries then Some(dns.entries[key]) else None
  }

  lemma StoredDns(local: Value, settings: Settings)
    requires local.Mapping?
    ensures var next := Insert(local, "dns", Merge(FieldOr(local, "dns", EMPTY), DnsValue(settings)));
            && Field(next, "dns") == Some(Merge(FieldOr(local, "dns", EMPTY), DnsValue(settings)))
            && forall name | name != "dns" :: Field(next, name) == Field(local, name)
  {
  }

  lemma ManagedIsAccepted(dns: Value, settings: Settings)
    requires ValidDns(dns)
    ensures ValidDns(Merge(dns, DnsValue(settings)))
            <==> settings.enhancedMode in {"fake-ip", "redir-host"} && settings.filterMode in {"blacklist", "whitelist", "rule"}
  {
    hide ValidDns, Merge, DnsValue, Carries, ListsTexts, ListOfTexts, Field;
    var next := Merge(dns, DnsValue(settings));
    DnsValueCarries(settings);
    MergeCarries(dns, DnsValue(settings), settings);
    CarriesExactly(next, settings);
    ServersAreKept(dns, settings);
    DnsIsAcceptedExactly(dns);
    DnsIsAcceptedExactly(next);
    ListedAreTexts(Field(next, "default-nameserver"), settings.defaultNameserver);
    ListedAreTexts(Field(next, "nameserver"), settings.nameserver);
    ListedAreTexts(Field(next, "fallback"), settings.fallback);
    ListedAreTexts(Field(next, "fake-ip-filter"), settings.filter);
  }

  lemma ListedAreTexts(entry: Option<Value>, texts: seq<string>)
    ensures ListsTexts(entry, texts) ==> ListOfTexts(entry)
  {
  }

  lemma ServersAreKept(dns: Value, settings: Settings)
    ensures Field(Merge(dns, DnsValue(settings)), "proxy-server-nameserver") == Field(dns, "proxy-server-nameserver")
  {
    assert |"proxy-server-nameserver"| == 23;
    assert |"enable"| == 6 && |"enhanced-mode"| == 13 && |"default-nameserver"| == 18 && |"nameserver"| == 10;
    assert |"fallback"| == 8 && |"fake-ip-filter-mode"| == 19 && |"fake-ip-filter"| == 14;
    assert forall i | 0 <= i < 7 :: |MANAGED[i]| < 23;
  }

  /** Into an accepted local override settings can be stored exactly if both modes are known ones. */
  lemma StoresExactly(local: Value, settings: Settings)
    requires ValidConfig(local)
    ensures Stored(local, settings).Ok?
            <==> settings.enhancedMode in {"fake-ip", "redir-host"} && settings.filterMode in {"blacklist", "whitelist", "rule"}
  {
    var next := Insert(local, "dns", Merge(FieldOr(local, "dns", EMPTY), DnsValue(settings)));
    StoredDns(local, settings);
    EmptyDnsIsValid();
    ConfigIsAcceptedExactly(local);
    ConfigIsAcceptedExactly(next);
    ManagedIsAccepted(FieldOr(local, "dns", EMPTY), settings);
    assert |"dns"| == 3 && |"mixed-port"| == 10 && |"proxies"| == 7 && |"proxy-groups"| == 12 && |"rules"| == 5;
    assert |"rule-providers"| == 14;
    hide ValidConfig, ValidDns, Merge, DnsValue, Insert;
  }

  lemma EmptyDnsIsValid()
    ensures ValidDns(EMPTY)
  {
  }

  lemma MergeIntoDns(source: Value, local: Value)
    requires local.Mapping?
    ensures FieldOr(Merge(source, local), "dns", EMPTY)
            == if Field(local, "dns").None? then (if source.Mapping? then FieldOr(source, "dns", EMPTY) else EMPTY)
               else Merge(FieldOr(source, "dns", EMPTY), Field(local, "dns").value)
  {
  }

  lemma BaseStaysValid(source: Value, local: Value, settings: Settings)
    requires local.Mapping? && Stored(local, settings).Ok?
    requires ValidConfig(Merge(source, local))
    ensures var after := Merge(source, Stored(local, settings).value);
            && ValidConfig(after) && Field(after, "dns").Some? && Carries(Field(after, "dns").value, settings)
            && Field(after, "tun") == Field(Merge(source, local), "tun")
  {
    StoredKeepsTheRest(local, settings);
    var next := Stored(local, settings).value;
    var before, after := Merge(source, local), Merge(source, next);
    assert "tun"[0] != "dns"[0];
    MergeCarries(FieldOr(source, "dns", EMPTY), Field(next, "dns").value, settings);
    MergeIntoDns(source, next);
    MergeIntoDns(source, local);
    DnsStaysValid(source, local, settings);
    forall key | key in after.entries && key.Str?
      ensures ValidEntry(key.text, after.entries[key])
    {
      if key != Key("dns") {
        assert key in next.entries <==> key in (next.entries - {Key("dns")});
        assert key in local.entries <==> key in (local.entries - {Key("dns")});
        if key in local.entries {
          assert local.entries[key] == (local.entries - {Key("dns")})[key];
          assert next.entries[key] == (next.entries - {Key("dns")})[key];
        }
        assert key in before.entries && before.entries[key] == after.entries[key];
        assert ValidEntry(key.text, before.entries[key]);
      }
    }
  }

  lemma DnsStaysValid(source: Value, local: Value, settings: Settings)
    requires local.Mapping? && Stored(local, settings).Ok?
    requires ValidConfig(Merge(source, local))
    ensures ValidDns(FieldOr(Merge(source, Stored(local, settings).value), "dns", EMPTY))
  {
    StoredKeepsTheRest(local, settings);
    var next := Stored(local, settings).value;
    var before, after := FieldOr(Merge(source, local), "dns", EMPTY), FieldOr(Merge(source, next), "dns", EMPTY);
    MergeIntoDns(source, next);
    MergeIntoDns(source, local);
    var stored := Field(next, "dns").value;
    assert ValidEntry("dns", next.entries[Key("dns")]);
    assert ValidDns(before) by {
      if Field(Merge(source, local), "dns").Some? {
        assert ValidEntry("dns", Merge(source, local).entries[Key("dns")]);
      }
    }
    MergeCarries(FieldOr(source, "dns", EMPTY), stored, settings);
    forall key | key in after.entries && key.Str?
      ensures ValidDnsEntry(key.text, after.entries[key])
    {
      if i :| 0 <= i < 7 && key == Key(MANAGED[i]) {
        assert Field(after, MANAGED[i]) == Some(Encoded(settings)[i]);
        assert Field(stored, MANAGED[i]) == Some(Encoded(settings)[i]);
        assert ValidDnsEntry(key.text, stored.entries[key]);
      } else {
        assert DnsEntry(next, key) == DnsEntry(local, key);
        assert key in before.entries && before.entries[key] == after.entries[key];
      }
    }
  }

  lemma LayersKeepDns(base: Value, over: Value, around: Surroundings)
    requires Layered(base, over, around).Ok? && Field(Merge(base, over), "dns").Some?
    ensures Field(Layered(base, over, around).value, "dns")
            == Some(if around.outbound.foreignTun then OutboundDns(Field(Merge(base, over), "dns").value)
                    else Field(Merge(base, over), "dns").value)
  {
    assert "tun"[0] != "dns"[0];
    var merged := Merge(base, over);
    assert Field(Stamped(merged, TunEnabled(over), around), "dns") == Field(merged, "dns");
  }

  lemma OutboundCarries(dns: Value, settings: Settings)
    requires Carries(dns, settings)
    ensures Carries(OutboundDns(dns), settings)
  {
  }

  lemma MergedCarries(base: Value, override: File<Value>, settings: Settings)
    requires OwnWriting(override)
    requires Field(base, "dns").Some? && Carries(Field(base, "dns").value, settings)
    ensures var dns := Field(Merge(base, ReadRuntimeOverride(override).value), "dns");
            dns.Some? && Carries(dns.value, settings.(enabled := settings.enabled || override.Doc?))
  {
    OnIsOn();
    if override.Doc? {
      EnableForced(Field(base, "dns").value, settings);
      assert Field(ON, "dns") == Some(FieldOr(ON, "dns", EMPTY));
    }
  }

  lemma EnableForced(dns: Value, settings: Settings)
    requires Carries(dns, settings)
    ensures Carries(Merge(dns, Mapping(map[Key("enable") := Bool(true)])), settings.(enabled := true))
  {
  }

  /** Layering shows the base's `dns` section, with `enable` forced on by an active override. */
  lemma LayersShow(base: Value, override: File<Value>, around: Surroundings, settings: Settings)
    requires OwnWriting(override)
    requires Field(base, "dns").Some? && Carries(Field(base, "dns").value, settings)
    requires Layered(base, ReadRuntimeOverride(override).value, around).Ok?
    ensures Shown(Layered(base, ReadRuntimeOverride(override).value, around).value)
            == settings.(enabled := settings.enabled || override.Doc?)
  {
    var over := ReadRuntimeOverride(override).value;
    var seen := settings.(enabled := settings.enabled || override.Doc?);
    MergedCarries(base, override, settings);
    var dns := Field(Merge(base, over), "dns").value;
    LayersKeepDns(base, over, around);
    OutboundCarries(dns, seen);
    CarriedIsShown(if around.outbound.foreignTun then OutboundDns(dns) else dns, seen);
  }

  lemma LayersStayAccepted(before: Value, after: Value, override: File<Value>, around: Surroundings)
    requires OwnWriting(override) && UsablePort(around)
    requires ValidConfig(before) && ValidConfig(after) && Field(after, "tun") == Field(before, "tun")
    requires Layered(before, ReadRuntimeOverride(override).value, around).Ok?
    ensures Layered(after, ReadRuntimeOverride(override).value, around).Ok?
  {
    OnIsOn();
    var over := ReadRuntimeOverride(override).value;
    MergeKeepsValid(before, over);
    MergeKeepsValid(after, over);
    LayersAcceptExactly(before, over, around);
    LayersAcceptExactly(after, over, around);
    assert Field(Merge(after, over), "tun") == Field(Merge(before, over), "tun");
  }

  /** Settings that could be stored are read back from every profile that was buildable before, except
      that `enabled` reads true while this program's own override has TUN on. */
  lemma StoredThenShown(source: Value, local: Value, override: File<Value>, around: Surroundings, settings: Settings)
    requires local.Mapping? && OwnWriting(override) && UsablePort(around)
    requires BuiltFrom(source, local, ReadRuntimeOverride(override).value, around).Ok?
    requires Stored(local, settings).Ok?
    ensures var built := BuiltFrom(source, Stored(local, settings).value, ReadRuntimeOverride(override).value, around);
            built.Ok? && Shown(built.value.runtime) == settings.(enabled := settings.enabled || override.Doc?)
  {
    var before, after := Merge(source, local), Merge(source, Stored(local, settings).value);
    BaseStaysValid(source, local, settings);
    LayersStayAccepted(before, after, override, around);
    LayersShow(after, override, around, settings);
  }
}
