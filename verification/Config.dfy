// Validation, runtime layering and the DNS settings of src-tauri/src/config.rs.
module Config {
  import opened Basics
  import opened Yaml

  const CONTROLLER := "127.0.0.1:19090"
  const LISTS := {"proxies", "proxy-groups", "rules"}
  const SECTIONS := {"dns", "rule-providers"}
  const SERVER_LISTS := {"default-nameserver", "nameserver", "fallback", "fake-ip-filter", "proxy-server-nameserver"}
  const ENHANCED_MODES := {"fake-ip", "redir-host"}
  const FILTER_MODES := {"blacklist", "whitelist", "rule"}

  // ---------- validation ----------

  predicate Int64(n: int) {
    -0x8000_0000_0000_0000 <= n < 0x8000_0000_0000_0000
  }

  predicate ValidPort(value: Value) {
    value.Num? && value.number.Integer? && Int64(value.number.i) && 1 <= value.number.i <= 65535
  }

  predicate Strings(value: Value) {
    value.Sequence? && forall item | item in value.items :: item.Str?
  }

  /** Whether one entry of the `dns` section is acceptable. */
  predicate ValidDnsEntry(name: string, value: Value) {
    && (name == "enable" ==> value.Bool?)
    && (name == "enhanced-mode" ==> value.Str? && value.text in ENHANCED_MODES)
    && (name == "fake-ip-filter-mode" ==> value.Str? && value.text in FILTER_MODES)
    && (name in SERVER_LISTS ==> Strings(value))
  }

  predicate ValidDns(dns: Value) {
    dns.Mapping? && forall key | key in dns.entries && key.Str? :: ValidDnsEntry(key.text, dns.entries[key])
  }

  predicate ValidEntry(name: string, value: Value) {
    && (name == "mixed-port" ==> ValidPort(value))
    && (name in LISTS ==> value.Sequence?)
    && (name in SECTIONS ==> value.Mapping?)
    && (name == "dns" ==> ValidDns(value))
  }

  predicate ValidConfig(value: Value) {
    value.Mapping? && forall key | key in value.entries && key.Str? :: ValidEntry(key.text, value.entries[key])
  }

  predicate TextAmong(entry: Option<Value>, texts: set<string>) {
    entry.Some? ==> entry.value.Str? && entry.value.text in texts
  }

  predicate ListOfTexts(entry: Option<Value>) {
    entry.Some? ==> entry.value.Sequence? && forall item <- entry.value.items :: item.Str?
  }

  /** What is accepted as a `dns` section, entry by entry. */
  lemma DnsIsAcceptedExactly(dns: Value)
    ensures ValidDns(dns) <==>
              && dns.Mapping?
              && (Field(dns, "enable").Some? ==> Field(dns, "enable").value.Bool?)
              && TextAmong(Field(dns, "enhanced-mode"), {"fake-ip", "redir-host"})
              && TextAmong(Field(dns, "fake-ip-filter-mode"), {"blacklist", "whitelist", "rule"})
              && ListOfTexts(Field(dns, "default-nameserver")) && ListOfTexts(Field(dns, "nameserver"))
              && ListOfTexts(Field(dns, "fallback")) && ListOfTexts(Field(dns, "fake-ip-filter"))
              && ListOfTexts(Field(dns, "proxy-server-nameserver"))
  {
    if dns.Mapping? {
      assert forall key | key in dns.entries && key.Str? :: Field(dns, key.text) == Some(dns.entries[key]);
      assert forall name | Field(dns, name).Some? :: Key(name) in dns.entries && Field(dns, name).value == dns.entries[Key(name)];
    }
  }

  predicate SequenceIfAny(entry: Option<Value>) {
    entry.Some? ==> entry.value.Sequence?
  }

  /** What is accepted as a configuration, entry by entry. */
  lemma ConfigIsAcceptedExactly(value: Value)
    ensures ValidConfig(value) <==>
              && value.Mapping?
              && (Field(value, "mixed-port").Some? ==>
                    var port := Field(value, "mixed-port").value;
                    port.Num? && port.number.Integer? && 1 <= port.number.i <= 65535)
              && SequenceIfAny(Field(value, "proxies")) && SequenceIfAny(Field(value, "proxy-groups"))
              && SequenceIfAny(Field(value, "rules"))
              && (Field(value, "rule-providers").Some? ==> Field(value, "rule-providers").value.Mapping?)
              && (Field(value, "dns").Some? ==> ValidDns(Field(value, "dns").value))
  {
    hide ValidDns;
    if value.Mapping? {
      assert forall key | key in value.entries && key.Str? :: Field(value, key.text) == Some(value.entries[key]);
      assert forall name | Field(value, name).Some? :: Key(name) in value.entries && Field(value, name).value == value.entries[Key(name)];
    }
    DnsIsMapping(value);
  }

  lemma DnsIsMapping(value: Value)
    ensures Field(value, "dns").Some? && ValidDns(Field(value, "dns").value) ==> Field(value, "dns").value.Mapping?
  {
  }

  lemma MergeKeepsDnsValid(base: Value, overlay: Value)
    requires ValidDns(base) && ValidDns(overlay)
    ensures ValidDns(Merge(base, overlay))
  {
  }

  /** Layers that are each valid merge into a valid configuration. */
  lemma MergeKeepsValid(base: Value, overlay: Value)
    requires ValidConfig(base) && ValidConfig(overlay)
    ensures ValidConfig(Merge(base, overlay))
  {
    var merged := Merge(base, overlay);
    forall key | key in merged.entries && key.Str?
      ensures ValidEntry(key.text, merged.entries[key])
    {
      if key in base.entries && key in overlay.entries {
        assert ValidEntry(key.text, base.entries[key]) && ValidEntry(key.text, overlay.entries[key]);
        if key.text == "dns" {
          MergeKeepsDnsValid(base.entries[key], overlay.entries[key]);
        }
      }
    }
  }

  // ---------- runtime layers ----------

  /** The outcome of the outbound inspection, taken as given. */
  datatype Outbound = Outbound(foreignTun: bool, selected: Option<string>)

  /** What the layering takes from its surroundings besides the two layers. */
  datatype Surroundings = Surroundings(secret: string, outbound: Outbound, port: Option<int>)

  function Insert(value: Value, name: string, entry: Value): Value
    requires value.Mapping?
  {
    Mapping(value.entries[Key(name) := entry])
  }

  function FieldOr(value: Value, name: string, default: Value): Value {
    if Field(value, name).Some? then Field(value, name).value else default
  }

  predicate TunEnabled(value: Value) {
    var tun := Field(value, "tun");
    tun.Some? && Field(tun.value, "enable") == Some(Bool(true))
  }

  /** The mixed port a stored configuration names, if it names a usable one. */
  function RuntimePort(config: File<Value>): (port: Option<int>)
    ensures port.Some? ==> 1 <= port.value <= 65535
  {
    if !config.Doc? then None
    else
      var entry := Field(config.content, "mixed-port");
      if entry.Some? && ValidPort(entry.value) then Some(entry.value.number.i) else None
  }

  function Resolvers(dns: Value): Value {
    var default := Field(dns, "default-nameserver");
    var server := Field(dns, "nameserver");
    if default.Some? && default.value.Sequence? && default.value.items != [] then default.value
    else if server.Some? && server.value.Sequence? && server.value.items != [] then server.value
    else Sequence([Str("system")])
  }

  function OutboundDns(dns: Value): Value {
    if dns.Mapping? && Field(dns, "proxy-server-nameserver").None?
    then Insert(dns, "proxy-server-nameserver", Resolvers(dns))
    else dns
  }

  function WithOutbound(config: Value, outbound: Outbound): (r: Value)
    requires config.Mapping?
    ensures r.Mapping?
  {
    if !outbound.foreignTun then config
    else
      var bound := if Field(config, "interface-name").None? && outbound.selected.Some?
                   then Insert(config, "interface-name", Str(outbound.selected.value)) else config;
      Insert(bound, "dns", OutboundDns(FieldOr(bound, "dns", EMPTY)))
  }

  function Stamped(merged: Value, tunEnabled: bool, around: Surroundings): (r: Value)
    requires merged.Mapping? && FieldOr(merged, "tun", EMPTY).Mapping?
    ensures r.Mapping?
  {
    var tun := Insert(FieldOr(merged, "tun", EMPTY), "enable", Bool(tunEnabled));
    var owned := Insert(Insert(Insert(merged, "tun", tun), "external-controller", Str(CONTROLLER)),
                        "secret", Str(around.secret));
    if around.port.Some? then Insert(owned, "mixed-port", Num(Integer(around.port.value))) else owned
  }

  function Layered(base: Value, runtimeOverride: Value, around: Surroundings): Result<Value> {
    var merged := Merge(base, runtimeOverride);
    if !merged.Mapping? || !FieldOr(merged, "tun", EMPTY).Mapping? then Err
    else
      var final := WithOutbound(Stamped(merged, TunEnabled(runtimeOverride), around), around.outbound);
      if ValidConfig(final) then Ok(final) else Err
  }

  /** The original's sequence of in-place edits. */
  method ApplyOutbound(config: Value, outbound: Outbound) returns (edited: Value)
    requires config.Mapping?
    ensures edited == WithOutbound(config, outbound)
  {
    edited := config;
    if !outbound.foreignTun {
      return;
    }
    if Field(edited, "interface-name").None? {
      if outbound.selected.Some? {
        edited := Insert(edited, "interface-name", Str(outbound.selected.value));
      }
    }
    if Field(edited, "dns").None? {
      edited := Insert(edited, "dns", EMPTY);
    }
    var dns := Field(edited, "dns").value;
    if !dns.Mapping? {
      assert edited.entries[Key("dns") := dns] == edited.entries;
      return;
    }
    if Field(dns, "proxy-server-nameserver").None? {
      var resolvers := Sequence([Str("system")]);
      var found, tried := false, 0;
      while tried < 2 && !found
        invariant 0 <= tried <= 2
        invariant if found then resolvers == Resolvers(dns)
                  else resolvers == Sequence([Str("system")])
        invariant !found && tried >= 1 ==> Unusable(Field(dns, "default-nameserver"))
        invariant !found && tried == 2 ==> Unusable(Field(dns, "nameserver"))
      {
        var servers := Field(dns, if tried == 0 then "default-nameserver" else "nameserver");
        if !Unusable(servers) {
          resolvers, found := servers.value, true;
        }
        tried := tried + 1;
      }
      dns := Insert(dns, "proxy-server-nameserver", resolvers);
    }
    edited := Insert(edited, "dns", dns);
  }

  predicate Unusable(servers: Option<Value>) {
    servers.None? || !servers.value.Sequence? || servers.value.items == []
  }

  // ---------- what a built runtime shows ----------

  /** What two layers show under a key: the upper one's entry, over the lower one's where both are mappings. */
  function Found(base: Value, over: Value, key: Value): Option<Value> {
    if At(over, key).None? then At(base, key)
    else if At(base, key).None? then At(over, key)
    else Some(Merge(At(base, key).value, At(over, key).value))
  }

  /** The `tun` section of a runtime: the one found, with `enable` as the override has it. */
  ghost predicate ShowsTun(tun: Option<Value>, found: Option<Value>, over: Value) {
    && tun.Some? && tun.value.Mapping?
    && At(tun.value, Str("enable"))
       == Some(Bool(At(over, Str("tun")).Some? && At(At(over, Str("tun")).value, Str("enable")) == Some(Bool(true))))
    && forall key | key != Str("enable") :: At(tun.value, key) == if found.Some? then At(found.value, key) else None
  }

  predicate NonEmptyList(entry: Option<Value>) {
    entry.Some? && entry.value.Sequence? && entry.value.items != []
  }

  /** The `dns` section of a runtime beside a foreign TUN: the one found, and servers for the proxies' own names. */
  ghost predicate ShowsServers(dns: Option<Value>, found: Option<Value>) {
    var before := if found.Some? then found.value else Mapping(map[]);
    && dns.Some? && dns.value.Mapping?
    && (forall key | key != Str("proxy-server-nameserver") :: At(dns.value, key) == At(before, key))
    && At(dns.value, Str("proxy-server-nameserver"))
       == if At(before, Str("proxy-server-nameserver")).Some? then At(before, Str("proxy-server-nameserver"))
          else if NonEmptyList(At(before, Str("default-nameserver"))) then At(before, Str("default-nameserver"))
          else if NonEmptyList(At(before, Str("nameserver"))) then At(before, Str("nameserver"))
          else Some(Sequence([Str("system")]))
  }

  /** A runtime over a base and an override, entry by entry. */
  ghost predicate Shows(runtime: Value, base: Value, over: Value, around: Surroundings) {
    && runtime.Mapping?
    && At(runtime, Str("external-controller")) == Some(Str("127.0.0.1:19090"))
    && At(runtime, Str("secret")) == Some(Str(around.secret))
    && At(runtime, Str("mixed-port")) == (if around.port.Some? then Some(Num(Integer(around.port.value)))
                                          else Found(base, over, Str("mixed-port")))
    && ShowsTun(At(runtime, Str("tun")), Found(base, over, Str("tun")), over)
    && (around.outbound.foreignTun ==>
          && ShowsServers(At(runtime, Str("dns")), Found(base, over, Str("dns")))
          && At(runtime, Str("interface-name"))
             == if Found(base, over, Str("interface-name")).None? && around.outbound.selected.Some?
                then Some(Str(around.outbound.selected.value)) else Found(base, over, Str("interface-name")))
    && (forall key | key !in {Str("tun"), Str("external-controller"), Str("secret"), Str("mixed-port")}
                     && (around.outbound.foreignTun ==> key !in {Str("dns"), Str("interface-name")}) ::
          At(runtime, key) == Found(base, over, key))
  }

  lemma MergedEntry(base: Value, over: Value, key: Value)
    requires over.Mapping? && Merge(base, over).Mapping?
    ensures At(Merge(base, over), key) == Found(base, over, key)
  {
  }

  lemma StampedShows(merged: Value, on: bool, around: Surroundings, key: Value)
    requires merged.Mapping? && TunShaped(merged)
    ensures At(Stamped(merged, on, around), key)
            == if key == Str("tun") then Some(Insert(FieldOr(merged, "tun", EMPTY), "enable", Bool(on)))
               else if key == Str("external-controller") then Some(Str("127.0.0.1:19090"))
               else if key == Str("secret") then Some(Str(around.secret))
               else if key == Str("mixed-port") && around.port.Some? then Some(Num(Integer(around.port.value)))
               else At(merged, key)
  {
    assert |"tun"| == 3 && |"external-controller"| == 19 && |"secret"| == 6 && |"mixed-port"| == 10;
  }

  lemma BoundShows(config: Value, outbound: Outbound, key: Value)
    requires config.Mapping? && outbound.foreignTun
    ensures At(WithOutbound(config, outbound), key)
            == if key == Str("dns") then Some(OutboundDns(FieldOr(config, "dns", EMPTY)))
               else if key == Str("interface-name") && At(config, key).None? && outbound.selected.Some?
                 then Some(Str(outbound.selected.value))
               else At(config, key)
  {
    assert |"interface-name"| == 14 && |"dns"| == 3;
  }

  lemma ServersShown(merged: Value)
    requires FieldOr(merged, "dns", EMPTY).Mapping?
    ensures ShowsServers(Some(OutboundDns(FieldOr(merged, "dns", EMPTY))), At(merged, Str("dns")))
  {
    assert |"default-nameserver"| == 18 && |"nameserver"| == 10 && |"proxy-server-nameserver"| == 23;
  }

  lemma TunShown(merged: Value, over: Value)
    requires TunShaped(merged)
    ensures ShowsTun(Some(Insert(FieldOr(merged, "tun", EMPTY), "enable", Bool(TunEnabled(over)))),
                     At(merged, Str("tun")), over)
  {
  }

  /** One entry of a built runtime, in terms of the merged layers. */
  lemma LayeredAt(base: Value, over: Value, around: Surroundings, key: Value)
    requires Layered(base, over, around).Ok?
    ensures var merged, runtime := Merge(base, over), Layered(base, over, around).value;
            && merged.Mapping? && over.Mapping? && TunShaped(merged) && runtime.Mapping?
            && At(runtime, key)
               == if key == Str("tun") then Some(Insert(FieldOr(merged, "tun", EMPTY), "enable", Bool(TunEnabled(over))))
                  else if key == Str("external-controller") then Some(Str("127.0.0.1:19090"))
                  else if key == Str("secret") then Some(Str(around.secret))
                  else if key == Str("mixed-port") && around.port.Some? then Some(Num(Integer(around.port.value)))
                  else if around.outbound.foreignTun && key == Str("dns") then
                    Some(OutboundDns(FieldOr(merged, "dns", EMPTY)))
                  else if around.outbound.foreignTun && key == Str("interface-name")
                          && At(merged, key).None? && around.outbound.selected.Some?
                    then Some(Str(around.outbound.selected.value))
                  else At(merged, key)
  {
    hide Merge, TunEnabled, OutboundDns, ValidConfig, Stamped, WithOutbound;
    assert |"interface-name"| == 14 && |"dns"| == 3 && |"tun"| == 3 && "tun"[0] != "dns"[0];
    assert |"external-controller"| == 19 && |"secret"| == 6 && |"mixed-port"| == 10;
    var merged := Merge(base, over);
    var stamped := Stamped(merged, TunEnabled(over), around);
    StampedShows(merged, TunEnabled(over), around, key);
    StampedShows(merged, TunEnabled(over), around, Str("dns"));
    if around.outbound.foreignTun {
      BoundShows(stamped, around.outbound, key);
    } else {
      OnlyBesideForeign(stamped, around.outbound);
    }
    OnlyMappingsMerge(base, over);
  }

  lemma OnlyBesideForeign(config: Value, outbound: Outbound)
    requires config.Mapping? && !outbound.foreignTun
    ensures WithOutbound(config, outbound) == config
  {
  }

  lemma OnlyMappingsMerge(base: Value, over: Value)
    ensures Merge(base, over).Mapping? ==> over.Mapping?
  {
  }

  /** Beside a foreign TUN a built runtime has a `dns` section. */
  lemma LayeredDns(base: Value, over: Value, around: Surroundings)
    requires Layered(base, over, around).Ok? && around.outbound.foreignTun
    ensures FieldOr(Merge(base, over), "dns", EMPTY).Mapping?
  {
    hide Merge, Stamped, TunEnabled, ValidDns, ValidPort;
    var runtime := Layered(base, over, around).value;
    LayeredAt(base, over, around, Str("dns"));
    assert |"dns"| == 3 && "tun"[0] != "dns"[0];
    ConfigIsAcceptedExactly(runtime);
    DnsIsMapping(runtime);
  }

  /** The entries the layering does not own are those the two layers show. */
  lemma LayeredElsewhere(base: Value, over: Value, around: Surroundings, key: Value)
    requires Layered(base, over, around).Ok?
    requires key !in {Str("tun"), Str("external-controller"), Str("secret"), Str("mixed-port")}
    requires around.outbound.foreignTun ==> key !in {Str("dns"), Str("interface-name")}
    ensures At(Layered(base, over, around).value, key) == Found(base, over, key)
  {
    hide Merge, Found, Layered, TunEnabled, FieldOr, OutboundDns;
    LayeredAt(base, over, around, key);
    MergedEntry(base, over, key);
  }

  /** And its own ones. */
  lemma LayeredOwn(base: Value, over: Value, around: Surroundings)
    requires Layered(base, over, around).Ok?
    ensures var r := Layered(base, over, around).value;
            && r.Mapping?
            && At(r, Str("external-controller")) == Some(Str("127.0.0.1:19090")) && At(r, Str("secret")) == Some(Str(around.secret))
            && At(r, Str("mixed-port")) == (if around.port.Some? then Some(Num(Integer(around.port.value)))
                                            else Found(base, over, Str("mixed-port")))
            && ShowsTun(At(r, Str("tun")), Found(base, over, Str("tun")), over)
  {
    hide Merge, Found, Layered, TunEnabled, FieldOr, OutboundDns, ShowsTun, Insert, At;
    assert |"external-controller"| == 19 && |"secret"| == 6 && |"mixed-port"| == 10 && |"tun"| == 3;
    assert |"dns"| == 3 && |"interface-name"| == 14;
    LayeredAt(base, over, around, Str("external-controller"));
    LayeredAt(base, over, around, Str("secret"));
    LayeredAt(base, over, around, Str("mixed-port"));
    LayeredAt(base, over, around, Str("tun"));
    MergedEntry(base, over, Str("mixed-port"));
    MergedEntry(base, over, Str("tun"));
    TunShown(Merge(base, over), over);
  }

  lemma LayeredBound(base: Value, over: Value, around: Surroundings)
    requires Layered(base, over, around).Ok? && around.outbound.foreignTun
    ensures var r, name := Layered(base, over, around).value, Found(base, over, Str("interface-name"));
            && ShowsServers(At(r, Str("dns")), Found(base, over, Str("dns")))
            && At(r, Str("interface-name")) == if name.None? && around.outbound.selected.Some?
                                               then Some(Str(around.outbound.selected.value)) else name
  {
    hide Merge, Found, Layered, TunEnabled, FieldOr, OutboundDns, ShowsServers, Insert, At;
    assert |"external-controller"| == 19 && |"secret"| == 6 && |"mixed-port"| == 10 && |"tun"| == 3;
    assert |"dns"| == 3 && |"interface-name"| == 14 && "tun"[0] != "dns"[0];
    LayeredAt(base, over, around, Str("dns"));
    LayeredAt(base, over, around, Str("interface-name"));
    MergedEntry(base, over, Str("dns"));
    MergedEntry(base, over, Str("interface-name"));
    LayeredDns(base, over, around);
    ServersShown(Merge(base, over));
  }

  /** The layering shows what it is specified to show. */
  lemma LayeredShows(base: Value, over: Value, around: Surroundings)
    requires Layered(base, over, around).Ok?
    ensures Shows(Layered(base, over, around).value, base, over, around)
  {
    hide Found, Layered, ShowsTun, ShowsServers, At;
    LayeredOwn(base, over, around);
    if around.outbound.foreignTun {
      LayeredBound(base, over, around);
    }
    forall key | key !in {Str("tun"), Str("external-controller"), Str("secret"), Str("mixed-port")}
                 && (around.outbound.foreignTun ==> key !in {Str("dns"), Str("interface-name")})
      ensures At(Layered(base, over, around).value, key) == Found(base, over, key)
    {
      LayeredElsewhere(base, over, around, key);
    }
  }

  method ApplyRuntimeLayers(base: Value, runtimeOverride: Value, around: Surroundings)
    returns (result: Result<Value>)
    ensures result == Layered(base, runtimeOverride, around)
    ensures result.Ok? ==> Shows(result.value, base, runtimeOverride, around)
  {
    if Layered(base, runtimeOverride, around).Ok? {
      LayeredShows(base, runtimeOverride, around);
    }
    var tunEnabled := TunEnabled(runtimeOverride);
    var config := MergeValues(base, runtimeOverride);
    if !config.Mapping? {
      return Err;
    }
    var tun := FieldOr(config, "tun", EMPTY);
    if !tun.Mapping? {
      return Err;
    }
    tun := Insert(tun, "enable", Bool(tunEnabled));
    config := Insert(config, "tun", tun);
    config := Insert(config, "external-controller", Str(CONTROLLER));
    config := Insert(config, "secret", Str(around.secret));
    if around.port.Some? {
      config := Insert(config, "mixed-port", Num(Integer(around.port.value)));
    }
    config := ApplyOutbound(config, around.outbound);
    result := if ValidConfig(config) then Ok(config) else Err;
  }

  /** What a runtime shows leaves nothing open. */
  lemma ShowsOnlyOne(a: Value, b: Value, base: Value, over: Value, around: Surroundings)
    requires Shows(a, base, over, around) && Shows(b, base, over, around)
    ensures a == b
  {
    hide Found, NonEmptyList;
    assert SameEntries(a, b) by {
      forall key
        ensures At(a, key) == At(b, key)
      {
        if key == Str("tun") {
          SameMappings(At(a, key).value, At(b, key).value);
        } else if around.outbound.foreignTun && key == Str("dns") {
          SameMappings(At(a, key).value, At(b, key).value);
        }
      }
    }
    SameMappings(a, b);
  }

  ghost predicate SameEntries(a: Value, b: Value) {
    forall key :: At(a, key) == At(b, key)
  }

  lemma SameMappings(a: Value, b: Value)
    requires a.Mapping? && b.Mapping?
    ensures SameEntries(a, b) ==> a == b
  {
    if SameEntries(a, b) {
      assert forall key | key in a.entries :: At(b, key) == At(a, key);
      assert forall key | key in b.entries :: At(a, key) == At(b, key);
      assert a.entries == b.entries;
    }
  }

  lemma PortIsReadExactly(config: Value, port: int)
    ensures RuntimePort(Doc(config)) == Some(port)
            <==> Field(config, "mixed-port") == Some(Num(Integer(port))) && 1 <= port <= 65535
  {
  }

  predicate UsablePort(around: Surroundings) {
    around.port.Some? ==> 1 <= around.port.value <= 65535
  }

  /** The `tun` section can be edited as a mapping. */
  predicate TunShaped(config: Value) {
    FieldOr(config, "tun", EMPTY).Mapping?
  }

  /** Whatever profile and local override say, a built runtime has TUN on exactly when the runtime
      override turned it on. */
  lemma TunComesFromRuntimeOverride(base: Value, runtimeOverride: Value, around: Surroundings)
    requires Layered(base, runtimeOverride, around).Ok?
    ensures TunEnabled(Layered(base, runtimeOverride, around).value) == TunEnabled(runtimeOverride)
  {
    var merged := Merge(base, runtimeOverride);
    var stamped := Stamped(merged, TunEnabled(runtimeOverride), around);
    assert "tun"[0] != "dns"[0];
    assert Field(WithOutbound(stamped, around.outbound), "tun") == Field(stamped, "tun");
  }

  /** A built runtime is itself a valid base with an editable `tun` section. */
  lemma LayeredIsFit(base: Value, runtimeOverride: Value, around: Surroundings)
    requires Layered(base, runtimeOverride, around).Ok?
    ensures var runtime := Layered(base, runtimeOverride, around).value;
            ValidConfig(runtime) && TunShaped(runtime)
  {
    var merged := Merge(base, runtimeOverride);
    var stamped := Stamped(merged, TunEnabled(runtimeOverride), around);
    assert "tun"[0] != "dns"[0];
    assert Field(WithOutbound(stamped, around.outbound), "tun") == Field(stamped, "tun");
  }

  lemma StampKeepsValid(merged: Value, tunEnabled: bool, around: Surroundings)
    requires ValidConfig(merged) && TunShaped(merged) && UsablePort(around)
    ensures ValidConfig(Stamped(merged, tunEnabled, around))
  {
    var stamped := Stamped(merged, tunEnabled, around);
    assert "tun"[0] != "dns"[0];
    forall key | key in stamped.entries && key.Str?
      ensures ValidEntry(key.text, stamped.entries[key])
    {
      if key in merged.entries {
        assert ValidEntry(key.text, merged.entries[key]);
      }
    }
  }

  lemma OutboundKeepsValid(config: Value, outbound: Outbound)
    requires ValidConfig(config)
    ensures ValidConfig(WithOutbound(config, outbound))
  {
    var final := WithOutbound(config, outbound);
    var dns := FieldOr(config, "dns", EMPTY);
    assert ValidDns(dns) by {
      if Field(config, "dns").Some? {
        assert ValidEntry("dns", config.entries[Key("dns")]);
      }
    }
    assert ValidDns(OutboundDns(dns)) by {
      forall name | name in {"default-nameserver", "nameserver"} && Field(dns, name).Some?
        ensures Strings(Field(dns, name).value)
      {
        assert ValidDnsEntry(name, dns.entries[Key(name)]);
      }
      forall key | key in OutboundDns(dns).entries && key.Str?
        ensures ValidDnsEntry(key.text, OutboundDns(dns).entries[key])
      {
        if key in dns.entries {
          assert ValidDnsEntry(key.text, dns.entries[key]);
        }
      }
    }
    forall key | key in final.entries && key.Str?
      ensures ValidEntry(key.text, final.entries[key])
    {
      if key in config.entries {
        assert ValidEntry(key.text, config.entries[key]);
      }
    }
  }

  /** For a valid merge the layering fails exactly when the `tun` section is not a mapping. */
  lemma LayersAcceptExactly(base: Value, runtimeOverride: Value, around: Surroundings)
    requires ValidConfig(Merge(base, runtimeOverride)) && UsablePort(around)
    ensures Layered(base, runtimeOverride, around).Ok? <==> TunShaped(Merge(base, runtimeOverride))
  {
    var merged := Merge(base, runtimeOverride);
    if TunShaped(merged) {
      StampKeepsValid(merged, TunEnabled(runtimeOverride), around);
      OutboundKeepsValid(Stamped(merged, TunEnabled(runtimeOverride), around), around.outbound);
    }
  }

  lemma LayeredPort(base: Value, runtimeOverride: Value, around: Surroundings)
    requires Layered(base, runtimeOverride, around).Ok?
    requires around.port.None? || Int64(around.port.value)
    ensures Field(Layered(base, runtimeOverride, around).value, "mixed-port")
            == if around.port.Some? then Some(Num(Integer(around.port.value)))
               else Field(Merge(base, runtimeOverride), "mixed-port")
  {
    hide Merge, ValidConfig, TunEnabled, Resolvers;
    assert "mixed-port"[0] != "interface-name"[0];
  }

  /** The port found in a configuration built over a base can be stamped on that base again: once a
      runtime has been stored, later builds of the same base no longer depend on what was stored. */
  lemma StoredPortIsNeutral(base: Value, runtimeOverride: Value, again: Value, around: Surroundings)
    requires Layered(base, runtimeOverride, around).Ok? && UsablePort(around)
    requires base.Mapping? && again.Mapping? && runtimeOverride.Mapping?
    requires Field(again, "mixed-port").None? && Field(runtimeOverride, "mixed-port").None?
    ensures var stored := RuntimePort(Doc(Layered(base, runtimeOverride, around).value));
            Layered(base, again, around.(port := stored)) == Layered(base, again, around)
  {
    var runtime := Layered(base, runtimeOverride, around).value;
    LayeredPort(base, runtimeOverride, around);
    if Field(runtime, "mixed-port").Some? {
      assert ValidEntry("mixed-port", runtime.entries[Key("mixed-port")]);
    }
    var stored := RuntimePort(Doc(runtime));
    if around.port.None? && stored.Some? {
      assert Field(base, "mixed-port") == Some(Num(Integer(stored.value)));
      assert Field(Merge(base, again), "mixed-port") == Some(Num(Integer(stored.value)));
      StampingSamePort(Merge(base, again), TunEnabled(again), around, stored.value);
    }
  }

  lemma StampingSamePort(merged: Value, tunEnabled: bool, around: Surroundings, port: int)
    requires around.port.None? && Field(merged, "mixed-port") == Some(Num(Integer(port)))
    ensures merged.Mapping? && TunShaped(merged) ==>
              Stamped(merged, tunEnabled, around.(port := Some(port))) == Stamped(merged, tunEnabled, around)
  {
  }

  // ---------- the runtime override file ----------

  /** The runtime override as the original reads it: only `tun` and `dns` may appear. */
  function ReadRuntimeOverride(file: File<Value>): Result<Value> {
    match file
    case Missing => Ok(EMPTY)
    case Blank => Ok(EMPTY)
    case Garbled => Err
    case Doc(value) =>
      if value.Mapping? && value.entries.Keys <= {Key("tun"), Key("dns")} then Ok(value) else Err
  }

  const TUN_SETTINGS: map<Value, Value> :=
    map[Key("enable") := Bool(true), Key("stack") := Str("mixed"), Key("device") := Str("MioProxy"),
        Key("auto-route") := Bool(true), Key("auto-detect-interface") := Bool(true),
        Key("strict-route") := Bool(true),
        Key("dns-hijack") := Sequence([Str("any:53"), Str("tcp://any:53")])]

  function TunSection(tun: Value): Value
    requires tun.Mapping?
  {
    Mapping(tun.entries + TUN_SETTINGS)
  }

  /** The override file after a switch, or failure with the file untouched. */
  function Switched(file: File<Value>, enabled: bool): Result<File<Value>> {
    match ReadRuntimeOverride(file)
    case Err => Err
    case Ok(value) =>
      if !enabled then
        var rest := Mapping(value.entries - {Key("tun"), Key("dns")});
        Ok(if rest == EMPTY then Missing else Doc(rest))
      else OnEdit(value)
  }

  /** A `tun` section as this program switches it on, over one that was there. */
  ghost predicate ShowsOwnTun(tun: Value, before: Value) {
    && tun.Mapping? && At(tun, Str("enable")) == Some(Bool(true)) && At(tun, Str("stack")) == Some(Str("mixed"))
    && At(tun, Str("device")) == Some(Str("MioProxy")) && At(tun, Str("auto-route")) == Some(Bool(true))
    && At(tun, Str("auto-detect-interface")) == Some(Bool(true)) && At(tun, Str("strict-route")) == Some(Bool(true))
    && At(tun, Str("dns-hijack")) == Some(Sequence([Str("any:53"), Str("tcp://any:53")]))
    && forall key | key !in {Str("enable"), Str("stack"), Str("device"), Str("auto-route"),
                             Str("auto-detect-interface"), Str("strict-route"), Str("dns-hijack")} ::
         At(tun, key) == At(before, key)
  }

  ghost predicate ShowsEnabled(dns: Value, before: Value) {
    && dns.Mapping? && At(dns, Str("enable")) == Some(Bool(true))
    && forall key | key != Str("enable") :: At(dns, key) == At(before, key)
  }

  /** What switching on writes over the override that was read, entry by entry. */
  ghost predicate ShowsSwitch(next: Value, before: Value) {
    && next.Mapping?
    && (forall key | key !in {Str("tun"), Str("dns")} :: At(next, key) == At(before, key))
    && At(next, Str("tun")).Some? && ShowsOwnTun(At(next, Str("tun")).value, FieldOr(before, "tun", EMPTY))
    && At(next, Str("dns")).Some? && ShowsEnabled(At(next, Str("dns")).value, FieldOr(before, "dns", EMPTY))
  }

  lemma TunSectionShows(tun: Value)
    requires tun.Mapping?
    ensures ShowsOwnTun(TunSection(tun), tun)
  {
    assert |"enable"| == 6 && |"stack"| == 5 && |"device"| == 6 && |"auto-route"| == 10 && |"dns-hijack"| == 10;
    assert |"auto-detect-interface"| == 21 && |"strict-route"| == 12;
    assert "enable"[0] != "device"[0] && "auto-route"[0] != "dns-hijack"[0];
  }

  lemma EnabledShows(dns: Value)
    requires dns.Mapping?
    ensures ShowsEnabled(Insert(dns, "enable", Bool(true)), dns)
  {
  }

  lemma OnEditParts(value: Value)
    requires value.Mapping? && TunShaped(value) && FieldOr(value, "dns", EMPTY).Mapping?
    ensures var dns := Insert(FieldOr(value, "dns", EMPTY), "enable", Bool(true));
            var next := Insert(Insert(value, "dns", dns), "tun", TunSection(FieldOr(value, "tun", EMPTY)));
            && next.Mapping? && At(next, Str("dns")) == Some(dns)
            && At(next, Str("tun")) == Some(TunSection(FieldOr(value, "tun", EMPTY)))
            && (forall key | key != Str("tun") && key != Str("dns") :: At(next, key) == At(value, key))
            && (forall name | name != "tun" :: Field(next, name) == if name == "dns" then Some(dns) else Field(value, name))
  {
    assert "tun"[0] != "dns"[0];
    hide TunSection;
  }

  lemma OnEditShows(value: Value)
    requires value.Mapping? && OnEdit(value).Ok?
    ensures OnEdit(value).value.Doc? && ShowsSwitch(OnEdit(value).value.content, value)
  {
    hide ValidConfig, TunSection, ShowsOwnTun, ShowsEnabled, Insert, FieldOr, At;
    OnEditParts(value);
    EnabledShows(FieldOr(value, "dns", EMPTY));
    TunSectionShows(FieldOr(value, "tun", EMPTY));
  }

  /** Switching on succeeds exactly if both sections can be edited and the edited `dns` section is accepted. */
  lemma SwitchesOnExactly(file: File<Value>)
    ensures Switched(file, true).Ok?
            <==> && ReadRuntimeOverride(file).Ok?
                 && var before := ReadRuntimeOverride(file).value;
                    TunShaped(before) && FieldOr(before, "dns", EMPTY).Mapping?
                    && ValidDns(Insert(FieldOr(before, "dns", EMPTY), "enable", Bool(true)))
  {
    if ReadRuntimeOverride(file).Ok? {
      var before := ReadRuntimeOverride(file).value;
      if TunShaped(before) && FieldOr(before, "dns", EMPTY).Mapping? {
        var dns := Insert(FieldOr(before, "dns", EMPTY), "enable", Bool(true));
        var next := Insert(Insert(before, "dns", dns), "tun", TunSection(FieldOr(before, "tun", EMPTY)));
        hide ValidConfig, ValidDns, TunSection, Insert, ReadRuntimeOverride;
        OnEditParts(before);
        ConfigIsAcceptedExactly(next);
        assert |"tun"| == 3 && |"dns"| == 3 && |"mixed-port"| == 10 && |"proxies"| == 7 && |"proxy-groups"| == 12;
        assert |"rules"| == 5 && |"rule-providers"| == 14;
        OnlyTunAndDns(file, before);
      }
    }
  }

  lemma OnlyTunAndDns(file: File<Value>, value: Value)
    requires ReadRuntimeOverride(file) == Ok(value)
    ensures forall name | name != "tun" && name != "dns" :: Field(value, name).None?
  {
  }

  /** Which override files are readable. */
  lemma OverrideIsReadExactly(file: File<Value>)
    ensures ReadRuntimeOverride(file).Ok?
            <==> file.Missing? || file.Blank?
                 || (file.Doc? && file.content.Mapping?
                     && forall key | key in file.content.entries :: key == Str("tun") || key == Str("dns"))
    ensures ReadRuntimeOverride(file).Ok? ==>
              ReadRuntimeOverride(file).value == if file.Doc? then file.content else Mapping(map[])
  {
  }

  /** The original's in-place edits of the override it has read. */
  method SwitchTun(file: File<Value>, enabled: bool) returns (result: Result<File<Value>>)
    ensures result == Switched(file, enabled)
    ensures enabled && result.Ok? ==>
              result.value.Doc? && ShowsSwitch(result.value.content, ReadRuntimeOverride(file).value)
    ensures !enabled && result.Ok? ==> result.value.Missing?
  {
    if enabled && ReadRuntimeOverride(file).Ok? && OnEdit(ReadRuntimeOverride(file).value).Ok? {
      OnEditShows(ReadRuntimeOverride(file).value);
    }
    SwitchOffDeletes(file);
    hide OnEdit, ShowsSwitch;
    var read := ReadRuntimeOverride(file);
    result := Err;
    if read.Ok? {
      if enabled {
        result := SwitchOn(read.value);
      } else {
        var entries := read.value.entries - {Key("tun")};
        entries := entries - {Key("dns")};
        assert entries == read.value.entries - {Key("tun"), Key("dns")};
        result := Ok(if entries == map[] then Missing else Doc(Mapping(entries)));
      }
    }
  }

  function OnEdit(value: Value): Result<File<Value>>
    requires value.Mapping?
  {
    var tun, dns := FieldOr(value, "tun", EMPTY), FieldOr(value, "dns", EMPTY);
    if !tun.Mapping? || !dns.Mapping? then Err
    else
      var next := Insert(Insert(value, "dns", Insert(dns, "enable", Bool(true))), "tun", TunSection(tun));
      if ValidConfig(next) then Ok(Doc(next)) else Err
  }

  method SwitchOn(value: Value) returns (result: Result<File<Value>>)
    requires value.Mapping?
    ensures result == OnEdit(value)
  {
    hide ValidConfig;
    var entries := value.entries;
    var tun := FieldOr(value, "tun", EMPTY);
    if !tun.Mapping? {
      return Err;
    }
    entries := entries - {Key("tun")};
    assert "tun"[0] != "dns"[0];
    var dns := FieldOr(Mapping(entries), "dns", EMPTY);
    if !dns.Mapping? {
      return Err;
    }
    dns := Insert(dns, "enable", Bool(true));
    entries := entries[Key("dns") := dns];
    tun := TunSection(Insert(tun, "enable", Bool(true)));
    SameSection(FieldOr(value, "tun", EMPTY));
    entries := entries[Key("tun") := tun];
    assert entries == Insert(Insert(value, "dns", dns), "tun", tun).entries;
    result := if ValidConfig(Mapping(entries)) then Ok(Doc(Mapping(entries))) else Err;
  }

  lemma SameSection(tun: Value)
    requires tun.Mapping?
    ensures TunSection(Insert(tun, "enable", Bool(true))) == TunSection(tun)
  {
  }

  /** What the first switch to on writes. */
  const ON: Value := Mapping(map[Key("tun") := TunSection(EMPTY),
                                 Key("dns") := Mapping(map[Key("enable") := Bool(true)])])

  /** The file holds what this program writes there, or is absent. */
  predicate OwnWriting(file: File<Value>) {
    file == Missing || file == Doc(ON)
  }

  lemma SwitchOffDeletes(file: File<Value>)
    ensures Switched(file, false).Ok? <==> ReadRuntimeOverride(file).Ok?
    ensures Switched(file, false).Ok? ==> Switched(file, false).value == Missing
  {
  }

  lemma OnIsOn()
    ensures TunEnabled(ON) && ValidConfig(ON) && ReadRuntimeOverride(Doc(ON)) == Ok(ON)
    ensures FieldOr(ON, "dns", EMPTY) == Mapping(map[Key("enable") := Bool(true)])
    ensures Field(ON, "tun") == Some(TunSection(EMPTY)) && !TunEnabled(EMPTY)
  {
    assert "tun"[0] != "dns"[0];
    assert TunSection(EMPTY).entries == TUN_SETTINGS;
    assert "enable"[0] != "device"[0];
    assert TUN_SETTINGS[Key("enable")] == Bool(true);
    var dns := Mapping(map[Key("enable") := Bool(true)]);
    assert ValidDns(dns);
    assert ON.entries[Key("dns")] == dns;
    assert ValidEntry("dns", dns);
    assert ValidEntry("tun", TunSection(EMPTY));
  }

  lemma BothReplaced(value: Value, tun: Value, dns: Value)
    requires value.Mapping? && value.entries.Keys <= {Key("tun"), Key("dns")}
    ensures Insert(Insert(value, "dns", dns), "tun", tun) == Mapping(map[Key("tun") := tun, Key("dns") := dns])
  {
  }

  lemma TunSectionStable()
    ensures TunSection(EMPTY).Mapping? && TunSection(TunSection(EMPTY)) == TunSection(EMPTY)
  {
  }

  lemma SwitchOnWrites(file: File<Value>)
    requires OwnWriting(file)
    ensures Switched(file, true) == Ok(Doc(ON))
  {
    OnIsOn();
    TunSectionStable();
    var enabled := map[Key("enable") := Bool(true)];
    var value := ReadRuntimeOverride(file).value;
    var tun, dns := FieldOr(value, "tun", EMPTY), FieldOr(value, "dns", EMPTY);
    assert TunSection(tun) == TunSection(EMPTY);
    assert Insert(dns, "enable", Bool(true)) == Mapping(enabled) by {
      assert dns.entries[Key("enable") := Bool(true)] == enabled;
    }
    BothReplaced(value, TunSection(EMPTY), Mapping(enabled));
  }

  function Toggled(file: File<Value>, switches: seq<bool>): File<Value>
    decreases |switches|
  {
    if switches == [] then file
    else
      var next := Switched(file, switches[0]);
      Toggled(if next.Ok? then next.value else file, switches[1..])
  }

  /** Starting from no file, any run of switches leaves no file after an off and the same file after an on. */
  lemma {:induction false} TogglesStayOwn(file: File<Value>, switches: seq<bool>)
    requires OwnWriting(file)
    ensures Toggled(file, switches) == if switches == [] then file
                                       else if switches[|switches| - 1] then Doc(ON) else Missing
    decreases |switches|
  {
    if switches != [] {
      OnIsOn();
      SwitchOffDeletes(file);
      SwitchOnWrites(file);
      TogglesStayOwn(Switched(file, switches[0]).value, switches[1..]);
    }
  }
}
