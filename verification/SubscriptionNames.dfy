// Unique proxy names in converted subscriptions (src-tauri/src/profiles.rs).
module SubscriptionNames {
  import opened Basics
  import opened Text
  import opened Sets
  import opened Yaml
  import Config

  const DIRECT := "DIRECT"

  /** One line of a subscription: to be skipped, or a link whose pieces the URL library has taken apart. */
  datatype Line = Skipped | Link(parses: bool, fragment: Result<Option<string>>, settings: Result<map<Value, Value>>)

  function Numbered(candidate: string, suffix: nat): string {
    candidate + " " + Decimal(suffix)
  }

  function Candidate(fragment: Option<string>, index: nat): string {
    if fragment.Some? && !IsBlank(fragment.value) then fragment.value else "Node " + Decimal(index)
  }

  ghost predicate AllTaken(candidate: string, last: nat, used: set<string>) {
    candidate in used && forall k | 2 <= k <= last :: Numbered(candidate, k) in used
  }

  lemma NumberedIsInjective(candidate: string, a: nat, b: nat)
    ensures Numbered(candidate, a) != candidate
    ensures Numbered(candidate, a) == Numbered(candidate, b) ==> a == b
  {
    assert |Numbered(candidate, a)| > |candidate|;
    if Numbered(candidate, a) == Numbered(candidate, b) {
      var n := |candidate| + 1;
      assert Decimal(a) == Numbered(candidate, a)[n..] && Decimal(b) == Numbered(candidate, b)[n..];
      DecimalIsInjective(a, b);
    }
  }

  /** The names tried and found taken are as many as the attempts. */
  lemma {:induction false} TakenNames(candidate: string, last: nat, used: set<string>) returns (taken: set<string>)
    requires last >= 1 && AllTaken(candidate, last, used)
    ensures taken <= used && |taken| == last
    ensures candidate in taken && forall name <- taken :: name == candidate
                                                         || exists k :: 2 <= k <= last && name == Numbered(candidate, k)
  {
    if last == 1 {
      taken := {candidate};
    } else {
      taken := TakenNames(candidate, last - 1, used);
      var name := Numbered(candidate, last);
      NumberedIsInjective(candidate, last, last);
      if name in taken {
        var k :| 2 <= k <= last - 1 && name == Numbered(candidate, k);
        NumberedIsInjective(candidate, last, k);
      }
      taken := taken + {name};
    }
  }

  /** The search cannot fail: among the first |used| + 1 candidates one is free. */
  lemma SomeNameIsFree(candidate: string, last: nat, used: set<string>)
    requires AllTaken(candidate, last, used) && last >= 1
    ensures last <= |used|
  {
    var taken := TakenNames(candidate, last, used);
    SubsetSize(taken, used);
  }

  class UsedNames {
    var used: set<string>

    constructor ()
      ensures used == {DIRECT}
    {
      used := {DIRECT};
    }

    /** `proxy_name`: a name not used before; the search stops by suffix |used| + 1 at the latest. */
    method ProxyName(fragment: Result<Option<string>>, index: nat) returns (r: Result<string>)
      modifies this
      ensures r.Err? <==> fragment.Err?
      ensures r.Err? ==> used == old(used)
      ensures r.Ok? ==> r.value !in old(used) && used == old(used) + {r.value}
      ensures r.Ok? ==>
                var candidate := Candidate(fragment.value, index);
                if candidate !in old(used) then r.value == candidate
                else exists k :: 2 <= k <= |old(used)| + 1 && r.value == Numbered(candidate, k)
                                 && AllTaken(candidate, k - 1, old(used))
    {
      if fragment.Err? {
        return Err;
      }
      var candidate := Candidate(fragment.value, index);
      if candidate !in used {
        used := used + {candidate};
        return Ok(candidate);
      }
      var suffix := 2;
      while Numbered(candidate, suffix) in used
        invariant used == old(used) && 2 <= suffix <= |used| + 1
        invariant AllTaken(candidate, suffix - 1, used)
        decreases |used| + 1 - suffix
      {
        SomeNameIsFree(candidate, suffix, used);
        suffix := suffix + 1;
      }
      r := Ok(Numbered(candidate, suffix));
      used := used + {r.value};
    }
  }

  // ---------- the whole subscription ----------

  function Named(name: string, settings: map<Value, Value>): Value {
    Mapping(settings[Key("name") := Str(name)])
  }

  function NameOf(proxy: Value): Option<string> {
    var name := Field(proxy, "name");
    if name.Some? && name.value.Str? then Some(name.value.text) else None
  }

  function Texts(names: seq<string>): seq<Value> {
    seq(|names|, i requires 0 <= i < |names| => Str(names[i]))
  }

  function GroupOf(names: seq<string>): Value {
    Mapping(map[Key("name") := Str("PROXY"), Key("type") := Str("select"),
                Key("proxies") := Sequence(Texts(names + [DIRECT]))])
  }

  const DNS_DEFAULTS := Mapping(map[
    Key("enable") := Bool(true), Key("enhanced-mode") := Str("redir-host"),
    Key("nameserver") := Sequence([Str("system")])])

  const RULES := Sequence([
    Str("GEOSITE,private,DIRECT"), Str("GEOIP,private,DIRECT,no-resolve"), Str("GEOSITE,CN,DIRECT"),
    Str("GEOIP,CN,DIRECT"), Str("MATCH,PROXY")])

  function Converted(proxies: seq<Value>, names: seq<string>): Value {
    Mapping(map[
      Key("mixed-port") := Num(Integer(7890)), Key("allow-lan") := Bool(false), Key("mode") := Str("rule"),
      Key("log-level") := Str("info"), Key("proxies") := Sequence(proxies),
      Key("proxy-groups") := Sequence([GroupOf(names)]), Key("rules") := RULES, Key("dns") := DNS_DEFAULTS])
  }

  ghost predicate Distinct(names: seq<string>) {
    forall i, j | 0 <= i < j < |names| :: names[i] != names[j]
  }

  /** The proxies carry exactly these names, in this order. */
  ghost predicate Carry(proxies: seq<Value>, names: seq<string>) {
    |proxies| == |names| && forall i | 0 <= i < |names| :: NameOf(proxies[i]) == Some(names[i])
  }

  predicate Usable(line: Line) {
    line.Link? ==> line.parses && line.fragment.Ok? && line.settings.Ok?
  }

  /** The numbers of the lines that hold links, counted from one. */
  function Links(lines: seq<Line>): seq<nat> {
    if lines == [] then []
    else
      var before := Links(lines[..|lines| - 1]);
      if lines[|lines| - 1].Link? then before + [|lines|] else before
  }

  /** These are all of them, in order. */
  lemma {:induction false} LinksAreAll(lines: seq<Line>)
    ensures forall n :: n in Links(lines) <==> 1 <= n <= |lines| && lines[n - 1].Link?
    ensures forall i, j | 0 <= i < j < |Links(lines)| :: Links(lines)[i] < Links(lines)[j]
  {
    if lines != [] {
      var before := lines[..|lines| - 1];
      LinksAreAll(before);
      assert lines == before + [lines[|lines| - 1]];
      assert forall i | 0 <= i < |Links(before)| :: Links(before)[i] in Links(before);
    }
  }

  /** The name a link gets while these are taken: its own unless that is blank, else its line's, followed by the first
      number from two on that makes it free. */
  ghost predicate NamedFor(name: string, fragment: Option<string>, number: nat, taken: set<string>) {
    var own := if fragment.Some? && !IsBlank(fragment.value) then fragment.value else "Node " + Decimal(number);
    if own !in taken then name == own
    else
      exists k :: k >= 2 && name == own + " " + Decimal(k) && name !in taken
                  && forall j | 2 <= j < k :: own + " " + Decimal(j) in taken
  }

  /** A link's proxy: its settings under that name. */
  ghost predicate ProxyOf(proxy: Value, name: string, settings: map<Value, Value>) {
    && proxy.Mapping? && Field(proxy, "name") == Some(Str(name))
    && forall key | key != Key("name") :: At(proxy, key) == if key in settings then Some(settings[key]) else None
  }

  /** Names taken before the i-th link is named. */
  function Taken(names: seq<string>): set<string> {
    {"DIRECT"} + set name <- names
  }

  /** The proxies and their names are those of the links, in order. */
  ghost predicate FromLinks(lines: seq<Line>, proxies: seq<Value>, names: seq<string>) {
    && |proxies| == |names| == |Links(lines)|
    && forall i | 0 <= i < |names| ::
         var number := Links(lines)[i];
         && 1 <= number <= |lines| && lines[number - 1].Link? && Usable(lines[number - 1])
         && NamedFor(names[i], lines[number - 1].fragment.value, number, Taken(names[..i]))
         && ProxyOf(proxies[i], names[i], lines[number - 1].settings.value)
  }

  /** The whole document around the proxies. */
  ghost predicate DocumentOf(root: Value, proxies: seq<Value>, names: seq<string>) {
    && root.Mapping?
    && root.entries.Keys == {Str("mixed-port"), Str("allow-lan"), Str("mode"), Str("log-level"), Str("proxies"),
                             Str("proxy-groups"), Str("rules"), Str("dns")}
    && Field(root, "mixed-port") == Some(Num(Integer(7890))) && Field(root, "allow-lan") == Some(Bool(false))
    && Field(root, "mode") == Some(Str("rule")) && Field(root, "log-level") == Some(Str("info"))
    && Field(root, "proxies") == Some(Sequence(proxies))
    && Field(root, "rules") == Some(Sequence([
         Str("GEOSITE,private,DIRECT"), Str("GEOIP,private,DIRECT,no-resolve"), Str("GEOSITE,CN,DIRECT"),
         Str("GEOIP,CN,DIRECT"), Str("MATCH,PROXY")]))
    && Field(root, "dns") == Some(Mapping(map[
         Str("enable") := Bool(true), Str("enhanced-mode") := Str("redir-host"),
         Str("nameserver") := Sequence([Str("system")])]))
    && Field(root, "proxy-groups").Some? && Field(root, "proxy-groups").value.Sequence?
    && |Field(root, "proxy-groups").value.items| == 1
    && GroupShows(Field(root, "proxy-groups").value.items[0], names)
  }

  /** The one group: all names in order, then DIRECT. */
  ghost predicate GroupShows(group: Value, names: seq<string>) {
    && group.Mapping? && group.entries.Keys == {Str("name"), Str("type"), Str("proxies")}
    && Field(group, "name") == Some(Str("PROXY")) && Field(group, "type") == Some(Str("select"))
    && Field(group, "proxies").Some? && Field(group, "proxies").value.Sequence?
    && var items := Field(group, "proxies").value.items;
       && |items| == |names| + 1 && items[|names|] == Str("DIRECT")
       && forall i | 0 <= i < |names| :: items[i] == Str(names[i])
  }

  /** `parse_proxy_uri`, for a line that holds a link. */
  method ParseLink(line: Line, number: nat, names: UsedNames) returns (r: Result<Value>, ghost name: string)
    requires line.Link?
    modifies names
    ensures r.Ok? <==> Usable(line)
    ensures r.Ok? ==>
              && ProxyOf(r.value, name, line.settings.value) && NameOf(r.value) == Some(name)
              && NamedFor(name, line.fragment.value, number, old(names.used))
              && name !in old(names.used) && names.used == old(names.used) + {name}
  {
    hide AllTaken, Candidate, IsBlank, NamedFor, ProxyOf, Named, NameOf;
    name := "";
    if !line.parses {
      return Err, name;
    }
    ghost var taken := names.used;
    var chosen := names.ProxyName(line.fragment, number);
    if chosen.Err? || line.settings.Err? {
      return Err, name;
    }
    name := chosen.value;
    NamedShows(name, line.settings.value);
    NameIsFor(name, line.fragment.value, number, taken);
    r := Ok(Named(chosen.value, line.settings.value));
  }

  /** `uri_subscription_to_yaml`: all or nothing, with every proxy under a name of its own. */
  method ConvertSubscription(lines: seq<Line>) returns (r: Result<Value>)
    ensures r.Ok? <==> (forall line <- lines :: Usable(line)) && exists line <- lines :: line.Link?
    ensures r.Ok? ==> exists proxies, names ::
              && DocumentOf(r.value, proxies, names) && FromLinks(lines, proxies, names)
              && Distinct(names + ["DIRECT"])
    ensures r.Ok? ==> Config.ValidConfig(r.value)
  {
    assert Progress([], [], []) && Taken([]) == {DIRECT};
    hide Config.ValidConfig, Converted, NamedFor, ProxyOf, DocumentOf, FromLinks, Taken, NameOf, Usable, Progress, Distinct,
         Carry;
    var names := new UsedNames();
    var proxies: seq<Value> := [];
    ghost var given: seq<string> := [];
    assert lines[..0] == [] && lines[..|lines|] == lines;
    for i := 0 to |lines|
      invariant fresh(names) && names.used == Taken(given) && Progress(lines[..i], proxies, given)
    {
      var line := lines[i];
      assert lines[..i] + [line] == lines[..i + 1] && line in lines;
      if line.Link? {
        var proxy, name := ParseLink(line, i + 1, names);
        if proxy.Err? {
          return Err;
        }
        ProgressMade(lines[..i], line, proxies, given, proxy.value, name);
        proxies := proxies + [proxy.value];
        given := given + [name];
      } else {
        SkippedProgress(lines[..i], line, proxies, given);
      }
    }
    ProgressDone(lines, proxies, given);
    if proxies == [] {
      return Err;
    }
    var listed := NamesOf(proxies);
    assert listed == given;
    ConvertedIsValid(proxies, listed);
    ConvertedShows(proxies, listed);
    r := Ok(Converted(proxies, listed));
  }

  lemma TakenMore(names: seq<string>, name: string)
    requires Distinct(names + [DIRECT]) && name !in Taken(names)
    ensures Taken(names + [name]) == Taken(names) + {name}
    ensures Distinct(names + [name] + [DIRECT])
  {
    var before, after := names + [DIRECT], names + [name] + [DIRECT];
    assert forall i | 0 <= i < |names| :: names[i] == before[i] == after[i] && names[i] in Taken(names);
    assert before[|names|] == DIRECT && DIRECT in Taken(names);
    forall i, j | 0 <= i < j < |after|
      ensures after[i] != after[j]
    {
      assert j < |names| ==> before[i] != before[j];
      assert i < |names| ==> before[i] != before[|names|];
    }
  }

  /** What the conversion has made of the lines so far. */
  ghost predicate Progress(lines: seq<Line>, proxies: seq<Value>, names: seq<string>) {
    FromLinks(lines, proxies, names) && Carry(proxies, names) && Distinct(names + [DIRECT])
    && forall line <- lines :: Usable(line)
  }

  lemma ProgressMade(lines: seq<Line>, line: Line, proxies: seq<Value>, names: seq<string>, proxy: Value, name: string)
    requires Progress(lines, proxies, names) && line.Link? && Usable(line) && name !in Taken(names)
    requires ProxyOf(proxy, name, line.settings.value) && NameOf(proxy) == Some(name)
    requires NamedFor(name, line.fragment.value, |lines| + 1, Taken(names))
    ensures Progress(lines + [line], proxies + [proxy], names + [name]) && Taken(names + [name]) == Taken(names) + {name}
  {
    hide FromLinks, NamedFor, ProxyOf, Taken, NameOf, Distinct;
    LinkAppended(lines, line, proxies, names, proxy, name);
    TakenMore(names, name);
  }

  lemma SkippedProgress(lines: seq<Line>, line: Line, proxies: seq<Value>, names: seq<string>)
    requires Progress(lines, proxies, names) && !line.Link?
    ensures Progress(lines + [line], proxies, names)
  {
    hide FromLinks, Distinct;
    SkippedAppended(lines, line, proxies, names);
  }

  lemma ProgressDone(lines: seq<Line>, proxies: seq<Value>, names: seq<string>)
    requires Progress(lines, proxies, names)
    ensures FromLinks(lines, proxies, names) && Carry(proxies, names) && Distinct(names + [DIRECT])
    ensures forall line <- lines :: Usable(line)
    ensures proxies != [] <==> exists line <- lines :: line.Link?
  {
    NoLinks(lines);
  }

  lemma NamedShows(name: string, settings: map<Value, Value>)
    ensures ProxyOf(Named(name, settings), name, settings) && NameOf(Named(name, settings)) == Some(name)
  {
  }

  lemma NameIsFor(name: string, fragment: Option<string>, number: nat, taken: set<string>)
    requires var candidate := Candidate(fragment, number);
             if candidate !in taken then name == candidate
             else name !in taken && exists k :: k >= 2 && name == Numbered(candidate, k) && AllTaken(candidate, k - 1, taken)
    ensures NamedFor(name, fragment, number, taken)
  {
    var candidate := Candidate(fragment, number);
    if candidate in taken {
      var k :| k >= 2 && name == Numbered(candidate, k) && AllTaken(candidate, k - 1, taken);
      forall j | 2 <= j < k
        ensures candidate + " " + Decimal(j) in taken
      {
        assert Numbered(candidate, j) in taken;
      }
    }
  }

  lemma LinkAppended(
      lines: seq<Line>, line: Line, proxies: seq<Value>, names: seq<string>, proxy: Value, name: string)
    requires FromLinks(lines, proxies, names) && line.Link? && Usable(line)
    requires NamedFor(name, line.fragment.value, |lines| + 1, Taken(names)) && ProxyOf(proxy, name, line.settings.value)
    ensures FromLinks(lines + [line], proxies + [proxy], names + [name])
  {
    hide NamedFor, ProxyOf, Taken;
    assert (lines + [line])[..|lines|] == lines;
    assert forall i | 0 <= i <= |names| :: (names + [name])[..i] == names[..i];
    assert names[..|names|] == names;
  }

  lemma SkippedAppended(lines: seq<Line>, line: Line, proxies: seq<Value>, names: seq<string>)
    requires FromLinks(lines, proxies, names) && !line.Link?
    ensures FromLinks(lines + [line], proxies, names)
  {
    hide NamedFor, ProxyOf, Taken;
    assert (lines + [line])[..|lines|] == lines;
  }

  lemma GroupIsShown(names: seq<string>)
    ensures GroupShows(GroupOf(names), names)
  {
    assert |"name"| == 4 && |"type"| == 4 && |"proxies"| == 7 && "name"[0] != "type"[0];
  }

  lemma RootEntry(proxies: seq<Value>, names: seq<string>)
    ensures var root := Converted(proxies, names);
            && root.Mapping?
            && Field(root, "mixed-port") == Some(Num(Integer(7890))) && Field(root, "allow-lan") == Some(Bool(false))
            && Field(root, "mode") == Some(Str("rule")) && Field(root, "log-level") == Some(Str("info"))
            && Field(root, "proxies") == Some(Sequence(proxies)) && Field(root, "rules") == Some(RULES)
            && Field(root, "dns") == Some(DNS_DEFAULTS) && Field(root, "proxy-groups") == Some(Sequence([GroupOf(names)]))
  {
    assert |"mixed-port"| == 10 && |"allow-lan"| == 9 && |"mode"| == 4 && |"log-level"| == 9 && |"proxies"| == 7;
    assert |"proxy-groups"| == 12 && |"rules"| == 5 && |"dns"| == 3 && "allow-lan"[0] != "log-level"[0];
    hide GroupOf;
  }

  lemma ConvertedShows(proxies: seq<Value>, names: seq<string>)
    ensures DocumentOf(Converted(proxies, names), proxies, names)
  {
    RootEntry(proxies, names);
    GroupIsShown(names);
    assert Converted(proxies, names).entries.Keys
        == {Str("mixed-port"), Str("allow-lan"), Str("mode"), Str("log-level"), Str("proxies"), Str("proxy-groups"),
            Str("rules"), Str("dns")};
    hide GroupOf, GroupShows, Converted;
  }

  lemma {:induction false} NoLinks(lines: seq<Line>)
    ensures Links(lines) != [] <==> exists line <- lines :: line.Link?
  {
    if lines != [] {
      var before, line := lines[..|lines| - 1], lines[|lines| - 1];
      NoLinks(before);
      assert lines == before + [line];
    }
  }

  /** The `filter_map` over the finished proxies. */
  method NamesOf(proxies: seq<Value>) returns (names: seq<string>)
    ensures forall expected | Carry(proxies, expected) :: names == expected
  {
    names := [];
    for i := 0 to |proxies|
      invariant forall expected | Carry(proxies, expected) :: names == expected[..i]
    {
      var name := NameOf(proxies[i]);
      if name.Some? {
        names := names + [name.value];
      }
    }
  }

  lemma DnsDefaultsAreValid()
    ensures Config.ValidDns(DNS_DEFAULTS)
  {
  }

  lemma Sections(proxies: seq<Value>, names: seq<string>)
    ensures var entries := Converted(proxies, names).entries;
            && Key("proxies") in entries && Key("proxy-groups") in entries
            && entries[Key("mixed-port")] == Num(Integer(7890))
            && entries[Key("proxies")] == Sequence(proxies)
            && entries[Key("proxy-groups")] == Sequence([GroupOf(names)])
            && entries[Key("rules")] == RULES
            && entries[Key("dns")] == DNS_DEFAULTS
            && Key("rule-providers") !in entries
  {
  }

  lemma SectionIsValid(name: string, entries: map<Value, Value>)
    requires Key(name) in entries && Key("rule-providers") !in entries
    requires name == "mixed-port" ==> entries[Key(name)] == Num(Integer(7890))
    requires name == "proxies" || name == "proxy-groups" || name == "rules" ==> entries[Key(name)].Sequence?
    requires name == "dns" ==> Config.ValidDns(entries[Key(name)])
    ensures Config.ValidEntry(name, entries[Key(name)])
  {
  }

  /** Every subscription that converts passes validation, and its one group offers its proxies and DIRECT. */
  lemma ConvertedIsValid(proxies: seq<Value>, names: seq<string>)
    ensures Config.ValidConfig(Converted(proxies, names))
    ensures Field(Converted(proxies, names), "proxies") == Some(Sequence(proxies))
    ensures Field(Converted(proxies, names), "proxy-groups") == Some(Sequence([GroupOf(names)]))
    ensures Field(GroupOf(names), "proxies") == Some(Sequence(Texts(names + [DIRECT])))
  {
    assert |"name"| == 4 && |"type"| == 4 && |"proxies"| == 7;
    assert Field(GroupOf(names), "proxies") == Some(Sequence(Texts(names + [DIRECT])));
    Sections(proxies, names);
    DnsDefaultsAreValid();
    var root := Converted(proxies, names);
    hide Converted, GroupOf, Config.ValidDns, Config.ValidEntry;
    forall key | key in root.entries && key.Str?
      ensures Config.ValidEntry(key.text, root.entries[key])
    {
      SectionIsValid(key.text, root.entries);
    }
  }
}
