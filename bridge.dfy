/**
  The hub bridge (bridge.py): it turns cloud writes into local MQTT payloads, builds the routing
  table from the configuration at start-up, subscribes to every routed topic when the local broker
  accepts it, and routes device reports to cloud variables with a per-type conversion.
*/
module Bridge {
  import opened Wrappers
  import opened Python

  const FROM_CLOUD := "FROM_CLOUD"
  const TO_CLOUD := "TO_CLOUD"
  const BIDIRECTIONAL := "BIDIRECTIONAL"

  /** One entry of an account's `variables` list; a key the configuration lacks is `None`. */
  datatype VarConfig = VarConfig(name: Option<string>, topic: Option<string>,
                                 varType: Option<string>, direction: Option<string>)

  /** The cloud may write the variable, so a write is forwarded to the devices. */
  predicate CloudWrites(direction: string) {
    direction == FROM_CLOUD || direction == BIDIRECTIONAL
  }

  /** The devices report the variable, so its topic is routed to the cloud. */
  predicate DeviceReports(direction: string) {
    direction == TO_CLOUD || direction == BIDIRECTIONAL
  }

  // ----- generic_on_write_callback -----

  /** The `swi` entry of a colour or dimmer command, `'false'` when absent, as "ON" or "OFF". */
  function SwitchState(entries: map<string, PyValue>): (s: string)
    ensures s == "ON" || s == "OFF"
  {
    if Lower(Str(Get(entries, "swi", PyStr("false")))) == "true" then "ON" else "OFF"
  }

  /**
    Which `swi` values switch the light on: a string spelling "true" in any case, or the boolean
    `True`; an absent entry, `False`, `None` and every integer switch it off.
  */
  lemma SwitchStateCases(entries: map<string, PyValue>)
    ensures "swi" !in entries ==> SwitchState(entries) == "OFF"
    ensures "swi" in entries && entries["swi"].PyBool? ==>
              (SwitchState(entries) == "ON" <==> entries["swi"].b)
    ensures "swi" in entries && entries["swi"].PyStr? ==>
              var s := entries["swi"].s;
              (SwitchState(entries) == "ON" <==>
                 |s| == 4 && (s[0] == 't' || s[0] == 'T') && (s[1] == 'r' || s[1] == 'R') &&
                 (s[2] == 'u' || s[2] == 'U') && (s[3] == 'e' || s[3] == 'E'))
    ensures "swi" in entries && (entries["swi"].PyInt? || entries["swi"].PyNone?) ==>
              SwitchState(entries) == "OFF"
  {
    var v := Get(entries, "swi", PyStr("false"));
    LowerIsTrue(Str(v));
    if v.PyInt? {
      var t := IntToString(v.i);
      assert Lower(t)[0] == LowerChar(t[0]);
    }
  }

  /** The `bri`, `hue` and `sat` entries as text, with their defaults. */
  function Entry(entries: map<string, PyValue>, key: string, default: string): string {
    Str(Get(entries, key, PyStr(default)))
  }

  /**
    The payload published for a cloud write of `value` to a variable of type `varType`, or `None`
    when formatting raises (a colour or dimmer command that is not a dictionary) and the callback
    returns without publishing.
  */
  function FormatPayload(value: PyValue, varType: string): (r: Option<string>)
    ensures r.None? <==> (varType == "Color" || varType == "Dimmed") && !value.PyDict?
  {
    if varType == "Boolean" then
      Some(if Truthy(value) then "ON" else "OFF")
    else if varType == "Color" then
      if value.PyDict? then
        Some("SWITCH=" + SwitchState(value.entries) +
             ",BRIGHTNESS=" + Entry(value.entries, "bri", "100") +
             ",HUE=" + Entry(value.entries, "hue", "0") +
             ",SATURATION=" + Entry(value.entries, "sat", "0"))
      else None
    else if varType == "Dimmed" then
      if value.PyDict? then
        Some("SWITCH=" + SwitchState(value.entries) +
             ",BRIGHTNESS=" + Entry(value.entries, "bri", "100"))
      else None
    else
      Some(Str(value))
  }

  /** The colour payload extends the dimmer payload of the same command by the hue and saturation. */
  lemma DimmedIsColorPrefix(entries: map<string, PyValue>, repr: string)
    ensures var dimmed := FormatPayload(PyDict(entries, repr), "Dimmed").value;
            var color := FormatPayload(PyDict(entries, repr), "Color").value;
            dimmed <= color && color[|dimmed|..][..5] == ",HUE="
  {
    var sw, b, h, sa := SwitchState(entries), Entry(entries, "bri", "100"), Entry(entries, "hue", "0"),
                        Entry(entries, "sat", "0");
    CommandPayloads(entries, repr, sw, b, h, sa);
    PrefixOfConcat("SWITCH=" + sw + ",BRIGHTNESS=" + b, ",HUE=", h, ",SATURATION=", sa);
  }

  lemma PrefixOfConcat(x: string, y: string, a: string, b: string, c: string)
    ensures x <= x + y + a + b + c && (x + y + a + b + c)[|x|..][..|y|] == y
  {
    assert (x + y + a + b + c)[|x|..] == y + a + b + c;
  }

  /** The switch of a command, and the command text, for given `swi`, `bri`, `hue` and `sat` texts. */
  lemma CommandPayloads(entries: map<string, PyValue>, repr: string, sw: string, b: string, h: string, sa: string)
    requires SwitchState(entries) == sw
    requires Entry(entries, "bri", "100") == b && Entry(entries, "hue", "0") == h && Entry(entries, "sat", "0") == sa
    ensures FormatPayload(PyDict(entries, repr), "Dimmed") == Some("SWITCH=" + sw + ",BRIGHTNESS=" + b)
    ensures FormatPayload(PyDict(entries, repr), "Color") ==
              Some("SWITCH=" + sw + ",BRIGHTNESS=" + b + ",HUE=" + h + ",SATURATION=" + sa)
  {
  }

  /**
    Reading a command payload back: when the entry texts hold no comma, splitting the colour
    payload at ',' gives exactly the four `KEY=VALUE` fields in order, and the dimmer payload the
    first two.
  */
  lemma CommandFields(entries: map<string, PyValue>, repr: string)
    requires ',' !in Entry(entries, "bri", "100")
    requires ',' !in Entry(entries, "hue", "0") && ',' !in Entry(entries, "sat", "0")
    ensures Split(FormatPayload(PyDict(entries, repr), "Color").value, ',') ==
              ["SWITCH=" + SwitchState(entries), "BRIGHTNESS=" + Entry(entries, "bri", "100"),
               "HUE=" + Entry(entries, "hue", "0"), "SATURATION=" + Entry(entries, "sat", "0")]
    ensures Split(FormatPayload(PyDict(entries, repr), "Dimmed").value, ',') ==
              ["SWITCH=" + SwitchState(entries), "BRIGHTNESS=" + Entry(entries, "bri", "100")]
  {
    var sw, b, h, sa := SwitchState(entries), Entry(entries, "bri", "100"), Entry(entries, "hue", "0"),
                        Entry(entries, "sat", "0");
    CommandPayloads(entries, repr, sw, b, h, sa);
    FieldWithoutComma("SWITCH=", sw);
    FieldWithoutComma("BRIGHTNESS=", b);
    FieldWithoutComma("HUE=", h);
    FieldWithoutComma("SATURATION=", sa);
    CommandJoins(sw, b, h, sa);
    SplitFields("SWITCH=" + sw, "BRIGHTNESS=" + b, "HUE=" + h, "SATURATION=" + sa);
  }

  /** Comma-free fields joined by commas split back into those fields. */
  lemma SplitFields(f1: string, f2: string, f3: string, f4: string)
    requires ',' !in f1 && ',' !in f2 && ',' !in f3 && ',' !in f4
    ensures Split(f1 + [','] + f2, ',') == [f1, f2]
    ensures Split(f1 + [','] + (f2 + [','] + (f3 + [','] + f4)), ',') == [f1, f2, f3, f4]
  {
    SplitWithoutSeparator(f2, ',');
    SplitWithoutSeparator(f4, ',');
    SplitJoined(f1, ',', f2);
    SplitJoined(f3, ',', f4);
    SplitJoined(f2, ',', f3 + [','] + f4);
    SplitJoined(f1, ',', f2 + [','] + (f3 + [','] + f4));
  }

  /** A field `key + text` holds no comma when neither part does. */
  lemma FieldWithoutComma(key: string, text: string)
    requires forall i :: 0 <= i < |key| ==> key[i] != ','
    requires ',' !in text
    ensures ',' !in key + text
  {
  }

  /** The payload texts are their fields joined by single commas. */
  lemma CommandJoins(sw: string, b: string, h: string, sa: string)
    ensures "SWITCH=" + sw + ",BRIGHTNESS=" + b ==
            ("SWITCH=" + sw) + [','] + ("BRIGHTNESS=" + b)
    ensures "SWITCH=" + sw + ",BRIGHTNESS=" + b + ",HUE=" + h + ",SATURATION=" + sa ==
            ("SWITCH=" + sw) + [','] + (("BRIGHTNESS=" + b) + [','] + (("HUE=" + h) + [','] + ("SATURATION=" + sa)))
  {
    assert ",BRIGHTNESS=" == [','] + "BRIGHTNESS=";
    assert ",HUE=" == [','] + "HUE=";
    assert ",SATURATION=" == [','] + "SATURATION=";
  }

  /** An empty command formats to the documented defaults: off, full brightness, hue and saturation 0. */
  lemma EmptyCommandDefaults(repr: string)
    ensures FormatPayload(PyDict(map[], repr), "Dimmed") == Some("SWITCH=OFF,BRIGHTNESS=100")
    ensures FormatPayload(PyDict(map[], repr), "Color") == Some("SWITCH=OFF,BRIGHTNESS=100,HUE=0,SATURATION=0")
  {
    var entries: map<string, PyValue> := map[];
    AbsentSwitchIsOff(entries);
    CommandPayloads(entries, repr, "OFF", "100", "0", "0");
    DefaultTexts();
  }

  /** A command without `swi` reads as `'false'`, which is off. */
  lemma AbsentSwitchIsOff(entries: map<string, PyValue>)
    requires "swi" !in entries
    ensures SwitchState(entries) == "OFF"
  {
    assert Get(entries, "swi", PyStr("false")) == PyStr("false");
    assert |Lower("false")| == 5;
  }

  lemma DefaultTexts()
    ensures "SWITCH=" + "OFF" + ",BRIGHTNESS=" + "100" == "SWITCH=OFF,BRIGHTNESS=100"
    ensures "SWITCH=" + "OFF" + ",BRIGHTNESS=" + "100" + ",HUE=" + "0" + ",SATURATION=" + "0" ==
            "SWITCH=OFF,BRIGHTNESS=100,HUE=0,SATURATION=0"
  {
    assert "SWITCH=" + "OFF" == "SWITCH=OFF";
    assert "SWITCH=OFF" + ",BRIGHTNESS=" == "SWITCH=OFF,BRIGHTNESS=";
    assert "SWITCH=OFF,BRIGHTNESS=" + "100" == "SWITCH=OFF,BRIGHTNESS=100";
    assert "SWITCH=OFF,BRIGHTNESS=100" + ",HUE=" == "SWITCH=OFF,BRIGHTNESS=100,HUE=";
    assert "SWITCH=OFF,BRIGHTNESS=100,HUE=" + "0" == "SWITCH=OFF,BRIGHTNESS=100,HUE=0";
    assert "SWITCH=OFF,BRIGHTNESS=100,HUE=0" + ",SATURATION=" == "SWITCH=OFF,BRIGHTNESS=100,HUE=0,SATURATION=";
  }

  lemma ExampleText()
    ensures "SWITCH=" + "ON" + ",BRIGHTNESS=" + "43" + ",HUE=" + "355" + ",SATURATION=" + "74" ==
            "SWITCH=ON,BRIGHTNESS=43,HUE=355,SATURATION=74"
  {
    assert "SWITCH=" + "ON" == "SWITCH=ON";
    assert "SWITCH=ON" + ",BRIGHTNESS=" == "SWITCH=ON,BRIGHTNESS=";
    assert "SWITCH=ON,BRIGHTNESS=" + "43" == "SWITCH=ON,BRIGHTNESS=43";
    assert "SWITCH=ON,BRIGHTNESS=43" + ",HUE=" == "SWITCH=ON,BRIGHTNESS=43,HUE=";
    assert "SWITCH=ON,BRIGHTNESS=43,HUE=" + "355" == "SWITCH=ON,BRIGHTNESS=43,HUE=355";
    assert "SWITCH=ON,BRIGHTNESS=43,HUE=355" + ",SATURATION=" == "SWITCH=ON,BRIGHTNESS=43,HUE=355,SATURATION=";
  }

  /** The command shape the cloud sends for a colour light formats field by field. */
  lemma ColorCommandExample()
    ensures FormatPayload(PyDict(map["bri" := PyStr("43"), "hue" := PyStr("355"),
                                     "sat" := PyStr("74"), "swi" := PyStr("true")], ""), "Color")
            == Some("SWITCH=ON,BRIGHTNESS=43,HUE=355,SATURATION=74")
  {
    var entries := map["bri" := PyStr("43"), "hue" := PyStr("355"), "sat" := PyStr("74"), "swi" := PyStr("true")];
    LowerOfLowerCase("true");
    assert SwitchState(entries) == "ON";
    CommandPayloads(entries, "", "ON", "43", "355", "74");
    ExampleText();
  }

  /** A publish on the local broker. */
  datatype LocalPublish = LocalPublish(topic: string, payload: string)

  /** The four keys the callback reads before anything else are all present. */
  predicate Complete(config: VarConfig) {
    config.name.Some? && config.topic.Some? && config.varType.Some? && config.direction.Some?
  }

  /**
    `generic_on_write_callback`: at most one publish, made exactly when the configuration is
    complete, the payload formats, the local client is connected and the cloud may write the
    variable; it goes to the variable's own topic with the formatted payload. A missing
    configuration key raises `KeyError` out of the callback in the source; here it is `None`, no
    publish, and the exception itself is not modelled.
  */
  function OnWrite(value: PyValue, config: VarConfig, localConnected: bool): (r: Option<LocalPublish>)
    ensures r.Some? <==>
              Complete(config) && FormatPayload(value, config.varType.value).Some? &&
              localConnected && CloudWrites(config.direction.value)
    ensures r.Some? ==>
              r.value.topic == config.topic.value &&
              Some(r.value.payload) == FormatPayload(value, config.varType.value)
  {
    if !Complete(config) then None
    else
      match FormatPayload(value, config.varType.value)
      case None => None
      case Some(payload) =>
        if localConnected && CloudWrites(config.direction.value) then
          Some(LocalPublish(config.topic.value, payload))
        else None
  }

  // ----- the routing table -----

  /** A routing rule: a copy of the variable's configuration with the owning account added. */
  datatype Rule = Rule(account: string, name: string, varType: string, direction: string, topic: string)

  /** An account's configuration section; `NotADict` is a top-level entry that is not a mapping. */
  datatype Section =
    | NotADict
    | Section(enabled: Option<PyValue>, deviceId: Option<string>, secretKey: Option<string>,
              variables: seq<VarConfig>)

  datatype Account = Account(name: string, section: Section)

  /** `isinstance(acc_config, dict) and acc_config.get('enabled', False)`. */
  predicate Enabled(section: Section) {
    section.Section? && section.enabled.Some? && Truthy(section.enabled.value)
  }

  /** The account is enabled and the client can be created: `device_id` and `secret_key` exist. */
  predicate Starts(section: Section) {
    Enabled(section) && section.deviceId.Some? && section.secretKey.Some?
  }

  /** What one variable does to the start-up loop. */
  datatype Step = Abort | Skip | Route(rule: Rule)

  /**
    A variable missing `name`, `direction` or `type`, or a routed one missing `topic`, raises a
    `KeyError` that abandons the rest of its account; a variable the devices do not report adds no
    rule.
  */
  function VarStep(account: string, v: VarConfig): (s: Step)
    ensures s.Route? ==> s.rule.account == account && DeviceReports(s.rule.direction) &&
                         Some(s.rule.name) == v.name && Some(s.rule.topic) == v.topic &&
                         Some(s.rule.varType) == v.varType && Some(s.rule.direction) == v.direction
  {
    if v.name.None? || v.direction.None? || v.varType.None? then Abort
    else if !DeviceReports(v.direction.value) then Skip
    else if v.topic.None? then Abort
    else Route(Rule(account, v.name.value, v.varType.value, v.direction.value, v.topic.value))
  }

  predicate NoAbort(account: string, vars: seq<VarConfig>) {
    forall j :: 0 <= j < |vars| ==> !VarStep(account, vars[j]).Abort?
  }

  /** The rules one account's variables add, in order, up to the first configuration error. */
  function VarRules(account: string, vars: seq<VarConfig>): seq<Rule> {
    if vars == [] then []
    else
      match VarStep(account, vars[0])
      case Abort => []
      case Skip => VarRules(account, vars[1..])
      case Route(r) => [r] + VarRules(account, vars[1..])
  }

  function AccountRules(acc: Account): seq<Rule> {
    if Starts(acc.section) then VarRules(acc.name, acc.section.variables) else []
  }

  /** All rules of the configuration, in configuration order. */
  function ConfigRules(config: seq<Account>): seq<Rule> {
    if config == [] then []
    else ConfigRules(config[..|config| - 1]) + AccountRules(config[|config| - 1])
  }

  /** The accounts whose client is stored: started, and no configuration error in a variable. */
  function Clients(config: seq<Account>): set<string> {
    if config == [] then {}
    else
      var acc := config[|config| - 1];
      Clients(config[..|config| - 1]) +
        (if Starts(acc.section) && NoAbort(acc.name, acc.section.variables) then {acc.name} else {})
  }

  /** The routing dictionary: its keys in insertion order and the list of rules under each. */
  datatype RoutingTable = RoutingTable(topics: seq<string>, rules: map<string, seq<Rule>>)

  predicate NoDuplicateTopics(topics: seq<string>) {
    forall i, j :: 0 <= i < j < |topics| ==> topics[i] != topics[j]
  }

  /** The key order belongs to exactly the keys of the dictionary, once each. */
  ghost predicate TableValid(t: RoutingTable) {
    NoDuplicateTopics(t.topics) && forall topic :: topic in t.rules <==> topic in t.topics
  }

  /** Appending a rule under its topic, creating the empty list first when the topic is new. */
  function Insert(t: RoutingTable, r: Rule): RoutingTable {
    var t' := if r.topic in t.rules then t else RoutingTable(t.topics + [r.topic], t.rules[r.topic := []]);
    t'.(rules := t'.rules[r.topic := t'.rules[r.topic] + [r]])
  }

  /** The table built from a sequence of rules, inserted in order into an empty dictionary. */
  function TableOf(rules: seq<Rule>): RoutingTable {
    if rules == [] then RoutingTable([], map[])
    else Insert(TableOf(rules[..|rules| - 1]), rules[|rules| - 1])
  }

  /** The rules for one topic, in order: the reference the table is checked against. */
  function RulesOn(rules: seq<Rule>, topic: string): (s: seq<Rule>)
    ensures |s| <= |rules|
    ensures forall k :: 0 <= k < |s| ==> s[k].topic == topic && s[k] in rules
    ensures forall r :: r in rules && r.topic == topic ==> r in s
  {
    if rules == [] then []
    else
      var last := rules[|rules| - 1];
      RulesOn(rules[..|rules| - 1], topic) + (if last.topic == topic then [last] else [])
  }

  /**
    The table holds each topic of the rules exactly once, and under it the rules for that topic in
    insertion order; no other topic is a key.
  */
  lemma {:induction false} TableOfRules(rules: seq<Rule>)
    ensures TableValid(TableOf(rules))
    ensures forall topic :: topic in TableOf(rules).rules <==> RulesOn(rules, topic) != []
    ensures forall topic :: topic in TableOf(rules).rules ==> TableOf(rules).rules[topic] == RulesOn(rules, topic)
  {
    if rules != [] {
      var prefix := rules[..|rules| - 1];
      TableOfRules(prefix);
      var r := rules[|rules| - 1];
      var t := TableOf(prefix);
      forall topic
        ensures topic in TableOf(rules).rules <==> RulesOn(rules, topic) != []
        ensures topic in TableOf(rules).rules ==> TableOf(rules).rules[topic] == RulesOn(rules, topic)
      {
        if topic != r.topic && topic in t.rules {
          assert RulesOn(prefix, topic) != [];
        }
      }
      if r.topic !in t.rules {
        forall i | 0 <= i < |t.topics| ensures t.topics[i] != r.topic {
          assert t.topics[i] in t.rules;
        }
      }
    }
  }

  /** `VarRules` splits at any point before the first configuration error. */
  lemma {:induction false} VarRulesSplit(account: string, vars: seq<VarConfig>, j: nat)
    requires j <= |vars| && NoAbort(account, vars[..j])
    ensures VarRules(account, vars) == VarRules(account, vars[..j]) + VarRules(account, vars[j..])
    decreases j
  {
    if j > 0 {
      assert vars[..j][1..] == vars[1..][..j - 1];
      assert vars[1..][j - 1..] == vars[j..];
      assert VarStep(account, vars[..j][0]) == VarStep(account, vars[0]);
      VarRulesSplit(account, vars[1..], j - 1);
    }
  }

  /** A rule stands only for a reported variable of an account that starts. */
  lemma {:induction false} ConfigRulesSound(config: seq<Account>, r: Rule)
    requires r in ConfigRules(config)
    ensures DeviceReports(r.direction)
    ensures exists i :: 0 <= i < |config| && config[i].name == r.account && Starts(config[i].section)
    decreases |config|
  {
    var prefix := config[..|config| - 1];
    var acc := config[|config| - 1];
    if r in ConfigRules(prefix) {
      ConfigRulesSound(prefix, r);
      var i :| 0 <= i < |prefix| && prefix[i].name == r.account && Starts(prefix[i].section);
      assert config[i] == prefix[i];
    } else {
      assert r in AccountRules(acc);
      VarRulesSound(acc.name, acc.section.variables, r);
    }
  }

  lemma {:induction false} VarRulesSound(account: string, vars: seq<VarConfig>, r: Rule)
    requires r in VarRules(account, vars)
    ensures r.account == account && DeviceReports(r.direction)
    decreases |vars|
  {
    match VarStep(account, vars[0])
    case Abort =>
    case Skip => VarRulesSound(account, vars[1..], r);
    case Route(r0) =>
      if r != r0 {
        VarRulesSound(account, vars[1..], r);
      }
  }

  /**
    With no configuration error in a started account, each of its reported variables contributes
    its rule (and an unreported variable contributes none).
  */
  lemma {:induction false} VarRulesComplete(account: string, vars: seq<VarConfig>, j: nat)
    requires j < |vars| && NoAbort(account, vars)
    ensures VarStep(account, vars[j]).Route? <==> DeviceReports(vars[j].direction.value)
    ensures VarStep(account, vars[j]).Route? ==> VarStep(account, vars[j]).rule in VarRules(account, vars)
  {
    assert !VarStep(account, vars[j]).Abort?;
    if VarStep(account, vars[j]).Route? {
      assert vars[..j + 1][..j] == vars[..j];
      VarRulesSplit(account, vars, j);
      assert vars[j..][0] == vars[j];
    }
  }

  /** The rules of one account are among the rules of the whole configuration. */
  lemma {:induction false} AccountRulesInConfig(config: seq<Account>, i: nat, r: Rule)
    requires i < |config| && r in AccountRules(config[i])
    ensures r in ConfigRules(config)
    decreases |config|
  {
    var prefix := config[..|config| - 1];
    if i < |config| - 1 {
      assert prefix[i] == config[i];
      AccountRulesInConfig(prefix, i, r);
    }
  }

  /**
    In a started account with no configuration error, every variable the devices report is routed:
    its topic is a key of the table and its rule is in the list under that key.
  */
  lemma ReportedVariableRouted(config: seq<Account>, i: nat, j: nat)
    requires i < |config| && Starts(config[i].section)
    requires NoAbort(config[i].name, config[i].section.variables)
    requires j < |config[i].section.variables|
    requires var v := config[i].section.variables[j]; v.direction.Some? && DeviceReports(v.direction.value)
    ensures var step := VarStep(config[i].name, config[i].section.variables[j]);
            var table := TableOf(ConfigRules(config));
            step.Route? && step.rule.topic in table.rules && step.rule in table.rules[step.rule.topic]
  {
    var acc := config[i];
    VarRulesComplete(acc.name, acc.section.variables, j);
    var r := VarStep(acc.name, acc.section.variables[j]).rule;
    AccountRulesInConfig(config, i, r);
    TableOfRules(ConfigRules(config));
    assert r in RulesOn(ConfigRules(config), r.topic);
  }

  /**
    The start-up loop (bridge.py, lines 195-234): for every enabled account it creates the client,
    walks the variables and appends a rule to `mqtt_to_cloud_map[topic]` for each one the devices
    report. A configuration error abandons the rest of the account and its client, but the rules
    already appended stay.
  */
  method BuildRouting(config: seq<Account>) returns (table: RoutingTable, clients: set<string>)
    ensures table == TableOf(ConfigRules(config))
    ensures clients == Clients(config)
  {
    table := RoutingTable([], map[]);
    clients := {};
    for i := 0 to |config|
      invariant table == TableOf(ConfigRules(config[..i]))
      invariant clients == Clients(config[..i])
    {
      var acc := config[i];
      assert config[..i + 1][..i] == config[..i];
      if Starts(acc.section) {
        var complete;
        table, complete := RouteAccount(table, ConfigRules(config[..i]), acc);
        if complete {
          clients := clients + {acc.name};
        }
      } else {
        assert ConfigRules(config[..i]) + AccountRules(acc) == ConfigRules(config[..i]);
      }
      assert ConfigRules(config[..i + 1]) == ConfigRules(config[..i]) + AccountRules(acc);
    }
    assert config[..|config|] == config;
  }

  /**
    The variable loop for one started account: its rules are appended in variable order until a
    variable raises a configuration error; `complete` tells whether none did.
  */
  method RouteAccount(table: RoutingTable, ghost prior: seq<Rule>, acc: Account)
      returns (t: RoutingTable, complete: bool)
    requires Starts(acc.section) && table == TableOf(prior)
    ensures t == TableOf(prior + AccountRules(acc))
    ensures complete == NoAbort(acc.name, acc.section.variables)
  {
    var vars := acc.section.variables;
    t := table;
    complete := true;
    var j := 0;
    assert vars[..0] == [];
    assert prior + [] == prior;
    while j < |vars|
      invariant 0 <= j <= |vars| && NoAbort(acc.name, vars[..j])
      invariant t == TableOf(prior + VarRules(acc.name, vars[..j]))
      invariant complete
    {
      var step := VarStep(acc.name, vars[j]);
      if step.Abort? {
        complete := false;
        break;
      }
      VarRulesStep(prior, acc.name, vars, j);
      if step.Route? {
        t := AppendRule(t, prior + VarRules(acc.name, vars[..j]), step.rule);
      }
      j := j + 1;
    }
    if complete {
      assert vars[..j] == vars;
    } else {
      VarRulesAbort(acc.name, vars, j);
    }
  }

  /** One more variable without a configuration error adds its rule, if any, at the end. */
  lemma VarRulesStep(prior: seq<Rule>, account: string, vars: seq<VarConfig>, j: nat)
    requires j < |vars| && NoAbort(account, vars[..j]) && !VarStep(account, vars[j]).Abort?
    ensures NoAbort(account, vars[..j + 1])
    ensures VarStep(account, vars[j]).Skip? ==>
              prior + VarRules(account, vars[..j + 1]) == prior + VarRules(account, vars[..j])
    ensures VarStep(account, vars[j]).Route? ==>
              prior + VarRules(account, vars[..j + 1]) == prior + VarRules(account, vars[..j]) + [VarStep(account, vars[j]).rule]
  {
    assert vars[..j + 1][..j] == vars[..j];
    VarRulesSplit(account, vars[..j + 1], j);
    assert vars[..j + 1][j..] == [vars[j]];
    assert [vars[j]][1..] == [];
  }

  /** The first variable with a configuration error ends the account's rules. */
  lemma VarRulesAbort(account: string, vars: seq<VarConfig>, j: nat)
    requires j < |vars| && NoAbort(account, vars[..j]) && VarStep(account, vars[j]).Abort?
    ensures !NoAbort(account, vars)
    ensures VarRules(account, vars) == VarRules(account, vars[..j])
  {
    VarRulesSplit(account, vars, j);
    assert vars[j..][0] == vars[j];
    assert VarRules(account, vars[j..]) == [];
  }

  /** `mqtt_to_cloud_map[topic].append(rule)`, creating the empty list first for a new topic. */
  method AppendRule(table: RoutingTable, ghost prior: seq<Rule>, rule: Rule) returns (t: RoutingTable)
    requires table == TableOf(prior)
    ensures t == TableOf(prior + [rule])
  {
    t := table;
    if rule.topic !in t.rules {
      t := RoutingTable(t.topics + [rule.topic], t.rules[rule.topic := []]);
    }
    t := t.(rules := t.rules[rule.topic := t.rules[rule.topic] + [rule]]);
    assert (prior + [rule])[..|prior|] == prior;
  }

  // ----- on_connect_local -----

  /**
    `on_connect_local`: on return code 0 one subscribe per routing-table key, in key order; on any
    other code none.
  */
  method OnConnectLocal(table: RoutingTable, rc: int) returns (subscribed: seq<string>)
    ensures rc != 0 ==> subscribed == []
    ensures rc == 0 ==> subscribed == table.topics
    ensures rc == 0 && TableValid(table) ==>
              NoDuplicateTopics(subscribed) && forall t :: t in subscribed <==> t in table.rules
  {
    subscribed := [];
    if rc == 0 {
      for i := 0 to |table.topics|
        invariant subscribed == table.topics[..i]
      {
        subscribed := subscribed + [table.topics[i]];
      }
      assert table.topics[..|table.topics|] == table.topics;
    }
  }

  // ----- on_message_local -----

  /** An assignment to a cloud variable of one account. */
  datatype CloudPush = CloudPush(account: string, variable: string, value: PyValue)

  /**
    The conversion of a device payload for a variable of type `varType`. `floatOf` is `float()`,
    giving the text of the float or `None` for its `ValueError`; `jsonLoads` is `json.loads`,
    `None` standing for a decoding error. `None` here means no value to send.
  */
  function Convert(varType: string, payload: string, floatOf: string -> Option<string>,
                   jsonLoads: string -> Option<PyValue>): (r: Option<PyValue>)
    ensures varType == "Integer" ==> (r.Some? <==> ParseInt(payload).Some?)
    ensures varType != "Color" && varType != "Dimmed" && r.Some? ==> r.value != PyNone
  {
    if varType == "Boolean" then Some(PyBool(Lower(payload) == "true"))
    else if varType == "Float" then
      match floatOf(payload)
      case None => None
      case Some(text) => Some(PyFloat(text))
    else if varType == "Integer" then
      match ParseInt(payload)
      case None => None
      case Some(n) => Some(PyInt(n))
    else if varType == "Color" || varType == "Dimmed" then jsonLoads(payload)
    else Some(PyStr(payload))
  }

  /**
    One rule's effect: nothing when the account has no client or the conversion fails or gives
    `None`, else one push of the converted value to the rule's variable.
  */
  function PushFor(rule: Rule, clients: set<string>, payload: string,
                   floatOf: string -> Option<string>, jsonLoads: string -> Option<PyValue>): (r: Option<CloudPush>)
    ensures r.Some? ==> r.value.account == rule.account && rule.account in clients &&
                        r.value.variable == rule.name && r.value.value != PyNone
  {
    if rule.account !in clients then None
    else
      match Convert(rule.varType, payload, floatOf, jsonLoads)
      case None => None
      case Some(v) => if v == PyNone then None else Some(CloudPush(rule.account, rule.name, v))
  }

  /** The pushes for a list of rules, in rule order, each rule on its own. */
  function PushesFor(rules: seq<Rule>, clients: set<string>, payload: string,
                     floatOf: string -> Option<string>, jsonLoads: string -> Option<PyValue>): (s: seq<CloudPush>)
    ensures |s| <= |rules|
    ensures forall k :: 0 <= k < |s| ==> s[k].account in clients && s[k].value != PyNone
  {
    if rules == [] then []
    else
      PushesFor(rules[..|rules| - 1], clients, payload, floatOf, jsonLoads) +
        match PushFor(rules[|rules| - 1], clients, payload, floatOf, jsonLoads)
        case None => []
        case Some(p) => [p]
  }

  /** One more rule adds its own push, if any, at the end. */
  lemma PushesForSnoc(rules: seq<Rule>, k: nat, clients: set<string>, payload: string,
                      floatOf: string -> Option<string>, jsonLoads: string -> Option<PyValue>)
    requires k < |rules|
    ensures var p := PushFor(rules[k], clients, payload, floatOf, jsonLoads);
            PushesFor(rules[..k + 1], clients, payload, floatOf, jsonLoads) ==
              PushesFor(rules[..k], clients, payload, floatOf, jsonLoads) + (if p.Some? then [p.value] else [])
  {
    assert rules[..k + 1][..k] == rules[..k];
  }

  /**
    A rule whose conversion fails is skipped on its own: the rules before and after it push what
    they would push without it.
  */
  lemma {:induction false} PushesForAppend(a: seq<Rule>, b: seq<Rule>, clients: set<string>, payload: string,
                                           floatOf: string -> Option<string>, jsonLoads: string -> Option<PyValue>)
    ensures PushesFor(a + b, clients, payload, floatOf, jsonLoads) ==
              PushesFor(a, clients, payload, floatOf, jsonLoads) + PushesFor(b, clients, payload, floatOf, jsonLoads)
    decreases |b|
  {
    if b == [] {
      assert a + b == a;
    } else {
      var b' := b[..|b| - 1];
      assert (a + b)[..|a + b| - 1] == a + b';
      PushesForAppend(a, b', clients, payload, floatOf, jsonLoads);
    }
  }

  lemma FailingRuleSkipped(a: seq<Rule>, bad: Rule, b: seq<Rule>, clients: set<string>, payload: string,
                           floatOf: string -> Option<string>, jsonLoads: string -> Option<PyValue>)
    requires PushFor(bad, clients, payload, floatOf, jsonLoads).None?
    ensures PushesFor(a + [bad] + b, clients, payload, floatOf, jsonLoads) ==
              PushesFor(a, clients, payload, floatOf, jsonLoads) + PushesFor(b, clients, payload, floatOf, jsonLoads)
  {
    PushesForAppend(a, [bad], clients, payload, floatOf, jsonLoads);
    SingleFailingRule(bad, clients, payload, floatOf, jsonLoads);
    PushesForAppend(a + [bad], b, clients, payload, floatOf, jsonLoads);
  }

  lemma SingleFailingRule(bad: Rule, clients: set<string>, payload: string,
                          floatOf: string -> Option<string>, jsonLoads: string -> Option<PyValue>)
    requires PushFor(bad, clients, payload, floatOf, jsonLoads).None?
    ensures PushesFor([bad], clients, payload, floatOf, jsonLoads) == []
  {
    assert [bad][..0] == [];
  }

  /** A Boolean is true exactly for a case-insensitive "true". */
  lemma BooleanConversion(payload: string, floatOf: string -> Option<string>,
                          jsonLoads: string -> Option<PyValue>)
    ensures Convert("Boolean", payload, floatOf, jsonLoads) == Some(PyBool(
              |payload| == 4 && (payload[0] == 't' || payload[0] == 'T') &&
              (payload[1] == 'r' || payload[1] == 'R') && (payload[2] == 'u' || payload[2] == 'U') &&
              (payload[3] == 'e' || payload[3] == 'E')))
  {
    LowerIsTrue(payload);
  }

  /** An integer a device prints as a numeral reaches the cloud as that integer. */
  lemma IntegerConversion(n: int, floatOf: string -> Option<string>, jsonLoads: string -> Option<PyValue>)
    ensures Convert("Integer", IntToString(n), floatOf, jsonLoads) == Some(PyInt(n))
  {
    assert "Integer"[0] != "Boolean"[0] && "Integer"[0] != "Float"[0];
    ParseIntOfNumeral(n);
  }

  /**
    `on_message_local`: a payload that is not valid UTF-8 or a topic with no routing entry pushes
    nothing; otherwise every rule for the topic is tried in order.
  */
  method OnMessageLocal(table: RoutingTable, clients: set<string>, topic: string, payload: Option<string>,
                        floatOf: string -> Option<string>, jsonLoads: string -> Option<PyValue>)
      returns (pushes: seq<CloudPush>)
    ensures payload.None? || topic !in table.rules ==> pushes == []
    ensures payload.Some? && topic in table.rules ==>
              pushes == PushesFor(table.rules[topic], clients, payload.value, floatOf, jsonLoads)
  {
    pushes := [];
    if payload.Some? && topic in table.rules {
      var rules := table.rules[topic];
      for k := 0 to |rules|
        invariant pushes == PushesFor(rules[..k], clients, payload.value, floatOf, jsonLoads)
      {
        PushesForSnoc(rules, k, clients, payload.value, floatOf, jsonLoads);
        var rule := rules[k];
        if rule.account in clients {
          var value := Convert(rule.varType, payload.value, floatOf, jsonLoads);
          if value.Some? && value.value != PyNone {
            pushes := pushes + [CloudPush(rule.account, rule.name, value.value)];
          }
        }
      }
      assert rules[..|rules|] == rules;
    }
  }
}
