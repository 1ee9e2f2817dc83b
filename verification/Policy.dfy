/**
The compiled policy and its one decision (`internal/policy/policy.go`), and the theorem that
a narrowed configuration never allows what the original does not.
*/
module Policy {
  import opened Basics
  import opened Narrowing

  datatype Tool = Tool(name: string, toolset: string, deviceScoped: bool, capability: string)

  type Catalog = map<string, Tool>

  datatype Reason = Granted | UnknownTool | DeploymentCeiling | RequestScope | DeviceRequired | DeviceNotExposed | DevicePermission | CapabilityUnavailable

  datatype DevicePolicy = DevicePolicy(alias: string, deviceId: string, permissions: seq<string>, takeoverAllowed: bool, requiresConfirmation: bool)

  /** The four sets of a selection of toolsets and tools. */
  datatype Rules = Rules(toolsetsAllow: set<string>, toolsetsDeny: set<string>, toolsAllow: set<string>, toolsDeny: set<string>)

  datatype Compiled = Compiled(catalog: Catalog, rules: Rules, devices: map<string, DevicePolicy>, confirmationRequired: bool)

  datatype Evaluation = Evaluation(tool: string, device: string, scope: Rules, capabilities: map<string, bool>, checkCapabilities: bool)

  function MakeSet(values: seq<string>): set<string> { set v | v in values }

  function RulesOf(c: Config): Rules {
    Rules(MakeSet(c.toolsets.allow), MakeSet(c.toolsets.deny), MakeSet(c.tools.allow), MakeSet(c.tools.deny))
  }

  function PolicyOf(alias: string, d: Device): DevicePolicy {
    DevicePolicy(alias, d.deviceId, d.permissions, d.takeoverAllowed, d.requireConfirmation)
  }

  /** Whether a configuration compiles against a catalog. */
  predicate Compiles(c: Config, catalog: Catalog) {
    && ConfigValid(c)
    && (forall t :: t in c.tools.allow + c.tools.deny ==> t in catalog)
    && (forall a, b :: a in c.devices && b in c.devices && c.devices[a].exposed && c.devices[b].exposed && a != b ==>
          c.devices[a].deviceId != c.devices[b].deviceId)
  }

  /** `p` holds exactly what `c` configures: its rules, and its exposed devices by their identity. */
  ghost predicate IsPolicyOf(p: Compiled, c: Config, catalog: Catalog) {
    && p.catalog == catalog && p.rules == RulesOf(c) && p.confirmationRequired == c.confirmationRequired
    && (forall id :: id in p.devices ==>
          p.devices[id].alias in c.devices && var a := p.devices[id].alias;
          c.devices[a].exposed && c.devices[a].deviceId == id && p.devices[id] == PolicyOf(a, c.devices[a]))
    && (forall a :: a in c.devices && c.devices[a].exposed ==> c.devices[a].deviceId in p.devices)
  }

  /** `Compile`: the devices in any order; two exposed devices of one identity are refused. */
  method Compile(c: Config, catalog: Catalog) returns (r: Option<Compiled>)
    ensures r.Some? <==> Compiles(c, catalog)
    ensures r.Some? ==> IsPolicyOf(r.value, c, catalog)
  {
    hide ListValid;
    if !ConfigValid(c) { return None; }
    var names := c.tools.allow + c.tools.deny;
    var errors := 0;
    for i := 0 to |names|
      invariant errors == 0 <==> forall t :: t in names[..i] ==> t in catalog
      invariant errors >= 0
    {
      assert names[..i + 1] == names[..i] + [names[i]];
      if names[i] !in catalog { errors := errors + 1; }
    }
    assert names[..|names|] == names;
    var devices, duplicates := CompileDevices(c);
    if errors > 0 || duplicates > 0 { return None; }
    return Some(Compiled(catalog, RulesOf(c), devices, c.confirmationRequired));
  }

  method CompileDevices(c: Config) returns (devices: map<string, DevicePolicy>, duplicates: nat)
    ensures duplicates == 0 <==>
      forall a, b :: a in c.devices && b in c.devices && c.devices[a].exposed && c.devices[b].exposed && a != b ==>
        c.devices[a].deviceId != c.devices[b].deviceId
    ensures forall id :: id in devices ==>
      && devices[id].alias in c.devices
      && var a := devices[id].alias; c.devices[a].exposed && c.devices[a].deviceId == id && devices[id] == PolicyOf(a, c.devices[a])
    ensures forall a :: a in c.devices && c.devices[a].exposed ==> c.devices[a].deviceId in devices
  {
    devices, duplicates := map[], 0;
    var rest := c.devices.Keys;
    while rest != {}
      invariant rest <= c.devices.Keys
      invariant forall id :: id in devices ==>
        && devices[id].alias in c.devices && devices[id].alias !in rest
        && var a := devices[id].alias; c.devices[a].exposed && c.devices[a].deviceId == id && devices[id] == PolicyOf(a, c.devices[a])
      invariant forall a :: a in c.devices && a !in rest && c.devices[a].exposed ==> c.devices[a].deviceId in devices
      invariant duplicates == 0 <==>
        forall a, b :: a in c.devices && b in c.devices && a !in rest && b !in rest && c.devices[a].exposed && c.devices[b].exposed && a != b ==>
          c.devices[a].deviceId != c.devices[b].deviceId
      decreases |rest|
    {
      var alias :| alias in rest;
      rest := rest - {alias};
      var d := c.devices[alias];
      if d.exposed {
        if d.deviceId in devices {
          duplicates := duplicates + 1;
        } else {
          devices := devices[d.deviceId := PolicyOf(alias, d)];
        }
      }
    }
  }

  /** `selected`. */
  predicate Selected(toolset: string, tool: string, r: Rules) {
    && toolset !in r.toolsetsDeny && tool !in r.toolsDeny
    && (r.toolsetsAllow != {} ==> toolset in r.toolsetsAllow)
    && (r.toolsAllow != {} ==> tool in r.toolsAllow)
  }

  /** A device that may use the toolset, when it must be a known one. */
  predicate DeviceAllows(p: Compiled, e: Evaluation, tool: Tool) {
    if e.device == "" then exists id :: id in p.devices && tool.toolset in p.devices[id].permissions
    else
      && e.device in p.devices && tool.toolset in p.devices[e.device].permissions
      && (e.checkCapabilities && tool.capability != "" ==> tool.capability in e.capabilities && e.capabilities[tool.capability])
  }

  /** What an evaluation needs to be allowed, all at once. */
  predicate Allows(p: Compiled, e: Evaluation) {
    && e.tool in p.catalog
    && var tool := p.catalog[e.tool];
       Selected(tool.toolset, tool.name, p.rules) && Selected(tool.toolset, tool.name, e.scope)
       && (tool.deviceScoped ==> DeviceAllows(p, e, tool))
  }

  /** Why an evaluation is decided as it is: the first reason that applies. */
  function Verdict(p: Compiled, e: Evaluation): Reason {
    if e.tool !in p.catalog then UnknownTool
    else
      var tool := p.catalog[e.tool];
      if !Selected(tool.toolset, tool.name, p.rules) then DeploymentCeiling
      else if !Selected(tool.toolset, tool.name, e.scope) then RequestScope
      else if !tool.deviceScoped then Granted
      else if e.device == "" then if exists id :: id in p.devices && tool.toolset in p.devices[id].permissions then Granted else DeviceRequired
      else if e.device !in p.devices then DeviceNotExposed
      else if tool.toolset !in p.devices[e.device].permissions then DevicePermission
      else if e.checkCapabilities && tool.capability != "" && !(tool.capability in e.capabilities && e.capabilities[tool.capability])
      then CapabilityUnavailable else Granted
  }

  datatype Decision = Decision(allowed: bool, reason: Reason, device: Option<DevicePolicy>)

  /** `Evaluate`. */
  method Evaluate(p: Compiled, e: Evaluation) returns (d: Decision)
    ensures d.allowed <==> Allows(p, e)
    ensures d.allowed <==> d.reason == Granted
    ensures d.reason == Verdict(p, e)
    ensures d.device.Some? ==> e.device in p.devices && d.device.value == p.devices[e.device]
    ensures d.allowed && p.catalog[e.tool].deviceScoped && e.device != "" ==> d.device.Some?
  {
    if e.tool !in p.catalog { return Decision(false, UnknownTool, None); }
    var tool := p.catalog[e.tool];
    if !Selected(tool.toolset, tool.name, p.rules) { return Decision(false, DeploymentCeiling, None); }
    if !Selected(tool.toolset, tool.name, e.scope) { return Decision(false, RequestScope, None); }
    if !tool.deviceScoped { return Decision(true, Granted, None); }
    if e.device == "" {
      var rest := p.devices.Keys;
      while rest != {}
        invariant rest <= p.devices.Keys
        invariant forall id :: id in p.devices && id !in rest ==> tool.toolset !in p.devices[id].permissions
        decreases |rest|
      {
        var id :| id in rest;
        if tool.toolset in p.devices[id].permissions { return Decision(true, Granted, None); }
        rest := rest - {id};
      }
      return Decision(false, DeviceRequired, None);
    }
    if e.device !in p.devices { return Decision(false, DeviceNotExposed, None); }
    var device := p.devices[e.device];
    if tool.toolset !in device.permissions { return Decision(false, DevicePermission, Some(device)); }
    if e.checkCapabilities && tool.capability != "" && !(tool.capability in e.capabilities && e.capabilities[tool.capability]) {
      return Decision(false, CapabilityUnavailable, Some(device));
    }
    return Decision(true, Granted, Some(device));
  }

  // ----------------------------------------------------------------- theorem

  /** The constraints' own lists, read as rules. */
  function ConstraintRules(k: Constraints): Rules {
    Rules(MakeSet(k.toolsetsAllow), MakeSet(k.toolsetsDeny), MakeSet(k.toolsAllow), MakeSet(k.toolsDeny))
  }

  lemma EmptySets(values: seq<string>)
    ensures MakeSet(values) == {} <==> values == []
  {
    if values != [] { assert values[0] in MakeSet(values); }
  }

  /** A narrowed selection selects exactly what both the deployment and the process select. */
  lemma SelectionNarrows(c: Config, k: Constraints, toolset: string, tool: string)
    requires Permitted(c, k)
    ensures Selected(toolset, tool, RulesOf(Narrowed(c, k))) <==> Selected(toolset, tool, RulesOf(c)) && Selected(toolset, tool, ConstraintRules(k))
  {
    EmptySets(c.toolsets.allow);
    EmptySets(c.tools.allow);
    EmptySets(k.toolsetsAllow);
    EmptySets(k.toolsAllow);
  }

  /** Whether the process keeps the device behind an identity, with a permission. */
  predicate Keeps(k: Constraints, alias: string, permission: string) {
    && (k.devicesAllow == [] || alias in k.devicesAllow) && alias !in k.devicesDeny
    && (alias in k.devicePermissions ==> permission in k.devicePermissions[alias])
  }

  /** Exactly the devices the process keeps remain, with no permission or takeover they did not have. */
  lemma DevicesNarrow(c: Config, k: Constraints, catalog: Catalog, p: Compiled, q: Compiled, id: string, permission: string)
    requires Permitted(c, k) && Compiles(c, catalog) && Compiles(Narrowed(c, k), catalog)
    requires IsPolicyOf(p, c, catalog) && IsPolicyOf(q, Narrowed(c, k), catalog)
    ensures id in q.devices && permission in q.devices[id].permissions <==>
      id in p.devices && permission in p.devices[id].permissions && Keeps(k, p.devices[id].alias, permission)
    ensures id in q.devices ==>
      && id in p.devices && q.devices[id].alias == p.devices[id].alias
      && (q.devices[id].takeoverAllowed <==> p.devices[id].takeoverAllowed && q.devices[id].alias !in k.disableTakeover)
      && q.devices[id].requiresConfirmation == p.devices[id].requiresConfirmation
  {
    hide ConfigValid, RulesOf;
    var n := Narrowed(c, k);
    if id in q.devices {
      var a := q.devices[id].alias;
      assert a in c.devices && c.devices[a].exposed && c.devices[a].deviceId == id;
      assert id in p.devices && p.devices[id].alias == a;
    }
    if id in p.devices {
      var a := p.devices[id].alias;
      if (k.devicesAllow == [] || a in k.devicesAllow) && a !in k.devicesDeny {
        assert n.devices[a].exposed && n.devices[a].deviceId == id;
        assert q.devices[id].alias == a;
      }
    }
  }

  /**
  Narrowing refines: whatever the narrowed policy allows, for any tool, scope, device or "any
  device", the original allows too, and never with a takeover the original did not allow.
  */
  lemma NarrowingRefines(c: Config, k: Constraints, catalog: Catalog, p: Compiled, q: Compiled, e: Evaluation)
    requires Permitted(c, k) && Compiles(c, catalog) && Compiles(Narrowed(c, k), catalog)
    requires IsPolicyOf(p, c, catalog) && IsPolicyOf(q, Narrowed(c, k), catalog)
    ensures Allows(q, e) ==> Allows(p, e)
    ensures Allows(q, e) && e.device in q.devices ==> e.device in p.devices && (q.devices[e.device].takeoverAllowed ==> p.devices[e.device].takeoverAllowed)
    ensures e.device != "" && Allows(p, e) && e.tool in catalog ==>
      (Allows(q, e) <==>
        && Selected(catalog[e.tool].toolset, catalog[e.tool].name, ConstraintRules(k))
        && (catalog[e.tool].deviceScoped ==> Keeps(k, p.devices[e.device].alias, catalog[e.tool].toolset)))
  {
    hide ConfigValid, RulesOf, Compiles, IsPolicyOf, Permitted, Keeps, Selected;
    PartsAgree(c, k, catalog, p, q);
    if e.tool in catalog {
      var tool := catalog[e.tool];
      SelectionNarrows(c, k, tool.toolset, tool.name);
      DevicesNarrow(c, k, catalog, p, q, e.device, tool.toolset);
      forall id ensures id in q.devices && tool.toolset in q.devices[id].permissions ==> id in p.devices && tool.toolset in p.devices[id].permissions {
        DevicesNarrow(c, k, catalog, p, q, id, tool.toolset);
      }
    }
  }

  lemma PartsAgree(c: Config, k: Constraints, catalog: Catalog, p: Compiled, q: Compiled)
    requires IsPolicyOf(p, c, catalog) && IsPolicyOf(q, Narrowed(c, k), catalog)
    ensures p.catalog == q.catalog == catalog && p.rules == RulesOf(c) && q.rules == RulesOf(Narrowed(c, k))
  {
  }

  /** No constraints, no change. */
  lemma EmptyConstraintsChangeNothing(c: Config)
    ensures
      var none := Constraints(None, [], [], [], [], [], [], map[], []);
      Permitted(c, none) && Narrowed(c, none) == c
  {
    var none := Constraints(None, [], [], [], [], [], [], map[], []);
    assert Narrowed(c, none).devices == c.devices;
  }

  /** A configuration that compiles has one policy, in whatever order its devices are visited. */
  lemma PolicyIsUnique(c: Config, catalog: Catalog, p: Compiled, q: Compiled)
    requires Compiles(c, catalog) && IsPolicyOf(p, c, catalog) && IsPolicyOf(q, c, catalog)
    ensures p == q
  {
    hide ConfigValid, RulesOf;
    forall id ensures id in p.devices <==> id in q.devices {
      if id in p.devices { assert c.devices[p.devices[id].alias].deviceId in q.devices; }
      if id in q.devices { assert c.devices[q.devices[id].alias].deviceId in p.devices; }
    }
    forall id | id in p.devices ensures p.devices[id] == q.devices[id] {
      var a, b := p.devices[id].alias, q.devices[id].alias;
      assert c.devices[a].exposed && c.devices[b].exposed && c.devices[a].deviceId == c.devices[b].deviceId;
    }
    assert p.devices == q.devices;
  }

  /** Every decision without constraints is the deployment's own. */
  lemma UnconstrainedDecidesTheSame(c: Config, catalog: Catalog, p: Compiled, q: Compiled, e: Evaluation)
    requires Compiles(c, catalog) && IsPolicyOf(p, c, catalog)
    requires IsPolicyOf(q, Narrowed(c, Constraints(None, [], [], [], [], [], [], map[], [])), catalog)
    ensures Verdict(q, e) == Verdict(p, e)
  {
    EmptyConstraintsChangeNothing(c);
    PolicyIsUnique(c, catalog, p, q);
  }
}
