/**
Process-local narrowing of a configuration (`internal/config/narrow.go`), with the part of
`Validate` that narrowing can affect; `restValid` stands for the fields it cannot.
*/
module Narrowing {
  import opened Basics

  datatype OutputMode = Auto | Json | Text | UnknownMode

  datatype Selection = Selection(allow: seq<string>, deny: seq<string>)

  datatype Device = Device(
    deviceId: string, exposed: bool, permissions: seq<string>, takeoverAllowed: bool, requireConfirmation: bool, restValid: bool)

  datatype Config = Config(
    output: OutputMode, confirmationRequired: bool, toolsets: Selection, tools: Selection, devices: map<string, Device>, restValid: bool)

  datatype Constraints = Constraints(
    output: Option<OutputMode>, toolsetsAllow: seq<string>, toolsetsDeny: seq<string>, toolsAllow: seq<string>, toolsDeny: seq<string>,
    devicesAllow: seq<string>, devicesDeny: seq<string>, devicePermissions: map<string, seq<string>>, disableTakeover: seq<string>)

  const KNOWN_TOOLSETS := ["observe", "video", "input", "power", "media", "setup"]
  const KNOWN_PERMISSIONS := ["observe", "video", "input", "power", "media"]

  // --------------------------------------------------------------- validity

  predicate ListValid(values: seq<string>, known: Option<seq<string>>) {
    && (forall v :: v in values ==> v != "" && (known.Some? ==> v in known.value))
    && (forall i, j :: 0 <= i < j < |values| ==> values[i] != values[j])
  }

  predicate SelectionValid(s: Selection, known: Option<seq<string>>) { ListValid(s.allow, known) && ListValid(s.deny, known) }

  /** `Config.Validate`. */
  predicate ConfigValid(c: Config) {
    && c.restValid && c.output != UnknownMode
    && SelectionValid(c.toolsets, Some(KNOWN_TOOLSETS)) && SelectionValid(c.tools, None)
    && forall a :: a in c.devices ==> c.devices[a].restValid && c.devices[a].deviceId != "" && ListValid(c.devices[a].permissions, Some(KNOWN_PERMISSIONS))
  }

  // ------------------------------------------------------------- the result

  /** `deny` appended to `base`, each value once. */
  function Denied(base: seq<string>, deny: seq<string>): (r: seq<string>)
    ensures forall v :: v in r <==> v in base || v in deny
  {
    if deny == [] then base
    else
      var before, last := Denied(base, deny[..|deny| - 1]), deny[|deny| - 1];
      if last in before then before else before + [last]
  }

  function NarrowedSelection(base: Selection, allow: seq<string>, deny: seq<string>): Selection {
    Selection(if allow != [] then allow else base.allow, Denied(base.deny, deny))
  }

  /** Every value a process allows is one the deployment selects. */
  predicate Within(base: Selection, allow: seq<string>) {
    forall v :: v in allow ==> (base.allow == [] || v in base.allow) && v !in base.deny
  }

  /** The device of one alias after all constraints. */
  function NarrowedDevice(alias: string, d: Device, k: Constraints): Device {
    d.(exposed := d.exposed && (k.devicesAllow == [] || alias in k.devicesAllow) && alias !in k.devicesDeny,
    permissions := if alias in k.devicePermissions then k.devicePermissions[alias] else d.permissions,
    takeoverAllowed := d.takeoverAllowed && alias !in k.disableTakeover)
  }

  function Narrowed(c: Config, k: Constraints): Config {
    c.(output := if k.output.Some? then k.output.value else c.output,
    toolsets := NarrowedSelection(c.toolsets, k.toolsetsAllow, k.toolsetsDeny),
    tools := NarrowedSelection(c.tools, k.toolsAllow, k.toolsDeny),
    devices := NarrowedDevices(c, k))
  }

  function NarrowedDevices(c: Config, k: Constraints): map<string, Device> {
    map a | a in c.devices :: NarrowedDevice(a, c.devices[a], k)
  }

  /** No constraint asks for more than the deployment gives, and every one names something that exists. */
  predicate Permitted(c: Config, k: Constraints) {
    Within(c.toolsets, k.toolsetsAllow) && Within(c.tools, k.toolsAllow) && DevicesPermitted(c, k)
  }

  predicate DevicesPermitted(c: Config, k: Constraints) {
    && (forall a :: a in k.devicesAllow ==> a in c.devices && c.devices[a].exposed)
    && (forall a :: a in k.devicesDeny ==> a in c.devices)
    && (forall a :: a in k.devicePermissions ==> a in c.devices && forall p :: p in k.devicePermissions[a] ==> p in c.devices[a].permissions)
    && (forall a :: a in k.disableTakeover ==> a in c.devices)
  }

  // ----------------------------------------------------------------- methods

  method NarrowSelection(base: Selection, allow: seq<string>, deny: seq<string>, errors: nat) returns (r: Selection, count: nat)
    ensures r == NarrowedSelection(base, allow, deny)
    ensures count == errors <==> Within(base, allow)
    ensures count >= errors
  {
    count := errors;
    var result := base;
    if |allow| > 0 {
      for i := 0 to |allow|
        invariant count >= errors
        invariant count == errors <==> forall v :: v in allow[..i] ==> (base.allow == [] || v in base.allow) && v !in base.deny
      {
        assert allow[..i + 1] == allow[..i] + [allow[i]];
        if (|base.allow| > 0 && allow[i] !in base.allow) || allow[i] in base.deny { count := count + 1; }
      }
      assert allow[..|allow|] == allow;
      result := result.(allow := allow);
    }
    for i := 0 to |deny|
      invariant result.allow == (if allow != [] then allow else base.allow) && result.deny == Denied(base.deny, deny[..i])
    {
      assert deny[..i + 1][..i] == deny[..i];
      if deny[i] !in result.deny { result := result.(deny := result.deny + [deny[i]]); }
    }
    assert deny[..|deny|] == deny;
    r := result;
  }

  /** The `DevicesAllow` loops. */
  method AllowDevices(c: Config, k: Constraints, errors: nat) returns (devices: map<string, Device>, count: nat)
    ensures count >= errors
    ensures count == errors <==> forall a :: a in k.devicesAllow ==> a in c.devices && c.devices[a].exposed
    ensures devices.Keys == c.devices.Keys
    ensures forall a :: a in devices ==> devices[a] == c.devices[a].(exposed := devices[a].exposed)
    ensures count == errors ==> forall a :: a in devices ==>
      devices[a].exposed == (c.devices[a].exposed && (k.devicesAllow == [] || a in k.devicesAllow))
  {
    devices, count := c.devices, errors;
    if |k.devicesAllow| == 0 { return; }
    var allowed: set<string> := {};
    for i := 0 to |k.devicesAllow|
      invariant count >= errors
      invariant count == errors <==> forall a :: a in k.devicesAllow[..i] ==> a in c.devices && c.devices[a].exposed
      invariant count == errors ==> forall a :: a in allowed <==> a in k.devicesAllow[..i]
    {
      var alias := k.devicesAllow[i];
      assert k.devicesAllow[..i + 1] == k.devicesAllow[..i] + [alias];
      if alias !in c.devices || !c.devices[alias].exposed {
        count := count + 1;
      } else {
        allowed := allowed + {alias};
      }
    }
    assert k.devicesAllow[..|k.devicesAllow|] == k.devicesAllow;
    devices := HideOthers(c.devices, allowed);
  }

  method HideOthers(start: map<string, Device>, allowed: set<string>) returns (devices: map<string, Device>)
    ensures devices.Keys == start.Keys
    ensures forall a :: a in devices ==> devices[a] == if a in allowed then start[a] else start[a].(exposed := false)
  {
    devices := start;
    var rest := start.Keys;
    while rest != {}
      invariant rest <= devices.Keys == start.Keys
      invariant forall a :: a in devices ==> devices[a] == if a in rest || a in allowed then start[a] else start[a].(exposed := false)
      decreases |rest|
    {
      var alias :| alias in rest;
      if alias !in allowed { devices := devices[alias := devices[alias].(exposed := false)]; }
      rest := rest - {alias};
    }
  }

  method DenyDevices(c: Config, k: Constraints, start: map<string, Device>, errors: nat) returns (devices: map<string, Device>, count: nat)
    requires start.Keys == c.devices.Keys
    ensures count >= errors && devices.Keys == c.devices.Keys
    ensures count == errors <==> forall a :: a in k.devicesDeny ==> a in c.devices
    ensures forall a :: a in devices ==> devices[a] == if a in k.devicesDeny then start[a].(exposed := false) else start[a]
  {
    devices, count := start, errors;
    for i := 0 to |k.devicesDeny|
      invariant count >= errors && devices.Keys == c.devices.Keys
      invariant count == errors <==> forall a :: a in k.devicesDeny[..i] ==> a in c.devices
      invariant forall a :: a in devices ==> devices[a] == if a in k.devicesDeny[..i] then start[a].(exposed := false) else start[a]
    {
      var alias := k.devicesDeny[i];
      assert k.devicesDeny[..i + 1] == k.devicesDeny[..i] + [alias];
      if alias !in devices {
        count := count + 1;
      } else {
        devices := devices[alias := devices[alias].(exposed := false)];
      }
    }
    assert k.devicesDeny[..|k.devicesDeny|] == k.devicesDeny;
  }

  method LimitPermissions(c: Config, k: Constraints, start: map<string, Device>, errors: nat) returns (devices: map<string, Device>, count: nat)
    requires start.Keys == c.devices.Keys
    requires forall a :: a in start ==> start[a].permissions == c.devices[a].permissions
    ensures count >= errors && devices.Keys == c.devices.Keys
    ensures count == errors <==>
      forall a :: a in k.devicePermissions ==> a in c.devices && forall p :: p in k.devicePermissions[a] ==> p in c.devices[a].permissions
    ensures forall a :: a in devices ==>
      devices[a] == if a in k.devicePermissions then start[a].(permissions := k.devicePermissions[a]) else start[a]
  {
    devices, count := start, errors;
    var rest := k.devicePermissions.Keys;
    while rest != {}
      invariant rest <= k.devicePermissions.Keys && count >= errors && devices.Keys == c.devices.Keys
      invariant count == errors <==> forall a :: a in k.devicePermissions && a !in rest ==>
        a in c.devices && forall p :: p in k.devicePermissions[a] ==> p in c.devices[a].permissions
      invariant forall a :: a in devices ==>
        devices[a] == if a in k.devicePermissions && a !in rest then start[a].(permissions := k.devicePermissions[a]) else start[a]
      decreases |rest|
    {
      var alias :| alias in rest;
      rest := rest - {alias};
      if alias !in devices {
        count := count + 1;
      } else {
        var permissions := k.devicePermissions[alias];
        var before := count;
        for i := 0 to |permissions|
          invariant count >= before
          invariant count == before <==> forall p :: p in permissions[..i] ==> p in c.devices[alias].permissions
        {
          assert permissions[..i + 1] == permissions[..i] + [permissions[i]];
          if permissions[i] !in devices[alias].permissions { count := count + 1; }
        }
        assert permissions[..|permissions|] == permissions;
        devices := devices[alias := devices[alias].(permissions := permissions)];
      }
    }
  }

  method DisableTakeovers(c: Config, k: Constraints, start: map<string, Device>, errors: nat) returns (devices: map<string, Device>, count: nat)
    requires start.Keys == c.devices.Keys
    ensures count >= errors && devices.Keys == c.devices.Keys
    ensures count == errors <==> forall a :: a in k.disableTakeover ==> a in c.devices
    ensures forall a :: a in devices ==> devices[a] == if a in k.disableTakeover then start[a].(takeoverAllowed := false) else start[a]
  {
    devices, count := start, errors;
    for i := 0 to |k.disableTakeover|
      invariant count >= errors && devices.Keys == c.devices.Keys
      invariant count == errors <==> forall a :: a in k.disableTakeover[..i] ==> a in c.devices
      invariant forall a :: a in devices ==> devices[a] == if a in k.disableTakeover[..i] then start[a].(takeoverAllowed := false) else start[a]
    {
      var alias := k.disableTakeover[i];
      assert k.disableTakeover[..i + 1] == k.disableTakeover[..i] + [alias];
      if alias !in devices {
        count := count + 1;
      } else {
        devices := devices[alias := devices[alias].(takeoverAllowed := false)];
      }
    }
    assert k.disableTakeover[..|k.disableTakeover|] == k.disableTakeover;
  }

  /** The four loops together leave each device as its constraints ask. */
  lemma DevicesAsNarrowed(c: Config, k: Constraints, exposed: map<string, Device>, denied: map<string, Device>, limited: map<string, Device>, devices: map<string, Device>)
    requires exposed.Keys == denied.Keys == limited.Keys == devices.Keys == c.devices.Keys
    requires forall a :: a in exposed ==>
      exposed[a] == c.devices[a].(exposed := c.devices[a].exposed && (k.devicesAllow == [] || a in k.devicesAllow))
    requires forall a :: a in denied ==> denied[a] == if a in k.devicesDeny then exposed[a].(exposed := false) else exposed[a]
    requires forall a :: a in limited ==>
      limited[a] == if a in k.devicePermissions then denied[a].(permissions := k.devicePermissions[a]) else denied[a]
    requires forall a :: a in devices ==> devices[a] == if a in k.disableTakeover then limited[a].(takeoverAllowed := false) else limited[a]
    ensures devices == NarrowedDevices(c, k)
  {
    forall a | a in devices ensures devices[a] == NarrowedDevice(a, c.devices[a], k) {
    }
  }

  method NarrowDevices(c: Config, k: Constraints, errors: nat) returns (devices: map<string, Device>, count: nat)
    ensures count >= errors
    ensures count == errors <==> DevicesPermitted(c, k)
    ensures count == errors ==> devices == NarrowedDevices(c, k)
  {
    hide NarrowedDevice, NarrowedDevices;
    var exposed, denied, limited;
    exposed, count := AllowDevices(c, k, errors);
    denied, count := DenyDevices(c, k, exposed, count);
    limited, count := LimitPermissions(c, k, denied, count);
    devices, count := DisableTakeovers(c, k, limited, count);
    if count == errors { DevicesAsNarrowed(c, k, exposed, denied, limited, devices); }
  }

  /** `Narrow`: its loops accept exactly the permitted constraints and leave every device as they ask. */
  method Narrow(c: Config, k: Constraints) returns (r: Option<Config>)
    ensures r.Some? <==> Permitted(c, k) && ConfigValid(Narrowed(c, k))
    ensures r.Some? ==> r.value == Narrowed(c, k)
  {
    hide ConfigValid, NarrowedSelection, NarrowedDevices, DevicesPermitted, Within;
    var narrowed := c;
    var errors := 0;
    if k.output.Some? { narrowed := narrowed.(output := k.output.value); }
    var toolsets, tools, devices;
    toolsets, errors := NarrowSelection(c.toolsets, k.toolsetsAllow, k.toolsetsDeny, errors);
    tools, errors := NarrowSelection(c.tools, k.toolsAllow, k.toolsDeny, errors);
    devices, errors := NarrowDevices(c, k, errors);
    if errors != 0 { return None; }
    narrowed := narrowed.(toolsets := toolsets, tools := tools, devices := devices);
    if !ConfigValid(narrowed) { return None; }
    return Some(narrowed);
  }
}
