/**
 * The vm.customize command: build a fresh customization specification or take
 * a stored one, check it against the options, and update it in place.
 *
 * The pure functions below describe the outcome step by step; the class
 * CustomizationSpec and the methods Apply and Run perform the same updates in
 * place and are proved to produce that outcome.
 */
module VmCustomize {
  import opened Wrappers
  import opened Text
  import opened Numbers
  import opened SpecTypes

  // ---------------------------------------------------------------------------
  // Specification of the outcome
  // ---------------------------------------------------------------------------

  /**
   * A fresh specification for -type `kind` with `n` unset adapter mappings:
   * Linux prep named after the VM for "Linux", sysprep named after the VM for
   * "Windows", a usage error for anything else.
   */
  function NewSpec(kind: string, n: nat): Result<SpecValue, CmdError>
  {
    var nics := seq(n, _ => EmptyAdapter);
    if kind == "Linux" then Ok(SpecValue(LinuxPrep(VirtualMachineName, "", ""), [], nics))
    else if kind == "Windows" then Ok(SpecValue(Sysprep("", VirtualMachineName, false, 0, 0), [], nics))
    else Err(Usage)
  }

  /** Where the specification comes from: built fresh without a NAME, looked up with one. */
  function Source(o: Options, name: string, lookup: Lookup): Result<SpecValue, CmdError>
  {
    if name == "" then NewSpec(o.kind, |o.ip|)
    else
      match lookup
      case Failed(detail) => Err(ApiError(detail))
      case Missing => Err(SpecNotFound(name))
      case Found(spec) => Ok(spec)
  }

  /** The domain goes to JoinDomain on Windows and to Domain on Linux. */
  function WithDomain(id: Identity, domain: string): Identity
  {
    match id
    case Sysprep(_, _, _, _, _) => id.(joinDomain := domain)
    case LinuxPrep(_, _, _) => id.(domain := domain)
  }

  /** A name generator goes to ComputerName on Windows and to HostName on Linux. */
  function WithName(id: Identity, name: NameGenerator): Identity
  {
    match id
    case Sysprep(_, _, _, _, _) => id.(computerName := name)
    case LinuxPrep(_, _, _) => id.(hostName := name)
  }

  /** The identity after -domain, -prefix and -name, applied in that order, each only when non-empty. */
  function Routed(id: Identity, o: Options): Identity
  {
    var withDomain := if o.domain != "" then WithDomain(id, o.domain) else id;
    var withPrefix := if o.prefix != "" then WithName(withDomain, PrefixName(o.prefix)) else withDomain;
    if o.hostName != "" then WithName(withPrefix, FixedName(o.hostName)) else withPrefix
  }

  /** Every value split at its commas, the pieces kept in order. */
  function SplitAll(values: seq<string>): seq<string>
  {
    if values == [] then []
    else SplitAll(values[..|values| - 1]) + Split(values[|values| - 1], ',')
  }

  /** The global DNS list: extended by the -dns-server values unless the identity is Windows. */
  function GlobalDns(dns: seq<string>, windows: bool, o: Options): seq<string>
  {
    if |o.dnsServer| != 0 && !windows then dns + SplitAll(o.dnsServer) else dns
  }

  /** The specification after the steps that cannot fail: domain, global DNS, prefix and name. */
  function Prepared(v: SpecValue, o: Options): SpecValue
  {
    SpecValue(Routed(v.identity, o), GlobalDns(v.globalDns, v.identity.Sysprep?, o), v.nics)
  }

  /** A nonzero -auto-login turns on auto-logon with that count (as int32), and is refused on Linux. */
  function AutoLogged(id: Identity, count: int): Result<Identity, CmdError>
  {
    if count == 0 then Ok(id)
    else if !id.Sysprep? then Err(AutoLoginWindowsOnly)
    else Ok(id.(autoLogon := true, autoLogonCount := Int32Wrap(count)))
  }

  /** A non-empty -tz is a base-16 index on Windows and is stored verbatim on Linux. */
  function Zoned(id: Identity, tz: string): Result<Identity, CmdError>
  {
    if tz == "" then Ok(id)
    else if id.Sysprep? then
      match ParseHex32(tz)
      case None => Err(BadTimeZone(tz))
      case Some(index) => Ok(id.(timeZoneIndex := index))
    else Ok(id.(timeZone := tz))
  }

  /** The specification once the auto-logon step has been applied (or refused). */
  function LoggedIn(v: SpecValue, o: Options): SpecValue
  {
    var p := Prepared(v, o);
    match AutoLogged(p.identity, o.autoLogin)
    case Ok(id) => p.(identity := id)
    case Err(_) => p
  }

  /** Adapter `i` configured from index `i` of the option lists that are long enough. */
  function ConfiguredAdapter(m: AdapterMapping, i: nat, o: Options, windows: bool): AdapterMapping
    requires i < |o.ip|
  {
    AdapterMapping(
      macAddress := if i < |o.mac| then o.mac[i] else m.macAddress,
      ip := if o.ip[i] == "dhcp" then DhcpIp else FixedIp(o.ip[i]),
      subnetMask := if i < |o.netmask| then o.netmask[i] else m.subnetMask,
      gateway := if i < |o.gateway| then Split(o.gateway[i], ',') else m.gateway,
      dnsServerList := if windows && i < |o.dnsServer| then Split(o.dnsServer[i], ',') else m.dnsServerList)
  }

  /** The adapter table with the first |o.ip| entries configured and the rest as they were. */
  function ConfiguredTable(nics: seq<AdapterMapping>, o: Options, windows: bool): seq<AdapterMapping>
    requires |o.ip| <= |nics|
  {
    seq(|nics|, j requires 0 <= j < |nics| =>
      if j < |o.ip| then ConfiguredAdapter(nics[j], j, o, windows) else nics[j])
  }

  /** The outcome of applying the options to specification `v` (named `name`). */
  function Customized(v: SpecValue, o: Options, name: string): Result<SpecValue, CmdError>
  {
    if |o.ip| > |v.nics| then Err(TooManyIps(|o.ip|, name, |v.nics|))
    else
      var p := Prepared(v, o);
      match AutoLogged(p.identity, o.autoLogin)
      case Err(e) => Err(e)
      case Ok(logged) =>
        match Zoned(logged, o.tz)
        case Err(e) => Err(e)
        case Ok(zoned) => Ok(SpecValue(zoned, p.globalDns, ConfiguredTable(v.nics, o, v.identity.Sysprep?)))
  }

  /** The whole command up to submission: the specification it would submit, or its first error. */
  function Customize(o: Options, name: string, lookup: Lookup): Result<SpecValue, CmdError>
  {
    match Source(o, name, lookup)
    case Err(e) => Err(e)
    case Ok(v) => Customized(v, o, name)
  }

  function ErrorOf(r: Result<SpecValue, CmdError>): Option<CmdError>
  {
    if r.Err? then Some(r.error) else None
  }

  // ---------------------------------------------------------------------------
  // The specification object, updated in place
  // ---------------------------------------------------------------------------

  class CustomizationSpec {
    var identity: Identity
    var globalDns: seq<string>
    var nicSettingMap: array<AdapterMapping>

    /** The specification as a value: what is submitted when the command succeeds. */
    function Value(): SpecValue
      reads this, nicSettingMap
    {
      SpecValue(identity, globalDns, nicSettingMap[..])
    }

    /** A specification with `n` unset adapter mappings and no global DNS servers. */
    constructor Fresh(n: nat, id: Identity)
      ensures fresh(nicSettingMap)
      ensures Value() == SpecValue(id, [], seq(n, _ => EmptyAdapter))
    {
      identity := id;
      globalDns := [];
      nicSettingMap := new AdapterMapping[n](_ => EmptyAdapter);
    }

    /** A copy of a stored specification. */
    constructor Stored(v: SpecValue)
      ensures fresh(nicSettingMap)
      ensures Value() == v
    {
      identity := v.identity;
      globalDns := v.globalDns;
      nicSettingMap := new AdapterMapping[|v.nics|](j requires 0 <= j < |v.nics| => v.nics[j]);
    }
  }

  /** Appends each DNS value, split at its commas, to the global DNS list, in order. */
  method AppendGlobalDns(spec: CustomizationSpec, dnsServer: seq<string>)
    modifies spec`globalDns
    ensures spec.globalDns == old(spec.globalDns) + SplitAll(dnsServer)
  {
    for k := 0 to |dnsServer|
      invariant spec.globalDns == old(spec.globalDns) + SplitAll(dnsServer[..k])
    {
      assert dnsServer[..k + 1][..k] == dnsServer[..k];
      spec.globalDns := spec.globalDns + Split(dnsServer[k], ',');
    }
    assert dnsServer[..|dnsServer|] == dnsServer;
  }

  /**
   * Configures adapter i, for each i below |o.ip|, from index i of the option
   * lists; the per-adapter DNS list is set only for a Windows identity.
   */
  method ConfigureAdapters(nics: array<AdapterMapping>, o: Options, isWindows: bool)
    requires |o.ip| <= nics.Length
    modifies nics
    ensures nics[..] == ConfiguredTable(old(nics[..]), o, isWindows)
  {
    for i := 0 to |o.ip|
      invariant forall j :: 0 <= j < i ==> nics[j] == ConfiguredAdapter(old(nics[j]), j, o, isWindows)
      invariant forall j :: i <= j < nics.Length ==> nics[j] == old(nics[j])
    {
      var nic := nics[i];
      if o.ip[i] == "dhcp" {
        nic := nic.(ip := DhcpIp);
      } else {
        nic := nic.(ip := FixedIp(o.ip[i]));
      }
      if i < |o.netmask| {
        nic := nic.(subnetMask := o.netmask[i]);
      }
      if i < |o.mac| {
        nic := nic.(macAddress := o.mac[i]);
      }
      if i < |o.gateway| {
        nic := nic.(gateway := Split(o.gateway[i], ','));
      }
      if isWindows {
        if i < |o.dnsServer| {
          nic := nic.(dnsServerList := Split(o.dnsServer[i], ','));
        }
      }
      nics[i] := nic;
    }
  }

  /**
   * The steps that cannot fail: -domain, the global DNS list, -prefix and
   * -name, in that order, each routed by the identity variant.
   */
  method Prepare(spec: CustomizationSpec, o: Options)
    modifies spec`identity, spec`globalDns
    ensures spec.identity == Routed(old(spec.identity), o)
    ensures spec.globalDns == GlobalDns(old(spec.globalDns), old(spec.identity).Sysprep?, o)
  {
    var isWindows := spec.identity.Sysprep?;

    if o.domain != "" {
      if isWindows {
        spec.identity := spec.identity.(joinDomain := o.domain);
      } else {
        spec.identity := spec.identity.(domain := o.domain);
      }
    }

    if |o.dnsServer| != 0 {
      if !isWindows {
        AppendGlobalDns(spec, o.dnsServer);
      }
    }

    if o.prefix != "" {
      if isWindows {
        spec.identity := spec.identity.(computerName := PrefixName(o.prefix));
      } else {
        spec.identity := spec.identity.(hostName := PrefixName(o.prefix));
      }
    }

    if o.hostName != "" {
      if isWindows {
        spec.identity := spec.identity.(computerName := FixedName(o.hostName));
      } else {
        spec.identity := spec.identity.(hostName := FixedName(o.hostName));
      }
    }
  }

  /**
   * Checks the options against `spec` and updates it in place. The adapter
   * table keeps its length. A count error leaves the specification untouched;
   * the auto-logon and time-zone errors come after the domain, DNS and name
   * updates, which then stay applied.
   */
  method Apply(spec: CustomizationSpec, o: Options, name: string) returns (err: Option<CmdError>)
    modifies spec, spec.nicSettingMap
    ensures spec.nicSettingMap == old(spec.nicSettingMap)
    ensures err == ErrorOf(Customized(old(spec.Value()), o, name))
    ensures err.None? ==> Customized(old(spec.Value()), o, name) == Ok(spec.Value())
    ensures err.Some? && err.value.TooManyIps? ==> spec.Value() == old(spec.Value())
    ensures err == Some(AutoLoginWindowsOnly) ==> spec.Value() == Prepared(old(spec.Value()), o)
    ensures err.Some? && err.value.BadTimeZone? ==> spec.Value() == LoggedIn(old(spec.Value()), o)
  {
    ghost var v0 := spec.Value();
    var nics := spec.nicSettingMap;
    if |o.ip| > nics.Length {
      return Some(TooManyIps(|o.ip|, name, nics.Length));
    }

    var isWindows := spec.identity.Sysprep?;
    Prepare(spec, o);
    assert spec.Value() == Prepared(v0, o);

    if o.autoLogin != 0 {
      if !isWindows {
        return Some(AutoLoginWindowsOnly);
      }
      spec.identity := spec.identity.(autoLogon := true, autoLogonCount := Int32Wrap(o.autoLogin));
    }
    assert spec.Value() == LoggedIn(v0, o);

    if o.tz != "" {
      if isWindows {
        var index := ParseHex32(o.tz);
        if index.None? {
          return Some(BadTimeZone(o.tz));
        }
        spec.identity := spec.identity.(timeZoneIndex := index.value);
      } else {
        spec.identity := spec.identity.(timeZone := o.tz);
      }
    }

    ConfigureAdapters(nics, o, isWindows);
    return None;
  }

  /**
   * The command from line 111 on: obtain the specification (fresh or stored),
   * update it, and yield the value that would be submitted, or the first error.
   */
  method Run(o: Options, name: string, lookup: Lookup) returns (r: Result<SpecValue, CmdError>)
    ensures r == Customize(o, name, lookup)
  {
    var spec: CustomizationSpec;
    if name == "" {
      var built := NewSpec(o.kind, |o.ip|);
      if built.Err? {
        return Err(built.error);
      }
      spec := new CustomizationSpec.Fresh(|o.ip|, built.value.identity);
    } else {
      if lookup.Failed? {
        return Err(ApiError(lookup.detail));
      } else if lookup.Missing? {
        return Err(SpecNotFound(name));
      }
      spec := new CustomizationSpec.Stored(lookup.spec);
    }
    var err := Apply(spec, o, name);
    if err.Some? {
      return Err(err.value);
    }
    return Ok(spec.Value());
  }
}
