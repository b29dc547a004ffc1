/**
 * The parts of a guest customization specification that the vm.customize
 * command reads or writes, and the command's option bundle.
 */
module SpecTypes {

  /** How the guest's host name (Linux) or computer name (Windows) is chosen. */
  datatype NameGenerator =
    | VirtualMachineName        // use the VM's own name
    | PrefixName(base: string)  // a generated name with this prefix
    | FixedName(name: string)   // exactly this name
    | UnknownName
    | CustomName(argument: string)

  /** The guest identity: Windows sysprep or Linux prep, each with its own fields. */
  datatype Identity =
    | Sysprep(joinDomain: string, computerName: NameGenerator,
              autoLogon: bool, autoLogonCount: int, timeZoneIndex: int)
    | LinuxPrep(hostName: NameGenerator, domain: string, timeZone: string)

  /** How one adapter obtains its IP address; NoIp is an unset generator. */
  datatype IpGenerator =
    | NoIp
    | DhcpIp
    | FixedIp(ipAddress: string)
    | UnknownIp
    | CustomIp(argument: string)

  /** The settings of one network adapter of the guest. */
  datatype AdapterMapping = AdapterMapping(
    macAddress: string,
    ip: IpGenerator,
    subnetMask: string,
    gateway: seq<string>,
    dnsServerList: seq<string>)

  /** An adapter mapping with every field unset. */
  const EmptyAdapter := AdapterMapping("", NoIp, "", [], [])

  /** A customization specification: identity, global DNS servers, per-adapter settings. */
  datatype SpecValue = SpecValue(
    identity: Identity,
    globalDns: seq<string>,
    nics: seq<AdapterMapping>)

  /**
   * The command's flags. `mac`, `ip`, `gateway`, `netmask` and `dnsServer` are
   * the repeated flags in the order given; `kind` is the -type flag, whose
   * default is "Linux".
   */
  datatype Options = Options(
    autoLogin: int,
    prefix: string,
    tz: string,
    domain: string,
    hostName: string,
    mac: seq<string>,
    ip: seq<string>,
    gateway: seq<string>,
    netmask: seq<string>,
    dnsServer: seq<string>,
    kind: string)

  /** Outcome of asking the specification manager for a stored specification by name. */
  datatype Lookup =
    | Found(spec: SpecValue)
    | Missing
    | Failed(detail: string)

  /** The ways the command can stop before submitting the specification. */
  datatype CmdError =
    | Usage                                                   // unknown -type: show help
    | SpecNotFound(name: string)
    | ApiError(detail: string)                                // propagated from the manager
    | TooManyIps(ipCount: nat, specName: string, nicCount: nat)
    | AutoLoginWindowsOnly
    | BadTimeZone(tz: string)
}
