/**
 * What vm.customize promises about the specification it submits, stated over
 * the outcome functions of module VmCustomize.
 */
module CustomizeProperties {
  import opened Wrappers
  import opened Text
  import opened Numbers
  import opened SpecTypes
  import opened VmCustomize

  /** The host name (Linux) or computer name (Windows) of an identity. */
  function NameOf(id: Identity): NameGenerator
  {
    if id.Sysprep? then id.computerName else id.hostName
  }

  /** The name after -prefix and -name: -name wins over -prefix, and either over the prior name. */
  function ChosenName(prior: NameGenerator, o: Options): NameGenerator
  {
    if o.hostName != "" then FixedName(o.hostName)
    else if o.prefix != "" then PrefixName(o.prefix)
    else prior
  }

  /** Routing never switches the identity between the Windows and Linux variants. */
  lemma RoutedKeepsVariant(id: Identity, o: Options)
    ensures Routed(id, o).Sysprep? == id.Sysprep?
    ensures NameOf(Routed(id, o)) == ChosenName(NameOf(id), o)
  {
  }

  /**
   * Without a NAME: exactly -type Linux and -type Windows escape the usage
   * error, and the command then customizes a fresh specification with a
   * Linux-prep (respectively sysprep) identity named after the VM and with
   * every other identity field unset, an empty global DNS list and exactly one
   * unset adapter mapping per -ip value (so the count check always passes).
   * A nonzero -auto-login with -type Linux therefore always fails as
   * Windows-only. The stored specification is not consulted.
   */
  lemma FreshSpec(o: Options, lookup: Lookup)
    ensures Customize(o, "", lookup) == Err(Usage) <==> o.kind != "Linux" && o.kind != "Windows"
    ensures o.kind == "Linux" || o.kind == "Windows" ==>
      Customize(o, "", lookup) ==
        Customized(SpecValue(if o.kind == "Linux" then LinuxPrep(VirtualMachineName, "", "")
                             else Sysprep("", VirtualMachineName, false, 0, 0),
                             [], seq(|o.ip|, _ => EmptyAdapter)), o, "")
    ensures o.kind == "Linux" && o.autoLogin != 0 ==> Customize(o, "", lookup) == Err(AutoLoginWindowsOnly)
    ensures Customize(o, "", lookup) == Customize(o, "", Missing)
    ensures !Customize(o, "", lookup).Err? || !Customize(o, "", lookup).error.TooManyIps?
    ensures Customize(o, "", lookup).Ok? ==>
      var r := Customize(o, "", lookup).value;
      && |r.nics| == |o.ip|
      && (r.identity.LinuxPrep? <==> o.kind == "Linux")
      && (r.identity.Sysprep? <==> o.kind == "Windows")
      && NameOf(r.identity) == ChosenName(VirtualMachineName, o)
  {
  }

  /** With a NAME, the stored specification is used; a missing one or a failed lookup stops the command. */
  lemma NamedSpec(o: Options, name: string, v: SpecValue, detail: string)
    requires name != ""
    ensures Customize(o, name, Found(v)) == Customized(v, o, name)
    ensures Customize(o, name, Missing) == Err(SpecNotFound(name))
    ensures Customize(o, name, Failed(detail)) == Err(ApiError(detail))
  {
  }

  /** The count error happens exactly when there are more -ip values than adapter mappings. */
  lemma CountCheck(v: SpecValue, o: Options, name: string)
    ensures Customized(v, o, name) == Err(TooManyIps(|o.ip|, name, |v.nics|)) <==> |o.ip| > |v.nics|
  {
  }

  /**
   * The command fails exactly on: too many -ip values, a nonzero -auto-login on
   * a Linux identity, or a -tz on a Windows identity that is not a signed
   * 32-bit base-16 number. The first of these, in that order, is the error.
   */
  lemma FailureCases(v: SpecValue, o: Options, name: string)
    ensures var r := Customized(v, o, name);
      && (r.Err? <==>
            || |o.ip| > |v.nics|
            || (o.autoLogin != 0 && !v.identity.Sysprep?)
            || (o.tz != "" && v.identity.Sysprep? && ParseHex32(o.tz).None?))
      && (|o.ip| <= |v.nics| && o.autoLogin != 0 && !v.identity.Sysprep? ==>
            r == Err(AutoLoginWindowsOnly))
      && (|o.ip| <= |v.nics| && o.tz != "" && v.identity.Sysprep? && ParseHex32(o.tz).None? ==>
            r == Err(BadTimeZone(o.tz)))
  {
  }

  /**
   * The adapter table keeps its length; mappings at index |o.ip| and beyond are
   * untouched; mapping i below |o.ip| gets a DHCP generator exactly when the
   * i-th -ip value is "dhcp", and otherwise a fixed address holding exactly it.
   */
  lemma AdapterTable(v: SpecValue, o: Options, name: string)
    requires Customized(v, o, name).Ok?
    ensures var r := Customized(v, o, name).value;
      && |r.nics| == |v.nics|
      && (forall j :: |o.ip| <= j < |v.nics| ==> r.nics[j] == v.nics[j])
      && (forall i :: 0 <= i < |o.ip| ==> (r.nics[i].ip == DhcpIp <==> o.ip[i] == "dhcp"))
      && (forall i :: 0 <= i < |o.ip| && o.ip[i] != "dhcp" ==> r.nics[i].ip == FixedIp(o.ip[i]))
  {
  }

  /**
   * Mapping i below |o.ip| takes its netmask, MAC address and gateways from
   * index i of those lists when they are long enough and keeps its prior value
   * otherwise. Its gateways are the i-th -gateway value split at every comma,
   * so joining them with commas gives that value back.
   */
  lemma AdapterFields(v: SpecValue, o: Options, name: string, i: nat)
    requires Customized(v, o, name).Ok? && i < |o.ip|
    ensures var m := Customized(v, o, name).value.nics[i];
      && m.subnetMask == (if i < |o.netmask| then o.netmask[i] else v.nics[i].subnetMask)
      && m.macAddress == (if i < |o.mac| then o.mac[i] else v.nics[i].macAddress)
      && m.gateway == (if i < |o.gateway| then Split(o.gateway[i], ',') else v.nics[i].gateway)
      && (i < |o.gateway| ==> Join(m.gateway, ',') == o.gateway[i])
  {
    if i < |o.gateway| {
      JoinSplit(o.gateway[i], ',');
    }
  }

  /** Joining the split pieces of several values gives the join of the values. */
  lemma {:induction false} JoinSplitAll(values: seq<string>)
    ensures |SplitAll(values)| >= |values|
    ensures Join(SplitAll(values), ',') == Join(values, ',')
  {
    if values != [] {
      var init, last := values[..|values| - 1], values[|values| - 1];
      JoinSplitAll(init);
      JoinSplit(last, ',');
      if init == [] {
        assert SplitAll(values) == Split(last, ',');
        assert values == [last];
      } else {
        JoinAppend(SplitAll(init), Split(last, ','), ',');
        JoinAppend(init, [last], ',');
        assert init + [last] == values;
      }
    }
  }

  /**
   * On a Linux identity every -dns-server value is split at its commas and the
   * pieces are appended, in order, after the existing global DNS list (joining
   * the appended pieces gives back the joined values); no adapter's own DNS
   * list changes.
   */
  lemma GlobalDnsLinux(v: SpecValue, o: Options, name: string)
    requires Customized(v, o, name).Ok? && v.identity.LinuxPrep?
    ensures var r := Customized(v, o, name).value;
      && r.globalDns == v.globalDns + SplitAll(o.dnsServer)
      && Join(r.globalDns[|v.globalDns|..], ',') == Join(o.dnsServer, ',')
      && (forall j :: 0 <= j < |r.nics| ==> r.nics[j].dnsServerList == v.nics[j].dnsServerList)
  {
    var r := Customized(v, o, name).value;
    JoinSplitAll(o.dnsServer);
    if o.dnsServer == [] {
      assert SplitAll(o.dnsServer) == [];
    }
    assert r.globalDns[|v.globalDns|..] == SplitAll(o.dnsServer);
  }

  /**
   * On a Windows identity the global DNS list is unchanged, and mapping i
   * below |o.ip| gets the i-th -dns-server value split at its commas when there
   * is one, keeping its prior list otherwise.
   */
  lemma AdapterDnsWindows(v: SpecValue, o: Options, name: string)
    requires Customized(v, o, name).Ok? && v.identity.Sysprep?
    ensures var r := Customized(v, o, name).value;
      && r.globalDns == v.globalDns
      && (forall i :: 0 <= i < |o.ip| ==>
            r.nics[i].dnsServerList ==
              (if i < |o.dnsServer| then Split(o.dnsServer[i], ',') else v.nics[i].dnsServerList))
  {
  }

  /**
   * -domain goes to JoinDomain on Windows and to Domain on Linux; the name is
   * chosen by ChosenName, so with both -prefix and -name the fixed name wins.
   */
  lemma IdentityRouting(v: SpecValue, o: Options, name: string)
    requires Customized(v, o, name).Ok?
    ensures var id := Customized(v, o, name).value.identity;
      && id.Sysprep? == v.identity.Sysprep?
      && NameOf(id) == ChosenName(NameOf(v.identity), o)
      && (id.Sysprep? ==> id.joinDomain == (if o.domain != "" then o.domain else v.identity.joinDomain))
      && (id.LinuxPrep? ==> id.domain == (if o.domain != "" then o.domain else v.identity.domain))
  {
  }

  /**
   * On Windows a nonzero -auto-login turns auto-logon on with that count (its
   * low 32 bits, which is the count itself when it fits); zero leaves both as
   * they were.
   */
  lemma AutoLogin(v: SpecValue, o: Options, name: string)
    requires Customized(v, o, name).Ok? && v.identity.Sysprep?
    ensures var id := Customized(v, o, name).value.identity;
      && id.Sysprep?
      && id.autoLogon == (o.autoLogin != 0 || v.identity.autoLogon)
      && id.autoLogonCount == (if o.autoLogin != 0 then Int32Wrap(o.autoLogin) else v.identity.autoLogonCount)
      && (o.autoLogin != 0 && InInt32(o.autoLogin) ==> id.autoLogonCount == o.autoLogin)
  {
  }

  /**
   * A non-empty -tz is stored verbatim on Linux; on Windows it is stored as the
   * number it denotes in base 16, so a formatted 32-bit index comes back as
   * itself. An empty -tz leaves the time zone alone.
   */
  lemma TimeZone(v: SpecValue, o: Options, name: string)
    requires Customized(v, o, name).Ok?
    ensures var id := Customized(v, o, name).value.identity;
      && (id.LinuxPrep? ==> id.timeZone == (if o.tz != "" then o.tz else v.identity.timeZone))
      && (id.Sysprep? && o.tz != "" ==> ParseHex32(o.tz) == Some(id.timeZoneIndex))
      && (id.Sysprep? && o.tz == "" ==> id.timeZoneIndex == v.identity.timeZoneIndex)
      && (forall x :: id.Sysprep? && o.tz == FormatHex(x) ==> id.timeZoneIndex == x)
  {
    var id := Customized(v, o, name).value.identity;
    forall x | id.Sysprep? && o.tz == FormatHex(x)
      ensures id.timeZoneIndex == x
    {
      ParseFormatHex(x);
    }
  }
}
