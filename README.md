# vm.customize: flag-to-specification mapping, in Dafny

This project models the core of govc's `vm.customize` command
(`govc/vm/customize.go`, the body of `customize.Run` from line 111 to line 235).
The command takes its option bundle (`-type`, `-domain`, `-prefix`, `-name`,
`-auto-login`, `-tz`, and the repeated `-ip`, `-netmask`, `-mac`, `-gateway`,
`-dns-server` flags) and then does three things:

- It builds a fresh guest customization specification, or takes a stored one
  by NAME.
- It checks the `-ip` count against the specification's adapter table.
- It updates the specification in place.

The update picks the field for each setting from the identity variant: Windows
sysprep or Linux prep. It splits DNS and gateway values at commas. It parses
a Windows time zone as a signed base-16 32-bit number. It fills adapter
mapping i from index i of the per-adapter lists.

Files:

- `wrappers.dfy` (`Wrappers`): `Option` and `Result`.
- `text.dfy` (`Text`): `Split` and `Join` on a one-character separator, with
  the semantics of Go's `strings.Split` and `strings.Join`, plus their
  round-trip lemmas.
- `numbers.dfy` (`Numbers`): `ParseHex32` is `strconv.ParseInt(s, 16, 32)`,
  with any error returned as `None`. `FormatHex` is its partner, formatting
  like `strconv.FormatInt(x, 16)`. `Int32Wrap` is Go's `int32(...)`
  conversion.
- `spec_types.dfy` (`SpecTypes`): the parts of the customization
  specification the command touches. These are the identity
  (`Sysprep | LinuxPrep`), the global DNS list and the adapter mappings. The
  file also holds the option bundle, the outcome of a by-name lookup and the
  command's errors.
- `customize.dfy` (`VmCustomize`):
  - the outcome as pure functions, step by step (`NewSpec`, `Source`,
    `Routed`, `Prepared`, `AutoLogged`, `Zoned`, `ConfiguredTable`,
    `Customized`, `Customize`);
  - the class `CustomizationSpec`, whose fields are the identity, the global
    DNS list (a `seq` that is appended to) and the adapter table (an
    `array`);
  - the methods that update it in place (`Prepare`, `AppendGlobalDns`,
    `ConfigureAdapters`, `Apply`) and `Run`. Each is proved to produce the
    outcome the functions describe.
- `properties.dfy` (`CustomizeProperties`): lemmas stating what the command
  promises about the specification it submits.

The stored specification is an input (`Lookup = Found(spec) | Missing |
Failed(detail)`), not a server call. `Run` returns the specification value
that would be handed to `vm.Customize`, or the first error.

## Model

| member | source | states |
|---|---|---|
| `VmCustomize.Run` | govc/vm/customize.go:111-235 | The result is exactly `Customize(o, name, lookup)`. That means: a fresh specification when NAME is empty (usage error for an unknown `-type`); otherwise the stored one, or a not-found / API error; then checked and updated as `Customized` describes. |
| `VmCustomize.CustomizationSpec.Fresh` | govc/vm/customize.go:115-117 | A new specification has the given identity, an empty global DNS list and `n` unset adapter mappings, in a fresh array. |
| `VmCustomize.CustomizationSpec.Stored` | govc/vm/customize.go:144-149 | The working specification is a copy of the stored one (same value, fresh array). |
| `VmCustomize.Apply` | govc/vm/customize.go:152-235 | The adapter array is the same array afterwards, so its length cannot change. The error is the one `Customized` gives. On success the new state is `Customized`'s value. A count error leaves the whole specification unchanged. An auto-login error leaves the domain, DNS and name updates applied. A time-zone error also leaves the auto-logon update applied. |
| `VmCustomize.Prepare` | govc/vm/customize.go:159-190 | The identity becomes `Routed(old identity, o)`. The global DNS list grows by the split `-dns-server` values only on a non-Windows identity. |
| `VmCustomize.AppendGlobalDns` | govc/vm/customize.go:167-174 | The global DNS list becomes the old list followed by each value's comma-split pieces, in order. Nothing else changes. |
| `VmCustomize.ConfigureAdapters` | govc/vm/customize.go:212-235 | The adapter array becomes `ConfiguredTable` of its old contents. Entries below `len(ip)` are configured from index i of each list; the rest keep their old values. |
| `CustomizeProperties.RoutedKeepsVariant` | govc/vm/customize.go:156-190 | Routing `-domain`/`-prefix`/`-name` never changes the identity variant. The resulting name is `-name` if given, else `-prefix` if given, else the prior name. |
| `CustomizeProperties.FreshSpec` | govc/vm/customize.go:113-132 | With no NAME the usage error occurs iff `-type` is neither `Linux` nor `Windows`. For those two, the result is `Customized` applied to a fresh specification with: a Linux-prep (respectively sysprep) identity named after the VM, with every other identity field unset; an empty global DNS list; and `len(ip)` unset adapter mappings. So all the lemmas about `Customized` apply to this path too. A nonzero `-auto-login` with `-type Linux` always fails as Windows-only. The count check never fails here, and the lookup is not consulted. |
| `CustomizeProperties.NamedSpec` | govc/vm/customize.go:133-150 | With a NAME the stored specification is customized. A missing one gives `SpecNotFound(name)`. A failed lookup propagates its error. |
| `CustomizeProperties.CountCheck` | govc/vm/customize.go:152-154 | The result is `TooManyIps(len(ip), name, len(nics))` if and only if there are more `-ip` values than adapter mappings. |
| `CustomizeProperties.FailureCases` | govc/vm/customize.go:152-210 | The command fails iff one of three things holds: too many `-ip` values; a nonzero `-auto-login` on a Linux identity; or a `-tz` on Windows that `ParseHex32` rejects. The earliest of these decides the error. |
| `CustomizeProperties.AdapterTable` | govc/vm/customize.go:212-219 | The table keeps its length, and entries at index ≥ `len(ip)` are untouched. Entry i < `len(ip)` gets a DHCP generator iff `ip[i] == "dhcp"`; otherwise it gets a fixed IP holding exactly `ip[i]`. |
| `CustomizeProperties.AdapterFields` | govc/vm/customize.go:221-229 | Entry i takes netmask, MAC and gateway from index i only when that list is long enough; otherwise the prior value stays. The gateway list is `Split(gateway[i], ',')`, and rejoining it with commas gives back `gateway[i]`. |
| `CustomizeProperties.GlobalDnsLinux` | govc/vm/customize.go:167-174 | On Linux the global list is the old list followed by every `-dns-server` value's pieces, in order. Joining the appended part gives back the joined values. No adapter DNS list changes. |
| `CustomizeProperties.AdapterDnsWindows` | govc/vm/customize.go:230-234 | On Windows the global list is unchanged. Entry i < `len(ip)` gets `Split(dnsserver[i], ',')` when i < `len(dnsserver)`, and keeps its prior list otherwise. |
| `CustomizeProperties.IdentityRouting` | govc/vm/customize.go:159-190 | The variant is kept. `-domain` lands in JoinDomain (Windows) or Domain (Linux), and only when non-empty. With both `-prefix` and `-name`, the name is the fixed name. |
| `CustomizeProperties.AutoLogin` | govc/vm/customize.go:192-198 | On Windows a nonzero `-auto-login` sets AutoLogon and sets AutoLogonCount to the count's int32 value, which is the count itself when it fits. Zero leaves both unchanged. |
| `CustomizeProperties.TimeZone` | govc/vm/customize.go:200-210 | On Linux a non-empty `-tz` is stored verbatim. On Windows the stored index is what `ParseHex32(tz)` yields, so `-tz FormatHex(x)` stores x. An empty `-tz` changes nothing. |
| `CustomizeProperties.JoinSplitAll` | govc/vm/customize.go:169-171 | Splitting every DNS value and concatenating the pieces loses nothing: joining the pieces equals joining the values. |
| `Text.Split` | govc/vm/customize.go:228 | `strings.Split(s, ",")`: one more piece than there are commas, and no piece contains a comma. |
| `Text.JoinSplit` | govc/vm/customize.go:228 | Joining the pieces of a split with the separator gives back the original string. |
| `Text.SplitJoin` | govc/vm/customize.go:228 | Splitting the join of one or more comma-free pieces gives back those pieces, so the split cuts at every comma and nowhere else. |
| `Numbers.ParseHex32` | govc/vm/customize.go:202-205 | A parsed time-zone index always fits in 32 bits. |
| `Numbers.ParseFormatHex` | govc/vm/customize.go:202-206 | Parsing a base-16 formatted integer gives it back iff it is within int32 range; anything out of range is rejected. |
| `Numbers.ParseHex32Spellings` | govc/vm/customize.go:202-206 | Covers every spelling of a number n: no sign, `+` or `-`; any number of leading zeros; then n's base-16 digits with each letter in either case. The parse gives ±n when it fits in int32 and fails otherwise. For example, `4B`, `+023` and `00ff` are accepted, and `FFFFFFFF` is rejected. |
| `Numbers.EverySpelling` | govc/vm/customize.go:202-205 | Every non-empty string of base-16 digits is leading zeros followed by a spelling of its own value. So `ParseHex32Spellings` covers every input made of an optional sign and at least one digit. `NonHexRejected` and `NoDigitsRejected` cover every other input. |
| `Numbers.NonHexRejected` | govc/vm/customize.go:202-205 | A character that is not a base-16 digit, other than a leading sign, makes the parse fail. |
| `Numbers.NoDigitsRejected` | govc/vm/customize.go:202-205 | An empty string, or a sign with no digits after it (`+`, `-`), makes the parse fail. |
| `Numbers.Int32Wrap` | govc/vm/customize.go:197 | `int32(cmd.alc)`: the result is in int32 range, congruent to the input modulo 2^32, and equal to it when it fits. |

## Left out

- Resolving the VM handle, and the help request when no VM is given (lines 102-109). This is command-line context plumbing.
- The existence check and fetch through the customization specification manager (lines 134-149). These are remote calls. The model takes their outcome as the `Lookup` input: both calls' transport errors become `Failed`, and "does not exist" becomes `Missing`.
- Submitting with `vm.Customize` and waiting with `task.Wait` (lines 237-242). These are a network call and an asynchronous task poll. `Run` stops at the value that would be submitted.
- Flag registration, `Usage` and `Description` (lines 48-99). This is command-line framework wiring. The `-type` default of "Linux" is applied by that framework, so the model takes `kind` as given.
- Stored specifications whose identity is neither sysprep nor Linux prep. `Identity` has only those two variants, so the model cannot represent such a specification, even on the flag combinations where the source handles it. The source dereferences a nil Linux-prep pointer for such an identity only when `-domain`, `-prefix`, `-name` or `-tz` is non-empty (lines 163, 180, 188, 208). Without those flags it treats the identity as non-Windows. The `-dns-server` values then go to the global list (lines 167-174), a nonzero `-auto-login` is refused (lines 192-194), and the adapters are configured (lines 212-235).
- Fields of the specification that the command neither reads nor writes. These are left out of the datatypes, so they are trivially preserved.
- The `-prefix` and `-name` values are stored as values. The source instead makes the identity point at the command's own option fields (lines 178, 180, 186, 188). That aliasing is not modelled.
- Error message text is left out. Errors are the cases of `CmdError`, carrying the values the messages print (counts, name, time zone).
- Numbers.ParseHex32: the distinction between strconv's syntax and range errors is not modelled (both are `None`). The command treats both the same way.
