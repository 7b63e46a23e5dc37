# EOS network-device providers: a verified Dafny model

This project models two Puppet providers that reconcile the desired state of an
Arista EOS switch with what the switch reports.

- **`network_interface` provider.**
  - `instances` lists the device's interfaces and keeps the ethernet ones.
  - `prefetch` binds each managed resource to the discovered instance with its name.
  - The setters `enable=`, `description=`, `speed=`, `duplex=` and `mtu=` only stage values in `@property_flush`.
  - `flush` turns the staged values into device calls, in the order enable state, speed/duplex, mtu, description.
  - An enable of `:true` is sent as `no shutdown` and `:false` as `shutdown`. Any other truthy value raises before any call.
- **`radius_server_group` provider.**
  - `instances` keeps the AAA groups of type `radius`.
  - `create`, `destroy` and `servers=` call the device and rewrite `@property_hash`.
  - `exists?` tests `ensure == :present`.
  - Each server of a group is named by the token `name/auth_port/acct_port`. `server_name` builds the token and fills the default ports 1812 and 1813. `parse_server_name` splits the token back with Ruby's `String#split('/')`.

Files:

- `wrappers.dfy`: `Option`, `Result` and `Outcome`.
- `radius_tokens.dfy` (module `RadiusTokens`): Ruby's split, `ServerName`, `ParseServerName` and their round trips.
- `radius_server_group.dfy` (module `RadiusServerGroup`): the class `RadiusServerGroupProvider`, discovery and its lemmas.
- `network_interface.dfy` (module `NetworkInterface`): the class `InterfaceProvider`, the pure `FlushCalls` specification and its lemmas.

How the model represents the source:

- **Device API.** Each provider has a ghost call log (`log`). Every device call appends one `Call` or `AaaCall` entry to it.
- **Ruby values.** A `Value` datatype stands for them. `Truthy` is Ruby truthiness: everything except `nil` and `false`. The symbol `:true` is `Sym("true")`. So a boolean `false` staged as enable is falsy and sends nothing, while `:false` sends `shutdown`.
- **Staging.** The setters are methods that may modify only `propertyFlush`. Their frame therefore states that no device call happens.
- **Flush.** `InterfaceProvider.Flush` is proved against `FlushCalls`, a pure function of the interface name and the staged map. The lemmas about `FlushCalls` state what the source promises.
- **Discovery.** Both `Instances` methods loop over the device's entries. They are proved against `EthernetRecords` and `RadiusRecords`.

Facts about the code that the model keeps:

- **Duplicate names.** The interface `prefetch` builds a name-keyed hash in discovery order, so of two instances with the same name the last one wins. `IndexByName` and `Prefetch` prove this.
- **`destroy`.** `destroy` sets the hash to exactly `{name, ensure: :absent}`. Any `servers` entry is dropped.
- **Staged falsy values.** `flush_mtu`, `flush_description` and `flush_enable_state` treat a property staged as `nil` or `false` exactly like one that was never staged.

## Model

| member | source | states |
|---|---|---|
| `RadiusTokens.ServerNameDefaults` | lib/puppet/provider/radius_server_group/eos.rb:17-18 | A server with neither port given is named `<name>/1812/1813`. |
| `RadiusTokens.ParseServerName` | lib/puppet/provider/radius_server_group/eos.rb:69-75 | Both ports are always filled in. No field contains `/`. The name is `nil` exactly when the token is made only of separators (or is empty). |
| `RadiusTokens.ParseBareHost` | lib/puppet/provider/radius_server_group/eos.rb:69-75 | A bare host `"h"` parses to `{name: "h", auth_port: "1812", acct_port: "1813"}`. |
| `RadiusTokens.ParseHostAndAuthPort` | lib/puppet/provider/radius_server_group/eos.rb:70-73 | `"h/p"` keeps `p` as the auth port. The missing accounting port takes its default. |
| `RadiusTokens.ParseServerNameOfServerName` | lib/puppet/provider/radius_server_group/eos.rb:63-75 | Parsing `server_name(opts)` recovers the name and both ports, with missing ports defaulted. This needs slash-free parts and a non-empty accounting port. |
| `RadiusTokens.ParseServerNameOfFullServerName` | lib/puppet/provider/radius_server_group/eos.rb:63-75 | With name and both ports given, slash-free, and a non-empty accounting port, `parse_server_name(server_name(opts)) == opts`. |
| `RadiusTokens.ServerNameOfParseServerName` | lib/puppet/provider/radius_server_group/eos.rb:63-75 | `server_name(parse_server_name("a/b/c")) == "a/b/c"` when the parts are slash-free and `c` is not empty. |
| `RadiusTokens.SplitThree` | lib/puppet/provider/radius_server_group/eos.rb:70 | The Ruby split of `a/b/c` is exactly `[a, b, c]` when the parts are slash-free and `c` is not empty. |
| `RadiusTokens.SplitIgnoresTrailingSeparator` | lib/puppet/provider/radius_server_group/eos.rb:70 | A trailing `/` never changes the split, so `"h/"` parses like `"h"`. |
| `RadiusTokens.AllSeparatorsIffNoFields` | lib/puppet/provider/radius_server_group/eos.rb:70-71 | The split yields no field exactly when the token consists only of `/` characters. |
| `RadiusTokens.JoinFields` | lib/puppet/provider/radius_server_group/eos.rb:70 | Joining the raw fields with `/` gives back the token. |
| `RadiusTokens.FieldsOfJoinAt` | lib/puppet/provider/radius_server_group/eos.rb:70 | Splitting at the first separator yields the text before it, followed by the fields of the rest. |
| `RadiusTokens.DropTrailingEmpty` | lib/puppet/provider/radius_server_group/eos.rb:70 | Ruby's split keeps a prefix of the raw fields. The prefix ends in a non-empty field, and every dropped field is empty. |
| `RadiusServerGroup.RadiusRecords` | lib/puppet/provider/radius_server_group/eos.rb:29-38 | Discovery yields no more records than device groups. Each record is `ensure: :present` and has a servers list. |
| `RadiusServerGroup.RadiusPositionsExact` | lib/puppet/provider/radius_server_group/eos.rb:31-34 | The selected positions are strictly increasing, and a position is selected exactly when that group's type is `radius`. |
| `RadiusServerGroup.RadiusRecordsInOrder` | lib/puppet/provider/radius_server_group/eos.rb:29-38 | There is one record per selected position, and the k-th record is built from the group at the k-th position. So records keep the device's order, with no drop, duplicate or reordering. |
| `RadiusServerGroup.RadiusRecordsAreRadiusGroups` | lib/puppet/provider/radius_server_group/eos.rb:31-34 | Every record comes from a device group of type `radius`. |
| `RadiusServerGroup.RadiusGroupsHaveRecords` | lib/puppet/provider/radius_server_group/eos.rb:31-36 | Every device group of type `radius` has its record. |
| `RadiusServerGroup.NoRadiusNoRecords` | lib/puppet/provider/radius_server_group/eos.rb:32 | Groups of other types yield nothing. |
| `RadiusServerGroup.AllRadiusRecords` | lib/puppet/provider/radius_server_group/eos.rb:31-36 | When every group is `radius`, there is one record per group, in device order. |
| `RadiusServerGroup.GroupRecordServers` | lib/puppet/provider/radius_server_group/eos.rb:34 | A kept group's servers list has the device list's length and order. Each element is `server_name` of the device entry. |
| `RadiusServerGroup.ParsedServers` | lib/puppet/provider/radius_server_group/eos.rb:45 | `servers=` sends one parsed entry per token, with both ports filled in. |
| `RadiusServerGroup.ParsedServersOfServerNames` | lib/puppet/provider/radius_server_group/eos.rb:34-45 | For well-formed servers, what discovery lists is sent back unchanged by `servers=`. |
| `RadiusServerGroup.RadiusServerGroupProvider.Instances` | lib/puppet/provider/radius_server_group/eos.rb:29-38 | The loop builds one new provider per `RadiusRecords` entry, in order, with that hash and no resource. |
| `RadiusServerGroup.RadiusServerGroupProvider.SetServersProperty` | lib/puppet/provider/radius_server_group/eos.rb:44-48 | Logs exactly one `set_servers` carrying the element-wise parse of the input. Then stores the input unchanged under `:servers` and leaves the other keys as they were. |
| `RadiusServerGroup.RadiusServerGroupProvider.Create` | lib/puppet/provider/radius_server_group/eos.rb:50-55 | Logs the create call. A falsy reply raises and leaves the hash unchanged. The error names the hash's `:name`, or the resource's name when the hash has none. On success the hash becomes `{name, ensure: :present}`, plus `servers` only when the resource supplies them (with the matching `set_servers` call). `exists?` is then true. |
| `RadiusServerGroup.RadiusServerGroupProvider.Destroy` | lib/puppet/provider/radius_server_group/eos.rb:40-60 | Logs the delete call. Replaces the hash with exactly `{name, ensure: :absent}`, so `exists?` (true iff `ensure == :present`) becomes false. |
| `RadiusServerGroup.RadiusServerGroupProvider.FromHash` | lib/puppet/provider/radius_server_group/eos.rb:36 | `new(hash)` holds exactly that hash and has made no device call. |
| `NetworkInterface.EnableArg` | lib/puppet/provider/network_interface/eos.rb:105-111 | Only `:true` and `:false` are accepted. `:true` maps to `no shutdown`, `:false` maps to `shutdown`. Any other value fails with an error carrying that value. |
| `NetworkInterface.FlushFailsOnUnknownEnable` | lib/puppet/provider/network_interface/eos.rb:101-111 | A flush fails exactly when the staged enable is truthy but neither `:true` nor `:false`. The error names that value. |
| `NetworkInterface.FlushCallsInOrder` | lib/puppet/provider/network_interface/eos.rb:68-72 | A successful flush issues its calls in the fixed order state, speed/duplex, mtu, description. There is at most one call of each kind, and all carry the resource name. |
| `NetworkInterface.FlushStateCall` | lib/puppet/provider/network_interface/eos.rb:101-113 | `:true` gives exactly one `set_interface_state(name, 'no shutdown')`, `:false` exactly one `set_interface_state(name, 'shutdown')`. A falsy or missing enable gives none. |
| `NetworkInterface.FlushSpeedAndDuplexCall` | lib/puppet/provider/network_interface/eos.rb:70 | The speed/duplex helper runs exactly once per successful flush. |
| `NetworkInterface.FlushMtuCall` | lib/puppet/provider/network_interface/eos.rb:79-84 | A truthy staged mtu gives exactly one mtu call with the name and value. Anything else gives none. |
| `NetworkInterface.FlushDescriptionCall` | lib/puppet/provider/network_interface/eos.rb:91-95 | A truthy staged description gives exactly one description call with the name and value. Anything else gives none. |
| `NetworkInterface.OfRankConcat` | lib/puppet/provider/network_interface/eos.rb:68-72 | Selecting the calls of one kind distributes over concatenation. Sequential flush steps therefore add up. |
| `NetworkInterface.EthernetRecords` | lib/puppet/provider/network_interface/eos.rb:15-25 | Discovery yields no more records than device entries. |
| `NetworkInterface.EthernetPositionsExact` | lib/puppet/provider/network_interface/eos.rb:18-23 | The selected positions are strictly increasing, and a position is selected exactly when that entry's `hardware` is `ethernet`. |
| `NetworkInterface.EthernetRecordsInOrder` | lib/puppet/provider/network_interface/eos.rb:15-25 | There is one record per selected position, and the k-th record is `{name: key}` merged with the attributes of the entry at the k-th position. So records keep the device's order, with no drop, duplicate or reordering. |
| `NetworkInterface.EthernetRecordsAreEthernet` | lib/puppet/provider/network_interface/eos.rb:18-23 | Every record comes from an entry whose `hardware` is `ethernet`. It is `{name: key}` merged with that entry's attributes. |
| `NetworkInterface.EthernetEntriesHaveRecords` | lib/puppet/provider/network_interface/eos.rb:18-23 | Every ethernet entry has its record. |
| `NetworkInterface.NoEthernetNoRecords` | lib/puppet/provider/network_interface/eos.rb:19 | A device with no ethernet entry yields no instance. |
| `NetworkInterface.InterfaceRecordName` | lib/puppet/provider/network_interface/eos.rb:20-21 | A record is named by the device key unless the attributes supply their own `:name`. |
| `NetworkInterface.InterfaceProvider.Instances` | lib/puppet/provider/network_interface/eos.rb:15-25 | The loop builds one new provider per `EthernetRecords` entry, in order. Each has that hash, an empty `@property_flush` and no resource. |
| `NetworkInterface.InterfaceProvider.IndexByName` | lib/puppet/provider/network_interface/eos.rb:28-30 | Every instance's name is a key of the lookup hash. Each key maps to the last instance with that name. |
| `NetworkInterface.InterfaceProvider.Rebind` | lib/puppet/provider/network_interface/eos.rb:32-34 | A resource is rebound exactly when the lookup has its name. Otherwise it keeps its provider. The set of resources is unchanged. |
| `NetworkInterface.InterfaceProvider.Prefetch` | lib/puppet/provider/network_interface/eos.rb:27-35 | A resource with no same-named ethernet instance keeps its provider. Otherwise it gets the provider of the last instance with that exact name: a new provider holding that instance's hash, with nothing staged and no resource. |
| `NetworkInterface.InterfaceProvider.FromHash` | lib/puppet/provider/network_interface/eos.rb:37-40 | `initialize` with a hash holds exactly that hash and starts with an empty `@property_flush`. |
| `NetworkInterface.InterfaceProvider.ForResource` | lib/puppet/provider/network_interface/eos.rb:37-40 | `initialize` with a resource starts with an empty property hash and an empty `@property_flush`. |
| `NetworkInterface.InterfaceProvider.SetEnable` | lib/puppet/provider/network_interface/eos.rb:42-44 | Writes or overwrites only the `:enable` key. Other keys, the hash and the call log are untouched. |
| `NetworkInterface.InterfaceProvider.SetDescription` | lib/puppet/provider/network_interface/eos.rb:46-48 | Writes or overwrites only the `:description` key and makes no device call. |
| `NetworkInterface.InterfaceProvider.SetSpeed` | lib/puppet/provider/network_interface/eos.rb:50-52 | Writes or overwrites only the `:speed` key and makes no device call. |
| `NetworkInterface.InterfaceProvider.SetDuplex` | lib/puppet/provider/network_interface/eos.rb:54-56 | Writes or overwrites only the `:duplex` key and makes no device call. |
| `NetworkInterface.InterfaceProvider.SetMtu` | lib/puppet/provider/network_interface/eos.rb:58-60 | Writes or overwrites only the `:mtu` key and makes no device call. |
| `NetworkInterface.InterfaceProvider.FlushEnableState` | lib/puppet/provider/network_interface/eos.rb:101-114 | Logs one state call for a truthy `:true`/`:false` enable and none for a falsy one. For any other value it raises and logs nothing. |
| `NetworkInterface.InterfaceProvider.FlushSpeedAndDuplexHelper` | lib/puppet/provider/network_interface/eos.rb:70 | The mixin helper is one opaque logged step. |
| `NetworkInterface.InterfaceProvider.FlushMtu` | lib/puppet/provider/network_interface/eos.rb:79-84 | Logs the mtu call only for a truthy staged mtu. |
| `NetworkInterface.InterfaceProvider.FlushDescription` | lib/puppet/provider/network_interface/eos.rb:91-95 | Logs the description call only for a truthy staged description. |
| `NetworkInterface.InterfaceProvider.Flush` | lib/puppet/provider/network_interface/eos.rb:68-74 | Logs exactly the calls of `FlushCalls` and only then replaces the property hash with the resource's hash. On an unknown enable it logs nothing and leaves the hash unchanged. `@property_flush` is not cleared. |

## Left out

- **Device API.** The device API (`EosProviderMethods`, `EosApi`, `node.api(...)`) is not part of this model. Each call is an entry in a ghost call log.
  - The reply of the AAA `create` call is a parameter of `Create`.
  - The replies of the other calls are ignored, as the source ignores them.
  - Failures of the read calls `all_interfaces` and `aaa.get` are not modelled.
- **`flush_speed_and_duplex`.** It is defined in the API mixin and is not part of this model. It is one opaque log entry. Nothing is claimed about what it sends or how it groups speed and duplex.
- **`interface_attributes`.** It comes from the mixin. It is a function parameter from raw attributes to a hash, about which nothing is assumed.
- **Puppet framework.** `mk_resource_methods`, `confine`, `Puppet.debug`, the `LoadError` fallback of the `require`, and `resource.to_hash` are left out.
  - `resource.to_hash` becomes the `hash` field of the `Resource` value.
  - Puppet's `Provider#initialize` is modelled only by the two named constructors.
- **Attached resource.** Methods that read `resource` require one to be attached. Puppet attaches it before calling them. In Ruby a provider without a resource would fail with `NoMethodError` instead.
- **`exists?`.** It is the predicate `RadiusServerGroupProvider.Exists`. Its meaning is stated through the `Create` and `Destroy` postconditions.
- **Error messages.** Errors carry the offending value (`UnknownEnable`) or the provider's name (`UnableToCreate`: the hash's `:name`, else the resource's name). The message text, including Ruby's `inspect` formatting, is not built.
- **Falsy instance names.** `NameOf` and `InterfaceProvider.Name` read `:name` from the hash. If the attributes give an instance a `nil` or `false` name, Puppet's `Provider#name` would raise, because an instance has no resource to fall back on. The model instead keys that instance under the falsy value, so no resource can match it.
- **Prefetch binding.** `InterfaceProvider.Prefetch` returns the new map from resource name to provider. It does not assign `resource.provider` on each resource object in place, and it does not model Puppet linking the provider back to its resource.
- **`instances` of the interface provider.** A hash with duplicate device keys cannot occur in Ruby. The model takes an ordered list of entries and does not assume the keys are distinct.
- **Other providers.** The `radius_server` and `snmp_notification_receiver` providers are not part of this model.
