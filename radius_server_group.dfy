/**
 * The EOS provider of the `radius_server_group` resource: discovery of the radius
 * groups configured on the device, and the `create`, `destroy`, `servers=` and
 * `exists?` lifecycle operations. The device API is an abstract call log.
 */
module RadiusServerGroup {
  import opened Wrappers
  import opened RadiusTokens

  /** The `ensure` property of a group. */
  datatype Ensure = Present | Absent

  /** `@property_hash` of a group provider: the keys `:name`, `:ensure` and `:servers`, each possibly unset. */
  datatype GroupHash = GroupHash(name: Option<string>, ensure: Option<Ensure>, servers: Option<seq<string>>)

  /** The managed resource: its `name` and, when the manifest gives one, its `servers` list. */
  datatype GroupResource = GroupResource(name: string, servers: Option<seq<string>>)

  /** One group of `node.api('aaa').get[:groups]`: its `type` and its servers' options. */
  datatype GroupAttrs = GroupAttrs(groupType: string, servers: seq<ServerOpts>)

  /** The device calls the provider makes through `node.api('aaa').groups`. */
  datatype AaaCall =
    | CreateGroup(group: string, groupType: string)
    | DeleteGroup(group: string)
    | SetServers(group: string, servers: seq<ServerOpts>)

  /** Errors the provider raises. */
  datatype GroupError = UnableToCreate(name: string)

  const RadiusType: string := "radius"

  /** The hash discovery builds for one radius group: present, its servers named by `ServerName`. */
  function GroupRecord(name: string, attrs: GroupAttrs): GroupHash
  {
    GroupHash(Some(name), Some(Present), Some(seq(|attrs.servers|, k requires 0 <= k < |attrs.servers| => ServerName(attrs.servers[k]))))
  }

  /** The records `instances` yields for the device's groups, in the device's order. */
  function RadiusRecords(groups: seq<(string, GroupAttrs)>): (r: seq<GroupHash>)
    ensures |r| <= |groups|
    ensures forall k :: 0 <= k < |r| ==> r[k].ensure == Some(Present) && r[k].servers.Some?
    decreases |groups|
  {
    if groups == [] then []
    else
      var last := groups[|groups| - 1];
      var init := RadiusRecords(groups[..|groups| - 1]);
      if last.1.groupType == RadiusType then init + [GroupRecord(last.0, last.1)] else init
  }

  /** Every record comes from a radius group of the device. */
  lemma {:induction false} RadiusRecordsAreRadiusGroups(groups: seq<(string, GroupAttrs)>, k: nat)
    requires k < |RadiusRecords(groups)|
    ensures exists j :: (0 <= j < |groups| && groups[j].1.groupType == RadiusType
                         && RadiusRecords(groups)[k] == GroupRecord(groups[j].0, groups[j].1))
    decreases |groups|
  {
    var init := groups[..|groups| - 1];
    if k < |RadiusRecords(init)| {
      RadiusRecordsAreRadiusGroups(init, k);
      var j :| 0 <= j < |init| && init[j].1.groupType == RadiusType && RadiusRecords(init)[k] == GroupRecord(init[j].0, init[j].1);
      assert groups[j] == init[j];
    } else {
      assert groups[|groups| - 1].1.groupType == RadiusType;
    }
  }

  /** Every radius group of the device has its record. */
  lemma {:induction false} RadiusGroupsHaveRecords(groups: seq<(string, GroupAttrs)>, j: nat)
    requires j < |groups| && groups[j].1.groupType == RadiusType
    ensures GroupRecord(groups[j].0, groups[j].1) in RadiusRecords(groups)
    decreases |groups|
  {
    var init := groups[..|groups| - 1];
    if j < |init| {
      assert init[j] == groups[j];
      RadiusGroupsHaveRecords(init, j);
    }
  }

  /** Each kept group lists one token per device server, in the device's order. */
  lemma GroupRecordServers(name: string, attrs: GroupAttrs)
    ensures GroupRecord(name, attrs).servers.Some?
    ensures |GroupRecord(name, attrs).servers.value| == |attrs.servers|
    ensures forall k :: 0 <= k < |attrs.servers| ==> GroupRecord(name, attrs).servers.value[k] == ServerName(attrs.servers[k])
  {
  }

  /** The positions of the radius groups in the device's list, ascending. */
  ghost function RadiusPositions(groups: seq<(string, GroupAttrs)>): seq<nat>
    decreases |groups|
  {
    if groups == [] then []
    else
      var init := RadiusPositions(groups[..|groups| - 1]);
      if groups[|groups| - 1].1.groupType == RadiusType then init + [|groups| - 1] else init
  }

  /** The positions are strictly increasing and are exactly those of the radius groups. */
  lemma {:induction false} RadiusPositionsExact(groups: seq<(string, GroupAttrs)>)
    ensures forall k :: 0 <= k < |RadiusPositions(groups)| ==> RadiusPositions(groups)[k] < |groups|
    ensures forall k, l :: 0 <= k < l < |RadiusPositions(groups)| ==> RadiusPositions(groups)[k] < RadiusPositions(groups)[l]
    ensures forall j :: 0 <= j < |groups| ==> (groups[j].1.groupType == RadiusType <==> j in RadiusPositions(groups))
    decreases |groups|
  {
    if groups != [] {
      var init := groups[..|groups| - 1];
      RadiusPositionsExact(init);
      forall j | 0 <= j < |init|
        ensures groups[j] == init[j]
      {
      }
    }
  }

  /** `instances` selects in order: the k-th record is built from the k-th radius group, so
      records follow the device's order and none is dropped, duplicated or reordered. */
  lemma {:induction false} RadiusRecordsInOrder(groups: seq<(string, GroupAttrs)>)
    ensures |RadiusPositions(groups)| == |RadiusRecords(groups)|
    ensures forall k :: (0 <= k < |RadiusPositions(groups)| ==>
                         (RadiusPositions(groups)[k] < |groups|
                          && RadiusRecords(groups)[k]
                             == GroupRecord(groups[RadiusPositions(groups)[k]].0, groups[RadiusPositions(groups)[k]].1)))
    decreases |groups|
  {
    if groups != [] {
      var init := groups[..|groups| - 1];
      RadiusRecordsInOrder(init);
      RadiusPositionsExact(init);
      forall j | 0 <= j < |init|
        ensures groups[j] == init[j]
      {
      }
    }
  }

  /** Groups of any other type (tacacs+, ...) yield nothing. */
  lemma {:induction false} NoRadiusNoRecords(groups: seq<(string, GroupAttrs)>)
    requires forall j :: 0 <= j < |groups| ==> groups[j].1.groupType != RadiusType
    ensures RadiusRecords(groups) == []
    decreases |groups|
  {
    if groups != [] {
      NoRadiusNoRecords(groups[..|groups| - 1]);
    }
  }

  /** When every group is a radius group, one record per group, in the device's order. */
  lemma {:induction false} AllRadiusRecords(groups: seq<(string, GroupAttrs)>)
    requires forall j :: 0 <= j < |groups| ==> groups[j].1.groupType == RadiusType
    ensures |RadiusRecords(groups)| == |groups|
    ensures forall j :: 0 <= j < |groups| ==> RadiusRecords(groups)[j] == GroupRecord(groups[j].0, groups[j].1)
    decreases |groups|
  {
    if groups != [] {
      AllRadiusRecords(groups[..|groups| - 1]);
    }
  }

  /** The servers list `servers=` sends to the device: every token parsed, in order. */
  function ParsedServers(tokens: seq<string>): (r: seq<ServerOpts>)
    ensures |r| == |tokens|
    ensures forall k :: 0 <= k < |r| ==> r[k].authPort.Some? && r[k].acctPort.Some?
  {
    seq(|tokens|, k requires 0 <= k < |tokens| => ParseServerName(tokens[k]))
  }

  /** Sending the tokens of well-formed servers sends their full options back. */
  lemma ParsedServersOfServerNames(servers: seq<ServerOpts>)
    requires forall k :: 0 <= k < |servers| ==>
      servers[k].name.Some? && servers[k].authPort.Some? && servers[k].acctPort.Some? &&
      Separator !in servers[k].name.value && Separator !in servers[k].authPort.value &&
      Separator !in servers[k].acctPort.value && servers[k].acctPort.value != ""
    ensures ParsedServers(seq(|servers|, k requires 0 <= k < |servers| => ServerName(servers[k]))) == servers
  {
    var tokens := seq(|servers|, k requires 0 <= k < |servers| => ServerName(servers[k]));
    forall k | 0 <= k < |servers| ensures ParsedServers(tokens)[k] == servers[k] {
      ParseServerNameOfFullServerName(servers[k]);
    }
  }

  class RadiusServerGroupProvider {
    var propertyHash: GroupHash
    var resource: Option<GroupResource>
    /** The calls made to the device, oldest first. */
    ghost var log: seq<AaaCall>

    /** `new(hash)`, as `instances` does: a provider for a discovered group, with no resource. */
    constructor FromHash(h: GroupHash)
      ensures propertyHash == h && resource == None && log == []
    {
      propertyHash := h;
      resource := None;
      log := [];
    }

    /** `new(resource)`: a provider for a managed resource, with an empty property hash. */
    constructor ForResource(r: GroupResource)
      ensures propertyHash == GroupHash(None, None, None) && resource == Some(r) && log == []
    {
      propertyHash := GroupHash(None, None, None);
      resource := Some(r);
      log := [];
    }

    /** `exists?`: the group is present. */
    predicate Exists()
      reads this
    {
      propertyHash.ensure == Some(Present)
    }

    /** `self.instances`: one provider per radius group of the device, in the device's order. */
    static method Instances(groups: seq<(string, GroupAttrs)>) returns (ary: seq<RadiusServerGroupProvider>)
      ensures |ary| == |RadiusRecords(groups)|
      ensures forall k :: 0 <= k < |ary| ==> fresh(ary[k]) && ary[k].propertyHash == RadiusRecords(groups)[k] && ary[k].resource.None?
    {
      ary := [];
      var i := 0;
      while i < |groups|
        invariant 0 <= i <= |groups|
        invariant |ary| == |RadiusRecords(groups[..i])|
        invariant forall k :: 0 <= k < |ary| ==> fresh(ary[k]) && ary[k].propertyHash == RadiusRecords(groups[..i])[k] && ary[k].resource.None?
      {
        assert groups[..i + 1][..i] == groups[..i];
        var (name, attrs) := groups[i];
        if attrs.groupType == RadiusType {
          var p := new RadiusServerGroupProvider.FromHash(GroupRecord(name, attrs));
          ary := ary + [p];
        }
        i := i + 1;
      }
      assert groups[..i] == groups;
    }

    /** `servers=`: sends the parsed tokens to the device, then records the tokens unchanged. */
    method SetServersProperty(value: seq<string>)
      requires resource.Some?
      modifies this`log, this`propertyHash
      ensures log == old(log) + [SetServers(resource.value.name, ParsedServers(value))]
      ensures propertyHash == old(propertyHash).(servers := Some(value))
    {
      var servers := ParsedServers(value);
      log := log + [SetServers(resource.value.name, servers)];
      propertyHash := propertyHash.(servers := Some(value));
    }

    /**
     * `create`: asks the device to create a radius group; `created` is what the device
     * answers. A falsy answer raises and leaves the property hash alone; otherwise the
     * group is present, with the resource's servers when it names any.
     */
    method Create(created: bool) returns (r: Outcome<GroupError>)
      requires resource.Some?
      modifies this`log, this`propertyHash
      ensures !created ==> (r == Fail(UnableToCreate(old(propertyHash).name.GetOr(resource.value.name)))
        && propertyHash == old(propertyHash)
        && log == old(log) + [CreateGroup(resource.value.name, RadiusType)])
      ensures created ==> (r == Pass
        && propertyHash == GroupHash(Some(resource.value.name), Some(Present), resource.value.servers)
        && Exists()
        && log == old(log) + [CreateGroup(resource.value.name, RadiusType)]
           + (if resource.value.servers.Some? then [SetServers(resource.value.name, ParsedServers(resource.value.servers.value))] else []))
    {
      var name := resource.value.name;
      log := log + [CreateGroup(name, RadiusType)];
      if !created {
        return Fail(UnableToCreate(propertyHash.name.GetOr(name)));
      }
      propertyHash := GroupHash(Some(name), Some(Present), None);
      if resource.value.servers.Some? {
        SetServersProperty(resource.value.servers.value);
      }
      r := Pass;
    }

    /** `destroy`: deletes the group and replaces the property hash by exactly the name and `absent`. */
    method Destroy()
      requires resource.Some?
      modifies this`log, this`propertyHash
      ensures propertyHash == GroupHash(Some(resource.value.name), Some(Absent), None)
      ensures !Exists()
      ensures log == old(log) + [DeleteGroup(resource.value.name)]
    {
      log := log + [DeleteGroup(resource.value.name)];
      propertyHash := GroupHash(Some(resource.value.name), Some(Absent), None);
    }
  }
}
