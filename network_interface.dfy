/**
 * The EOS provider of the `network_interface` resource: discovery of the ethernet
 * interfaces, prefetch of the managed resources, staging of property changes in
 * `@property_flush`, and `flush`, which turns the staged changes into device calls.
 * The device API is an abstract call log.
 */
module NetworkInterface {
  import opened Wrappers

  /** The Ruby values that reach the provider; `Sym("true")` is the symbol `:true`. */
  datatype Value = Nil | Bool(b: bool) | Sym(symbol: string) | Str(s: string) | Int(i: int)

  /** Ruby truthiness: everything but `nil` and `false`. */
  predicate Truthy(v: Value)
  {
    v != Nil && v != Bool(false)
  }

  /** A Ruby hash keyed by symbols, the symbol's name standing for it. */
  type Hash = map<string, Value>

  /** The properties a setter stages in `@property_flush`. */
  datatype Prop = Enable | Description | Speed | Duplex | Mtu

  /** The managed resource: `resource[:name]` and `resource.to_hash`. */
  datatype Resource = Resource(name: string, hash: Hash)

  /** The device calls of a flush. `FlushSpeedAndDuplex` stands for the whole mixin helper. */
  datatype Call =
    | SetInterfaceState(name: string, state: string)
    | FlushSpeedAndDuplex(name: string)
    | SetInterfaceMtu(name: string, mtu: Value)
    | SetInterfaceDescription(name: string, description: Value)
  {
    /** Position of the call's kind in the order `flush` issues them. */
    function Rank(): nat
    {
      match this
      case SetInterfaceState(_, _) => 0
      case FlushSpeedAndDuplex(_) => 1
      case SetInterfaceMtu(_, _) => 2
      case SetInterfaceDescription(_, _) => 3
    }
  }

  /** The error `flush_enable_state` raises: the enable value that is neither `:true` nor `:false`. */
  datatype FlushError = UnknownEnable(value: Value)

  /** The staged value of `p`, `nil` when none was staged (a Ruby hash lookup). */
  function Staged(staged: map<Prop, Value>, p: Prop): Value
  {
    if p in staged then staged[p] else Nil
  }

  /** The calls of one kind, in order. */
  function OfRank(calls: seq<Call>, rank: nat): (r: seq<Call>)
    ensures |r| <= |calls|
  {
    if calls == [] then []
    else (if calls[0].Rank() == rank then [calls[0]] else []) + OfRank(calls[1..], rank)
  }

  lemma {:induction false} OfRankConcat(a: seq<Call>, b: seq<Call>, rank: nat)
    ensures OfRank(a + b, rank) == OfRank(a, rank) + OfRank(b, rank)
  {
    if a == [] {
      assert a + b == b;
    } else {
      var head := if a[0].Rank() == rank then [a[0]] else [];
      assert (a + b)[0] == a[0];
      assert (a + b)[1..] == a[1..] + b;
      OfRankConcat(a[1..], b, rank);
      calc {
        OfRank(a + b, rank);
        head + OfRank(a[1..] + b, rank);
        head + (OfRank(a[1..], rank) + OfRank(b, rank));
        (head + OfRank(a[1..], rank)) + OfRank(b, rank);
        OfRank(a, rank) + OfRank(b, rank);
      }
    }
  }

  /** Calls of at most one kind: selecting a kind keeps all of them or none. */
  lemma OfRankUniform(calls: seq<Call>, kind: nat, rank: nat)
    requires |calls| <= 1 && forall k :: 0 <= k < |calls| ==> calls[k].Rank() == kind
    ensures OfRank(calls, rank) == if rank == kind then calls else []
  {
  }

  /** Two ordered runs stay ordered when every call of the first ranks below every call of the second. */
  lemma InFlushOrderConcat(a: seq<Call>, b: seq<Call>)
    requires InFlushOrder(a) && InFlushOrder(b)
    requires forall i, j :: 0 <= i < |a| && 0 <= j < |b| ==> a[i].Rank() < b[j].Rank()
    ensures InFlushOrder(a + b)
  {
    forall i, j | 0 <= i < j < |a + b| ensures (a + b)[i].Rank() < (a + b)[j].Rank() {
      if j < |a| {
      } else if i < |a| {
        assert (a + b)[j] == b[j - |a|];
      } else {
        assert (a + b)[i] == b[i - |a|] && (a + b)[j] == b[j - |a|];
      }
    }
  }

  /** Calls appear in the order state, speed/duplex, mtu, description, each kind at most once. */
  predicate InFlushOrder(calls: seq<Call>)
  {
    forall i, j :: 0 <= i < j < |calls| ==> calls[i].Rank() < calls[j].Rank()
  }

  // ---------------------------------------------------------------------------
  // The pure part of flush: what each helper sends
  // ---------------------------------------------------------------------------

  /** The `case` of `flush_enable_state`: `:true` is `no shutdown`, `:false` is `shutdown`, anything else fails. */
  function EnableArg(value: Value): (r: Result<string, FlushError>)
    ensures r.Success? <==> value == Sym("true") || value == Sym("false")
    ensures r.Success? ==> (r.value == "no shutdown" <==> value == Sym("true"))
    ensures r.Success? ==> (r.value == "shutdown" <==> value == Sym("false"))
    ensures r.Failure? ==> r.error == UnknownEnable(value)
  {
    match value
    case Sym("true") => Success("no shutdown")
    case Sym("false") => Success("shutdown")
    case _ => Failure(UnknownEnable(value))
  }

  /** What `flush_enable_state` sends: nothing when the staged value is falsy. */
  function EnableCalls(name: string, staged: map<Prop, Value>): Result<seq<Call>, FlushError>
  {
    var value := Staged(staged, Enable);
    if !Truthy(value) then Success([])
    else
      match EnableArg(value)
      case Success(arg) => Success([SetInterfaceState(name, arg)])
      case Failure(e) => Failure(e)
  }

  /** What `flush_mtu` sends: nothing when the staged value is falsy. */
  function MtuCalls(name: string, staged: map<Prop, Value>): seq<Call>
  {
    var mtu := Staged(staged, Mtu);
    if Truthy(mtu) then [SetInterfaceMtu(name, mtu)] else []
  }

  /** What `flush_description` sends: nothing when the staged value is falsy. */
  function DescriptionCalls(name: string, staged: map<Prop, Value>): seq<Call>
  {
    var description := Staged(staged, Description);
    if Truthy(description) then [SetInterfaceDescription(name, description)] else []
  }

  /**
   * The device calls one `flush` of interface `name` makes, or the error it raises:
   * the state call, the speed/duplex helper, the mtu call and the description call,
   * in that order.
   */
  function FlushCalls(name: string, staged: map<Prop, Value>): Result<seq<Call>, FlushError>
  {
    match EnableCalls(name, staged)
    case Failure(e) => Failure(e)
    case Success(state) => Success(state + [FlushSpeedAndDuplex(name)] + MtuCalls(name, staged) + DescriptionCalls(name, staged))
  }

  /** A flush fails exactly when the staged enable is truthy but neither `:true` nor `:false`, and the error names it. */
  lemma FlushFailsOnUnknownEnable(name: string, staged: map<Prop, Value>)
    ensures var enable := Staged(staged, Enable);
      FlushCalls(name, staged).Failure? <==> Truthy(enable) && enable != Sym("true") && enable != Sym("false")
    ensures FlushCalls(name, staged).Failure? ==> FlushCalls(name, staged).error == UnknownEnable(Staged(staged, Enable))
  {
  }

  /** A successful flush issues at most one call of each kind, in the order state, speed/duplex, mtu, description, all for `name`. */
  lemma FlushCallsInOrder(name: string, staged: map<Prop, Value>)
    requires FlushCalls(name, staged).Success?
    ensures InFlushOrder(FlushCalls(name, staged).value)
    ensures forall k :: 0 <= k < |FlushCalls(name, staged).value| ==> FlushCalls(name, staged).value[k].name == name
  {
    var state := EnableCalls(name, staged).value;
    FlushRunsInOrder(state, [FlushSpeedAndDuplex(name)], MtuCalls(name, staged), DescriptionCalls(name, staged));
  }

  /** `:true` is sent as exactly one `no shutdown`, `:false` as exactly one `shutdown`, anything falsy as no state call. */
  lemma FlushStateCall(name: string, staged: map<Prop, Value>)
    requires FlushCalls(name, staged).Success?
    ensures OfRank(FlushCalls(name, staged).value, 0) ==
      if Staged(staged, Enable) == Sym("true") then [SetInterfaceState(name, "no shutdown")]
      else if Staged(staged, Enable) == Sym("false") then [SetInterfaceState(name, "shutdown")]
      else []
  {
    var state := EnableCalls(name, staged).value;
    FlushRunsOfRank(state, [FlushSpeedAndDuplex(name)], MtuCalls(name, staged), DescriptionCalls(name, staged), 0);
  }

  /** The speed/duplex helper runs exactly once per successful flush. */
  lemma FlushSpeedAndDuplexCall(name: string, staged: map<Prop, Value>)
    requires FlushCalls(name, staged).Success?
    ensures OfRank(FlushCalls(name, staged).value, 1) == [FlushSpeedAndDuplex(name)]
  {
    var state := EnableCalls(name, staged).value;
    FlushRunsOfRank(state, [FlushSpeedAndDuplex(name)], MtuCalls(name, staged), DescriptionCalls(name, staged), 1);
  }

  /** A truthy staged mtu is sent exactly once with its value; a falsy or missing one is not sent. */
  lemma FlushMtuCall(name: string, staged: map<Prop, Value>)
    requires FlushCalls(name, staged).Success?
    ensures OfRank(FlushCalls(name, staged).value, 2) ==
      if Truthy(Staged(staged, Mtu)) then [SetInterfaceMtu(name, Staged(staged, Mtu))] else []
  {
    var state := EnableCalls(name, staged).value;
    FlushRunsOfRank(state, [FlushSpeedAndDuplex(name)], MtuCalls(name, staged), DescriptionCalls(name, staged), 2);
  }

  /** A truthy staged description is sent exactly once with its value; a falsy or missing one is not sent. */
  lemma FlushDescriptionCall(name: string, staged: map<Prop, Value>)
    requires FlushCalls(name, staged).Success?
    ensures OfRank(FlushCalls(name, staged).value, 3) ==
      if Truthy(Staged(staged, Description)) then [SetInterfaceDescription(name, Staged(staged, Description))] else []
  {
    var state := EnableCalls(name, staged).value;
    FlushRunsOfRank(state, [FlushSpeedAndDuplex(name)], MtuCalls(name, staged), DescriptionCalls(name, staged), 3);
  }

  /** Four runs of calls, each of at most one call of one kind, concatenated in rank order. */
  predicate FlushRuns(state: seq<Call>, speedDuplex: seq<Call>, mtu: seq<Call>, description: seq<Call>)
  {
    && |state| <= 1 && (forall k :: 0 <= k < |state| ==> state[k].Rank() == 0)
    && |speedDuplex| <= 1 && (forall k :: 0 <= k < |speedDuplex| ==> speedDuplex[k].Rank() == 1)
    && |mtu| <= 1 && (forall k :: 0 <= k < |mtu| ==> mtu[k].Rank() == 2)
    && |description| <= 1 && (forall k :: 0 <= k < |description| ==> description[k].Rank() == 3)
  }

  lemma FlushRunsInOrder(state: seq<Call>, speedDuplex: seq<Call>, mtu: seq<Call>, description: seq<Call>)
    requires FlushRuns(state, speedDuplex, mtu, description)
    ensures InFlushOrder(state + speedDuplex + mtu + description)
  {
    InFlushOrderConcat(state, speedDuplex);
    InFlushOrderConcat(state + speedDuplex, mtu);
    InFlushOrderConcat(state + speedDuplex + mtu, description);
  }

  lemma FlushRunsOfRank(state: seq<Call>, speedDuplex: seq<Call>, mtu: seq<Call>, description: seq<Call>, rank: nat)
    requires FlushRuns(state, speedDuplex, mtu, description)
    ensures rank == 0 ==> OfRank(state + speedDuplex + mtu + description, rank) == state
    ensures rank == 1 ==> OfRank(state + speedDuplex + mtu + description, rank) == speedDuplex
    ensures rank == 2 ==> OfRank(state + speedDuplex + mtu + description, rank) == mtu
    ensures rank == 3 ==> OfRank(state + speedDuplex + mtu + description, rank) == description
  {
    OfRankConcat(state + speedDuplex + mtu, description, rank);
    OfRankConcat(state + speedDuplex, mtu, rank);
    OfRankConcat(state, speedDuplex, rank);
    OfRankUniform(state, 0, rank);
    OfRankUniform(speedDuplex, 1, rank);
    OfRankUniform(mtu, 2, rank);
    OfRankUniform(description, 3, rank);
  }

  // ---------------------------------------------------------------------------
  // Discovery and prefetch
  // ---------------------------------------------------------------------------

  /** The raw attributes the device reports for one interface. */
  type RawAttrs = map<string, Value>

  /** `attr_hash['hardware'] == 'ethernet'`. */
  predicate IsEthernet(attrs: RawAttrs)
  {
    "hardware" in attrs && attrs["hardware"] == Str("ethernet")
  }

  /** `{ name: name }.merge!(interface_attributes(attr_hash))`: the right-hand side wins on shared keys. */
  function InterfaceRecord(name: string, attrs: RawAttrs, interfaceAttributes: RawAttrs -> Hash): Hash
  {
    map["name" := Str(name)] + interfaceAttributes(attrs)
  }

  /** `provider.name`: the `:name` entry of a property hash. */
  function NameOf(h: Hash): Value
  {
    if "name" in h then h["name"] else Nil
  }

  /** The records `instances` yields: one per ethernet entry, in the device's order. */
  function EthernetRecords(interfaces: seq<(string, RawAttrs)>, interfaceAttributes: RawAttrs -> Hash): (r: seq<Hash>)
    ensures |r| <= |interfaces|
    decreases |interfaces|
  {
    if interfaces == [] then []
    else
      var last := interfaces[|interfaces| - 1];
      var init := EthernetRecords(interfaces[..|interfaces| - 1], interfaceAttributes);
      if IsEthernet(last.1) then init + [InterfaceRecord(last.0, last.1, interfaceAttributes)] else init
  }

  /** Every record comes from an ethernet entry and is named by its key unless the attributes rename it. */
  lemma {:induction false} EthernetRecordsAreEthernet(interfaces: seq<(string, RawAttrs)>, interfaceAttributes: RawAttrs -> Hash, k: nat)
    requires k < |EthernetRecords(interfaces, interfaceAttributes)|
    ensures exists j :: (0 <= j < |interfaces| && IsEthernet(interfaces[j].1)
                         && EthernetRecords(interfaces, interfaceAttributes)[k] == InterfaceRecord(interfaces[j].0, interfaces[j].1, interfaceAttributes))
    decreases |interfaces|
  {
    var init := interfaces[..|interfaces| - 1];
    if k < |EthernetRecords(init, interfaceAttributes)| {
      EthernetRecordsAreEthernet(init, interfaceAttributes, k);
      var j :| 0 <= j < |init| && IsEthernet(init[j].1)
        && EthernetRecords(init, interfaceAttributes)[k] == InterfaceRecord(init[j].0, init[j].1, interfaceAttributes);
      assert interfaces[j] == init[j];
    } else {
      assert IsEthernet(interfaces[|interfaces| - 1].1);
    }
  }

  /** Every ethernet entry has its record; non-ethernet entries are the only ones dropped. */
  lemma {:induction false} EthernetEntriesHaveRecords(interfaces: seq<(string, RawAttrs)>, interfaceAttributes: RawAttrs -> Hash, j: nat)
    requires j < |interfaces| && IsEthernet(interfaces[j].1)
    ensures InterfaceRecord(interfaces[j].0, interfaces[j].1, interfaceAttributes) in EthernetRecords(interfaces, interfaceAttributes)
    decreases |interfaces|
  {
    var init := interfaces[..|interfaces| - 1];
    if j < |init| {
      assert init[j] == interfaces[j];
      EthernetEntriesHaveRecords(init, interfaceAttributes, j);
    }
  }

  /** The positions of the ethernet entries in the device's list, ascending. */
  ghost function EthernetPositions(interfaces: seq<(string, RawAttrs)>): seq<nat>
    decreases |interfaces|
  {
    if interfaces == [] then []
    else
      var init := EthernetPositions(interfaces[..|interfaces| - 1]);
      if IsEthernet(interfaces[|interfaces| - 1].1) then init + [|interfaces| - 1] else init
  }

  /** The positions are strictly increasing and are exactly those of the ethernet entries. */
  lemma {:induction false} EthernetPositionsExact(interfaces: seq<(string, RawAttrs)>)
    ensures forall k :: 0 <= k < |EthernetPositions(interfaces)| ==> EthernetPositions(interfaces)[k] < |interfaces|
    ensures forall k, l :: 0 <= k < l < |EthernetPositions(interfaces)| ==> EthernetPositions(interfaces)[k] < EthernetPositions(interfaces)[l]
    ensures forall j :: 0 <= j < |interfaces| ==> (IsEthernet(interfaces[j].1) <==> j in EthernetPositions(interfaces))
    decreases |interfaces|
  {
    if interfaces != [] {
      var init := interfaces[..|interfaces| - 1];
      EthernetPositionsExact(init);
      forall j | 0 <= j < |init|
        ensures interfaces[j] == init[j]
      {
      }
    }
  }

  /** `instances` selects in order: the k-th record is built from the k-th ethernet entry, so
      records follow the device's order and none is dropped, duplicated or reordered. */
  lemma {:induction false} EthernetRecordsInOrder(interfaces: seq<(string, RawAttrs)>, interfaceAttributes: RawAttrs -> Hash)
    ensures |EthernetPositions(interfaces)| == |EthernetRecords(interfaces, interfaceAttributes)|
    ensures forall k :: (0 <= k < |EthernetPositions(interfaces)| ==>
                         (EthernetPositions(interfaces)[k] < |interfaces|
                          && EthernetRecords(interfaces, interfaceAttributes)[k]
                             == InterfaceRecord(interfaces[EthernetPositions(interfaces)[k]].0,
                                                interfaces[EthernetPositions(interfaces)[k]].1, interfaceAttributes)))
    decreases |interfaces|
  {
    if interfaces != [] {
      var init := interfaces[..|interfaces| - 1];
      EthernetRecordsInOrder(init, interfaceAttributes);
      EthernetPositionsExact(init);
      forall j | 0 <= j < |init|
        ensures interfaces[j] == init[j]
      {
      }
    }
  }

  /** A device with no ethernet entry yields no instance. */
  lemma {:induction false} NoEthernetNoRecords(interfaces: seq<(string, RawAttrs)>, interfaceAttributes: RawAttrs -> Hash)
    requires forall j :: 0 <= j < |interfaces| ==> !IsEthernet(interfaces[j].1)
    ensures EthernetRecords(interfaces, interfaceAttributes) == []
    decreases |interfaces|
  {
    if interfaces != [] {
      NoEthernetNoRecords(interfaces[..|interfaces| - 1], interfaceAttributes);
    }
  }

  /** A record is named by the device key when the attributes carry no `:name`. */
  lemma InterfaceRecordName(name: string, attrs: RawAttrs, interfaceAttributes: RawAttrs -> Hash)
    requires "name" !in interfaceAttributes(attrs)
    ensures NameOf(InterfaceRecord(name, attrs, interfaceAttributes)) == Str(name)
  {
  }

  /** The `:name` of every record, in order. */
  function Names(records: seq<Hash>): (r: seq<Value>)
    ensures |r| == |records|
  {
    seq(|records|, j requires 0 <= j < |records| => NameOf(records[j]))
  }

  /** Some entry is named `key`. */
  predicate NamedIn(names: seq<Value>, key: Value)
  {
    exists j :: 0 <= j < |names| && names[j] == key
  }

  /** `j` is the last entry named `key`: the one a name-keyed hash built in order keeps. */
  predicate IsLastNamed(names: seq<Value>, key: Value, j: int)
  {
    0 <= j < |names| && names[j] == key
    && forall j' :: j < j' < |names| ==> names[j'] != key
  }

  class InterfaceProvider {
    var propertyHash: Hash
    var propertyFlush: map<Prop, Value>
    var resource: Option<Resource>
    /** The calls made to the device, oldest first. */
    ghost var log: seq<Call>

    /** `new(hash)`, as `instances` does: `initialize` with a hash, an empty `@property_flush`. */
    constructor FromHash(h: Hash)
      ensures propertyHash == h && propertyFlush == map[] && resource == None && log == []
    {
      propertyHash := h;
      propertyFlush := map[];
      resource := None;
      log := [];
    }

    /** `new(resource)`: `initialize` with a resource, an empty property hash and an empty `@property_flush`. */
    constructor ForResource(r: Resource)
      ensures propertyHash == map[] && propertyFlush == map[] && resource == Some(r) && log == []
    {
      propertyHash := map[];
      propertyFlush := map[];
      resource := Some(r);
      log := [];
    }

    function Name(): Value
      reads this
    {
      NameOf(propertyHash)
    }

    /** `self.instances`: one provider per ethernet entry, in the device's order. */
    static method Instances(interfaces: seq<(string, RawAttrs)>, interfaceAttributes: RawAttrs -> Hash)
      returns (ary: seq<InterfaceProvider>)
      ensures |ary| == |EthernetRecords(interfaces, interfaceAttributes)|
      ensures forall k :: 0 <= k < |ary| ==>
        fresh(ary[k]) && ary[k].propertyHash == EthernetRecords(interfaces, interfaceAttributes)[k]
        && ary[k].propertyFlush == map[] && ary[k].resource.None?
    {
      ary := [];
      var i := 0;
      while i < |interfaces|
        invariant 0 <= i <= |interfaces|
        invariant |ary| == |EthernetRecords(interfaces[..i], interfaceAttributes)|
        invariant forall k :: 0 <= k < |ary| ==>
          fresh(ary[k]) && ary[k].propertyHash == EthernetRecords(interfaces[..i], interfaceAttributes)[k]
          && ary[k].propertyFlush == map[] && ary[k].resource.None?
      {
        assert interfaces[..i + 1][..i] == interfaces[..i];
        var (name, attrs) := interfaces[i];
        if IsEthernet(attrs) {
          var p := new InterfaceProvider.FromHash(InterfaceRecord(name, attrs, interfaceAttributes));
          ary := ary + [p];
        }
        i := i + 1;
      }
      assert interfaces[..i] == interfaces;
    }

    /**
     * The hash `prefetch` builds from the instances with `each_with_object`: each name
     * maps to the last instance of that name. `names` are the instances' names.
     */
    static method IndexByName(ary: seq<InterfaceProvider>, ghost names: seq<Value>) returns (table: map<Value, InterfaceProvider>)
      requires |names| == |ary| && forall j :: 0 <= j < |ary| ==> ary[j].Name() == names[j]
      ensures forall j :: 0 <= j < |names| ==> names[j] in table
      ensures forall key :: key in table ==> exists j :: IsLastNamed(names, key, j) && table[key] == ary[j]
    {
      table := map[];
      var i := 0;
      while i < |ary|
        invariant 0 <= i <= |ary|
        invariant forall j :: 0 <= j < i ==> names[j] in table
        invariant forall key :: key in table ==> exists j :: IsLastNamed(names[..i], key, j) && table[key] == ary[j]
      {
        table := table[ary[i].Name() := ary[i]];
        i := i + 1;
        forall key | key in table ensures exists j :: IsLastNamed(names[..i], key, j) && table[key] == ary[j] {
          if key == names[i - 1] {
            assert IsLastNamed(names[..i], key, i - 1);
          } else {
            var j :| IsLastNamed(names[..i - 1], key, j) && table[key] == ary[j];
            assert IsLastNamed(names[..i], key, j);
          }
        }
      }
      assert names[..i] == names;
    }

    /** The `each_pair` loop of `prefetch`: a resource is rebound only when the table has its name. */
    static method Rebind(table: map<Value, InterfaceProvider>, resources: map<string, InterfaceProvider>)
      returns (bound: map<string, InterfaceProvider>)
      ensures bound.Keys == resources.Keys
      ensures forall n :: n in resources ==> bound[n] == if Str(n) in table then table[Str(n)] else resources[n]
    {
      bound := resources;
      var pending := resources.Keys;
      while pending != {}
        invariant pending <= resources.Keys
        invariant bound.Keys == resources.Keys
        invariant forall n :: n in resources ==>
          bound[n] == if n !in pending && Str(n) in table then table[Str(n)] else resources[n]
        decreases pending
      {
        var n :| n in pending;
        if Str(n) in table {
          bound := bound[n := table[Str(n)]];
        }
        pending := pending - {n};
      }
    }

    /**
     * `self.prefetch(resources)`: `resources` maps each resource name to its current
     * provider. A resource is rebound only when an instance has exactly its name, and
     * then to the last such instance; every other resource keeps its provider.
     */
    static method Prefetch(interfaces: seq<(string, RawAttrs)>, interfaceAttributes: RawAttrs -> Hash,
                           resources: map<string, InterfaceProvider>)
      returns (bound: map<string, InterfaceProvider>)
      ensures bound.Keys == resources.Keys
      ensures forall n :: (n in resources && !NamedIn(Names(EthernetRecords(interfaces, interfaceAttributes)), Str(n))
                           ==> bound[n] == resources[n])
      ensures forall n :: (n in resources && NamedIn(Names(EthernetRecords(interfaces, interfaceAttributes)), Str(n))
                           ==> exists j :: (IsLastNamed(Names(EthernetRecords(interfaces, interfaceAttributes)), Str(n), j)
                                            && fresh(bound[n])
                                            && bound[n].propertyHash == EthernetRecords(interfaces, interfaceAttributes)[j]
                                            && bound[n].propertyFlush == map[] && bound[n].resource.None?))
    {
      var ary := Instances(interfaces, interfaceAttributes);
      ghost var records := EthernetRecords(interfaces, interfaceAttributes);
      ghost var names := Names(records);
      var table := IndexByName(ary, names);
      bound := Rebind(table, resources);
      forall n | n in resources && NamedIn(names, Str(n))
        ensures exists j :: (IsLastNamed(names, Str(n), j) && fresh(bound[n]) && bound[n].propertyHash == records[j]
                             && bound[n].propertyFlush == map[] && bound[n].resource.None?)
      {
        var j0 :| 0 <= j0 < |names| && names[j0] == Str(n);
        var j :| IsLastNamed(names, Str(n), j) && table[Str(n)] == ary[j];
      }
    }

    // -------------------------------------------------------------------------
    // Staging: each setter writes its own key of @property_flush and nothing else
    // -------------------------------------------------------------------------

    /** `enable=`. */
    method SetEnable(value: Value)
      modifies this`propertyFlush
      ensures propertyFlush == old(propertyFlush)[Enable := value]
    {
      propertyFlush := propertyFlush[Enable := value];
    }

    /** `description=`. */
    method SetDescription(value: Value)
      modifies this`propertyFlush
      ensures propertyFlush == old(propertyFlush)[Description := value]
    {
      propertyFlush := propertyFlush[Description := value];
    }

    /** `speed=`. */
    method SetSpeed(value: Value)
      modifies this`propertyFlush
      ensures propertyFlush == old(propertyFlush)[Speed := value]
    {
      propertyFlush := propertyFlush[Speed := value];
    }

    /** `duplex=`. */
    method SetDuplex(value: Value)
      modifies this`propertyFlush
      ensures propertyFlush == old(propertyFlush)[Duplex := value]
    {
      propertyFlush := propertyFlush[Duplex := value];
    }

    /** `mtu=`. */
    method SetMtu(value: Value)
      modifies this`propertyFlush
      ensures propertyFlush == old(propertyFlush)[Mtu := value]
    {
      propertyFlush := propertyFlush[Mtu := value];
    }

    // -------------------------------------------------------------------------
    // Flush
    // -------------------------------------------------------------------------

    /** `flush_enable_state`: one state call for a truthy staged enable, or the error for an unknown one. */
    method FlushEnableState() returns (r: Outcome<FlushError>)
      requires resource.Some?
      modifies this`log
      ensures match EnableCalls(resource.value.name, propertyFlush)
        case Success(calls) => r == Pass && log == old(log) + calls
        case Failure(e) => r == Fail(e) && log == old(log)
    {
      var value := Staged(propertyFlush, Enable);
      if !Truthy(value) {
        return Pass;
      }
      var arg := EnableArg(value);
      if arg.Failure? {
        return Fail(arg.error);
      }
      log := log + [SetInterfaceState(resource.value.name, arg.value)];
      r := Pass;
    }

    /** `flush_speed_and_duplex(name)`, defined in the API mixin: one opaque call. */
    method FlushSpeedAndDuplexHelper(name: string)
      modifies this`log
      ensures log == old(log) + [FlushSpeedAndDuplex(name)]
    {
      log := log + [FlushSpeedAndDuplex(name)];
    }

    /** `flush_mtu`: one mtu call for a truthy staged mtu, none otherwise. */
    method FlushMtu()
      requires resource.Some?
      modifies this`log
      ensures log == old(log) + MtuCalls(resource.value.name, propertyFlush)
    {
      var mtu := Staged(propertyFlush, Mtu);
      if !Truthy(mtu) {
        return;
      }
      log := log + [SetInterfaceMtu(resource.value.name, mtu)];
    }

    /** `flush_description`: one description call for a truthy staged description, none otherwise. */
    method FlushDescription()
      requires resource.Some?
      modifies this`log
      ensures log == old(log) + DescriptionCalls(resource.value.name, propertyFlush)
    {
      var description := Staged(propertyFlush, Description);
      if !Truthy(description) {
        return;
      }
      log := log + [SetInterfaceDescription(resource.value.name, description)];
    }

    /**
     * `flush`: issues the calls of `FlushCalls` and then replaces the property hash with
     * the resource's hash; when the enable value is unknown it raises before any call and
     * the property hash is left alone. `@property_flush` itself is not cleared.
     */
    method Flush() returns (r: Outcome<FlushError>)
      requires resource.Some?
      modifies this`log, this`propertyHash
      ensures propertyFlush == old(propertyFlush)
      ensures match FlushCalls(resource.value.name, propertyFlush)
        case Success(calls) => r == Pass && log == old(log) + calls && propertyHash == resource.value.hash
        case Failure(e) => r == Fail(e) && log == old(log) && propertyHash == old(propertyHash)
    {
      r := FlushEnableState();
      if r.Fail? {
        return;
      }
      FlushSpeedAndDuplexHelper(resource.value.name);
      FlushMtu();
      FlushDescription();
      propertyHash := resource.value.hash;
    }
  }
}
