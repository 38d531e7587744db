/**
 * The display enumeration of `getIoregServicesForMatching` over an abstract I/O Registry: a
 * sequence of nodes walked by an iterator, each with a name and an optional `Location`
 * property. Framebuffer nodes start a new service record, numbered from 1; each proxy node
 * fills in the most recent record and appends it to the result, so two proxies after one
 * framebuffer append the same record twice.
 */
module IoregEnumeration {
  import opened Wrappers

  /** One registry entry: its name, whether `IORegistryEntryGetName` succeeds, and its `Location`. */
  datatype RegistryNode = RegistryNode(name: string, nameReadable: bool, location: Option<string>)

  /** `IO_OBJECT_NULL` and `MACH_PORT_NULL`: the handle `IOIteratorNext` returns at the end. */
  const NullEntry: nat := 0
  const KernSuccess: int := 0

  const KeyDcpAvServiceProxy: string := "DCPAVServiceProxy"
  const KeyAppleClcd2: string := "AppleCLCD2"
  const KeyIoMobileFramebufferShim: string := "IOMobileFramebufferShim"

  /** `[keyDCPAVServiceProxy] + keysFramebuffer`: the names the iteration stops at. */
  const Interests: seq<string> := [KeyDcpAvServiceProxy, KeyAppleClcd2, KeyIoMobileFramebufferShim]

  /** `name in keysFramebuffer`: list membership, so an exact match. */
  predicate IsFramebuffer(name: string)
  {
    name == KeyAppleClcd2 || name == KeyIoMobileFramebufferShim
  }

  /** `a` occurs in `b` starting at position `i`. */
  predicate OccursAt(a: string, b: string, i: int)
  {
    0 <= i <= |b| - |a| && b[i..i + |a|] == a
  }

  /** Python's `a in b` on strings: `a` occurs in `b`. */
  predicate IsSubstring(a: string, b: string)
  {
    exists i | 0 <= i <= |b| - |a| :: OccursAt(a, b, i)
  }

  /** Some interest occurs in `name`. */
  predicate MatchesInterest(interests: seq<string>, name: string)
  {
    exists k :: 0 <= k < |interests| && IsSubstring(interests[k], name)
  }

  /** The named tuple returned for a node of interest: its name, its handle and the handle before it. */
  datatype ObjectOfInterest = ObjectOfInterest(name: string, entry: nat, precedingEntry: nat)

  /** The handle of the node at position `pos`: handles are never `NullEntry`. */
  function Handle(pos: nat): nat { pos + 1 }

  /**
   * `ioregIterateToNextObjectOfInterest` from iterator position `pos`, `preceding` being the
   * handle returned before: the first node whose name matches an interest, and the position
   * the iterator is left at. The walk ends without a result at the end of the registry and
   * at the first node whose name cannot be read.
   */
  function ScanFrom(nodes: seq<RegistryNode>, interests: seq<string>, pos: nat, preceding: nat): (r: (Option<ObjectOfInterest>, nat))
    requires pos <= |nodes|
    ensures pos <= r.1 <= |nodes|
    ensures r.0.Some? ==> pos < r.1 && r.0.value.entry == Handle(r.1 - 1) && r.0.value.name == nodes[r.1 - 1].name
    decreases |nodes| - pos
  {
    if pos == |nodes| then (None, pos)
    else if !nodes[pos].nameReadable then (None, pos + 1)
    else if MatchesInterest(interests, nodes[pos].name) then (Some(ObjectOfInterest(nodes[pos].name, Handle(pos), preceding)), pos + 1)
    else ScanFrom(nodes, interests, pos + 1, Handle(pos))
  }

  /** The fields of a service record the enumeration sets. */
  datatype ServiceInfo = ServiceInfo(serviceLocation: Option<int>, location: Option<string>, service: Option<nat>)

  /** A record as `IOregService()` creates it: every field `None`. */
  const Blank: ServiceInfo := ServiceInfo(None, None, None)

  /**
   * `setIORegServiceDCPAVServiceProxy`: a non-empty `Location` is stored, and when it is
   * `"External"` the channel made from the proxy's handle is attached. A record keeps its
   * channel otherwise.
   */
  function WithProxy(info: ServiceInfo, entry: nat, location: Option<string>): (r: ServiceInfo)
    ensures r.serviceLocation == info.serviceLocation
    ensures r.location == (if location.Some? && location.value != "" then location else info.location)
    ensures r.service == (if location == Some("External") then Some(entry) else info.service)
  {
    if location.Some? && location.value != "" then
      info.(location := location, service := if location.value == "External" then Some(entry) else info.service)
    else info
  }

  /**
   * The enumeration state: the location counter, which record is the current one, every record
   * created so far (record 0 being the one made before the loop), and which record each
   * appended list element is.
   */
  datatype EnumState = EnumState(count: nat, current: nat, records: seq<ServiceInfo>, appended: seq<nat>)

  const Start: EnumState := EnumState(0, 0, [Blank], [])

  /** The states the enumeration can reach: records numbered by creation, the current one the latest. */
  predicate Wellformed(st: EnumState)
  {
    && |st.records| == st.count + 1
    && st.current == st.count
    && st.records[0].serviceLocation == None
    && (forall id :: 1 <= id < |st.records| ==> st.records[id].serviceLocation == Some(id))
    && (forall i :: 0 <= i < |st.appended| ==> st.appended[i] < |st.records|)
  }

  /** One pass of the loop of `getIoregServicesForMatching` on a node of interest. */
  function Visit(st: EnumState, obj: ObjectOfInterest, location: Option<string>): EnumState
  {
    if IsFramebuffer(obj.name) then
      EnumState(st.count + 1, |st.records|, st.records + [Blank.(serviceLocation := Some(st.count + 1))], st.appended)
    else if obj.name == KeyDcpAvServiceProxy && st.current < |st.records| then
      EnumState(st.count, st.current, st.records[st.current := WithProxy(st.records[st.current], obj.entry, location)],
                st.appended + [st.current])
    else st
  }

  /** The loop of `getIoregServicesForMatching` from iterator position `pos`. */
  function EnumerateFrom(nodes: seq<RegistryNode>, pos: nat, st: EnumState): EnumState
    requires pos <= |nodes|
    decreases |nodes| - pos
  {
    var (obj, next) := ScanFrom(nodes, Interests, pos, NullEntry);
    if obj.None? then st else EnumerateFrom(nodes, next, Visit(st, obj.value, nodes[next - 1].location))
  }

  /** One turn of the enumeration loop: the next node of interest, if any, is visited. */
  lemma EnumerateStep(nodes: seq<RegistryNode>, pos: nat, st: EnumState, r: Option<ObjectOfInterest>, next: nat)
    requires pos <= |nodes| && r == ScanFrom(nodes, Interests, pos, NullEntry).0 && next == ScanFrom(nodes, Interests, pos, NullEntry).1
    ensures r.None? ==> EnumerateFrom(nodes, pos, st) == st
    ensures r.Some? ==> 1 <= r.value.entry <= |nodes| && pos < next
    ensures r.Some? ==> EnumerateFrom(nodes, pos, st) == EnumerateFrom(nodes, next, Visit(st, r.value, nodes[r.value.entry - 1].location))
  {
  }

  /** The records in the returned list, in order, each as the enumeration left it. */
  function Listed(st: EnumState): seq<ServiceInfo>
    requires forall i :: 0 <= i < |st.appended| ==> st.appended[i] < |st.records|
  {
    seq(|st.appended|, i requires 0 <= i < |st.appended| => st.records[st.appended[i]])
  }

  /**
   * `getIoregServicesForMatching`: nothing when the iterator cannot be created, otherwise the
   * records of the whole walk.
   */
  function Services(nodes: seq<RegistryNode>, iteratorStatus: int): seq<ServiceInfo>
  {
    if iteratorStatus != KernSuccess then [] else
      var st := EnumerateFrom(nodes, 0, Start);
      EnumerateWellformed(nodes, 0, Start);
      Listed(st)
  }

  // ----- A node-by-node reference definition of the walk -----

  /** The walk written node by node: every readable node is visited once if it is of interest. */
  function FoldFrom(nodes: seq<RegistryNode>, pos: nat, st: EnumState): EnumState
    requires pos <= |nodes|
    decreases |nodes| - pos
  {
    if pos == |nodes| || !nodes[pos].nameReadable then st
    else
      var st' := if MatchesInterest(Interests, nodes[pos].name)
        then Visit(st, ObjectOfInterest(nodes[pos].name, Handle(pos), 0), nodes[pos].location)
        else st;
      FoldFrom(nodes, pos + 1, st')
  }

  /** `Visit` does not look at the preceding handle. */
  lemma VisitIgnoresPreceding(st: EnumState, obj: ObjectOfInterest, location: Option<string>, preceding: nat)
    ensures Visit(st, obj.(precedingEntry := preceding), location) == Visit(st, obj, location)
  {
  }

  /** One search for the next node of interest covers exactly the nodes the node-by-node walk skips. */
  lemma {:induction false} ScanFold(nodes: seq<RegistryNode>, pos: nat, preceding: nat, st: EnumState)
    requires pos <= |nodes|
    ensures var (obj, next) := ScanFrom(nodes, Interests, pos, preceding);
      && (obj.None? ==> FoldFrom(nodes, pos, st) == st)
      && (obj.Some? ==> FoldFrom(nodes, pos, st) == FoldFrom(nodes, next, Visit(st, obj.value, nodes[next - 1].location)))
    decreases |nodes| - pos
  {
    if pos < |nodes| && nodes[pos].nameReadable {
      if MatchesInterest(Interests, nodes[pos].name) {
        VisitIgnoresPreceding(st, ObjectOfInterest(nodes[pos].name, Handle(pos), 0), nodes[pos].location, preceding);
      } else {
        ScanFold(nodes, pos + 1, Handle(pos), st);
      }
    }
  }

  /** The enumeration is the node-by-node walk over the registry. */
  lemma {:induction false} EnumerateIsFold(nodes: seq<RegistryNode>, pos: nat, st: EnumState)
    requires pos <= |nodes|
    ensures EnumerateFrom(nodes, pos, st) == FoldFrom(nodes, pos, st)
    decreases |nodes| - pos
  {
    ScanFold(nodes, pos, NullEntry, st);
    var (obj, next) := ScanFrom(nodes, Interests, pos, NullEntry);
    if obj.Some? {
      EnumerateIsFold(nodes, next, Visit(st, obj.value, nodes[next - 1].location));
    }
  }

  // ----- Properties of the walk -----

  /** A framebuffer node starts a record numbered one past the previous count, and makes it current. */
  lemma VisitFramebuffer(st: EnumState, obj: ObjectOfInterest, location: Option<string>)
    requires Wellformed(st) && IsFramebuffer(obj.name)
    ensures var st' := Visit(st, obj, location);
      && Wellformed(st')
      && st'.count == st.count + 1 && st'.records == st.records + [ServiceInfo(Some(st.count + 1), None, None)]
      && st'.current == st.count + 1 && st'.appended == st.appended
  {
  }

  /** A proxy node appends the most recent record, after storing its location and perhaps a channel. */
  lemma VisitProxy(st: EnumState, obj: ObjectOfInterest, location: Option<string>)
    requires Wellformed(st) && obj.name == KeyDcpAvServiceProxy
    ensures var st' := Visit(st, obj, location);
      && Wellformed(st')
      && st'.appended == st.appended + [|st.records| - 1]
      && st'.records == st.records[|st.records| - 1 := WithProxy(st.records[|st.records| - 1], obj.entry, location)]
      && st'.count == st.count
  {
  }

  /** A node that matched an interest but is neither a framebuffer nor a proxy name changes nothing. */
  lemma VisitOther(st: EnumState, obj: ObjectOfInterest, location: Option<string>)
    requires !IsFramebuffer(obj.name) && obj.name != KeyDcpAvServiceProxy
    ensures Visit(st, obj, location) == st
  {
  }

  /** The enumeration keeps the numbering and the current-record invariant. */
  lemma {:induction false} EnumerateWellformed(nodes: seq<RegistryNode>, pos: nat, st: EnumState)
    requires pos <= |nodes| && Wellformed(st)
    ensures Wellformed(EnumerateFrom(nodes, pos, st))
    decreases |nodes| - pos
  {
    var (obj, next) := ScanFrom(nodes, Interests, pos, NullEntry);
    if obj.Some? {
      var location := nodes[next - 1].location;
      if IsFramebuffer(obj.value.name) {
        VisitFramebuffer(st, obj.value, location);
      } else if obj.value.name == KeyDcpAvServiceProxy {
        VisitProxy(st, obj.value, location);
      }
      EnumerateWellformed(nodes, next, Visit(st, obj.value, location));
    }
  }

  /** Every channel of a record was made from a proxy node whose `Location` is `"External"`. */
  predicate ChannelsExternal(nodes: seq<RegistryNode>, st: EnumState)
  {
    forall id :: 0 <= id < |st.records| && st.records[id].service.Some? ==>
      var e := st.records[id].service.value;
      1 <= e <= |nodes| && nodes[e - 1].name == KeyDcpAvServiceProxy && nodes[e - 1].location == Some("External")
  }

  /** The walk attaches channels to records only for proxies located `"External"`. */
  lemma {:induction false} EnumerateChannelsExternal(nodes: seq<RegistryNode>, pos: nat, st: EnumState)
    requires pos <= |nodes| && ChannelsExternal(nodes, st)
    ensures ChannelsExternal(nodes, EnumerateFrom(nodes, pos, st))
    decreases |nodes| - pos
  {
    var (obj, next) := ScanFrom(nodes, Interests, pos, NullEntry);
    if obj.Some? {
      var st' := Visit(st, obj.value, nodes[next - 1].location);
      assert ChannelsExternal(nodes, st') by {
        forall id | 0 <= id < |st'.records| && st'.records[id].service.Some?
          ensures var e := st'.records[id].service.value;
            1 <= e <= |nodes| && nodes[e - 1].name == KeyDcpAvServiceProxy && nodes[e - 1].location == Some("External")
        {
          if id < |st.records| && st'.records[id] != st.records[id] {
            assert obj.value.name == KeyDcpAvServiceProxy && id == st.current;
          }
        }
      }
      EnumerateChannelsExternal(nodes, next, st');
    }
  }

  /** Every record the enumeration lists that has a channel got it from an `"External"` proxy node. */
  lemma ListedChannelsExternal(nodes: seq<RegistryNode>)
    ensures var services := Services(nodes, KernSuccess);
      forall i :: 0 <= i < |services| && services[i].service.Some? ==>
        var e := services[i].service.value;
        1 <= e <= |nodes| && nodes[e - 1].name == KeyDcpAvServiceProxy && nodes[e - 1].location == Some("External")
  {
    EnumerateWellformed(nodes, 0, Start);
    EnumerateChannelsExternal(nodes, 0, Start);
  }

  /**
   * Two proxies after one framebuffer list the same record twice, so the second proxy's
   * location shows in both list elements; here the channel of the first, external proxy stays
   * while the location reads `"Internal"`.
   */
  lemma SharedRecord()
    ensures var nodes := [RegistryNode(KeyAppleClcd2, true, None),
                          RegistryNode(KeyDcpAvServiceProxy, true, Some("External")),
                          RegistryNode(KeyDcpAvServiceProxy, true, Some("Internal"))];
      Services(nodes, KernSuccess) == [ServiceInfo(Some(1), Some("Internal"), Some(2)), ServiceInfo(Some(1), Some("Internal"), Some(2))]
  {
    var nodes := [RegistryNode(KeyAppleClcd2, true, None),
                  RegistryNode(KeyDcpAvServiceProxy, true, Some("External")),
                  RegistryNode(KeyDcpAvServiceProxy, true, Some("Internal"))];
    assert OccursAt(Interests[1], nodes[0].name, 0);
    assert OccursAt(Interests[0], nodes[1].name, 0) && OccursAt(Interests[0], nodes[2].name, 0);
    var s1 := Visit(Start, ObjectOfInterest(KeyAppleClcd2, 1, 0), None);
    var s2 := Visit(s1, ObjectOfInterest(KeyDcpAvServiceProxy, 2, 0), Some("External"));
    var s3 := Visit(s2, ObjectOfInterest(KeyDcpAvServiceProxy, 3, 0), Some("Internal"));
    assert ScanFrom(nodes, Interests, 0, NullEntry) == (Some(ObjectOfInterest(KeyAppleClcd2, 1, 0)), 1);
    assert ScanFrom(nodes, Interests, 1, NullEntry) == (Some(ObjectOfInterest(KeyDcpAvServiceProxy, 2, 0)), 2);
    assert ScanFrom(nodes, Interests, 2, NullEntry) == (Some(ObjectOfInterest(KeyDcpAvServiceProxy, 3, 0)), 3);
    assert EnumerateFrom(nodes, 0, Start) == EnumerateFrom(nodes, 1, s1);
    assert EnumerateFrom(nodes, 1, s1) == EnumerateFrom(nodes, 2, s2);
    assert EnumerateFrom(nodes, 2, s2) == EnumerateFrom(nodes, 3, s3) == s3;
    assert s3.appended == [1, 1] && s3.records[1] == ServiceInfo(Some(1), Some("Internal"), Some(2));
  }

  /** `[d for d in displays if d.service is not None]` on the records' values. */
  function WithChannel(infos: seq<ServiceInfo>): seq<ServiceInfo>
  {
    if infos == [] then []
    else WithChannel(infos[..|infos| - 1]) + (if infos[|infos| - 1].service.Some? then [infos[|infos| - 1]] else [])
  }

  /** The filter keeps exactly the records that have a channel, and no more of them than there are. */
  lemma {:induction false} WithChannelKeeps(infos: seq<ServiceInfo>)
    ensures forall x :: x in WithChannel(infos) <==> x in infos && x.service.Some?
    ensures |WithChannel(infos)| <= |infos|
    decreases |infos|
  {
    if infos != [] {
      WithChannelKeeps(infos[..|infos| - 1]);
      assert infos == infos[..|infos| - 1] + [infos[|infos| - 1]];
    }
  }

  // ----- The heap model -----

  /** The iterator `IORegistryEntryCreateIterator` returns: the registry's nodes and how many it has handed out. */
  class RegistryIterator {
    const nodes: seq<RegistryNode>
    var pos: nat

    constructor(nodes: seq<RegistryNode>)
      ensures this.nodes == nodes && pos == 0
    {
      this.nodes := nodes;
      pos := 0;
    }

    /** `IOIteratorNext`: the handle of the next node, or `NullEntry` once all were handed out. */
    method Next() returns (entry: nat)
      requires pos <= |nodes|
      modifies this
      ensures old(pos) < |nodes| ==> entry == Handle(old(pos)) && pos == old(pos) + 1
      ensures old(pos) == |nodes| ==> entry == NullEntry && pos == old(pos)
    {
      if pos < |nodes| {
        entry := Handle(pos);
        pos := pos + 1;
      } else {
        entry := NullEntry;
      }
    }
  }

  /** `IORegistryEntryGetName`: the status and the name of the node with handle `entry`. */
  function EntryName(nodes: seq<RegistryNode>, entry: nat): (r: (int, string))
    requires 1 <= entry <= |nodes|
    ensures r.0 == KernSuccess <==> nodes[entry - 1].nameReadable
  {
    var node := nodes[entry - 1];
    (if node.nameReadable then KernSuccess else 1, node.name)
  }

  /** `for interest in interests: if interest in name`: whether some interest occurs in `name`. */
  method AnyInterestIn(interests: seq<string>, name: string) returns (found: bool)
    ensures found <==> MatchesInterest(interests, name)
  {
    for k := 0 to |interests|
      invariant forall j :: 0 <= j < k ==> !IsSubstring(interests[j], name)
    {
      if IsSubstring(interests[k], name) {
        return true;
      }
    }
    return false;
  }

  /** `ioregIterateToNextObjectOfInterest`: advances the iterator to the next node of interest. */
  method NextObjectOfInterest(interests: seq<string>, iter: RegistryIterator) returns (r: Option<ObjectOfInterest>)
    requires iter.pos <= |iter.nodes|
    modifies iter
    ensures r == ScanFrom(iter.nodes, interests, old(iter.pos), NullEntry).0
    ensures iter.pos == ScanFrom(iter.nodes, interests, old(iter.pos), NullEntry).1
  {
    var entry := NullEntry;
    ghost var start := iter.pos;
    while true
      invariant start <= iter.pos <= |iter.nodes|
      invariant entry == NullEntry || (iter.pos >= 1 && entry == Handle(iter.pos - 1))
      invariant ScanFrom(iter.nodes, interests, start, NullEntry) == ScanFrom(iter.nodes, interests, iter.pos, entry)
      decreases |iter.nodes| - iter.pos
    {
      var precedingEntry := entry;
      entry := iter.Next();
      if entry == NullEntry {
        return None;
      }
      var (ret, name) := EntryName(iter.nodes, entry);
      if ret != KernSuccess {
        return None;
      }
      var found := AnyInterestIn(interests, name);
      if found {
        return Some(ObjectOfInterest(name, entry, precedingEntry));
      }
    }
  }

  /** An `IOregService` record, with the fields the enumeration sets. */
  class ServiceRecord {
    var serviceLocation: Option<int>
    var location: Option<string>
    var service: Option<nat>

    /** `IOregService()`: every field `None`. */
    constructor()
      ensures Info() == Blank
    {
      serviceLocation, location, service := None, None, None;
    }

    function Info(): ServiceInfo
      reads this
    {
      ServiceInfo(serviceLocation, location, service)
    }

    /** `setIORegServiceDCPAVServiceProxy(entry, self)` for a proxy whose `Location` is `location`. */
    method SetProxy(entry: nat, location: Option<string>)
      modifies this
      ensures Info() == WithProxy(old(Info()), entry, location)
    {
      if location.Some? && location.value != "" {
        this.location := location;
        if location.value == "External" {
          service := Some(entry);
        }
      }
    }
  }

  /** The records `recs` hold the values of the state's records, and the list holds the appended ones. */
  ghost predicate Mirrors(st: EnumState, recs: seq<ServiceRecord>, services: seq<ServiceRecord>, current: ServiceRecord)
    reads recs
  {
    && Wellformed(st)
    && |recs| == |st.records|
    && (forall i, j :: 0 <= i < j < |recs| ==> recs[i] != recs[j])
    && (forall id :: 0 <= id < |recs| ==> recs[id].Info() == st.records[id])
    && |services| == |st.appended|
    && (forall i :: 0 <= i < |services| ==> services[i] == recs[st.appended[i]])
    && current == recs[st.current]
  }

  /**
   * The body of the loop of `getIoregServicesForMatching` for the node of interest `obj`, whose
   * `Location` property is `location`: a framebuffer makes a new current record with the next
   * location number, a proxy fills in the current record and appends it.
   */
  method Absorb(obj: ObjectOfInterest, location: Option<string>, current: ServiceRecord, serviceLocation: nat,
                services: seq<ServiceRecord>, ghost st: EnumState, ghost recs: seq<ServiceRecord>)
    returns (current': ServiceRecord, serviceLocation': nat, services': seq<ServiceRecord>, ghost recs': seq<ServiceRecord>)
    requires Mirrors(st, recs, services, current) && serviceLocation == st.count
    modifies current
    ensures Mirrors(Visit(st, obj, location), recs', services', current') && serviceLocation' == Visit(st, obj, location).count
    ensures forall id :: 0 <= id < |recs'| ==> recs'[id] in recs || fresh(recs'[id])
  {
    current', serviceLocation', services', recs' := current, serviceLocation, services, recs;
    if IsFramebuffer(obj.name) {
      VisitFramebuffer(st, obj, location);
      current' := new ServiceRecord();
      serviceLocation' := serviceLocation + 1;
      current'.serviceLocation := Some(serviceLocation');
      recs' := recs + [current'];
    } else if obj.name == KeyDcpAvServiceProxy {
      VisitProxy(st, obj, location);
      current.SetProxy(obj.entry, location);
      services' := services + [current];
    }
  }

  /**
   * `getIoregServicesForMatching` on an iterator at position `iter.pos`: the list holds
   * the records of the walk, each record object appearing once per proxy that appended it.
   */
  method GetServicesForMatching(iteratorStatus: int, iter: RegistryIterator) returns (services: seq<ServiceRecord>)
    requires iter.pos <= |iter.nodes|
    modifies iter
    ensures iteratorStatus != KernSuccess ==> services == []
    ensures iteratorStatus == KernSuccess ==>
      var st := EnumerateFrom(iter.nodes, old(iter.pos), Start);
      && Wellformed(st)
      && |services| == |st.appended|
      && (forall i :: 0 <= i < |services| ==> services[i].Info() == st.records[st.appended[i]])
      && (forall i, j :: 0 <= i < |services| && 0 <= j < |services| ==> (services[i] == services[j] <==> st.appended[i] == st.appended[j]))
  {
    services := [];
    if iteratorStatus != KernSuccess {
      return;
    }
    var serviceLocation := 0;
    var ioregService := new ServiceRecord();
    ghost var st := Start;
    ghost var recs := [ioregService];
    ghost var start := iter.pos;
    var done := false;
    while !done
      invariant iter.pos <= |iter.nodes|
      invariant Mirrors(st, recs, services, ioregService) && serviceLocation == st.count
      invariant forall id :: 0 <= id < |recs| ==> fresh(recs[id])
      invariant !done ==> EnumerateFrom(iter.nodes, start, Start) == EnumerateFrom(iter.nodes, iter.pos, st)
      invariant done ==> EnumerateFrom(iter.nodes, start, Start) == st
      decreases |iter.nodes| - iter.pos, !done
    {
      done, ioregService, serviceLocation, services, st, recs := Turn(iter, ioregService, serviceLocation, services, st, recs);
    }
    MirrorsListed(st, recs, services, ioregService);
  }

  /**
   * One turn of the loop of `getIoregServicesForMatching`: find the next node of interest and
   * absorb it, or report that the walk is over.
   */
  method Turn(iter: RegistryIterator, current: ServiceRecord, serviceLocation: nat, services: seq<ServiceRecord>,
              ghost st: EnumState, ghost recs: seq<ServiceRecord>)
    returns (done: bool, current': ServiceRecord, serviceLocation': nat, services': seq<ServiceRecord>,
             ghost st': EnumState, ghost recs': seq<ServiceRecord>)
    requires iter.pos <= |iter.nodes|
    requires Mirrors(st, recs, services, current) && serviceLocation == st.count
    modifies iter, current
    ensures old(iter.pos) <= iter.pos <= |iter.nodes|
    ensures Mirrors(st', recs', services', current') && serviceLocation' == st'.count
    ensures forall id :: 0 <= id < |recs'| ==> recs'[id] in recs || fresh(recs'[id])
    ensures done ==> EnumerateFrom(iter.nodes, old(iter.pos), st) == st'
    ensures !done ==> old(iter.pos) < iter.pos && EnumerateFrom(iter.nodes, old(iter.pos), st) == EnumerateFrom(iter.nodes, iter.pos, st')
  {
    ghost var pos := iter.pos;
    var objectOfInterest := NextObjectOfInterest(Interests, iter);
    EnumerateStep(iter.nodes, pos, st, objectOfInterest, iter.pos);
    if objectOfInterest.None? {
      return true, current, serviceLocation, services, st, recs;
    }
    var obj := objectOfInterest.value;
    var location := iter.nodes[obj.entry - 1].location;
    st' := Visit(st, obj, location);
    done := false;
    current', serviceLocation', services', recs' := Absorb(obj, location, current, serviceLocation, services, st, recs);
  }

  /** The list a mirrored state describes: the appended records' values, one object per record. */
  lemma MirrorsListed(st: EnumState, recs: seq<ServiceRecord>, services: seq<ServiceRecord>, current: ServiceRecord)
    requires Mirrors(st, recs, services, current)
    ensures forall i :: 0 <= i < |services| ==> services[i].Info() == st.records[st.appended[i]]
    ensures forall i, j :: 0 <= i < |services| && 0 <= j < |services| ==> (services[i] == services[j] <==> st.appended[i] == st.appended[j])
  {
    forall i, j | 0 <= i < |services| && 0 <= j < |services| && st.appended[i] != st.appended[j]
      ensures services[i] != services[j]
    {
      var a, b := st.appended[i], st.appended[j];
      if a < b {
        assert recs[a] != recs[b];
      } else {
        assert recs[b] != recs[a];
      }
    }
  }

  /** `ddc_displays`: the listed records that have a channel, in order. */
  method DdcDisplays(displays: seq<ServiceRecord>) returns (ddc: seq<ServiceRecord>)
    ensures forall d :: d in ddc <==> d in displays && d.service.Some?
    ensures Infos(ddc) == WithChannel(Infos(displays))
  {
    ddc := [];
    for i := 0 to |displays|
      invariant forall d :: d in ddc <==> d in displays[..i] && d.service.Some?
      invariant Infos(ddc) == WithChannel(Infos(displays[..i]))
    {
      assert displays[..i + 1] == displays[..i] + [displays[i]];
      assert Infos(displays[..i + 1])[..i] == Infos(displays[..i]);
      if displays[i].service.Some? {
        assert Infos(ddc + [displays[i]]) == Infos(ddc) + [displays[i].Info()];
        ddc := ddc + [displays[i]];
      }
    }
    assert displays[..|displays|] == displays;
  }

  /** The values of a list of records. */
  function Infos(records: seq<ServiceRecord>): (r: seq<ServiceInfo>)
    reads records
    ensures |r| == |records| && forall i :: 0 <= i < |records| ==> r[i] == records[i].Info()
  {
    seq(|records|, i requires 0 <= i < |records| reads records => records[i].Info())
  }
}
