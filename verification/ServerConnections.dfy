/** The handle allocator of the broker, `server_connections.cpp`: a map of live client sockets, a FIFO of handles to
    be used again and a counter for new ones. Calls are atomic. */
module ServerConnections {
  import opened Queues

  const HANDLES := 0x1_0000_0000_0000_0000

  type Handle = h: int | 0 <= h < 0x1_0000_0000_0000_0000

  /** `NmqttClientSocket`, its socket and its two handlers named by numbers. */
  datatype ClientSocket = ClientSocket(
    socket: int,
    connectHandler: int,
    pingreqHandler: int,
    username: bool,
    password: bool,
    willRetain: bool,
    qos: int,
    willFlag: bool,
    cleanSession: bool)

  datatype Table = Table(
    sockets: map<Handle, ClientSocket>,
    freeHandles: seq<Handle>,
    lastHandle: Handle,
    core: ClientSocket)

  // ---------------------------------------------------------------- one call

  /** `std::map::insert`: a key already present keeps its value. */
  function Insert(m: map<Handle, ClientSocket>, h: Handle, cs: ClientSocket): map<Handle, ClientSocket> {
    if h in m then m else m[h := cs]
  }

  function NextHandle(t: Table): Handle {
    if t.freeHandles != [] then t.freeHandles[0] else t.lastHandle
  }

  function Added(t: Table, ns: ClientSocket): Table {
    var t' := if t.freeHandles != [] then t.(freeHandles := t.freeHandles[1..])
              else t.(lastHandle := (t.lastHandle + 1) % HANDLES);
    t'.(sockets := Insert(t.sockets, NextHandle(t), t.core.(socket := ns.socket)))
  }

  function Removed(t: Table, h: Handle): Table {
    if h in t.sockets then t.(sockets := t.sockets - {h}, freeHandles := t.freeHandles + [h]) else t
  }

  class NmqttClientConnections {
    var sockets: map<Handle, ClientSocket>
    var lastHandle: Handle
    var freeHandles: seq<Handle>
    var coreCS: ClientSocket

    constructor (core: ClientSocket)
      ensures Value() == Table(map[], [], 0, core)
    {
      sockets, lastHandle, freeHandles, coreCS := map[], 0, [], core;
    }

    function Value(): Table
      reads this
    {
      Table(sockets, freeHandles, lastHandle, coreCS)
    }

    /** `addSocket`. Unless 2^64 sockets are live, the handle is a new one, the socket is found under it, and every
        other handle finds what it found before. */
    method AddSocket(ns: ClientSocket) returns (handle: Handle)
      modifies this
      ensures Value() == Added(old(Value()), ns)
      ensures handle == (if old(freeHandles) != [] then old(freeHandles)[0] else old(lastHandle)) && coreCS == old(coreCS)
      ensures old(freeHandles) != [] ==> freeHandles == old(freeHandles)[1..] && lastHandle == old(lastHandle)
      ensures old(freeHandles) == [] ==>
        freeHandles == [] && lastHandle as int == (old(lastHandle) as int + 1) % 0x1_0000_0000_0000_0000
      ensures handle !in old(sockets) ==> sockets == old(sockets)[handle := coreCS.(socket := ns.socket)]
      ensures handle in old(sockets) ==> sockets == old(sockets)
      ensures Partition(old(Value())) && |old(sockets)| + 1 < HANDLES ==>
        Partition(Value()) && handle !in old(sockets)
    {
      ghost var t := Value();
      if freeHandles != [] {
        handle := freeHandles[0];
        freeHandles := freeHandles[1..];
      } else {
        handle := lastHandle;
        lastHandle := (lastHandle + 1) % HANDLES;
      }
      var ts := coreCS;
      ts := ts.(socket := ns.socket);
      sockets := Insert(sockets, handle, ts);
      if Partition(t) && |t.sockets| + 1 < HANDLES {
        AddKeepsPartition(t, ns);
      }
    }

    /** `getSocket`: the socket, or null. */
    method GetSocket(handle: Handle) returns (found: bool, cs: ClientSocket)
      ensures found <==> handle in sockets
      ensures found ==> cs == sockets[handle]
    {
      if handle in sockets {
        return true, sockets[handle];
      }
      return false, coreCS;
    }

    /** `removeSocket`. */
    method RemoveSocket(handle: Handle)
      modifies this
      ensures Value() == Removed(old(Value()), handle)
      ensures handle !in sockets && lastHandle == old(lastHandle) && coreCS == old(coreCS)
      ensures forall h :: h != handle ==> (h in sockets <==> h in old(sockets))
      ensures forall h :: h in sockets ==> h in old(sockets) && sockets[h] == old(sockets)[h]
      ensures freeHandles == old(freeHandles) + if handle in old(sockets) then [handle] else []
      ensures Partition(old(Value())) ==> Partition(Value())
    {
      ghost var t := Value();
      if handle !in sockets {
        return;
      }
      sockets := sockets - {handle};
      freeHandles := freeHandles + [handle];
      if Partition(t) {
        RemoveKeepsPartition(t, handle);
      }
    }

    /** `setCoreParameters`. */
    method SetCoreParameters(ns: ClientSocket)
      modifies this`coreCS
      ensures coreCS == ns
    {
      coreCS := ns;
    }
  }

  // ---------------------------------------------------------------- the invariant

  /** The handles handed out so far are exactly the live ones and, once each, the ones to be used again. */
  ghost predicate Partition(t: Table) {
    && (forall h :: h in t.sockets ==> h < t.lastHandle && h !in t.freeHandles)
    && (forall h :: h in t.freeHandles ==> h < t.lastHandle)
    && (forall h: Handle :: h < t.lastHandle ==> h in t.sockets || h in t.freeHandles)
    && NoDuplicates(t.freeHandles)
    && |t.sockets| + |t.freeHandles| == t.lastHandle
  }

  lemma AddKeepsPartition(t: Table, ns: ClientSocket)
    requires Partition(t) && |t.sockets| + 1 < HANDLES
    ensures NextHandle(t) !in t.sockets
    ensures Partition(Added(t, ns))
    ensures |Added(t, ns).sockets| == |t.sockets| + 1
    ensures Added(t, ns).lastHandle == if t.freeHandles == [] then |t.sockets| + 1 else t.lastHandle
  {
    if t.freeHandles != [] {
      ReuseKeepsPartition(t, ns);
    } else {
      NewHandleKeepsPartition(t, ns);
    }
  }

  lemma ReuseKeepsPartition(t: Table, ns: ClientSocket)
    requires Partition(t) && t.freeHandles != []
    ensures NextHandle(t) !in t.sockets && Partition(Added(t, ns)) && |Added(t, ns).sockets| == |t.sockets| + 1
    ensures Added(t, ns).lastHandle == t.lastHandle
  {
    var h, t' := NextHandle(t), Added(t, ns);
    assert t.freeHandles == [h] + t'.freeHandles && h in t.freeHandles;
    assert forall g :: g in t'.freeHandles ==> g in t.freeHandles && g != h;
    assert t'.sockets.Keys == t.sockets.Keys + {h};
    forall g: Handle | g < t'.lastHandle ensures g in t'.sockets || g in t'.freeHandles {
      assert g in t.sockets || g in t.freeHandles;
    }
  }

  lemma NewHandleKeepsPartition(t: Table, ns: ClientSocket)
    requires Partition(t) && t.freeHandles == [] && |t.sockets| + 1 < HANDLES
    ensures NextHandle(t) !in t.sockets && Partition(Added(t, ns)) && |Added(t, ns).sockets| == |t.sockets| + 1
    ensures Added(t, ns).lastHandle == |t.sockets| + 1
  {
    var h, t' := NextHandle(t), Added(t, ns);
    assert (t.lastHandle + 1) % HANDLES == t.lastHandle + 1;
    assert t'.sockets.Keys == t.sockets.Keys + {h};
    forall g: Handle | g < t'.lastHandle ensures g in t'.sockets || g in t'.freeHandles {
      assert g < t.lastHandle || g == h;
    }
  }

  lemma RemoveKeepsPartition(t: Table, h: Handle)
    requires Partition(t)
    ensures Partition(Removed(t, h))
    ensures |Removed(t, h).sockets| == |t.sockets| - if h in t.sockets then 1 else 0
  {
  }

  /** With 2^64 sockets live the counter wraps to zero, and the next call is given a handle in use: the partition
      survives an addition exactly below that number. */
  lemma AddKeepsPartitionExactly(t: Table, ns: ClientSocket)
    requires Partition(t)
    ensures Partition(Added(t, ns)) <==> |t.sockets| + 1 < HANDLES
  {
    if |t.sockets| + 1 < HANDLES {
      AddKeepsPartition(t, ns);
    } else {
      assert t.freeHandles == [] && t.lastHandle == HANDLES - 1;
      assert t.lastHandle in Added(t, ns).sockets;
    }
  }

  // ---------------------------------------------------------------- whole runs

  datatype Call = Add(ns: ClientSocket) | Remove(h: Handle) | SetCore(cs: ClientSocket)

  function Called(t: Table, c: Call): Table {
    match c
    case Add(ns) => Added(t, ns)
    case Remove(h) => Removed(t, h)
    case SetCore(cs) => t.(core := cs)
  }

  function After(core: ClientSocket, run: seq<Call>): Table {
    if run == [] then Table(map[], [], 0, core) else Called(After(core, run[..|run| - 1]), run[|run| - 1])
  }

  /** The largest number of sockets live at any time of a run. */
  function Peak(core: ClientSocket, run: seq<Call>): (p: nat)
    ensures p >= |After(core, run).sockets|
  {
    var live := |After(core, run).sockets|;
    if run == [] then live
    else
      var before := Peak(core, run[..|run| - 1]);
      if live > before then live else before
  }

  /** In every run that never has 2^64 sockets live at once, live handles and handles to be used again partition
      [0, lastHandle), and `lastHandle` is the largest number of sockets that were ever live together. */
  lemma {:induction false} PartitionAndHighWaterMark(core: ClientSocket, run: seq<Call>)
    requires Peak(core, run) < HANDLES
    ensures Partition(After(core, run)) && After(core, run).lastHandle == Peak(core, run)
  {
    if run == [] {
    } else {
      var front, c := run[..|run| - 1], run[|run| - 1];
      PartitionAndHighWaterMark(core, front);
      var t := After(core, front);
      match c
      case Add(ns) =>
        AddedLive(t, ns);
        AddKeepsPartition(t, ns);
      case Remove(h) =>
        RemoveKeepsPartition(t, h);
      case SetCore(cs) =>
    }
  }

  lemma AddedLive(t: Table, ns: ClientSocket)
    requires Partition(t)
    ensures |Added(t, ns).sockets| == |t.sockets| + 1
  {
  }

  /** The handles given back, and the handles given out again, in order. */
  function Released(core: ClientSocket, run: seq<Call>): seq<Handle> {
    if run == [] then []
    else
      var front, c := run[..|run| - 1], run[|run| - 1];
      Released(core, front) + if c.Remove? && c.h in After(core, front).sockets then [c.h] else []
  }

  function Reused(core: ClientSocket, run: seq<Call>): seq<Handle> {
    if run == [] then []
    else
      var front, c := run[..|run| - 1], run[|run| - 1];
      var t := After(core, front);
      Reused(core, front) + if c.Add? && t.freeHandles != [] then [NextHandle(t)] else []
  }

  /** Handles are used again in the order in which they were given back. */
  lemma {:induction false} ReuseIsFifo(core: ClientSocket, run: seq<Call>)
    ensures Released(core, run) == Reused(core, run) + After(core, run).freeHandles
  {
    if run == [] {
    } else {
      var front, c := run[..|run| - 1], run[|run| - 1];
      ReuseIsFifo(core, front);
      var t, reused := After(core, front), Reused(core, front);
      var free := t.freeHandles;
      match c
      case Add(ns) =>
        if free != [] {
          assert reused + free == (reused + [free[0]]) + free[1..];
        }
      case Remove(h) =>
        assert (reused + free) + [h] == reused + (free + [h]);
      case SetCore(cs) =>
    }
  }
}
