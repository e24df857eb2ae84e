/**
 * Node sets of the Elasticsearch resource: adding one (internal/k8s/client.go,
 * internal/http/utils.go), deleting one, and the reconciler's step that creates a restore node or
 * grows its storage (internal/controller/controller/restoretask_controller.go).
 */
module NodeSets {
  import opened Wrappers
  import opened SizeText
  import opened Quantities
  import opened Names
  import opened Folds

  /** A node set: its name, its pod count and the storage request, in bytes, of each claim template. */
  datatype NodeSet = NodeSet(name: string, count: nat, claims: seq<nat>)

  const NODE_NAME := (node: NodeSet) => node.name

  /** Ways the node step ends without a node; a panic is turned into an error by the controller. */
  datatype NodeFault = QuantityPanic | ClaimPanic | SizeUnreadable(error: SizeError) | ReadFailed | PatchFailed

  /** Whether the resize branch formats the size as intended, or panics as written. */
  datatype ResizeCode = AsWritten | Repaired

  // ---------------------------------------------------------------- specification

  function NewESNodeSet(name: string, size: string, count: nat): Result<NodeSet, NodeFault> {
    match QuantityBytes(size)
    case None => Err(QuantityPanic)
    case Some(bytes) => Ok(NodeSet(name, count, [bytes]))
  }

  predicate HasNode(sets: seq<NodeSet>, name: string) {
    exists i | 0 <= i < |sets| :: sets[i].name == name
  }

  /** The storage request of a stored claim after growing it to hold the size. */
  function Grown(size: string, code: ResizeCode): Result<nat, NodeFault> {
    if code.AsWritten? then Err(QuantityPanic)
    else match QuantityBytes(size) case None => Err(QuantityPanic) case Some(b) => Ok(b)
  }

  /** The node sets to be patched in for a task, and the storage its node is then known to have. */
  function EnsureNode(sets: seq<NodeSet>, name: string, size: string, count: nat, code: ResizeCode)
    : Result<(seq<NodeSet>, nat), NodeFault>
  {
    var k := LastNamed(NODE_NAME, sets, name);
    if k == |sets| then
      match NewESNodeSet(name, size, count)
      case Err(e) => Err(e)
      case Ok(node) => Ok((sets + [node], node.claims[0]))
    else if sets[k].claims == [] then Err(ClaimPanic)
    else
      match ToGB(size)
      case Err(e) => Err(SizeUnreadable(e))
      case Ok(gb) =>
        if gb > StoredGB(sets[k].claims[0]) then
          match Grown(size, code)
          case Err(e) => Err(e)
          case Ok(b) => Ok((sets[k := sets[k].(claims := sets[k].claims[0 := b])], b))
        else Ok((sets, sets[k].claims[0]))
  }

  function Deleted(sets: seq<NodeSet>, name: string): (rest: seq<NodeSet>)
    ensures !HasNode(rest, name)
  {
    if sets == [] then []
    else
      var last := sets[|sets| - 1];
      Deleted(sets[..|sets| - 1], name) + (if last.name == name then [] else [last])
  }

  // ---------------------------------------------------------------- the code

  /** The Elasticsearch resource of the cluster. */
  class Elasticsearch {
    var nodeSets: seq<NodeSet>

    constructor (nodeSets: seq<NodeSet>)
      ensures this.nodeSets == nodeSets
    {
      this.nodeSets := nodeSets;
    }
  }

  /** The node step of Reconcile; patched tells whether a patch was sent to the server. */
  method ReconcileNode(es: Elasticsearch, name: string, size: string, count: nat, code: ResizeCode, patchOk: bool)
    returns (seen: Result<nat, NodeFault>, patched: bool)
    modifies es
    ensures var spec := EnsureNode(old(es.nodeSets), name, size, count, code);
            match spec
            case Err(e) => seen == Err(e) && !patched && es.nodeSets == old(es.nodeSets)
            case Ok((sets, storage)) =>
              && patched == (sets != old(es.nodeSets))
              && (patched && !patchOk ==> seen == Err(PatchFailed) && es.nodeSets == old(es.nodeSets))
              && (patched ==> patchOk ==> seen == Ok(storage) && es.nodeSets == sets)
              && (!patched ==> seen == Ok(storage) && es.nodeSets == old(es.nodeSets))
  {
    patched := false;
    var sets := es.nodeSets;
    var found, index := false, 0;
    for i := 0 to |sets|
      invariant found == (LastNamed(NODE_NAME, sets[..i], name) < i)
      invariant found ==> index == LastNamed(NODE_NAME, sets[..i], name)
    {
      assert sets[..i + 1][..i] == sets[..i];
      if sets[i].name == name {
        found, index := true, i;
      }
    }
    assert sets[..|sets|] == sets;
    if !found {
      var node := NewESNodeSet(name, size, count);
      if node.Err? {
        return Err(node.error), false;
      }
      patched := true;
      if !patchOk {
        return Err(PatchFailed), patched;
      }
      es.nodeSets := sets + [node.value];
      return Ok(node.value.claims[0]), patched;
    }
    if sets[index].claims == [] {
      return Err(ClaimPanic), false;
    }
    var gb := ToGB(size);
    if gb.Err? {
      return Err(SizeUnreadable(gb.error)), false;
    }
    seen := Ok(sets[index].claims[0]);
    if gb.value > StoredGB(sets[index].claims[0]) {
      var grown := Grown(size, code);
      if grown.Err? {
        return Err(grown.error), false;
      }
      var resized := sets[index := sets[index].(claims := sets[index].claims[0 := grown.value])];
      patched := resized != sets;
      if patched && !patchOk {
        return Err(PatchFailed), patched;
      }
      es.nodeSets := resized;
      seen := grown;
    }
  }

  /** The node set is built first; then the resource is read, and patched. */
  method NewRestoreESNode(es: Elasticsearch, name: string, size: string, count: nat, readOk: bool, patchOk: bool)
    returns (r: Result<NodeSet, NodeFault>)
    modifies es
    ensures r.Ok? <==> QuantityBytes(size).Some? && readOk && patchOk
    ensures r == (if NewESNodeSet(name, size, count).Err? || (readOk && patchOk) then NewESNodeSet(name, size, count)
                  else Err(if readOk then PatchFailed else ReadFailed))
    ensures es.nodeSets == old(es.nodeSets) + if r.Ok? then [r.value] else []
    ensures r.Ok? ==> r.value == NodeSet(name, count, [QuantityBytes(size).value])
  {
    r := NewESNodeSet(name, size, count);
    if r.Err? {
      return;
    }
    if !readOk {
      return Err(ReadFailed);
    }
    if !patchOk {
      return Err(PatchFailed);
    }
    es.nodeSets := es.nodeSets + [r.value];
  }

  method DeleteRestoreESNode(es: Elasticsearch, name: string, readOk: bool, patchOk: bool)
    returns (r: Result<(), NodeFault>)
    modifies es
    ensures r == if !readOk then Err(ReadFailed) else if !patchOk then Err(PatchFailed) else Ok(())
    ensures es.nodeSets == if r.Ok? then Deleted(old(es.nodeSets), name) else old(es.nodeSets)
  {
    if !readOk {
      return Err(ReadFailed);
    }
    var kept: seq<NodeSet> := [];
    var sets := es.nodeSets;
    for i := 0 to |sets|
      invariant kept == Deleted(sets[..i], name)
      invariant es.nodeSets == old(es.nodeSets)
    {
      assert sets[..i + 1][..i] == sets[..i];
      if sets[i].name != name {
        kept := kept + [sets[i]];
      }
    }
    assert sets[..|sets|] == sets;
    if !patchOk {
      return Err(PatchFailed);
    }
    es.nodeSets := kept;
    return Ok(());
  }

  // ---------------------------------------------------------------- add and delete

  lemma {:induction false} DeletedConcat(a: seq<NodeSet>, b: seq<NodeSet>, name: string)
    ensures Deleted(a + b, name) == Deleted(a, name) + Deleted(b, name)
  {
    if b == [] {
      assert a + b == a;
    } else {
      assert (a + b)[..|a + b| - 1] == a + b[..|b| - 1];
      DeletedConcat(a, b[..|b| - 1], name);
    }
  }

  /** What is left are the node sets of other names, all of them, in order: those at these positions. */
  ghost predicate OthersAt(sets: seq<NodeSet>, name: string, rest: seq<NodeSet>, at: seq<nat>) {
    && Ascending(at) && |at| == |rest|
    && (forall j | 0 <= j < |at| :: at[j] < |sets| && rest[j] == sets[at[j]])
    && forall i: nat | i < |sets| :: i in at <==> sets[i].name != name
  }

  lemma {:induction false} DeletedExactly(sets: seq<NodeSet>, name: string) returns (at: seq<nat>)
    ensures OthersAt(sets, name, Deleted(sets, name), at)
  {
    if sets == [] {
      at := [];
    } else {
      var front, n := sets[..|sets| - 1], |sets| - 1;
      at := DeletedExactly(front, name);
      assert sets == front + [sets[n]];
      hide Deleted, OthersAt;
      if sets[n].name != name {
        OneMoreKept(front, sets[n], name, Deleted(front, name), at);
        at := at + [n];
      } else {
        OneMoreGone(front, sets[n], name, Deleted(front, name), at);
      }
    }
  }

  lemma OneMoreKept(front: seq<NodeSet>, last: NodeSet, name: string, rest: seq<NodeSet>, at: seq<nat>)
    requires OthersAt(front, name, rest, at) && last.name != name
    ensures OthersAt(front + [last], name, rest + [last], at + [|front|])
  {
    forall i: nat | i < |front| + 1
      ensures i in at + [|front|] <==> (front + [last])[i].name != name
    {
      assert i < |front| ==> (front + [last])[i] == front[i];
    }
  }

  lemma OneMoreGone(front: seq<NodeSet>, last: NodeSet, name: string, rest: seq<NodeSet>, at: seq<nat>)
    requires OthersAt(front, name, rest, at) && last.name == name
    ensures OthersAt(front + [last], name, rest, at)
  {
    forall i: nat | i < |front| + 1
      ensures i in at <==> (front + [last])[i].name != name
    {
      assert i < |front| ==> (front + [last])[i] == front[i];
    }
  }

  lemma {:induction false} DeletedIsShorter(sets: seq<NodeSet>, name: string)
    ensures |Deleted(sets, name)| <= |sets|
    ensures !HasNode(sets, name) ==> Deleted(sets, name) == sets
    ensures HasNode(sets, name) ==> |Deleted(sets, name)| < |sets|
  {
    if sets == [] {
    } else {
      var front, last := sets[..|sets| - 1], sets[|sets| - 1];
      assert sets == front + [last];
      DeletedIsShorter(front, name);
      if last.name != name && HasNode(sets, name) {
        var i :| 0 <= i < |sets| && sets[i].name == name;
        assert front[i].name == name;
      }
    }
  }

  /** Adding a node and deleting it again undoes itself exactly when the name was not taken. */
  lemma AddThenDelete(sets: seq<NodeSet>, node: NodeSet)
    ensures Deleted(sets + [node], node.name) == sets <==> !HasNode(sets, node.name)
  {
    DeletedConcat(sets, [node], node.name);
    DeletedIsShorter(sets, node.name);
    assert Deleted([node], node.name) == Deleted([], node.name);
  }

  // ---------------------------------------------------------------- sizing one node

  /** Comparing in gibibytes, as the code does, is comparing whole bytes. */
  lemma ComparedAsBytes(size: string, stored: nat)
    requires BinarySize(size)
    ensures QuantityBytes(size) == Some(Bytes(size))
    ensures ToGB(size).Ok? && (ToGB(size).value > StoredGB(stored) <==> Bytes(size) > stored)
  {
    BinarySizesReadBack(size);
    GibibytesToBytes(ToGB(size).value, Bytes(size), stored);
    hide ToGB, QuantityBytes;
  }

  lemma GibibytesToBytes(gb: real, bytes: nat, stored: nat)
    requires bytes == Ceiling(gb * GIB)
    ensures gb > StoredGB(stored) <==> bytes > stored
  {
  }

  /** A node made for a size text the handlers published holds what that text says. */
  lemma NewNodeHoldsPublishedSize(name: string, total: real, count: nat)
    requires total >= 0.0
    ensures NewESNodeSet(name, FormatGi(total), count) == Ok(NodeSet(name, count, [Ceiling(Round6(total) * GIB)]))
    ensures 0.0 <= StoredGB(Ceiling(Round6(total) * GIB)) - Round6(total) < 1.0 / GIB
  {
    PublishedSizeIsStored(total);
    PrintedSizeReadsBack(total);
    BinarySizesReadBack(FormatGi(total));
    hide ToGB, QuantityBytes, FormatGi, Round6;
  }

  /**
   * Merely formatting the gibibytes with six places would not have repaired the resize: the next
   * pass asks for more again exactly when the six places lose a byte.
   */
  lemma SixPlaceResizeMayFallShort(gb: real)
    requires gb >= 0.0
    ensures QuantityBytes(FormatGi(gb)) == Some(Ceiling(Round6(gb) * GIB))
    ensures gb > StoredGB(Ceiling(Round6(gb) * GIB)) <==> Ceiling(gb * GIB) > Ceiling(Round6(gb) * GIB)
  {
    PublishedSizeIsStored(gb);
    Round6Facts(0.0, gb);
    hide QuantityBytes, FormatGi, Round6;
    GibibytesToBytes(gb, Ceiling(gb * GIB), Ceiling(Round6(gb) * GIB));
  }

  /** They do: four tenths of a millionth of a gibibyte are lost, more than 400 bytes. */
  lemma SixPlacesLoseBytes()
    ensures Round6(1.0000004) == 1.0
    ensures Ceiling(1.0000004 * GIB) > Ceiling(Round6(1.0000004) * GIB) + 400
  {
  }

  /** One sizing step on a node that exists: its claim takes the larger of the two sizes. */
  lemma EnsureTakesLarger(sets: seq<NodeSet>, name: string, size: string, count: nat)
    requires LastNamed(NODE_NAME, sets, name) < |sets| && sets[LastNamed(NODE_NAME, sets, name)].claims != []
             && BinarySize(size)
    ensures var k := LastNamed(NODE_NAME, sets, name);
            var storage := if Bytes(size) > sets[k].claims[0] then Bytes(size) else sets[k].claims[0];
            EnsureNode(sets, name, size, count, Repaired)
            == Ok((sets[k := sets[k].(claims := sets[k].claims[0 := storage])], storage))
  {
    hide ToGB, QuantityBytes, BinarySize, Bytes, StoredGB, LastNamed;
    var k := LastNamed(NODE_NAME, sets, name);
    ComparedAsBytes(size, sets[k].claims[0]);
    assert sets[k].claims[0 := sets[k].claims[0]] == sets[k].claims;
    assert sets[k].(claims := sets[k].claims) == sets[k];
    assert sets[k := sets[k]] == sets;
  }

  lemma EnsureLarger(sets: seq<NodeSet>, node: NodeSet, size: string, count: nat)
    requires !HasNode(sets, node.name) && |node.claims| == 1 && BinarySize(size)
    ensures var storage := if Bytes(size) > node.claims[0] then Bytes(size) else node.claims[0];
            EnsureNode(sets + [node], node.name, size, count, Repaired)
            == Ok((sets + [node.(claims := [storage])], storage))
  {
    LastIsFound(sets, node);
    var storage := if Bytes(size) > node.claims[0] then Bytes(size) else node.claims[0];
    assert node.claims[0 := storage] == [storage];
    assert (sets + [node])[|sets| := node.(claims := [storage])] == sets + [node.(claims := [storage])];
    hide *;
    EnsureTakesLarger(sets + [node], node.name, size, count);
  }

  lemma LastIsFound(sets: seq<NodeSet>, node: NodeSet)
    requires !HasNode(sets, node.name)
    ensures LastNamed(NODE_NAME, sets + [node], node.name) == |sets| && (sets + [node])[|sets|] == node
  {
    assert (sets + [node])[|sets|] == node;
  }

  lemma EnsureCreates(sets: seq<NodeSet>, name: string, size: string, count: nat, code: ResizeCode)
    requires !HasNode(sets, name) && BinarySize(size)
    ensures EnsureNode(sets, name, size, count, code)
         == Ok((sets + [NodeSet(name, count, [Bytes(size)])], Bytes(size)))
  {
    assert LastNamed(NODE_NAME, sets, name) == |sets|;
  }

  /** The node sets after reconciling tasks for one node in turn; a failed task changes nothing. */
  function Sized(sets: seq<NodeSet>, name: string, sizes: seq<string>, count: nat, code: ResizeCode): seq<NodeSet> {
    if sizes == [] then sets
    else
      var before := Sized(sets, name, sizes[..|sizes| - 1], count, code);
      match EnsureNode(before, name, sizes[|sizes| - 1], count, code)
      case Err(_) => before
      case Ok((after, _)) => after
  }

  predicate AllBinary(sizes: seq<string>) {
    forall s | s in sizes :: BinarySize(s)
  }

  function MaxOf(ns: seq<nat>): nat
    requires ns != []
  {
    var front, last := ns[..|ns| - 1], ns[|ns| - 1];
    if front == [] || last > MaxOf(front) then last else MaxOf(front)
  }

  lemma {:induction false} MaxOfIsLargest(ns: seq<nat>)
    requires ns != []
    ensures MaxOf(ns) in ns && forall n | n in ns :: n <= MaxOf(ns)
  {
    var front, last := ns[..|ns| - 1], ns[|ns| - 1];
    assert ns == front + [last];
    if front == [] {
    } else {
      MaxOfIsLargest(front);
    }
  }

  function AllBytes(sizes: seq<string>): (bytes: seq<nat>)
    requires AllBinary(sizes)
    ensures |bytes| == |sizes| && forall i | 0 <= i < |sizes| :: bytes[i] == Bytes(sizes[i])
  {
    seq(|sizes|, i requires 0 <= i < |sizes| => assert sizes[i] in sizes; Bytes(sizes[i]))
  }

  function MaxBytes(sizes: seq<string>): nat
    requires sizes != [] && AllBinary(sizes)
  {
    MaxOf(AllBytes(sizes))
  }

  lemma MaxBytesStep(sizes: seq<string>)
    requires sizes != [] && AllBinary(sizes)
    ensures var front, last := sizes[..|sizes| - 1], sizes[|sizes| - 1];
            && AllBinary(front)
            && BinarySize(last)
            && MaxBytes(sizes) == if front == [] || Bytes(last) > MaxBytes(front) then Bytes(last) else MaxBytes(front)
  {
    hide BinarySize, Bytes;
    var front := sizes[..|sizes| - 1];
    assert forall s | s in front :: s in sizes;
    assert AllBytes(sizes)[..|front|] == AllBytes(front);
  }

  lemma MaxBytesIsLargest(sizes: seq<string>)
    requires sizes != [] && AllBinary(sizes)
    ensures exists s | s in sizes :: Bytes(s) == MaxBytes(sizes)
    ensures forall s | s in sizes :: Bytes(s) <= MaxBytes(sizes)
  {
    var bytes := AllBytes(sizes);
    MaxOfIsLargest(bytes);
    var i :| 0 <= i < |bytes| && bytes[i] == MaxOf(bytes);
    assert sizes[i] in sizes;
    forall s | s in sizes
      ensures Bytes(s) <= MaxBytes(sizes)
    {
      var j :| 0 <= j < |sizes| && sizes[j] == s;
      assert bytes[j] in bytes;
    }
  }

  /**
   * Sizing a new node over any list of tasks leaves exactly one node of that name, as large as the
   * largest request, and every other node set in place.
   */
  lemma {:induction false} NodeSizingIsMax(sets: seq<NodeSet>, name: string, sizes: seq<string>, count: nat)
    requires !HasNode(sets, name) && sizes != [] && AllBinary(sizes)
    ensures Sized(sets, name, sizes, count, Repaired) == sets + [NodeSet(name, count, [MaxBytes(sizes)])]
  {
    var front, last := sizes[..|sizes| - 1], sizes[|sizes| - 1];
    MaxBytesStep(sizes);
    if front == [] {
      assert Sized(sets, name, front, count, Repaired) == sets;
      EnsureCreates(sets, name, last, count, Repaired);
    } else {
      NodeSizingIsMax(sets, name, front, count);
      EnsureLarger(sets, NodeSet(name, count, [MaxBytes(front)]), last, count);
    }
  }

  lemma MaxOfPermutation(a: seq<string>, b: seq<string>)
    requires a != [] && b != [] && AllBinary(a) && AllBinary(b) && multiset(a) == multiset(b)
    ensures MaxBytes(a) == MaxBytes(b)
  {
    assert forall s :: s in a <==> s in multiset(a);
    assert forall s :: s in b <==> s in multiset(b);
    MaxBytesIsLargest(a);
    MaxBytesIsLargest(b);
  }

  /** The order of the tasks does not matter, and repeating one of them sends no patch. */
  lemma NodeSizingIsOrderIndependent(sets: seq<NodeSet>, name: string, a: seq<string>, b: seq<string>, count: nat)
    requires !HasNode(sets, name) && a != [] && b != [] && AllBinary(a) && AllBinary(b)
    requires multiset(a) == multiset(b)
    ensures Sized(sets, name, a, count, Repaired) == Sized(sets, name, b, count, Repaired)
    ensures forall s | s in a ::
              EnsureNode(Sized(sets, name, a, count, Repaired), name, s, count, Repaired)
              == Ok((Sized(sets, name, a, count, Repaired), MaxBytes(a)))
  {
    NodeSizingIsMax(sets, name, a, count);
    NodeSizingIsMax(sets, name, b, count);
    MaxOfPermutation(a, b);
    MaxBytesIsLargest(a);
    forall s | s in a
      ensures EnsureNode(Sized(sets, name, a, count, Repaired), name, s, count, Repaired)
           == Ok((Sized(sets, name, a, count, Repaired), MaxBytes(a)))
    {
      EnsureLarger(sets, NodeSet(name, count, [MaxBytes(a)]), s, count);
    }
  }

  /** As written the node keeps the size of the first task: a larger one panics, the others pass. */
  lemma {:induction false} AsWrittenKeepsFirstSize(sets: seq<NodeSet>, name: string, sizes: seq<string>, count: nat)
    requires !HasNode(sets, name) && sizes != [] && AllBinary(sizes)
    ensures Sized(sets, name, sizes, count, AsWritten) == sets + [NodeSet(name, count, [Bytes(sizes[0])])]
    ensures forall s | BinarySize(s) ::
              EnsureNode(Sized(sets, name, sizes, count, AsWritten), name, s, count, AsWritten).Err?
              <==> Bytes(s) > Bytes(sizes[0])
  {
    var front, last := sizes[..|sizes| - 1], sizes[|sizes| - 1];
    if front == [] {
      assert Sized(sets, name, front, count, AsWritten) == sets;
      EnsureCreates(sets, name, last, count, AsWritten);
    } else {
      assert AllBinary(front);
      AsWrittenKeepsFirstSize(sets, name, front, count);
      AsWrittenStep(sets, NodeSet(name, count, [Bytes(sizes[0])]), last, count);
    }
    forall s | BinarySize(s)
      ensures EnsureNode(sets + [NodeSet(name, count, [Bytes(sizes[0])])], name, s, count, AsWritten).Err?
              <==> Bytes(s) > Bytes(sizes[0])
    {
      AsWrittenStep(sets, NodeSet(name, count, [Bytes(sizes[0])]), s, count);
    }
  }

  lemma AsWrittenStep(sets: seq<NodeSet>, node: NodeSet, size: string, count: nat)
    requires !HasNode(sets, node.name) && |node.claims| == 1 && BinarySize(size)
    ensures EnsureNode(sets + [node], node.name, size, count, AsWritten)
         == if Bytes(size) > node.claims[0] then Err(QuantityPanic) else Ok((sets + [node], node.claims[0]))
  {
    hide ToGB, QuantityBytes, BinarySize, Bytes, StoredGB, HasNode, LastNamed;
    LastIsFound(sets, node);
    ComparedAsBytes(size, node.claims[0]);
  }

  /** Storage a node set of that name has at least, over all node sets of the name. */
  predicate Covers(after: seq<NodeSet>, before: seq<NodeSet>) {
    && |before| <= |after|
    && forall i | 0 <= i < |before| ::
         && after[i].name == before[i].name
         && |after[i].claims| == |before[i].claims|
         && forall j | 0 <= j < |before[i].claims| :: before[i].claims[j] <= after[i].claims[j]
  }

  /** What the step reads or writes covers the request, when that is a covering size; of a new node,
      only then. */
  lemma EnsureSeesEnough(sets: seq<NodeSet>, name: string, size: string, count: nat, code: ResizeCode)
    requires EnsureNode(sets, name, size, count, code).Ok? && ToGB(size).Ok?
    ensures var seen, enough := EnsureNode(sets, name, size, count, code).value.1, ToGB(size).value;
            && (Covering(size) ==> StoredGB(seen) >= enough)
            && (LastNamed(NODE_NAME, sets, name) == |sets| ==> (Covering(size) <==> StoredGB(seen) >= enough))
  {
    hide ToGB, QuantityBytes, StoredGB, LastNamed;
  }

  /** A node set of the name has so much storage. */
  predicate HasStorage(sets: seq<NodeSet>, name: string, bytes: nat) {
    exists i | 0 <= i < |sets| :: sets[i].name == name && sets[i].claims != [] && sets[i].claims[0] >= bytes
  }

  lemma CoversKeepsStorage(after: seq<NodeSet>, before: seq<NodeSet>, name: string, bytes: nat)
    requires Covers(after, before) && HasStorage(before, name, bytes)
    ensures HasStorage(after, name, bytes)
  {
    var i :| 0 <= i < |before| && before[i].name == name && before[i].claims != [] && before[i].claims[0] >= bytes;
    assert after[i].claims[0] >= bytes;
  }

  /** What the step has seen is there, in the list it reads or patches in. */
  lemma EnsureSeesWhatIsThere(sets: seq<NodeSet>, name: string, size: string, count: nat, code: ResizeCode)
    requires EnsureNode(sets, name, size, count, code).Ok?
    ensures var (after, seen) := EnsureNode(sets, name, size, count, code).value;
            HasStorage(after, name, seen)
  {
    hide ToGB, QuantityBytes, StoredGB, LastNamed;
    var (after, seen) := EnsureNode(sets, name, size, count, code).value;
    var k := LastNamed(NODE_NAME, sets, name);
    assert after[k].name == name && after[k].claims != [] && after[k].claims[0] == seen;
  }

  /** What the step reads or writes covers a binary request, and the node is there. */
  lemma EnsureCoversRequest(sets: seq<NodeSet>, name: string, size: string, count: nat, code: ResizeCode)
    requires BinarySize(size) && EnsureNode(sets, name, size, count, code).Ok?
    ensures var (after, seen) := EnsureNode(sets, name, size, count, code).value;
            && ToGB(size).Ok? && StoredGB(seen) >= ToGB(size).value
            && HasNode(after, name)
  {
    var k := LastNamed(NODE_NAME, sets, name);
    ComparedAsBytes(size, Bytes(size));
    var after := EnsureNode(sets, name, size, count, code).value.0;
    if k == |sets| {
      assert after[|sets|].name == name;
    } else {
      ComparedAsBytes(size, sets[k].claims[0]);
      assert after[k].name == name;
    }
  }

  /**
   * When what the step patches in is nowhere smaller, for every size text: as written always;
   * repaired exactly when the node is new, or is not grown, or grows to at least what it had.
   */
  lemma EnsureShrinksExactly(sets: seq<NodeSet>, name: string, size: string, count: nat, code: ResizeCode)
    requires EnsureNode(sets, name, size, count, code).Ok?
    ensures var (after, _), k := EnsureNode(sets, name, size, count, code).value, LastNamed(NODE_NAME, sets, name);
            && (code.AsWritten? ==> Covers(after, sets))
            && (k < |sets| ==> sets[k].claims != [] && ToGB(size).Ok?)
            && (k < |sets| && ToGB(size).value > StoredGB(sets[k].claims[0]) ==> QuantityBytes(size).Some?)
            && (Covers(after, sets) <==>
                  || k == |sets|
                  || ToGB(size).value <= StoredGB(sets[k].claims[0])
                  || sets[k].claims[0] <= QuantityBytes(size).value)
  {
    hide ToGB, QuantityBytes, StoredGB, LastNamed;
    var k := LastNamed(NODE_NAME, sets, name);
    if k < |sets| && ToGB(size).value > StoredGB(sets[k].claims[0]) {
      var after := EnsureNode(sets, name, size, count, code).value.0;
      assert after[k].claims[0] == QuantityBytes(size).value;
    }
  }

  /** So a size that is growing never shrinks a claim, and as written no size does. */
  lemma EnsureNeverShrinks(sets: seq<NodeSet>, name: string, size: string, count: nat, code: ResizeCode)
    requires EnsureNode(sets, name, size, count, code).Ok? && (code.Repaired? ==> Growing(size))
    ensures Covers(EnsureNode(sets, name, size, count, code).value.0, sets)
  {
    EnsureShrinksExactly(sets, name, size, count, code);
    GrowingIs(size);
    hide EnsureNode, ToGB, QuantityBytes, StoredGB, LastNamed, Covers, Growing;
  }

  /** Without a quantity nothing is ever patched. */
  lemma NoQuantityNoPatch(sets: seq<NodeSet>, name: string, size: string, count: nat, code: ResizeCode)
    requires QuantityBytes(size) == None && EnsureNode(sets, name, size, count, code).Ok?
    ensures EnsureNode(sets, name, size, count, code).value.0 == sets
  {
    hide ToGB, QuantityBytes, LastNamed;
  }

  /** When the step works at all: a new node needs a quantity; one that is there needs a claim and a size
      that can be read, and, if that is more than the claim, the repaired resize and a quantity. */
  lemma EnsureWorksExactly(sets: seq<NodeSet>, name: string, size: string, count: nat, code: ResizeCode)
    ensures EnsureNode(sets, name, size, count, code).Ok? <==>
            if !HasNode(sets, name) then QuantityBytes(size).Some?
            else
              var node := sets[LastNamed(NODE_NAME, sets, name)];
              && node.claims != [] && ToGB(size).Ok?
              && (ToGB(size).value > StoredGB(node.claims[0]) ==> code.Repaired? && QuantityBytes(size).Some?)
  {
    hide ToGB, QuantityBytes, StoredGB;
    LastNamedIsThere(sets, name);
    hide LastNamed, HasNode;
  }

  lemma LastNamedIsThere(sets: seq<NodeSet>, name: string)
    ensures HasNode(sets, name) <==> LastNamed(NODE_NAME, sets, name) < |sets|
  {
    var k := LastNamed(NODE_NAME, sets, name);
    if k < |sets| {
      assert sets[k].name == name;
    }
  }
}
