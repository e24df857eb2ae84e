/**
 * Read, edit, patch on the node-set list by several writers at once (internal/http/utils.go,
 * internal/controller/controller/restoretask_controller.go). The patch is a JSON merge patch
 * against the copy that was read (section 2 of RFC 7396): a list that differs from that copy
 * replaces the server's list whole, one that does not is left out of the patch.
 */
module NodeEdits {
  import opened Wrappers
  import opened SizeText
  import opened Quantities
  import opened Names
  import opened NodeSets
  import opened Folds

  datatype Edit =
    | AddNode(node: NodeSet)
    | DeleteNode(name: string)
    | EnsureTask(name: string, size: string, count: nat, code: ResizeCode)

  function Edited(e: Edit, sets: seq<NodeSet>): seq<NodeSet> {
    match e
    case AddNode(node) => sets + [node]
    case DeleteNode(name) => Deleted(sets, name)
    case EnsureTask(name, size, count, code) =>
      match EnsureNode(sets, name, size, count, code)
      case Err(_) => sets
      case Ok((after, _)) => after
  }

  type Writer = nat

  /** A writer reads the resource for an edit, or sends its patch, which the server may refuse. */
  datatype Event = Read(writer: Writer, edit: Edit) | Patch(writer: Writer, accepted: bool)

  /** What a writer holds between its read and its patch. */
  datatype Draft = Draft(snapshot: seq<NodeSet>, edit: Edit)

  datatype Server = Server(nodeSets: seq<NodeSet>, drafts: map<Writer, Draft>)

  function Handle(s: Server, ev: Event): Server {
    match ev
    case Read(w, e) => s.(drafts := s.drafts[w := Draft(s.nodeSets, e)])
    case Patch(w, accepted) =>
      if w !in s.drafts then s
      else
        var d := s.drafts[w];
        var edited := Edited(d.edit, d.snapshot);
        Server(if accepted && edited != d.snapshot then edited else s.nodeSets, s.drafts - {w})
  }

  function Run(sets: seq<NodeSet>, events: seq<Event>): Server {
    if events == [] then Server(sets, map[])
    else Handle(Run(sets, events[..|events| - 1]), events[|events| - 1])
  }

  /** The read a writer's next patch goes back to, if it has read since its last patch. */
  function OpenRead(events: seq<Event>, w: Writer): (at: Option<nat>)
    ensures at.Some? ==> at.value < |events| && events[at.value].Read? && events[at.value].writer == w
    ensures at.Some? ==> forall i | at.value < i < |events| :: events[i].writer != w
  {
    if events == [] then None
    else
      var n := |events| - 1;
      if events[n].writer != w then OpenRead(events[..n], w)
      else if events[n].Read? then Some(n)
      else None
  }

  /** The patch at position j is accepted and not empty. */
  predicate Effective(sets: seq<NodeSet>, events: seq<Event>, j: nat)
    requires j < |events|
  {
    && events[j].Patch? && events[j].accepted
    && var read := OpenRead(events[..j], events[j].writer);
       read.Some? &&
       var snapshot := Run(sets, events[..read.value]).nodeSets;
       Edited(events[read.value].edit, snapshot) != snapshot
  }

  lemma EffectiveInPrefix(sets: seq<NodeSet>, events: seq<Event>, n: nat)
    requires n <= |events|
    ensures forall j | 0 <= j < n :: Effective(sets, events[..n], j) == Effective(sets, events, j)
  {
    hide Edited, Run, OpenRead;
    forall j | 0 <= j < n
      ensures Effective(sets, events[..n], j) == Effective(sets, events, j)
    {
      assert events[..n][..j] == events[..j];
      var read := OpenRead(events[..j], events[j].writer);
      if read.Some? {
        assert events[..n][..read.value] == events[..read.value];
      }
    }
  }

  function LastEffective(sets: seq<NodeSet>, events: seq<Event>): (at: Option<nat>)
    ensures at.Some? ==> at.value < |events| && Effective(sets, events, at.value)
    ensures forall j | (if at.Some? then at.value < j else 0 <= j) && j < |events| :: !Effective(sets, events, j)
  {
    if events == [] then None
    else
      var n := |events| - 1;
      if Effective(sets, events, n) then Some(n)
      else
        EffectiveInPrefix(sets, events, n);
        LastEffective(sets, events[..n])
  }

  /** What the server holds for each writer is the list it read and the edit it means to make. */
  lemma {:induction false} DraftsAreReads(sets: seq<NodeSet>, events: seq<Event>, w: Writer)
    ensures w in Run(sets, events).drafts <==> OpenRead(events, w).Some?
    ensures w in Run(sets, events).drafts ==>
              var at := OpenRead(events, w).value;
              Run(sets, events).drafts[w] == Draft(Run(sets, events[..at]).nodeSets, events[at].edit)
  {
    if events == [] {
    } else {
      var front := events[..|events| - 1];
      DraftsAreReads(sets, front, w);
      if OpenRead(front, w).Some? {
        assert front[..OpenRead(front, w).value] == events[..OpenRead(front, w).value];
      }
    }
  }

  /**
   * After any interleaving the server holds the last effective edit, made on the list its writer
   * had read: whatever was patched in between is gone.
   */
  lemma {:induction false} LastPatchDecides(sets: seq<NodeSet>, events: seq<Event>)
    ensures match LastEffective(sets, events)
            case None => Run(sets, events).nodeSets == sets
            case Some(j) =>
              var read := OpenRead(events[..j], events[j].writer).value;
              Run(sets, events).nodeSets == Edited(events[read].edit, Run(sets, events[..read]).nodeSets)
  {
    hide Edited, OpenRead;
    if events == [] {
    } else {
      var n := |events| - 1;
      var front, last := events[..n], events[n];
      LastPatchDecides(sets, front);
      DraftsAreReads(sets, front, last.writer);
      if Effective(sets, events, n) {
        var read := OpenRead(front, last.writer).value;
        assert front[..read] == events[..read];
      } else {
        assert Run(sets, events).nodeSets == Run(sets, front).nodeSets by {
          if OpenRead(front, last.writer).Some? {
            assert front[..OpenRead(front, last.writer).value] == events[..OpenRead(front, last.writer).value];
          }
        }
        if LastEffective(sets, front).Some? {
          var j := LastEffective(sets, front).value;
          assert front[..j] == events[..j];
          var read := OpenRead(events[..j], events[j].writer).value;
          assert front[..read] == events[..read];
        }
      }
    }
  }

  // ---------------------------------------------------------------- the edits that survive

  /** Edits made one after the other. */
  function AllEdits(sets: seq<NodeSet>, edits: seq<Edit>): seq<NodeSet> {
    if edits == [] then sets
    else Edited(edits[|edits| - 1], AllEdits(sets, edits[..|edits| - 1]))
  }

  /** The patches whose edits survive: the last effective one, then the last one effective before its
      read, and so on. */
  function Chain(sets: seq<NodeSet>, events: seq<Event>): (at: seq<nat>)
    ensures forall i | 0 <= i < |at| :: at[i] < |events| && Effective(sets, events, at[i])
    ensures forall i | 0 <= i < |at| :: HasRead(events, at[i])
    ensures forall i, j | 0 <= i < j < |at| :: at[i] < at[j]
    decreases |events|
  {
    match LastEffective(sets, events)
    case None => []
    case Some(j) =>
      var read := OpenRead(events[..j], events[j].writer).value;
      EffectiveInPrefix(sets, events, read);
      Chain(sets, events[..read]) + [j]
  }

  predicate HasRead(events: seq<Event>, j: nat) {
    j < |events| && OpenRead(events[..j], events[j].writer).Some?
  }

  /** The edit a patch makes. */
  function EditOf(events: seq<Event>, j: nat): Edit
    requires HasRead(events, j)
  {
    events[OpenRead(events[..j], events[j].writer).value].edit
  }

  function EditsAt(events: seq<Event>, at: seq<nat>): (edits: seq<Edit>)
    requires forall i | 0 <= i < |at| :: HasRead(events, at[i])
    ensures |edits| == |at|
    ensures forall i | 0 <= i < |at| :: edits[i] == EditOf(events, at[i])
  {
    seq(|at|, i requires 0 <= i < |at| => EditOf(events, at[i]))
  }

  /**
   * After any interleaving the list is the surviving edits made one after the other, and no others:
   * each was read after the patch before it, and everything patched in between is gone.
   */
  lemma {:induction false} SurvivingEditsDecide(sets: seq<NodeSet>, events: seq<Event>)
    ensures Run(sets, events).nodeSets == AllEdits(sets, EditsAt(events, Chain(sets, events)))
    decreases |events|
  {
    hide Edited;
    LastPatchDecides(sets, events);
    match LastEffective(sets, events) {
      case None =>
        assert EditsAt(events, Chain(sets, events)) == [];
      case Some(j) =>
        var read := OpenRead(events[..j], events[j].writer).value;
        SurvivingEditsDecide(sets, events[..read]);
        ChainGoesBack(sets, events, j, read);
    }
  }

  lemma ChainGoesBack(sets: seq<NodeSet>, events: seq<Event>, j: nat, read: nat)
    requires LastEffective(sets, events) == Some(j) && OpenRead(events[..j], events[j].writer) == Some(read)
    ensures read < |events| && events[read].Read?
    ensures EditsAt(events, Chain(sets, events))
         == EditsAt(events[..read], Chain(sets, events[..read])) + [events[read].edit]
  {
    hide Edited, Effective, Run;
    assert events[..j][read] == events[read];
    EditsInPrefix(events, read, Chain(sets, events[..read]));
    assert Chain(sets, events) == Chain(sets, events[..read]) + [j];
  }

  lemma EditsInPrefix(events: seq<Event>, n: nat, at: seq<nat>)
    requires n <= |events| && forall i | 0 <= i < |at| :: HasRead(events[..n], at[i])
    ensures forall i | 0 <= i < |at| :: HasRead(events, at[i]) && EditOf(events[..n], at[i]) == EditOf(events, at[i])
  {
    forall i | 0 <= i < |at|
      ensures HasRead(events, at[i]) && EditOf(events[..n], at[i]) == EditOf(events, at[i])
    {
      assert HasRead(events[..n], at[i]);
      assert events[..n][..at[i]] == events[..at[i]];
    }
  }

  // ---------------------------------------------------------------- when nothing is lost

  /** Every effective patch survives. */
  predicate NothingLost(sets: seq<NodeSet>, events: seq<Event>) {
    forall j | 0 <= j < |events| && Effective(sets, events, j) :: j in Chain(sets, events)
  }

  /** The read of the patch comes before the other patch. */
  predicate ReadBefore(events: seq<Event>, j: nat, i: nat)
    requires j < |events|
  {
    var read := OpenRead(events[..j], events[j].writer);
    read.Some? && read.value <= i
  }

  /** No effective patch goes back to a read from before another effective one. */
  predicate NoOverlap(sets: seq<NodeSet>, events: seq<Event>) {
    forall i, j | 0 <= i < j < |events| && Effective(sets, events, i) && Effective(sets, events, j) ::
      !ReadBefore(events, j, i)
  }

  lemma LastOfChain(sets: seq<NodeSet>, events: seq<Event>) returns (m: nat, read: nat)
    requires LastEffective(sets, events).Some?
    ensures m < |events| && Effective(sets, events, m) && OpenRead(events[..m], events[m].writer) == Some(read)
    ensures forall j | m < j < |events| :: !Effective(sets, events, j)
    ensures read < m && Chain(sets, events) == Chain(sets, events[..read]) + [m]
    ensures forall j | 0 <= j < read :: Effective(sets, events[..read], j) == Effective(sets, events, j)
  {
    m := LastEffective(sets, events).value;
    read := OpenRead(events[..m], events[m].writer).value;
    EffectiveInPrefix(sets, events, read);
    hide Edited, Run;
  }

  lemma ReadInPrefix(events: seq<Event>, n: nat, j: nat, i: nat)
    requires j < n <= |events|
    ensures ReadBefore(events[..n], j, i) == ReadBefore(events, j, i)
  {
    assert events[..n][..j] == events[..j];
  }

  /** Of two effective patches, the later of which was read before the earlier, at least one is lost. */
  lemma {:induction false} OverlappingEditIsLost(sets: seq<NodeSet>, events: seq<Event>, i: nat, j: nat)
    requires i < j < |events| && Effective(sets, events, i) && Effective(sets, events, j) && ReadBefore(events, j, i)
    ensures i !in Chain(sets, events) || j !in Chain(sets, events)
    decreases |events|
  {
    var m, read := LastOfChain(sets, events);
    hide Effective, Chain, ReadBefore;
    if j < read {
      ReadInPrefix(events, read, j, i);
      OverlappingEditIsLost(sets, events[..read], i, j);
    } else if j == m {
      ReadIs(events, m, read, i);
    }
  }

  lemma ReadIs(events: seq<Event>, j: nat, read: nat, i: nat)
    requires j < |events| && OpenRead(events[..j], events[j].writer) == Some(read)
    ensures ReadBefore(events, j, i) <==> read <= i
  {
  }

  lemma {:induction false} NoOverlapLosesNothing(sets: seq<NodeSet>, events: seq<Event>)
    requires NoOverlap(sets, events)
    ensures NothingLost(sets, events)
    decreases |events|
  {
    hide Effective;
    if LastEffective(sets, events).None? {
    } else {
      var m, read := LastOfChain(sets, events);
      forall i, j | 0 <= i < j < read && Effective(sets, events[..read], i) && Effective(sets, events[..read], j)
        ensures !ReadBefore(events[..read], j, i)
      {
        ReadInPrefix(events, read, j, i);
      }
      NoOverlapLosesNothing(sets, events[..read]);
      forall j | 0 <= j < |events| && Effective(sets, events, j)
        ensures j in Chain(sets, events)
      {
        assert j < m ==> !ReadBefore(events, m, j);
      }
    }
  }

  /** After any interleaving nothing is lost exactly when no two effective edits overlap. */
  lemma NothingIsLostExactly(sets: seq<NodeSet>, events: seq<Event>)
    ensures NothingLost(sets, events) <==> NoOverlap(sets, events)
  {
    hide Effective, Chain;
    if NoOverlap(sets, events) {
      NoOverlapLosesNothing(sets, events);
    } else {
      var i, j :| 0 <= i < j < |events| && Effective(sets, events, i) && Effective(sets, events, j)
                  && ReadBefore(events, j, i);
      OverlappingEditIsLost(sets, events, i, j);
    }
  }

  /** All effective patches, in order. */
  function EffectiveOnes(sets: seq<NodeSet>, events: seq<Event>): (at: seq<nat>)
    ensures forall j :: j in at <==> 0 <= j < |events| && Effective(sets, events, j)
    ensures forall i, j | 0 <= i < j < |at| :: at[i] < at[j]
  {
    Kept(|events|, (j: nat) => j < |events| && Effective(sets, events, j))
  }

  lemma EffectiveHasRead(sets: seq<NodeSet>, events: seq<Event>, j: nat)
    requires j < |events| && Effective(sets, events, j)
    ensures HasRead(events, j)
  {
    hide Edited, Run;
  }

  /** Then the list is all effective edits, made one after the other. */
  lemma AllEffectiveEditsLand(sets: seq<NodeSet>, events: seq<Event>)
    requires NoOverlap(sets, events)
    ensures var at := EffectiveOnes(sets, events);
            && (forall i | 0 <= i < |at| :: HasRead(events, at[i]))
            && Run(sets, events).nodeSets == AllEdits(sets, EditsAt(events, at))
  {
    NoOverlapLosesNothing(sets, events);
    SurvivingEditsDecide(sets, events);
    var a, b := Chain(sets, events), EffectiveOnes(sets, events);
    forall i | 0 <= i < |b|
      ensures HasRead(events, b[i])
    {
      assert b[i] in b;
      EffectiveHasRead(sets, events, b[i]);
    }
    hide Effective, Chain, EffectiveOnes, Run, NoOverlap;
    forall n
      ensures n in a <==> n in b
    {
      if n in a {
        var i :| 0 <= i < |a| && a[i] == n;
      }
    }
    SameAscending(a, b);
  }

  // ---------------------------------------------------------------- edits one at a time

  /** A read and its patch, which the server accepts or refuses. */
  datatype Attempt = Attempt(writer: Writer, edit: Edit, accepted: bool)

  /** Each attempt is read and patched with nothing in between, by whatever writer. */
  function OneAtATime(attempts: seq<Attempt>): seq<Event> {
    if attempts == [] then []
    else
      var last := attempts[|attempts| - 1];
      OneAtATime(attempts[..|attempts| - 1]) + [Read(last.writer, last.edit), Patch(last.writer, last.accepted)]
  }

  function Accepted(attempts: seq<Attempt>): seq<Edit> {
    if attempts == [] then []
    else
      var last := attempts[|attempts| - 1];
      Accepted(attempts[..|attempts| - 1]) + if last.accepted then [last.edit] else []
  }

  /** Then, after whatever went before and whoever still holds a read from it, the accepted edits are
      all made, in turn. */
  lemma {:induction false} EditsOneAtATimeAllLand(sets: seq<NodeSet>, before: seq<Event>, attempts: seq<Attempt>)
    ensures Run(sets, before + OneAtATime(attempts)).nodeSets
            == AllEdits(Run(sets, before).nodeSets, Accepted(attempts))
  {
    hide Edited;
    if attempts == [] {
      assert before + OneAtATime(attempts) == before;
    } else {
      var front, last := attempts[..|attempts| - 1], attempts[|attempts| - 1];
      EditsOneAtATimeAllLand(sets, before, front);
      var read, patch := Read(last.writer, last.edit), Patch(last.writer, last.accepted);
      assert before + OneAtATime(attempts) == before + OneAtATime(front) + [read, patch];
      RunTwoMore(sets, before + OneAtATime(front), read, patch);
      if last.accepted {
        assert Accepted(attempts)[..|Accepted(front)|] == Accepted(front);
      } else {
        assert Accepted(attempts) == Accepted(front);
      }
    }
  }

  lemma RunTwoMore(sets: seq<NodeSet>, events: seq<Event>, a: Event, b: Event)
    ensures Run(sets, events + [a, b]) == Handle(Handle(Run(sets, events), a), b)
  {
    var one := events + [a];
    assert (events + [a, b])[..|events| + 1] == one;
    assert one[..|events|] == events;
  }

  /** Two writers that both read before either patches: the edit patched first is lost, always. */
  lemma FirstOfTwoIsLost(sets: seq<NodeSet>, first: Edit, second: Edit)
    requires Edited(second, sets) != sets
    ensures Run(sets, [Read(1, first), Read(2, second), Patch(1, true), Patch(2, true)]).nodeSets
            == Edited(second, sets)
  {
    var events := [Read(1, first), Read(2, second), Patch(1, true), Patch(2, true)];
    assert events == [] + [Read(1, first), Read(2, second)] + [Patch(1, true), Patch(2, true)];
    RunTwoMore(sets, [], Read(1, first), Read(2, second));
    RunTwoMore(sets, [] + [Read(1, first), Read(2, second)], Patch(1, true), Patch(2, true));
  }

  // ---------------------------------------------------------------- what an edit does

  function NodeOf(e: Edit): string {
    match e
    case AddNode(node) => node.name
    case DeleteNode(name) => name
    case EnsureTask(name, _, _, _) => name
  }

  /** An edit adds, deletes or ensures its own node, and keeps all others as they are: an ensured one is
      there afterwards if it was before, or if its size is a quantity. */
  lemma EditTells(e: Edit, sets: seq<NodeSet>)
    ensures HasNode(Edited(e, sets), NodeOf(e)) <==>
            match e
            case AddNode(_) => true
            case DeleteNode(_) => false
            case EnsureTask(_, size, _, _) => HasNode(sets, NodeOf(e)) || QuantityBytes(size).Some?
    ensures forall node: NodeSet | node.name != NodeOf(e) :: node in Edited(e, sets) <==> node in sets
    ensures e.AddNode? ==> Edited(e, sets)[..|sets|] == sets && Edited(e, sets)[|sets|] == e.node
  {
    match e
    case AddNode(node) => assert Edited(e, sets)[|sets|] == node;
    case DeleteNode(name) => DeleteTells(sets, name);
    case EnsureTask(name, size, count, code) => EnsureTells(sets, name, size, count, code);
  }

  lemma DeleteTells(sets: seq<NodeSet>, name: string)
    ensures forall node: NodeSet | node.name != name :: node in Deleted(sets, name) <==> node in sets
  {
    var at := DeletedExactly(sets, name);
    forall node: NodeSet | node.name != name && node in sets
      ensures node in Deleted(sets, name)
    {
      var i: nat :| i < |sets| && sets[i] == node;
      var j :| 0 <= j < |at| && at[j] == i;
      assert Deleted(sets, name)[j] == node;
    }
  }

  lemma EnsureTells(sets: seq<NodeSet>, name: string, size: string, count: nat, code: ResizeCode)
    ensures var after := Edited(EnsureTask(name, size, count, code), sets);
            && (HasNode(after, name) <==> HasNode(sets, name) || QuantityBytes(size).Some?)
            && forall node: NodeSet | node.name != name :: node in after <==> node in sets
  {
    hide ToGB, QuantityBytes, StoredGB;
    var k, after := LastNamed(NODE_NAME, sets, name), Edited(EnsureTask(name, size, count, code), sets);
    if k < |sets| {
      assert sets[k].name == name && after[k].name == name;
      assert forall i | 0 <= i < |sets| && i != k :: after[i] == sets[i];
    } else if QuantityBytes(size).Some? {
      assert after[|sets|].name == name;
    }
  }

  /** After edits made in turn a node is there as the last edit of it says; without one, as before. */
  lemma {:induction false} LastEditDecides(sets: seq<NodeSet>, edits: seq<Edit>, name: string, j: nat)
    requires j <= |edits| && (j < |edits| ==> NodeOf(edits[j]) == name)
    requires forall i | (if j < |edits| then j < i else 0 <= i) && i < |edits| :: NodeOf(edits[i]) != name
    ensures HasNode(AllEdits(sets, edits), name) <==>
            if j == |edits| then HasNode(sets, name)
            else
              match edits[j]
              case AddNode(_) => true
              case DeleteNode(_) => false
              case EnsureTask(_, size, _, _) => HasNode(AllEdits(sets, edits[..j]), name) || QuantityBytes(size).Some?
  {
    hide Edited, QuantityBytes, NodeOf;
    if edits == [] {
    } else {
      var n := |edits| - 1;
      EditTells(edits[n], AllEdits(sets, edits[..n]));
      if j < n || j == |edits| {
        LastEditDecides(sets, edits[..n], name, if j < n then j else n);
        assert j < n ==> edits[..n][..j] == edits[..j];
        SameMembers(AllEdits(sets, edits[..n]), AllEdits(sets, edits), name);
      }
    }
  }

  lemma SameMembers(a: seq<NodeSet>, b: seq<NodeSet>, name: string)
    requires forall node: NodeSet | node.name == name :: node in a <==> node in b
    ensures HasNode(a, name) <==> HasNode(b, name)
  {
    if i :| 0 <= i < |a| && a[i].name == name {
      assert a[i] in b;
    }
    if i :| 0 <= i < |b| && b[i].name == name {
      assert b[i] in a;
    }
  }

  /** An accepted patch that changes nothing of what its writer had read leaves the list as it is by then. */
  lemma EmptyPatchDoesNothing(sets: seq<NodeSet>, events: seq<Event>, w: Writer)
    requires OpenRead(events, w).Some?
    requires var at := OpenRead(events, w).value;
             Edited(events[at].edit, Run(sets, events[..at]).nodeSets) == Run(sets, events[..at]).nodeSets
    ensures Run(sets, events + [Patch(w, true)]).nodeSets == Run(sets, events).nodeSets
  {
    DraftsAreReads(sets, events, w);
    hide Edited;
    assert (events + [Patch(w, true)])[..|events|] == events;
  }
}
