/**
  Inlining preserves meaning. On a flat graph that passes the compiler's edge check, the walk from the flat
  entry under any choice of edge labels is, id for id, the walk through the nested calls.
*/
module Inlining {
  import opened Base
  import opened IterationKeys
  import opened Confluence
  import opened Blocks

  predicate Has(nodes: seq<NodeSpec>, id: string) {
    exists i | 0 <= i < |nodes| :: nodes[i].id == id
  }

  /** The check `compile_flow` makes: every edge has an existing target. */
  predicate EdgesExist(nodes: seq<NodeSpec>) {
    forall i, l | 0 <= i < |nodes| && l in nodes[i].edges :: Has(nodes, nodes[i].edges[l])
  }

  /** Ids, entries and edge targets as users write them contain no colon. */
  predicate RawIds(b: Block)
    decreases b
  {
    && ColonFree(b.entry)
    && forall i | 0 <= i < |b.items| ::
         && ColonFree(b.items[i].node.id)
         && (forall l | l in b.items[i].node.edges :: ColonFree(b.items[i].node.edges[l]))
         && (b.items[i].Call? ==> RawIds(b.items[i].body))
  }

  /** No node list, at any depth, uses an id twice. */
  predicate DistinctIds(b: Block)
    decreases b
  {
    && (forall i, j | 0 <= i < j < |b.items| :: b.items[i].node.id != b.items[j].node.id)
    && forall i | 0 <= i < |b.items| && b.items[i].Call? :: DistinctIds(b.items[i].body)
  }

  ghost predicate WellFormed(b: Block) {
    RawIds(b) && DistinctIds(b) && Flatten(b).Ok?
  }

  // ---------------------------------------------------------------- what the compiler collects

  /** The `j`-th item is a call, and its template has been flattened. */
  predicate InlinedCall(b: Block, j: nat) {
    j < |b.items| && b.items[j].Call? && Flatten(b.items[j].body).Ok?
  }

  function Inner(b: Block, j: nat): Flat
    requires InlinedCall(b, j)
  {
    Flatten(b.items[j].body).value
  }

  /** `n` comes from the call `b.items[j]`. */
  ghost predicate ComesFrom(b: Block, j: nat, n: NodeSpec) {
    InlinedCall(b, j) &&
    exists x :: x in Inner(b, j).nodes && ParamsWired(x, b.items[j].node) && n == Inline(x, b.items[j].node)
  }

  ghost predicate PlainCollected(b: Block, k: nat, parts: Parts)
    requires k <= |b.items|
  {
    && (forall j | 0 <= j < k && b.items[j].Plain? :: b.items[j].node in parts.plain)
    && (forall n | n in parts.plain :: exists j :: 0 <= j < k && b.items[j] == Plain(n))
  }

  ghost predicate CallsCollected(b: Block, k: nat, parts: Parts)
    requires k <= |b.items|
  {
    && (forall j | 0 <= j < k && b.items[j].Call? ::
         InlinedCall(b, j) && forall x | x in Inner(b, j).nodes ::
           ParamsWired(x, b.items[j].node) && Inline(x, b.items[j].node) in parts.inlined)
    && (forall n | n in parts.inlined :: exists j :: 0 <= j < k && ComesFrom(b, j, n))
  }

  ghost predicate EntriesCollected(b: Block, k: nat, parts: Parts)
    requires k <= |b.items|
  {
    && (forall j | 0 <= j < k && b.items[j].Call? ::
         InlinedCall(b, j) && b.items[j].node.id in parts.entries
         && parts.entries[b.items[j].node.id] == Namespaced(b.items[j].node.id, Inner(b, j).entry))
    && (forall id | id in parts.entries :: exists j :: 0 <= j < k && b.items[j].Call? && b.items[j].node.id == id)
  }

  lemma {:induction false} PlainOfItems(b: Block, k: nat)
    requires k <= |b.items| && Collected(b, k).Ok?
    ensures PlainCollected(b, k, Collected(b, k).value)
    decreases k
  {
    hide Flatten, InlineAll, AddOutputs;
    if k > 0 {
      PlainOfItems(b, k - 1);
      var before, after := Collected(b, k - 1).value, Collected(b, k).value;
      if b.items[k - 1].Plain? {
        assert after.plain == before.plain + [b.items[k - 1].node];
        assert b.items[k - 1] == Plain(b.items[k - 1].node);
      } else {
        assert after.plain == before.plain;
      }
    }
  }

  lemma {:induction false} InlineAllMembers(nodes: seq<NodeSpec>, caller: NodeSpec)
    requires InlineAll(nodes, caller).Ok?
    ensures var ns := InlineAll(nodes, caller).value;
            && (forall x | x in nodes :: ParamsWired(x, caller) && Inline(x, caller) in ns)
            && (forall n | n in ns :: exists x :: x in nodes && ParamsWired(x, caller) && n == Inline(x, caller))
  {
    var ns := InlineAll(nodes, caller).value;
    forall x | x in nodes
      ensures ParamsWired(x, caller) && Inline(x, caller) in ns
    {
      var i :| 0 <= i < |nodes| && nodes[i] == x;
      assert ns[i] == Inline(nodes[i], caller);
    }
    forall n | n in ns
      ensures exists x :: x in nodes && ParamsWired(x, caller) && n == Inline(x, caller)
    {
      var i :| 0 <= i < |ns| && ns[i] == n;
      assert nodes[i] in nodes;
    }
  }

  lemma {:induction false} CallsOfItems(b: Block, k: nat)
    requires k <= |b.items| && Collected(b, k).Ok?
    ensures CallsCollected(b, k, Collected(b, k).value)
    decreases k
  {
    hide Flatten, InlineAll, AddOutputs, Inline, ParamsWired;
    if k > 0 {
      CallsOfItems(b, k - 1);
      var before, after := Collected(b, k - 1).value, Collected(b, k).value;
      if b.items[k - 1].Call? {
        var Call(caller, params, body) := b.items[k - 1];
        var inner := Flatten(body).value;
        InlineAllMembers(inner.nodes, caller);
        assert after.inlined == before.inlined + InlineAll(inner.nodes, caller).value;
        forall n | n in after.inlined
          ensures exists j :: 0 <= j < k && ComesFrom(b, j, n)
        {
          if n in InlineAll(inner.nodes, caller).value {
            assert ComesFrom(b, k - 1, n);
          }
        }
      } else {
        assert after.inlined == before.inlined;
      }
    }
  }

  lemma {:induction false} EntriesOfItems(b: Block, k: nat)
    requires k <= |b.items| && Collected(b, k).Ok? && DistinctIds(b)
    ensures EntriesCollected(b, k, Collected(b, k).value)
    decreases k
  {
    hide Flatten, InlineAll, AddOutputs, DistinctIds;
    if k > 0 {
      EntriesOfItems(b, k - 1);
      forall j | 0 <= j < k - 1
        ensures b.items[j].node.id != b.items[k - 1].node.id
      {
        ItemIsDistinct(b, j, k - 1);
      }
      var before, after := Collected(b, k - 1).value, Collected(b, k).value;
      if b.items[k - 1].Call? {
        assert after.entries == before.entries[b.items[k - 1].node.id :=
                 Namespaced(b.items[k - 1].node.id, Flatten(b.items[k - 1].body).value.entry)];
      } else {
        assert after.entries == before.entries;
      }
    }
  }

  function AllParts(b: Block): Parts
    requires Flatten(b).Ok?
  {
    Collected(b, |b.items|).value
  }

  function FlatNodes(b: Block): seq<NodeSpec>
    requires Flatten(b).Ok?
  {
    Flatten(b).value.nodes
  }

  lemma {:induction false} FlatShape(b: Block)
    requires Flatten(b).Ok?
    ensures Collected(b, |b.items|).Ok?
    ensures var parts := AllParts(b);
            && FlatNodes(b)
               == seq(|parts.plain|, i requires 0 <= i < |parts.plain| => RedirectNode(parts.plain[i], parts))
                  + parts.inlined
            && Flatten(b).value.entry == Redirected(parts.entries, b.entry)
  {
  }

  /** Every flat node is a plain node redirected or a node spliced in. */
  lemma {:induction false} OriginOf(b: Block, n: NodeSpec) returns (j: nat)
    requires Flatten(b).Ok? && n in FlatNodes(b)
    ensures j < |b.items|
    ensures match b.items[j]
            case Plain(m) => n == RedirectNode(m, AllParts(b))
            case Call(_, _, _) => ComesFrom(b, j, n)
  {
    FlatShape(b);
    PlainOfItems(b, |b.items|);
    CallsOfItems(b, |b.items|);
    var parts := AllParts(b);
    hide Flatten, Collected, RedirectNode, Inline, ParamsWired;
    if n in parts.inlined {
      j :| 0 <= j < |b.items| && ComesFrom(b, j, n);
    } else {
      var i :| 0 <= i < |parts.plain| && n == RedirectNode(parts.plain[i], parts);
      j :| 0 <= j < |b.items| && b.items[j] == Plain(parts.plain[i]);
    }
  }

  // ---------------------------------------------------------------- ids of the flat graph

  lemma {:induction false} NamespacesDiffer(c: string, x: string, d: string, y: string)
    requires ColonFree(c) && ColonFree(d) && Namespaced(c, x) == Namespaced(d, y)
    ensures c == d && x == y
  {
    LeadingOf(c, "::" + x);
    LeadingOf(d, "::" + y);
    assert c + ("::" + x) == Namespaced(c, x) && d + ("::" + y) == Namespaced(d, y);
    assert Namespaced(c, x)[|c| + 2..] == x && Namespaced(d, y)[|d| + 2..] == y;
  }

  lemma {:induction false} NamespacedHasColon(c: string, x: string)
    ensures !ColonFree(Namespaced(c, x))
  {
    assert Namespaced(c, x)[|c|] == ':';
  }

  /** Where an id of the flat graph comes from. */
  lemma {:induction false} OriginOfId(b: Block, id: string)
    returns (j: nat, x: string)
    requires WellFormed(b) && Has(FlatNodes(b), id)
    ensures j < |b.items|
    ensures b.items[j].Plain? ==> b.items[j].node.id == id
    ensures b.items[j].Call? ==>
              InlinedCall(b, j) && id == Namespaced(b.items[j].node.id, x) && Has(Inner(b, j).nodes, x)
  {
    hide Flatten, RawIds, DistinctIds, ParamsWired;
    FlatShape(b);
    var parts, nodes := AllParts(b), FlatNodes(b);
    PlainOfItems(b, |b.items|);
    CallsOfItems(b, |b.items|);
    var i :| 0 <= i < |nodes| && nodes[i].id == id;
    x := "";
    if i < |parts.plain| {
      assert parts.plain[i] in parts.plain;
      j :| 0 <= j < |b.items| && b.items[j] == Plain(parts.plain[i]);
    } else {
      assert nodes[i] in parts.inlined;
      j :| 0 <= j < |b.items| && ComesFrom(b, j, nodes[i]);
      var inner :| inner in Inner(b, j).nodes && ParamsWired(inner, b.items[j].node)
          && nodes[i] == Inline(inner, b.items[j].node);
      x := inner.id;
    }
  }

  lemma {:induction false} ItemIsRaw(b: Block, j: nat)
    requires RawIds(b) && j < |b.items|
    ensures ColonFree(b.entry) && ColonFree(b.items[j].node.id)
    ensures forall l | l in b.items[j].node.edges :: ColonFree(b.items[j].node.edges[l])
    ensures b.items[j].Call? ==> RawIds(b.items[j].body)
  {
  }

  lemma {:induction false} ItemIsDistinct(b: Block, j: nat, i: nat)
    requires DistinctIds(b) && j < |b.items| && i < |b.items|
    ensures b.items[j].node.id == b.items[i].node.id ==> i == j
    ensures b.items[j].Call? ==> DistinctIds(b.items[j].body)
  {
  }

  /** A colon-free target exists in the flat graph only as a plain node. */
  lemma {:induction false} RawTarget(b: Block, t: string)
    requires WellFormed(b) && ColonFree(t) && Has(FlatNodes(b), t)
    ensures IndexOf(b, t) < |b.items| && b.items[IndexOf(b, t)].Plain?
  {
    hide Flatten, RawIds, DistinctIds;
    var j, x := OriginOfId(b, t);
    if b.items[j].Call? {
      NamespacedHasColon(b.items[j].node.id, x);
    } else {
      ItemIsDistinct(b, j, IndexOf(b, t));
    }
  }

  /** A target inside a call exists in the flat graph only if it exists in the flat template. */
  lemma {:induction false} InnerTarget(b: Block, i: nat, x: string)
    requires WellFormed(b) && i < |b.items| && b.items[i].Call?
    requires Has(FlatNodes(b), Namespaced(b.items[i].node.id, x))
    ensures InlinedCall(b, i) && Has(Inner(b, i).nodes, x)
  {
    hide Flatten, RawIds, DistinctIds;
    var j, y := OriginOfId(b, Namespaced(b.items[i].node.id, x));
    ItemIsRaw(b, i);
    ItemIsRaw(b, j);
    NamespacedHasColon(b.items[i].node.id, x);
    if b.items[j].Call? {
      NamespacesDiffer(b.items[i].node.id, x, b.items[j].node.id, y);
      ItemIsDistinct(b, i, j);
    }
  }

  lemma {:induction false} PlainIsThere(b: Block, i: nat)
    requires WellFormed(b) && i < |b.items| && b.items[i].Plain?
    ensures RedirectNode(b.items[i].node, AllParts(b)) in FlatNodes(b)
  {
    hide Flatten, RedirectNode;
    FlatShape(b);
    PlainOfItems(b, |b.items|);
    var parts := AllParts(b);
    var k :| 0 <= k < |parts.plain| && parts.plain[k] == b.items[i].node;
    assert FlatNodes(b)[k] == RedirectNode(parts.plain[k], parts);
  }

  lemma {:induction false} CallIsFlattened(b: Block, i: nat)
    requires WellFormed(b) && i < |b.items| && b.items[i].Call?
    ensures InlinedCall(b, i) && WellFormed(b.items[i].body)
  {
    hide Flatten, RawIds, DistinctIds;
    FlatShape(b);
    CallsOfItems(b, |b.items|);
    ItemIsRaw(b, i);
    ItemIsDistinct(b, i, i);
  }

  lemma {:induction false} InlinedIsThere(b: Block, i: nat, x: NodeSpec)
    requires WellFormed(b) && i < |b.items| && b.items[i].Call? && InlinedCall(b, i) && x in Inner(b, i).nodes
    ensures ParamsWired(x, b.items[i].node) && Inline(x, b.items[i].node) in FlatNodes(b)
  {
    hide Flatten, Inline, ParamsWired;
    FlatShape(b);
    CallsOfItems(b, |b.items|);
    var parts := AllParts(b);
    var n := Inline(x, b.items[i].node);
    var k :| 0 <= k < |parts.inlined| && parts.inlined[k] == n;
    assert FlatNodes(b)[|parts.plain| + k] == n;
  }

  // ---------------------------------------------------------------- arriving

  ghost predicate ValidPlace(b: Block, place: Place)
    decreases b
  {
    && place != []
    && var i := IndexOf(b, place[0]);
       && i < |b.items|
       && match b.items[i]
          case Plain(_) => |place| == 1
          case Call(_, _, body) => ValidPlace(body, place[1..])
  }

  lemma {:induction false} ArrivalIsValid(b: Block, t: string)
    requires Arrive(b, t).Some?
    ensures ValidPlace(b, Arrive(b, t).value)
    decreases b
  {
    var i := IndexOf(b, t);
    match b.items[i]
    case Plain(_) =>
    case Call(_, _, body) =>
      ArrivalIsValid(body, body.entry);
      var inner := Arrive(body, body.entry).value;
      assert ([t] + inner)[1..] == inner;
  }

  lemma {:induction false} NameOfInner(id: string, inner: Place)
    requires inner != []
    ensures Name([id] + inner) == Namespaced(id, Name(inner))
  {
    assert ([id] + inner)[1..] == inner;
  }

  /** The compiler's redirection of a target is the flat name of where control arrives; it is missing from the
      flat graph exactly when control arrives nowhere. */
  lemma {:induction false} ArrivalIsRedirect(b: Block, t: string)
    requires WellFormed(b) && ColonFree(t)
    ensures var r := Redirected(AllParts(b).entries, t);
            match Arrive(b, t) case Some(place) => r == Name(place) case None => !Has(FlatNodes(b), r)
    decreases b
  {
    hide Flatten, RawIds, DistinctIds, Collected, ValidPlace;
    FlatShape(b);
    EntriesOfItems(b, |b.items|);
    var parts, r := AllParts(b), Redirected(AllParts(b).entries, t);
    var i := IndexOf(b, t);
    if i == |b.items| {
      assert t !in parts.entries;
      if Has(FlatNodes(b), t) { RawTarget(b, t); }
    } else {
      match b.items[i]
      case Plain(n) =>
        if t in parts.entries {
          var j :| 0 <= j < |b.items| && b.items[j].Call? && b.items[j].node.id == t;
          ItemIsDistinct(b, i, j);
        }
      case Call(n, _, body) =>
        CallIsFlattened(b, i);
        FlatShape(body);
        ItemIsRaw(b, i);
        EntryIsRaw(body);
        ArrivalIsRedirect(body, body.entry);
        if Arrive(body, body.entry).Some? {
          ArrivalIsValid(body, body.entry);
          PlaceIsNonEmpty(body, Arrive(body, body.entry).value);
          NameOfInner(t, Arrive(body, body.entry).value);
        } else if Has(FlatNodes(b), r) {
          InnerTarget(b, i, Inner(b, i).entry);
        }
    }
  }

  lemma {:induction false} EntryIsRaw(b: Block)
    requires RawIds(b)
    ensures ColonFree(b.entry)
  {
  }

  lemma {:induction false} PlaceIsNonEmpty(b: Block, place: Place)
    requires ValidPlace(b, place)
    ensures place != []
  {
  }

  // ---------------------------------------------------------------- one step

  /** The edges of the flat node `n` do, under label `l`, what `move` says; an edge that the compiler would
      reject as dangling is left out of account. */
  ghost predicate Matches(nodes: seq<NodeSpec>, n: NodeSpec, l: string, move: Move) {
    match move
    case Exit => n.edges == map[]
    case Halt => n.edges != map[] && l !in n.edges
    case Go(place) => l in n.edges && (Has(nodes, n.edges[l]) ==> n.edges[l] == Name(place))
    case Lost => l in n.edges && !Has(nodes, n.edges[l])
  }

  lemma {:induction false} PlainMatches(b: Block, i: nat, l: string)
    requires WellFormed(b) && i < |b.items| && b.items[i].Plain?
    ensures Matches(FlatNodes(b), RedirectNode(b.items[i].node, AllParts(b)), l, Leave(b, b.items[i].node, l))
  {
    hide Flatten, RawIds, DistinctIds, Collected, Name;
    var n := b.items[i].node;
    ItemIsRaw(b, i);
    if l in n.edges {
      ArrivalIsRedirect(b, n.edges[l]);
    }
  }

  /** An exit of a template carries the caller's edges as they were written. */
  lemma {:induction false} ExitMatches(b: Block, i: nat, x: NodeSpec, l: string)
    requires WellFormed(b) && i < |b.items| && b.items[i].Call? && ParamsWired(x, b.items[i].node) && x.edges == map[]
    ensures Matches(FlatNodes(b), Inline(x, b.items[i].node), l, Leave(b, b.items[i].node, l))
  {
    hide Flatten, RawIds, DistinctIds, Collected;
    var caller := b.items[i].node;
    ItemIsRaw(b, i);
    if l in caller.edges {
      var t := caller.edges[l];
      if Has(FlatNodes(b), t) {
        RawTarget(b, t);
        assert Arrive(b, t) == Some([t]);
      }
    }
  }

  /** A node inside a template that has edges keeps them, in the call's name space. */
  lemma {:induction false} InnerMatches(b: Block, i: nat, x: NodeSpec, l: string, move: Move)
    requires WellFormed(b) && i < |b.items| && b.items[i].Call? && InlinedCall(b, i)
    requires ParamsWired(x, b.items[i].node) && move != Exit && Matches(Inner(b, i).nodes, x, l, move)
    requires move.Go? ==> move.place != []
    ensures Matches(FlatNodes(b), Inline(x, b.items[i].node), l,
                    if move.Go? then Go([b.items[i].node.id] + move.place) else move)
  {
    hide Flatten, RawIds, DistinctIds, Collected, Name;
    var caller := b.items[i].node;
    var n := Inline(x, caller);
    assert x.edges != map[] by { if l !in x.edges { assert move.Halt?; } }
    assert n.edges == map m | m in x.edges :: Namespaced(caller.id, x.edges[m]);
    if l in x.edges {
      if Has(FlatNodes(b), n.edges[l]) { InnerTarget(b, i, x.edges[l]); }
      if move.Go? { NameOfInner(caller.id, move.place); }
    } else {
      var m :| m in x.edges;
      assert m in n.edges;
    }
  }

  /** Every place has its flat node, whose edges take the steps of the nested walk. */
  lemma {:induction false} FlatNodeOf(b: Block, place: Place) returns (n: NodeSpec)
    requires WellFormed(b) && ValidPlace(b, place)
    ensures n in FlatNodes(b) && n.id == Name(place)
    ensures forall l: string :: Matches(FlatNodes(b), n, l, Next(b, place, l))
    decreases b
  {
    hide Flatten, RawIds, DistinctIds, Collected, Matches, Inline, RedirectNode, ParamsWired;
    var i := IndexOf(b, place[0]);
    if b.items[i].Plain? {
      n := RedirectNode(b.items[i].node, AllParts(b));
      PlainIsThere(b, i);
      RedirectKeepsId(b.items[i].node, AllParts(b));
      forall l: string
        ensures Matches(FlatNodes(b), n, l, Next(b, place, l))
      {
        PlainMatches(b, i, l);
      }
    } else {
      var Call(caller, _, body) := b.items[i];
      CallIsFlattened(b, i);
      var x := FlatNodeOf(body, place[1..]);
      InlinedIsThere(b, i, x);
      n := Inline(x, caller);
      InlineNamesId(x, caller);
      PlaceIsNonEmpty(body, place[1..]);
      NameOfInner(place[0], place[1..]);
      assert place == [place[0]] + place[1..];
      forall l: string
        ensures Matches(FlatNodes(b), n, l, Next(b, place, l))
      {
        CallMatches(b, i, place, x, l);
      }
    }
  }

  lemma {:induction false} RedirectKeepsId(n: NodeSpec, parts: Parts)
    ensures RedirectNode(n, parts).id == n.id
  {
  }

  lemma {:induction false} InlineNamesId(x: NodeSpec, caller: NodeSpec)
    requires ParamsWired(x, caller)
    ensures Inline(x, caller).id == Namespaced(caller.id, x.id)
  {
  }

  lemma {:induction false} CallMatches(b: Block, i: nat, place: Place, x: NodeSpec, l: string)
    requires WellFormed(b) && ValidPlace(b, place) && i == IndexOf(b, place[0]) && b.items[i].Call? && InlinedCall(b, i)
    requires ParamsWired(x, b.items[i].node)
    requires Matches(Inner(b, i).nodes, x, l, Next(b.items[i].body, place[1..], l))
    ensures Matches(FlatNodes(b), Inline(x, b.items[i].node), l, Next(b, place, l))
  {
    hide Flatten, RawIds, DistinctIds, Collected, Inline, ParamsWired, FlatNodes;
    var body := b.items[i].body;
    var move := Next(body, place[1..], l);
    if move == Exit {
      ExitMatches(b, i, x, l);
    } else {
      if move.Go? { StepIsValid(body, place[1..], l); PlaceIsNonEmpty(body, move.place); }
      InnerMatches(b, i, x, l, move);
    }
  }

  lemma {:induction false} StepIsValid(b: Block, place: Place, l: string)
    requires ValidPlace(b, place) && Next(b, place, l).Go?
    ensures ValidPlace(b, Next(b, place, l).place)
    decreases b
  {
    var i := IndexOf(b, place[0]);
    match b.items[i]
    case Plain(n) => ArrivalIsValid(b, n.edges[l]);
    case Call(n, _, body) =>
      var move := Next(body, place[1..], l);
      if move.Go? {
        StepIsValid(body, place[1..], l);
        assert ([n.id] + move.place)[1..] == move.place;
      } else {
        ArrivalIsValid(b, n.edges[l]);
      }
  }

  // ---------------------------------------------------------------- the whole walk

  predicate UniqueIds(nodes: seq<NodeSpec>) {
    forall i, j | 0 <= i < j < |nodes| :: nodes[i].id != nodes[j].id
  }

  lemma {:induction false} NodeByIndex(nodes: seq<NodeSpec>, n: NodeSpec)
    requires UniqueIds(nodes) && n in nodes
    ensures NodeIndex(nodes, n.id) < |nodes| && nodes[NodeIndex(nodes, n.id)] == n
  {
    var k :| 0 <= k < |nodes| && nodes[k] == n;
    var i := NodeIndex(nodes, n.id);
    assert i < |nodes| && nodes[i].id == nodes[k].id;
  }

  function Names(places: seq<Place>): seq<string> {
    if places == [] then [] else [Name(places[0])] + Names(places[1..])
  }

  /** From any place, and for any choice of labels, the flat walk names the places of the nested walk. */
  lemma {:induction false} WalksAgree(b: Block, place: Place, labels: seq<string>)
    requires WellFormed(b) && ValidPlace(b, place)
    requires UniqueIds(FlatNodes(b)) && EdgesExist(FlatNodes(b))
    ensures FlatWalk(FlatNodes(b), Name(place), labels) == Names(NestedWalk(b, place, labels))
    decreases |labels|
  {
    hide RawIds, DistinctIds, Flatten, FlatNodes, ValidPlace, Name, UniqueIds, Next;
    assert Names([place]) == [Name(place)] by { assert Names([place][1..]) == []; }
    if labels != [] {
      var nodes := FlatNodes(b);
      var n := FlatNodeOf(b, place);
      NodeByIndex(nodes, n);
      var move := Next(b, place, labels[0]);
      assert Matches(nodes, n, labels[0], move);
      if move.Go? {
        StepIsValid(b, place, labels[0]);
        WalksAgree(b, move.place, labels[1..]);
        var rest := NestedWalk(b, move.place, labels[1..]);
        assert ([place] + rest)[1..] == rest;
      }
    }
  }

  /** Inlining preserves meaning: the flat graph starts where the nested flow starts and then walks as it does. */
  lemma {:induction false} InliningPreservesWalks(b: Block, labels: seq<string>)
    requires WellFormed(b)
    requires var flat := Flatten(b).value;
             UniqueIds(flat.nodes) && EdgesExist(flat.nodes) && Has(flat.nodes, flat.entry)
    ensures Arrive(b, b.entry).Some?
    ensures var flat := Flatten(b).value;
            FlatWalk(flat.nodes, flat.entry, labels) == Names(NestedWalk(b, Arrive(b, b.entry).value, labels))
  {
    hide RawIds, DistinctIds, Flatten, Collected;
    FlatShape(b);
    EntryIsRaw(b);
    ArrivalIsRedirect(b, b.entry);
    ArrivalIsValid(b, b.entry);
    WalksAgree(b, Arrive(b, b.entry).value, labels);
  }

  // ---------------------------------------------------------------- where the compiler does not help

  /** A call whose template has an exit cannot lead to another call: the exit keeps the id of a call that is gone,
      and the edge check rejects the graph. */
  lemma {:induction false} CallToCallIsRejected(b: Block, i: nat, l: string, x: NodeSpec)
    requires WellFormed(b) && i < |b.items| && b.items[i].Call? && InlinedCall(b, i)
    requires x in Inner(b, i).nodes && x.edges == map[]
    requires l in b.items[i].node.edges
    requires var j := IndexOf(b, b.items[i].node.edges[l]); j < |b.items| && b.items[j].Call?
    ensures !EdgesExist(FlatNodes(b))
  {
    hide Flatten, RawIds, DistinctIds, Collected;
    ItemIsRaw(b, i);
    InlinedIsThere(b, i, x);
    var nodes, n := FlatNodes(b), Inline(x, b.items[i].node);
    var k :| 0 <= k < |nodes| && nodes[k] == n;
    if Has(nodes, n.edges[l]) { RawTarget(b, n.edges[l]); }
  }

  lemma {:induction false} CallsAreRedirected(b: Block, k: nat, j: nat)
    requires k <= |b.items| && Collected(b, k).Ok? && j < k && b.items[j].Call?
    ensures var id := b.items[j].node.id;
            var entries := Collected(b, k).value.entries;
            id in entries && exists e: string :: entries[id] == Namespaced(id, e)
    decreases k
  {
    hide Flatten, InlineAll, AddOutputs;
    if j < k - 1 {
      CallsAreRedirected(b, k - 1, j);
    }
  }

  /** A plain node and a call may share an id: the compiler compares flat ids, and theirs differ. Edges of plain
      nodes to that id then all lead into the call, past the plain node that is also there. */
  lemma {:induction false} SharedIdHidesPlainNode(b: Block, i: nat, j: nat, k: nat, l: string)
    requires RawIds(b) && Flatten(b).Ok?
    requires i < |b.items| && b.items[i].Plain? && j < |b.items| && b.items[j].Call?
    requires b.items[i].node.id == b.items[j].node.id
    requires k < |b.items| && b.items[k].Plain? && l in b.items[k].node.edges
    requires b.items[k].node.edges[l] == b.items[i].node.id
    ensures Has(FlatNodes(b), b.items[i].node.id)
    ensures RedirectNode(b.items[k].node, AllParts(b)) in FlatNodes(b)
    ensures RedirectNode(b.items[k].node, AllParts(b)).edges[l] != b.items[i].node.id
  {
    hide Flatten, RawIds;
    FlatShape(b);
    var parts, nodes := AllParts(b), FlatNodes(b);
    PlainOfItems(b, |b.items|);
    CallsAreRedirected(b, |b.items|, j);
    var e: string :| parts.entries[b.items[j].node.id] == Namespaced(b.items[j].node.id, e);
    var m :| 0 <= m < |parts.plain| && parts.plain[m] == b.items[i].node;
    assert nodes[m].id == b.items[i].node.id;
    var n :| 0 <= n < |parts.plain| && parts.plain[n] == b.items[k].node;
    assert nodes[n] == RedirectNode(b.items[k].node, parts);
    assert |Namespaced(b.items[j].node.id, e)| > |b.items[j].node.id|;
  }
}
