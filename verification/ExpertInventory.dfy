/** The inventory of all experts: which inputs are accepted, and what is listed for them. */
module ExpertInventory {
  import opened Trace
  import opened ExpertLayout

  type Layer = map<string, ExpertTensor>

  predicate AllDistinct<T(==)>(xs: seq<T>) {
    forall i, j :: 0 <= i < j < |xs| ==> xs[i] != xs[j]
  }

  /** Every tensor is sane on its own and no layer has a component twice. */
  ghost predicate SourceOk(source: seq<ExpertTensor>) {
    && (forall i :: 0 <= i < |source| ==> Sane(source[i]))
    && (forall i, j :: 0 <= i < j < |source| ==>
      source[i].layer != source[j].layer || source[i].component != source[j].component)
  }

  /** The grouped tensors are exactly the listed ones. */
  ghost predicate Groups(byLayer: map<nat, Layer>, source: seq<ExpertTensor>) {
    && (forall i :: 0 <= i < |source| ==> source[i].layer in byLayer && source[i].component in byLayer[source[i].layer])
    && (forall i :: 0 <= i < |source| ==>
      source[i].layer in byLayer && source[i].component in byLayer[source[i].layer] &&
      byLayer[source[i].layer][source[i].component] == source[i])
    && (forall layer :: layer in byLayer ==> byLayer[layer] != map[])
    && (forall layer, c :: layer in byLayer && c in byLayer[layer] ==>
      byLayer[layer][c] in source && byLayer[layer][c].layer == layer && byLayer[layer][c].component == c)
  }

  method GroupByLayer(source: seq<ExpertTensor>) returns (byLayer: Option<map<nat, Layer>>)
    ensures byLayer.Some? <==> SourceOk(source)
    ensures byLayer.Some? ==> Groups(byLayer.value, source)
  {
    hide Sane;
    var groups: map<nat, Layer> := map[];
    var i := 0;
    while i < |source|
      invariant 0 <= i <= |source| && SourceOk(source[..i]) && Groups(groups, source[..i])
    {
      var t := source[i];
      if !Sane(t) {
        return None;
      }
      var layer: Layer := if t.layer in groups then groups[t.layer] else map[];
      if t.component in layer {
        Repeated(groups, source, i);
        return None;
      }
      GroupsSnoc(groups, source, i, layer);
      groups := groups[t.layer := layer[t.component := t]];
      i := i + 1;
    }
    assert source[..i] == source;
    byLayer := Some(groups);
  }

  lemma {:induction false} Repeated(groups: map<nat, Layer>, source: seq<ExpertTensor>, i: nat)
    requires i < |source| && Groups(groups, source[..i])
    requires source[i].layer in groups && source[i].component in groups[source[i].layer]
    ensures !SourceOk(source)
  {
    var u := groups[source[i].layer][source[i].component];
    assert u in source[..i];
    var j :| 0 <= j < i && source[..i][j] == u;
    assert source[j] == u;
  }

  lemma {:induction false} GroupsSnoc(groups: map<nat, Layer>, source: seq<ExpertTensor>, i: nat, layer: Layer)
    requires i < |source| && SourceOk(source[..i]) && Groups(groups, source[..i]) && Sane(source[i])
    requires layer == if source[i].layer in groups then groups[source[i].layer] else map[]
    requires source[i].component !in layer
    ensures SourceOk(source[..i + 1])
    ensures Groups(groups[source[i].layer := layer[source[i].component := source[i]]], source[..i + 1])
  {
    hide Sane;
    var t := source[i];
    var more := groups[t.layer := layer[t.component := t]];
    var all := source[..i + 1];
    assert all == source[..i] + [t];
    forall j | 0 <= j < i
      ensures source[j].layer != t.layer || source[j].component != t.component
    {
      assert source[..i][j] == source[j];
    }
    forall j | 0 <= j < |all|
      ensures all[j].layer in more && all[j].component in more[all[j].layer]
        && more[all[j].layer][all[j].component] == all[j]
    {
      if j < i {
        assert source[..i][j] == all[j];
      }
    }
    forall l, c | l in more && c in more[l]
      ensures more[l][c] in all && more[l][c].layer == l && more[l][c].component == c
    {
      if l != t.layer || c != t.component {
        assert l in groups && c in groups[l];
      }
    }
    forall l | l in more
      ensures more[l] != map[]
    {
      if l == t.layer {
        assert t.component in more[l];
      }
    }
  }

  // ---- Sorted layers ----

  predicate Increasing(ids: seq<nat>) {
    forall i, j :: 0 <= i < j < |ids| ==> ids[i] < ids[j]
  }

  method Sorted(ids: set<nat>) returns (sorted: seq<nat>)
    ensures Increasing(sorted) && forall id :: id in sorted <==> id in ids
  {
    sorted := [];
    var rest := ids;
    while rest != {}
      invariant Increasing(sorted) && rest <= ids
      invariant forall id :: id in ids <==> id in sorted || id in rest
      invariant forall i, b :: 0 <= i < |sorted| && b in rest ==> sorted[i] < b
      decreases |rest|
    {
      var least := Least(rest);
      rest := rest - {least};
      sorted := sorted + [least];
    }
  }

  method Least(ids: set<nat>) returns (least: nat)
    requires ids != {}
    ensures least in ids && forall id :: id in ids ==> least <= id
  {
    least :| least in ids;
    var rest := ids - {least};
    while rest != {}
      invariant least in ids && rest <= ids
      invariant forall id :: id in ids && id !in rest ==> least <= id
      decreases |rest|
    {
      var id :| id in rest;
      rest := rest - {id};
      if id < least {
        least := id;
      }
    }
  }

  // ---- The inventory ----

  datatype Request = Request(
    source: seq<ExpertTensor>,
    alignment: int,
    matrix: int,
    order: seq<string>,
    targets: seq<nat>,
    capacity: int)

  datatype Inventory = Inventory(layers: seq<nat>, experts: nat, objects: seq<Packed>, slotBytes: nat, cacheBytes: nat)

  predicate Positive(r: Request) {
    r.alignment > 0 && r.matrix > 0 && r.capacity > 0
  }

  ghost predicate RequestOk(r: Request) {
    && r.source != [] && Positive(r)
    && r.order != [] && AllDistinct(r.order)
    && r.targets != [] && AllDistinct(r.targets)
    && SourceOk(r.source)
    && (forall t :: t in r.targets ==> exists i :: 0 <= i < |r.source| && r.source[i].layer == t)
    && (forall i :: 0 <= i < |r.source| ==> r.source[i].expertCount == r.source[0].expertCount)
    && (forall i :: 0 <= i < |r.source| ==> r.source[i].component in r.order)
    && (forall i, c :: 0 <= i < |r.source| && c in r.order ==> HasComponent(r.source, r.source[i].layer, c))
    && Paddable(r.source, r.matrix)
  }

  predicate HasComponent(source: seq<ExpertTensor>, layer: nat, c: string) {
    exists i :: 0 <= i < |source| && source[i].layer == layer && source[i].component == c
  }

  /** The tensors of a layer in the declared order of components. */
  ghost predicate IsRow(source: seq<ExpertTensor>, layer: nat, order: seq<string>, row: seq<ExpertTensor>) {
    && |row| == |order|
    && forall i :: 0 <= i < |order| ==> row[i] in source && row[i].layer == layer && row[i].component == order[i]
  }

  /** A layer has one row at most. */
  lemma {:induction false} RowUnique(source: seq<ExpertTensor>, layer: nat, order: seq<string>, a: seq<ExpertTensor>,
                                     b: seq<ExpertTensor>)
    requires SourceOk(source) && IsRow(source, layer, order, a) && IsRow(source, layer, order, b)
    ensures a == b
  {
    hide Sane;
    forall i | 0 <= i < |order|
      ensures a[i] == b[i]
    {
      var j :| 0 <= j < |source| && source[j] == a[i];
      var k :| 0 <= k < |source| && source[k] == b[i];
    }
  }

  /** The object at place n describes expert n % experts of layer n / experts. */
  ghost predicate ObjectOk(r: Request, layers: seq<nat>, experts: nat, n: nat, o: Packed)
    requires Positive(r) && experts > 0
  {
    && n / experts < |layers|
    && exists row :: IsRow(r.source, layers[n / experts], r.order, row) && AllCounted(row)
                     && PackedOk(row, layers[n / experts], n % experts, r.alignment, r.matrix, o)
  }

  ghost predicate InventoryOk(r: Request, inv: Inventory)
    requires Positive(r)
  {
    && Increasing(inv.layers) && (forall layer :: layer in inv.layers <==>
      exists i :: 0 <= i < |r.source| && r.source[i].layer == layer)
    && r.source != [] && inv.experts == r.source[0].expertCount > 0 && |inv.objects| == |inv.layers| * inv.experts
    && (forall n :: 0 <= n < |inv.objects| ==> ObjectOk(r, inv.layers, inv.experts, n, inv.objects[n]))
    && (forall n :: 0 <= n < |inv.objects| ==> inv.objects[n].slotBytes <= inv.slotBytes)
    && (exists n :: 0 <= n < |inv.objects| && inv.objects[n].slotBytes == inv.slotBytes)
    && inv.cacheBytes == inv.slotBytes * |r.targets| * r.capacity
  }

  /** The checks on the grouped tensors. */
  predicate GroupsOk(r: Request, byLayer: map<nat, Layer>)
    requires r.source != []
  {
    && (forall i :: 0 <= i < |r.targets| ==> r.targets[i] in byLayer)
    && (forall i :: 0 <= i < |r.source| ==> r.source[i].expertCount == r.source[0].expertCount)
    && (forall l :: l in byLayer ==> byLayer[l].Keys == set i | 0 <= i < |r.order| :: r.order[i])
  }

  /** What the checks mean for the listed tensors. */
  ghost predicate LayersComplete(r: Request)
  {
    && (forall t :: t in r.targets ==> exists i :: 0 <= i < |r.source| && r.source[i].layer == t)
    && (forall i :: 0 <= i < |r.source| ==> r.source[i].expertCount == r.source[0].expertCount)
    && (forall i :: 0 <= i < |r.source| ==> r.source[i].component in r.order)
    && (forall i, c :: 0 <= i < |r.source| && c in r.order ==> HasComponent(r.source, r.source[i].layer, c))
  }

  lemma {:induction false} LayerListed(byLayer: map<nat, Layer>, source: seq<ExpertTensor>, layer: nat)
    requires Groups(byLayer, source)
    ensures layer in byLayer <==> exists i :: 0 <= i < |source| && source[i].layer == layer
  {
    if layer in byLayer {
      var c :| c in byLayer[layer];
      var t := byLayer[layer][c];
      assert t in source;
      var i :| 0 <= i < |source| && source[i] == t;
    }
  }

  lemma {:induction false} ComponentListed(byLayer: map<nat, Layer>, source: seq<ExpertTensor>, layer: nat, c: string)
    requires Groups(byLayer, source) && layer in byLayer
    ensures c in byLayer[layer] <==> HasComponent(source, layer, c)
  {
    if c in byLayer[layer] {
      var t := byLayer[layer][c];
      assert t in source;
      var i :| 0 <= i < |source| && source[i] == t;
    }
  }

  lemma {:induction false} ChecksExact(r: Request, byLayer: map<nat, Layer>)
    requires r.source != [] && Groups(byLayer, r.source)
    ensures GroupsOk(r, byLayer) <==> LayersComplete(r)
  {
    hide HasComponent, Groups;
    forall l
      ensures l in byLayer <==> exists i :: 0 <= i < |r.source| && r.source[i].layer == l
    {
      LayerListed(byLayer, r.source, l);
    }
    forall l, c | l in byLayer
      ensures c in byLayer[l] <==> HasComponent(r.source, l, c)
    {
      ComponentListed(byLayer, r.source, l, c);
    }
    var names := set i | 0 <= i < |r.order| :: r.order[i];
    assert forall c :: c in names <==> c in r.order;
    TargetsExact(r, byLayer);
    NamesExact(r, byLayer, names);
  }

  lemma {:induction false} TargetsExact(r: Request, byLayer: map<nat, Layer>)
    requires forall l :: l in byLayer <==> exists i :: 0 <= i < |r.source| && r.source[i].layer == l
    ensures (forall i :: 0 <= i < |r.targets| ==> r.targets[i] in byLayer)
       <==> (forall t :: t in r.targets ==> exists i :: 0 <= i < |r.source| && r.source[i].layer == t)
  {
    if forall t :: t in r.targets ==> exists i :: 0 <= i < |r.source| && r.source[i].layer == t {
      forall i | 0 <= i < |r.targets|
        ensures r.targets[i] in byLayer
      {
        var t := r.targets[i];
        assert t in r.targets;
      }
    }
  }

  lemma {:induction false} NamesExact(r: Request, byLayer: map<nat, Layer>, names: set<string>)
    requires Groups(byLayer, r.source)
    requires forall l, c :: l in byLayer ==> (c in byLayer[l] <==> HasComponent(r.source, l, c))
    requires forall c :: c in names <==> c in r.order
    ensures (forall l :: l in byLayer ==> byLayer[l].Keys == names)
       <==> ((forall i :: 0 <= i < |r.source| ==> r.source[i].component in r.order)
             && (forall i, c :: 0 <= i < |r.source| && c in r.order ==> HasComponent(r.source, r.source[i].layer, c)))
  {
    hide HasComponent;
    if forall l :: l in byLayer ==> byLayer[l].Keys == names {
      forall i | 0 <= i < |r.source|
        ensures r.source[i].component in r.order
      {
        assert r.source[i].component in byLayer[r.source[i].layer];
      }
    }
    if (forall i :: 0 <= i < |r.source| ==> r.source[i].component in r.order)
       && (forall i, c :: 0 <= i < |r.source| && c in r.order ==> HasComponent(r.source, r.source[i].layer, c)) {
      forall l | l in byLayer
        ensures byLayer[l].Keys == names
      {
        KeysAre(r, byLayer, names, l);
      }
    }
  }

  lemma {:induction false} KeysAre(r: Request, byLayer: map<nat, Layer>, names: set<string>, l: nat)
    requires Groups(byLayer, r.source) && l in byLayer
    requires forall c :: c in byLayer[l] <==> HasComponent(r.source, l, c)
    requires forall c :: c in names <==> c in r.order
    requires forall i :: 0 <= i < |r.source| ==> r.source[i].component in r.order
    requires forall i, c :: 0 <= i < |r.source| && c in r.order ==> HasComponent(r.source, r.source[i].layer, c)
    ensures byLayer[l].Keys == names
  {
    hide HasComponent;
    LayerListed(byLayer, r.source, l);
    hide Groups;
    var i :| 0 <= i < |r.source| && r.source[i].layer == l;
    forall c
      ensures c in byLayer[l] <==> c in names
    {
      if c in byLayer[l] {
        ComponentNamed(r.source, l, c);
      }
    }
  }

  lemma {:induction false} ComponentNamed(source: seq<ExpertTensor>, layer: nat, c: string)
    requires HasComponent(source, layer, c)
    ensures exists i :: 0 <= i < |source| && source[i].component == c
  {
  }

  function Row(layer: Layer, order: seq<string>): (row: seq<ExpertTensor>)
    requires forall i :: 0 <= i < |order| ==> order[i] in layer
    ensures |row| == |order|
  {
    seq(|order|, i requires 0 <= i < |order| => layer[order[i]])
  }

  lemma {:induction false} MemberFacts(r: Request, byLayer: map<nat, Layer>, layer: nat, c: string)
    requires r.source != [] && Groups(byLayer, r.source) && layer in byLayer && c in byLayer[layer]
    ensures byLayer[layer][c] in r.source && byLayer[layer][c].layer == layer && byLayer[layer][c].component == c
    ensures SourceOk(r.source) ==> Sane(byLayer[layer][c])
    ensures GroupsOk(r, byLayer) ==> byLayer[layer][c].expertCount == r.source[0].expertCount
  {
    hide Sane;
    var t := byLayer[layer][c];
    assert t in r.source;
    var j :| 0 <= j < |r.source| && r.source[j] == t;
  }

  lemma {:induction false} OrderedComponents(r: Request, byLayer: map<nat, Layer>, layer: nat)
    requires r.source != [] && GroupsOk(r, byLayer) && layer in byLayer
    ensures forall i :: 0 <= i < |r.order| ==> r.order[i] in byLayer[layer]
  {
    forall i | 0 <= i < |r.order|
      ensures r.order[i] in byLayer[layer]
    {
      assert r.order[i] in byLayer[layer].Keys;
    }
  }

  /** The row that the checks guarantee for every layer. */
  lemma {:induction false} RowOfLayer(r: Request, byLayer: map<nat, Layer>, layer: nat)
    requires r.source != [] && SourceOk(r.source) && Groups(byLayer, r.source) && GroupsOk(r, byLayer)
    requires layer in byLayer
    ensures forall i :: 0 <= i < |r.order| ==> r.order[i] in byLayer[layer]
    ensures IsRow(r.source, layer, r.order, Row(byLayer[layer], r.order))
    ensures forall i :: 0 <= i < |r.order| ==> Sane(Row(byLayer[layer], r.order)[i])
    ensures forall i :: 0 <= i < |r.order| ==> Row(byLayer[layer], r.order)[i].expertCount == r.source[0].expertCount
  {
    hide Sane, Groups, GroupsOk, SourceOk;
    OrderedComponents(r, byLayer, layer);
    var row := Row(byLayer[layer], r.order);
    forall i | 0 <= i < |r.order|
      ensures row[i] in r.source && row[i].layer == layer && row[i].component == r.order[i]
      ensures Sane(row[i]) && row[i].expertCount == r.source[0].expertCount
    {
      MemberFacts(r, byLayer, layer, r.order[i]);
    }
  }

  /** Every listed tensor is in the row of its layer. */
  lemma {:induction false} RowsCover(r: Request, byLayer: map<nat, Layer>, i: nat) returns (k: nat)
    requires r.source != [] && SourceOk(r.source) && Groups(byLayer, r.source) && GroupsOk(r, byLayer) && i < |r.source|
    ensures r.source[i].layer in byLayer && k < |r.order|
    ensures forall j :: 0 <= j < |r.order| ==> r.order[j] in byLayer[r.source[i].layer]
    ensures Row(byLayer[r.source[i].layer], r.order)[k] == r.source[i]
  {
    hide Sane;
    var t := r.source[i];
    RowOfLayer(r, byLayer, t.layer);
    assert t.component in byLayer[t.layer].Keys;
    k :| 0 <= k < |r.order| && r.order[k] == t.component;
  }

  /** An unpaddable row refuses the request. */
  lemma {:induction false} UnpaddableRow(r: Request, row: seq<ExpertTensor>, layer: nat)
    requires r.matrix > 0 && IsRow(r.source, layer, r.order, row) && !Paddable(row, r.matrix)
    ensures !Paddable(r.source, r.matrix)
  {
    hide RowPadding;
    var i :| 0 <= i < |row| && RowPadding(row[i], r.matrix).None?;
    assert row[i] in r.source;
    var j :| 0 <= j < |r.source| && r.source[j] == row[i];
  }

  /** The checks before any packing. */
  predicate Checked(r: Request) {
    && r.source != [] && Positive(r)
    && r.order != [] && AllDistinct(r.order)
    && r.targets != [] && AllDistinct(r.targets)
  }

  ghost predicate PackedRow(r: Request, layer: nat, expert: nat, o: Packed)
    requires Positive(r)
  {
    exists row :: IsRow(r.source, layer, r.order, row) && AllCounted(row)
      && PackedOk(row, layer, expert, r.alignment, r.matrix, o)
  }

  /** All experts of one layer, in order. */
  method PackLayer(r: Request, layer: nat, row: seq<ExpertTensor>, experts: nat) returns (objects: Option<seq<Packed>>)
    requires Positive(r) && experts > 0 && IsRow(r.source, layer, r.order, row)
    requires forall i :: 0 <= i < |row| ==> Sane(row[i]) && row[i].expertCount == experts
    ensures objects.Some? <==> Paddable(row, r.matrix)
    ensures objects.Some? ==> |objects.value| == experts
    ensures objects.Some? ==> forall e :: 0 <= e < experts ==> PackedRow(r, layer, e, objects.value[e])
  {
    hide PackedOk, Paddable, IsRow;
    assert AllCounted(row);
    var packed: seq<Packed> := [];
    var e := 0;
    while e < experts
      invariant 0 <= e <= experts && |packed| == e
      invariant e > 0 ==> Paddable(row, r.matrix)
      invariant forall j :: 0 <= j < e ==> PackedRow(r, layer, j, packed[j])
    {
      var o := PackExpert(row, layer, e, r.alignment, r.matrix);
      if o.None? {
        return None;
      }
      packed := packed + [o.value];
      e := e + 1;
    }
    objects := Some(packed);
  }

  /** When every layer's row can be padded, every listed tensor can. */
  lemma {:induction false} AllPaddable(r: Request, byLayer: map<nat, Layer>, layers: seq<nat>)
    requires r.source != [] && r.matrix > 0 && SourceOk(r.source) && Groups(byLayer, r.source) && GroupsOk(r, byLayer)
    requires forall id :: id in layers <==> id in byLayer
    requires forall k :: 0 <= k < |layers| ==> RowPaddable(r, byLayer, layers[k])
    ensures Paddable(r.source, r.matrix)
  {
    hide RowPadding, Sane, Groups, GroupsOk, SourceOk;
    forall i | 0 <= i < |r.source|
      ensures RowPadding(r.source[i], r.matrix).Some?
    {
      var k := RowsCover(r, byLayer, i);
      var layer := r.source[i].layer;
      assert layer in layers;
      var n :| 0 <= n < |layers| && layers[n] == layer;
      assert RowPaddable(r, byLayer, layers[n]);
    }
  }

  predicate RowPaddable(r: Request, byLayer: map<nat, Layer>, layer: nat)
    requires r.matrix > 0
  {
    && layer in byLayer && (forall i :: 0 <= i < |r.order| ==> r.order[i] in byLayer[layer])
    && Paddable(Row(byLayer[layer], r.order), r.matrix)
  }

  /** The objects of the first k layers. */
  ghost predicate Listed(r: Request, layers: seq<nat>, experts: nat, k: nat, objects: seq<Packed>)
    requires Positive(r) && k <= |layers|
  {
    && |objects| == k * experts
    && forall j, e :: 0 <= j < k && 0 <= e < experts ==> ListedAt(r, layers, experts, j, e, objects)
  }

  ghost predicate ListedAt(r: Request, layers: seq<nat>, experts: nat, j: nat, e: nat, objects: seq<Packed>)
    requires Positive(r) && j < |layers|
  {
    j * experts + e < |objects| && PackedRow(r, layers[j], e, objects[j * experts + e])
  }

  lemma {:induction false} ListedSnoc(r: Request, layers: seq<nat>, experts: nat, k: nat, objects: seq<Packed>,
                                      more: seq<Packed>)
    requires Positive(r) && k < |layers| && Listed(r, layers, experts, k, objects) && |more| == experts
    requires forall e :: 0 <= e < experts ==> PackedRow(r, layers[k], e, more[e])
    ensures Listed(r, layers, experts, k + 1, objects + more)
  {
    hide PackedRow;
    assert (k + 1) * experts == k * experts + experts;
    forall j, e | 0 <= j < k + 1 && 0 <= e < experts
      ensures ListedAt(r, layers, experts, j, e, objects + more)
    {
      if j < k {
        assert ListedAt(r, layers, experts, j, e, objects);
      }
    }
  }

  lemma {:induction false} ListedObjects(r: Request, layers: seq<nat>, experts: nat, objects: seq<Packed>)
    requires Positive(r) && experts > 0 && Listed(r, layers, experts, |layers|, objects)
    ensures forall n :: 0 <= n < |objects| ==> ObjectOk(r, layers, experts, n, objects[n])
  {
    hide PackedOk, IsRow;
    forall n | 0 <= n < |objects|
      ensures ObjectOk(r, layers, experts, n, objects[n])
    {
      var j, e := n / experts, n % experts;
      assert n == j * experts + e;
      if j >= |layers| {
        if j > |layers| {
          MultipleGap(|layers|, j, experts);
        }
      }
      assert ListedAt(r, layers, experts, j, e, objects);
    }
  }

  method LargestSlot(objects: seq<Packed>) returns (largest: nat)
    requires objects != []
    ensures forall n :: 0 <= n < |objects| ==> objects[n].slotBytes <= largest
    ensures exists n :: 0 <= n < |objects| && objects[n].slotBytes == largest
  {
    largest := objects[0].slotBytes;
    var i := 1;
    while i < |objects|
      invariant 1 <= i <= |objects|
      invariant forall n :: 0 <= n < i ==> objects[n].slotBytes <= largest
      invariant exists n :: 0 <= n < i && objects[n].slotBytes == largest
    {
      if objects[i].slotBytes > largest {
        largest := objects[i].slotBytes;
      }
      i := i + 1;
    }
  }

  /** Accepts exactly the well-formed requests, and lists every expert of every layer once. */
  method BuildInventory(r: Request) returns (inv: Option<Inventory>)
    ensures inv.Some? <==> RequestOk(r)
    ensures inv.Some? ==> InventoryOk(r, inv.value)
  {
    hide SourceOk, Groups, GroupsOk, LayersComplete, AllDistinct, Paddable, PackedRow, IsRow, Listed, Row, Sane,
      RequestOk, InventoryOk;
    RequestParts(r);
    if !Checked(r) {
      return None;
    }
    var groups := GroupByLayer(r.source);
    if groups.None? {
      return None;
    }
    var byLayer := groups.value;
    ChecksExact(r, byLayer);
    if !GroupsOk(r, byLayer) {
      return None;
    }
    var layers := Sorted(byLayer.Keys);
    var experts := r.source[0].expertCount;
    FirstTensor(r, byLayer);
    var objects: seq<Packed> := [];
    ListedNothing(r, layers, experts);
    var k := 0;
    while k < |layers|
      invariant 0 <= k <= |layers| && Listed(r, layers, experts, k, objects)
      invariant forall j :: 0 <= j < k ==> RowPaddable(r, byLayer, layers[j])
    {
      assert layers[k] in layers;
      RowOfLayer(r, byLayer, layers[k]);
      var row := Row(byLayer[layers[k]], r.order);
      var more := PackLayer(r, layers[k], row, experts);
      if more.None? {
        UnpaddableRow(r, row, layers[k]);
        return None;
      }
      ListedSnoc(r, layers, experts, k, objects, more.value);
      objects := objects + more.value;
      k := k + 1;
    }
    AllPaddable(r, byLayer, layers);
    LayersAre(r, byLayer, layers, experts, objects);
    var slotBytes := LargestSlot(objects);
    inv := Some(Inventory(layers, experts, objects, slotBytes, slotBytes * |r.targets| * r.capacity));
    Assembled(r, inv.value);
  }

  lemma {:induction false} Assembled(r: Request, inv: Inventory)
    requires Positive(r) && r.source != [] && Listed(r, inv.layers, inv.experts, |inv.layers|, inv.objects)
    requires Increasing(inv.layers) && inv.experts == r.source[0].expertCount > 0
    requires forall layer :: layer in inv.layers <==> exists i :: 0 <= i < |r.source| && r.source[i].layer == layer
    requires forall n :: 0 <= n < |inv.objects| ==> inv.objects[n].slotBytes <= inv.slotBytes
    requires exists n :: 0 <= n < |inv.objects| && inv.objects[n].slotBytes == inv.slotBytes
    requires inv.cacheBytes == inv.slotBytes * |r.targets| * r.capacity
    ensures InventoryOk(r, inv)
  {
    hide ObjectOk, ListedAt;
    ListedObjects(r, inv.layers, inv.experts, inv.objects);
  }

  lemma {:induction false} RequestParts(r: Request)
    ensures RequestOk(r) <==> Checked(r) && SourceOk(r.source) && LayersComplete(r) && Paddable(r.source, r.matrix)
  {
    hide SourceOk, AllDistinct, Paddable, HasComponent;
  }

  lemma {:induction false} FirstTensor(r: Request, byLayer: map<nat, Layer>)
    requires r.source != [] && SourceOk(r.source) && Groups(byLayer, r.source)
    ensures r.source[0].expertCount > 0 && r.source[0].layer in byLayer
  {
  }

  lemma {:induction false} ListedNothing(r: Request, layers: seq<nat>, experts: nat)
    requires Positive(r)
    ensures Listed(r, layers, experts, 0, [])
  {
  }

  lemma {:induction false} LayersAre(r: Request, byLayer: map<nat, Layer>, layers: seq<nat>, experts: nat,
                                     objects: seq<Packed>)
    requires Positive(r) && r.source != [] && Groups(byLayer, r.source) && experts > 0
    requires forall id :: id in layers <==> id in byLayer
    requires Listed(r, layers, experts, |layers|, objects)
    ensures forall layer :: layer in layers <==> exists i :: 0 <= i < |r.source| && r.source[i].layer == layer
    ensures |objects| == |layers| * experts && objects != []
  {
    hide Groups, ListedAt;
    forall l
      ensures l in byLayer <==> exists i :: 0 <= i < |r.source| && r.source[i].layer == l
    {
      LayerListed(byLayer, r.source, l);
    }
    assert r.source[0].layer in layers;
    assert |layers| * experts >= 1 * experts by {
      if |layers| > 1 {
        MultipleGap(1, |layers|, experts);
      }
    }
  }

  // ---- One slot size per layer ----

  /** Within a layer every expert has the same slot size and encoded size. */
  lemma {:induction false} OneSizePerLayer(r: Request, layer: nat, a: nat, b: nat, o: Packed, p: Packed)
    requires Positive(r) && SourceOk(r.source)
    requires PackedRow(r, layer, a, o) && PackedRow(r, layer, b, p)
    ensures o.slotBytes == p.slotBytes && o.encoded == p.encoded && o.endPadding == p.endPadding
  {
    hide PackedOk, IsRow, SourceOk;
    var x :| IsRow(r.source, layer, r.order, x) && AllCounted(x) && PackedOk(x, layer, a, r.alignment, r.matrix, o);
    var y :| IsRow(r.source, layer, r.order, y) && AllCounted(y) && PackedOk(y, layer, b, r.alignment, r.matrix, p);
    RowUnique(r.source, layer, r.order, x, y);
    SlotsDoNotDependOnExpert(x, layer, a, b, r.alignment, r.matrix, o, p);
  }

  // ---- Every byte once ----

  /** Component k of object n is read from this tensor, and the byte is in its source span. */
  predicate Reads(inv: Inventory, n: nat, k: nat, t: ExpertTensor, byte: nat) {
    && n < |inv.objects| && k < |inv.objects[n].components|
    && inv.objects[n].layer == t.layer
    && var p := inv.objects[n].components[k]; p.component == t.component && p.sourceStart <= byte < p.sourceEnd
  }

  /** Place n describes expert `e` of layer j. */
  lemma {:induction false} PlaceOf(n: nat, layers: nat, experts: nat) returns (j: nat, e: nat)
    requires experts > 0 && n < layers * experts
    ensures j < layers && e < experts && n == j * experts + e && n / experts == j && n % experts == e
  {
    j, e := n / experts, n % experts;
    assert n == j * experts + e;
    if j > layers {
      MultipleGap(layers, j, experts);
    }
  }

  lemma {:induction false} PlaceIs(j: nat, e: nat, layers: nat, experts: nat) returns (n: nat)
    requires j < layers && e < experts
    ensures n == j * experts + e < layers * experts && n / experts == j && n % experts == e
  {
    n := j * experts + e;
    DivisionUnique(n, experts, j, e);
    MultipleGap(j, layers, experts);
  }

  lemma {:induction false} ObjectAt(r: Request, inv: Inventory, n: nat, j: nat, e: nat)
    requires Positive(r) && InventoryOk(r, inv) && n < |inv.objects| && n / inv.experts == j && n % inv.experts == e
    ensures j < |inv.layers| && PackedRow(r, inv.layers[j], e, inv.objects[n])
  {
    hide PackedOk, IsRow;
    assert ObjectOk(r, inv.layers, inv.experts, n, inv.objects[n]);
  }

  /** The tensor that component k of an object is read from, and where. */
  lemma {:induction false} ComponentOf(r: Request, layer: nat, e: nat, o: Packed, k: nat) returns (t: ExpertTensor)
    requires Positive(r) && PackedRow(r, layer, e, o) && k < |r.order|
    ensures |o.components| == |r.order| && o.layer == layer && o.expert == e
    ensures t in r.source && t.layer == layer && t.component == r.order[k] && t.expertCount > 0
    ensures o.components[k].component == t.component && o.components[k].sourceStart == SpanStart(t, e)
    ensures o.components[k].sourceEnd == SpanStart(t, e) + PerExpert(t)
  {
    hide RowPadding, IsAligned, PerExpert;
    var row :| IsRow(r.source, layer, r.order, row) && AllCounted(row)
      && PackedOk(row, layer, e, r.alignment, r.matrix, o);
    t := row[k];
    assert PlacedOk(t, e, r.alignment, r.matrix, EndBefore(o.components, k), o.components[k]);
  }

  lemma {:induction false} TensorUnique(source: seq<ExpertTensor>, a: ExpertTensor, b: ExpertTensor)
    requires SourceOk(source) && a in source && b in source && a.layer == b.layer && a.component == b.component
    ensures a == b && Sane(a)
  {
    hide Sane;
    var i :| 0 <= i < |source| && source[i] == a;
    var j :| 0 <= j < |source| && source[j] == b;
  }

  /** A component that reads a byte of a tensor is the tensor's component of the expert whose span holds the byte. */
  lemma {:induction false} ReadsIs(r: Request, inv: Inventory, t: ExpertTensor, byte: nat, n: nat, k: nat, j: nat,
                                   e: nat)
    requires Positive(r) && SourceOk(r.source) && InventoryOk(r, inv) && t in r.source && k < |r.order|
    requires n < |inv.objects| && n / inv.experts == j && n % inv.experts == e
    ensures t.expertCount > 0 && j < |inv.layers| && |inv.objects[n].components| == |r.order|
    ensures Reads(inv, n, k, t, byte) <==> inv.layers[j] == t.layer && r.order[k] == t.component && InSpan(t, e, byte)
  {
    hide SourceOk, PackedRow, SpanStart, PerExpert;
    ObjectAt(r, inv, n, j, e);
    var u := ComponentOf(r, inv.layers[j], e, inv.objects[n], k);
    TensorUnique(r.source, t, t);
    if u.layer == t.layer && u.component == t.component {
      TensorUnique(r.source, u, t);
    }
  }

  /** Every byte of every listed tensor is read by exactly one component of exactly one object. */
  lemma {:induction false} EveryByteOnce(r: Request, inv: Inventory, i: nat, byte: nat) returns (n: nat, k: nat)
    requires RequestOk(r) && InventoryOk(r, inv) && i < |r.source|
    requires r.source[i].dataOffset <= byte < r.source[i].dataOffset + r.source[i].encodedBytes
    ensures Reads(inv, n, k, r.source[i], byte)
    ensures forall m, l :: Reads(inv, m, l, r.source[i], byte) ==> m == n && l == k
  {
    hide SourceOk, Reads, SpanStart, PerExpert, Paddable, HasComponent, ObjectOk;
    var t, layers := r.source[i], |inv.layers|;
    TensorUnique(r.source, t, t);
    var e := SpansTile(t, byte);
    assert t.layer in inv.layers;
    var j :| 0 <= j < layers && inv.layers[j] == t.layer;
    k :| 0 <= k < |r.order| && r.order[k] == t.component;
    n := PlaceIs(j, e, layers, inv.experts);
    ReadsIs(r, inv, t, byte, n, k, j, e);
    forall m, l | Reads(inv, m, l, t, byte)
      ensures m == n && l == k
    {
      ReadsInside(inv, m, l, t, byte);
      var a, b := PlaceOf(m, layers, inv.experts);
      ReadsIs(r, inv, t, byte, m, k, a, b);
      ReadsIs(r, inv, t, byte, m, l, a, b);
    }
  }

  lemma {:induction false} ReadsInside(inv: Inventory, n: nat, k: nat, t: ExpertTensor, byte: nat)
    requires Reads(inv, n, k, t, byte)
    ensures n < |inv.objects| && k < |inv.objects[n].components|
  {
  }

  /** Every expert of every listed layer has exactly one object. */
  lemma {:induction false} EveryExpertOnce(r: Request, inv: Inventory, i: nat, e: nat) returns (n: nat)
    requires RequestOk(r) && InventoryOk(r, inv) && i < |r.source| && e < r.source[i].expertCount
    ensures n < |inv.objects| && inv.objects[n].layer == r.source[i].layer && inv.objects[n].expert == e
    ensures forall m :: 0 <= m < |inv.objects| ==>
      inv.objects[m].layer == r.source[i].layer && inv.objects[m].expert == e ==> m == n
  {
    hide SourceOk, Paddable, HasComponent, ObjectOk, IsRow, PlacedAll, AllCounted;
    var layer, layers := r.source[i].layer, |inv.layers|;
    assert layer in inv.layers;
    var j :| 0 <= j < layers && inv.layers[j] == layer;
    n := PlaceIs(j, e, layers, inv.experts);
    ObjectAt(r, inv, n, j, e);
    forall m | 0 <= m < |inv.objects| && inv.objects[m].layer == layer && inv.objects[m].expert == e
      ensures m == n
    {
      var a, b := PlaceOf(m, layers, inv.experts);
      ObjectAt(r, inv, m, a, b);
    }
  }

  // ---- Every accepted request ----

  /** A tensor on its own: a positive number of experts that share its positive bytes evenly, and positive rows. */
  predicate Shared(t: ExpertTensor) {
    t.expertCount > 0 && t.encodedBytes > 0 && t.ne0 > 0 && t.encodedBytes % t.expertCount == 0
  }

  /** Not quantised, or in blocks of which a whole number completes the rows. */
  ghost predicate CompletesRows(t: ExpertTensor, matrix: nat)
    requires matrix > 0
  {
    || (t.blockElements.None? && t.blockBytes.None?)
    || (t.blockElements.Some? && t.blockBytes.Some? && t.blockElements.value > 0 && t.blockBytes.value > 0
        && exists blocks: nat :: IsBlocks(blocks, t.blockElements.value, RowGap(t.ne0, matrix)))
  }

  predicate NoRepeats<T(==)>(xs: seq<T>) {
    forall i, j :: 0 <= i < |xs| && 0 <= j < |xs| && xs[i] == xs[j] ==> i == j
  }

  lemma {:induction false} NoRepeatsExactly<T>(xs: seq<T>)
    ensures AllDistinct(xs) <==> NoRepeats(xs)
  {
    if AllDistinct(xs) {
      forall i, j | 0 <= i < |xs| && 0 <= j < |xs| && i != j
        ensures xs[i] != xs[j]
      {
        var a, b := if i < j then i else j, if i < j then j else i;
        assert xs[a] != xs[b];
      }
    }
  }

  /** Every tensor is sound, of the first one's expert count, a declared component, and can be padded. */
  ghost predicate TensorsSound(r: Request)
    requires r.source != [] && r.matrix > 0
  {
    forall t :: t in r.source ==>
      Shared(t) && t.expertCount == r.source[0].expertCount && t.component in r.order && CompletesRows(t, r.matrix)
  }

  lemma {:induction false} TensorsExactly(r: Request)
    requires r.source != [] && r.matrix > 0
    ensures TensorsSound(r)
       <==> Paddable(r.source, r.matrix)
            && forall i :: 0 <= i < |r.source| ==>
                 Sane(r.source[i]) && r.source[i].expertCount == r.source[0].expertCount
                   && r.source[i].component in r.order
  {
    hide RowPadding, CompletesRows;
    forall i | 0 <= i < |r.source|
      ensures RowPadding(r.source[i], r.matrix).Some? <==> CompletesRows(r.source[i], r.matrix)
    {
      PaddingMeans(r.source[i], r.matrix);
    }
    if TensorsSound(r) {
      forall i | 0 <= i < |r.source|
        ensures Sane(r.source[i]) && r.source[i].expertCount == r.source[0].expertCount
        ensures r.source[i].component in r.order && RowPadding(r.source[i], r.matrix).Some?
      {
        assert r.source[i] in r.source;
      }
    }
  }

  lemma {:induction false} PaddingMeans(t: ExpertTensor, matrix: nat)
    requires matrix > 0
    ensures RowPadding(t, matrix).Some? <==> CompletesRows(t, matrix)
  {
    hide RowPadding;
    PaddingExists(t, matrix);
  }

  predicate Lists(source: seq<ExpertTensor>, layer: nat) {
    exists t :: t in source && t.layer == layer
  }

  predicate ListsComponent(source: seq<ExpertTensor>, layer: nat, c: string) {
    exists t :: t in source && t.layer == layer && t.component == c
  }

  lemma {:induction false} ListsIs(source: seq<ExpertTensor>, layer: nat)
    ensures Lists(source, layer) <==> exists i :: 0 <= i < |source| && source[i].layer == layer
  {
    if exists i :: 0 <= i < |source| && source[i].layer == layer {
      var i :| 0 <= i < |source| && source[i].layer == layer;
      assert source[i] in source;
    }
  }

  lemma {:induction false} ListsComponentIs(source: seq<ExpertTensor>, layer: nat, c: string)
    ensures ListsComponent(source, layer, c) <==> HasComponent(source, layer, c)
  {
    if HasComponent(source, layer, c) {
      var i :| 0 <= i < |source| && source[i].layer == layer && source[i].component == c;
      assert source[i] in source;
    }
  }

  /** Every target is a listed layer, and every listed layer has every declared component. */
  predicate LayersListed(r: Request) {
    && (forall layer :: layer in r.targets ==> Lists(r.source, layer))
    && (forall t, c :: t in r.source && c in r.order ==> ListsComponent(r.source, t.layer, c))
  }

  lemma {:induction false} LayersListedExactly(r: Request)
    ensures LayersListed(r)
       <==> (forall t :: t in r.targets ==> exists i :: 0 <= i < |r.source| && r.source[i].layer == t)
            && (forall i, c :: 0 <= i < |r.source| && c in r.order ==> HasComponent(r.source, r.source[i].layer, c))
  {
    hide HasComponent, Lists, ListsComponent;
    forall t | t in r.targets
      ensures Lists(r.source, t) <==> exists i :: 0 <= i < |r.source| && r.source[i].layer == t
    {
      ListsIs(r.source, t);
    }
    forall t, c | t in r.source && c in r.order
      ensures ListsComponent(r.source, t.layer, c) <==> HasComponent(r.source, t.layer, c)
    {
      ListsComponentIs(r.source, t.layer, c);
    }
    if LayersListed(r) {
      forall i, c | 0 <= i < |r.source| && c in r.order
        ensures HasComponent(r.source, r.source[i].layer, c)
      {
        assert r.source[i] in r.source;
      }
    }
  }

  /**
   Exactly the accepted requests: positive sizes, different components and different targets, sound tensors
   of one expert count of which no two share layer and component, every listed layer with exactly the
   declared components, every target listed, and rows that can be completed.
   */
  lemma {:induction false} RequestExactly(r: Request)
    ensures RequestOk(r)
       <==> r.source != [] && r.alignment > 0 && r.matrix > 0 && r.capacity > 0
            && r.order != [] && NoRepeats(r.order) && r.targets != [] && NoRepeats(r.targets)
            && TensorsSound(r) && LayersListed(r)
            && forall i, j :: 0 <= i < j < |r.source| ==>
                 !(r.source[i].layer == r.source[j].layer && r.source[i].component == r.source[j].component)
  {
    hide TensorsSound, LayersListed, NoRepeats, AllDistinct, HasComponent, Paddable, Sane;
    NoRepeatsExactly(r.order);
    NoRepeatsExactly(r.targets);
    LayersListedExactly(r);
    if r.source != [] && r.matrix > 0 {
      TensorsExactly(r);
    }
  }

  // ---- The cache ----

  /** Objects of the inventory, by their places. */
  predicate AreObjects(inv: Inventory, chosen: seq<nat>) {
    forall i :: 0 <= i < |chosen| ==> chosen[i] < |inv.objects|
  }

  /** The slots of the chosen objects, added up. */
  function SlotBytes(inv: Inventory, chosen: seq<nat>): nat
    requires AreObjects(inv, chosen)
  {
    if chosen == [] then 0
    else SlotBytes(inv, chosen[..|chosen| - 1]) + inv.objects[chosen[|chosen| - 1]].slotBytes
  }

  lemma {:induction false} SlotsBounded(inv: Inventory, chosen: seq<nat>)
    requires AreObjects(inv, chosen) && forall n :: 0 <= n < |inv.objects| ==> inv.objects[n].slotBytes <= inv.slotBytes
    ensures SlotBytes(inv, chosen) <= inv.slotBytes * |chosen|
  {
    if chosen != [] {
      SlotsBounded(inv, chosen[..|chosen| - 1]);
      OneTimesMore(inv.slotBytes, |chosen| - 1);
    }
  }

  lemma {:induction false} OneTimesMore(a: nat, n: nat)
    ensures a * (n + 1) == a * n + a
  {
  }

  lemma {:induction false} Product(a: nat, b: nat, c: nat)
    requires b <= c
    ensures a * b <= a * c
  {
  }

  lemma {:induction false} Regroup(a: nat, b: nat, c: nat)
    ensures a * b * c == a * (b * c)
  {
  }

  lemma {:induction false} AllAlike(inv: Inventory, n: nat, chosen: seq<nat>)
    requires n < |inv.objects| && forall i :: 0 <= i < |chosen| ==> chosen[i] == n
    ensures AreObjects(inv, chosen) && SlotBytes(inv, chosen) == inv.objects[n].slotBytes * |chosen|
  {
    if chosen != [] {
      AllAlike(inv, n, chosen[..|chosen| - 1]);
      OneTimesMore(inv.objects[n].slotBytes, |chosen| - 1);
    }
  }

  /** Whatever fills the slots of all targets fits into the projected cache, and some filling needs all of it. */
  lemma {:induction false} CacheFitsExactly(r: Request, inv: Inventory, chosen: seq<nat>) returns (full: seq<nat>)
    requires RequestOk(r) && InventoryOk(r, inv)
    requires |chosen| <= |r.targets| * r.capacity && AreObjects(inv, chosen)
    ensures SlotBytes(inv, chosen) <= inv.cacheBytes
    ensures |full| == |r.targets| * r.capacity && AreObjects(inv, full) && SlotBytes(inv, full) == inv.cacheBytes
  {
    hide ObjectOk, SourceOk, Paddable, SlotBytes, HasComponent, AllDistinct;
    var slots: nat := |r.targets| * r.capacity;
    SlotsBounded(inv, chosen);
    Product(inv.slotBytes, |chosen|, slots);
    Regroup(inv.slotBytes, |r.targets|, r.capacity);
    var n :| 0 <= n < |inv.objects| && inv.objects[n].slotBytes == inv.slotBytes;
    full := seq(slots, i => n);
    AllAlike(inv, n, full);
  }
}
