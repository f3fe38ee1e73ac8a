/** Packing of one expert's tensors into a padded slot, and the source spans it is read from. */
module ExpertLayout {
  import opened Trace

  /** A tensor that holds one component of every expert of a layer; `block` is its quantisation (elements, bytes). */
  datatype ExpertTensor = ExpertTensor(
    layer: nat,
    component: string,
    expertCount: nat,
    encodedBytes: nat,
    dataOffset: nat,
    ne0: nat,
    blockElements: Option<int>,
    blockBytes: Option<int>)

  /** Where one component of one expert lies in its source file and in its slot. */
  datatype Placed = Placed(
    component: string,
    sourceStart: nat,
    sourceEnd: nat,
    encoded: nat,
    rowPadding: nat,
    slotStart: nat,
    slotPadding: nat)

  datatype Packed = Packed(layer: nat, expert: nat, encoded: nat, slotBytes: nat, endPadding: nat,
    components: seq<Placed>)

  // ---- Alignment ----

  predicate IsAligned(value: nat, alignment: nat)
    requires alignment > 0
  {
    value % alignment == 0
  }

  /** The least multiple of the alignment that is not below the value. */
  function Align(value: nat, alignment: nat): (r: nat)
    requires alignment > 0
    ensures IsAligned(r, alignment) && value <= r < value + alignment
  {
    AlignFacts(value, alignment);
    (value + alignment - 1) / alignment * alignment
  }

  lemma {:induction false} AlignFacts(value: nat, alignment: nat)
    requires alignment > 0
    ensures var r := (value + alignment - 1) / alignment * alignment;
            r % alignment == 0 && value <= r < value + alignment
  {
    var q := (value + alignment - 1) / alignment;
    MultipleMod(q, alignment);
    assert value + alignment - 1 == q * alignment + (value + alignment - 1) % alignment;
  }

  lemma {:induction false} MultipleMod(q: nat, d: nat)
    requires d > 0
    ensures q * d % d == 0
  {
    if q > 0 {
      MultipleMod(q - 1, d);
      assert q * d == (q - 1) * d + d;
      ModStep((q - 1) * d, d);
    }
  }

  lemma {:induction false} ModStep(a: nat, d: nat)
    requires d > 0
    ensures (a + d) % d == a % d
  {
    var q, r := a / d, a % d;
    assert a + d == (q + 1) * d + r;
    DivisionUnique(a + d, d, q + 1, r);
  }

  lemma {:induction false} DivisionUnique(a: nat, d: nat, q: nat, r: nat)
    requires d > 0 && a == q * d + r && r < d
    ensures a / d == q && a % d == r
  {
    var p, s := a / d, a % d;
    assert a == p * d + s;
    if p < q {
      MultipleGap(p, q, d);
    } else if q < p {
      MultipleGap(q, p, d);
    }
  }

  lemma {:induction false} MultipleGap(p: nat, q: nat, d: nat)
    requires p < q
    ensures p * d + d <= q * d
    decreases q
  {
    if q == p + 1 {
      assert q * d == p * d + d;
    } else {
      MultipleGap(p, q - 1, d);
      assert q * d == (q - 1) * d + d;
    }
  }

  /** Two aligned values less than one alignment above the same value are equal. */
  lemma {:induction false} AlignedUnique(value: nat, alignment: nat, a: nat, b: nat)
    requires alignment > 0 && IsAligned(a, alignment) && IsAligned(b, alignment)
    requires value <= a < value + alignment && value <= b < value + alignment
    ensures a == b
  {
    var p, q := a / alignment, b / alignment;
    assert a == p * alignment && b == q * alignment;
    if p < q {
      MultipleGap(p, q, alignment);
    } else if q < p {
      MultipleGap(q, p, alignment);
    }
  }

  // ---- Row padding ----

  /** The number of elements that completes a row. */
  function RowGap(ne0: nat, matrix: nat): (gap: nat)
    requires matrix > 0
    ensures gap < matrix
  {
    if ne0 % matrix == 0 then 0 else matrix - ne0 % matrix
  }

  /** The gap completes the row, and it is the least one that does. */
  lemma {:induction false} RowGapCompletes(ne0: nat, matrix: nat, other: nat)
    requires matrix > 0
    ensures (ne0 + RowGap(ne0, matrix)) % matrix == 0
    ensures (ne0 + other) % matrix == 0 ==> RowGap(ne0, matrix) <= other
  {
    var q, r := ne0 / matrix, ne0 % matrix;
    assert ne0 == q * matrix + r;
    if r != 0 {
      DivisionUnique(ne0 + (matrix - r), matrix, q + 1, 0);
      if other < matrix - r {
        DivisionUnique(ne0 + other, matrix, q, r + other);
      }
    }
  }

  /** None when the quantisation is incomplete, not positive, or its blocks do not fit the padding. */
  function RowPadding(t: ExpertTensor, matrix: nat): Option<nat>
    requires matrix > 0
  {
    if t.blockElements.None? && t.blockBytes.None? then Some(0)
    else if t.blockElements.None? || t.blockBytes.None? then None
    else if t.blockElements.value <= 0 || t.blockBytes.value <= 0 then None
    else if t.ne0 % matrix == 0 then Some(0)
    else
      var gap := matrix - t.ne0 % matrix;
      if gap % t.blockElements.value != 0 then None
        else Some(PaddingBytes(gap, t.blockElements.value, t.blockBytes.value))
  }

  function PaddingBytes(gap: nat, elements: nat, bytes: nat): nat
    requires elements > 0
  {
    gap / elements * bytes
  }

  /**
   Rows can be padded exactly when the tensor is not quantised, or completely and positively quantised
   with a gap that is a whole number of blocks, however many.
   */
  lemma {:induction false} PaddingExists(t: ExpertTensor, matrix: nat)
    requires matrix > 0
    ensures RowPadding(t, matrix).Some?
       <==> (t.blockElements.None? && t.blockBytes.None?)
            || (t.blockElements.Some? && t.blockBytes.Some? && t.blockElements.value > 0 && t.blockBytes.value > 0
                && exists blocks: nat :: IsBlocks(blocks, t.blockElements.value, RowGap(t.ne0, matrix)))
    ensures t.blockElements.None? && t.blockBytes.None? ==> RowPadding(t, matrix) == Some(0)
  {
    if t.blockElements.Some? && t.blockBytes.Some? && t.blockElements.value > 0 && t.blockBytes.value > 0 {
      var e, gap := t.blockElements.value, RowGap(t.ne0, matrix);
      if gap % e == 0 {
        assert IsBlocks(gap / e, e, gap);
      }
      if exists blocks: nat :: IsBlocks(blocks, e, gap) {
        var blocks: nat :| IsBlocks(blocks, e, gap);
        MultipleMod(blocks, e);
      }
    }
  }

  predicate IsBlocks(blocks: nat, elements: int, gap: nat) {
    gap == blocks * elements
  }

  /** Where a tensor is quantised, its padding is the encoded form of exactly the missing elements. */
  lemma {:induction false} RowPaddingEncodesTheGap(t: ExpertTensor, matrix: nat)
    requires matrix > 0 && RowPadding(t, matrix).Some? && t.blockElements.Some?
    ensures t.blockBytes.Some? && t.blockElements.value > 0
    ensures RowPadding(t, matrix).value * t.blockElements.value == RowGap(t.ne0, matrix) * t.blockBytes.value
  {
    var e, b := t.blockElements.value, t.blockBytes.value;
    var gap := RowGap(t.ne0, matrix);
    if t.ne0 % matrix != 0 {
      var q := gap / e;
      assert gap == q * e;
      assert q * b * e == q * e * b;
    }
  }

  // ---- One slot ----

  predicate Sane(t: ExpertTensor) {
    t.expertCount > 0 && t.encodedBytes > 0 && t.ne0 > 0 && t.encodedBytes % t.expertCount == 0
  }

  function PerExpert(t: ExpertTensor): nat
    requires t.expertCount > 0
  {
    t.encodedBytes / t.expertCount
  }

  function EndOf(p: Placed): nat {
    p.slotStart + p.encoded + p.rowPadding
  }

  function EndBefore(components: seq<Placed>, i: nat): nat
    requires i <= |components|
  {
    if i == 0 then 0 else EndOf(components[i - 1])
  }

  /** What is promised of one component: its source span and an aligned place right behind the one before it. */
  predicate PlacedOk(t: ExpertTensor, expert: nat, alignment: nat, matrix: nat, before: nat, p: Placed)
    requires t.expertCount > 0 && alignment > 0 && matrix > 0
  {
    && p.component == t.component
    && p.encoded == PerExpert(t)
    && p.sourceStart == t.dataOffset + expert * PerExpert(t) && p.sourceEnd == p.sourceStart + PerExpert(t)
    && RowPadding(t, matrix) == Some(p.rowPadding)
    && IsAligned(p.slotStart, alignment)
    && before <= p.slotStart == before + p.slotPadding && p.slotPadding < alignment
  }

  predicate AllCounted(tensors: seq<ExpertTensor>) {
    forall i :: 0 <= i < |tensors| ==> tensors[i].expertCount > 0
  }

  ghost predicate PlacedAll(tensors: seq<ExpertTensor>, expert: nat, alignment: nat, matrix: nat,
                            components: seq<Placed>)
    requires AllCounted(tensors) && alignment > 0 && matrix > 0
  {
    && |components| == |tensors|
    && forall i :: 0 <= i < |tensors| ==>
      PlacedOk(tensors[i], expert, alignment, matrix, EndBefore(components, i), components[i])
  }

  function SumEncoded(components: seq<Placed>): nat {
    if components == [] then 0 else SumEncoded(components[..|components| - 1]) + components[|components| - 1].encoded
  }

  function SumPadding(components: seq<Placed>): nat {
    if components == [] then 0
    else
      var last := |components| - 1;
      SumPadding(components[..last]) + components[last].rowPadding + components[last].slotPadding
  }

  ghost predicate PackedOk(tensors: seq<ExpertTensor>, layer: nat, expert: nat, alignment: nat, matrix: nat, o: Packed)
    requires AllCounted(tensors) && alignment > 0 && matrix > 0
  {
    && o.layer == layer && o.expert == expert
    && PlacedAll(tensors, expert, alignment, matrix, o.components)
    && o.encoded == SumEncoded(o.components)
    && IsAligned(o.slotBytes, alignment) && o.endPadding < alignment
    && o.slotBytes == EndBefore(o.components, |o.components|) + o.endPadding
  }

  predicate Paddable(tensors: seq<ExpertTensor>, matrix: nat)
    requires matrix > 0
  {
    forall i :: 0 <= i < |tensors| ==> RowPadding(tensors[i], matrix).Some?
  }

  /**
   Places one component.  The source also tests the span against its tensor's end; that test is kept,
   and the contract shows that it never decides.
   */
  method Place(t: ExpertTensor, expert: nat, alignment: nat, matrix: nat, cursor: nat) returns (p: Option<Placed>)
    requires alignment > 0 && matrix > 0 && Sane(t) && expert < t.expertCount
    ensures p.Some? <==> RowPadding(t, matrix).Some?
    ensures p.Some? ==> PlacedOk(t, expert, alignment, matrix, cursor, p.value)
  {
    hide RowPadding, PlacedOk, IsAligned;
    var padding := RowPadding(t, matrix);
    if padding.None? {
      return None;
    }
    var encoded := PerExpert(t);
    var slotStart := Align(cursor, alignment);
    var sourceStart := t.dataOffset + expert * encoded;
    var sourceEnd := sourceStart + encoded;
    SpanInside(t, expert);
    if sourceEnd > t.dataOffset + t.encodedBytes {
      return None;
    }
    p := Some(Placed(t.component, sourceStart, sourceEnd, encoded, padding.value, slotStart, slotStart - cursor));
    PlacedRight(t, expert, alignment, matrix, cursor, p.value);
  }

  /** Packs one expert, component after component. */
  method PackExpert(tensors: seq<ExpertTensor>, layer: nat, expert: nat, alignment: nat, matrix: nat)
    returns (o: Option<Packed>)
    requires alignment > 0 && matrix > 0
    requires forall i :: 0 <= i < |tensors| ==> Sane(tensors[i]) && expert < tensors[i].expertCount
    ensures o.Some? <==> Paddable(tensors, matrix)
    ensures o.Some? ==> PackedOk(tensors, layer, expert, alignment, matrix, o.value)
  {
    hide RowPadding, PlacedOk, IsAligned, PerExpert, PlacedAll, Sane, SumEncoded;
    var cursor: nat := 0;
    var total: nat := 0;
    var components: seq<Placed> := [];
    var i := 0;
    PlacedNothing(expert, alignment, matrix);
    assert tensors[..0] == [];
    while i < |tensors|
      invariant 0 <= i <= |tensors| && |components| == i && AllCounted(tensors[..i])
      invariant Paddable(tensors[..i], matrix)
      invariant PlacedAll(tensors[..i], expert, alignment, matrix, components)
      invariant cursor == EndBefore(components, i) && total == SumEncoded(components)
    {
      var p := Place(tensors[i], expert, alignment, matrix, cursor);
      if p.None? {
        return None;
      }
      PlacedSnoc(tensors, i, expert, alignment, matrix, components, p.value);
      components := components + [p.value];
      cursor := p.value.slotStart + (p.value.encoded + p.value.rowPadding);
      total := total + p.value.encoded;
      i := i + 1;
    }
    assert tensors[..i] == tensors;
    var slotBytes := Align(cursor, alignment);
    o := Some(Packed(layer, expert, total, slotBytes, slotBytes - cursor, components));
  }

  lemma {:induction false} PlacedNothing(expert: nat, alignment: nat, matrix: nat)
    requires alignment > 0 && matrix > 0
    ensures PlacedAll([], expert, alignment, matrix, []) && SumEncoded([]) == 0
  {
  }

  lemma {:induction false} PlacedSnoc(tensors: seq<ExpertTensor>, i: nat, expert: nat, alignment: nat, matrix: nat,
                                      components: seq<Placed>, p: Placed)
    requires alignment > 0 && matrix > 0 && i < |tensors| && AllCounted(tensors[..i]) && tensors[i].expertCount > 0
    requires PlacedAll(tensors[..i], expert, alignment, matrix, components)
    requires PlacedOk(tensors[i], expert, alignment, matrix, EndBefore(components, |components|), p)
    ensures AllCounted(tensors[..i + 1]) && PlacedAll(tensors[..i + 1], expert, alignment, matrix, components + [p])
    ensures SumEncoded(components + [p]) == SumEncoded(components) + p.encoded
  {
    hide PlacedOk;
    var more := components + [p];
    assert more[..i] == components;
    assert forall j :: 0 <= j <= i ==> EndBefore(more, j) == EndBefore(components, j);
    assert AllCounted(tensors[..i + 1]) by {
      assert forall j :: 0 <= j < i ==> tensors[..i + 1][j] == tensors[..i][j];
    }
    forall j | 0 <= j <= i
      ensures PlacedOk(tensors[..i + 1][j], expert, alignment, matrix, EndBefore(more, j), more[j])
    {
      if j < i {
        assert PlacedOk(tensors[..i][j], expert, alignment, matrix, EndBefore(components, j), components[j]);
      }
    }
  }

  lemma {:induction false} PlacedRight(t: ExpertTensor, expert: nat, alignment: nat, matrix: nat, before: nat,
                                       p: Placed)
    requires t.expertCount > 0 && alignment > 0 && matrix > 0
    requires RowPadding(t, matrix) == Some(p.rowPadding)
    requires p == Placed(t.component, t.dataOffset + expert * PerExpert(t), t.dataOffset + expert * PerExpert(t)
      + PerExpert(t),
                         PerExpert(t), p.rowPadding, Align(before, alignment), Align(before, alignment) - before)
    ensures PlacedOk(t, expert, alignment, matrix, before, p)
  {
    hide RowPadding;
  }

  // ---- Source spans tile a tensor ----

  function SpanStart(t: ExpertTensor, expert: nat): nat
    requires t.expertCount > 0
  {
    t.dataOffset + expert * PerExpert(t)
  }

  lemma {:induction false} WholeTensor(t: ExpertTensor)
    requires Sane(t)
    ensures SpanStart(t, t.expertCount) == t.dataOffset + t.encodedBytes && PerExpert(t) > 0
  {
    assert t.encodedBytes == PerExpert(t) * t.expertCount;
  }

  /** The bounds error of the source cannot happen. */
  lemma {:induction false} SpanInside(t: ExpertTensor, expert: nat)
    requires Sane(t) && expert < t.expertCount
    ensures t.dataOffset <= SpanStart(t, expert) && SpanStart(t, expert) + PerExpert(t) <= t.dataOffset + t.encodedBytes
  {
    WholeTensor(t);
    MultipleGap(expert, t.expertCount, PerExpert(t));
  }

  predicate InSpan(t: ExpertTensor, expert: nat, byte: nat)
    requires t.expertCount > 0
  {
    SpanStart(t, expert) <= byte < SpanStart(t, expert) + PerExpert(t)
  }

  /** Every byte of a tensor lies in the span of exactly one expert: no gap and no overlap. */
  lemma {:induction false} SpansTile(t: ExpertTensor, byte: nat) returns (expert: nat)
    requires Sane(t) && t.dataOffset <= byte < t.dataOffset + t.encodedBytes
    ensures expert < t.expertCount && InSpan(t, expert, byte)
    ensures forall other: nat :: other < t.expertCount && InSpan(t, other, byte) ==> other == expert
  {
    WholeTensor(t);
    var per := PerExpert(t);
    expert := (byte - t.dataOffset) / per;
    assert byte - t.dataOffset == expert * per + (byte - t.dataOffset) % per;
    if expert > t.expertCount {
      MultipleGap(t.expertCount, expert, per);
    }
    forall other: nat | other < t.expertCount && InSpan(t, other, byte)
      ensures other == expert
    {
      DivisionUnique(byte - t.dataOffset, per, other, byte - SpanStart(t, other));
    }
  }

  // ---- Slots ----

  /** The linear facts of one place. */
  lemma {:induction false} PlaceFacts(tensors: seq<ExpertTensor>, expert: nat, alignment: nat, matrix: nat,
                                      components: seq<Placed>, i: nat)
    requires AllCounted(tensors) && alignment > 0 && matrix > 0
    requires PlacedAll(tensors, expert, alignment, matrix, components) && i < |tensors|
    ensures |components| == |tensors|
    ensures components[i].slotStart == EndBefore(components, i) + components[i].slotPadding
      && components[i].slotPadding < alignment
    ensures IsAligned(components[i].slotStart, alignment)
    ensures components[i].encoded == PerExpert(tensors[i])
      && RowPadding(tensors[i], matrix) == Some(components[i].rowPadding)
  {
    hide RowPadding, PerExpert, IsAligned;
    assert PlacedOk(tensors[i], expert, alignment, matrix, EndBefore(components, i), components[i]);
  }

  /** Components are disjoint and in order. */
  lemma {:induction false} ComponentsOrdered(tensors: seq<ExpertTensor>, expert: nat, alignment: nat, matrix: nat,
                                             components: seq<Placed>, i: nat, j: nat)
    requires AllCounted(tensors) && alignment > 0 && matrix > 0
    requires PlacedAll(tensors, expert, alignment, matrix, components) && i < j <= |tensors|
    ensures EndOf(components[i]) <= EndBefore(components, j)
    ensures j < |tensors| ==> EndOf(components[i]) <= components[j].slotStart
  {
    hide RowPadding, PerExpert, IsAligned, PlacedOk;
    if j < |tensors| {
      PlaceFacts(tensors, expert, alignment, matrix, components, j);
    }
    PlaceFacts(tensors, expert, alignment, matrix, components, j - 1);
    if i < j - 1 {
      ComponentsOrdered(tensors, expert, alignment, matrix, components, i, j - 1);
    }
  }

  /** And all of them lie inside the slot. */
  lemma {:induction false} ComponentsInsideSlot(tensors: seq<ExpertTensor>, layer: nat, expert: nat, alignment: nat,
                                                matrix: nat, o: Packed, i: nat)
    requires AllCounted(tensors) && alignment > 0 && matrix > 0
    requires PackedOk(tensors, layer, expert, alignment, matrix, o) && i < |tensors|
    ensures EndOf(o.components[i]) <= o.slotBytes
  {
    hide PlacedOk, IsAligned;
    ComponentsOrdered(tensors, expert, alignment, matrix, o.components, i, |tensors|);
  }

  /** Nothing is lost: a slot is its encoded bytes plus row padding, alignment padding and end padding. */
  lemma {:induction false} SlotIsSumOfParts(tensors: seq<ExpertTensor>, layer: nat, expert: nat, alignment: nat,
                                            matrix: nat, o: Packed)
    requires AllCounted(tensors) && alignment > 0 && matrix > 0
    requires PackedOk(tensors, layer, expert, alignment, matrix, o)
    ensures o.slotBytes == o.encoded + SumPadding(o.components) + o.endPadding
  {
    EndIsSumOfParts(tensors, expert, alignment, matrix, o.components);
  }

  lemma {:induction false} EndIsSumOfParts(tensors: seq<ExpertTensor>, expert: nat, alignment: nat, matrix: nat,
                                           components: seq<Placed>)
    requires AllCounted(tensors) && alignment > 0 && matrix > 0
    requires PlacedAll(tensors, expert, alignment, matrix, components)
    ensures EndBefore(components, |components|) == SumEncoded(components) + SumPadding(components)
  {
    hide PlacedOk, IsAligned;
    if tensors != [] {
      var n := |tensors| - 1;
      PlacedPrefix(tensors, expert, alignment, matrix, components);
      EndIsSumOfParts(tensors[..n], expert, alignment, matrix, components[..n]);
      PlaceFacts(tensors, expert, alignment, matrix, components, n);
    }
  }

  lemma {:induction false} PlacedPrefix(tensors: seq<ExpertTensor>, expert: nat, alignment: nat, matrix: nat,
                                        components: seq<Placed>)
    requires AllCounted(tensors) && alignment > 0 && matrix > 0 && tensors != []
    requires PlacedAll(tensors, expert, alignment, matrix, components)
    ensures PlacedAll(tensors[..|tensors| - 1], expert, alignment, matrix, components[..|tensors| - 1])
  {
    hide PlacedOk;
    var n := |tensors| - 1;
    forall i | 0 <= i < n
      ensures PlacedOk(tensors[..n][i], expert, alignment, matrix, EndBefore(components[..n], i), components[..n][i])
    {
      assert PlacedOk(tensors[i], expert, alignment, matrix, EndBefore(components, i), components[i]);
    }
  }

  /**
   The promises leave no freedom: any two experts of a layer get the same slot, component by component,
   and their source spans differ by whole experts only.
   */
  lemma {:induction false} SlotsDoNotDependOnExpert(tensors: seq<ExpertTensor>, layer: nat, a: nat, b: nat,
                                                    alignment: nat, matrix: nat, o: Packed, p: Packed)
    requires AllCounted(tensors) && alignment > 0 && matrix > 0
    requires PackedOk(tensors, layer, a, alignment, matrix, o) && PackedOk(tensors, layer, b, alignment, matrix, p)
    ensures o.slotBytes == p.slotBytes && o.encoded == p.encoded && o.endPadding == p.endPadding
    ensures forall i :: 0 <= i < |tensors| ==> SamePlace(o.components[i], p.components[i])
  {
    hide RowPadding, PerExpert, IsAligned, PlacedOk;
    PlacesAgree(tensors, a, b, alignment, matrix, o.components, p.components);
    AlignedUnique(EndBefore(o.components, |tensors|), alignment, o.slotBytes, p.slotBytes);
  }

  predicate SamePlace(a: Placed, b: Placed) {
    a.slotStart == b.slotStart && a.encoded == b.encoded && a.rowPadding == b.rowPadding
      && a.slotPadding == b.slotPadding
  }

  lemma {:induction false} PlacesAgree(tensors: seq<ExpertTensor>, a: nat, b: nat, alignment: nat, matrix: nat,
                                       x: seq<Placed>, y: seq<Placed>)
    requires AllCounted(tensors) && alignment > 0 && matrix > 0
    requires PlacedAll(tensors, a, alignment, matrix, x) && PlacedAll(tensors, b, alignment, matrix, y)
    ensures |x| == |y| == |tensors| && forall i :: 0 <= i < |tensors| ==> SamePlace(x[i], y[i])
    ensures EndBefore(x, |tensors|) == EndBefore(y, |tensors|) && SumEncoded(x) == SumEncoded(y)
  {
    hide RowPadding, PerExpert, IsAligned, PlacedAll;
    PlacedSizes(tensors, a, alignment, matrix, x);
    PlacedSizes(tensors, b, alignment, matrix, y);
    if tensors != [] {
      var n := |tensors| - 1;
      PlacedPrefix(tensors, a, alignment, matrix, x);
      PlacedPrefix(tensors, b, alignment, matrix, y);
      PlacesAgree(tensors[..n], a, b, alignment, matrix, x[..n], y[..n]);
      assert forall i :: 0 <= i < n ==> SamePlace(x[..n][i], y[..n][i]);
      PlaceFacts(tensors, a, alignment, matrix, x, n);
      PlaceFacts(tensors, b, alignment, matrix, y, n);
      assert EndBefore(x, n) == EndBefore(x[..n], n) == EndBefore(y[..n], n) == EndBefore(y, n);
      AlignedUnique(EndBefore(x, n), alignment, x[n].slotStart, y[n].slotStart);
    }
  }

  lemma {:induction false} PlacedSizes(tensors: seq<ExpertTensor>, expert: nat, alignment: nat, matrix: nat,
                                       components: seq<Placed>)
    requires AllCounted(tensors) && alignment > 0 && matrix > 0
    ensures PlacedAll(tensors, expert, alignment, matrix, components) ==> |components| == |tensors|
  {
  }
}
