/** What the handlers of the channel receiver (src/rpc/server/channel.rs) make of the task
    results they are given, as functions of the results in handling order. */
module ReceiverTally {
  import opened Numbers
  import opened Sorting
  import opened Wrappers

  const MAX_RETAINED_FAILURES: nat := 64

  /** An element popped from the channel: its sequence number and the pointer to its blob. */
  datatype Element = Element(seqNo: int, ptr: string)

  datatype PopOutcome =
    | Empty
    | TransientError(message: string)
    | Eof(seqNo: int, elapsedMs: real)
    | Elem(element: Element)

  datatype MaterializeOutcome =
    | Delivered(bytes: nat, deliveryMs: real, materializeMs: real)
    | Failed(message: string)

  // ------------------------------------------------------------ pops

  datatype EofMark = EofMark(seqNo: int, elapsedMs: real)

  datatype PopTally = PopTally(empties: nat, transients: nat, eof: Option<EofMark>, elements: seq<Element>)

  function AddPop(t: PopTally, outcome: PopOutcome): PopTally {
    match outcome
    case Empty => t.(empties := t.empties + 1)
    case TransientError(_) => t.(transients := t.transients + 1)
    case Eof(n, ms) => if t.eof.None? then t.(eof := Some(EofMark(n, ms))) else t
    case Elem(element) => t.(elements := t.elements + [element])
  }

  function TallyPops(pops: seq<PopOutcome>): PopTally {
    if pops == [] then PopTally(0, 0, None, [])
    else AddPop(TallyPops(pops[..|pops| - 1]), pops[|pops| - 1])
  }

  predicate IsEmpty(p: PopOutcome) { p.Empty? }

  predicate IsTransient(p: PopOutcome) { p.TransientError? }

  predicate IsEof(p: PopOutcome) { p.Eof? }

  predicate IsElem(p: PopOutcome) { p.Elem? }

  lemma {:induction false} CountLast<T>(xs: seq<T>, p: T -> bool)
    requires xs != []
    ensures Count(xs, p) == Count(xs[..|xs| - 1], p) + if p(xs[|xs| - 1]) then 1 else 0
  {
    var n := |xs| - 1;
    CountSplits(xs[..n], [xs[n]], p);
    assert xs == xs[..n] + [xs[n]] && [xs[n]][1..] == [];
  }

  /** Each kind of outcome has its own count, and the elements are those popped, in order: one stands
      after exactly the elements popped before it. */
  ghost predicate PopsTold(pops: seq<PopOutcome>, empties: nat, transients: nat, elements: seq<Element>) {
    && empties == Count(pops, IsEmpty) && transients == Count(pops, IsTransient)
    && |elements| == Count(pops, IsElem)
    && forall k :: 0 <= k < |pops| && pops[k].Elem? ==>
         var place := Count(pops[..k], IsElem);
         place < |elements| && elements[place] == pops[k].element
  }

  lemma {:induction false} TallyTellsPops(pops: seq<PopOutcome>)
    ensures var t := TallyPops(pops);
            PopsTold(pops, t.empties, t.transients, t.elements)
  {
    if pops != [] {
      var n := |pops| - 1;
      TallyTellsPops(pops[..n]);
      CountLast(pops, IsEmpty);
      CountLast(pops, IsTransient);
      CountLast(pops, IsElem);
      forall k | 0 <= k < n ensures pops[..n][..k] == pops[..k] && pops[..n][k] == pops[k] {}
    }
  }

  lemma {:induction false} PopsAreConserved(pops: seq<PopOutcome>)
    ensures |pops| == Count(pops, IsEmpty) + Count(pops, IsTransient) + Count(pops, IsEof) + Count(pops, IsElem)
  {
    if pops != [] { PopsAreConserved(pops[1..]); }
  }

  /** The recorded end of the channel is that of the first EOF handled. */
  lemma {:induction false} EofIsTheFirst(pops: seq<PopOutcome>)
    ensures TallyPops(pops).eof.None? <==> forall k :: 0 <= k < |pops| ==> !pops[k].Eof?
    ensures TallyPops(pops).eof.Some? ==>
              exists k :: 0 <= k < |pops| && pops[k].Eof?
                && TallyPops(pops).eof == Some(EofMark(pops[k].seqNo, pops[k].elapsedMs))
                && forall j :: 0 <= j < k ==> !pops[j].Eof?
  {
    if pops != [] {
      var n := |pops| - 1;
      EofIsTheFirst(pops[..n]);
      if TallyPops(pops[..n]).eof.Some? {
        var k :| 0 <= k < n && pops[..n][k].Eof?
              && TallyPops(pops[..n]).eof == Some(EofMark(pops[..n][k].seqNo, pops[..n][k].elapsedMs))
              && forall j :: 0 <= j < k ==> !pops[..n][j].Eof?;
        assert pops[k] == pops[..n][k];
        assert forall j :: 0 <= j < k ==> !pops[..n][j].Eof? && pops[j] == pops[..n][j];
      } else {
        assert forall k :: 0 <= k < n ==> pops[k] == pops[..n][k];
      }
    }
  }

  // ------------------------------------------------------------ materialized elements

  datatype MaterializeTally = MaterializeTally(
    delivered: nat, bytes: nat, deliverySamples: seq<real>, materializeSamples: seq<real>, failures: seq<string>)

  function AddMaterialized(t: MaterializeTally, outcome: MaterializeOutcome): MaterializeTally {
    match outcome
    case Delivered(bytes, deliveryMs, materializeMs) =>
      t.(delivered := t.delivered + 1, bytes := SaturatingAdd(t.bytes, bytes),
         deliverySamples := t.deliverySamples + [deliveryMs],
         materializeSamples := t.materializeSamples + [materializeMs])
    case Failed(message) => t.(failures := t.failures + [message])
  }

  function TallyMaterialized(outcomes: seq<MaterializeOutcome>): MaterializeTally {
    if outcomes == [] then MaterializeTally(0, 0, [], [], [])
    else AddMaterialized(TallyMaterialized(outcomes[..|outcomes| - 1]), outcomes[|outcomes| - 1])
  }

  function TotalBytes(outcomes: seq<MaterializeOutcome>): nat {
    if outcomes == [] then 0
    else
      var last := outcomes[|outcomes| - 1];
      TotalBytes(outcomes[..|outcomes| - 1]) + if last.Delivered? then last.bytes else 0
  }

  predicate IsDelivered(o: MaterializeOutcome) { o.Delivered? }

  predicate IsFailed(o: MaterializeOutcome) { o.Failed? }

  /** Each delivery leaves its own pair of samples, after exactly those of the deliveries before it. */
  ghost predicate DeliveriesTold(outcomes: seq<MaterializeOutcome>, deliverySamples: seq<real>,
                                 materializeSamples: seq<real>)
  {
    && |deliverySamples| == |materializeSamples| == Count(outcomes, IsDelivered)
    && forall k :: 0 <= k < |outcomes| && outcomes[k].Delivered? ==>
         var place := Count(outcomes[..k], IsDelivered);
         && place < |deliverySamples| == |materializeSamples|
         && deliverySamples[place] == outcomes[k].deliveryMs
         && materializeSamples[place] == outcomes[k].materializeMs
  }

  /** Each failure leaves its own message. */
  ghost predicate FailuresTold(outcomes: seq<MaterializeOutcome>, failures: seq<string>) {
    && |failures| == Count(outcomes, IsFailed)
    && forall k :: 0 <= k < |outcomes| && outcomes[k].Failed? ==>
         var place := Count(outcomes[..k], IsFailed);
         place < |failures| && failures[place] == outcomes[k].message
  }

  lemma CountOneMore<T>(xs: seq<T>, x: T, p: T -> bool)
    ensures Count(xs + [x], p) == Count(xs, p) + if p(x) then 1 else 0
  {
    CountLast(xs + [x], p);
    assert (xs + [x])[..|xs|] == xs;
  }

  lemma OtherToldNext(outcomes: seq<MaterializeOutcome>, x: MaterializeOutcome, deliverySamples: seq<real>,
                      materializeSamples: seq<real>)
    requires DeliveriesTold(outcomes, deliverySamples, materializeSamples) && !x.Delivered?
    ensures DeliveriesTold(outcomes + [x], deliverySamples, materializeSamples)
  {
    hide Count;
    CountOneMore(outcomes, x, IsDelivered);
    var all := outcomes + [x];
    forall k | 0 <= k < |outcomes| ensures all[..k] == outcomes[..k] && all[k] == outcomes[k] {}
  }

  lemma DeliveryToldNext(outcomes: seq<MaterializeOutcome>, x: MaterializeOutcome, deliverySamples: seq<real>,
                         materializeSamples: seq<real>)
    requires DeliveriesTold(outcomes, deliverySamples, materializeSamples) && x.Delivered?
    ensures DeliveriesTold(outcomes + [x], deliverySamples + [x.deliveryMs], materializeSamples + [x.materializeMs])
  {
    hide Count;
    CountOneMore(outcomes, x, IsDelivered);
    var all := outcomes + [x];
    forall k | 0 <= k < |outcomes| ensures all[..k] == outcomes[..k] && all[k] == outcomes[k] {}
    assert all[..|outcomes|] == outcomes;
  }

  lemma {:induction false} TallyTellsDeliveries(outcomes: seq<MaterializeOutcome>)
    ensures var t := TallyMaterialized(outcomes);
            && t.delivered == Count(outcomes, IsDelivered)
            && DeliveriesTold(outcomes, t.deliverySamples, t.materializeSamples)
  {
    if outcomes != [] {
      hide Count, DeliveriesTold;
      var before, x := outcomes[..|outcomes| - 1], outcomes[|outcomes| - 1];
      var t := TallyMaterialized(before);
      TallyTellsDeliveries(before);
      assert outcomes == before + [x];
      CountOneMore(before, x, IsDelivered);
      if x.Delivered? {
        DeliveryToldNext(before, x, t.deliverySamples, t.materializeSamples);
      } else {
        OtherToldNext(before, x, t.deliverySamples, t.materializeSamples);
      }
    }
  }

  lemma {:induction false} TallyTellsFailures(outcomes: seq<MaterializeOutcome>)
    ensures FailuresTold(outcomes, TallyMaterialized(outcomes).failures)
  {
    if outcomes != [] {
      hide Count;
      var n := |outcomes| - 1;
      TallyTellsFailures(outcomes[..n]);
      CountLast(outcomes, IsFailed);
      forall k | 0 <= k < n ensures outcomes[..n][..k] == outcomes[..k] && outcomes[..n][k] == outcomes[k] {}
    }
  }

  /** Every materialized element is a delivery or a failure, and the byte count is the true total cut
      at the largest 64-bit value. */
  lemma {:induction false} MaterializedAreConserved(outcomes: seq<MaterializeOutcome>)
    ensures |outcomes| == Count(outcomes, IsDelivered) + Count(outcomes, IsFailed)
    ensures var t := TallyMaterialized(outcomes);
            t.bytes == (if TotalBytes(outcomes) <= U64_MAX then TotalBytes(outcomes) else U64_MAX)
  {
    if outcomes != [] {
      MaterializedAreConserved(outcomes[..|outcomes| - 1]);
      CountLast(outcomes, IsDelivered);
      CountLast(outcomes, IsFailed);
    }
  }
}
