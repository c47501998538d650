/** Sharing a datapoint's refs out over the putters and interleaving what they return
    (src/experiments/blob/single_getter.rs). */
module RoundRobin {
  import opened Numbers

  function Total(counts: seq<nat>): nat {
    if counts == [] then 0 else Total(counts[..|counts| - 1]) + counts[|counts| - 1]
  }

  function Lengths<T>(lists: seq<seq<T>>): (r: seq<nat>)
    ensures |r| == |lists|
  {
    seq(|lists|, p requires 0 <= p < |lists| => |lists[p]|)
  }

  // ------------------------------------------------------------ even_distribution

  function Share(total: nat, putters: nat, index: nat): nat
    requires putters > 0
  {
    total / putters + if index < total % putters then 1 else 0
  }

  function Shares(total: nat, putters: nat, count: nat): (r: seq<nat>)
    requires putters > 0
    ensures |r| == count
  {
    seq(count, i requires 0 <= i < count => Share(total, putters, i))
  }

  function EvenDistribution(total: nat, putterIds: seq<string>): (r: seq<(string, nat)>)
    requires putterIds != []
    ensures |r| == |putterIds|
  {
    seq(|putterIds|, i requires 0 <= i < |putterIds| => (putterIds[i], Share(total, |putterIds|, i)))
  }

  lemma {:induction false} SharesSum(total: nat, putters: nat, count: nat)
    requires putters > 0
    ensures Total(Shares(total, putters, count)) == count * (total / putters) + Min(count, total % putters)
  {
    var base := total / putters;
    if count == 0 {
      assert Shares(total, putters, 0) == [];
    } else {
      SharesSum(total, putters, count - 1);
      var shares := Shares(total, putters, count);
      assert shares[..count - 1] == Shares(total, putters, count - 1);
      assert shares[count - 1] == base + if count - 1 < total % putters then 1 else 0;
      OneMoreTime(count, base);
    }
  }

  lemma OneMoreTime(count: nat, base: nat)
    requires count > 0
    ensures count * base == (count - 1) * base + base
  {}

  /** Nothing is lost, and no putter gets two more than another. */
  lemma SharesAreEven(total: nat, putterIds: seq<string>)
    requires putterIds != []
    ensures var d := EvenDistribution(total, putterIds);
            && Total(seq(|d|, i requires 0 <= i < |d| => d[i].1)) == total
            && (forall i :: 0 <= i < |d| ==> d[i].0 == putterIds[i])
            && (forall i, j :: 0 <= i < j < |d| ==> d[j].1 <= d[i].1 <= d[j].1 + 1)
  {
    var m := |putterIds|;
    var d := EvenDistribution(total, putterIds);
    SharesSum(total, m, m);
    assert seq(|d|, i requires 0 <= i < |d| => d[i].1) == Shares(total, m, m);
  }

  // ------------------------------------------------------------ round_robin_refs

  /** Item `index` of each of the first `upto` lists that are long enough. */
  function Round<T>(lists: seq<seq<T>>, index: nat, upto: nat): seq<T>
    requires upto <= |lists|
  {
    if upto == 0 then []
    else Round(lists, index, upto - 1) + if index < |lists[upto - 1]| then [lists[upto - 1][index]] else []
  }

  lemma RoundStep<T>(lists: seq<seq<T>>, index: nat, upto: nat)
    requires 0 < upto <= |lists|
    ensures Round(lists, index, upto) == if index < |lists[upto - 1]|
                                         then Round(lists, index, upto - 1) + [lists[upto - 1][index]]
                                         else Round(lists, index, upto - 1)
  {}

  lemma NoRound<T>(lists: seq<seq<T>>, index: nat)
    ensures Round(lists, index, 0) == []
  {}

  function Rounds<T>(lists: seq<seq<T>>, count: nat): seq<T> {
    if count == 0 then [] else Rounds(lists, count - 1) + Round(lists, count - 1, |lists|)
  }

  function MaxLength(lengths: seq<nat>): nat {
    if lengths == [] then 0
    else
      var rest := MaxLength(lengths[..|lengths| - 1]);
      if rest < lengths[|lengths| - 1] then lengths[|lengths| - 1] else rest
  }

  function Interleaved<T>(lists: seq<seq<T>>): seq<T> { Rounds(lists, MaxLength(Lengths(lists))) }

  method LongestLength<T>(lists: seq<seq<T>>) returns (longest: nat)
    ensures longest == MaxLength(Lengths(lists))
  {
    longest := 0;
    for p := 0 to |lists|
      invariant longest == MaxLength(Lengths(lists)[..p])
    {
      assert Lengths(lists)[..p + 1][..p] == Lengths(lists)[..p];
      if longest < |lists[p]| { longest := |lists[p]|; }
    }
    assert Lengths(lists)[..|lists|] == Lengths(lists);
  }

  /** The inner loop: one item of each putter that has one left. */
  method AppendRound<T>(before: seq<T>, refsByPutter: seq<seq<T>>, index: nat) returns (refs: seq<T>)
    ensures refs == before + Round(refsByPutter, index, |refsByPutter|)
  {
    refs := before;
    ghost var round: seq<T> := [];
    for p := 0 to |refsByPutter|
      invariant round == Round(refsByPutter, index, p) && refs == before + round
    {
      if index < |refsByPutter[p]| {
        refs := refs + [refsByPutter[p][index]];
        round := round + [refsByPutter[p][index]];
      }
    }
  }

  method RoundRobinRefs<T>(refsByPutter: seq<seq<T>>) returns (refs: seq<T>)
    ensures refs == Interleaved(refsByPutter)
  {
    hide MaxLength, Lengths, Round;
    var maxLength := LongestLength(refsByPutter);
    refs := [];
    for index := 0 to maxLength
      invariant refs == Rounds(refsByPutter, index)
    {
      refs := AppendRound(refs, refsByPutter, index);
    }
  }

  // ------------------------------------------------------------ where each ref comes from

  datatype Place = Place(putter: nat, item: nat)

  /** The lists with every item replaced by its own place: list p holds (p, 0), (p, 1) and so on. */
  function Places(lengths: seq<nat>): (r: seq<seq<Place>>)
    ensures |r| == |lengths|
    ensures forall p :: 0 <= p < |lengths| ==> |r[p]| == lengths[p]
    ensures forall p, i :: 0 <= p < |lengths| && 0 <= i < lengths[p] ==> r[p][i] == Place(p, i)
  {
    seq(|lengths|, p requires 0 <= p < |lengths| => seq(lengths[p], i requires 0 <= i => Place(p, i)))
  }

  /** Earlier rounds first, and within a round the putters in order. */
  predicate Before(a: Place, b: Place) { a.item < b.item || (a.item == b.item && a.putter < b.putter) }

  ghost predicate Ordered(places: seq<Place>) {
    forall k, l :: 0 <= k < l < |places| ==> Before(places[k], places[l])
  }

  lemma OrderedOneMore(places: seq<Place>, place: Place)
    requires Ordered(places) && forall p: Place :: p in places ==> Before(p, place)
    ensures Ordered(places + [place])
  {
    forall k, l | 0 <= k < l < |places + [place]| ensures Before((places + [place])[k], (places + [place])[l]) {
      assert places[k] in places;
    }
  }

  lemma {:induction false} RoundPlaces(lengths: seq<nat>, index: nat, upto: nat)
    requires upto <= |lengths|
    ensures var round := Round(Places(lengths), index, upto);
            && Ordered(round)
            && (forall place: Place ::
                  place in round <==> place.putter < upto && place.item == index && index < lengths[place.putter])
  {
    hide Ordered, Round;
    if upto == 0 {
      NoRound(Places(lengths), index);
      NothingIsOrdered();
    } else {
      RoundPlaces(lengths, index, upto - 1);
      RoundStep(Places(lengths), index, upto);
      if index < lengths[upto - 1] {
        OrderedOneMore(Round(Places(lengths), index, upto - 1), Place(upto - 1, index));
      }
    }
  }

  /** The places of the items that the first `count` rounds take. */
  ghost predicate TakenPlace(lengths: seq<nat>, count: nat, place: Place) {
    place.putter < |lengths| && place.item < count && place.item < lengths[place.putter]
  }

  lemma OrderedAppend(places: seq<Place>, round: seq<Place>, index: nat)
    requires Ordered(places) && Ordered(round)
    requires forall place: Place :: place in places ==> place.item < index
    requires forall place: Place :: place in round ==> place.item == index
    ensures Ordered(places + round)
  {
    forall k, l | 0 <= k < l < |places + round| ensures Before((places + round)[k], (places + round)[l]) {
      if k < |places| <= l {
        assert places[k] in places;
        assert round[l - |places|] in round;
      }
    }
  }

  lemma {:induction false} RoundsPlaces(lengths: seq<nat>, count: nat)
    ensures var places := Rounds(Places(lengths), count);
            && Ordered(places)
            && (forall place: Place :: place in places <==> TakenPlace(lengths, count, place))
  {
    hide Ordered, Round;
    if count > 0 {
      RoundsPlaces(lengths, count - 1);
      RoundPlaces(lengths, count - 1, |lengths|);
      OrderedAppend(Rounds(Places(lengths), count - 1), Round(Places(lengths), count - 1, |lengths|), count - 1);
    } else {
      NothingIsOrdered();
    }
  }

  lemma NothingIsOrdered()
    ensures Ordered([])
  {}

  lemma {:induction false} MaxBounds(lengths: seq<nat>)
    ensures forall p :: 0 <= p < |lengths| ==> lengths[p] <= MaxLength(lengths)
  {
    if lengths != [] { MaxBounds(lengths[..|lengths| - 1]); }
  }

  /** The places in the order they are taken: each place of each list exactly once, round by round,
      and so each putter's own order is kept. */
  lemma InterleavedPlaces(lengths: seq<nat>)
    ensures var places := Interleaved(Places(lengths));
            && Ordered(places)
            && (forall place: Place ::
                  place in places <==> place.putter < |lengths| && place.item < lengths[place.putter])
            && (forall k, l :: 0 <= k < l < |places| ==> places[k] != places[l])
            && (forall k, l :: 0 <= k < l < |places| && places[k].putter == places[l].putter ==>
                  places[k].item < places[l].item)
  {
    assert Lengths(Places(lengths)) == lengths;
    RoundsPlaces(lengths, MaxLength(lengths));
    MaxBounds(lengths);
  }

  /** Each ref is the item of the lists at its place. */
  ghost predicate Follows<T>(refs: seq<T>, places: seq<Place>, lists: seq<seq<T>>) {
    && |refs| == |places|
    && forall k :: 0 <= k < |refs| ==> && places[k].putter < |lists| && places[k].item < |lists[places[k].putter]|
                                       && refs[k] == lists[places[k].putter][places[k].item]
  }

  lemma FollowsOn<T>(refs: seq<T>, places: seq<Place>, more: seq<T>, morePlaces: seq<Place>, lists: seq<seq<T>>)
    requires Follows(refs, places, lists) && Follows(more, morePlaces, lists)
    ensures Follows(refs + more, places + morePlaces, lists)
  {}

  lemma NothingFollows<T>(lists: seq<seq<T>>)
    ensures Follows([], [], lists)
  {}

  lemma OneFollows<T>(lists: seq<seq<T>>, putter: nat, item: nat)
    requires putter < |lists| && item < |lists[putter]|
    ensures Follows([lists[putter][item]], [Place(putter, item)], lists)
  {}

  /** Interleaving lists is taking their items at the interleaved places. */
  lemma {:induction false} RoundFollowsPlaces<T>(lists: seq<seq<T>>, index: nat, upto: nat)
    requires upto <= |lists|
    ensures Follows(Round(lists, index, upto), Round(Places(Lengths(lists)), index, upto), lists)
  {
    hide Follows, Round;
    if upto == 0 {
      NoRound(lists, index);
      NoRound(Places(Lengths(lists)), index);
      NothingFollows(lists);
    } else {
      RoundFollowsPlaces(lists, index, upto - 1);
      RoundStep(lists, index, upto);
      RoundStep(Places(Lengths(lists)), index, upto);
      if index < |lists[upto - 1]| {
        OneFollows(lists, upto - 1, index);
        FollowsOn(Round(lists, index, upto - 1), Round(Places(Lengths(lists)), index, upto - 1),
                  [lists[upto - 1][index]], [Place(upto - 1, index)], lists);
      }
    }
  }

  lemma {:induction false} RoundsFollowPlaces<T>(lists: seq<seq<T>>, count: nat)
    ensures Follows(Rounds(lists, count), Rounds(Places(Lengths(lists)), count), lists)
  {
    hide Follows, Round;
    if count == 0 {
      NothingFollows(lists);
    } else {
      RoundsFollowPlaces(lists, count - 1);
      RoundFollowsPlaces(lists, count - 1, |lists|);
      FollowsOn(Rounds(lists, count - 1), Rounds(Places(Lengths(lists)), count - 1),
                Round(lists, count - 1, |lists|), Round(Places(Lengths(lists)), count - 1, |lists|), lists);
    }
  }

  lemma InterleavedFollowsPlaces<T>(lists: seq<seq<T>>)
    ensures Follows(Interleaved(lists), Interleaved(Places(Lengths(lists))), lists)
  {
    hide Follows, Rounds;
    assert Lengths(Places(Lengths(lists))) == Lengths(lists);
    RoundsFollowPlaces(lists, MaxLength(Lengths(lists)));
  }

  // ------------------------------------------------------------ how many there are

  function Taken(lengths: seq<nat>, count: nat, upto: nat): nat
    requires upto <= |lengths|
  {
    if upto == 0 then 0 else Taken(lengths, count, upto - 1) + Min(lengths[upto - 1], count)
  }

  lemma {:induction false} RoundCounts<T>(lists: seq<seq<T>>, index: nat, upto: nat)
    requires upto <= |lists|
    ensures Taken(Lengths(lists), index, upto) + |Round(lists, index, upto)| == Taken(Lengths(lists), index + 1, upto)
  {
    if upto > 0 { RoundCounts(lists, index, upto - 1); }
  }

  lemma {:induction false} RoundsCount<T>(lists: seq<seq<T>>, count: nat)
    ensures |Rounds(lists, count)| == Taken(Lengths(lists), count, |lists|)
  {
    hide Round, Taken;
    if count > 0 {
      RoundsCount(lists, count - 1);
      RoundCounts(lists, count - 1, |lists|);
    } else {
      TakenNothing(Lengths(lists), |lists|);
    }
  }

  lemma {:induction false} TakenNothing(lengths: seq<nat>, upto: nat)
    requires upto <= |lengths|
    ensures Taken(lengths, 0, upto) == 0
  {
    if upto > 0 { TakenNothing(lengths, upto - 1); }
  }

  lemma {:induction false} TakenAll(lengths: seq<nat>, count: nat, upto: nat)
    requires upto <= |lengths| && forall p :: 0 <= p < |lengths| ==> lengths[p] <= count
    ensures Taken(lengths, count, upto) == Total(lengths[..upto])
  {
    if upto > 0 {
      TakenAll(lengths, count, upto - 1);
      assert lengths[..upto][..upto - 1] == lengths[..upto - 1];
    }
  }

  /** The interleaved list is as long as the lists together. */
  lemma InterleavedLength<T>(lists: seq<seq<T>>)
    ensures |Interleaved(lists)| == Total(Lengths(lists))
  {
    var lengths := Lengths(lists);
    RoundsCount(lists, MaxLength(lengths));
    MaxBounds(lengths);
    TakenAll(lengths, MaxLength(lengths), |lists|);
    assert lengths[..|lists|] == lengths;
  }

  // ------------------------------------------------------------ the closed form

  /** Whole rounds: while every list is long enough, ref k is putter (k mod m)'s item (k div m). */
  predicate CyclesAt(place: Place, k: nat, m: nat)
    requires m > 0
  {
    place == Place(k % m, k / m)
  }

  lemma {:induction false} TimesGrows(p: nat, q: nat, m: nat)
    requires p <= q
    ensures p * m <= q * m
  {
    if p < q { TimesGrows(p, q - 1, m); }
  }

  lemma SmallerQuotient(p: nat, q: nat, r: nat, m: nat)
    requires p < q && r < m
    ensures p * m + r < q * m
  {
    TimesGrows(p + 1, q, m);
    assert (p + 1) * m == p * m + m;
  }

  lemma Quotient(k: nat, q: nat, r: nat, m: nat)
    requires r < m && k == q * m + r
    ensures k / m == q && k % m == r
  {
    var p, s := k / m, k % m;
    assert k == p * m + s;
    if p < q { SmallerQuotient(p, q, s, m); }
    if q < p { SmallerQuotient(q, p, r, m); }
  }

  /** A round that reaches exactly the first `longer` lists. */
  lemma {:induction false} RoundOfFirst(lengths: seq<nat>, index: nat, upto: nat, longer: nat)
    requires upto <= |lengths|
    requires forall p :: 0 <= p < |lengths| ==> (index < lengths[p] <==> p < longer)
    ensures var round := Round(Places(lengths), index, upto);
            |round| == Min(upto, longer) && forall k :: 0 <= k < |round| ==> round[k] == Place(k, index)
  {
    if upto > 0 { RoundOfFirst(lengths, index, upto - 1, longer); }
  }

  lemma {:induction false} WholeRounds(lengths: seq<nat>, count: nat)
    requires lengths != [] && forall p :: 0 <= p < |lengths| ==> count <= lengths[p]
    ensures var places := Rounds(Places(lengths), count);
            && |places| == count * |lengths|
            && forall k :: 0 <= k < |places| ==> CyclesAt(places[k], k, |lengths|)
  {
    hide CyclesAt, Round;
    var m := |lengths|;
    if count > 0 {
      WholeRounds(lengths, count - 1);
      RoundOfFirst(lengths, count - 1, m, m);
      OneMoreTime(count, m);
      CyclesGoOn(Rounds(Places(lengths), count - 1), Round(Places(lengths), count - 1, m), count - 1, m, m);
    }
  }

  /** A further round, perhaps a partial one, goes on in the same cycle. */
  lemma CyclesGoOn(before: seq<Place>, round: seq<Place>, index: nat, m: nat, longer: nat)
    requires m > 0 && |before| == index * m && longer <= m
    requires forall k :: 0 <= k < |before| ==> CyclesAt(before[k], k, m)
    requires |round| == longer && forall k :: 0 <= k < |round| ==> round[k] == Place(k, index)
    ensures |before + round| == index * m + longer
    ensures forall k :: 0 <= k < |before + round| ==> CyclesAt((before + round)[k], k, m)
  {
    forall k | 0 <= k < |before + round| ensures CyclesAt((before + round)[k], k, m) {
      if k >= |before| { Quotient(k, index, k - |before|, m); }
    }
  }

  /** The putters of an even distribution that are given anything. */
  function Busy(total: nat, putters: nat): nat { Min(total, putters) }

  lemma Division(total: nat, putters: nat)
    requires putters > 0
    ensures total == (total / putters) * putters + total % putters
    ensures total < putters ==> total / putters == 0 && total % putters == total
    ensures total >= putters ==> total / putters >= 1
  {
    if total < putters { Quotient(total, 0, total, putters); }
  }

  /** They come first, and the putters that are given one more come first among them. */
  lemma BusyShares(total: nat, putters: nat)
    requires putters > 0
    ensures forall i :: 0 <= i < putters ==> (Share(total, putters, i) > 0 <==> i < Busy(total, putters))
    ensures var m, base, extra := Busy(total, putters), total / putters, total % putters;
            var lengths := Shares(total, putters, m);
            && base * m + Min(m, extra) == total
            && (forall p :: 0 <= p < m ==> base <= lengths[p] && (base < lengths[p] <==> p < Min(m, extra)))
            && (total > 0 ==> m > 0 && MaxLength(lengths) == if Min(m, extra) > 0 then base + 1 else base)
  {
    Division(total, putters);
    if total > 0 { MaxOfFirst(Shares(total, putters, Busy(total, putters))); }
  }

  lemma {:induction false} MaxOfFirst(lengths: seq<nat>)
    requires lengths != [] && forall p :: 0 <= p < |lengths| ==> lengths[p] <= lengths[0]
    ensures MaxLength(lengths) == lengths[0]
  {
    if |lengths| > 1 { MaxOfFirst(lengths[..|lengths| - 1]); }
  }

  /** Lists of length `base` or one more, the longer ones first. */
  lemma AlmostEvenPlaces(lengths: seq<nat>, base: nat, longer: nat)
    requires lengths != [] && longer <= |lengths|
    requires forall p :: 0 <= p < |lengths| ==> base <= lengths[p] && (base < lengths[p] <==> p < longer)
    requires MaxLength(lengths) == if longer > 0 then base + 1 else base
    ensures var places := Interleaved(Places(lengths));
            && |places| == base * |lengths| + longer
            && forall k :: 0 <= k < |places| ==> CyclesAt(places[k], k, |lengths|)
  {
    hide CyclesAt, Round, MaxLength;
    assert Lengths(Places(lengths)) == lengths;
    WholeRounds(lengths, base);
    if longer > 0 {
      RoundOfFirst(lengths, base, |lengths|, longer);
      CyclesGoOn(Rounds(Places(lengths), base), Round(Places(lengths), base, |lengths|), base, |lengths|, longer);
    }
  }

  lemma BusyPlaces(total: nat, putters: nat)
    requires putters > 0 && total > 0
    ensures var m := Busy(total, putters);
            var places := Interleaved(Places(Shares(total, putters, m)));
            && m > 0 && |places| == total
            && forall k :: 0 <= k < total ==> CyclesAt(places[k], k, m)
  {
    hide Share, MaxLength, CyclesAt, Interleaved;
    BusyShares(total, putters);
    var m := Busy(total, putters);
    AlmostEvenPlaces(Shares(total, putters, m), total / putters, Min(m, total % putters));
  }

  /** Ref k of the cycle over lists: list (k mod m)'s item (k div m). */
  ghost predicate CycleRef<T>(lists: seq<seq<T>>, k: nat, ref: T)
    requires lists != []
  {
    var putter, item := k % |lists|, k / |lists|;
    item < |lists[putter]| && ref == lists[putter][item]
  }

  /** What run_datapoint interleaves: one list from each putter given anything, each as long as its
      share. The list has exactly `total` refs, so its length check cannot fail, and ref k is
      putter (k mod m)'s item (k div m). */
  lemma RoundRobinClosedForm<T>(total: nat, putters: nat, refsByPutter: seq<seq<T>>)
    requires putters > 0 && total > 0
    requires Lengths(refsByPutter) == Shares(total, putters, Busy(total, putters))
    ensures refsByPutter != [] && |Interleaved(refsByPutter)| == total
    ensures forall k :: 0 <= k < total ==> CycleRef(refsByPutter, k, Interleaved(refsByPutter)[k])
  {
    hide Share, Interleaved, Busy, CyclesAt, CycleRef;
    BusyPlaces(total, putters);
    InterleavedFollowsPlaces(refsByPutter);
    var refs, places := Interleaved(refsByPutter), Interleaved(Places(Lengths(refsByPutter)));
    forall k | 0 <= k < total ensures CycleRef(refsByPutter, k, refs[k]) {
      assert CyclesAt(places[k], k, |refsByPutter|);
      CycleFollows(refsByPutter, k, refs[k], places[k]);
    }
  }

  lemma CycleFollows<T>(lists: seq<seq<T>>, k: nat, ref: T, place: Place)
    requires lists != [] && CyclesAt(place, k, |lists|)
    requires place.putter < |lists| && place.item < |lists[place.putter]| && ref == lists[place.putter][place.item]
    ensures CycleRef(lists, k, ref)
  {}
}
