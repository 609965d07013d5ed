/**
 The notification rate limiter. Mount alerts and path events offer notifications
 to one limiter; here a run is the list of all offers, in order.
 */
module RateLimiter {
  import opened Timing
  import opened Wrappers

  /** One call of `should_emit_notification`. */
  datatype Offer = Offer(at: Time, interval: int)

  /** The verdict, given the time of the last notification let through. */
  predicate LetThrough(last: Option<Time>, offer: Offer) {
    if last.None? then true
    else if offer.at < last.value then true
    else offer.at - last.value >= offer.interval
  }

  /** The limiter's memory after a list of offers. */
  function LastAfter(last: Option<Time>, offers: seq<Offer>): Option<Time> {
    if offers == [] then last
    else
      var before := LastAfter(last, offers[..|offers| - 1]);
      var offer := offers[|offers| - 1];
      if LetThrough(before, offer) then Some(offer.at) else before
  }

  /** Which offers of the list are let through. */
  function Verdicts(last: Option<Time>, offers: seq<Offer>): (mask: seq<bool>)
    ensures |mask| == |offers|
  {
    if offers == [] then []
    else
      var front := offers[..|offers| - 1];
      Verdicts(last, front) + [LetThrough(LastAfter(last, front), offers[|offers| - 1])]
  }

  function Count(mask: seq<bool>): nat {
    if mask == [] then 0
    else Count(mask[..|mask| - 1]) + if mask[|mask| - 1] then 1 else 0
  }

  lemma {:induction false} OffersCompose(last: Option<Time>, a: seq<Offer>, b: seq<Offer>)
    ensures LastAfter(last, a + b) == LastAfter(LastAfter(last, a), b)
    ensures Verdicts(last, a + b) == Verdicts(last, a) + Verdicts(LastAfter(last, a), b)
  {
    if b == [] {
      assert a + b == a;
    } else {
      var front := b[..|b| - 1];
      OffersCompose(last, a, front);
      assert (a + b)[..|a + b| - 1] == a + front;
    }
  }

  lemma {:induction false} CountAdds(a: seq<bool>, b: seq<bool>)
    ensures Count(a + b) == Count(a) + Count(b)
  {
    if b == [] {
      assert a + b == a;
    } else {
      CountAdds(a, b[..|b| - 1]);
      assert (a + b)[..|a + b| - 1] == a + b[..|b| - 1];
    }
  }

  lemma LimiterStep(last: Option<Time>, offers: seq<Offer>)
    requires offers != []
    ensures var n := |offers| - 1;
            var before, through := LastAfter(last, offers[..n]), LetThrough(LastAfter(last, offers[..n]), offers[n]);
            && LastAfter(last, offers) == (if through then Some(offers[n].at) else before)
            && Verdicts(last, offers) == Verdicts(last, offers[..n]) + [through]
  {
  }

  lemma NoOffers(last: Option<Time>)
    ensures LastAfter(last, []) == last && Verdicts(last, []) == [] && Count([]) == 0
  {
  }

  /** Any two chosen offers are at least `interval` apart. */
  predicate Spaced(offers: seq<Offer>, mask: seq<bool>, interval: int)
    requires |mask| == |offers|
  {
    forall i, j | 0 <= i < j < |mask| && mask[i] && mask[j] :: offers[j].at - offers[i].at >= interval
  }

  predicate FixedInterval(offers: seq<Offer>, interval: int) {
    forall i | 0 <= i < |offers| :: offers[i].interval == interval
  }

  predicate Chronological(offers: seq<Offer>) {
    forall i, j | 0 <= i < j < |offers| :: offers[i].at <= offers[j].at
  }

  /** No offer comes with a clock that is behind the last notification let through. */
  predicate NoStepBack(offers: seq<Offer>) {
    forall i | 0 <= i < |offers| ::
      var last := LastAfter(None, offers[..i]);
      last.Some? ==> last.value <= offers[i].at
  }

  lemma NoStepBackFront(offers: seq<Offer>)
    requires offers != [] && NoStepBack(offers)
    ensures NoStepBack(offers[..|offers| - 1])
  {
    var front := offers[..|offers| - 1];
    forall i | 0 <= i < |front|
      ensures var last := LastAfter(None, front[..i]); last.Some? ==> last.value <= front[i].at
    {
      assert front[..i] == offers[..i];
    }
  }

  /** The last chosen position. */
  function LastPick(mask: seq<bool>): (r: Option<nat>)
    ensures r.None? <==> Count(mask) == 0
    ensures r.Some? ==> r.value < |mask| && mask[r.value]
    ensures forall i | 0 <= i < |mask| && mask[i] :: r.Some? && i <= r.value
  {
    if mask == [] then None
    else
      var n := |mask| - 1;
      if mask[n] then Some(n) else LastPick(mask[..n])
  }

  /** The first chosen position. */
  function FirstPick(mask: seq<bool>): (r: Option<nat>)
    ensures r.None? <==> Count(mask) == 0
    ensures r.Some? ==> r.value < |mask| && mask[r.value]
  {
    if mask == [] then None
    else
      var n := |mask| - 1;
      var r := FirstPick(mask[..n]);
      if r.None? && mask[n] then Some(n) else r
  }

  /** The limiter remembers the time of the last offer it let through. */
  lemma {:induction false} MemoryIsLastPick(offers: seq<Offer>)
    ensures var pick := LastPick(Verdicts(None, offers));
            LastAfter(None, offers) == if pick.Some? then Some(offers[pick.value].at) else None
  {
    if offers != [] {
      var n := |offers| - 1;
      MemoryIsLastPick(offers[..n]);
      assert Verdicts(None, offers)[..n] == Verdicts(None, offers[..n]);
    }
  }

  lemma ChronologicalNeverStepsBack(offers: seq<Offer>)
    requires Chronological(offers)
    ensures NoStepBack(offers)
  {
    forall i | 0 <= i < |offers|
      ensures var last := LastAfter(None, offers[..i]); last.Some? ==> last.value <= offers[i].at
    {
      MemoryIsLastPick(offers[..i]);
    }
  }

  lemma {:induction false} MemoryIsLatest(offers: seq<Offer>)
    requires NoStepBack(offers)
    ensures var last := LastAfter(None, offers);
            forall i | 0 <= i < |offers| && Verdicts(None, offers)[i] :: last.Some? && offers[i].at <= last.value
  {
    if offers != [] {
      var n := |offers| - 1;
      NoStepBackFront(offers);
      MemoryIsLatest(offers[..n]);
      assert Verdicts(None, offers)[..n] == Verdicts(None, offers[..n]);
      assert var last := LastAfter(None, offers[..n]); last.Some? ==> last.value <= offers[n].at;
    }
  }

  lemma SpacedExtends(offers: seq<Offer>, mask: seq<bool>, interval: int)
    requires |offers| == |mask| > 0
    requires var n := |offers| - 1;
             && Spaced(offers[..n], mask[..n], interval)
             && (mask[n] ==> forall i | 0 <= i < n && mask[i] :: offers[n].at - offers[i].at >= interval)
    ensures Spaced(offers, mask, interval)
  {
    var n := |offers| - 1;
    forall i, j | 0 <= i < j < |mask| && mask[i] && mask[j]
      ensures offers[j].at - offers[i].at >= interval
    {
      if j < n {
        assert mask[..n][i] && mask[..n][j];
      }
    }
  }

  /** The last offer, if let through, is spaced from all those let through before it. */
  lemma LastIsSpaced(offers: seq<Offer>, interval: int)
    requires offers != [] && FixedInterval(offers, interval) && NoStepBack(offers)
    ensures var n := |offers| - 1;
            var mask := Verdicts(None, offers);
            && mask[..n] == Verdicts(None, offers[..n])
            && (mask[n] ==> forall i | 0 <= i < n && mask[i] :: offers[n].at - offers[i].at >= interval)
  {
    var n := |offers| - 1;
    var last := LastAfter(None, offers[..n]);
    assert last.Some? ==> last.value <= offers[n].at;
    NoStepBackFront(offers);
    MemoryIsLatest(offers[..n]);
    LimiterStep(None, offers);
    hide NoStepBack, LastAfter, Verdicts;
    var mask := Verdicts(None, offers);
    assert mask[..n] == Verdicts(None, offers[..n]);
    forall i | 0 <= i < n && mask[i] && mask[n]
      ensures offers[n].at - offers[i].at >= interval
    {
      assert Verdicts(None, offers[..n])[i] && offers[..n][i] == offers[i];
    }
  }

  lemma {:induction false} LimiterSpaces(offers: seq<Offer>, interval: int)
    requires FixedInterval(offers, interval) && NoStepBack(offers)
    ensures Spaced(offers, Verdicts(None, offers), interval)
  {
    if offers != [] {
      NoStepBackFront(offers);
      LastIsSpaced(offers, interval);
      hide NoStepBack, LastAfter, Verdicts, Spaced;
      LimiterSpaces(offers[..|offers| - 1], interval);
      SpacedExtends(offers, Verdicts(None, offers), interval);
    }
  }

  /**
   The spacing holds exactly on the runs in which the branch for a clock that
   went backwards is never taken.
   */
  lemma SpacedIffNoStepBack(offers: seq<Offer>, interval: int)
    requires FixedInterval(offers, interval) && interval > 0
    ensures Spaced(offers, Verdicts(None, offers), interval) <==> NoStepBack(offers)
  {
    if NoStepBack(offers) {
      LimiterSpaces(offers, interval);
    } else {
      var k := FirstStepBack(offers);
      MemoryIsLastPick(offers[..k]);
      var i := LastPick(Verdicts(None, offers[..k])).value;
      VerdictsOfFront(offers, k);
      VerdictsOfFront(offers, k + 1);
      assert offers[..k + 1][..k] == offers[..k];
      assert Verdicts(None, offers)[i] && Verdicts(None, offers)[..k + 1][k];
      assert offers[k].at - offers[i].at < interval;
    }
  }

  lemma VerdictsOfFront(offers: seq<Offer>, k: nat)
    requires k <= |offers|
    ensures Verdicts(None, offers)[..k] == Verdicts(None, offers[..k])
  {
    assert offers == offers[..k] + offers[k..];
    OffersCompose(None, offers[..k], offers[k..]);
  }

  lemma FirstStepBack(offers: seq<Offer>) returns (k: nat)
    requires !NoStepBack(offers)
    ensures k < |offers| && NoStepBack(offers[..k])
    ensures var last := LastAfter(None, offers[..k]); last.Some? && offers[k].at < last.value
    decreases |offers|
  {
    var n := |offers| - 1;
    var front := offers[..n];
    if NoStepBack(front) {
      k := n;
      assert forall i | 0 <= i < n :: offers[..i] == front[..i];
    } else {
      k := FirstStepBack(front);
      assert offers[..k] == front[..k];
    }
  }

  // ----- clocks that step back

  /** How often the branch for a clock that went backwards is taken. */
  function StepBacks(last: Option<Time>, offers: seq<Offer>): nat {
    if offers == [] then 0
    else
      var before := LastAfter(last, offers[..|offers| - 1]);
      StepBacks(last, offers[..|offers| - 1])
      + if before.Some? && offers[|offers| - 1].at < before.value then 1 else 0
  }

  /** How far the clock moves forward between the offers, in all. */
  function Advance(offers: seq<Offer>): int {
    if |offers| <= 1 then 0
    else
      var n := |offers| - 1;
      Advance(offers[..n]) + if offers[n - 1].at < offers[n].at then offers[n].at - offers[n - 1].at else 0
  }

  lemma MemoryIsNotLater(last: Option<Time>, offers: seq<Offer>)
    requires offers != []
    ensures var n := |offers| - 1;
            LastAfter(last, offers).Some? && LastAfter(last, offers).value <= offers[n].at
  {
  }

  lemma ScaleStep(k: int, interval: int)
    ensures (k + 1) * interval == k * interval + interval
  {
  }

  /** Except for the first one and those after a step back, each notification used up an interval of the advance. */
  lemma {:induction false} AdvancePays(last: Option<Time>, offers: seq<Offer>, interval: int)
    requires FixedInterval(offers, interval) && interval > 0 && offers != []
    requires Count(Verdicts(last, offers)) > 0
    ensures var n := |offers| - 1;
            (Count(Verdicts(last, offers)) - 1 - StepBacks(last, offers)) * interval
              <= Advance(offers) - (offers[n].at - LastAfter(last, offers).value)
  {
    var n := |offers| - 1;
    var front := offers[..n];
    var mask := Verdicts(last, offers);
    assert mask[..n] == Verdicts(last, front);
    AdvanceIsNatural(offers);
    if n > 0 {
      MemoryIsNotLater(last, front);
    }
    if Count(mask[..n]) == 0 {
      var backs: int := StepBacks(last, offers);
      NotPositive(-backs, interval);
    } else {
      AdvancePays(last, front, interval);
      ScaleStep(Count(mask[..n]) - 1 - StepBacks(last, front), interval);
    }
  }

  lemma PaidFits(k: int, interval: int, advance: nat)
    requires interval > 0 && k * interval <= advance
    ensures k <= advance / interval
  {
    if k > 0 {
      SpanIsProduct(k, interval);
      HowManyFit(k, interval, advance);
    }
  }

  lemma NothingIsPaid(advance: nat, interval: int)
    requires interval > 0
    ensures advance / interval >= 0
  {
  }

  lemma NotPositive(k: int, interval: int)
    requires k <= 0 < interval
    ensures k * interval <= 0
  {
  }

  lemma {:induction false} AdvanceIsNatural(offers: seq<Offer>)
    ensures Advance(offers) >= 0
  {
    if |offers| > 1 {
      AdvanceIsNatural(offers[..|offers| - 1]);
    }
  }

  /**
   For any clock, a window of a run holds at most as many notifications as intervals
   fit into the clock's advance in it, one more, and one for each step back in it.
   */
  lemma WindowBoundWithStepBacks(offers: seq<Offer>, interval: int, lo: nat, hi: nat)
    requires FixedInterval(offers, interval) && interval > 0 && lo < hi <= |offers|
    ensures var window := offers[lo..hi];
            Count(Verdicts(None, offers)[lo..hi])
              <= Advance(window) / interval + 1 + StepBacks(LastAfter(None, offers[..lo]), window)
  {
    hide LastAfter, Verdicts, Count, StepBacks, Advance;
    var window, last := offers[lo..hi], LastAfter(None, offers[..lo]);
    VerdictsOfFront(offers, hi);
    assert offers[..hi] == offers[..lo] + window;
    OffersCompose(None, offers[..lo], window);
    var mask := Verdicts(last, window);
    assert Verdicts(None, offers)[lo..hi] == mask by {
      assert Verdicts(None, offers)[lo..hi] == Verdicts(None, offers)[..hi][lo..];
    }
    AdvanceIsNatural(window);
    NothingIsPaid(Advance(window), interval);
    if Count(mask) > 0 {
      AdvancePays(last, window, interval);
      MemoryIsNotLater(last, window);
      PaidFits(Count(mask) - 1 - StepBacks(last, window), interval, Advance(window));
    }
  }

  lemma NextOffer(last: Option<Time>, offers: seq<Offer>, next: Offer)
    ensures var before := LastAfter(last, offers);
            var through := LetThrough(before, next);
            && LastAfter(last, offers + [next]) == (if through then Some(next.at) else before)
            && Count(Verdicts(last, offers + [next])) == Count(Verdicts(last, offers)) + (if through then 1 else 0)
            && StepBacks(last, offers + [next])
               == StepBacks(last, offers) + if before.Some? && next.at < before.value then 1 else 0
  {
    var all := offers + [next];
    assert all[..|offers|] == offers;
    LimiterStep(last, all);
    CountAdds(Verdicts(last, offers), [LetThrough(LastAfter(last, offers), next)]);
    assert [LetThrough(LastAfter(last, offers), next)][..0] == [];
  }

  /** Offers on a clock that moves on by five ticks and back again, `n` times. */
  function Saw(n: nat): seq<Offer> {
    if n == 0 then [] else Saw(n - 1) + [Offer(0, 5)] + [Offer(5, 5)]
  }

  /**
   The range of the clock in a window cannot take the place of its advance: here it is
   one interval, there are `n - 1` steps back, and twice `n` notifications.
   */
  lemma {:induction false} RangeIsNotEnough(n: nat)
    ensures n > 0 ==> StepBacks(None, Saw(n)) == n - 1 && LastAfter(None, Saw(n)) == Some(5)
    ensures n == 0 ==> StepBacks(None, Saw(n)) == 0 && LastAfter(None, Saw(n)) == None
    ensures Count(Verdicts(None, Saw(n))) == 2 * n
  {
    if n > 0 {
      hide LastAfter, Verdicts, Count, StepBacks;
      RangeIsNotEnough(n - 1);
      NextOffer(None, Saw(n - 1), Offer(0, 5));
      NextOffer(None, Saw(n - 1) + [Offer(0, 5)], Offer(5, 5));
    }
  }

  /** The clock goes back by ten ticks: two notifications are let through within one interval. */
  lemma StepBackBreaksSpacing()
    ensures var offers := [Offer(100, 5), Offer(90, 5)];
            Verdicts(None, offers) == [true, true] && !Spaced(offers, Verdicts(None, offers), 5)
  {
    var offers := [Offer(100, 5), Offer(90, 5)];
    assert offers[..1] == [Offer(100, 5)];
    assert offers[..1][..0] == [];
    assert LastAfter(None, offers[..1]) == Some(100);
    assert Verdicts(None, offers[..1]) == [true];
    var mask := Verdicts(None, offers);
    assert mask[0] && mask[1] && offers[1].at - offers[0].at < 5;
  }

  /** Greedy stays ahead: with equally many choices, no other choice ends earlier. */
  lemma {:induction false} GreedyStaysAhead(offers: seq<Offer>, interval: int, mask: seq<bool>)
    requires FixedInterval(offers, interval) && NoStepBack(offers)
    requires |mask| == |offers| && Spaced(offers, mask, interval)
    ensures var greedy := Count(Verdicts(None, offers));
            && Count(mask) <= greedy
            && (Count(mask) == greedy > 0 ==>
                  LastAfter(None, offers).Some? && LastAfter(None, offers).value <= offers[LastPick(mask).value].at)
  {
    if offers != [] {
      var n := |offers| - 1;
      NoStepBackFront(offers);
      assert Spaced(offers[..n], mask[..n], interval);
      GreedyStaysAhead(offers[..n], interval, mask[..n]);
      MemoryIsLastPick(offers[..n]);
      assert Verdicts(None, offers)[..n] == Verdicts(None, offers[..n]);
      assert var last := LastAfter(None, offers[..n]); last.Some? ==> last.value <= offers[n].at;
      if mask[n] && Count(mask[..n]) > 0 {
        var i := LastPick(mask[..n]).value;
        assert mask[i] && offers[n].at - offers[i].at >= interval;
      }
    }
  }

  /** No choice of offers with the required spacing is larger than the limiter's. */
  lemma LimiterIsOptimal(offers: seq<Offer>, interval: int, mask: seq<bool>)
    requires FixedInterval(offers, interval) && Chronological(offers)
    requires |mask| == |offers| && Spaced(offers, mask, interval)
    ensures Spaced(offers, Verdicts(None, offers), interval)
    ensures Count(mask) <= Count(Verdicts(None, offers))
  {
    ChronologicalNeverStepsBack(offers);
    LimiterSpaces(offers, interval);
    GreedyStaysAhead(offers, interval, mask);
  }

  /** Chosen offers that are spaced need room. */
  lemma {:induction false} SpacedNeedsRoom(offers: seq<Offer>, mask: seq<bool>, interval: nat)
    requires |mask| == |offers| && Spaced(offers, mask, interval)
    ensures Count(mask) > 0 ==>
              Span(Count(mask) - 1, interval) <= offers[LastPick(mask).value].at - offers[FirstPick(mask).value].at
  {
    if mask != [] {
      var n := |mask| - 1;
      assert Spaced(offers[..n], mask[..n], interval);
      SpacedNeedsRoom(offers[..n], mask[..n], interval);
      if mask[n] && Count(mask[..n]) > 0 {
        var i := LastPick(mask[..n]).value;
        assert mask[i] && offers[n].at - offers[i].at >= interval;
      }
    }
  }

  lemma SpacedCountBound(offers: seq<Offer>, mask: seq<bool>, interval: int, width: int)
    requires |mask| == |offers| && Spaced(offers, mask, interval) && interval > 0
    requires Chronological(offers) && offers != [] && offers[|offers| - 1].at - offers[0].at <= width
    ensures Count(mask) <= width / interval + 1
  {
    SpacedNeedsRoom(offers, mask, interval);
    assert offers[0].at <= offers[|offers| - 1].at;
    HowManyFit(if Count(mask) > 0 then Count(mask) - 1 else 0, interval, width);
  }

  lemma WindowIsSpaced(offers: seq<Offer>, mask: seq<bool>, interval: int, lo: nat, hi: nat)
    requires |mask| == |offers| && Spaced(offers, mask, interval) && lo <= hi <= |offers|
    ensures Spaced(offers[lo..hi], mask[lo..hi], interval)
    ensures Chronological(offers) ==> Chronological(offers[lo..hi])
  {
    hide Count;
    var window, part := offers[lo..hi], mask[lo..hi];
    forall i, j | 0 <= i < j < |part| && part[i] && part[j]
      ensures window[j].at - window[i].at >= interval
    {
      assert mask[lo + i] && mask[lo + j];
    }
  }

  /** Any window of a run, of at most `width` ticks, holds at most `width / interval + 1` notifications. */
  lemma WindowBound(offers: seq<Offer>, interval: int, lo: nat, hi: nat, width: int)
    requires FixedInterval(offers, interval) && Chronological(offers) && interval > 0
    requires lo < hi <= |offers| && offers[hi - 1].at - offers[lo].at <= width
    ensures Count(Verdicts(None, offers)[lo..hi]) <= width / interval + 1
  {
    hide Spaced, Chronological, FixedInterval, Verdicts, Count, NoStepBack, LastAfter;
    ChronologicalNeverStepsBack(offers);
    LimiterSpaces(offers, interval);
    var mask, window := Verdicts(None, offers)[lo..hi], offers[lo..hi];
    assert window[0] == offers[lo] && window[|window| - 1] == offers[hi - 1];
    WindowIsSpaced(offers, Verdicts(None, offers), interval, lo, hi);
    SpacedCountBound(window, mask, interval, width);
  }
}
