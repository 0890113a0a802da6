/** The lazily refilled bucket against two references: a run with calls left out, and an ideal limiter
    that looks only at the calls it has granted. */
module RateLimitIdeal {
  import opened RateLimit

  // Leaving calls out

  function Select(calls: seq<Call>, keep: seq<bool>): seq<Call>
    requires |keep| == |calls|
  {
    if calls == [] then []
    else (if keep[0] then [calls[0]] else []) + Select(calls[1..], keep[1..])
  }

  /** The answers that ip gets, in order, to those of its calls that are kept. */
  function KeptAnswers(l: Limits, levels: Levels, calls: seq<Call>, keep: seq<bool>, ip: string): seq<bool>
    requires |keep| == |calls|
    decreases |calls|
  {
    if calls == [] then []
    else
      var c := calls[0];
      (if c.ip == ip && keep[0] then [Grants(l, levels, c.ip, c.now)] else [])
      + KeptAnswers(l, AfterCall(l, levels, c.ip, c.now), calls[1..], keep[1..], ip)
  }

  function Answers(l: Limits, levels: Levels, calls: seq<Call>, ip: string): seq<bool>
    decreases |calls|
  {
    if calls == [] then []
    else
      var c := calls[0];
      (if c.ip == ip then [Grants(l, levels, c.ip, c.now)] else [])
      + Answers(l, AfterCall(l, levels, c.ip, c.now), calls[1..], ip)
  }

  /** Of ip's own calls, only denied ones are left out; other addresses' calls may go or stay. */
  predicate DropsOnlyDenied(l: Limits, levels: Levels, calls: seq<Call>, keep: seq<bool>, ip: string)
    requires |keep| == |calls|
    decreases |calls|
  {
    if calls == [] then true
    else
      var c := calls[0];
      && (c.ip == ip && !keep[0] ==> !Grants(l, levels, c.ip, c.now))
      && DropsOnlyDenied(l, AfterCall(l, levels, c.ip, c.now), calls[1..], keep[1..], ip)
  }

  /** From the clock on, ip has the same tokens in both. */
  ghost predicate SameTokens(l: Limits, a: Levels, b: Levels, ip: string, clock: real) {
    forall t :: clock <= t ==> Available(l, a, ip, t) == Available(l, b, ip, t)
  }

  lemma GrantsByTokens(l: Limits, levels: Levels, ip: string, now: real)
    requires Sized(l)
    ensures Grants(l, levels, ip, now) <==> Available(l, levels, ip, now) >= 1.0
  {
  }

  /** What a call leaves at any later time. */
  lemma LeftLater(l: Limits, levels: Levels, c: Call, ip: string, t: real)
    requires Sized(l) && c.now <= t
    ensures Available(l, AfterCall(l, levels, c.ip, c.now), ip, t)
         == if c.ip == ip && Available(l, levels, ip, c.now) >= 1.0
            then RealMin(l.capacity, Available(l, levels, ip, c.now) - 1.0 + Gain(l, c.now, t))
            else Available(l, levels, ip, t)
  {
    hide Gain, Available, AfterCall, Grants;
    GrantsByTokens(l, levels, ip, c.now);
    LeftBy(l, levels, c, ip);
    Grows(l, AfterCall(l, levels, c.ip, c.now), ip, c.now, t);
    Grows(l, levels, ip, c.now, t);
  }

  lemma SameAfter(l: Limits, a: Levels, b: Levels, ip: string, clock: real, c: Call)
    requires Sized(l) && SameTokens(l, a, b, ip, clock) && clock <= c.now
    ensures SameTokens(l, AfterCall(l, a, c.ip, c.now), AfterCall(l, b, c.ip, c.now), ip, c.now)
    ensures c.ip != ip || !Grants(l, a, ip, c.now) ==> SameTokens(l, AfterCall(l, a, c.ip, c.now), b, ip, c.now)
    ensures Grants(l, a, ip, c.now) <==> Grants(l, b, ip, c.now)
  {
    hide Gain, Available, AfterCall, Grants;
    GrantsByTokens(l, a, ip, c.now);
    GrantsByTokens(l, b, ip, c.now);
    forall t | c.now <= t
      ensures Available(l, AfterCall(l, a, c.ip, c.now), ip, t) == Available(l, AfterCall(l, b, c.ip, c.now), ip, t)
      ensures c.ip != ip || !Grants(l, a, ip, c.now) ==>
        Available(l, AfterCall(l, a, c.ip, c.now), ip, t) == Available(l, b, ip, t)
    {
      LeftLater(l, a, c, ip, t);
      LeftLater(l, b, c, ip, t);
    }
  }

  /** Lazy refill has no memory of its own: leaving out any of ip's denied calls and any calls of other
      addresses changes none of the answers that ip gets to the rest. */
  lemma {:induction false} HistoryFree(
    l: Limits, clock: real, a: Levels, b: Levels, calls: seq<Call>, keep: seq<bool>, ip: string)
    requires Sized(l) && Ordered(clock, calls) && |keep| == |calls| && SameTokens(l, a, b, ip, clock)
    requires DropsOnlyDenied(l, a, calls, keep, ip)
    ensures Answers(l, b, Select(calls, keep), ip) == KeptAnswers(l, a, calls, keep, ip)
    decreases |calls|
  {
    if calls != [] {
      hide SameTokens, AfterCall, Grants, Ordered;
      var c := calls[0];
      var a' := AfterCall(l, a, c.ip, c.now);
      FirstNotEarlier(clock, calls);
      SameAfter(l, a, b, ip, clock, c);
      TailOrdered(clock, calls);
      if keep[0] {
        HistoryFree(l, c.now, a', AfterCall(l, b, c.ip, c.now), calls[1..], keep[1..], ip);
        assert Select(calls, keep)[0] == c && Select(calls, keep)[1..] == Select(calls[1..], keep[1..]);
      } else {
        HistoryFree(l, c.now, a', b, calls[1..], keep[1..], ip);
        assert Select(calls, keep) == Select(calls[1..], keep[1..]);
      }
    }
  }

  lemma FirstNotEarlier(clock: real, calls: seq<Call>)
    requires calls != [] && Ordered(clock, calls)
    ensures clock <= calls[0].now
  {
  }

  // The ideal limiter

  /** x tokens could be handed to ip at time t without any window that began at an earlier grant
      exceeding one full bucket plus its refill. */
  predicate Room(l: Limits, granted: seq<Call>, ip: string, t: real, x: real) {
    && x <= l.capacity
    && forall i :: 0 <= i < |granted| && granted[i].ip == ip ==>
         Count(granted[i..], ip) as real + x <= l.capacity + (t - granted[i].now) * l.refill
  }

  lemma RoomByGain(l: Limits, granted: seq<Call>, ip: string, t: real, x: real)
    ensures Room(l, granted, ip, t, x) <==>
      && x <= l.capacity
      && forall i :: 0 <= i < |granted| && granted[i].ip == ip ==>
           Count(granted[i..], ip) as real + x <= l.capacity + Gain(l, granted[i].now, t)
  {
  }

  function IdealOutcomes(l: Limits, granted: seq<Call>, calls: seq<Call>): seq<bool>
    decreases |calls|
  {
    if calls == [] then []
    else
      var ok := Room(l, granted, calls[0].ip, calls[0].now, 1.0);
      [ok] + IdealOutcomes(l, if ok then granted + [calls[0]] else granted, calls[1..])
  }

  /** The bucket's level is the largest amount there is room for. */
  ghost predicate Tracks(l: Limits, levels: Levels, granted: seq<Call>, clock: real) {
    forall ip, t, x :: clock <= t ==> (x <= Available(l, levels, ip, t) <==> Room(l, granted, ip, t, x))
  }

  lemma {:induction false} CountSnoc(calls: seq<Call>, c: Call, ip: string)
    ensures Count(calls + [c], ip) == Count(calls, ip) + (if c.ip == ip then 1 else 0)
  {
    if calls == [] {
    } else {
      assert (calls + [c])[1..] == calls[1..] + [c];
      CountSnoc(calls[1..], c, ip);
    }
  }

  lemma RoomSnocOther(l: Limits, granted: seq<Call>, c: Call, ip: string, t: real, x: real)
    requires c.ip != ip
    ensures Room(l, granted + [c], ip, t, x) <==> Room(l, granted, ip, t, x)
  {
    RoomByGain(l, granted, ip, t, x);
    RoomByGain(l, granted + [c], ip, t, x);
    hide Gain, Room;
    var more := granted + [c];
    forall i | 0 <= i < |granted|
      ensures Count(more[i..], ip) == Count(granted[i..], ip) && more[i] == granted[i]
    {
      assert more[i..] == granted[i..] + [c];
      CountSnoc(granted[i..], c, ip);
    }
  }

  /** One more grant takes one token from every window that it falls into. */
  lemma RoomSnocSame(l: Limits, granted: seq<Call>, c: Call, t: real, x: real)
    requires c.now <= t
    ensures Room(l, granted + [c], c.ip, t, x) <==>
      x <= l.capacity && Room(l, granted, c.ip, c.now, x + 1.0 - Gain(l, c.now, t))
  {
    RoomByGain(l, granted, c.ip, c.now, x + 1.0 - Gain(l, c.now, t));
    RoomByGain(l, granted + [c], c.ip, t, x);
    GainFacts(l, t, t, t);
    hide Gain, Room;
    var more := granted + [c];
    forall i | 0 <= i < |granted|
      ensures Count(more[i..], c.ip) == Count(granted[i..], c.ip) + 1 && more[i] == granted[i]
    {
      assert more[i..] == granted[i..] + [c];
      CountSnoc(granted[i..], c, c.ip);
    }
    assert more[|granted|..] == [c];
    assert Count([c], c.ip) == 1;
    forall i | 0 <= i < |granted|
      ensures Gain(l, granted[i].now, t) == Gain(l, granted[i].now, c.now) + Gain(l, c.now, t)
    {
      GainFacts(l, granted[i].now, c.now, t);
    }
  }

  lemma TracksStep(l: Limits, levels: Levels, granted: seq<Call>, clock: real, c: Call)
    requires Sized(l) && Tracks(l, levels, granted, clock) && clock <= c.now
    ensures Grants(l, levels, c.ip, c.now) <==> Room(l, granted, c.ip, c.now, 1.0)
    ensures Tracks(l, AfterCall(l, levels, c.ip, c.now),
                   if Grants(l, levels, c.ip, c.now) then granted + [c] else granted, c.now)
  {
    hide Gain, Available, AfterCall, Grants, Room;
    GrantsByTokens(l, levels, c.ip, c.now);
    var levels' := AfterCall(l, levels, c.ip, c.now);
    var ok := Grants(l, levels, c.ip, c.now);
    var granted' := if ok then granted + [c] else granted;
    forall ip, t, x | c.now <= t
      ensures x <= Available(l, levels', ip, t) <==> Room(l, granted', ip, t, x)
    {
      LeftLater(l, levels, c, ip, t);
      if ok && c.ip == ip {
        RoomSnocSame(l, granted, c, t, x);
        assert x + 1.0 - Gain(l, c.now, t) <= Available(l, levels, ip, c.now)
          <==> Room(l, granted, ip, c.now, x + 1.0 - Gain(l, c.now, t));
      } else if ok {
        RoomSnocOther(l, granted, c, ip, t, x);
      }
    }
  }

  lemma {:induction false} AgreesWithIdealFrom(
    l: Limits, levels: Levels, granted: seq<Call>, clock: real, calls: seq<Call>)
    requires Sized(l) && Tracks(l, levels, granted, clock) && Ordered(clock, calls)
    ensures Outcomes(l, levels, calls) == IdealOutcomes(l, granted, calls)
    decreases |calls|
  {
    if calls != [] {
      var c := calls[0];
      FirstNotEarlier(clock, calls);
      TailOrdered(clock, calls);
      TracksStep(l, levels, granted, clock, c);
      hide Tracks, AfterCall, Grants, Ordered, Room;
      AgreesWithIdealFrom(l, AfterCall(l, levels, c.ip, c.now),
        if Grants(l, levels, c.ip, c.now) then granted + [c] else granted, c.now, calls[1..]);
    }
  }

  /** From the start, and for every run: the limiter lets a call through exactly when doing so keeps
      every window that ends with it within one full bucket plus its refill. */
  lemma AgreesWithIdeal(l: Limits, clock: real, calls: seq<Call>)
    requires Sized(l) && Ordered(clock, calls)
    ensures Outcomes(l, map[], calls) == IdealOutcomes(l, [], calls)
  {
    AgreesWithIdealFrom(l, map[], [], clock, calls);
  }
}
