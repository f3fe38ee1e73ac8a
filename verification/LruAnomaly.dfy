/**
 Three experts per event are one too many for inclusion, and five are one too many for the hits.
 Because hits are promoted before misses are filed, the order inside an event depends on the
 capacity: from three up a smaller cache can keep what a larger one lost, and from five up one more
 slot can cost arbitrarily many hits.
 */
module LruAnomaly {
  import opened Trace
  import opened LruEngine
  import opened LruCapacity
  import opened ListCache

  // ---- Eleven events that leave both caches as they found them ----

  /** Two events that fill seven slots. */
  function SevenWarm(): Script {
    Then(Turn(Of5(20, 21, 22, 23, 24), 0, Nil, Nil, Of5(20, 21, 22, 23, 24), Of5(20, 21, 22, 23, 24)),
    Then(Turn(Of5(25, 26, 27, 28, 29), 3, Of2(23, 24), Nil, Of5(25, 26, 27, 28, 29), Of7(23, 24, 25, 26, 27, 28, 29)),
    End))
  }

  lemma {:induction false} SevenWarmTurns()
    ensures Serves(Nil, Of5(20, 21, 22, 23, 24), 0, Nil, Nil, Of5(20, 21, 22, 23, 24), Of5(20, 21, 22, 23, 24), 2)
    ensures Serves(Of5(20, 21, 22, 23, 24), Of5(25, 26, 27, 28, 29), 3, Of2(23, 24), Nil, Of5(25, 26, 27, 28, 29),
      Of7(23, 24, 25, 26, 27, 28, 29), 2)
  {
  }

  lemma {:induction false} SevenWarmFollows()
    ensures Follows(Nil, SevenWarm(), 2)
    ensures Last(Nil, SevenWarm()) == Of7(23, 24, 25, 26, 27, 28, 29) && Score(SevenWarm()) == 0
  {
    hide Serves;
    SevenWarmTurns();
  }

  /** The loop, first half, with seven slots ... */
  function SevenOut(): Script {
    Then(Turn(Of5(8, 9, 0, 1, 2), 5, Of2(28, 29), Nil, Of5(8, 9, 0, 1, 2), Of7(28, 29, 8, 9, 0, 1, 2)),
    Then(Turn(Of5(3, 4, 5, 6, 7), 5, Of2(1, 2), Nil, Of5(3, 4, 5, 6, 7), Of7(1, 2, 3, 4, 5, 6, 7)),
    Then(Turn(Of5(0, 1, 2, 3, 4), 1, Of2(6, 7), Of4(1, 2, 3, 4), Cons(0, Nil), Of7(6, 7, 1, 2, 3, 4, 0)),
    Then(Turn(Of5(5, 6, 7, 1, 8), 2, Of2(4, 0), Of3(6, 7, 1), Of2(5, 8), Of7(4, 0, 6, 7, 1, 5, 8)),
    Then(Turn(Of5(2, 3, 4, 6, 0), 2, Of2(5, 8), Of3(4, 6, 0), Of2(2, 3), Of7(5, 8, 4, 6, 0, 2, 3)),
    Then(Turn(Of5(5, 9, 7, 1, 8), 3, Of2(2, 3), Of2(5, 8), Of3(9, 7, 1), Of7(2, 3, 5, 8, 9, 7, 1)),
    End))))))
  }

  lemma {:induction false} SevenOutTurns1()
    ensures Serves(Of7(23, 24, 25, 26, 27, 28, 29), Of5(8, 9, 0, 1, 2), 5, Of2(28, 29), Nil, Of5(8, 9, 0, 1, 2),
      Of7(28, 29, 8, 9, 0, 1, 2), 2)
    ensures Serves(Of7(28, 29, 8, 9, 0, 1, 2), Of5(3, 4, 5, 6, 7), 5, Of2(1, 2), Nil, Of5(3, 4, 5, 6, 7),
      Of7(1, 2, 3, 4, 5, 6, 7), 2)
  {
  }

  lemma {:induction false} SevenOutTurns2()
    ensures Serves(Of7(1, 2, 3, 4, 5, 6, 7), Of5(0, 1, 2, 3, 4), 1, Of2(6, 7), Of4(1, 2, 3, 4), Cons(0, Nil),
      Of7(6, 7, 1, 2, 3, 4, 0), 2)
    ensures Serves(Of7(6, 7, 1, 2, 3, 4, 0), Of5(5, 6, 7, 1, 8), 2, Of2(4, 0), Of3(6, 7, 1), Of2(5, 8),
      Of7(4, 0, 6, 7, 1, 5, 8), 2)
  {
  }

  lemma {:induction false} SevenOutTurns3()
    ensures Serves(Of7(4, 0, 6, 7, 1, 5, 8), Of5(2, 3, 4, 6, 0), 2, Of2(5, 8), Of3(4, 6, 0), Of2(2, 3),
      Of7(5, 8, 4, 6, 0, 2, 3), 2)
    ensures Serves(Of7(5, 8, 4, 6, 0, 2, 3), Of5(5, 9, 7, 1, 8), 3, Of2(2, 3), Of2(5, 8), Of3(9, 7, 1),
      Of7(2, 3, 5, 8, 9, 7, 1), 2)
  {
  }

  lemma {:induction false} SevenOutFollows()
    ensures Follows(Of7(23, 24, 25, 26, 27, 28, 29), SevenOut(), 2)
    ensures Last(Of7(23, 24, 25, 26, 27, 28, 29), SevenOut()) == Of7(2, 3, 5, 8, 9, 7, 1) && Score(SevenOut()) == 12
  {
    hide Serves;
    SevenOutTurns1();
    SevenOutTurns2();
    SevenOutTurns3();
  }

  /** ... and second half: the cache is what it was. */
  function SevenBack(): Script {
    Then(Turn(Of5(10, 2, 3, 11, 12), 3, Of2(7, 1), Of2(2, 3), Of3(10, 11, 12), Of7(7, 1, 2, 3, 10, 11, 12)),
    Then(Turn(Of5(7, 1, 11, 0, 4), 2, Of2(10, 12), Of3(7, 1, 11), Of2(0, 4), Of7(10, 12, 7, 1, 11, 0, 4)),
    Then(Turn(Of5(12, 11, 7, 1, 10), 0, Of2(0, 4), Of5(12, 11, 7, 1, 10), Nil, Of7(0, 4, 12, 11, 7, 1, 10)),
    Then(Turn(Of5(20, 21, 22, 23, 24), 5, Of2(1, 10), Nil, Of5(20, 21, 22, 23, 24), Of7(1, 10, 20, 21, 22, 23, 24)),
    Then(Turn(Of5(25, 26, 27, 28, 29), 5, Of2(23, 24), Nil, Of5(25, 26, 27, 28, 29), Of7(23, 24, 25, 26, 27, 28, 29)),
    End)))))
  }

  lemma {:induction false} SevenBackTurns1()
    ensures Serves(Of7(2, 3, 5, 8, 9, 7, 1), Of5(10, 2, 3, 11, 12), 3, Of2(7, 1), Of2(2, 3), Of3(10, 11, 12),
      Of7(7, 1, 2, 3, 10, 11, 12), 2)
    ensures Serves(Of7(7, 1, 2, 3, 10, 11, 12), Of5(7, 1, 11, 0, 4), 2, Of2(10, 12), Of3(7, 1, 11), Of2(0, 4),
      Of7(10, 12, 7, 1, 11, 0, 4), 2)
  {
  }

  lemma {:induction false} SevenBackTurns2()
    ensures Serves(Of7(10, 12, 7, 1, 11, 0, 4), Of5(12, 11, 7, 1, 10), 0, Of2(0, 4), Of5(12, 11, 7, 1, 10), Nil,
      Of7(0, 4, 12, 11, 7, 1, 10), 2)
    ensures Serves(Of7(0, 4, 12, 11, 7, 1, 10), Of5(20, 21, 22, 23, 24), 5, Of2(1, 10), Nil, Of5(20, 21, 22, 23, 24),
      Of7(1, 10, 20, 21, 22, 23, 24), 2)
  {
  }

  lemma {:induction false} SevenBackTurns3()
    ensures Serves(Of7(1, 10, 20, 21, 22, 23, 24), Of5(25, 26, 27, 28, 29), 5, Of2(23, 24), Nil,
      Of5(25, 26, 27, 28, 29), Of7(23, 24, 25, 26, 27, 28, 29), 2)
  {
  }

  lemma {:induction false} SevenBackFollows()
    ensures Follows(Of7(2, 3, 5, 8, 9, 7, 1), SevenBack(), 2)
    ensures Last(Of7(2, 3, 5, 8, 9, 7, 1), SevenBack()) == Of7(23, 24, 25, 26, 27, 28, 29) && Score(SevenBack()) == 10
  {
    hide Serves;
    SevenBackTurns1();
    SevenBackTurns2();
    SevenBackTurns3();
  }

  /** Two events that fill eight slots. */
  function EightWarm(): Script {
    Then(Turn(Of5(20, 21, 22, 23, 24), 0, Nil, Nil, Of5(20, 21, 22, 23, 24), Of5(20, 21, 22, 23, 24)),
    Then(Turn(Of5(25, 26, 27, 28, 29), 2, Of3(22, 23, 24), Nil, Of5(25, 26, 27, 28, 29),
      Of8(22, 23, 24, 25, 26, 27, 28, 29)),
    End))
  }

  lemma {:induction false} EightWarmTurns()
    ensures Serves(Nil, Of5(20, 21, 22, 23, 24), 0, Nil, Nil, Of5(20, 21, 22, 23, 24), Of5(20, 21, 22, 23, 24), 3)
    ensures Serves(Of5(20, 21, 22, 23, 24), Of5(25, 26, 27, 28, 29), 2, Of3(22, 23, 24), Nil, Of5(25, 26, 27, 28, 29),
      Of8(22, 23, 24, 25, 26, 27, 28, 29), 3)
  {
  }

  lemma {:induction false} EightWarmFollows()
    ensures Follows(Nil, EightWarm(), 3)
    ensures Last(Nil, EightWarm()) == Of8(22, 23, 24, 25, 26, 27, 28, 29) && Score(EightWarm()) == 0
  {
    hide Serves;
    EightWarmTurns();
  }

  /** The loop, first half, with eight slots ... */
  function EightOut(): Script {
    Then(Turn(Of5(8, 9, 0, 1, 2), 5, Of3(27, 28, 29), Nil, Of5(8, 9, 0, 1, 2), Of8(27, 28, 29, 8, 9, 0, 1, 2)),
    Then(Turn(Of5(3, 4, 5, 6, 7), 5, Of3(0, 1, 2), Nil, Of5(3, 4, 5, 6, 7), Of8(0, 1, 2, 3, 4, 5, 6, 7)),
    Then(Turn(Of5(0, 1, 2, 3, 4), 0, Of3(5, 6, 7), Of5(0, 1, 2, 3, 4), Nil, Of8(5, 6, 7, 0, 1, 2, 3, 4)),
    Then(Turn(Of5(5, 6, 7, 1, 8), 1, Of3(2, 3, 4), Of4(5, 6, 7, 1), Cons(8, Nil), Of8(2, 3, 4, 5, 6, 7, 1, 8)),
    Then(Turn(Of5(2, 3, 4, 6, 0), 1, Of3(7, 1, 8), Of4(2, 3, 4, 6), Cons(0, Nil), Of8(7, 1, 8, 2, 3, 4, 6, 0)),
    Then(Turn(Of5(5, 9, 7, 1, 8), 2, Of3(4, 6, 0), Of3(7, 1, 8), Of2(5, 9), Of8(4, 6, 0, 7, 1, 8, 5, 9)),
    End))))))
  }

  lemma {:induction false} EightOutTurn1()
    ensures Serves(Of8(22, 23, 24, 25, 26, 27, 28, 29), Of5(8, 9, 0, 1, 2), 5, Of3(27, 28, 29), Nil, Of5(8, 9, 0, 1, 2),
      Of8(27, 28, 29, 8, 9, 0, 1, 2), 3)
  {
  }

  lemma {:induction false} EightOutTurn2()
    ensures Serves(Of8(27, 28, 29, 8, 9, 0, 1, 2), Of5(3, 4, 5, 6, 7), 5, Of3(0, 1, 2), Nil, Of5(3, 4, 5, 6, 7),
      Of8(0, 1, 2, 3, 4, 5, 6, 7), 3)
  {
  }

  lemma {:induction false} EightOutTurn3()
    ensures Serves(Of8(0, 1, 2, 3, 4, 5, 6, 7), Of5(0, 1, 2, 3, 4), 0, Of3(5, 6, 7), Of5(0, 1, 2, 3, 4), Nil,
      Of8(5, 6, 7, 0, 1, 2, 3, 4), 3)
  {
  }

  lemma {:induction false} EightOutTurn4()
    ensures Serves(Of8(5, 6, 7, 0, 1, 2, 3, 4), Of5(5, 6, 7, 1, 8), 1, Of3(2, 3, 4), Of4(5, 6, 7, 1), Cons(8, Nil),
      Of8(2, 3, 4, 5, 6, 7, 1, 8), 3)
  {
  }

  lemma {:induction false} EightOutTurn5()
    ensures Serves(Of8(2, 3, 4, 5, 6, 7, 1, 8), Of5(2, 3, 4, 6, 0), 1, Of3(7, 1, 8), Of4(2, 3, 4, 6), Cons(0, Nil),
      Of8(7, 1, 8, 2, 3, 4, 6, 0), 3)
  {
    var cache := Of8(2, 3, 4, 5, 6, 7, 1, 8);
    assert Splits(Of2(6, 0), cache, Cons(6, Nil), Cons(0, Nil));
    assert Splits(Of3(4, 6, 0), cache, Of2(4, 6), Cons(0, Nil));
    assert Splits(Of5(2, 3, 4, 6, 0), cache, Of4(2, 3, 4, 6), Cons(0, Nil));
  }

  lemma {:induction false} EightOutTurn6()
    ensures Serves(Of8(7, 1, 8, 2, 3, 4, 6, 0), Of5(5, 9, 7, 1, 8), 2, Of3(4, 6, 0), Of3(7, 1, 8), Of2(5, 9),
      Of8(4, 6, 0, 7, 1, 8, 5, 9), 3)
  {
  }

  lemma {:induction false} EightOutFollows()
    ensures Follows(Of8(22, 23, 24, 25, 26, 27, 28, 29), EightOut(), 3)
    ensures Last(Of8(22, 23, 24, 25, 26, 27, 28, 29), EightOut()) == Of8(4, 6, 0, 7, 1, 8, 5, 9)
      && Score(EightOut()) == 16
  {
    hide Serves;
    EightOutTurn1();
    EightOutTurn2();
    EightOutTurn3();
    EightOutTurn4();
    EightOutTurn5();
    EightOutTurn6();
  }

  /** ... and second half: the cache is what it was. */
  function EightBack(): Script {
    Then(Turn(Of5(10, 2, 3, 11, 12), 5, Of3(8, 5, 9), Nil, Of5(10, 2, 3, 11, 12), Of8(8, 5, 9, 10, 2, 3, 11, 12)),
    Then(Turn(Of5(7, 1, 11, 0, 4), 4, Of3(2, 3, 12), Cons(11, Nil), Of4(7, 1, 0, 4), Of8(2, 3, 12, 11, 7, 1, 0, 4)),
    Then(Turn(Of5(12, 11, 7, 1, 10), 1, Of3(3, 0, 4), Of4(12, 11, 7, 1), Cons(10, Nil), Of8(3, 0, 4, 12, 11, 7, 1, 10)),
    Then(Turn(Of5(20, 21, 22, 23, 24), 5, Of3(7, 1, 10), Nil, Of5(20, 21, 22, 23, 24),
      Of8(7, 1, 10, 20, 21, 22, 23, 24)),
    Then(Turn(Of5(25, 26, 27, 28, 29), 5, Of3(22, 23, 24), Nil, Of5(25, 26, 27, 28, 29),
      Of8(22, 23, 24, 25, 26, 27, 28, 29)),
    End)))))
  }

  lemma {:induction false} EightBackTurns1()
    ensures Serves(Of8(4, 6, 0, 7, 1, 8, 5, 9), Of5(10, 2, 3, 11, 12), 5, Of3(8, 5, 9), Nil, Of5(10, 2, 3, 11, 12),
      Of8(8, 5, 9, 10, 2, 3, 11, 12), 3)
    ensures Serves(Of8(8, 5, 9, 10, 2, 3, 11, 12), Of5(7, 1, 11, 0, 4), 4, Of3(2, 3, 12), Cons(11, Nil),
      Of4(7, 1, 0, 4), Of8(2, 3, 12, 11, 7, 1, 0, 4), 3)
  {
  }

  lemma {:induction false} EightBackTurns2()
    ensures Serves(Of8(2, 3, 12, 11, 7, 1, 0, 4), Of5(12, 11, 7, 1, 10), 1, Of3(3, 0, 4), Of4(12, 11, 7, 1),
      Cons(10, Nil), Of8(3, 0, 4, 12, 11, 7, 1, 10), 3)
    ensures Serves(Of8(3, 0, 4, 12, 11, 7, 1, 10), Of5(20, 21, 22, 23, 24), 5, Of3(7, 1, 10), Nil,
      Of5(20, 21, 22, 23, 24), Of8(7, 1, 10, 20, 21, 22, 23, 24), 3)
  {
  }

  lemma {:induction false} EightBackTurns3()
    ensures Serves(Of8(7, 1, 10, 20, 21, 22, 23, 24), Of5(25, 26, 27, 28, 29), 5, Of3(22, 23, 24), Nil,
      Of5(25, 26, 27, 28, 29), Of8(22, 23, 24, 25, 26, 27, 28, 29), 3)
  {
  }

  lemma {:induction false} EightBackFollows()
    ensures Follows(Of8(4, 6, 0, 7, 1, 8, 5, 9), EightBack(), 3)
    ensures Last(Of8(4, 6, 0, 7, 1, 8, 5, 9), EightBack()) == Of8(22, 23, 24, 25, 26, 27, 28, 29)
      && Score(EightBack()) == 5
  {
    hide Serves;
    EightBackTurns1();
    EightBackTurns2();
    EightBackTurns3();
  }

  // ---- A smaller cache that keeps what the larger one lost ----

  /** Four events of three experts with four slots ... */
  function FourSlots(): Script {
    Then(Turn(Of3(0, 1, 2), 0, Nil, Nil, Of3(0, 1, 2), Of3(0, 1, 2)),
    Then(Turn(Of3(0, 3, 4), 1, Cons(2, Nil), Cons(0, Nil), Of2(3, 4), Of4(2, 0, 3, 4)),
    Then(Turn(Of3(1, 0, 2), 1, Cons(4, Nil), Of2(0, 2), Cons(1, Nil), Of4(4, 0, 2, 1)),
    Then(Turn(Of3(3, 4, 5), 2, Cons(1, Nil), Cons(4, Nil), Of2(3, 5), Of4(1, 4, 3, 5)),
    End))))
  }

  lemma {:induction false} FourSlotsTurns()
    ensures Serves(Nil, Of3(0, 1, 2), 0, Nil, Nil, Of3(0, 1, 2), Of3(0, 1, 2), 1)
    ensures Serves(Of3(0, 1, 2), Of3(0, 3, 4), 1, Cons(2, Nil), Cons(0, Nil), Of2(3, 4), Of4(2, 0, 3, 4), 1)
    ensures Serves(Of4(2, 0, 3, 4), Of3(1, 0, 2), 1, Cons(4, Nil), Of2(0, 2), Cons(1, Nil), Of4(4, 0, 2, 1), 1)
    ensures Serves(Of4(4, 0, 2, 1), Of3(3, 4, 5), 2, Cons(1, Nil), Cons(4, Nil), Of2(3, 5), Of4(1, 4, 3, 5), 1)
  {
  }

  lemma {:induction false} FourSlotsFollows()
    ensures Follows(Nil, FourSlots(), 1)
    ensures Last(Nil, FourSlots()) == Of4(1, 4, 3, 5) && Score(FourSlots()) == 4
  {
    hide Serves;
    FourSlotsTurns();
  }

  /** ... and with five: only the smaller cache still holds expert 1. */
  function FiveSlots(): Script {
    Then(Turn(Of3(0, 1, 2), 0, Nil, Nil, Of3(0, 1, 2), Of3(0, 1, 2)),
    Then(Turn(Of3(0, 3, 4), 0, Of2(1, 2), Cons(0, Nil), Of2(3, 4), Of5(1, 2, 0, 3, 4)),
    Then(Turn(Of3(1, 0, 2), 0, Of2(3, 4), Of3(1, 0, 2), Nil, Of5(3, 4, 1, 0, 2)),
    Then(Turn(Of3(3, 4, 5), 1, Of2(0, 2), Of2(3, 4), Cons(5, Nil), Of5(0, 2, 3, 4, 5)),
    End))))
  }

  lemma {:induction false} FiveSlotsTurns()
    ensures Serves(Nil, Of3(0, 1, 2), 0, Nil, Nil, Of3(0, 1, 2), Of3(0, 1, 2), 2)
    ensures Serves(Of3(0, 1, 2), Of3(0, 3, 4), 0, Of2(1, 2), Cons(0, Nil), Of2(3, 4), Of5(1, 2, 0, 3, 4), 2)
    ensures Serves(Of5(1, 2, 0, 3, 4), Of3(1, 0, 2), 0, Of2(3, 4), Of3(1, 0, 2), Nil, Of5(3, 4, 1, 0, 2), 2)
    ensures Serves(Of5(3, 4, 1, 0, 2), Of3(3, 4, 5), 1, Of2(0, 2), Of2(3, 4), Cons(5, Nil), Of5(0, 2, 3, 4, 5), 2)
  {
  }

  lemma {:induction false} FiveSlotsFollows()
    ensures Follows(Nil, FiveSlots(), 2)
    ensures Last(Nil, FiveSlots()) == Of5(0, 2, 3, 4, 5) && Score(FiveSlots()) == 6
  {
    hide Serves;
    FiveSlotsTurns();
  }

  /** Both caches serve the same events, of small and different experts. */
  lemma {:induction false} SameScripts()
    ensures SameEvents(SevenWarm(), EightWarm()) && SameEvents(SevenOut(), EightOut())
      && SameEvents(SevenBack(), EightBack())
    ensures SameEvents(FourSlots(), FiveSlots())
  {
  }

  lemma {:induction false} PlainScripts()
    ensures Plain(SevenWarm(), 5) && Plain(SevenOut(), 5) && Plain(SevenBack(), 5)
    ensures Plain(FourSlots(), 3)
  {
  }

  // ---- The loop repeated ----

  /** Two caches that follow scripts of the same events. */
  lemma {:induction false} ScriptRun(cache: List, s: Script, plain: Script, width: nat, room: nat)
    requires Follows(cache, s, room) && SameEvents(plain, s) && Plain(plain, width)
    ensures Width(EventsOf(plain), width) && Below(EventsOf(plain), BOUND) && Fits(EventsOf(plain), room + width)
    ensures Run(HitsFirst, Experts(cache), EventsOf(plain), room + width) == Experts(Last(cache, s))
    ensures Hits(HitsFirst, Experts(cache), EventsOf(plain), room + width) == Score(s)
  {
    hide Run, Hits, Experts, Follows, Small, Exactly, Distinct;
    SameEventsOf(plain, s, width);
    ScriptIsRun(cache, s, width, room);
  }

  function Warm(): seq<seq<nat>> {
    EventsOf(SevenWarm())
  }

  function Loop(): seq<seq<nat>> {
    EventsOf(SevenOut()) + EventsOf(SevenBack())
  }

  lemma {:induction false} WarmRuns()
    ensures Width(Warm(), 5) && Below(Warm(), BOUND) && Fits(Warm(), 7) && Fits(Warm(), 8)
    ensures Run(HitsFirst, [], Warm(), 7) == Experts(SEVEN) && Hits(HitsFirst, [], Warm(), 7) == 0
    ensures Run(HitsFirst, [], Warm(), 8) == Experts(EIGHT) && Hits(HitsFirst, [], Warm(), 8) == 0
  {
    hide Run, Hits, Follows, Plain, SameEvents, Last, Score, SevenWarm, EightWarm, Width, Below, EventsOf;
    SevenWarmFollows();
    EightWarmFollows();
    SameScripts();
    PlainScripts();
    SelfSame(SevenWarm());
    ScriptRun(Nil, SevenWarm(), SevenWarm(), 5, 2);
    ScriptRun(Nil, EightWarm(), SevenWarm(), 5, 3);
  }

  lemma {:induction false} SelfSame(s: Script)
    ensures SameEvents(s, s)
  {
    if s.Then? {
      SelfSame(s.rest);
    }
  }

  const SEVEN: List := Of7(23, 24, 25, 26, 27, 28, 29)
  const EIGHT: List := Of8(22, 23, 24, 25, 26, 27, 28, 29)

  lemma {:induction false} LoopRuns()
    ensures Width(Loop(), 5) && Below(Loop(), BOUND) && Fits(Loop(), 7) && Fits(Loop(), 8)
    ensures Run(HitsFirst, Experts(SEVEN), Loop(), 7) == Experts(SEVEN)
      && Hits(HitsFirst, Experts(SEVEN), Loop(), 7) == 22
    ensures Run(HitsFirst, Experts(EIGHT), Loop(), 8) == Experts(EIGHT)
      && Hits(HitsFirst, Experts(EIGHT), Loop(), 8) == 21
  {
    hide Run, Hits, Experts, Follows, Plain, SameEvents, Last, Score, EventsOf, Of2, Of3, Of4, Of5, Of6, Of7, Of8,
      Distinct;
    hide SevenOut, EightOut, SevenBack, EightBack;
    SevenOutFollows();
    SevenBackFollows();
    EightOutFollows();
    EightBackFollows();
    SameScripts();
    PlainScripts();
    SelfSame(SevenOut());
    SelfSame(SevenBack());
    ScriptRun(SEVEN, SevenOut(), SevenOut(), 5, 2);
    ScriptRun(Last(SEVEN, SevenOut()), SevenBack(), SevenBack(), 5, 2);
    ScriptRun(EIGHT, EightOut(), SevenOut(), 5, 3);
    ScriptRun(Last(EIGHT, EightOut()), EightBack(), SevenBack(), 5, 3);
    RunConcat(HitsFirst, Experts(SEVEN), EventsOf(SevenOut()), EventsOf(SevenBack()), 7);
    RunConcat(HitsFirst, Experts(EIGHT), EventsOf(SevenOut()), EventsOf(SevenBack()), 8);
  }

  function Repeat(n: nat): seq<seq<nat>> {
    if n == 0 then [] else Repeat(n - 1) + Loop()
  }

  function Anomaly(n: nat): seq<seq<nat>> {
    Warm() + Repeat(n)
  }

  /** After the warm-up every turn of the loop scores 22 hits with seven slots and 21 with eight. */
  lemma {:induction false} AnomalyHits(n: nat)
    ensures Width(Anomaly(n), 5) && Below(Anomaly(n), BOUND) && Fits(Anomaly(n), 7) && Fits(Anomaly(n), 8)
    ensures Run(HitsFirst, [], Anomaly(n), 7) == Experts(SEVEN) && Run(HitsFirst, [], Anomaly(n), 8) == Experts(EIGHT)
    ensures Hits(HitsFirst, [], Anomaly(n), 7) == 22 * n && Hits(HitsFirst, [], Anomaly(n), 8) == 21 * n
  {
    hide Loop, Warm, Run, Hits, Experts, Distinct;
    WarmRuns();
    if n == 0 {
      assert Anomaly(n) == Warm();
    } else {
      AnomalyHits(n - 1);
      LoopRuns();
      assert Anomaly(n) == Anomaly(n - 1) + Loop();
      RunConcat(HitsFirst, [], Anomaly(n - 1), Loop(), 7);
      RunConcat(HitsFirst, [], Anomaly(n - 1), Loop(), 8);
    }
  }

  // ---- Widening to any top-k ----

  /** Extra experts that no script uses. */
  function Padding(n: nat): (pad: seq<nat>)
    ensures |pad| == n && forall i :: 0 <= i < n ==> pad[i] == BOUND + i
  {
    seq(n, i requires 0 <= i => BOUND + i)
  }

  /** Every event preceded by the same extra experts. */
  function Padded(pad: seq<nat>, events: seq<seq<nat>>): seq<seq<nat>> {
    seq(|events|, i requires 0 <= i < |events| => pad + events[i])
  }

  /** `big` is `small` with the padding somewhere in it, or not yet in it. */
  ghost predicate Carries(pad: seq<nat>, big: seq<nat>, small: seq<nat>) {
    && Without(big, pad) == small
    && ((forall x :: x in pad ==> x in big) || (forall x :: x in pad ==> x !in big))
  }

  lemma {:induction false} PaddedFilter(pad: seq<nat>, big: seq<nat>, small: seq<nat>, event: seq<nat>)
    requires Carries(pad, big, small)
    requires forall x :: x in pad ==> x !in event
    ensures Without(big, pad + event) == Without(small, event)
    ensures Within(event, big) == Within(event, small) && Without(event, big) == Without(event, small)
    ensures Within(pad, big) + Without(pad, big) == pad
    ensures |Within(pad, big)| == if forall x :: x in pad ==> x in big then |pad| else 0
  {
    WithoutTwice(big, pad, event);
    FilterElems(big, pad);
    forall i | 0 <= i < |event|
      ensures event[i] in big <==> event[i] in small
    {
      var x := event[i];
      assert x in event;
    }
    FilterSameElems(event, big, small);
    if forall x :: x in pad ==> x in big {
      FilterAll(pad, big);
    } else {
      FilterNone(pad, big);
    }
  }

  lemma {:induction false} RemovePad(pad: seq<nat>, kept: seq<nat>, wp: seq<nat>, we: seq<nat>, op: seq<nat>,
                                     oe: seq<nat>)
    requires forall x :: x in pad ==> x !in kept && x !in we && x !in oe
    requires forall x :: x in wp ==> x in pad
    requires forall x :: x in op ==> x in pad
    ensures Without(kept + ((wp + we) + (op + oe)), pad) == kept + (we + oe)
  {
    FilterConcat(kept, (wp + we) + (op + oe), pad);
    FilterConcat(wp + we, op + oe, pad);
    FilterConcat(wp, we, pad);
    FilterConcat(op, oe, pad);
    FilterNone(kept, pad);
    FilterNone(we, pad);
    FilterNone(oe, pad);
    FilterAll(wp, pad);
    FilterAll(op, pad);
    assert [] + we == we && [] + oe == oe;
  }

  lemma {:induction false} PaddedServe(pad: seq<nat>, big: seq<nat>, small: seq<nat>, event: seq<nat>, capacity: nat)
    requires Carries(pad, big, small) && Distinct(big)
    requires Distinct(pad) && Distinct(event) && |event| <= capacity
    requires forall x :: x in pad ==> x !in event
    ensures Distinct(pad + event)
    ensures Carries(pad, Serve(HitsFirst, big, pad + event, capacity + |pad|), Serve(HitsFirst, small, event, capacity))
    ensures forall x :: x in pad ==> x in Serve(HitsFirst, big, pad + event, capacity + |pad|)
    ensures |Within(pad + event, big)|
         == |Within(event, small)| + if forall x :: x in pad ==> x in big then |pad| else 0
  {
    hide Within, Without, LastN;
    DistinctConcat(pad, event);
    PaddedFilter(pad, big, small, event);
    FilterConcat(pad, event, big);
    FilterElems(pad, big);
    FilterElems(event, big);
    FilterElems(big, pad);
    FilterElems(small, event);
    ServeValid(HitsFirst, big, pad + event, capacity + |pad|);
    PadLeft(pad, small, event, capacity - |event|);
    RemovePad(pad, LastN(Without(small, event), capacity - |event|),
              Within(pad, big), Within(event, small), Without(pad, big), Without(event, small));
  }

  lemma {:induction false} PadLeft(pad: seq<nat>, small: seq<nat>, event: seq<nat>, room: nat)
    requires forall x :: x in pad ==> x !in small
    ensures forall x :: x in pad ==> x !in LastN(Without(small, event), room)
  {
    hide Without;
    FilterElems(small, event);
    var left := Without(small, event);
    assert forall x :: x in LastN(left, room) ==> x in left;
  }

  /** The padding misses in the first event and hits in every later one. */
  lemma {:induction false} PaddingHits(pad: seq<nat>, big: seq<nat>, n: nat)
    requires n > 0 ==> forall x :: x in pad ==> x in big
    requires n == 0 ==> big == []
    ensures (if forall x :: x in pad ==> x in big then |pad| else 0)
         == if n == 0 then 0 else |pad|
  {
    if n == 0 && pad != [] {
      var x := pad[0];
      assert x in pad && x !in big;
    }
  }

  lemma {:induction false} RunSnoc(cache: seq<nat>, before: seq<seq<nat>>, event: seq<nat>, capacity: nat)
    requires Fits(before, capacity) && Distinct(event) && |event| <= capacity
    ensures Fits(before + [event], capacity)
    ensures Run(HitsFirst, cache, before + [event], capacity)
         == Serve(HitsFirst, Run(HitsFirst, cache, before, capacity), event, capacity)
    ensures Hits(HitsFirst, cache, before + [event], capacity)
         == Hits(HitsFirst, cache, before, capacity) + |Within(event, Run(HitsFirst, cache, before, capacity))|
  {
    hide Serve, Within, Distinct;
    assert (before + [event])[..|before|] == before;
  }

  /** What padding does to a run: the same cache beside the padding, and the same hits beside its own. */
  ghost predicate PaddedState(pad: seq<nat>, big: seq<seq<nat>>, events: seq<seq<nat>>, capacity: nat) {
    && Fits(events, capacity) && Fits(big, capacity + |pad|)
    && Carries(pad, Run(HitsFirst, [], big, capacity + |pad|), Run(HitsFirst, [], events, capacity))
    && (|events| > 0 ==> forall x :: x in pad ==> x in Run(HitsFirst, [], big, capacity + |pad|))
    && (|events| == 0 ==> Run(HitsFirst, [], big, capacity + |pad|) == [])
    && Hits(HitsFirst, [], big, capacity + |pad|)
       == Hits(HitsFirst, [], events, capacity) + if |events| == 0 then 0 else |pad| * (|events| - 1)
  }

  lemma {:induction false} PaddedStep(pad: seq<nat>, big: seq<seq<nat>>, before: seq<seq<nat>>, event: seq<nat>,
                                      capacity: nat)
    requires PaddedState(pad, big, before, capacity)
    requires Distinct(pad) && Distinct(event) && |event| <= capacity
    requires forall x :: x in pad ==> x !in event
    ensures PaddedState(pad, big + [pad + event], before + [event], capacity)
  {
    hide Run, Hits, Serve, Within, Without, Carries;
    var cache, small := Run(HitsFirst, [], big, capacity + |pad|), Run(HitsFirst, [], before, capacity);
    RunValid(HitsFirst, [], big, capacity + |pad|);
    PaddedServe(pad, cache, small, event, capacity);
    RunSnoc([], big, pad + event, capacity + |pad|);
    RunSnoc([], before, event, capacity);
    PaddingHits(pad, cache, |before|);
    assert |pad| * |before| == if |before| == 0 then 0 else |pad| * (|before| - 1) + |pad|;
  }

  lemma {:induction false} PaddedRun(pad: seq<nat>, events: seq<seq<nat>>, capacity: nat)
    requires Distinct(pad) && Fits(events, capacity)
    requires forall i, x :: 0 <= i < |events| && x in pad ==> x !in events[i]
    ensures PaddedState(pad, Padded(pad, events), events, capacity)
  {
    hide Serve, Within, Distinct;
    if events == [] {
      FilterNone([], pad);
    } else {
      hide PaddedState, Run, Hits;
      var n := |events| - 1;
      PaddedRun(pad, events[..n], capacity);
      PaddedStep(pad, Padded(pad, events[..n]), events[..n], events[n], capacity);
      assert Padded(pad, events) == Padded(pad, events[..n]) + [pad + events[n]];
      assert events == events[..n] + [events[n]];
    }
  }

  lemma {:induction false} PaddedWidth(events: seq<seq<nat>>, width: nat, n: nat)
    requires Width(events, width) && Below(events, BOUND)
    ensures Distinct(Padding(n)) && Width(Padded(Padding(n), events), width + n)
    ensures forall i, x :: 0 <= i < |events| && x in Padding(n) ==> x !in events[i]
  {
    var pad := Padding(n);
    forall i, x | 0 <= i < |events| && x in pad
      ensures x !in events[i]
    {
      assert x >= BOUND;
    }
    forall i | 0 <= i < |events|
      ensures Distinct(pad + events[i])
    {
      DistinctConcat(pad, events[i]);
    }
  }

  /**
   For every top-k from five up, and every loss `n`, some trace with exactly k experts per event
   scores `n` hits fewer with k + 3 slots than with k + 2.
   */
  lemma {:induction false} MoreSlotsCanHitLess(k: nat, n: nat) returns (trace: seq<seq<nat>>)
    requires k >= 5
    ensures Width(trace, k) && Fits(trace, k + 2) && Fits(trace, k + 3)
    ensures Hits(HitsFirst, [], trace, k + 3) + n == Hits(HitsFirst, [], trace, k + 2)
  {
    hide Run, Hits, Anomaly, Distinct;
    AnomalyHits(n);
    var events := Anomaly(n);
    PaddedWidth(events, 5, k - 5);
    trace := Padded(Padding(k - 5), events);
    PaddedRun(Padding(k - 5), events, 7);
    PaddedRun(Padding(k - 5), events, 8);
  }

  /** Adding a slot never costs a hit on any trace of top-k `k`. */
  ghost predicate NeverHitsLess(k: nat) {
    forall trace: seq<seq<nat>>, capacity: nat ::
      Fits(trace, capacity) && Fits(trace, capacity + 1) && TopK(trace, k) ==>
        Hits(HitsFirst, [], trace, capacity) <= Hits(HitsFirst, [], trace, capacity + 1)
  }

  /** The exact range of top-k on which the policy simulator's LRU is monotone in its capacity. */
  lemma {:induction false} MonotoneExactlyUpToFour(k: nat)
    ensures NeverHitsLess(k) <==> k <= 4
  {
    hide Run, Hits;
    if k <= 4 {
      forall trace: seq<seq<nat>>, capacity: nat
        | Fits(trace, capacity) && Fits(trace, capacity + 1) && TopK(trace, k)
        ensures Hits(HitsFirst, [], trace, capacity) <= Hits(HitsFirst, [], trace, capacity + 1)
      {
        MoreSlotsNeverHitLess(trace, capacity, capacity + 1);
      }
    } else {
      var trace := MoreSlotsCanHitLess(k, 1);
      assert TopK(trace, k);
      assert Fits(trace, k + 2) && Fits(trace, k + 2 + 1);
    }
  }

  // ---- Inclusion ----

  lemma {:induction false} FourAndFiveSlots()
    ensures var events := EventsOf(FourSlots());
            && Width(events, 3) && Below(events, BOUND) && Fits(events, 4) && Fits(events, 5)
            && Run(HitsFirst, [], events, 4) == [1, 4, 3, 5] && Run(HitsFirst, [], events, 5) == [0, 2, 3, 4, 5]
  {
    hide Run, Hits, Follows, Plain, SameEvents, Last, Score, EventsOf, FourSlots, FiveSlots, Width, Below;
    FourSlotsFollows();
    FiveSlotsFollows();
    SameScripts();
    PlainScripts();
    SelfSame(FourSlots());
    ScriptRun(Nil, FourSlots(), FourSlots(), 3, 1);
    ScriptRun(Nil, FiveSlots(), FourSlots(), 3, 2);
  }

  /** For every top-k from three up some trace leaves an expert in k + 1 slots that k + 2 slots have lost. */
  lemma {:induction false} SmallerCanKeepMore(k: nat) returns (trace: seq<seq<nat>>, x: nat)
    requires k >= 3
    ensures Width(trace, k) && Fits(trace, k + 1) && Fits(trace, k + 2)
    ensures x in Run(HitsFirst, [], trace, k + 1) && x !in Run(HitsFirst, [], trace, k + 2)
  {
    hide Run, Hits, EventsOf, FourSlots, Distinct;
    FourAndFiveSlots();
    var events, pad := EventsOf(FourSlots()), Padding(k - 3);
    PaddedWidth(events, 3, k - 3);
    trace, x := Padded(pad, events), 1;
    PaddedRun(pad, events, 4);
    PaddedRun(pad, events, 5);
    FilterElems(Run(HitsFirst, [], trace, k + 1), pad);
    FilterElems(Run(HitsFirst, [], trace, k + 2), pad);
    assert 1 !in pad;
  }

  /** On every trace of top-k `k` each cache contains the one with a slot fewer. */
  ghost predicate AlwaysIncludes(k: nat) {
    forall trace: seq<seq<nat>>, capacity: nat ::
      Fits(trace, capacity) && Fits(trace, capacity + 1) && TopK(trace, k) ==>
        Elems(Run(HitsFirst, [], trace, capacity)) <= Elems(Run(HitsFirst, [], trace, capacity + 1))
  }

  /** The exact range of top-k on which the policy simulator's LRU is a stack algorithm. */
  lemma {:induction false} IncludesExactlyUpToTwo(k: nat)
    ensures AlwaysIncludes(k) <==> k <= 2
  {
    hide Run, Elems;
    if k <= 2 {
      forall trace: seq<seq<nat>>, capacity: nat
        | Fits(trace, capacity) && Fits(trace, capacity + 1) && TopK(trace, k)
        ensures Elems(Run(HitsFirst, [], trace, capacity)) <= Elems(Run(HitsFirst, [], trace, capacity + 1))
      {
        InclusionForTopTwo(HitsFirst, trace, capacity, capacity + 1);
      }
    } else {
      var trace, x := SmallerCanKeepMore(k);
      assert TopK(trace, k) && Fits(trace, k + 1 + 1);
      ElemsAre(Run(HitsFirst, [], trace, k + 1));
      ElemsAre(Run(HitsFirst, [], trace, k + 2));
      assert !(Elems(Run(HitsFirst, [], trace, k + 1)) <= Elems(Run(HitsFirst, [], trace, k + 1 + 1)));
    }
  }

  lemma {:induction false} ElemsAre(s: seq<nat>)
    ensures forall x :: x in Elems(s) <==> x in s
  {
  }
}
