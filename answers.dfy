/**
 * The order in which a question's answers are shown. The source writes
 * `[correctAnswer, ...falseAnswers].sort(() => 0.5 - seed)` with a seed drawn
 * once per mounted question. For any seed but 0.5 the comparator ignores its
 * arguments and never returns 0, so it is not a consistent comparator, and
 * ECMA-262 leaves the resulting order to the JavaScript engine; it only
 * promises a rearrangement of the same elements. At a seed of exactly 0.5 the
 * comparator always returns 0; that one is consistent, and the stable sort
 * keeps the list as it is.
 *
 * The engine is therefore a parameter of the model: for the list and the seed
 * it names, step by step, which of the elements not yet placed comes next.
 * Every order arises from some engine (EveryOrderHasAnEngine), and every engine
 * gives a rearrangement (Arrange) that depends on nothing but the
 * list and the seed.
 */
module AnswerOrder {

  /** A value of `Math.random()`. */
  type Seed = r: real | 0.0 <= r < 1.0

  /** An engine's sorting behaviour: for the list and the seed, the successive picks. */
  type SortEngine = (seq<string>, Seed) -> seq<nat>

  /** `s` without its element at position `k`. */
  function RemoveAt(s: seq<string>, k: nat): (r: seq<string>)
    requires k < |s|
    ensures |r| == |s| - 1
    ensures multiset(r) + multiset{s[k]} == multiset(s)
  {
    assert s == s[..k] + [s[k]] + s[k + 1..];
    s[..k] + s[k + 1..]
  }

  /**
   * Places the elements of `items` in the order the picks name: each pick,
   * taken modulo the number of elements left, selects the next one.
   * Missing picks count as 0.
   */
  function Pick(items: seq<string>, picks: seq<nat>): (r: seq<string>)
    ensures |r| == |items|
    ensures multiset(r) == multiset(items)
    decreases |items|
  {
    if items == [] then []
    else
      var k := (if picks == [] then 0 else picks[0]) % |items|;
      [items[k]] + Pick(RemoveAt(items, k), if picks == [] then [] else picks[1..])
  }

  /** The order the sort gives `items` under `seed`: unchanged at 0.5, the engine's otherwise. */
  function Arrange(engine: SortEngine, items: seq<string>, seed: Seed): (r: seq<string>)
    ensures |r| == |items|
    ensures multiset(r) == multiset(items)
    ensures seed == 0.5 ==> r == items
  {
    if seed == 0.5 then items else Pick(items, engine(items, seed))
  }

  /** The answers shown for a question: the correct one and the false ones, in the engine's order. */
  function AnswerChoices(engine: SortEngine, correctAnswer: string, falseAnswers: seq<string>, seed: Seed): (r: seq<string>)
    ensures |r| == 1 + |falseAnswers|
    ensures multiset(r) == multiset([correctAnswer] + falseAnswers)
    ensures correctAnswer in r
    ensures forall a :: a in falseAnswers ==> a in r
    ensures forall a :: a in r ==> a == correctAnswer || a in falseAnswers
    ensures seed == 0.5 ==> r == [correctAnswer] + falseAnswers
  {
    var r := Arrange(engine, [correctAnswer] + falseAnswers, seed);
    assert correctAnswer in multiset(r);
    assert forall a :: a in falseAnswers ==> a in multiset(r);
    assert forall a :: a in r ==> a in multiset([correctAnswer] + falseAnswers);
    r
  }

  /** The position of `x` in `s`. */
  function IndexOf(s: seq<string>, x: string): (k: nat)
    requires x in s
    ensures k < |s| && s[k] == x
  {
    if s[0] == x then 0 else 1 + IndexOf(s[1..], x)
  }

  /** Taking the first element of `target` out of both sides keeps them rearrangements of each other. */
  lemma RestIsRearrangement(items: seq<string>, target: seq<string>, k: nat)
    requires multiset(target) == multiset(items)
    requires k < |items| && target != [] && items[k] == target[0]
    ensures multiset(target[1..]) == multiset(RemoveAt(items, k))
  {
    assert target == [target[0]] + target[1..];
    var a, b := multiset(target[1..]), multiset(RemoveAt(items, k));
    assert a + multiset{target[0]} == b + multiset{target[0]};
    forall y ensures a[y] == b[y] {
      assert (a + multiset{target[0]})[y] == (b + multiset{target[0]})[y];
    }
    assert a == b;
  }

  /** The picks that produce `target` from `items`. */
  function PicksFor(items: seq<string>, target: seq<string>): (picks: seq<nat>)
    requires multiset(target) == multiset(items)
    ensures |picks| == |items|
    decreases |items|
  {
    if items == [] then []
    else
      assert |multiset(target)| == |target|;
      assert target[0] in multiset(items);
      var k := IndexOf(items, target[0]);
      RestIsRearrangement(items, target, k);
      [k] + PicksFor(RemoveAt(items, k), target[1..])
  }

  /** A pick inside the range selects that very element first. */
  lemma PickFirst(items: seq<string>, picks: seq<nat>)
    requires picks != [] && picks[0] < |items|
    ensures Pick(items, picks) == [items[picks[0]]] + Pick(RemoveAt(items, picks[0]), picks[1..])
  {
    assert picks[0] % |items| == picks[0];
  }

  /** The first pick for `target` selects its first element, and the rest is again a rearrangement. */
  lemma PicksForHead(items: seq<string>, target: seq<string>)
    requires multiset(target) == multiset(items) && items != []
    ensures target != [] && target[0] in items
    ensures multiset(target[1..]) == multiset(RemoveAt(items, IndexOf(items, target[0])))
    ensures PicksFor(items, target) == [IndexOf(items, target[0])] + PicksFor(RemoveAt(items, IndexOf(items, target[0])), target[1..])
  {
    assert |multiset(target)| == |target|;
    assert target[0] in multiset(items);
    RestIsRearrangement(items, target, IndexOf(items, target[0]));
  }

  /** No order is ruled out: any rearrangement of `items` is what some picks produce. */
  lemma {:induction false} AnyOrderIsReachable(items: seq<string>, target: seq<string>)
    requires multiset(target) == multiset(items)
    ensures Pick(items, PicksFor(items, target)) == target
    decreases |items|
  {
    if items != [] {
      PicksForHead(items, target);
      var k := IndexOf(items, target[0]);
      var picks := PicksFor(items, target);
      PickFirst(items, picks);
      assert picks[1..] == PicksFor(RemoveAt(items, k), target[1..]);
      AnyOrderIsReachable(RemoveAt(items, k), target[1..]);
      assert target == [target[0]] + target[1..];
    }
  }

  /** The engine that, for lists holding the same elements as `target`, picks its way to `target`. */
  function EngineFor(target: seq<string>): SortEngine
  {
    (l: seq<string>, seed: Seed) => if multiset(target) == multiset(l) then PicksFor(l, target) else []
  }

  /** For every seed but 0.5, every rearrangement of the list is the order some engine gives. */
  lemma EveryOrderHasAnEngine(items: seq<string>, target: seq<string>, seed: Seed)
    requires multiset(target) == multiset(items) && seed != 0.5
    ensures Arrange(EngineFor(target), items, seed) == target
  {
    AnyOrderIsReachable(items, target);
  }
}
