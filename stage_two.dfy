/**
 * Stage Two: the sequencing game. The player moves the five goods A to E one
 * at a time from a shuffled pool into a slate. When the slate is full it is
 * scored by how many positions agree with the order A, B, C, D, E; a full
 * score wins, anything else may be retried with a freshly shuffled pool.
 */
module StageTwo {
  import opened Optional
  import Shuffle

  /** The ids of the five goods. */
  datatype ItemId = A | B | C | D | E

  /** One of the goods; only its id matters to the rules. */
  datatype Item = Item(id: ItemId)

  const ITEMS: seq<Item> := [Item(A), Item(B), Item(C), Item(D), Item(E)]

  const CORRECT_SEQUENCE: seq<ItemId> := [A, B, C, D, E]

  /** The slate length at which the result is checked. */
  const SLATE_SIZE: nat := 5

  function Ids(items: seq<Item>): seq<ItemId> {
    seq(|items|, i requires 0 <= i < |items| => items[i].id)
  }

  /** Position `i` of the slate holds the id the correct sequence has there. */
  predicate Hit(slate: seq<Item>, i: nat)
    requires i < |slate|
  {
    i < |CORRECT_SEQUENCE| && slate[i].id == CORRECT_SEQUENCE[i]
  }

  /**
   * The number of red circles: the positions of the slate that hold the
   * right item. It is full exactly when every position is a hit.
   */
  function Score(slate: seq<Item>): (r: nat)
    ensures r <= |slate|
    ensures r == |slate| <==> forall i :: 0 <= i < |slate| ==> Hit(slate, i)
  {
    if slate == [] then 0
    else
      var k := |slate| - 1;
      assert forall i :: 0 <= i < k ==> Hit(slate[..k], i) == Hit(slate, i);
      Score(slate[..k]) + if Hit(slate, k) then 1 else 0
  }

  /** A full slate scores 5 exactly when its ids spell the correct sequence. */
  lemma FullScoreIffCorrect(slate: seq<Item>)
    requires |slate| == SLATE_SIZE
    ensures Score(slate) == SLATE_SIZE <==> Ids(slate) == CORRECT_SEQUENCE
  {
    assert |Ids(slate)| == |CORRECT_SEQUENCE|;
    forall i | 0 <= i < |slate| ensures Hit(slate, i) <==> Ids(slate)[i] == CORRECT_SEQUENCE[i] {
    }
    if forall i :: 0 <= i < |slate| ==> Hit(slate, i) {
      assert Ids(slate) == CORRECT_SEQUENCE;
    }
  }

  /** The worked example: A, C, B, D, E has A, D and E in place. */
  lemma ScoreOfSwappedMiddle()
    ensures Score([Item(A), Item(C), Item(B), Item(D), Item(E)]) == 3
  {
    var s := [Item(A), Item(C), Item(B), Item(D), Item(E)];
    assert s[..1][..0] == [];
    assert Score(s[..1]) == 1;
    assert s[..2][..1] == s[..1];
    assert Score(s[..2]) == 1;
    assert s[..3][..2] == s[..2];
    assert Score(s[..3]) == 1;
    assert s[..4][..3] == s[..3];
    assert Score(s[..4]) == 2;
    assert s[..4] == s[..|s| - 1];
  }

  /** The pool after `filter(i => i.id !== id)`: every item with that id removed, the rest kept in order. */
  function Without(pool: seq<Item>, id: ItemId): (r: seq<Item>)
    ensures forall x :: x in r ==> x.id != id && x in pool
    ensures |r| <= |pool|
  {
    if pool == [] then []
    else if pool[0].id == id then Without(pool[1..], id)
    else [pool[0]] + Without(pool[1..], id)
  }

  /** The filter keeps every item with another id exactly as often as the pool holds it. */
  lemma {:induction false} WithoutKeepsOthers(pool: seq<Item>, id: ItemId)
    ensures forall x: Item :: x.id != id ==> multiset(Without(pool, id))[x] == multiset(pool)[x]
  {
    if pool != [] {
      assert pool == [pool[0]] + pool[1..];
      WithoutKeepsOthers(pool[1..], id);
    }
  }

  /** No two of the goods share an id, so an id names one item. */
  lemma ItemsDistinct()
    ensures forall x, y :: x in ITEMS && y in ITEMS && x.id == y.id ==> x == y
    ensures forall x :: x in ITEMS ==> multiset(ITEMS)[x] == 1
  {
  }

  /** Every good occurs exactly once: there are five goods and each `Item` value is one of them. */
  ghost predicate EachOnce(m: multiset<Item>) {
    forall x: Item :: m[x] == 1
  }

  /** Holding each good exactly once is the same as being the goods, as a multiset. */
  lemma EachOnceIsGoods(m: multiset<Item>)
    ensures EachOnce(m) <==> m == multiset(ITEMS)
  {
    ItemsDistinct();
    forall x: Item ensures multiset(ITEMS)[x] == 1 {
      EveryItemIsAGood(x);
    }
  }

  /** A shuffle of the goods, with an empty slate beside it, holds each good once. */
  lemma ShuffleHoldsEachOnce(pool: seq<Item>)
    requires Shuffle.IsPermutation(pool, ITEMS)
    ensures EachOnce(multiset(pool) + multiset([]))
  {
    EachOnceIsGoods(multiset(pool) + multiset([]));
  }

  /** The goods are all the values of `Item`. */
  lemma EveryItemIsAGood(x: Item)
    ensures x in ITEMS
  {
    match x.id
    case A => assert x == ITEMS[0];
    case B => assert x == ITEMS[1];
    case C => assert x == ITEMS[2];
    case D => assert x == ITEMS[3];
    case E => assert x == ITEMS[4];
  }

  /**
   * Removing an item by id from a pool that holds it once, and holds no
   * other item with its id, removes exactly that item.
   */
  lemma WithoutRemovesOne(pool: seq<Item>, item: Item)
    requires multiset(pool)[item] == 1
    requires forall x :: x in pool && x.id == item.id ==> x == item
    ensures multiset(Without(pool, item.id)) == multiset(pool) - multiset{item}
  {
    WithoutKeepsOthers(pool, item.id);
    var r := Without(pool, item.id);
    forall x: Item ensures multiset(r)[x] == (multiset(pool) - multiset{item})[x] {
      if x.id == item.id {
        assert x !in r;
      }
    }
  }

  /**
   * Moving a pool item to the slate keeps pool and slate together a
   * permutation of the goods, and removes exactly that item from the pool.
   */
  lemma MoveKeepsGoods(pool: seq<Item>, slate: seq<Item>, item: Item)
    requires multiset(pool) + multiset(slate) == multiset(ITEMS)
    requires item in pool
    ensures multiset(Without(pool, item.id)) == multiset(pool) - multiset{item}
    ensures multiset(Without(pool, item.id)) + multiset(slate + [item]) == multiset(ITEMS)
    ensures |slate + [item]| <= |ITEMS|
  {
    ItemsDistinct();
    assert item in multiset(ITEMS);
    forall x | x in pool && x.id == item.id ensures x == item {
      assert x in multiset(ITEMS);
    }
    WithoutRemovesOne(pool, item);
    assert |multiset(slate + [item])| <= |multiset(ITEMS)|;
  }

  /** The state of the StageTwo component; the fields are its state variables. */
  class Game {
    var elapsedTime: nat
    var isTimerRunning: bool
    var availableItems: seq<Item>
    var selectedItems: seq<Item>
    /** The score on display, or None while the player is still choosing. */
    var redCircles: Option<nat>
    var isFinished: bool

    /** Pool and slate together always hold the five goods, and the slate holds at most five. */
    ghost predicate Stocked()
      reads this
    {
      EachOnce(multiset(availableItems) + multiset(selectedItems)) &&
      |selectedItems| <= SLATE_SIZE
    }

    /**
     * The score is shown exactly when the slate is full and is that slate's
     * score; the stage is finished exactly when the score is full, and only
     * then is the timer stopped.
     */
    ghost predicate Scored()
      reads this
    {
      (redCircles.Some? <==> |selectedItems| == SLATE_SIZE) &&
      (redCircles.Some? ==> redCircles.value == Score(selectedItems)) &&
      (isFinished <==> redCircles.Some? && redCircles.value == SLATE_SIZE) &&
      (isTimerRunning <==> !isFinished)
    }

    ghost predicate Valid()
      reads this
    {
      Stocked() && Scored()
    }

    /** Mounting the component: the timer starts at zero and the pool is a shuffle of the goods. */
    constructor ()
      ensures Valid()
      ensures Shuffle.IsPermutation(availableItems, ITEMS)
      ensures selectedItems == [] && redCircles == None && !isFinished
      ensures elapsedTime == 0 && isTimerRunning
    {
      elapsedTime, isTimerRunning := 0, true;
      selectedItems, redCircles, isFinished := [], None, false;
      availableItems := [];
      new;
      availableItems := Shuffle.Shuffle(ITEMS);
      ShuffleHoldsEachOnce(availableItems);
    }

    /**
     * Scores a full slate: shows the score and, when it is full, finishes the
     * stage, stops the timer and reports completion.
     */
    method CheckResult(finalSequence: seq<Item>) returns (completed: bool)
      modifies this`redCircles, this`isFinished, this`isTimerRunning
      ensures redCircles == Some(Score(finalSequence))
      ensures completed <==> Score(finalSequence) == SLATE_SIZE
      ensures isFinished == (completed || old(isFinished))
      ensures isTimerRunning == (!completed && old(isTimerRunning))
    {
      var correctCount := Score(finalSequence);
      redCircles := Some(correctCount);
      completed := correctCount == SLATE_SIZE;
      if completed {
        isFinished := true;
        isTimerRunning := false;
      }
    }

    /**
     * Moves `item` from the pool to the end of the slate, unless the slate is
     * full or a score is showing; in that case any item is turned away
     * unchanged. The pool's buttons only ever pass items of the pool.
     */
    method Select(item: Item) returns (completed: bool)
      requires Valid()
      requires |selectedItems| < SLATE_SIZE && redCircles.None? ==> item in availableItems
      modifies this
      ensures Valid()
      ensures old(|selectedItems| >= SLATE_SIZE || redCircles.Some?) ==> unchanged(this) && !completed
      ensures old(|selectedItems| < SLATE_SIZE && redCircles.None?) ==>
        selectedItems == old(selectedItems) + [item] &&
        availableItems == Without(old(availableItems), item.id) &&
        multiset(availableItems) == old(multiset(availableItems)) - multiset{item} &&
        elapsedTime == old(elapsedTime) &&
        (redCircles.Some? <==> |selectedItems| == SLATE_SIZE) &&
        (completed <==> |selectedItems| == SLATE_SIZE && Ids(selectedItems) == CORRECT_SEQUENCE)
    {
      completed := false;
      if |selectedItems| >= SLATE_SIZE || redCircles.Some? {
        return;
      }
      MoveToSlate(item);
      if |selectedItems| == SLATE_SIZE {
        FullScoreIffCorrect(selectedItems);
        completed := CheckResult(selectedItems);
      }
    }

    /** The move itself: the item leaves the pool, by id, and joins the end of the slate. */
    method MoveToSlate(item: Item)
      requires Stocked()
      requires item in availableItems && |selectedItems| < SLATE_SIZE
      modifies this`selectedItems, this`availableItems
      ensures Stocked()
      ensures selectedItems == old(selectedItems) + [item]
      ensures availableItems == Without(old(availableItems), item.id)
      ensures multiset(availableItems) == old(multiset(availableItems)) - multiset{item}
    {
      EachOnceIsGoods(multiset(availableItems) + multiset(selectedItems));
      MoveKeepsGoods(availableItems, selectedItems, item);
      EachOnceIsGoods(multiset(Without(availableItems, item.id)) + multiset(selectedItems + [item]));
      selectedItems, availableItems := selectedItems + [item], Without(availableItems, item.id);
    }

    /** Empties the slate, reshuffles all five goods into the pool and hides the score. */
    method Retry()
      requires Valid()
      requires !isFinished
      modifies this`selectedItems, this`availableItems, this`redCircles
      ensures Valid()
      ensures selectedItems == [] && redCircles == None
      ensures Shuffle.IsPermutation(availableItems, ITEMS)
    {
      selectedItems := [];
      availableItems := Shuffle.Shuffle(ITEMS);
      redCircles := None;
      ShuffleHoldsEachOnce(availableItems);
    }

    /** One second of the display timer. */
    method Tick()
      requires Valid()
      modifies this`elapsedTime
      ensures Valid()
      ensures elapsedTime == if isTimerRunning then old(elapsedTime) + 1 else old(elapsedTime)
    {
      if isTimerRunning {
        elapsedTime := elapsedTime + 1;
      }
    }
  }

  /** The goods in table order spell the correct sequence. */
  lemma ItemsSpellCorrectSequence()
    ensures Ids(ITEMS) == CORRECT_SEQUENCE
  {
  }

  /** Picking the items of `order` in turn: after `k` picks the pool holds the rest, so the next one is in it. */
  lemma InOrderStep(order: seq<Item>, pool: seq<Item>, k: nat)
    requires k < |order|
    requires multiset(pool) == multiset(order[k..])
    ensures order[k] in pool
    ensures multiset(pool) - multiset{order[k]} == multiset(order[k + 1..])
    ensures order[..k + 1] == order[..k] + [order[k]]
  {
    assert order[k..] == [order[k]] + order[k + 1..];
    assert order[k] in multiset(pool);
  }

  /**
   * The stage can always be won: on a freshly mounted board, picking the
   * goods in the order A, B, C, D, E completes it at the fifth pick.
   */
  method WinInOrder() returns (completed: bool)
    ensures completed
  {
    var game := new Game();
    completed := false;
    for k := 0 to |ITEMS|
      invariant game.Valid()
      invariant game.selectedItems == ITEMS[..k]
      invariant multiset(game.availableItems) == multiset(ITEMS[k..])
      invariant completed <==> k == |ITEMS|
    {
      InOrderStep(ITEMS, game.availableItems, k);
      completed := game.Select(ITEMS[k]);
      if k + 1 == |ITEMS| {
        ItemsSpellCorrectSequence();
      }
    }
  }
}
