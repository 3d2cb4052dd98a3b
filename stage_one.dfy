/**
 * Stage One: the matching game. Two columns show the five avatars and the
 * five icons of the fixed pairs, each column in its own shuffled order. The
 * player picks one item per column; a correct pair is marked as matched, a
 * wrong pair resets the whole board. Matching all five pairs stops the timer.
 */
module StageOne {
  import opened Optional
  import Shuffle

  /** The five fixed pairs, named by their ids. */
  datatype PairId = Warehouse | Materials | Raw | Accounting | Admin

  /** The id string of a pair, as the pair table spells it. */
  function Name(p: PairId): string {
    match p
    case Warehouse => "warehouse"
    case Materials => "materials"
    case Raw => "raw"
    case Accounting => "accounting"
    case Admin => "admin"
  }

  /** The pair table, in its declared order. */
  const PAIRS: seq<PairId> := [Warehouse, Materials, Raw, Accounting, Admin]

  /** The ids of all pairs: the values a matched set may hold. */
  function PairIds(): set<PairId> {
    set p | p in PAIRS
  }

  datatype ItemKind = Avatar | Icon

  /** The id of a button: the avatar of a pair sits on the left, its icon on the right. */
  datatype ItemId = Left(pair: PairId) | Right(pair: PairId)

  /** The id string of a button: `left-` or `right-` followed by the pair's id. */
  function IdString(i: ItemId): string {
    match i
    case Left(p) => "left-" + Name(p)
    case Right(p) => "right-" + Name(p)
  }

  /** A button in one of the two columns. */
  datatype GameItem = GameItem(id: ItemId, kind: ItemKind, matchId: PairId)

  function AvatarItem(p: PairId): GameItem {
    GameItem(Left(p), Avatar, p)
  }

  function IconItem(p: PairId): GameItem {
    GameItem(Right(p), Icon, p)
  }

  /** The left column before shuffling: one avatar per pair, in pair order. */
  function LeftColumn(): seq<GameItem> {
    seq(|PAIRS|, i requires 0 <= i < |PAIRS| => AvatarItem(PAIRS[i]))
  }

  /** The right column before shuffling: one icon per pair, in pair order. */
  function RightColumn(): seq<GameItem> {
    seq(|PAIRS|, i requires 0 <= i < |PAIRS| => IconItem(PAIRS[i]))
  }

  function Ids(items: seq<GameItem>): set<ItemId> {
    set it | it in items :: it.id
  }

  /** The first item with the given id, as `Array.prototype.find` returns it. */
  function Find(items: seq<GameItem>, id: ItemId): (r: Option<GameItem>)
    ensures r.Some? ==>
      (exists k :: 0 <= k < |items| && items[k] == r.value && r.value.id == id &&
                   (forall j :: 0 <= j < k ==> items[j].id != id))
    ensures r.None? <==> id !in Ids(items)
  {
    if items == [] then None
    else if items[0].id == id then Some(items[0])
    else Find(items[1..], id)
  }

  /** The matchIds carried by a column. */
  function MatchIds(items: seq<GameItem>): set<PairId> {
    set it | it in items :: it.matchId
  }

  lemma NameInjective(p: PairId, q: PairId)
    requires Name(p) == Name(q)
    ensures p == q
  {
  }

  lemma FirstChar(i: ItemId)
    ensures |IdString(i)| > 0 && IdString(i)[0] == if i.Left? then 'l' else 'r'
  {
  }

  /**
   * The id strings are unambiguous: distinct buttons never share an id
   * string, so looking a button up by its id string is the same as looking
   * it up by `ItemId`.
   */
  lemma {:induction false} IdStringInjective(a: ItemId, b: ItemId)
    requires IdString(a) == IdString(b)
    ensures a == b
  {
    var sa, sb := IdString(a), IdString(b);
    if a.Left? != b.Left? {
      FirstChar(a);
      FirstChar(b);
      assert false;
    } else {
      var n := if a.Left? then 5 else 6;
      assert Name(a.pair) == sa[n..] == sb[n..] == Name(b.pair);
      NameInjective(a.pair, b.pair);
    }
  }

  /** Both columns are built from the pairs: item i of each belongs to pair i. */
  lemma ColumnsFollowPairs()
    ensures |LeftColumn()| == |RightColumn()| == |PAIRS| == 5
    ensures forall i :: 0 <= i < |PAIRS| ==>
      IdString(LeftColumn()[i].id) == "left-" + Name(PAIRS[i]) &&
      LeftColumn()[i].matchId == PAIRS[i] && LeftColumn()[i].kind == Avatar
    ensures forall i :: 0 <= i < |PAIRS| ==>
      IdString(RightColumn()[i].id) == "right-" + Name(PAIRS[i]) &&
      RightColumn()[i].matchId == PAIRS[i] && RightColumn()[i].kind == Icon
  {
  }

  /** Two items of opposite columns share a matchId exactly when they come from the same pair. */
  lemma CorrectPairsShareMatchId()
    ensures forall i, j :: 0 <= i < |PAIRS| && 0 <= j < |PAIRS| ==>
      (LeftColumn()[i].matchId == RightColumn()[j].matchId <==> i == j)
  {
  }

  /** There are exactly as many pair ids as pairs. */
  lemma PairIdsCount()
    ensures PairIds() == {Warehouse, Materials, Raw, Accounting, Admin}
    ensures |PairIds()| == |PAIRS|
  {
  }

  /**
   * The win test of the source compares the size of the matched set with
   * the number of pairs; for a set of pair ids that holds exactly when every
   * pair is matched.
   */
  lemma FullSizeIffAllMatched(s: set<PairId>)
    requires s <= PairIds()
    ensures |s| == |PAIRS| <==> s == PairIds()
  {
    PairIdsCount();
    var t := PairIds();
    assert s + t == t && s * t == s && s - t == {};
    assert |t - s| == |t| - |s|;
    if |s| == |PAIRS| {
      assert t - s == {};
      assert t <= s;
    }
  }

  /** An item of a shuffled left column is the avatar of one of the pairs. */
  lemma LeftItemFromPair(items: seq<GameItem>, it: GameItem)
    requires Shuffle.IsPermutation(items, LeftColumn())
    requires it in items
    ensures it == AvatarItem(it.matchId) && it.matchId in PairIds()
  {
    assert it in multiset(LeftColumn());
    var i :| 0 <= i < |LeftColumn()| && LeftColumn()[i] == it;
    assert PAIRS[i] in PAIRS;
  }

  /** An item of a shuffled right column is the icon of one of the pairs. */
  lemma RightItemFromPair(items: seq<GameItem>, it: GameItem)
    requires Shuffle.IsPermutation(items, RightColumn())
    requires it in items
    ensures it == IconItem(it.matchId) && it.matchId in PairIds()
  {
    assert it in multiset(RightColumn());
    var i :| 0 <= i < |RightColumn()| && RightColumn()[i] == it;
    assert PAIRS[i] in PAIRS;
  }

  /** A shuffled column still offers every pair, and nothing else. */
  lemma ShuffledColumnCoversPairs(items: seq<GameItem>)
    requires Shuffle.IsPermutation(items, LeftColumn()) || Shuffle.IsPermutation(items, RightColumn())
    ensures MatchIds(items) == PairIds()
  {
    forall m | m in PairIds() ensures m in MatchIds(items) {
      var i :| 0 <= i < |PAIRS| && PAIRS[i] == m;
      var it := if Shuffle.IsPermutation(items, LeftColumn()) then LeftColumn()[i] else RightColumn()[i];
      assert it in multiset(items);
    }
    forall it | it in items ensures it.matchId in PairIds() {
      if Shuffle.IsPermutation(items, LeftColumn()) {
        LeftItemFromPair(items, it);
      } else {
        RightItemFromPair(items, it);
      }
    }
  }

  /** The state of the StageOne component; the fields are its state variables. */
  class Game {
    var elapsedTime: nat
    var isTimerRunning: bool
    var leftItems: seq<GameItem>
    var rightItems: seq<GameItem>
    var selectedLeft: Option<ItemId>
    var selectedRight: Option<ItemId>
    var matchedIds: set<PairId>
    var mistakeFlash: bool
    /** The elapsed seconds at the win (the source keeps them formatted). */
    var finishedTime: Option<nat>

    /**
     * The click guard: the clicked item's pair is already matched. An id
     * that names no item falls back to the empty string in the source, which
     * is never a matched id.
     */
    predicate AlreadyMatched(items: seq<GameItem>, id: ItemId)
      reads this
    {
      var it := Find(items, id);
      it.Some? && it.value.matchId in matchedIds
    }

    /** The id names a rendered item of `items` whose pair is not yet matched. */
    ghost predicate Live(items: seq<GameItem>, id: ItemId)
      reads this
    {
      id in Ids(items) && !AlreadyMatched(items, id)
    }

    /** What holds between handlers, whatever the selections are. */
    ghost predicate ValidBoard()
      reads this
    {
      Shuffle.IsPermutation(leftItems, LeftColumn()) &&
      Shuffle.IsPermutation(rightItems, RightColumn()) &&
      matchedIds <= PairIds() &&
      (finishedTime.Some? <==> matchedIds == PairIds()) &&
      (isTimerRunning <==> finishedTime.None?) &&
      (finishedTime.Some? ==> finishedTime.value == elapsedTime)
    }

    /** At most one side holds a selection, and it names an unmatched item. */
    ghost predicate Valid()
      reads this
    {
      ValidBoard() &&
      !(selectedLeft.Some? && selectedRight.Some?) &&
      (selectedLeft.Some? ==> Live(leftItems, selectedLeft.value)) &&
      (selectedRight.Some? ==> Live(rightItems, selectedRight.value))
    }

    /** Mounting the component: timer at zero and running, then `initGame`. */
    constructor ()
      ensures Valid()
      ensures elapsedTime == 0 && isTimerRunning && !mistakeFlash && finishedTime == None
      ensures Shuffle.IsPermutation(leftItems, LeftColumn())
      ensures Shuffle.IsPermutation(rightItems, RightColumn())
      ensures matchedIds == {} && selectedLeft == None && selectedRight == None
    {
      elapsedTime, isTimerRunning := 0, true;
      leftItems, rightItems := [], [];
      selectedLeft, selectedRight := None, None;
      matchedIds := {};
      mistakeFlash := false;
      finishedTime := None;
      new;
      InitGame();
      PairIdsCount();
    }

    /** Builds both columns afresh, shuffles each, and clears the matched set and the selections. */
    method InitGame()
      modifies this
      ensures Shuffle.IsPermutation(leftItems, LeftColumn())
      ensures Shuffle.IsPermutation(rightItems, RightColumn())
      ensures matchedIds == {} && selectedLeft == None && selectedRight == None
      ensures elapsedTime == old(elapsedTime) && isTimerRunning == old(isTimerRunning)
      ensures finishedTime == old(finishedTime) && mistakeFlash == old(mistakeFlash)
    {
      leftItems := Shuffle.Shuffle(LeftColumn());
      rightItems := Shuffle.Shuffle(RightColumn());
      matchedIds := {};
      selectedLeft, selectedRight := None, None;
    }

    /** The response to a wrong pair: raise the mistake flag and rebuild the whole board. */
    method Reset()
      modifies this
      ensures mistakeFlash
      ensures Shuffle.IsPermutation(leftItems, LeftColumn())
      ensures Shuffle.IsPermutation(rightItems, RightColumn())
      ensures matchedIds == {} && selectedLeft == None && selectedRight == None
      ensures elapsedTime == old(elapsedTime) && isTimerRunning == old(isTimerRunning)
      ensures finishedTime == old(finishedTime)
    {
      mistakeFlash := true;
      InitGame();
    }

    /** The two ids name items of the same pair. */
    ghost predicate IsCorrectPair(leftId: ItemId, rightId: ItemId)
      reads this
    {
      Find(leftItems, leftId).Some? && Find(rightItems, rightId).Some? &&
      Find(leftItems, leftId).value.matchId == Find(rightItems, rightId).value.matchId
    }

    /**
     * The state after `checkMatch(leftId, rightId)`: a correct pair adds its
     * id to the matched set and clears the selections, leaving the columns
     * as they are, and stops the timer when every pair is matched; any other
     * pair empties the matched set, reshuffles both columns, clears the
     * selections and raises the mistake flag, leaving the timer alone.
     */
    twostate predicate Resolved(leftId: ItemId, rightId: ItemId)
      reads this
    {
      elapsedTime == old(elapsedTime) &&
      selectedLeft == None && selectedRight == None &&
      if old(IsCorrectPair(leftId, rightId)) then
        matchedIds == old(matchedIds) + {old(Find(leftItems, leftId)).value.matchId} &&
        leftItems == old(leftItems) && rightItems == old(rightItems) &&
        mistakeFlash == old(mistakeFlash) &&
        if matchedIds == PairIds() then
          !isTimerRunning && finishedTime == Some(elapsedTime)
        else
          isTimerRunning == old(isTimerRunning) && finishedTime == old(finishedTime)
      else
        matchedIds == {} && mistakeFlash &&
        Shuffle.IsPermutation(leftItems, LeftColumn()) &&
        Shuffle.IsPermutation(rightItems, RightColumn()) &&
        isTimerRunning == old(isTimerRunning) && finishedTime == old(finishedTime)
    }

    /**
     * The correct-pair branch of `checkMatch`: the matched set gains `m`, the
     * selections are cleared, and the timer stops when every pair is matched.
     */
    method AcceptPair(m: PairId)
      requires ValidBoard()
      requires m !in matchedIds
      modifies this
      ensures ValidBoard()
      ensures matchedIds == old(matchedIds) + {m}
      ensures selectedLeft == None && selectedRight == None
      ensures leftItems == old(leftItems) && rightItems == old(rightItems)
      ensures elapsedTime == old(elapsedTime) && mistakeFlash == old(mistakeFlash)
      ensures if matchedIds == PairIds() then !isTimerRunning && finishedTime == Some(elapsedTime)
              else isTimerRunning == old(isTimerRunning) && finishedTime == old(finishedTime)
    {
      PairIdsCount();
      var newMatched := matchedIds + {m};
      matchedIds := newMatched;
      selectedLeft, selectedRight := None, None;
      FullSizeIffAllMatched(newMatched);
      if |newMatched| == |PAIRS| {
        isTimerRunning := false;
        finishedTime := Some(elapsedTime);
      }
    }

    method CheckMatch(leftId: ItemId, rightId: ItemId)
      requires ValidBoard()
      requires Live(leftItems, leftId) && Live(rightItems, rightId)
      modifies this
      ensures Valid()
      ensures Resolved(leftId, rightId)
    {
      var leftItem := Find(leftItems, leftId);
      var rightItem := Find(rightItems, rightId);
      if leftItem.Some? && rightItem.Some? && leftItem.value.matchId == rightItem.value.matchId {
        AcceptPair(leftItem.value.matchId);
      } else {
        // The selected left item is unmatched, so the game was not yet won.
        assert leftItem.value.matchId !in matchedIds;
        PairIdsCount();
        Reset();
      }
    }

    /** A click on the left item `id`. */
    method LeftClick(id: ItemId)
      requires Valid()
      requires id in Ids(leftItems)
      modifies this
      ensures Valid()
      ensures old(AlreadyMatched(leftItems, id)) ==> unchanged(this)
      ensures old(!AlreadyMatched(leftItems, id) && selectedRight.None?) ==>
        selectedLeft == Some(id) && selectedRight == None &&
        leftItems == old(leftItems) && rightItems == old(rightItems) &&
        matchedIds == old(matchedIds) && elapsedTime == old(elapsedTime) &&
        isTimerRunning == old(isTimerRunning) && finishedTime == old(finishedTime) &&
        mistakeFlash == old(mistakeFlash)
      ensures old(!AlreadyMatched(leftItems, id) && selectedRight.Some?) ==>
        Resolved(id, old(selectedRight.value))
    {
      if AlreadyMatched(leftItems, id) {
        return;
      }
      selectedLeft := Some(id);
      if selectedRight.Some? {
        CheckMatch(id, selectedRight.value);
      }
    }

    /** A click on the right item `id`. */
    method RightClick(id: ItemId)
      requires Valid()
      requires id in Ids(rightItems)
      modifies this
      ensures Valid()
      ensures old(AlreadyMatched(rightItems, id)) ==> unchanged(this)
      ensures old(!AlreadyMatched(rightItems, id) && selectedLeft.None?) ==>
        selectedRight == Some(id) && selectedLeft == None &&
        leftItems == old(leftItems) && rightItems == old(rightItems) &&
        matchedIds == old(matchedIds) && elapsedTime == old(elapsedTime) &&
        isTimerRunning == old(isTimerRunning) && finishedTime == old(finishedTime) &&
        mistakeFlash == old(mistakeFlash)
      ensures old(!AlreadyMatched(rightItems, id) && selectedLeft.Some?) ==>
        Resolved(old(selectedLeft.value), id)
    {
      if AlreadyMatched(rightItems, id) {
        return;
      }
      selectedRight := Some(id);
      if selectedLeft.Some? {
        CheckMatch(selectedLeft.value, id);
      }
    }

    /** One second of the display timer. */
    method Tick()
      requires Valid()
      modifies this`elapsedTime
      ensures Valid()
      ensures elapsedTime == if isTimerRunning then old(elapsedTime) + 1 else old(elapsedTime)
    {
      if isTimerRunning {
        elapsedTime := elapsedTime + 1;
      }
    }

    /** The expiry of the mistake flash. */
    method FlashExpire()
      requires Valid()
      modifies this`mistakeFlash
      ensures Valid() && !mistakeFlash
    {
      mistakeFlash := false;
    }
  }

  /** Each button of a shuffled left column can be found by its id, and is that pair's avatar. */
  lemma FindInLeftColumn(items: seq<GameItem>, p: PairId)
    requires Shuffle.IsPermutation(items, LeftColumn())
    ensures Find(items, Left(p)) == Some(AvatarItem(p))
  {
    PairIdsCount();
    var i :| 0 <= i < |PAIRS| && PAIRS[i] == p;
    assert LeftColumn()[i] in multiset(items);
    var r := Find(items, Left(p));
    var k :| 0 <= k < |items| && items[k] == r.value;
    LeftItemFromPair(items, items[k]);
  }

  /** Each button of a shuffled right column can be found by its id, and is that pair's icon. */
  lemma FindInRightColumn(items: seq<GameItem>, p: PairId)
    requires Shuffle.IsPermutation(items, RightColumn())
    ensures Find(items, Right(p)) == Some(IconItem(p))
  {
    PairIdsCount();
    var i :| 0 <= i < |PAIRS| && PAIRS[i] == p;
    assert RightColumn()[i] in multiset(items);
    var r := Find(items, Right(p));
    var k :| 0 <= k < |items| && items[k] == r.value;
    RightItemFromPair(items, items[k]);
  }

  /**
   * The stage can be won: on a freshly mounted board, clicking the avatar
   * and then the icon of each pair in turn matches every pair, which stops
   * the timer and records the finish time.
   */
  method WinByMatchingEachPair() returns (finished: Option<nat>)
    ensures finished.Some?
  {
    var game := new Game();
    for k := 0 to |PAIRS|
      invariant game.Valid()
      invariant game.matchedIds == set p | p in PAIRS[..k]
      invariant game.selectedLeft == None && game.selectedRight == None
    {
      var p := PAIRS[k];
      FindInLeftColumn(game.leftItems, p);
      FindInRightColumn(game.rightItems, p);
      assert p !in game.matchedIds;
      assert PAIRS[..k + 1] == PAIRS[..k] + [p];
      game.LeftClick(Left(p));
      game.RightClick(Right(p));
    }
    assert PAIRS[..|PAIRS|] == PAIRS;
    finished := game.finishedTime;
  }
}
