/** The board controller: the board of card ids, the `selected` mark on each card, the
    count of sets found, and the countdown. The board is kept as the ids of the card
    elements in document order; an id is all the rest of the program ever reads off a card. */
module Game {
  import opened Text
  import opened Cards
  import opened SetRule
  import opened Generator
  import opened Clock

  /** `document.querySelectorAll('.card.selected')`: the positions of the selected cards,
      in board order. */
  function SelectedPositions(flags: seq<bool>): (ps: seq<nat>)
    ensures forall k :: 0 <= k < |ps| ==> ps[k] < |flags| && flags[ps[k]]
    ensures forall p :: 0 <= p < |flags| && flags[p] ==> p in ps
    ensures forall k, l :: 0 <= k < l < |ps| ==> ps[k] < ps[l]
  {
    if |flags| == 0 then []
    else
      var n := |flags| - 1;
      SelectedPositions(flags[..n]) + (if flags[n] then [n] else [])
  }

  /** Toggling one card's mark changes the number of selected cards by exactly one. */
  lemma {:induction false} ToggleCount(flags: seq<bool>, i: nat)
    requires i < |flags|
    ensures |SelectedPositions(flags[i := !flags[i]])| ==
              |SelectedPositions(flags)| + (if flags[i] then -1 else 1)
  {
    var n := |flags| - 1;
    var toggled := flags[i := !flags[i]];
    if i == n {
      assert toggled[..n] == flags[..n];
    } else {
      assert toggled[..n] == flags[..n][i := !flags[i]];
      ToggleCount(flags[..n], i);
    }
  }

  predicate NoneSelected(flags: seq<bool>)
  {
    forall p :: 0 <= p < |flags| ==> !flags[p]
  }

  lemma {:induction false} NoSelectedPositions(flags: seq<bool>)
    requires NoneSelected(flags)
    ensures SelectedPositions(flags) == []
  {
    if |flags| > 0 {
      NoSelectedPositions(flags[..|flags| - 1]);
    }
  }

  /** No two cards on the board share an id. */
  predicate DistinctIds(ids: seq<string>)
  {
    forall p, q :: 0 <= p < q < |ids| ==> ids[p] != ids[q]
  }

  /** Every id on the board is the id of a card. */
  predicate CardIds(ids: seq<string>)
  {
    forall p :: 0 <= p < |ids| ==> IsCardId(ids[p])
  }

  /** `document.getElementById(id)` among the cards: the first card with that id. */
  function Find(ids: seq<string>, id: string): (r: Option<nat>)
    ensures r.Some? ==> r.value < |ids| && ids[r.value] == id
                        && forall q :: 0 <= q < r.value ==> ids[q] != id
    ensures r.None? ==> id !in ids
  {
    if |ids| == 0 then None
    else if ids[0] == id then Some(0)
    else match Find(ids[1..], id)
      case Some(p) => Some(p + 1)
      case None => None
  }

  /** `addIds`: the ids of the given cards, in the given order. */
  method AddIds(board: seq<string>, positions: seq<nat>) returns (result: seq<string>)
    requires forall k :: 0 <= k < |positions| ==> positions[k] < |board|
    ensures |result| == |positions|
    ensures forall k :: 0 <= k < |positions| ==> result[k] == board[positions[k]]
  {
    result := [];
    for k := 0 to |positions|
      invariant |result| == k
      invariant forall m :: 0 <= m < k ==> result[m] == board[positions[m]]
    {
      result := result + [board[positions[k]]];
    }
  }

  /** The number of cards `createGame` deals: 9 in easy mode, 12 in standard mode. Either
      way the board fits the twelve places of the page and leaves cards of the mode's
      domain off the board, so a fresh card always exists. */
  function BoardSize(easy: bool): (n: nat)
    ensures n <= 12 && n < DomainSize(easy)
  {
    if easy then 9 else 12
  }

  /** The dealing loop of `createGame`: `count` cards appended one after another, each
      generated against the ids dealt before it, reading the tape from attempt `start`.
      The loop can only end while the domain has a card left, so `count` is at most its size. */
  method Deal(easy: bool, count: nat, tape: nat -> Draw, start: nat) returns (dealt: seq<string>, next: nat)
    requires Fair(tape) && count <= DomainSize(easy)
    ensures |dealt| == count && next >= start
    ensures DistinctIds(dealt) && CardIds(dealt)
    ensures forall p :: 0 <= p < count ==> InDomain(easy, CardOf(dealt[p]))
  {
    dealt, next := [], start;
    for i := 0 to count
      invariant |dealt| == i && next >= start
      invariant DistinctIds(dealt) && CardIds(dealt)
      invariant forall p :: 0 <= p < i ==> InDomain(easy, CardOf(dealt[p]))
    {
      DomainExceedsBoard(easy, dealt);
      var card, id;
      card, id, next := GenerateUniqueCard(dealt, easy, tape, next);
      ParseKey(card);
      dealt := dealt + [id];
    }
  }

  /** One pass of the replacement loop of `cardSelected`: the card carrying `id`, found
      with `document.getElementById`, is replaced where it stands by a card generated
      against the board as it stands, which still holds the card being replaced. */
  method ReplaceCard(board: seq<string>, id: string, easy: bool, tape: nat -> Draw, start: nat)
    returns (r: seq<string>, pos: nat, next: nat)
    requires Fair(tape) && |board| < DomainSize(easy)
    requires DistinctIds(board) && CardIds(board) && id in board
    ensures pos < |board| && board[pos] == id && next > start
    ensures |r| == |board| && r == board[pos := r[pos]] && r[pos] !in board
    ensures DistinctIds(r) && CardIds(r) && InDomain(easy, CardOf(r[pos]))
  {
    var currentCard := Find(board, id);
    pos := currentCard.value;
    DomainExceedsBoard(easy, board);
    var card, newId;
    card, newId, next := GenerateUniqueCard(board, easy, tape, start);
    ParseKey(card);
    r := board[pos := newId];
  }

  /** Replacing the cards at `ps` in turn turned `board` into `b` with each new id drawn
      against the board as it stood: the id put at `ps[k]` is none of the old ids still
      present then, those at positions other than `ps[..k]`. */
  predicate DrawnFresh(board: seq<string>, b: seq<string>, ps: seq<nat>)
    requires |b| == |board| && forall k :: 0 <= k < |ps| ==> ps[k] < |b|
  {
    forall k, p :: 0 <= k < |ps| && 0 <= p < |board| && p !in ps[..k] ==> b[ps[k]] != board[p]
  }

  /** Freshness at draw time rules out a reshuffle: moving the cards of a board
      about among the replaced positions is not a valid replacement. */
  lemma ReshuffleIsNotFresh()
    ensures !DrawnFresh(["A", "B", "C", "D"], ["B", "C", "A", "D"], [0, 1, 2])
  {
    var board: seq<string>, b: seq<string>, ps: seq<nat> := ["A", "B", "C", "D"], ["B", "C", "A", "D"], [0, 1, 2];
    assert 1 !in ps[..0] && b[ps[0]] == board[1];
  }

  /** The replacement loop of `cardSelected`: the cards at positions `ps`, whose ids are
      `ids`, are replaced one after another. Exactly those positions change, each now
      holds a card of the difficulty's domain, and each new id differs from every id
      still on the board when it was drawn. */
  method ReplaceCards(board: seq<string>, ps: seq<nat>, ids: seq<string>, easy: bool, tape: nat -> Draw, start: nat)
    returns (b: seq<string>, next: nat)
    requires Fair(tape) && |board| < DomainSize(easy) && DistinctIds(board) && CardIds(board)
    requires |ps| == |ids| && forall k :: 0 <= k < |ps| ==> ps[k] < |board| && board[ps[k]] == ids[k]
    requires forall k, l :: 0 <= k < l < |ps| ==> ps[k] < ps[l]
    ensures |b| == |board| && DistinctIds(b) && CardIds(b) && next >= start
    ensures forall p :: 0 <= p < |b| ==> (b[p] != board[p] <==> p in ps)
    ensures forall k :: 0 <= k < |ps| ==> InDomain(easy, CardOf(b[ps[k]]))
    ensures DrawnFresh(board, b, ps)
  {
    b, next := board, start;
    for k := 0 to |ids|
      invariant |b| == |board| && DistinctIds(b) && CardIds(b) && next >= start
      invariant forall p :: 0 <= p < |b| && p !in ps[..k] ==> b[p] == board[p]
      invariant forall m :: 0 <= m < k ==> b[ps[m]] != board[ps[m]] && InDomain(easy, CardOf(b[ps[m]]))
      invariant forall m, p :: 0 <= m < k && 0 <= p < |board| && p !in ps[..m] ==> b[ps[m]] != board[p]
    {
      assert ps[k] !in ps[..k];
      ghost var before := b;
      var pos;
      b, pos, next := ReplaceCard(b, ids[k], easy, tape, next);
      assert pos == ps[k];
      forall m | 0 <= m <= k
        ensures b[ps[m]] != board[ps[m]] && InDomain(easy, CardOf(b[ps[m]]))
      {
        if m < k {
          assert b[ps[m]] == before[ps[m]];
        }
      }
      forall m, p | 0 <= m <= k && 0 <= p < |board| && p !in ps[..m]
        ensures b[ps[m]] != board[p]
      {
        if m < k {
          assert b[ps[m]] == before[ps[m]];
        } else {
          assert before[p] == board[p];
        }
      }
    }
    assert ps[..|ids|] == ps;
  }

  /** `cards.forEach(card => card.classList.remove("selected"))` over the whole board. */
  method ClearAll(flags: seq<bool>) returns (r: seq<bool>)
    ensures |r| == |flags| && NoneSelected(r)
  {
    r := flags;
    for p := 0 to |r|
      invariant |r| == |flags|
      invariant forall q :: 0 <= q < p ==> !r[q]
    {
      r := r[p := false];
    }
  }

  /** `selectedCards.forEach(card => card.classList.remove('selected'))`: the marks of
      the given cards are cleared, all others are kept. Clearing the marks of every
      selected card leaves none selected. */
  method ClearMarks(flags: seq<bool>, ps: seq<nat>) returns (r: seq<bool>)
    requires forall k :: 0 <= k < |ps| ==> ps[k] < |flags|
    ensures |r| == |flags|
    ensures forall p :: 0 <= p < |flags| ==> (r[p] <==> flags[p] && p !in ps)
    ensures ps == SelectedPositions(flags) ==> NoneSelected(r)
  {
    r := flags;
    for k := 0 to |ps|
      invariant |r| == |flags|
      invariant forall p :: 0 <= p < |flags| ==> (r[p] <==> flags[p] && p !in ps[..k])
    {
      r := r[ps[k] := false];
    }
    assert ps[..|ps|] == ps;
  }

  /** The verdict on the ids of three cards of a board of card ids is the rule on the
      cards themselves. */
  lemma SelectionVerdict(board: seq<string>, ps: seq<nat>, ids: seq<string>, r: bool)
    requires |ps| == 3 && |ids| == 3 && CardIds(board)
    requires forall k :: 0 <= k < 3 ==> ps[k] < |board| && ids[k] == board[ps[k]]
    requires r == IdsFormSet(ids)
    ensures r == IsSet(CardOf(board[ps[0]]), CardOf(board[ps[1]]), CardOf(board[ps[2]]))
  {
    assert IsCardId(ids[0]) && IsCardId(ids[1]) && IsCardId(ids[2]);
    assert ids == [ids[0], ids[1], ids[2]];
    CardIdsVerdict(ids[0], ids[1], ids[2]);
  }

  class Game {
    /** The values `Math.random()` supplies, one Draw per generation attempt. */
    const tape: nat -> Draw
    /** How many attempts have been made so far. */
    var cursor: nat
    /** The ids of the cards in #board, in document order. */
    var board: seq<string>
    /** Whether each card carries the `selected` class. */
    var selected: seq<bool>
    /** Whether the cards still answer clicks (their listener is attached). */
    var listening: bool
    /** The number shown in #set-count. */
    var setCount: nat
    /** The difficulty chosen when the game was started, used by the refresh button. */
    var isEasy: bool
    var refreshEnabled: bool
    /** `remainingSeconds`, and whether the one-second interval is running. */
    var remaining: int
    var running: bool
    /** The text of #time. */
    var timeText: string

    /** The board holds at most twelve distinct card ids, with one mark per card. */
    ghost predicate BoardValid()
      reads this`board, this`selected
    {
      && Fair(tape)
      && |selected| == |board| <= 12
      && DistinctIds(board)
      && CardIds(board)
    }

    /** Between clicks at most two cards are marked, and none once clicks are ignored. */
    ghost predicate Valid()
      reads this`board, this`selected, this`listening
    {
      && BoardValid()
      && |SelectedPositions(selected)| <= 2
      && (!listening ==> NoneSelected(selected))
    }

    /** The countdown shown is the countdown kept. */
    ghost predicate DisplayInSync()
      reads this`timeText, this`remaining
    {
      timeText == ConvertTime(remaining)
    }

    /** The page as loaded: an empty board, no timer. */
    constructor (tape: nat -> Draw)
      requires Fair(tape)
      ensures Valid() && this.tape == tape && cursor == 0
      ensures board == [] && !listening && setCount == 0 && !running && !refreshEnabled
    {
      this.tape := tape;
      cursor := 0;
      board, selected := [], [];
      listening := false;
      setCount := 0;
      isEasy := false;
      refreshEnabled := false;
      remaining := 0;
      running := false;
      timeText := "";
    }

    /** `createGame`: clear the board, then deal 9 (easy) or 12 (standard) cards, each
        drawn against the cards already dealt, so no id is repeated. The new cards answer
        clicks and none is marked. */
    method CreateGame(easy: bool)
      requires Valid()
      modifies this`board, this`selected, this`cursor, this`listening
      ensures Valid() && listening && cursor >= old(cursor)
      ensures |board| == BoardSize(easy) && NoneSelected(selected)
      ensures forall p :: 0 <= p < |board| ==> InDomain(easy, CardOf(board[p]))
    {
      var count := BoardSize(easy);
      var dealt, next := Deal(easy, count, tape, cursor);
      board, selected := dealt, seq(count, _ => false);
      NoSelectedPositions(selected);
      cursor := next;
      listening := true;
    }

    /** `startTimer`: the countdown starts from the chosen number of seconds. */
    method StartTimer(seconds: int)
      modifies this`remaining, this`running, this`timeText
      ensures remaining == seconds && running && DisplayInSync()
    {
      remaining := seconds;
      running := true;
      timeText := ConvertTime(remaining);
    }

    /** The start button: reset #set-count, start the countdown, deal the board and
        enable refreshing. */
    method Start(easy: bool, seconds: int)
      requires Valid()
      modifies this
      ensures Valid() && listening && DisplayInSync()
      ensures setCount == 0 && isEasy == easy && refreshEnabled
      ensures remaining == seconds && running
      ensures |board| == BoardSize(easy) && NoneSelected(selected)
      ensures forall p :: 0 <= p < |board| ==> InDomain(easy, CardOf(board[p]))
    {
      isEasy := easy;
      setCount := 0;
      StartTimer(seconds);
      CreateGame(easy);
      refreshEnabled := true;
    }

    /** The refresh button, clickable only once a game has started: a new board of the
        difficulty chosen at the start, dealt after the old one is cleared. The count, the
        countdown and the button itself are left as they are. */
    method Refresh()
      requires Valid() && refreshEnabled
      modifies this`board, this`selected, this`cursor, this`listening
      ensures Valid() && listening && cursor >= old(cursor)
      ensures |board| == BoardSize(isEasy) && NoneSelected(selected)
      ensures forall p :: 0 <= p < |board| ==> InDomain(isEasy, CardOf(board[p]))
    {
      CreateGame(isEasy);
    }

    /** `clearGame`: stop the interval and show no time left. */
    method ClearGame()
      modifies this`remaining, this`running, this`timeText
      ensures remaining == 0 && !running && timeText == "00:00" && DisplayInSync()
    {
      running := false;
      remaining := 0;
      timeText := "00:00";
      ConvertTimeZero();
    }

    /** What the time running out does to the board: the refresh button is disabled,
        the cards stop answering clicks and every card loses its mark. */
    method StopPlay()
      requires BoardValid()
      modifies this`refreshEnabled, this`listening, this`selected
      ensures Valid() && !refreshEnabled && !listening && NoneSelected(selected)
    {
      var cleared := ClearAll(selected);
      NoSelectedPositions(cleared);
      refreshEnabled, listening, selected := false, false, cleared;
    }

    /** `advanceTimer`, run each second while the interval is active: one second less;
        at zero or below the game stops, the refresh button is disabled, the cards stop
        answering clicks and lose their selection. */
    method AdvanceTimer()
      requires Valid() && running
      modifies this`remaining, this`running, this`timeText, this`refreshEnabled, this`listening, this`selected
      ensures Valid() && DisplayInSync()
      ensures old(remaining) - 1 > 0 ==>
                && remaining == old(remaining) - 1 && running
                && selected == old(selected) && listening == old(listening)
                && refreshEnabled == old(refreshEnabled)
      ensures old(remaining) - 1 <= 0 ==>
                && remaining == 0 && !running && timeText == "00:00"
                && !refreshEnabled && !listening && NoneSelected(selected)
    {
      // The display first shows the decremented time; at zero or below `clearGame`
      // overwrites it at once, so only the last value is kept.
      var next := remaining - 1;
      if next <= 0 {
        ClearGame();
        StopPlay();
      } else {
        remaining := next;
        timeText := ConvertTime(next);
      }
    }

    /** `cardSelected` for a click on the card at position i; `easy` is the difficulty
        the radio buttons show at that moment. The click toggles the card's mark; when
        three cards are marked, all three lose the mark and, if they form a set, the count
        goes up by one and each is replaced where it stands by a card whose id is on the
        board nowhere else. */
    method CardSelected(i: nat, easy: bool)
      requires Valid() && i < |board|
      modifies this`selected, this`setCount, this`board, this`cursor
      ensures Valid() && |board| == |old(board)|
      ensures !old(listening) ==>
                board == old(board) && selected == old(selected) && setCount == old(setCount)
                && cursor == old(cursor)
      ensures var toggled := old(selected)[i := !old(selected)[i]];
              old(listening) && |SelectedPositions(toggled)| != 3 ==>
                selected == toggled && board == old(board) && setCount == old(setCount)
                && cursor == old(cursor)
      ensures var ps := SelectedPositions(old(selected)[i := !old(selected)[i]]);
              old(listening) && |ps| == 3 ==>
                var isSet := IsSet(CardOf(old(board)[ps[0]]), CardOf(old(board)[ps[1]]), CardOf(old(board)[ps[2]]));
                && NoneSelected(selected)
                && setCount == old(setCount) + (if isSet then 1 else 0)
                && (!isSet ==> board == old(board) && cursor == old(cursor))
                && (isSet ==> forall p :: 0 <= p < |board| ==> (board[p] != old(board)[p] <==> p in ps))
                && (isSet ==> forall k :: 0 <= k < 3 ==> InDomain(easy, CardOf(board[ps[k]])))
                && (isSet ==> DrawnFresh(old(board), board, ps))
    {
      if !listening {
        return;
      }
      ToggleCount(selected, i);
      selected := selected[i := !selected[i]];
      var selectedCards := SelectedPositions(selected);
      if |selectedCards| == 3 {
        ThreeSelected(selectedCards, easy);
      }
    }

    /** The branch of `cardSelected` taken when three cards are marked: the marks are
        cleared and, if the three form a set, the count goes up and they are replaced,
        each by a card whose id is on the board nowhere when it is drawn. */
    method ThreeSelected(ps: seq<nat>, easy: bool)
      requires BoardValid() && listening && |ps| == 3 && ps == SelectedPositions(selected)
      modifies this`selected, this`setCount, this`board, this`cursor
      ensures Valid() && |board| == |old(board)| && NoneSelected(selected)
      ensures var isSet := IsSet(CardOf(old(board)[ps[0]]), CardOf(old(board)[ps[1]]), CardOf(old(board)[ps[2]]));
              && setCount == old(setCount) + (if isSet then 1 else 0)
              && (!isSet ==> board == old(board) && cursor == old(cursor))
              && (isSet ==> forall p :: 0 <= p < |board| ==> (board[p] != old(board)[p] <==> p in ps))
              && (isSet ==> forall k :: 0 <= k < 3 ==> InDomain(easy, CardOf(board[ps[k]])))
              && (isSet ==> DrawnFresh(old(board), board, ps))
    {
      var flags := ClearMarks(selected, ps);
      NoSelectedPositions(flags);
      var selectedCardIds := AddIds(board, ps);
      var isSet := IsASet(selectedCardIds);
      SelectionVerdict(board, ps, selectedCardIds, isSet);
      var sets, b, next := setCount, board, cursor;
      if isSet {
        sets := sets + 1;
        b, next := ReplaceCards(board, ps, selectedCardIds, easy, tape, cursor);
      }
      selected, setCount, board, cursor := flags, sets, b, next;
    }
  }
}
