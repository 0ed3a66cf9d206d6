/**
 * The board list on the home page (app/home/_components/boards.tsx): deleting
 * a board hides it at once through `useOptimistic`, whose reducer filters the
 * list by id, and then calls the server action that deletes it for real.
 */
module Boards {

  /** A row of the board table as the page receives it. */
  datatype Board = Board(id: int, name: string, color: string, accountId: string)

  /** The optimistic reducer, `boards.filter((b) => b.id !== id)`. */
  function RemoveBoard(boards: seq<Board>, id: int): (r: seq<Board>)
    ensures forall b :: b in r <==> b in boards && b.id != id
    ensures |r| <= |boards|
  {
    if boards == [] then []
    else if boards[0].id != id then [boards[0]] + RemoveBoard(boards[1..], id)
    else RemoveBoard(boards[1..], id)
  }

  /** How many boards in the list carry this id. */
  function CountId(boards: seq<Board>, id: int): nat
  {
    if boards == [] then 0
    else (if boards[0].id == id then 1 else 0) + CountId(boards[1..], id)
  }

  /** `sub` keeps some of the elements of `s`, in their relative order. */
  predicate IsSubsequence(sub: seq<Board>, s: seq<Board>)
    decreases |s|
  {
    if sub == [] then true
    else if s == [] then false
    else (sub[0] == s[0] && IsSubsequence(sub[1..], s[1..])) || IsSubsequence(sub, s[1..])
  }

  /** The filter works piecewise: removing from a concatenation removes from each part. */
  lemma {:induction false} RemoveBoardConcat(a: seq<Board>, b: seq<Board>, id: int)
    ensures RemoveBoard(a + b, id) == RemoveBoard(a, id) + RemoveBoard(b, id)
  {
    if a == [] {
      assert a + b == b;
    } else {
      assert (a + b)[0] == a[0];
      assert (a + b)[1..] == a[1..] + b;
      RemoveBoardConcat(a[1..], b, id);
    }
  }

  /**
   * Every board with a different id survives in its place: it still comes
   * after the survivors of the boards before it and before the survivors of
   * the boards after it.
   */
  lemma KeepsOthersInOrder(before: seq<Board>, board: Board, after: seq<Board>, id: int)
    requires board.id != id
    ensures RemoveBoard(before + [board] + after, id) == RemoveBoard(before, id) + [board] + RemoveBoard(after, id)
  {
    RemoveBoardConcat(before + [board], after, id);
    RemoveBoardConcat(before, [board], id);
    assert RemoveBoard([board], id) == [board] by {
      assert [board][1..] == [];
    }
  }

  /** The result is a subsequence of the input, shorter by the number of boards that had the id. */
  lemma {:induction false} RemoveBoardSubsequence(boards: seq<Board>, id: int)
    ensures IsSubsequence(RemoveBoard(boards, id), boards)
    ensures |RemoveBoard(boards, id)| == |boards| - CountId(boards, id)
  {
    if boards != [] {
      RemoveBoardSubsequence(boards[1..], id);
      var rest := RemoveBoard(boards[1..], id);
      if boards[0].id != id {
        assert RemoveBoard(boards, id) == [boards[0]] + rest;
        assert ([boards[0]] + rest)[1..] == rest;
      }
    }
  }

  /** Removing an id no board carries leaves the list as it was. */
  lemma {:induction false} RemoveAbsent(boards: seq<Board>, id: int)
    requires forall i :: 0 <= i < |boards| ==> boards[i].id != id
    ensures RemoveBoard(boards, id) == boards
  {
    if boards != [] {
      RemoveAbsent(boards[1..], id);
      assert [boards[0]] + boards[1..] == boards;
    }
  }

  /** Removing the same id twice is removing it once. */
  lemma RemoveIdempotent(boards: seq<Board>, id: int)
    ensures RemoveBoard(RemoveBoard(boards, id), id) == RemoveBoard(boards, id)
  {
    var once := RemoveBoard(boards, id);
    forall i | 0 <= i < |once| ensures once[i].id != id {
      assert once[i] in once;
    }
    RemoveAbsent(once, id);
  }

  /** Two removals give the same list in either order. */
  lemma {:induction false} RemoveCommutes(boards: seq<Board>, id1: int, id2: int)
    ensures RemoveBoard(RemoveBoard(boards, id1), id2) == RemoveBoard(RemoveBoard(boards, id2), id1)
  {
    if boards != [] {
      RemoveCommutes(boards[1..], id1, id2);
      var head, tail := boards[0], boards[1..];
      if head.id != id1 {
        assert ([head] + RemoveBoard(tail, id1))[0] == head;
        assert ([head] + RemoveBoard(tail, id1))[1..] == RemoveBoard(tail, id1);
      }
      if head.id != id2 {
        assert ([head] + RemoveBoard(tail, id2))[0] == head;
        assert ([head] + RemoveBoard(tail, id2))[1..] == RemoveBoard(tail, id2);
      }
    }
  }

  /** The list `useOptimistic` shows: the removals of the pending transition applied in order. */
  function ApplyRemovals(boards: seq<Board>, pending: seq<int>): (r: seq<Board>)
    ensures forall b :: b in r <==> b in boards && b.id !in pending
    decreases |pending|
  {
    if pending == [] then boards
    else ApplyRemovals(RemoveBoard(boards, pending[0]), pending[1..])
  }

  /** Queuing one more removal removes its id from what is shown. */
  lemma {:induction false} ApplyRemovalsSnoc(boards: seq<Board>, pending: seq<int>, id: int)
    ensures ApplyRemovals(boards, pending + [id]) == RemoveBoard(ApplyRemovals(boards, pending), id)
    decreases |pending|
  {
    if pending != [] {
      assert (pending + [id])[0] == pending[0];
      assert (pending + [id])[1..] == pending[1..] + [id];
      ApplyRemovalsSnoc(RemoveBoard(boards, pending[0]), pending[1..], id);
    }
  }

  /**
   * A confirmed list that already lacks the pending boards is shown as it
   * is: a refreshed list arriving before the transition ends does not
   * change what the user sees.
   */
  lemma {:induction false} ApplyRemovalsIdempotent(boards: seq<Board>, pending: seq<int>)
    ensures ApplyRemovals(ApplyRemovals(boards, pending), pending) == ApplyRemovals(boards, pending)
  {
    var shown := ApplyRemovals(boards, pending);
    ApplyRemovalsAbsent(shown, pending);
  }

  /** Removals of ids no board carries change nothing. */
  lemma {:induction false} ApplyRemovalsAbsent(boards: seq<Board>, pending: seq<int>)
    requires forall i :: 0 <= i < |boards| ==> boards[i].id !in pending
    ensures ApplyRemovals(boards, pending) == boards
    decreases |pending|
  {
    if pending != [] {
      RemoveAbsent(boards, pending[0]);
      forall i | 0 <= i < |boards| ensures boards[i].id !in pending[1..] {
        assert boards[i].id !in pending;
      }
      ApplyRemovalsAbsent(boards, pending[1..]);
    }
  }

  /**
   * What the delete handler does, in the order it does it. A call of the
   * server action records the list the component showed at that moment.
   */
  datatype Event = HiddenOptimistically(id: int) | ActionCalled(id: int, shown: seq<Board>)

  /**
   * The `useOptimistic` state of the board list: the confirmed list passed
   * in by the page, the removals queued during the current transition, and
   * the history of what the delete handler did.
   */
  class OptimisticBoards {
    var confirmed: seq<Board>
    var pending: seq<int>
    var events: seq<Event>

    /**
     * Each call of the server action comes right after its board was hidden,
     * and no board with that id was shown when the action ran.
     */
    predicate Valid()
      reads this
    {
      && (forall i :: 0 <= i < |events| && events[i].ActionCalled? ==>
            0 < i && events[i - 1] == HiddenOptimistically(events[i].id))
      && (forall i, b :: 0 <= i < |events| && events[i].ActionCalled? && b in events[i].shown ==>
            b.id != events[i].id)
    }

    /** The list the component renders. */
    function Shown(): seq<Board>
      reads this
    {
      ApplyRemovals(confirmed, pending)
    }

    constructor (boards: seq<Board>)
      ensures Valid() && confirmed == boards && pending == [] && events == []
      ensures Shown() == boards
    {
      confirmed, pending, events := boards, [], [];
    }

    /**
     * The form's submit handler: inside one transition, `removeBoard(id)`
     * first, then the server action.
     */
    method SubmitRemove(id: int)
      requires Valid()
      modifies this
      ensures Valid()
      ensures confirmed == old(confirmed) && pending == old(pending) + [id]
      ensures Shown() == RemoveBoard(old(Shown()), id)
      ensures events == old(events) + [HiddenOptimistically(id), ActionCalled(id, RemoveBoard(old(Shown()), id))]
      ensures forall b :: b in events[|events| - 1].shown ==> b.id != id
    {
      pending := pending + [id];
      ApplyRemovalsSnoc(confirmed, old(pending), id);
      events := events + [HiddenOptimistically(id)];
      events := events + [ActionCalled(id, Shown())];
    }

    /**
     * The transition ends and the page renders again with the list read
     * after `revalidatePath`: the queued removals are dropped and the new
     * confirmed list is shown, so a board whose deletion failed reappears.
     */
    method Settle(boards: seq<Board>)
      requires Valid()
      modifies this
      ensures Valid()
      ensures confirmed == boards && pending == [] && events == old(events)
      ensures Shown() == boards
    {
      confirmed, pending := boards, [];
    }
  }
}
