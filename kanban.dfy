/**
 * The admin board of components/features/admin/AdminKanban.tsx: five status columns, the
 * per-column filter, and the drag handlers that move an idea to another column.
 */
module Kanban {
  import opened Base
  import opened Types
  import Store

  /** The column ids, in board order. */
  const Columns: seq<string> := ["Submitted", "In Progress", "Approved", "Rejected", "Done"]

  /** `COLUMNS.some(c => c.id === s)`. */
  predicate IsColumn(s: string)
  {
    s in Columns
  }

  /** The column ids are exactly the declared status names, each once. */
  lemma ColumnsAreStatuses()
    ensures Columns == StatusNames
    ensures forall s: Status :: IsColumn(s.Name())
    ensures forall c :: IsColumn(c) ==> exists s: Status :: s.Name() == c
    ensures forall i, j :: 0 <= i < j < |Columns| ==> Columns[i] != Columns[j]
  {
    StatusNamesExact();
  }

  /** The cards shown in column `col`: `ideas.filter(i => i.status === col)`. */
  function ColumnView(ideas: seq<Idea>, col: string): (r: seq<Idea>)
    ensures |r| <= |ideas|
    ensures forall x :: x in r ==> x.status == col
  {
    if ideas == [] then []
    else (if ideas[0].status == col then [ideas[0]] else []) + ColumnView(ideas[1..], col)
  }

  /** A card is in a column exactly when it is listed and has that status. */
  lemma {:induction false} ColumnViewMembership(ideas: seq<Idea>, col: string, x: Idea)
    ensures x in ColumnView(ideas, col) <==> x in ideas && x.status == col
  {
    if ideas != [] {
      ColumnViewMembership(ideas[1..], col, x);
      assert ideas == [ideas[0]] + ideas[1..];
    }
  }

  /** The filter distributes over concatenation, so each column keeps the list's relative order. */
  lemma {:induction false} ColumnViewAppend(a: seq<Idea>, b: seq<Idea>, col: string)
    ensures ColumnView(a + b, col) == ColumnView(a, col) + ColumnView(b, col)
  {
    if a == [] {
      assert a + b == b;
    } else {
      assert (a + b)[1..] == a[1..] + b;
      ColumnViewAppend(a[1..], b, col);
    }
  }

  /** The number of listed cards whose status is a column id. */
  function CountShown(ideas: seq<Idea>): nat
  {
    if ideas == [] then 0 else (if IsColumn(ideas[0].status) then 1 else 0) + CountShown(ideas[1..])
  }

  /** The five columns together hold every card with a column status once, and nothing else. */
  lemma {:induction false} ColumnsPartition(ideas: seq<Idea>)
    ensures |ColumnView(ideas, Columns[0])| + |ColumnView(ideas, Columns[1])| + |ColumnView(ideas, Columns[2])|
          + |ColumnView(ideas, Columns[3])| + |ColumnView(ideas, Columns[4])| == CountShown(ideas)
  {
    if ideas != [] {
      ColumnsPartition(ideas[1..]);
    }
  }

  /** Each card with a column status is in exactly its own column; any other card is in none. */
  lemma ExactlyOneColumn(ideas: seq<Idea>, x: Idea, col: string)
    requires x in ideas && IsColumn(col)
    ensures x in ColumnView(ideas, col) <==> x.status == col
    ensures !IsColumn(x.status) ==> x !in ColumnView(ideas, col)
  {
    ColumnViewMembership(ideas, col, x);
  }

  /** The list with every card of idea `id` given status `status` (the local `prev.map` replacement). */
  function WithStatus(ideas: seq<Idea>, id: IdeaId, status: string): (r: seq<Idea>)
    ensures |r| == |ideas|
    ensures forall k :: 0 <= k < |r| ==> r[k].id == ideas[k].id && r[k].(status := ideas[k].status) == ideas[k]
    ensures forall k :: 0 <= k < |r| && ideas[k].id == id ==> r[k].status == status
    ensures forall k :: 0 <= k < |r| && ideas[k].id != id ==> r[k] == ideas[k]
  {
    seq(|ideas|, k requires 0 <= k < |ideas| => if ideas[k].id == id then ideas[k].(status := status) else ideas[k])
  }

  /**
   * A drop the handler acts on: a target exists, differs from the dragged id and is a column id.
   * The status it writes is then always one of the declared statuses.
   */
  predicate DropMoves(active: IdeaId, over: Option<string>)
    ensures DropMoves(active, over) ==> over.Some? && exists s: Status :: s.Name() == over.value
  {
    ColumnsAreStatuses();
    over.Some? && active != over.value && IsColumn(over.value)
  }

  /** A card whose id equals a column id cannot be dropped on that column. */
  lemma DropGuardQuirk()
    ensures !DropMoves("Done", Some("Done"))
    ensures DropMoves("x1", Some("Done"))
    ensures !DropMoves("x1", Some("Archived"))
    ensures !DropMoves("x1", None)
  {
  }

  /**
   * Any card moves from whatever status it has to any other column: the drop is acted on, and
   * afterwards the card shows in the target column and in no other.
   */
  lemma AnyStatusToAnyColumn(ideas: seq<Idea>, k: nat, col: string, other: string)
    requires k < |ideas| && IsColumn(col) && ideas[k].id != col && other != col
    ensures DropMoves(ideas[k].id, Some(col))
    ensures WithStatus(ideas, ideas[k].id, col)[k] in ColumnView(WithStatus(ideas, ideas[k].id, col), col)
    ensures WithStatus(ideas, ideas[k].id, col)[k] !in ColumnView(WithStatus(ideas, ideas[k].id, col), other)
  {
    var moved := WithStatus(ideas, ideas[k].id, col);
    ColumnViewMembership(moved, col, moved[k]);
    ColumnViewMembership(moved, other, moved[k]);
  }

  class Board {
    var ideas: seq<Idea>
    var activeId: Option<IdeaId>

    constructor ()
      ensures ideas == [] && activeId.None?
    {
      ideas := [];
      activeId := None;
    }

    method DragStart(id: IdeaId)
      modifies this`activeId
      ensures activeId == Some(id)
    {
      activeId := Some(id);
    }

    /**
     * The drop handler: always clears the dragged id; a drop that moves sets the dragged idea's
     * status locally, from any status to any column, and returns the single-field store write
     * it issues. Any other drop changes nothing else.
     */
    method DragEnd(active: IdeaId, over: Option<string>) returns (write: Option<(IdeaId, string)>)
      modifies this
      ensures activeId.None?
      ensures write.Some? <==> DropMoves(active, over)
      ensures write.Some? ==> write.value == (active, over.value) && ideas == WithStatus(old(ideas), active, over.value)
      ensures write.None? ==> ideas == old(ideas)
    {
      activeId := None;
      write := None;
      if over.Some? && active != over.value {
        var newStatus := over.value;
        if IsColumn(newStatus) {
          ideas := WithStatus(ideas, active, newStatus);
          write := Some((active, newStatus));
        }
      }
    }
  }

  /**
   * The whole drop: the board handler, then the status write it returns, applied to the store.
   * Only the status field of that one idea changes; a missing document makes the write fail
   * after the board has already moved the card.
   */
  method DropCard(board: Board, store: Store.IdeaStore, active: IdeaId, over: Option<string>) returns (r: Option<Outcome>)
    modifies board, store`ideas
    ensures board.activeId.None?
    ensures r.Some? <==> DropMoves(active, over)
    ensures r.Some? ==> board.ideas == WithStatus(old(board.ideas), active, over.value)
    ensures r.None? ==> board.ideas == old(board.ideas) && store.ideas == old(store.ideas)
    ensures r.Some? ==> (r.value.Ok? <==> active in old(store.ideas))
    ensures r == Some(Ok) ==> store.ideas == old(store.ideas)[active := old(store.ideas[active]).(status := over.value)]
    ensures r.Some? && r.value.Err? ==> store.ideas == old(store.ideas)
  {
    var write := board.DragEnd(active, over);
    if write.None? {
      return None;
    }
    var outcome := store.SetStatus(write.value.0, write.value.1, None);
    r := Some(outcome);
  }
}
