/** Arbitration between the branches of a lineage: the scoreboard, the choice of the best
    candidate and the recommendation built on it. */
module Arbitration {
  import opened Wrappers
  import opened TaskModel
  import opened LineageGraph

  datatype Entry = Entry(
    id: TaskId,
    index: nat,
    status: Status,
    delivery: Option<Delivery>,
    gate: Option<Gate>,
    score: Option<int>)
  {
    predicate DeliveredCandidate() {
      status == Completed && delivery == Some(Delivered)
    }

    predicate AcceptedCandidate() {
      DeliveredCandidate() && gate == Some(Accepted)
    }

    predicate Incomplete() {
      status == Queued || status == Revising || status == Running
    }

    /** A missing score counts as zero. */
    function Value(): int {
      if score.Some? then score.value else 0
    }
  }

  datatype Action = PromoteChallenger | KeepIncumbent | WaitForCompletion

  datatype Reason =
    | NoDeliveredCandidate
    | IncumbentHasBestAcceptedScore
    | ChallengerHasBestAcceptedScore
    | ActiveBranchStillRunning
    | IncumbentIsOnlyDelivered
    | DeliveredPendingAcceptance

  datatype Summary = Summary(recommended: Option<TaskId>, action: Action, reason: Reason)

  // -------------------------------------------------------------------------- scoreboard

  function EntryOf(task: Task, index: nat, scores: map<TaskId, int>): Entry {
    Entry(task.id, index, task.status, task.delivery, task.gate, if task.id in scores then Some(scores[task.id]) else None)
  }

  /** One entry per listed task, numbered by its lineage position. */
  function Scoreboard(ids: seq<TaskId>, rows: Rows, scores: map<TaskId, int>): (board: seq<Entry>)
    requires forall i :: 0 <= i < |ids| ==> ids[i] in rows
    ensures |board| == |ids|
    ensures forall i :: 0 <= i < |ids| ==> board[i] == EntryOf(rows[ids[i]], i, scores)
  {
    seq(|ids|, i requires 0 <= i < |ids| => EntryOf(rows[ids[i]], i, scores))
  }

  method BuildBranchScoreboard(ids: seq<TaskId>, rows: Rows, scores: map<TaskId, int>) returns (board: seq<Entry>)
    requires forall i :: 0 <= i < |ids| ==> ids[i] in rows
    ensures board == Scoreboard(ids, rows, scores)
  {
    board := [];
    for index := 0 to |ids|
      invariant board == Scoreboard(ids, rows, scores)[..index]
    {
      board := board + [EntryOf(rows[ids[index]], index, scores)];
    }
  }

  ghost predicate WellNumbered(board: seq<Entry>) {
    forall i, j :: 0 <= i < j < |board| ==> board[i].id != board[j].id && board[i].index != board[j].index
  }

  // ---------------------------------------------------------------------- best candidate

  /** The comparison key: score descending, then the incumbent, then the lineage position. */
  predicate Ahead(a: Entry, b: Entry, incumbent: Option<TaskId>) {
    || a.Value() > b.Value()
    || (a.Value() == b.Value()
        && (|| (Some(a.id) == incumbent && Some(b.id) != incumbent)
            || ((Some(a.id) == incumbent <==> Some(b.id) == incumbent) && a.index < b.index)))
  }

  /** Python's `min` under that key: the first entry no other is ahead of. */
  function SelectBest(items: seq<Entry>, incumbent: Option<TaskId>): (best: Entry)
    requires items != []
    ensures best in items
    ensures forall e :: e in items ==> !Ahead(e, best, incumbent)
  {
    if |items| == 1 then items[0]
    else
      var best := SelectBest(items[..|items| - 1], incumbent);
      var last := items[|items| - 1];
      assert forall e :: e in items ==> e in items[..|items| - 1] || e == last;
      if Ahead(last, best, incumbent) then last else best
  }

  function Keep(board: seq<Entry>, p: Entry -> bool): (kept: seq<Entry>)
    ensures forall e :: e in kept <==> e in board && p(e)
  {
    if board == [] then []
    else (if p(board[0]) then [board[0]] else []) + Keep(board[1..], p)
  }

  function Eligible(board: seq<Entry>): (kept: seq<Entry>)
    ensures forall e :: e in kept <==> e in board && e.DeliveredCandidate()
  {
    Keep(board, (e: Entry) => e.DeliveredCandidate())
  }

  function AcceptedOnes(board: seq<Entry>): (kept: seq<Entry>)
    ensures forall e :: e in kept <==> e in board && e.AcceptedCandidate()
  {
    Keep(Eligible(board), (e: Entry) => e.gate == Some(Accepted))
  }

  function FindEntry(board: seq<Entry>, id: Option<TaskId>): (found: Option<Entry>)
    ensures found.Some? ==> found.value in board && Some(found.value.id) == id
    ensures found.None? ==> id.None? || forall e :: e in board ==> e.id != id.value
  {
    if id.None? || board == [] then None
    else if board[0].id == id.value then Some(board[0])
    else FindEntry(board[1..], id)
  }

  function Incumbent(board: seq<Entry>, selected: Option<TaskId>): Option<TaskId> {
    if selected.None? && board != [] then Some(board[0].id) else selected
  }

  predicate ActiveIncomplete(board: seq<Entry>, active: Option<TaskId>) {
    var entry := FindEntry(board, active);
    entry.Some? && entry.value.Incomplete()
  }

  function Arbitrate(board: seq<Entry>, selected: Option<TaskId>, active: Option<TaskId>): Summary {
    var incumbent := Incumbent(board, selected);
    var accepted := AcceptedOnes(board);
    var incumbentEntry := FindEntry(board, incumbent);
    if accepted != [] then
      var best := Some(SelectBest(accepted, incumbent).id);
      if best == incumbent then Summary(best, KeepIncumbent, IncumbentHasBestAcceptedScore)
      else Summary(best, PromoteChallenger, ChallengerHasBestAcceptedScore)
    else if ActiveIncomplete(board, active) then Summary(incumbent, WaitForCompletion, ActiveBranchStillRunning)
    else if incumbentEntry.Some? && incumbentEntry.value.DeliveredCandidate() then
      Summary(Some(incumbentEntry.value.id), KeepIncumbent, IncumbentIsOnlyDelivered)
    else if Eligible(board) != [] then
      Summary(Some(SelectBest(Eligible(board), incumbent).id), WaitForCompletion, DeliveredPendingAcceptance)
    else Summary(incumbent, WaitForCompletion, NoDeliveredCandidate)
  }

  method BuildArbitrationSummary(board: seq<Entry>, selected: Option<TaskId>, active: Option<TaskId>)
    returns (summary: Summary)
    ensures summary == Arbitrate(board, selected, active)
  {
    var incumbent := selected;
    if incumbent.None? && board != [] {
      incumbent := Some(board[0].id);
    }
    var eligible := Eligible(board);
    var accepted := AcceptedOnes(board);
    var incumbentEntry := FindEntry(board, incumbent);

    var recommended := incumbent;
    var action := WaitForCompletion;
    var reason := NoDeliveredCandidate;
    if accepted != [] {
      var best := SelectBest(accepted, incumbent);
      recommended := Some(best.id);
      if recommended == incumbent {
        action, reason := KeepIncumbent, IncumbentHasBestAcceptedScore;
      } else {
        action, reason := PromoteChallenger, ChallengerHasBestAcceptedScore;
      }
    } else if ActiveIncomplete(board, active) {
      action, reason := WaitForCompletion, ActiveBranchStillRunning;
    } else if incumbentEntry.Some? && incumbentEntry.value.DeliveredCandidate() {
      recommended, action, reason := Some(incumbentEntry.value.id), KeepIncumbent, IncumbentIsOnlyDelivered;
    } else if eligible != [] {
      var best := SelectBest(eligible, incumbent);
      recommended, action, reason := Some(best.id), WaitForCompletion, DeliveredPendingAcceptance;
    }
    summary := Summary(recommended, action, reason);
  }

  // -------------------------------------------------------------------------- properties

  /** The choice is the only entry that is ahead of all the others. */
  lemma BestIsUniqueMinimum(board: seq<Entry>, items: seq<Entry>, incumbent: Option<TaskId>, e: Entry)
    requires WellNumbered(board) && items != [] && forall x :: x in items ==> x in board
    requires e in items
    ensures e == SelectBest(items, incumbent) <==> forall x :: x in items && x != e ==> Ahead(e, x, incumbent)
  {
  }

  lemma ChoiceIgnoresOrder(board: seq<Entry>, items: seq<Entry>, items': seq<Entry>, incumbent: Option<TaskId>)
    requires WellNumbered(board)
    requires forall x :: x in items ==> x in board
    requires forall x :: x in items <==> x in items'
    ensures items == [] <==> items' == []
    ensures items != [] ==> SelectBest(items, incumbent) == SelectBest(items', incumbent)
  {
    assert items' != [] ==> items'[0] in items;
    if items != [] {
      assert items[0] in items';
      var best := SelectBest(items, incumbent);
      BestIsUniqueMinimum(board, items, incumbent, best);
      BestIsUniqueMinimum(board, items', incumbent, best);
    }
  }

  lemma FindIgnoresOrder(board: seq<Entry>, board': seq<Entry>, id: Option<TaskId>)
    requires WellNumbered(board) && forall x :: x in board <==> x in board'
    ensures FindEntry(board, id) == FindEntry(board', id)
  {
  }

  /** Once an incumbent is selected, the order in which the scoreboard is listed does not matter. */
  lemma ArbitrationIgnoresListOrder(board: seq<Entry>, board': seq<Entry>, selected: TaskId, active: Option<TaskId>)
    requires WellNumbered(board) && forall x :: x in board <==> x in board'
    ensures Arbitrate(board, Some(selected), active) == Arbitrate(board', Some(selected), active)
  {
    FindIgnoresOrder(board, board', Some(selected));
    FindIgnoresOrder(board, board', active);
    ChoiceIgnoresOrder(board, AcceptedOnes(board), AcceptedOnes(board'), Some(selected));
    ChoiceIgnoresOrder(board, Eligible(board), Eligible(board'), Some(selected));
  }

  lemma BestStaysBest(board: seq<Entry>, items: seq<Entry>, incumbent: Option<TaskId>)
    requires WellNumbered(board) && items != [] && forall x :: x in items ==> x in board
    ensures SelectBest(items, Some(SelectBest(items, incumbent).id)) == SelectBest(items, incumbent)
  {
  }

  /** No flapping: with the recommended task selected, the same scoreboard keeps it, exactly when
      some candidate is delivered and either one is accepted or the active branch is at rest. */
  lemma ArbitrationDoesNotFlap(board: seq<Entry>, selected: Option<TaskId>, active: Option<TaskId>)
    requires WellNumbered(board)
    ensures
      var first := Arbitrate(board, selected, active);
      var again := Arbitrate(board, first.recommended, active);
      && again.recommended == first.recommended
      && (again.action == KeepIncumbent <==>
          Eligible(board) != [] && (AcceptedOnes(board) != [] || !ActiveIncomplete(board, active)))
      && again.action != PromoteChallenger
  {
    var incumbent := Incumbent(board, selected);
    var accepted, eligible := AcceptedOnes(board), Eligible(board);
    if accepted != [] {
      assert accepted[0] in eligible;
      BestStaysBest(board, accepted, incumbent);
    } else if eligible != [] && !ActiveIncomplete(board, active) {
      var best := SelectBest(eligible, incumbent);
      var found := FindEntry(board, Some(best.id));
      assert found.Some? && found.value in board && best in board;
      assert found.value == best;
    } else {
      var entry := FindEntry(board, incumbent);
      assert entry.Some? && entry.value.DeliveredCandidate() ==> entry.value in eligible;
    }
  }

  /** What a promotion means: the recommended task is accepted, no accepted candidate scores higher,
      and an accepted incumbent scores strictly lower. */
  lemma PromotionOutscores(board: seq<Entry>, selected: Option<TaskId>, active: Option<TaskId>, winner: Entry, e: Entry)
    requires WellNumbered(board)
    requires Arbitrate(board, selected, active).action == PromoteChallenger
    requires winner in board && Arbitrate(board, selected, active).recommended == Some(winner.id)
    requires e in board && e.AcceptedCandidate()
    ensures winner.AcceptedCandidate()
    ensures winner.Value() >= e.Value()
    ensures Some(e.id) == Incumbent(board, selected) ==> winner.Value() > e.Value()
  {
  }

  // ------------------------------------------------- the decision, told over the entries alone

  ghost predicate Shipped(e: Entry) {
    e.status == Completed && e.delivery == Some(Delivered)
  }

  ghost predicate Approved(e: Entry) {
    Shipped(e) && e.gate == Some(Accepted)
  }

  ghost function Points(e: Entry): int {
    match e.score
    case Some(points) => points
    case None => 0
  }

  /** More points; with equal points the incumbent, else the earlier position. */
  ghost predicate Outranks(a: Entry, b: Entry, incumbent: Option<TaskId>) {
    || Points(a) > Points(b)
    || (Points(a) == Points(b) && b.id != a.id && incumbent == Some(a.id))
    || (Points(a) == Points(b) && incumbent != Some(b.id) && a.index < b.index)
  }

  ghost predicate TopApproved(board: seq<Entry>, w: Entry, incumbent: Option<TaskId>) {
    w in board && Approved(w) && forall x :: x in board && x != w && Approved(x) ==> Outranks(w, x, incumbent)
  }

  ghost predicate TopShipped(board: seq<Entry>, w: Entry, incumbent: Option<TaskId>) {
    w in board && Shipped(w) && forall x :: x in board && x != w && Shipped(x) ==> Outranks(w, x, incumbent)
  }

  ghost predicate Busy(board: seq<Entry>, active: Option<TaskId>) {
    exists e :: e in board && active == Some(e.id) && e.status in {Queued, Revising, Running}
  }

  ghost predicate AnyApproved(board: seq<Entry>) {
    exists e :: e in board && Approved(e)
  }

  ghost predicate AnyShipped(board: seq<Entry>) {
    exists e :: e in board && Shipped(e)
  }

  ghost predicate ShippedId(board: seq<Entry>, id: Option<TaskId>) {
    exists e :: e in board && id == Some(e.id) && Shipped(e)
  }

  /** The recommendation names an entry of the board, and exactly the top approved one. */
  ghost predicate NamesTopApproved(board: seq<Entry>, incumbent: Option<TaskId>, recommended: Option<TaskId>) {
    && (exists w :: w in board && recommended == Some(w.id))
    && (forall w :: w in board ==> (recommended == Some(w.id) <==> TopApproved(board, w, incumbent)))
  }

  ghost predicate NamesTopShipped(board: seq<Entry>, incumbent: Option<TaskId>, recommended: Option<TaskId>) {
    && (exists w :: w in board && recommended == Some(w.id))
    && (forall w :: w in board ==> (recommended == Some(w.id) <==> TopShipped(board, w, incumbent)))
  }

  ghost predicate Decides(board: seq<Entry>, selected: Option<TaskId>, active: Option<TaskId>, d: Summary) {
    var incumbent := if selected.Some? then selected else if |board| > 0 then Some(board[0].id) else None;
    if AnyApproved(board) then
      && NamesTopApproved(board, incumbent, d.recommended)
      && (d.recommended == incumbent ==> d.action == KeepIncumbent && d.reason == IncumbentHasBestAcceptedScore)
      && (d.recommended != incumbent ==> d.action == PromoteChallenger && d.reason == ChallengerHasBestAcceptedScore)
    else if Busy(board, active) then d == Summary(incumbent, WaitForCompletion, ActiveBranchStillRunning)
    else if ShippedId(board, incumbent) then d == Summary(incumbent, KeepIncumbent, IncumbentIsOnlyDelivered)
    else if AnyShipped(board) then
      && NamesTopShipped(board, incumbent, d.recommended)
      && d.action == WaitForCompletion && d.reason == DeliveredPendingAcceptance
    else d == Summary(incumbent, WaitForCompletion, NoDeliveredCandidate)
  }

  lemma AheadOutranks(a: Entry, b: Entry, incumbent: Option<TaskId>)
    requires a.id != b.id
    ensures Ahead(a, b, incumbent) <==> Outranks(a, b, incumbent)
  {
  }

  /** The selected item is the only one at the top. */
  lemma SelectedIsTop(board: seq<Entry>, items: seq<Entry>, incumbent: Option<TaskId>, w: Entry)
    requires WellNumbered(board) && items != [] && (forall x :: x in items ==> x in board) && w in items
    ensures SelectBest(items, incumbent).id == w.id <==> forall x :: x in items && x != w ==> Outranks(w, x, incumbent)
  {
    BestIsUniqueMinimum(board, items, incumbent, w);
    var best := SelectBest(items, incumbent);
    assert best in board && w in board;
    assert best.id == w.id ==> best == w;
    forall x | x in items && x != w ensures Ahead(w, x, incumbent) <==> Outranks(w, x, incumbent) {
      assert x in board;
      AheadOutranks(w, x, incumbent);
    }
    hide Ahead, Outranks, SelectBest;
  }

  lemma FoundByIdentifier(board: seq<Entry>, id: Option<TaskId>)
    requires WellNumbered(board)
    ensures FindEntry(board, id).Some? <==> exists e :: e in board && id == Some(e.id)
    ensures forall e :: e in board && id == Some(e.id) ==> FindEntry(board, id) == Some(e)
  {
  }

  lemma ListsApproved(board: seq<Entry>, e: Entry)
    ensures e in AcceptedOnes(board) <==> e in board && Approved(e)
    ensures e in Eligible(board) <==> e in board && Shipped(e)
  {
  }

  lemma ApprovedTop(board: seq<Entry>, incumbent: Option<TaskId>)
    requires WellNumbered(board)
    ensures AcceptedOnes(board) != [] <==> AnyApproved(board)
    ensures AcceptedOnes(board) != [] ==>
              var best := SelectBest(AcceptedOnes(board), incumbent);
              NamesTopApproved(board, incumbent, Some(best.id))
  {
    hide SelectBest, Outranks, AcceptedOnes, Approved, Ahead, WellNumbered;
    var items := AcceptedOnes(board);
    forall e ensures e in items <==> e in board && Approved(e) {
      ListsApproved(board, e);
    }
    if items != [] {
      assert items[0] in items;
      var best := SelectBest(items, incumbent);
      assert best in items && best in board;
      forall w | w in board ensures best.id == w.id <==> TopApproved(board, w, incumbent) {
        if w in items {
          SelectedIsTop(board, items, incumbent, w);
        } else {
          assert best.id != w.id by { NumbersDiffer(board, best, w); }
        }
      }
    }
  }

  lemma NumbersDiffer(board: seq<Entry>, a: Entry, b: Entry)
    requires WellNumbered(board) && a in board && b in board && a != b
    ensures a.id != b.id
  {
  }

  lemma ShippedTop(board: seq<Entry>, incumbent: Option<TaskId>)
    requires WellNumbered(board)
    ensures Eligible(board) != [] <==> AnyShipped(board)
    ensures Eligible(board) != [] ==>
              var best := SelectBest(Eligible(board), incumbent);
              NamesTopShipped(board, incumbent, Some(best.id))
  {
    hide SelectBest, Outranks, Eligible, Shipped, Ahead, WellNumbered;
    var items := Eligible(board);
    forall e ensures e in items <==> e in board && Shipped(e) {
      ListsApproved(board, e);
    }
    if items != [] {
      assert items[0] in items;
      var best := SelectBest(items, incumbent);
      assert best in items && best in board;
      forall w | w in board ensures best.id == w.id <==> TopShipped(board, w, incumbent) {
        if w in items {
          SelectedIsTop(board, items, incumbent, w);
        } else {
          assert best.id != w.id by { NumbersDiffer(board, best, w); }
        }
      }
    }
  }

  /** The decision, given what the searches find. */
  ghost function Decision(best: Option<TaskId>, busy: bool, kept: bool, shipped: Option<TaskId>, incumbent: Option<TaskId>): Summary {
    if best.Some? then
      if best == incumbent then Summary(best, KeepIncumbent, IncumbentHasBestAcceptedScore)
      else Summary(best, PromoteChallenger, ChallengerHasBestAcceptedScore)
    else if busy then Summary(incumbent, WaitForCompletion, ActiveBranchStillRunning)
    else if kept then Summary(incumbent, KeepIncumbent, IncumbentIsOnlyDelivered)
    else if shipped.Some? then Summary(shipped, WaitForCompletion, DeliveredPendingAcceptance)
    else Summary(incumbent, WaitForCompletion, NoDeliveredCandidate)
  }

  lemma ArbitrateIsDecision(board: seq<Entry>, selected: Option<TaskId>, active: Option<TaskId>)
    requires WellNumbered(board)
    ensures
      var incumbent := if selected.Some? then selected else if |board| > 0 then Some(board[0].id) else None;
      var accepted, eligible := AcceptedOnes(board), Eligible(board);
      Arbitrate(board, selected, active) ==
      Decision(if accepted != [] then Some(SelectBest(accepted, incumbent).id) else None, Busy(board, active),
               ShippedId(board, incumbent), if eligible != [] then Some(SelectBest(eligible, incumbent).id) else None, incumbent)
  {
    var incumbent := if selected.Some? then selected else if |board| > 0 then Some(board[0].id) else None;
    BusyIsFound(board, active);
    ShippedIsFound(board, incumbent);
    hide SelectBest, AcceptedOnes, Eligible, WellNumbered, Busy, ActiveIncomplete, ShippedId;
  }

  /** Arbitration decides by the entries alone: the top approved one if there is any, promoted unless it is the
      incumbent; otherwise it waits for a busy branch, keeps a shipped incumbent, or names the top shipped entry. */
  lemma ArbitrationDecides(board: seq<Entry>, selected: Option<TaskId>, active: Option<TaskId>)
    requires WellNumbered(board)
    ensures Decides(board, selected, active, Arbitrate(board, selected, active))
  {
    hide SelectBest, AcceptedOnes, Eligible, FindEntry, WellNumbered, NamesTopApproved, NamesTopShipped, AnyApproved, AnyShipped,
      ShippedId, Busy, ActiveIncomplete, Arbitrate;
    var incumbent := if selected.Some? then selected else if |board| > 0 then Some(board[0].id) else None;
    ArbitrateIsDecision(board, selected, active);
    ApprovedTop(board, incumbent);
    ShippedTop(board, incumbent);
  }

  lemma BusyIsFound(board: seq<Entry>, active: Option<TaskId>)
    requires WellNumbered(board)
    ensures ActiveIncomplete(board, active) <==> Busy(board, active)
  {
    FoundByIdentifier(board, active);
  }

  lemma ShippedIsFound(board: seq<Entry>, incumbent: Option<TaskId>)
    requires WellNumbered(board)
    ensures
      var entry := FindEntry(board, incumbent);
      && (entry.Some? && entry.value.DeliveredCandidate() <==> ShippedId(board, incumbent))
      && (entry.Some? ==> Some(entry.value.id) == incumbent)
  {
    FoundByIdentifier(board, incumbent);
  }
}
