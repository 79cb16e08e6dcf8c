/** Positions of the appearances in a meeting's agenda sections
    (backend/src/meetings/meetings.service.ts, agenda changes). */
module AgendaPositions {

  type Id = nat

  datatype Source = Manual | Recurrence

  datatype Appearance = Appearance(
    meetingId: Id, topicId: Id, sectionId: Id, position: int, source: Source, contentEdited: bool)

  /** The meeting_topics table by row id. */
  type Rows = map<Id, Appearance>

  datatype OrderItem = OrderItem(id: Id, sectionId: Id, position: int)

  function SectionIds(rows: Rows, meetingId: Id, sectionId: Id): set<Id> {
    set id | id in rows && rows[id].meetingId == meetingId && rows[id].sectionId == sectionId
  }

  function MeetingIds(rows: Rows, meetingId: Id): set<Id> {
    set id | id in rows && rows[id].meetingId == meetingId
  }

  // ---------- dense sections ----------

  /** Positions within 1..n without repetition. */
  ghost predicate DenseOn(rows: Rows, ids: set<Id>)
    requires ids <= rows.Keys
  {
    && (forall id | id in ids :: 1 <= rows[id].position <= |ids|)
    && (forall left, right | left in ids && right in ids && left != right ::
          rows[left].position != rows[right].position)
  }

  ghost predicate DenseSection(rows: Rows, meetingId: Id, sectionId: Id) {
    DenseOn(rows, SectionIds(rows, meetingId, sectionId))
  }

  ghost predicate Dense(rows: Rows) {
    forall meetingId, sectionId :: DenseSection(rows, meetingId, sectionId)
  }

  /** Two tables put the given rows in the same order. */
  ghost predicate SameOrder(before: Rows, after: Rows, ids: set<Id>)
    requires ids <= before.Keys && ids <= after.Keys
  {
    forall left, right | left in ids && right in ids ::
      before[left].position < before[right].position <==> after[left].position < after[right].position
  }

  /** Apart from the moved rows, every section keeps its rows in their order. */
  ghost predicate KeepsOrder(before: Rows, after: Rows, moved: set<Id>) {
    forall m, s ::
      && SectionIds(before, m, s) - moved <= SectionIds(after, m, s)
      && SameOrder(before, after, SectionIds(before, m, s) - moved)
  }

  function UpTo(n: nat): (numbers: set<int>)
    ensures |numbers| == n && forall k :: k in numbers <==> 1 <= k <= n
  {
    if n == 0 then {} else UpTo(n - 1) + {n}
  }

  lemma SmallerSet<T>(small: set<T>, large: set<T>)
    requires small <= large
    ensures |small| <= |large|
    ensures small != large ==> |small| < |large|
  {
    assert large == small + (large - small);
  }

  function PositionsOf(rows: Rows, ids: set<Id>): set<int>
    requires ids <= rows.Keys
  {
    set id | id in ids :: rows[id].position
  }

  lemma {:induction false} PositionsCount(rows: Rows, ids: set<Id>)
    requires ids <= rows.Keys
    requires forall left, right | left in ids && right in ids && left != right ::
               rows[left].position != rows[right].position
    ensures |PositionsOf(rows, ids)| == |ids|
  {
    if ids != {} {
      var id :| id in ids;
      PositionsCount(rows, ids - {id});
      assert PositionsOf(rows, ids) == PositionsOf(rows, ids - {id}) + {rows[id].position};
    }
  }

  /** A dense section of n items uses exactly the positions 1..n. */
  lemma DenseUsesEveryPosition(rows: Rows, meetingId: Id, sectionId: Id)
    requires DenseSection(rows, meetingId, sectionId)
    ensures var ids := SectionIds(rows, meetingId, sectionId); PositionsOf(rows, ids) == UpTo(|ids|)
  {
    var ids := SectionIds(rows, meetingId, sectionId);
    PositionsCount(rows, ids);
    assert PositionsOf(rows, ids) <= UpTo(|ids|);
    SmallerSet(PositionsOf(rows, ids), UpTo(|ids|));
  }

  // ---------- removal and renumbering ----------

  /** Order of the query that renumbers a section: by position, then by id. */
  predicate Precedes(rows: Rows, left: Id, right: Id)
    requires left in rows && right in rows
  {
    rows[left].position < rows[right].position
    || (rows[left].position == rows[right].position && left < right)
  }

  function Preceding(rows: Rows, ids: set<Id>, id: Id): set<Id>
    requires ids <= rows.Keys && id in rows
  {
    set other | other in ids && Precedes(rows, other, id)
  }

  /** One-based place of a row in its ordered section. */
  function Rank(rows: Rows, ids: set<Id>, id: Id): nat
    requires ids <= rows.Keys && id in rows
  {
    1 + |Preceding(rows, ids, id)|
  }

  function Renumbered(rows: Rows, meetingId: Id, sectionId: Id): Rows {
    var ids := SectionIds(rows, meetingId, sectionId);
    map id | id in rows :: if id in ids then rows[id].(position := Rank(rows, ids, id)) else rows[id]
  }

  function Deleted(rows: Rows, id: Id): Rows
    requires id in rows
  {
    Renumbered(rows - {id}, rows[id].meetingId, rows[id].sectionId)
  }

  lemma RankRespectsOrder(rows: Rows, ids: set<Id>, left: Id, right: Id)
    requires ids <= rows.Keys && left in ids && right in ids
    ensures 1 <= Rank(rows, ids, left) <= |ids|
    ensures Rank(rows, ids, left) < Rank(rows, ids, right) <==> Precedes(rows, left, right)
    ensures Rank(rows, ids, left) == Rank(rows, ids, right) <==> left == right
  {
    SmallerSet(Preceding(rows, ids, left), ids - {left});
    if Precedes(rows, left, right) {
      RankGrows(rows, ids, left, right);
    } else if Precedes(rows, right, left) {
      RankGrows(rows, ids, right, left);
    }
  }

  lemma RankGrows(rows: Rows, ids: set<Id>, left: Id, right: Id)
    requires ids <= rows.Keys && left in ids && right in ids && Precedes(rows, left, right)
    ensures Rank(rows, ids, left) < Rank(rows, ids, right)
  {
    assert left in Preceding(rows, ids, right) && left !in Preceding(rows, ids, left);
    SmallerSet(Preceding(rows, ids, left), Preceding(rows, ids, right));
  }

  /** Sections whose rows did not change stay as they are. */
  lemma UntouchedSection(before: Rows, after: Rows, meetingId: Id, sectionId: Id)
    requires SectionIds(before, meetingId, sectionId) == SectionIds(after, meetingId, sectionId)
    requires forall id | id in SectionIds(before, meetingId, sectionId) :: before[id] == after[id]
    requires DenseSection(before, meetingId, sectionId)
    ensures DenseSection(after, meetingId, sectionId)
    ensures SameOrder(before, after, SectionIds(before, meetingId, sectionId))
  {
  }

  /** Ranks are dense positions in the order of the query. */
  lemma RanksAreDense(rows: Rows, ids: set<Id>, after: Rows)
    requires ids <= rows.Keys && ids <= after.Keys
    requires forall id | id in ids :: after[id].position == Rank(rows, ids, id)
    ensures DenseOn(after, ids)
    ensures forall left, right | left in ids && right in ids ::
              after[left].position < after[right].position <==> Precedes(rows, left, right)
  {
    forall id | id in ids ensures 1 <= after[id].position <= |ids| {
      RankRespectsOrder(rows, ids, id, id);
    }
    forall left, right | left in ids && right in ids
      ensures after[left].position < after[right].position <==> Precedes(rows, left, right)
      ensures after[left].position == after[right].position <==> left == right
    {
      RankRespectsOrder(rows, ids, left, right);
    }
  }

  /** Where positions do not repeat, the order of the query is the order of the positions. */
  lemma QueryOrderIsPositionOrder(rows: Rows, rest: Rows, ids: set<Id>, after: Rows)
    requires ids <= rest.Keys && ids <= after.Keys && forall id | id in rest :: id in rows && rest[id] == rows[id]
    requires forall left, right | left in ids && right in ids && left != right ::
               rows[left].position != rows[right].position
    requires forall left, right | left in ids && right in ids ::
               after[left].position < after[right].position <==> Precedes(rest, left, right)
    ensures SameOrder(rows, after, ids)
  {
    forall left, right | left in ids && right in ids
      ensures rows[left].position < rows[right].position <==> after[left].position < after[right].position
    {
      assert after[left].position < after[right].position <==> Precedes(rest, left, right);
    }
  }

  /** Renumbering makes a section dense, whatever its positions were, and keeps its order. */
  lemma RenumberedIsDense(rows: Rows, meetingId: Id, sectionId: Id, ids: set<Id>, after: Rows)
    requires ids == SectionIds(rows, meetingId, sectionId) && after == Renumbered(rows, meetingId, sectionId)
    ensures SectionIds(after, meetingId, sectionId) == ids && DenseOn(after, ids)
    ensures forall left, right | left in ids && right in ids ::
              after[left].position < after[right].position <==> Precedes(rows, left, right)
  {
    RanksAreDense(rows, ids, after);
  }

  lemma DeletedRows(rows: Rows, id: Id, after: Rows)
    requires id in rows && after == Deleted(rows, id)
    ensures after.Keys == rows.Keys - {id}
    ensures forall other | other in after :: after[other] == rows[other].(position := after[other].position)
    ensures forall other | other in after
              && (rows[other].meetingId != rows[id].meetingId || rows[other].sectionId != rows[id].sectionId) ::
              after[other] == rows[other]
  {
  }

  lemma DeletedSection(rows: Rows, id: Id, after: Rows, meetingId: Id, sectionId: Id)
    requires DenseSection(rows, meetingId, sectionId) && id in rows && after == Deleted(rows, id)
    ensures DenseSection(after, meetingId, sectionId)
    ensures SectionIds(rows, meetingId, sectionId) - {id} <= SectionIds(after, meetingId, sectionId)
    ensures SameOrder(rows, after, SectionIds(rows, meetingId, sectionId) - {id})
  {
    DeletedRows(rows, id, after);
    if rows[id].meetingId == meetingId && rows[id].sectionId == sectionId {
      var rest := rows - {id};
      var ids := SectionIds(rest, meetingId, sectionId);
      assert ids == SectionIds(rows, meetingId, sectionId) - {id};
      RenumberedIsDense(rest, meetingId, sectionId, ids, after);
      QueryOrderIsPositionOrder(rows, rest, ids, after);
    } else {
      assert SectionIds(rows, meetingId, sectionId) == SectionIds(after, meetingId, sectionId);
    }
  }

  /** Removing an appearance keeps every section dense and the others in their order. */
  lemma DeletedKeepsDense(rows: Rows, id: Id, after: Rows)
    requires Dense(rows) && id in rows && after == Deleted(rows, id)
    ensures Dense(after) && KeepsOrder(rows, after, {id})
  {
    forall m, s
      ensures DenseSection(after, m, s) && SectionIds(rows, m, s) - {id} <= SectionIds(after, m, s)
              && SameOrder(rows, after, SectionIds(rows, m, s) - {id})
    {
      assert DenseSection(rows, m, s);
      DeletedSection(rows, id, after, m, s);
    }
  }

  /** Renumbering a dense section changes nothing. */
  lemma DenseRankIsPosition(rows: Rows, ids: set<Id>, id: Id)
    requires ids <= rows.Keys && DenseOn(rows, ids) && id in ids && PositionsOf(rows, ids) == UpTo(|ids|)
    ensures Rank(rows, ids, id) == rows[id].position
  {
    var below := Preceding(rows, ids, id);
    forall position | 1 <= position < rows[id].position ensures position in PositionsOf(rows, below) {
      assert position in PositionsOf(rows, ids);
    }
    assert PositionsOf(rows, below) == UpTo(rows[id].position - 1);
    PositionsCount(rows, below);
  }

  /** The rows of a section as the ordered query returns them. */
  ghost predicate InQueryOrder(rows: Rows, ids: set<Id>, items: seq<Id>)
    requires ids <= rows.Keys
  {
    && (forall id :: id in items <==> id in ids)
    && (forall i, j | 0 <= i < j < |items| :: items[i] in ids && items[j] in ids && Precedes(rows, items[i], items[j]))
  }

  function Elements(items: seq<Id>): set<Id> {
    set i | 0 <= i < |items| :: items[i]
  }

  lemma {:induction false} ElementsCount(items: seq<Id>)
    requires forall i, j | 0 <= i < j < |items| :: items[i] != items[j]
    ensures |Elements(items)| == |items|
  {
    if items != [] {
      var last := |items| - 1;
      ElementsCount(items[..last]);
      assert Elements(items) == Elements(items[..last]) + {items[last]};
    }
  }

  /** The k-th row of the query has rank k + 1. */
  lemma QueryRank(rows: Rows, ids: set<Id>, items: seq<Id>, k: nat)
    requires ids <= rows.Keys && InQueryOrder(rows, ids, items) && k < |items|
    ensures items[k] in ids && Rank(rows, ids, items[k]) == k + 1
  {
    assert items[k] in items;
    forall id | id in Preceding(rows, ids, items[k]) ensures id in Elements(items[..k]) {
      var j :| 0 <= j < |items| && items[j] == id;
    }
    assert Preceding(rows, ids, items[k]) == Elements(items[..k]);
    ElementsCount(items[..k]);
  }

  // ---------- insertion ----------

  function Shifted(rows: Rows, meetingId: Id, sectionId: Id, position: int): Rows {
    map id | id in rows ::
      if rows[id].meetingId == meetingId && rows[id].sectionId == sectionId && rows[id].position >= position
      then rows[id].(position := rows[id].position + 1) else rows[id]
  }

  function Inserted(rows: Rows, id: Id, appearance: Appearance): Rows {
    Shifted(rows, appearance.meetingId, appearance.sectionId, appearance.position)[id := appearance]
  }

  lemma InsertedRows(rows: Rows, id: Id, appearance: Appearance, after: Rows)
    requires id !in rows && after == Inserted(rows, id, appearance)
    ensures after.Keys == rows.Keys + {id} && after[id] == appearance
    ensures forall other | other in rows :: after[other] == rows[other].(position := after[other].position)
    ensures forall other | other in rows ::
              after[other].position == if other in SectionIds(rows, appearance.meetingId, appearance.sectionId)
                                          && rows[other].position >= appearance.position
                                       then rows[other].position + 1 else rows[other].position
  {
  }

  lemma ShiftIsDense(rows: Rows, ids: set<Id>, after: Rows, id: Id, position: int)
    requires ids <= rows.Keys && id !in ids && ids + {id} <= after.Keys
    requires DenseOn(rows, ids) && 1 <= position <= |ids| + 1 && after[id].position == position
    requires forall other | other in ids ::
               after[other].position ==
                   if rows[other].position >= position then rows[other].position + 1 else rows[other].position
    ensures DenseOn(after, ids + {id}) && SameOrder(rows, after, ids)
  {
    assert |ids + {id}| == |ids| + 1;
  }

  lemma InsertedSection(rows: Rows, id: Id, appearance: Appearance, after: Rows, meetingId: Id, sectionId: Id)
    requires DenseSection(rows, meetingId, sectionId) && id !in rows && after == Inserted(rows, id, appearance)
    requires 1 <= appearance.position <= |SectionIds(rows, appearance.meetingId, appearance.sectionId)| + 1
    ensures DenseSection(after, meetingId, sectionId)
    ensures SectionIds(rows, meetingId, sectionId) <= SectionIds(after, meetingId, sectionId)
    ensures SameOrder(rows, after, SectionIds(rows, meetingId, sectionId))
  {
    InsertedRows(rows, id, appearance, after);
    InsertedIds(rows, id, appearance, after, meetingId, sectionId);
    if meetingId == appearance.meetingId && sectionId == appearance.sectionId {
      ShiftIsDense(rows, SectionIds(rows, meetingId, sectionId), after, id, appearance.position);
    } else {
      UntouchedSection(rows, after, meetingId, sectionId);
    }
  }

  lemma InsertedIds(rows: Rows, id: Id, appearance: Appearance, after: Rows, meetingId: Id, sectionId: Id)
    requires id !in rows && after == Inserted(rows, id, appearance)
    ensures SectionIds(rows, meetingId, sectionId) <= after.Keys
    ensures SectionIds(after, meetingId, sectionId) ==
            SectionIds(rows, meetingId, sectionId)
            + (if meetingId == appearance.meetingId && sectionId == appearance.sectionId then {id} else {})
  {
    InsertedRows(rows, id, appearance, after);
  }

  /** Inserting at a position within 1..n+1 keeps every section dense and the others in their order. */
  lemma InsertedKeepsDense(rows: Rows, id: Id, appearance: Appearance, after: Rows)
    requires Dense(rows) && id !in rows && after == Inserted(rows, id, appearance)
    requires 1 <= appearance.position <= |SectionIds(rows, appearance.meetingId, appearance.sectionId)| + 1
    ensures Dense(after) && KeepsOrder(rows, after, {})
  {
    forall m, s
      ensures DenseSection(after, m, s)
      ensures SectionIds(rows, m, s) - {} <= SectionIds(after, m, s)
      ensures SameOrder(rows, after, SectionIds(rows, m, s) - {})
    {
      assert SectionIds(rows, m, s) - {} == SectionIds(rows, m, s);
      assert DenseSection(rows, m, s);
      InsertedSection(rows, id, appearance, after, m, s);
    }
  }

  /** Deleting one row and inserting another keeps the order of all others. */
  lemma KeepsOrderCompose(rows: Rows, id: Id, middle: Rows, after: Rows)
    requires KeepsOrder(rows, middle, {id}) && KeepsOrder(middle, after, {})
    ensures KeepsOrder(rows, after, {id})
  {
    forall m, s
      ensures SectionIds(rows, m, s) - {id} <= SectionIds(after, m, s)
      ensures SameOrder(rows, after, SectionIds(rows, m, s) - {id})
    {
      assert SectionIds(middle, m, s) - {} == SectionIds(middle, m, s);
      SameOrderCompose(rows, middle, after, SectionIds(rows, m, s) - {id}, SectionIds(middle, m, s));
    }
  }

  lemma SameOrderCompose(before: Rows, middle: Rows, after: Rows, ids: set<Id>, more: set<Id>)
    requires ids <= more && ids <= before.Keys && more <= middle.Keys && more <= after.Keys
    requires SameOrder(before, middle, ids) && SameOrder(middle, after, more)
    ensures SameOrder(before, after, ids)
  {
  }

  // ---------- reordering a whole agenda ----------

  function ItemIds(items: seq<OrderItem>): set<Id> {
    set i | 0 <= i < |items| :: items[i].id
  }

  /** The requested positions of one section, in the order of the request. */
  function RequestedPositions(items: seq<OrderItem>, sectionId: Id): seq<int> {
    if items == [] then []
    else (if items[0].sectionId == sectionId then [items[0].position] else [])
         + RequestedPositions(items[1..], sectionId)
  }

  function OneTo(n: nat): seq<int> {
    seq(n, i => i + 1)
  }

  /** Sorted, the positions are 1, 2, ..., n. */
  predicate Consecutive(positions: seq<int>) {
    multiset(positions) == multiset(OneTo(|positions|))
  }

  predicate UniqueItems(items: seq<OrderItem>) {
    forall i, j | 0 <= i < j < |items| :: items[i].id != items[j].id
  }

  predicate ValidOrder(rows: Rows, meetingId: Id, items: seq<OrderItem>) {
    && UniqueItems(items)
    && ItemIds(items) == MeetingIds(rows, meetingId)
    && forall i | 0 <= i < |items| :: Consecutive(RequestedPositions(items, items[i].sectionId))
  }

  /** Section and position of each row as requested; the other columns stay. */
  function Reordered(rows: Rows, items: seq<OrderItem>): Rows {
    if items == [] then rows
    else
      var item, rest := items[0], Reordered(rows, items[1..]);
      if item.id in rest then rest[item.id := rest[item.id].(sectionId := item.sectionId, position := item.position)]
      else rest
  }

  lemma {:induction false} ReorderedAt(rows: Rows, items: seq<OrderItem>, i: nat)
    requires UniqueItems(items) && i < |items| && items[i].id in rows
    ensures Reordered(rows, items).Keys == rows.Keys
    ensures Reordered(rows, items)[items[i].id] ==
            rows[items[i].id].(sectionId := items[i].sectionId, position := items[i].position)
  {
    ReorderedElsewhere(rows, items[1..]);
    if i > 0 {
      ReorderedAt(rows, items[1..], i - 1);
    } else {
      assert items[0].id !in ItemIds(items[1..]);
    }
  }

  lemma ReorderedElsewhere(rows: Rows, items: seq<OrderItem>)
    ensures Reordered(rows, items).Keys == rows.Keys
    ensures forall id | id in rows && id !in ItemIds(items) :: Reordered(rows, items)[id] == rows[id]
  {
    if items != [] {
      ReorderedElsewhere(rows, items[1..]);
      assert ItemIds(items) == ItemIds(items[1..]) + {items[0].id};
    }
  }

  /** Rows of the request that are put in one section. */
  function RequestedIds(items: seq<OrderItem>, sectionId: Id): (ids: set<Id>)
    ensures forall id :: id in ids <==>
              exists i :: 0 <= i < |items| && items[i].sectionId == sectionId && items[i].id == id
  {
    if items == [] then {}
    else
      var ids := RequestedIds(items[1..], sectionId) + (if items[0].sectionId == sectionId then {items[0].id} else {});
      assert forall i | 1 <= i < |items| :: items[i] == items[1..][i - 1];
      ids
  }

  lemma {:induction false} RequestedSection(items: seq<OrderItem>, sectionId: Id)
    requires UniqueItems(items)
    ensures |RequestedPositions(items, sectionId)| == |RequestedIds(items, sectionId)|
  {
    if items != [] {
      RequestedSection(items[1..], sectionId);
      assert forall i | 0 <= i < |items[1..]| :: items[1..][i].id == items[i + 1].id != items[0].id;
    }
  }

  /** Each requested row accounts for its own occurrence of its position. */
  lemma {:induction false} RequestedCount(items: seq<OrderItem>, sectionId: Id, i: nat, j: nat)
    requires i < j < |items| || i == j < |items|
    requires items[i].sectionId == items[j].sectionId == sectionId && items[i].position == items[j].position
    ensures multiset(RequestedPositions(items, sectionId))[items[i].position] >= if i == j then 1 else 2
  {
    if i > 0 {
      RequestedCount(items[1..], sectionId, i - 1, j - 1);
    } else if j > 0 {
      RequestedCount(items[1..], sectionId, j - 1, j - 1);
    }
  }

  lemma {:induction false} OneToCounts(n: nat)
    ensures forall k :: multiset(OneTo(n))[k] == if 1 <= k <= n then 1 else 0
  {
    if n > 0 {
      OneToCounts(n - 1);
      assert OneTo(n) == OneTo(n - 1) + [n];
    }
  }

  /** The table after a valid request, row by row. */
  lemma ReorderedRows(rows: Rows, meetingId: Id, items: seq<OrderItem>, after: Rows)
    requires ValidOrder(rows, meetingId, items) && after == Reordered(rows, items)
    ensures after.Keys == rows.Keys
    ensures forall id | id in rows :: after[id].meetingId == rows[id].meetingId
    ensures forall id | id in rows && rows[id].meetingId != meetingId :: after[id] == rows[id]
    ensures forall i | 0 <= i < |items| ::
              items[i].id in rows && rows[items[i].id].meetingId == meetingId
              && after[items[i].id] == rows[items[i].id].(sectionId := items[i].sectionId,
                                                          position := items[i].position)
  {
    ReorderedElsewhere(rows, items);
    forall i | 0 <= i < |items|
      ensures items[i].id in MeetingIds(rows, meetingId)
      ensures after[items[i].id] == rows[items[i].id].(sectionId := items[i].sectionId, position := items[i].position)
    {
      assert items[i].id in ItemIds(items);
      ReorderedAt(rows, items, i);
    }
    forall id | id in ItemIds(items) ensures after[id].meetingId == rows[id].meetingId {
      var i :| 0 <= i < |items| && items[i].id == id;
    }
  }

  lemma ReorderedSectionIsDense(rows: Rows, meetingId: Id, items: seq<OrderItem>, after: Rows, sectionId: Id)
    requires ValidOrder(rows, meetingId, items) && after == Reordered(rows, items)
    ensures DenseSection(after, meetingId, sectionId)
  {
    ReorderedRows(rows, meetingId, items, after);
    var ids := RequestedIds(items, sectionId);
    forall id | id in SectionIds(after, meetingId, sectionId) ensures id in ids {
      assert id in ItemIds(items);
    }
    assert SectionIds(after, meetingId, sectionId) == ids;
    RequestedSection(items, sectionId);
    forall i, j | 0 <= i < |items| && 0 <= j < |items| && items[i].sectionId == items[j].sectionId == sectionId
      ensures 1 <= items[i].position <= |ids|
      ensures i < j ==> items[i].position != items[j].position
    {
      RequestedPositionIsItsOwn(rows, meetingId, items, i, j);
    }
  }

  lemma RequestedPositionIsItsOwn(rows: Rows, meetingId: Id, items: seq<OrderItem>, i: nat, j: nat)
    requires ValidOrder(rows, meetingId, items) && i < |items| && j < |items|
    requires items[i].sectionId == items[j].sectionId
    ensures 1 <= items[i].position <= |RequestedPositions(items, items[i].sectionId)|
    ensures i < j ==> items[i].position != items[j].position
  {
    var positions := RequestedPositions(items, items[i].sectionId);
    OneToCounts(|positions|);
    RequestedCount(items, items[i].sectionId, i, i);
    if i < j && items[i].position == items[j].position {
      RequestedCount(items, items[i].sectionId, i, j);
    }
  }

  /** A valid request leaves every section of every meeting dense. */
  lemma ReorderedKeepsDense(rows: Rows, meetingId: Id, items: seq<OrderItem>, after: Rows)
    requires Dense(rows) && ValidOrder(rows, meetingId, items) && after == Reordered(rows, items)
    ensures Dense(after)
  {
    ReorderedRows(rows, meetingId, items, after);
    forall m, s ensures DenseSection(after, m, s) {
      if m == meetingId {
        ReorderedSectionIsDense(rows, meetingId, items, after, s);
      } else {
        assert DenseSection(rows, m, s);
        UntouchedMeeting(rows, after, meetingId, m, s);
      }
    }
  }

  lemma UntouchedMeeting(before: Rows, after: Rows, changed: Id, meetingId: Id, sectionId: Id)
    requires before.Keys == after.Keys && meetingId != changed
    requires forall id | id in before :: after[id].meetingId == before[id].meetingId
    requires forall id | id in before && before[id].meetingId != changed :: after[id] == before[id]
    requires DenseSection(before, meetingId, sectionId)
    ensures DenseSection(after, meetingId, sectionId)
  {
    assert SectionIds(before, meetingId, sectionId) == SectionIds(after, meetingId, sectionId);
  }
}
