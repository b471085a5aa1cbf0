/** The dashboard's list logic: the six status columns and their order, the
    status and search filter, and the handlers that rewrite the saved array
    (drop onto a column, notes edit, delete, bulk delete). */
module Dashboard {
  import opened Seqs
  import opened JsText
  import opened JsNumber
  import opened Saved

  /** `STATUSES`, in column order. */
  const Statuses: seq<string> := ["new", "viewed", "contacted", "applied", "approved", "denied"]

  lemma StatusesDistinct()
    ensures NoDup(Statuses)
  {
  }

  /** The column an item is shown in: its status when that is one of the six,
      else "new". */
  function StatusKey(x: Listing): string {
    if x.status in Statuses then x.status else "new"
  }

  /** `typeof order === 'number' ? order : 0` */
  function OrderKey(x: Listing): int {
    x.order.GetOr(0)
  }

  /** `parseInt(id, 10) || 0` */
  function IdKey(x: Listing): int {
    ParseIntOrZero(x.id)
  }

  // ------------------------------------------------------- groupByStatus

  /** The two sort keys of a record, higher first: its order, then its id. */
  datatype Rank = Rank(order: int, id: int)

  function RankOf(x: Listing): Rank {
    Rank(OrderKey(x), IdKey(x))
  }

  /** The comparator of `groupByStatus` does not put `a` before `b`'s
      position: `a` has a higher order, or the same order and an id that is
      not smaller. */
  predicate RankAhead(a: Rank, b: Rank) {
    a.order > b.order || (a.order == b.order && a.id >= b.id)
  }

  predicate Ahead(a: Listing, b: Listing) {
    RankAhead(RankOf(a), RankOf(b))
  }

  /** Sorted by `rank`, higher first. The sort takes the ranking as a
      parameter so that its proofs need not look inside the keys. */
  predicate SortedBy(s: seq<Listing>, rank: Listing -> Rank) {
    forall i, j :: 0 <= i < j < |s| ==> RankAhead(rank(s[i]), rank(s[j]))
  }

  /** One step of a stable insertion sort: `x`, which follows every element
      of `t` in the input, goes after all of them that are not behind it. */
  function InsertDesc(t: seq<Listing>, x: Listing, rank: Listing -> Rank): (r: seq<Listing>)
    ensures |r| == |t| + 1
    ensures multiset(r) == multiset(t) + multiset{x}
    ensures SortedBy(t, rank) ==> SortedBy(r, rank)
  {
    if t == [] || RankAhead(rank(t[|t| - 1]), rank(x)) then t + [x]
    else
      var front := t[..|t| - 1];
      var last := t[|t| - 1];
      var r' := InsertDesc(front, x, rank);
      assert t == front + [last];
      InsertDescStep(front, last, x, r', rank);
      r' + [last]
  }

  /** Putting `last` back after the insertion into `front`, when `last` is
      not ahead of `x`. */
  lemma InsertDescStep(front: seq<Listing>, last: Listing, x: Listing, r': seq<Listing>, rank: Listing -> Rank)
    requires multiset(r') == multiset(front) + multiset{x}
    requires SortedBy(front, rank) ==> SortedBy(r', rank)
    requires !RankAhead(rank(last), rank(x))
    ensures multiset(r' + [last]) == multiset(front + [last]) + multiset{x}
    ensures SortedBy(front + [last], rank) ==> SortedBy(r' + [last], rank)
  {
    var t := front + [last];
    if SortedBy(t, rank) {
      assert SortedBy(front, rank) by {
        forall i, j | 0 <= i < j < |front| ensures RankAhead(rank(front[i]), rank(front[j])) {
          assert t[i] == front[i] && t[j] == front[j];
        }
      }
      assert t[|front|] == last;
      forall i | 0 <= i < |r'| ensures RankAhead(rank(r'[i]), rank(last)) {
        assert r'[i] in multiset(r');
        if r'[i] != x {
          assert r'[i] in multiset(front);
          var j :| 0 <= j < |front| && front[j] == r'[i];
          assert t[j] == r'[i];
        }
      }
      var r := r' + [last];
      forall i, j | 0 <= i < j < |r| ensures RankAhead(rank(r[i]), rank(r[j])) {
        assert r[i] == r'[i];
        if j < |r'| {
          assert r[j] == r'[j];
        }
      }
    }
  }

  /** `group.sort(comparator)`: `Array.prototype.sort` is stable, so this is
      an insertion sort in input order. */
  function SortDesc(s: seq<Listing>, rank: Listing -> Rank): (r: seq<Listing>)
    ensures |r| == |s|
    ensures SortedBy(r, rank)
    ensures multiset(r) == multiset(s)
  {
    if s == [] then []
    else
      assert s == s[..|s| - 1] + [s[|s| - 1]];
      InsertDesc(SortDesc(s[..|s| - 1], rank), s[|s| - 1], rank)
  }

  /** The items pushed into the group of status `s`, in input order. */
  function Bucket(items: seq<Listing>, s: string): seq<Listing> {
    Filter(items, (x: Listing) => StatusKey(x) == s)
  }

  /** The column of status `s`: its bucket, sorted. */
  function Column(items: seq<Listing>, s: string): (r: seq<Listing>)
    ensures SortedBy(r, RankOf) && multiset(r) == multiset(Bucket(items, s))
  {
    SortDesc(Bucket(items, s), RankOf)
  }

  function ColumnsOf(items: seq<Listing>, ss: seq<string>): (r: seq<seq<Listing>>)
    ensures |r| == |ss| && forall k :: 0 <= k < |ss| ==> r[k] == Column(items, ss[k])
  {
    if ss == [] then [] else [Column(items, ss[0])] + ColumnsOf(items, ss[1..])
  }

  /** What `groupByStatus(items)` returns: one column per status, in the
      order of `Statuses`. */
  function Groups(items: seq<Listing>): seq<seq<Listing>> {
    ColumnsOf(items, Statuses)
  }

  /** The index of a status in `Statuses`. */
  function StatusIndex(s: string): (k: nat)
    requires s in Statuses
    ensures k < |Statuses| && Statuses[k] == s
  {
    if s == Statuses[0] then 0 else if s == Statuses[1] then 1 else if s == Statuses[2] then 2
    else if s == Statuses[3] then 3 else if s == Statuses[4] then 4 else 5
  }

  lemma BucketStep(items: seq<Listing>, i: nat)
    requires i < |items|
    ensures forall s :: Bucket(items[..i + 1], s)
              == Bucket(items[..i], s) + (if StatusKey(items[i]) == s then [items[i]] else [])
  {
    assert items[..i + 1] == items[..i] + [items[i]];
    forall s ensures Bucket(items[..i + 1], s)
                     == Bucket(items[..i], s) + (if StatusKey(items[i]) == s then [items[i]] else []) {
      FilterConcat(items[..i], [items[i]], (x: Listing) => StatusKey(x) == s);
    }
  }

  /** One push of the first loop of `groupByStatus`, given the groups after it. */
  lemma PushStep(items: seq<Listing>, i: nat, groups: seq<seq<Listing>>, groups': seq<seq<Listing>>)
    requires i < |items| && |groups| == |Statuses|
    requires forall k :: 0 <= k < |Statuses| ==> groups[k] == Bucket(items[..i], Statuses[k])
    requires var k := StatusIndex(StatusKey(items[i])); groups' == groups[k := groups[k] + [items[i]]]
    ensures |groups'| == |Statuses|
    ensures forall k :: 0 <= k < |Statuses| ==> groups'[k] == Bucket(items[..i + 1], Statuses[k])
  {
    BucketStep(items, i);
    StatusesDistinct();
  }

  /** The first loop of `groupByStatus`: each item is pushed onto the group
      of its status key. */
  method PushAll(items: seq<Listing>) returns (groups: seq<seq<Listing>>)
    ensures |groups| == |Statuses|
    ensures forall k :: 0 <= k < |Statuses| ==> groups[k] == Bucket(items, Statuses[k])
  {
    groups := seq(|Statuses|, _ => []);
    for i := 0 to |items|
      invariant |groups| == |Statuses|
      invariant forall k :: 0 <= k < |Statuses| ==> groups[k] == Bucket(items[..i], Statuses[k])
    {
      var k := StatusIndex(StatusKey(items[i]));
      var groups' := groups[k := groups[k] + [items[i]]];
      PushStep(items, i, groups, groups');
      groups := groups';
    }
    assert items[..|items|] == items;
  }

  /** `groupByStatus(items)`: push each item into the group of its status
      key, then sort each group in place. */
  method GroupByStatus(items: seq<Listing>) returns (groups: seq<seq<Listing>>)
    ensures groups == Groups(items)
  {
    groups := PushAll(items);
    for k := 0 to |Statuses|
      invariant |groups| == |Statuses|
      invariant forall j :: 0 <= j < k ==> groups[j] == Column(items, Statuses[j])
      invariant forall j :: k <= j < |Statuses| ==> groups[j] == Bucket(items, Statuses[j])
    {
      groups := groups[k := SortDesc(groups[k], RankOf)];
    }
  }

  /** All the items of several groups, with multiplicity. */
  function Union(gs: seq<seq<Listing>>): multiset<Listing> {
    if gs == [] then multiset{} else multiset(gs[0]) + Union(gs[1..])
  }

  function TotalSize(gs: seq<seq<Listing>>): nat {
    if gs == [] then 0 else |gs[0]| + TotalSize(gs[1..])
  }

  lemma {:induction false} UnionSize(gs: seq<seq<Listing>>)
    ensures |Union(gs)| == TotalSize(gs)
  {
    if gs != [] {
      UnionSize(gs[1..]);
    }
  }

  lemma {:induction false} UnionCount(items: seq<Listing>, ss: seq<string>, x: Listing)
    requires NoDup(ss)
    ensures Union(ColumnsOf(items, ss))[x] == if StatusKey(x) in ss then multiset(items)[x] else 0
  {
    if ss != [] {
      var cs := ColumnsOf(items, ss);
      assert cs[1..] == ColumnsOf(items, ss[1..]);
      NoDupTail(ss);
      UnionCount(items, ss[1..], x);
      FilterCount(items, (y: Listing) => StatusKey(y) == ss[0], x);
    }
  }

  /** Every item lands in exactly one column: the columns together hold the
      input items with their multiplicities, so their sizes add up to the
      number of items. */
  lemma GroupsPartition(items: seq<Listing>)
    ensures Union(Groups(items)) == multiset(items)
    ensures TotalSize(Groups(items)) == |items|
  {
    StatusesDistinct();
    forall x ensures Union(Groups(items))[x] == multiset(items)[x] {
      UnionCount(items, Statuses, x);
    }
    assert Union(Groups(items)) == multiset(items);
    UnionSize(Groups(items));
  }

  /** An item is in the column of its status key and in no other; an item
      whose status is not one of the six is in the "new" column. */
  lemma GroupOf(items: seq<Listing>, x: Listing, k: nat)
    requires x in items && k < |Statuses|
    ensures x in Groups(items)[k] <==> Statuses[k] == StatusKey(x)
    ensures x.status !in Statuses ==> x in Groups(items)[0]
  {
    forall j | 0 <= j < |Statuses|
      ensures x in Groups(items)[j] <==> x in Bucket(items, Statuses[j])
    {
      assert x in Groups(items)[j] <==> x in multiset(Groups(items)[j]);
      assert x in Bucket(items, Statuses[j]) <==> x in multiset(Bucket(items, Statuses[j]));
    }
  }

  // ------------------------------------------------------------- filter

  /** `(i.address || '').toLowerCase().includes(q)` or the same for the
      description or the notes. */
  predicate MatchesQuery(x: Listing, q: string) {
    Contains(Lower(x.address), q) || Contains(Lower(x.description), q) || Contains(Lower(x.notes), q)
  }

  /** An item passes the filter: the status when one is chosen, the
      lower-cased search text when there is one. */
  predicate Shown(x: Listing, status: string, q: string) {
    (status != "" ==> x.status == status) && (q != "" ==> MatchesQuery(x, q))
  }

  /** The items `render` shows, from the status filter and the search box. */
  function Visible(items: seq<Listing>, status: string, search: string): seq<Listing> {
    var q := Lower(search);
    var byStatus := if status != "" then Filter(items, (i: Listing) => i.status == status) else items;
    if q != "" then Filter(byStatus, (i: Listing) => MatchesQuery(i, q)) else byStatus
  }

  /** The two filters in a row are one filter with both tests: an item is
      shown iff it has the chosen status (when one is chosen) and the
      lower-cased search text occurs in its lower-cased address, description
      or notes (when there is a search text); shown items keep their order
      and multiplicity. */
  lemma VisibleIsFilter(items: seq<Listing>, status: string, search: string)
    ensures Visible(items, status, search) == Filter(items, (i: Listing) => Shown(i, status, Lower(search)))
    ensures forall x :: x in Visible(items, status, search) <==> x in items && Shown(x, status, Lower(search))
  {
    var q := Lower(search);
    var st := (i: Listing) => i.status == status;
    var mq := (i: Listing) => MatchesQuery(i, q);
    var shown := (i: Listing) => Shown(i, status, q);
    if status != "" && q != "" {
      FilterFilter(items, st, mq, shown);
    } else if status != "" {
      FilterFilter(items, st, (i: Listing) => true, shown);
      FilterAll(Filter(items, st), (i: Listing) => true);
    } else if q != "" {
      FilterFilter(items, (i: Listing) => true, mq, shown);
      FilterAll(items, (i: Listing) => true);
    } else {
      FilterAll(items, shown);
    }
  }

  // --------------------------------------------------------------- drop

  /** `itemsInStatus`: the other records that have exactly the target status. */
  function ColumnOthers(saved: seq<Listing>, id: string, newStatus: string): seq<Listing> {
    Filter(saved, (i: Listing) => i.status == newStatus && i.id != id)
  }

  /** `orders.length ? Math.max(...orders) : 0` */
  function MaxOrder(orders: seq<int>): (m: int)
    ensures orders == [] ==> m == 0
    ensures orders != [] ==> m in orders && forall o :: o in orders ==> o <= m
  {
    if orders == [] then 0
    else if |orders| == 1 then orders[0]
    else
      var m := MaxOrder(orders[1..]);
      assert orders == [orders[0]] + orders[1..];
      if orders[0] >= m then orders[0] else m
  }

  /** `targetOrder`: one more than the order of the card the placeholder
      stands before (`beforeId`, "" when there is none) when that card is
      among the others and its order is a non-zero number, else one more
      than the highest order of the others. */
  function TargetOrder(saved: seq<Listing>, id: string, newStatus: string, beforeId: string): int {
    var others := ColumnOthers(saved, id, newStatus);
    var maxOrder := MaxOrder(Map(others, OrderKey));
    if beforeId == "" then maxOrder + 1
    else
      match FindIndex(others, (i: Listing) => i.id == beforeId)
      case None => maxOrder + 1
      case Some(k) => (if OrderKey(others[k]) != 0 then OrderKey(others[k]) else maxOrder) + 1
  }

  /** Without a card to stand before, the target order is above every other
      order in the column; with no others it is 1. */
  lemma DropOnTopOrder(saved: seq<Listing>, id: string, newStatus: string)
    ensures forall x :: x in ColumnOthers(saved, id, newStatus) ==> OrderKey(x) < TargetOrder(saved, id, newStatus, "")
    ensures ColumnOthers(saved, id, newStatus) == [] ==> TargetOrder(saved, id, newStatus, "") == 1
    ensures ColumnOthers(saved, id, newStatus) != [] ==>
              exists x :: x in ColumnOthers(saved, id, newStatus) && TargetOrder(saved, id, newStatus, "") == OrderKey(x) + 1
  {
    var others := ColumnOthers(saved, id, newStatus);
    var orders := Map(others, OrderKey);
    forall x | x in others ensures OrderKey(x) in orders {
      var i :| 0 <= i < |others| && others[i] == x;
      assert orders[i] == OrderKey(x);
    }
    if others != [] {
      var i :| 0 <= i < |orders| && orders[i] == MaxOrder(orders);
      assert others[i] in others && OrderKey(others[i]) == orders[i];
    }
  }

  /** Standing before card `k` of the others (the first with id `beforeId`):
      the target is one above that card's order when the order is a non-zero
      number; otherwise the card goes on top as without `beforeId`. */
  lemma DropBeforeOrder(saved: seq<Listing>, id: string, newStatus: string, beforeId: string, k: nat)
    requires beforeId != ""
    requires k < |ColumnOthers(saved, id, newStatus)| && ColumnOthers(saved, id, newStatus)[k].id == beforeId
    requires forall j :: 0 <= j < k ==> ColumnOthers(saved, id, newStatus)[j].id != beforeId
    ensures OrderKey(ColumnOthers(saved, id, newStatus)[k]) != 0 ==>
              TargetOrder(saved, id, newStatus, beforeId) == OrderKey(ColumnOthers(saved, id, newStatus)[k]) + 1
    ensures OrderKey(ColumnOthers(saved, id, newStatus)[k]) == 0 ==>
              TargetOrder(saved, id, newStatus, beforeId) == TargetOrder(saved, id, newStatus, "")
  {
    var others := ColumnOthers(saved, id, newStatus);
    var found := FindIndex(others, (i: Listing) => i.id == beforeId);
    assert found == Some(k);
  }

  /** `saved.map(i => i.id === id ? { ...i, status: newStatus, order: targetOrder } : i)`:
      the records with the dragged id get the new status and the target
      order; the length and every other record are unchanged. */
  function Dropped(saved: seq<Listing>, id: string, newStatus: string, beforeId: string): (r: seq<Listing>)
    ensures |r| == |saved|
    ensures forall i :: 0 <= i < |saved| && saved[i].id == id ==>
              r[i] == saved[i].(status := newStatus, order := Some(TargetOrder(saved, id, newStatus, beforeId)))
    ensures forall i :: 0 <= i < |saved| && saved[i].id != id ==> r[i] == saved[i]
  {
    var t := TargetOrder(saved, id, newStatus, beforeId);
    UpdateById(saved, id, (x: Listing) => x.(status := newStatus, order := Some(t)))
  }

  /** The first element of a sorted column has an order at least that of
      every element. */
  lemma TopOfSorted(g: seq<Listing>, y: Listing)
    requires SortedBy(g, RankOf) && y in g
    ensures g != [] && OrderKey(g[0]) >= OrderKey(y)
  {
    var p :| 0 <= p < |g| && g[p] == y;
    if p > 0 {
      assert RankAhead(RankOf(g[0]), RankOf(g[p]));
    }
  }

  /** After a drop without a card to stand before, a record of the target
      column is a dragged one or has an order below the target. */
  lemma DroppedColumnMember(saved: seq<Listing>, id: string, newStatus: string, y: Listing)
    requires newStatus in Statuses
    requires forall x :: x in saved ==> x.status in Statuses
    requires y in Bucket(Dropped(saved, id, newStatus, ""), newStatus)
    ensures y.id == id || OrderKey(y) < TargetOrder(saved, id, newStatus, "")
  {
    var r := Dropped(saved, id, newStatus, "");
    var m :| 0 <= m < |r| && r[m] == y;
    if saved[m].id != id {
      assert saved[m] in saved;
      assert saved[m] in ColumnOthers(saved, id, newStatus);
      DropOnTopOrder(saved, id, newStatus);
    }
  }

  /** A card dropped onto a column with no card to stand before is shown
      first in that column, when every record has one of the six statuses. */
  lemma DroppedOnTop(saved: seq<Listing>, id: string, newStatus: string, j: nat)
    requires newStatus in Statuses
    requires forall x :: x in saved ==> x.status in Statuses
    requires j < |saved| && saved[j].id == id
    ensures Column(Dropped(saved, id, newStatus, ""), newStatus) != []
    ensures Column(Dropped(saved, id, newStatus, ""), newStatus)[0].id == id
  {
    var r := Dropped(saved, id, newStatus, "");
    var b := Bucket(r, newStatus);
    var g := Column(r, newStatus);
    var u := r[j];
    assert u in b;
    assert u in g by { assert u in multiset(b); }
    TopOfSorted(g, u);
    assert g[0] in b by { assert g[0] in multiset(g); }
    DroppedColumnMember(saved, id, newStatus, g[0]);
  }

  // --------------------------------------------------------------- edits

  /** `saved.map(i => i.id === id ? { ...i, notes } : i)`: only the notes of
      the records with the id change. */
  function WithNotes(saved: seq<Listing>, id: string, notes: string): (r: seq<Listing>)
    ensures |r| == |saved|
    ensures forall i :: 0 <= i < |saved| && saved[i].id == id ==> r[i] == saved[i].(notes := notes)
    ensures forall i :: 0 <= i < |saved| && saved[i].id != id ==> r[i] == saved[i]
  {
    UpdateById(saved, id, (x: Listing) => x.(notes := notes))
  }

  /** The drop handler: the dragged card `id` moves to column `newStatus`,
      before the card `beforeId` ("" when none). */
  method Drop(store: SavedList, id: string, newStatus: string, beforeId: string)
    modifies store
    ensures store.saved == Dropped(old(store.saved), id, newStatus, beforeId)
  {
    store.saved := Dropped(store.saved, id, newStatus, beforeId);
  }

  /** The notes box of card `id` changed to `notes`. */
  method EditNotes(store: SavedList, id: string, notes: string)
    modifies store
    ensures store.saved == WithNotes(old(store.saved), id, notes)
  {
    store.saved := WithNotes(store.saved, id, notes);
  }

  /** The delete button of card `id`. */
  method Delete(store: SavedList, id: string)
    modifies store
    ensures store.saved == RemoveIds(old(store.saved), [id])
  {
    store.saved := RemoveIds(store.saved, [id]);
  }

  /** The bulk delete button with the checked cards `ids`; `confirmed` is the
      answer to the confirmation dialog. Nothing happens without ids or
      without confirmation. */
  method BulkDelete(store: SavedList, ids: seq<string>, confirmed: bool)
    modifies store
    ensures ids == [] || !confirmed ==> store.saved == old(store.saved)
    ensures ids != [] && confirmed ==> store.saved == RemoveIds(old(store.saved), ids)
  {
    if ids == [] {
      return;
    }
    if !confirmed {
      return;
    }
    store.saved := RemoveIds(store.saved, ids);
  }
}
