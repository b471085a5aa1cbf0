/** The `saved` array kept in `chrome.storage.local`: the listing records
    the popup appends and the dashboard rewrites. Every rewrite of the array
    is a `map` that replaces the records with a given id or a `filter` that
    drops the records whose id is in a given list. */
module Saved {
  import opened Seqs

  /** One saved listing. Strings stand for fields that may be missing, with
      "" for a missing one (every reader writes `(i.field || '')`); `price`
      is `null` or a text; `order` is `None` when it is not a number. */
  datatype Listing = Listing(
    id: string,
    url: string,
    source: string,
    address: string,
    beds: real,
    baths: real,
    price: Option<string>,
    description: string,
    zip: string,
    amenities: seq<string>,
    notes: string,
    order: Option<int>,
    status: string)

  function Ids(saved: seq<Listing>): (r: seq<string>)
    ensures |r| == |saved| && forall i :: 0 <= i < |saved| ==> r[i] == saved[i].id
  {
    Map(saved, (x: Listing) => x.id)
  }

  /** The ids are unique; the pages make them from `Date.now()`. */
  predicate UniqueIds(saved: seq<Listing>) {
    NoDup(Ids(saved))
  }

  /** `saved.map(i => i.id === id ? f(i) : i)`: each record with the id is
      replaced by its image under `f`, every other record stays where and as
      it was. */
  function UpdateById(saved: seq<Listing>, id: string, f: Listing -> Listing): (r: seq<Listing>)
    ensures |r| == |saved|
    ensures forall i :: 0 <= i < |saved| && saved[i].id == id ==> r[i] == f(saved[i])
    ensures forall i :: 0 <= i < |saved| && saved[i].id != id ==> r[i] == saved[i]
  {
    Map(saved, (x: Listing) => if x.id == id then f(x) else x)
  }

  /** With unique ids, an update of a present id changes that one record. */
  lemma {:induction false} UpdateByIdOne(saved: seq<Listing>, id: string, f: Listing -> Listing, k: nat)
    requires UniqueIds(saved)
    requires k < |saved| && saved[k].id == id
    ensures UpdateById(saved, id, f) == saved[k := f(saved[k])]
  {
    var r := UpdateById(saved, id, f);
    forall i | 0 <= i < |saved| ensures r[i] == saved[k := f(saved[k])][i] {
      if i != k {
        assert Ids(saved)[i] != Ids(saved)[k];
      }
    }
  }

  /** An update that keeps ids keeps the id list, so uniqueness too. */
  lemma {:induction false} UpdateByIdKeepsIds(saved: seq<Listing>, id: string, f: Listing -> Listing)
    requires forall x :: f(x).id == x.id
    ensures Ids(UpdateById(saved, id, f)) == Ids(saved)
  {
    var r := UpdateById(saved, id, f);
    assert forall i :: 0 <= i < |saved| ==> Ids(r)[i] == Ids(saved)[i];
  }

  /** `saved.filter(i => !ids.includes(i.id))` */
  function RemoveIds(saved: seq<Listing>, ids: seq<string>): (r: seq<Listing>)
    ensures forall x :: x in r <==> x in saved && x.id !in ids
  {
    Filter(saved, (x: Listing) => x.id !in ids)
  }

  /** The removal drops exactly the records with a listed id: every other
      record keeps its multiplicity. */
  lemma RemoveIdsCount(saved: seq<Listing>, ids: seq<string>, x: Listing)
    ensures multiset(RemoveIds(saved, ids))[x] == if x.id in ids then 0 else multiset(saved)[x]
  {
    FilterCount(saved, (x: Listing) => x.id !in ids, x);
  }

  /** The records that remain keep their original order. */
  lemma RemoveIdsOrder(saved: seq<Listing>, ids: seq<string>, i: nat, j: nat)
    requires i < j < |RemoveIds(saved, ids)|
    ensures exists i': nat, j': nat :: i' < j' < |saved|
              && saved[i'] == RemoveIds(saved, ids)[i] && saved[j'] == RemoveIds(saved, ids)[j]
  {
    FilterOrder(saved, (x: Listing) => x.id !in ids, i, j);
  }

  /** Removing the same ids again changes nothing. */
  lemma RemoveIdsTwice(saved: seq<Listing>, ids: seq<string>)
    ensures RemoveIds(RemoveIds(saved, ids), ids) == RemoveIds(saved, ids)
  {
    var r := RemoveIds(saved, ids);
    FilterAll(r, (x: Listing) => x.id !in ids);
  }

  /** The `saved` array in storage, as the page that holds it sees it. */
  class SavedList {
    var saved: seq<Listing>

    constructor (saved: seq<Listing>)
      ensures this.saved == saved
    {
      this.saved := saved;
    }
  }
}
