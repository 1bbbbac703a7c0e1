/** The seller dashboard (src/pages/Dashboard.tsx): the sales summary folded over the completed
    orders of the seller's notes, the buyer's ratings grouped by note, and the rating upsert. */
module Dashboard {
  import opened Wrappers
  import opened Ledger

  /** The note joined to a sales order (note:notes(*)), reduced to the fields the fold reads. */
  datatype SaleNote = SaleNote(id: string, title: string, price: int)

  /** A completed order of one of the seller's notes, with its joined note. */
  datatype SaleOrder = SaleOrder(noteId: string, note: SaleNote)

  datatype SoldNote = SoldNote(note: SaleNote, count: nat, revenue: int)

  datatype SalesSummary = SalesSummary(totalSales: int, totalOrders: nat, notesSold: seq<SoldNote>)

  /** The reduce's initial accumulator. */
  const EmptySummary := SalesSummary(0, 0, [])

  const RatingFailedMessage := "評価の送信に失敗しました。もう一度お試しください。"

  predicate ListsNote(sold: seq<SoldNote>, id: string) {
    exists k :: 0 <= k < |sold| && sold[k].note.id == id
  }

  /** notesSold.find(n => n.note.id === noteId), as the index of the first match (|sold| if none). */
  function FindSold(sold: seq<SoldNote>, id: string): (k: nat)
    ensures k <= |sold|
    ensures k < |sold| ==> sold[k].note.id == id
    ensures forall j :: 0 <= j < k ==> sold[j].note.id != id
    ensures k < |sold| <==> ListsNote(sold, id)
  {
    if |sold| == 0 then 0
    else if sold[0].note.id == id then 0
    else
      var k := FindSold(sold[1..], id);
      assert forall j :: 0 < j < |sold| ==> sold[j] == sold[1..][j - 1];
      k + 1
  }

  /** One call of the reduce callback. */
  function Step(acc: SalesSummary, order: SaleOrder): (r: SalesSummary)
  {
    var k := FindSold(acc.notesSold, order.noteId);
    var price := order.note.price;
    SalesSummary(acc.totalSales + price, acc.totalOrders + 1,
      if k < |acc.notesSold|
      then acc.notesSold[k := SoldNote(acc.notesSold[k].note, acc.notesSold[k].count + 1, acc.notesSold[k].revenue + price)]
      else acc.notesSold + [SoldNote(order.note, 1, price)])
  }

  /** The summary of the orders: the reduce from EmptySummary, left to right. */
  function Summary(orders: seq<SaleOrder>): SalesSummary
  {
    if |orders| == 0 then EmptySummary
    else Step(Summary(orders[..|orders| - 1]), orders[|orders| - 1])
  }

  lemma SummaryStep(orders: seq<SaleOrder>, i: nat)
    requires i < |orders|
    ensures Summary(orders[..i + 1]) == Step(Summary(orders[..i]), orders[i])
  {
    assert orders[..i + 1][..i] == orders[..i];
  }

  /** The linear search's stopping index is FindSold's. */
  lemma FindSoldIs(sold: seq<SoldNote>, id: string, j: nat)
    requires j <= |sold|
    requires forall jj :: 0 <= jj < j ==> sold[jj].note.id != id
    requires j < |sold| ==> sold[j].note.id == id
    ensures FindSold(sold, id) == j
  {
  }

  /** One call of the reduce callback as the page runs it: the totals grow, and the entry of the
      order's note is searched for and updated in place, or a new entry is appended. */
  method AddSale(acc: SalesSummary, order: SaleOrder) returns (r: SalesSummary)
    ensures r == Step(acc, order)
  {
    var sold := acc.notesSold;
    var price := order.note.price;
    var j := 0;
    while j < |sold| && sold[j].note.id != order.noteId
      invariant 0 <= j <= |sold|
      invariant forall jj :: 0 <= jj < j ==> sold[jj].note.id != order.noteId
    {
      j := j + 1;
    }
    FindSoldIs(sold, order.noteId, j);
    if j < |sold| {
      sold := sold[j := SoldNote(sold[j].note, sold[j].count + 1, sold[j].revenue + price)];
    } else {
      sold := sold + [SoldNote(order.note, 1, price)];
    }
    r := SalesSummary(acc.totalSales + price, acc.totalOrders + 1, sold);
  }

  /** The reduce as the page runs it, left to right from EmptySummary. */
  method SummarizeSales(orders: seq<SaleOrder>) returns (summary: SalesSummary)
    ensures summary == Summary(orders)
  {
    summary := EmptySummary;
    var i := 0;
    while i < |orders|
      invariant 0 <= i <= |orders|
      invariant summary == Summary(orders[..i])
    {
      summary := AddSale(summary, orders[i]);
      SummaryStep(orders, i);
      i := i + 1;
    }
    assert orders[..i] == orders;
  }

  function TotalPrice(orders: seq<SaleOrder>): int {
    if |orders| == 0 then 0 else TotalPrice(orders[..|orders| - 1]) + orders[|orders| - 1].note.price
  }

  /** The number of orders of the note. */
  function CountOf(orders: seq<SaleOrder>, id: string): nat {
    if |orders| == 0 then 0
    else CountOf(orders[..|orders| - 1], id) + (if orders[|orders| - 1].noteId == id then 1 else 0)
  }

  function SumCounts(sold: seq<SoldNote>): int {
    if |sold| == 0 then 0 else sold[0].count + SumCounts(sold[1..])
  }

  function SumRevenue(sold: seq<SoldNote>): int {
    if |sold| == 0 then 0 else sold[0].revenue + SumRevenue(sold[1..])
  }

  predicate DistinctSold(sold: seq<SoldNote>) {
    forall i, j :: 0 <= i < j < |sold| ==> sold[i].note.id != sold[j].note.id
  }

  /** Each order's joined note is the note its note_id names. */
  predicate NotesMatch(orders: seq<SaleOrder>) {
    forall i :: 0 <= i < |orders| ==> orders[i].note.id == orders[i].noteId
  }

  /** The orders are joined against one notes table: the same note_id, the same note. */
  predicate JoinedBy(orders: seq<SaleOrder>, catalog: map<string, SaleNote>) {
    forall i :: 0 <= i < |orders| ==>
      orders[i].noteId in catalog && orders[i].note == catalog[orders[i].noteId] && orders[i].note.id == orders[i].noteId
  }

  lemma {:induction false} SumsUpdate(sold: seq<SoldNote>, k: nat, x: SoldNote)
    requires k < |sold|
    ensures SumCounts(sold[k := x]) == SumCounts(sold) - sold[k].count + x.count
    ensures SumRevenue(sold[k := x]) == SumRevenue(sold) - sold[k].revenue + x.revenue
  {
    if k > 0 {
      assert sold[k := x][1..] == sold[1..][k - 1 := x];
      SumsUpdate(sold[1..], k - 1, x);
    }
  }

  lemma {:induction false} SumsAppend(sold: seq<SoldNote>, x: SoldNote)
    ensures SumCounts(sold + [x]) == SumCounts(sold) + x.count
    ensures SumRevenue(sold + [x]) == SumRevenue(sold) + x.revenue
  {
    if |sold| == 0 {
      assert [] + [x] == [x];
    } else {
      assert (sold + [x])[1..] == sold[1..] + [x];
      SumsAppend(sold[1..], x);
    }
  }

  /** totalOrders counts the orders and totalSales sums their prices; the per-note counts add up
      to totalOrders and the per-note revenues to totalSales. */
  lemma {:induction false} SummaryTotals(orders: seq<SaleOrder>)
    ensures Summary(orders).totalOrders == |orders|
    ensures Summary(orders).totalSales == TotalPrice(orders)
    ensures SumCounts(Summary(orders).notesSold) == |orders|
    ensures SumRevenue(Summary(orders).notesSold) == TotalPrice(orders)
  {
    if |orders| > 0 {
      var prefix, order := orders[..|orders| - 1], orders[|orders| - 1];
      SummaryTotals(prefix);
      var sold := Summary(prefix).notesSold;
      var k := FindSold(sold, order.noteId);
      if k < |sold| {
        SumsUpdate(sold, k, SoldNote(sold[k].note, sold[k].count + 1, sold[k].revenue + order.note.price));
      } else {
        SumsAppend(sold, SoldNote(order.note, 1, order.note.price));
      }
    }
  }

  /** No note appears twice in notesSold. */
  lemma {:induction false} SummaryDistinct(orders: seq<SaleOrder>)
    requires NotesMatch(orders)
    ensures DistinctSold(Summary(orders).notesSold)
  {
    if |orders| > 0 {
      var prefix := orders[..|orders| - 1];
      assert NotesMatch(prefix) by {
        forall i | 0 <= i < |prefix| ensures prefix[i].note.id == prefix[i].noteId {
          assert prefix[i] == orders[i];
        }
      }
      SummaryDistinct(prefix);
    }
  }

  lemma ListedStays(sold: seq<SoldNote>, after: seq<SoldNote>, id: string)
    requires |sold| <= |after|
    requires forall m :: 0 <= m < |sold| ==> after[m].note.id == sold[m].note.id
    ensures ListsNote(sold, id) ==> ListsNote(after, id)
  {
    if ListsNote(sold, id) {
      var m :| 0 <= m < |sold| && sold[m].note.id == id;
      assert after[m].note.id == id;
    }
  }

  /** Each entry's count is the number of orders of its note, and a note without an entry has
      no orders. */
  lemma {:induction false} SummaryCounts(orders: seq<SaleOrder>)
    requires NotesMatch(orders)
    ensures forall k :: 0 <= k < |Summary(orders).notesSold| ==>
      Summary(orders).notesSold[k].count == CountOf(orders, Summary(orders).notesSold[k].note.id)
    ensures forall id :: !ListsNote(Summary(orders).notesSold, id) ==> CountOf(orders, id) == 0
  {
    if |orders| > 0 {
      var prefix, order := orders[..|orders| - 1], orders[|orders| - 1];
      assert NotesMatch(prefix) by {
        forall i | 0 <= i < |prefix| ensures prefix[i].note.id == prefix[i].noteId {
          assert prefix[i] == orders[i];
        }
      }
      SummaryCounts(prefix);
      SummaryDistinct(prefix);
      var sold := Summary(prefix).notesSold;
      var after := Summary(orders).notesSold;
      var k := FindSold(sold, order.noteId);
      assert after == Step(Summary(prefix), order).notesSold;
      assert forall m :: 0 <= m < |sold| ==> after[m].note.id == sold[m].note.id;
      forall id | !ListsNote(after, id)
        ensures CountOf(orders, id) == 0
      {
        ListedStays(sold, after, id);
        if k >= |sold| { assert after[|sold|].note.id == order.noteId; }
      }
    }
  }

  /** With the orders joined against one notes table, each entry's revenue is its count times
      its note's price. */
  lemma {:induction false} SummaryRevenue(orders: seq<SaleOrder>, catalog: map<string, SaleNote>)
    requires JoinedBy(orders, catalog)
    ensures forall k :: 0 <= k < |Summary(orders).notesSold| ==>
      && Summary(orders).notesSold[k].note.id in catalog
      && Summary(orders).notesSold[k].note == catalog[Summary(orders).notesSold[k].note.id]
      && Summary(orders).notesSold[k].revenue == Summary(orders).notesSold[k].count * Summary(orders).notesSold[k].note.price
  {
    if |orders| > 0 {
      var prefix := orders[..|orders| - 1];
      assert JoinedBy(prefix, catalog) by {
        forall i | 0 <= i < |prefix|
          ensures prefix[i].noteId in catalog && prefix[i].note == catalog[prefix[i].noteId]
               && prefix[i].note.id == prefix[i].noteId
        {
          assert prefix[i] == orders[i];
        }
      }
      SummaryRevenue(prefix, catalog);
    }
  }

  /** The ratings of one note, in input order. */
  function RatingsOf(ratings: seq<Rating>, noteId: string): (r: seq<Rating>)
    ensures forall k :: 0 <= k < |r| ==> r[k].noteId == noteId
    ensures forall i :: 0 <= i < |ratings| && ratings[i].noteId == noteId ==> ratings[i] in r
  {
    if |ratings| == 0 then []
    else
      var prefix, last := ratings[..|ratings| - 1], ratings[|ratings| - 1];
      var r := RatingsOf(prefix, noteId) + (if last.noteId == noteId then [last] else []);
      assert forall i :: 0 <= i < |prefix| ==> ratings[i] == prefix[i];
      r
  }

  /** The filter works rating by rating: the ratings of two parts of the input are the two results
      one after the other (so the input order is kept), and a single rating is kept exactly when it
      is of the note. */
  lemma {:induction false} RatingsOfConcat(a: seq<Rating>, b: seq<Rating>, noteId: string)
    ensures RatingsOf(a + b, noteId) == RatingsOf(a, noteId) + RatingsOf(b, noteId)
    ensures |a| == 1 ==> RatingsOf(a, noteId) == if a[0].noteId == noteId then a else []
    decreases |b|
  {
    if |b| == 0 {
      assert a + b == a;
    } else {
      var c := b[..|b| - 1];
      assert (a + b)[..|a + b| - 1] == a + c;
      assert (a + b)[|a + b| - 1] == b[|b| - 1];
      RatingsOfConcat(a, c, noteId);
    }
    if |a| == 1 {
      assert a[..0] == [];
    }
  }

  /** The reduce into a record keyed by note_id, pushing each rating onto its note's bucket. */
  method GroupRatingsByNote(ratings: seq<Rating>) returns (byNote: map<string, seq<Rating>>)
    ensures forall id :: id in byNote <==> RatingsOf(ratings, id) != []
    ensures forall id :: id in byNote ==> byNote[id] == RatingsOf(ratings, id)
  {
    byNote := map[];
    var i := 0;
    while i < |ratings|
      invariant 0 <= i <= |ratings|
      invariant forall id :: id in byNote <==> RatingsOf(ratings[..i], id) != []
      invariant forall id :: id in byNote ==> byNote[id] == RatingsOf(ratings[..i], id)
    {
      var rating := ratings[i];
      if rating.noteId !in byNote {
        byNote := byNote[rating.noteId := []];
      }
      byNote := byNote[rating.noteId := byNote[rating.noteId] + [rating]];
      assert ratings[..i + 1][..i] == ratings[..i];
      i := i + 1;
    }
    assert ratings[..i] == ratings;
  }

  /** What the upsert leaves in the ratings table: the one existing row of (note, user) gets the
      new value; otherwise (none, or several) a new row is inserted. */
  function RatingUpsert(ratings: seq<Rating>, noteId: string, userId: string, value: int): seq<Rating>
  {
    if |RatingsBy(ratings, noteId, userId)| == 1 then SetRatingValue(ratings, noteId, userId, value)
    else ratings + [Rating(noteId, userId, value)]
  }

  ghost predicate AtMostOneRating(ratings: seq<Rating>) {
    forall noteId, userId :: |RatingsBy(ratings, noteId, userId)| <= 1
  }

  function Rerated(rs: seq<Rating>, value: int): (r: seq<Rating>)
    ensures |r| == |rs|
    ensures forall k :: 0 <= k < |rs| ==> r[k] == rs[k].(rating := value)
  {
    if |rs| == 0 then [] else [rs[0].(rating := value)] + Rerated(rs[1..], value)
  }

  lemma {:induction false} SelectAfterSet(ratings: seq<Rating>, noteId: string, userId: string, value: int,
                                          n: string, u: string)
    ensures RatingsBy(SetRatingValue(ratings, noteId, userId, value), n, u)
         == if n == noteId && u == userId then Rerated(RatingsBy(ratings, noteId, userId), value)
            else RatingsBy(ratings, n, u)
  {
    if |ratings| > 0 {
      assert SetRatingValue(ratings, noteId, userId, value)[1..] == SetRatingValue(ratings[1..], noteId, userId, value);
      SelectAfterSet(ratings[1..], noteId, userId, value, n, u);
      var x := ratings[0];
      if n == noteId && u == userId && x.noteId == noteId && x.userId == userId {
        var rest := RatingsBy(ratings[1..], noteId, userId);
        assert Rerated([x] + rest, value) == [x.(rating := value)] + Rerated(rest, value) by {
          assert ([x] + rest)[1..] == rest;
        }
      }
    }
  }

  lemma {:induction false} SelectAfterAppend(ratings: seq<Rating>, row: Rating, n: string, u: string)
    ensures RatingsBy(ratings + [row], n, u)
         == RatingsBy(ratings, n, u) + (if row.noteId == n && row.userId == u then [row] else [])
  {
    if |ratings| == 0 {
      assert [] + [row] == [row];
    } else {
      assert (ratings + [row])[1..] == ratings[1..] + [row];
      SelectAfterAppend(ratings[1..], row, n, u);
    }
  }

  /** When each buyer has at most one rating per note, the upsert keeps it that way, and the
      (note, user) pair is left with exactly the new rating. */
  lemma UpsertKeepsOneRating(ratings: seq<Rating>, noteId: string, userId: string, value: int)
    requires AtMostOneRating(ratings)
    ensures AtMostOneRating(RatingUpsert(ratings, noteId, userId, value))
    ensures RatingsBy(RatingUpsert(ratings, noteId, userId, value), noteId, userId) == [Rating(noteId, userId, value)]
  {
    var after := RatingUpsert(ratings, noteId, userId, value);
    var mine := RatingsBy(ratings, noteId, userId);
    if |mine| == 1 {
      forall n, u ensures |RatingsBy(after, n, u)| <= 1 {
        SelectAfterSet(ratings, noteId, userId, value, n, u);
        assert |RatingsBy(ratings, n, u)| <= 1;
      }
      SelectAfterSet(ratings, noteId, userId, value, noteId, userId);
      assert mine[0].noteId == noteId && mine[0].userId == userId;
    } else {
      assert |mine| == 0 by { assert |RatingsBy(ratings, noteId, userId)| <= 1; }
      forall n, u ensures |RatingsBy(after, n, u)| <= 1 {
        SelectAfterAppend(ratings, Rating(noteId, userId, value), n, u);
        assert |RatingsBy(ratings, n, u)| <= 1;
      }
      SelectAfterAppend(ratings, Rating(noteId, userId, value), noteId, userId);
    }
  }

  /** handleRating: a select .single() of the (note, user) row, then an update or an insert.
      `user` is the signed-in user (None when signed out). On success the page shows just the
      new rating for the note; every failure shows one message and leaves the page's ratings. */
  method HandleRating(store: Store, user: Option<string>, noteId: string, value: int,
                      fetchError: Option<string>, writeError: Option<string>,
                      shown: map<string, seq<Rating>>)
    returns (error: Option<string>, shownAfter: map<string, seq<Rating>>)
    modifies store
    ensures store.notes == old(store.notes) && store.profiles == old(store.profiles) && store.orders == old(store.orders)
    ensures user.None? || fetchError.Some? ==>
      error == Some(RatingFailedMessage) && shownAfter == shown && store.ratings == old(store.ratings)
    ensures user.Some? && fetchError.None? && writeError.Some? ==>
      error == Some(RatingFailedMessage) && shownAfter == shown && store.ratings == old(store.ratings)
    ensures user.Some? && fetchError.None? && writeError.None? ==>
      && error.None?
      && shownAfter == shown[noteId := [Rating(noteId, user.value, value)]]
      && store.ratings == RatingUpsert(old(store.ratings), noteId, user.value, value)
  {
    if user.None? {
      return Some(RatingFailedMessage), shown;
    }
    var existing := store.SelectSingleRating(noteId, user.value, fetchError);
    if existing.QueryFailed? {
      return Some(RatingFailedMessage), shown;
    }
    var err;
    if existing.One? {
      err := store.UpdateRating(noteId, user.value, value, writeError);
    } else {
      err := store.InsertRating(Rating(noteId, user.value, value), writeError);
    }
    if err.Some? {
      return Some(RatingFailedMessage), shown;
    }
    return None, shown[noteId := [Rating(noteId, user.value, value)]];
  }
}
