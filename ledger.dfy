/** The Supabase tables the handlers read and write (notes, profiles, orders, ratings) and the
    queries they issue, each a method of Store whose failure is a parameter. */
module Ledger {
  import opened Wrappers

  /** profiles.stripe_account_status; a column that was never set is None. */
  datatype AccountStatus = AccountPending | AccountVerified

  function StatusText(s: AccountStatus): (t: string)
    ensures t == "verified" <==> s == AccountVerified
    ensures t == "pending" <==> s == AccountPending
  {
    match s
    case AccountPending => "pending"
    case AccountVerified => "verified"
  }

  datatype Profile = Profile(stripeAccountId: Option<string>, stripeAccountStatus: Option<AccountStatus>)

  /** A row of notes (a listing); price is integer yen. */
  datatype Note = Note(id: string, title: string, price: int, sellerId: string)

  datatype PaymentStatus = PaymentPending | PaymentCompleted

  /** A row of orders; platform_fee is NULL for rows the single-item checkout inserts. */
  datatype Order = Order(noteId: string, buyerId: string, paymentStatus: PaymentStatus,
                         stripeSessionId: string, platformFee: Option<int>)

  /** A note joined with its seller's profile (a to-one join that may find nothing). */
  datatype NoteWithSeller = NoteWithSeller(note: Note, seller: Option<Profile>)

  /** An order joined (inner) with its note's price and the note's seller's account id. */
  datatype OrderRow = OrderRow(noteId: string, platformFee: Option<int>, price: int, sellerAccountId: Option<string>)

  /** A row of ratings: one user's star rating of one note. */
  datatype Rating = Rating(noteId: string, userId: string, rating: int)

  /** The first row of the notes table with the given id. */
  function NoteById(notes: seq<Note>, id: string): (r: Option<Note>)
    ensures r.Some? ==> r.value in notes && r.value.id == id
    ensures r.None? ==> forall i :: 0 <= i < |notes| ==> notes[i].id != id
  {
    if |notes| == 0 then None
    else if notes[0].id == id then Some(notes[0])
    else NoteById(notes[1..], id)
  }

  /** select ... from notes where id in ids, each row joined with its seller profile, in table order. */
  function NotesIn(notes: seq<Note>, profiles: map<string, Profile>, ids: seq<string>): (r: seq<NoteWithSeller>)
    ensures |r| <= |notes|
    ensures forall k :: 0 <= k < |r| ==> r[k].note in notes && r[k].note.id in ids
    ensures forall k :: 0 <= k < |r| ==>
      r[k].seller == (if r[k].note.sellerId in profiles then Some(profiles[r[k].note.sellerId]) else None)
    ensures r == [] <==> forall i :: 0 <= i < |notes| ==> notes[i].id !in ids
  {
    if |notes| == 0 then []
    else
      var rest := NotesIn(notes[1..], profiles, ids);
      var n := notes[0];
      if n.id in ids then
        [NoteWithSeller(n, if n.sellerId in profiles then Some(profiles[n.sellerId]) else None)] + rest
      else rest
  }

  /** The select is a filter over the table: selecting from two parts of the table gives the two
      selections one after the other, so the result keeps the table's order. */
  lemma {:induction false} NotesInConcat(a: seq<Note>, b: seq<Note>, profiles: map<string, Profile>, ids: seq<string>)
    ensures NotesIn(a + b, profiles, ids) == NotesIn(a, profiles, ids) + NotesIn(b, profiles, ids)
  {
    if |a| > 0 {
      assert (a + b)[0] == a[0];
      assert (a + b)[1..] == a[1..] + b;
      NotesInConcat(a[1..], b, profiles, ids);
      var head := if a[0].id in ids then [NoteWithSeller(a[0], if a[0].sellerId in profiles then Some(profiles[a[0].sellerId]) else None)] else [];
      assert NotesIn(a, profiles, ids) == head + NotesIn(a[1..], profiles, ids);
      assert NotesIn(a + b, profiles, ids) == head + NotesIn(a[1..] + b, profiles, ids);
    } else {
      assert a + b == b;
    }
  }

  /** A single note is selected, joined with its seller profile, exactly when its id is requested. */
  lemma NotesInSingle(n: Note, profiles: map<string, Profile>, ids: seq<string>)
    ensures NotesIn([n], profiles, ids) ==
      (if n.id in ids then [NoteWithSeller(n, if n.sellerId in profiles then Some(profiles[n.sellerId]) else None)] else [])
  {
    assert [n][1..] == [];
  }

  /** Every note of the table whose id is requested is selected (and so charged by the checkout). */
  lemma NotesInComplete(notes: seq<Note>, profiles: map<string, Profile>, ids: seq<string>, i: nat)
    requires i < |notes| && notes[i].id in ids
    ensures exists k :: 0 <= k < |NotesIn(notes, profiles, ids)| && NotesIn(notes, profiles, ids)[k].note == notes[i]
  {
    var pre, post := notes[..i], notes[i + 1..];
    assert notes == pre + ([notes[i]] + post);
    NotesInConcat(pre, [notes[i]] + post, profiles, ids);
    NotesInConcat([notes[i]], post, profiles, ids);
    NotesInSingle(notes[i], profiles, ids);
    var r := NotesIn(notes, profiles, ids);
    assert r[|NotesIn(pre, profiles, ids)|].note == notes[i];
  }

  /** update orders set payment_status = 'completed' where stripe_session_id = sessionId. */
  function MarkCompleted(orders: seq<Order>, sessionId: string): (r: seq<Order>)
    ensures |r| == |orders|
    ensures forall i :: 0 <= i < |orders| ==>
      r[i] == if orders[i].stripeSessionId == sessionId then orders[i].(paymentStatus := PaymentCompleted) else orders[i]
  {
    if |orders| == 0 then []
    else
      var o := orders[0];
      [if o.stripeSessionId == sessionId then o.(paymentStatus := PaymentCompleted) else o]
        + MarkCompleted(orders[1..], sessionId)
  }

  /** The inner joins of one order: its note (the first with the id) and that note's seller
      profile; None when either is missing. */
  function JoinRow(o: Order, notes: seq<Note>, profiles: map<string, Profile>): Option<OrderRow> {
    var note := NoteById(notes, o.noteId);
    if note.Some? && note.value.sellerId in profiles then
      Some(OrderRow(o.noteId, o.platformFee, note.value.price, profiles[note.value.sellerId].stripeAccountId))
    else None
  }

  /** select note_id, platform_fee, notes!inner(price, seller:profiles!inner(stripe_account_id))
      from orders where stripe_session_id = sessionId: orders without a note or without a seller
      profile drop out of the inner joins. */
  function SessionOrderRows(orders: seq<Order>, notes: seq<Note>, profiles: map<string, Profile>,
                            sessionId: string): seq<OrderRow>
  {
    if |orders| == 0 then []
    else
      var o := orders[0];
      var rest := SessionOrderRows(orders[1..], notes, profiles, sessionId);
      if o.stripeSessionId == sessionId && JoinRow(o, notes, profiles).Some? then
        [JoinRow(o, notes, profiles).value] + rest
      else rest
  }

  /** update profiles set stripe_account_id = accountId, stripe_account_status = 'pending' where id = userId. */
  function SetAccountPending(profiles: map<string, Profile>, userId: string, accountId: string): map<string, Profile>
  {
    if userId in profiles then
      profiles[userId := Profile(Some(accountId), Some(AccountPending))]
    else profiles
  }

  /** update profiles set stripe_account_status = 'verified' where stripe_account_id = accountId. */
  function VerifyAccount(profiles: map<string, Profile>, accountId: string): map<string, Profile>
  {
    map u | u in profiles ::
      if profiles[u].stripeAccountId == Some(accountId)
      then profiles[u].(stripeAccountStatus := Some(AccountVerified))
      else profiles[u]
  }

  /** select * from ratings where note_id = noteId and user_id = userId. */
  function RatingsBy(ratings: seq<Rating>, noteId: string, userId: string): (r: seq<Rating>)
    ensures |r| <= |ratings|
    ensures forall k :: 0 <= k < |r| ==> r[k] in ratings && r[k].noteId == noteId && r[k].userId == userId
  {
    if |ratings| == 0 then []
    else
      var rest := RatingsBy(ratings[1..], noteId, userId);
      if ratings[0].noteId == noteId && ratings[0].userId == userId then [ratings[0]] + rest else rest
  }

  /** update ratings set rating = value for the rows of (noteId, userId). */
  function SetRatingValue(ratings: seq<Rating>, noteId: string, userId: string, value: int): (r: seq<Rating>)
    ensures |r| == |ratings|
    ensures forall i :: 0 <= i < |ratings| ==>
      r[i] == if ratings[i].noteId == noteId && ratings[i].userId == userId then ratings[i].(rating := value) else ratings[i]
  {
    if |ratings| == 0 then []
    else
      var x := ratings[0];
      [if x.noteId == noteId && x.userId == userId then x.(rating := value) else x]
        + SetRatingValue(ratings[1..], noteId, userId, value)
  }

  /** The outcome of a PostgREST .single() query. */
  datatype Single<T> = One(row: T) | NoneOrMany | QueryFailed(message: string)

  /** The database as the handlers see it. Each query method takes the error the database
      would report (None when it succeeds). */
  class Store {
    var notes: seq<Note>
    var profiles: map<string, Profile>
    var orders: seq<Order>
    var ratings: seq<Rating>

    constructor (notes0: seq<Note>, profiles0: map<string, Profile>, orders0: seq<Order>, ratings0: seq<Rating>)
      ensures notes == notes0 && profiles == profiles0 && orders == orders0 && ratings == ratings0
    {
      notes, profiles, orders, ratings := notes0, profiles0, orders0, ratings0;
    }

    method SelectNotesIn(ids: seq<string>, error: Option<string>) returns (r: Result<seq<NoteWithSeller>>)
      ensures error.Some? ==> r == Err(error.value)
      ensures error.None? ==> r == Ok(NotesIn(notes, profiles, ids))
    {
      if error.Some? {
        r := Err(error.value);
      } else {
        r := Ok(NotesIn(notes, profiles, ids));
      }
    }

    /** A multi-row insert is one statement: all rows or none. */
    method InsertOrders(rows: seq<Order>, error: Option<string>) returns (err: Option<string>)
      modifies this
      ensures err == error
      ensures orders == if error.None? then old(orders) + rows else old(orders)
      ensures notes == old(notes) && profiles == old(profiles) && ratings == old(ratings)
    {
      err := error;
      if error.None? {
        orders := orders + rows;
      }
    }

    method CompleteSessionOrders(sessionId: string, error: Option<string>) returns (err: Option<string>)
      modifies this
      ensures err == error
      ensures orders == if error.None? then MarkCompleted(old(orders), sessionId) else old(orders)
      ensures notes == old(notes) && profiles == old(profiles) && ratings == old(ratings)
    {
      err := error;
      if error.None? {
        orders := MarkCompleted(orders, sessionId);
      }
    }

    /** Fails by returning no data (the source then sees `orders` as null). */
    method SelectSessionOrderRows(sessionId: string, fails: bool) returns (r: Option<seq<OrderRow>>)
      ensures fails ==> r == None
      ensures !fails ==> r == Some(SessionOrderRows(orders, notes, profiles, sessionId))
    {
      if fails {
        r := None;
      } else {
        r := Some(SessionOrderRows(orders, notes, profiles, sessionId));
      }
    }

    method UpdateProfileAccount(userId: string, accountId: string, error: Option<string>) returns (err: Option<string>)
      modifies this
      ensures err == error
      ensures profiles == if error.None? then SetAccountPending(old(profiles), userId, accountId) else old(profiles)
      ensures notes == old(notes) && orders == old(orders) && ratings == old(ratings)
    {
      err := error;
      if error.None? {
        profiles := SetAccountPending(profiles, userId, accountId);
      }
    }

    method VerifyProfilesOf(accountId: string, error: Option<string>) returns (err: Option<string>)
      modifies this
      ensures err == error
      ensures profiles == if error.None? then VerifyAccount(old(profiles), accountId) else old(profiles)
      ensures notes == old(notes) && orders == old(orders) && ratings == old(ratings)
    {
      err := error;
      if error.None? {
        profiles := VerifyAccount(profiles, accountId);
      }
    }

    /** select * from ratings where note_id and user_id match, .single(): PostgREST reports zero
        rows and several rows with the same code (PGRST116). */
    method SelectSingleRating(noteId: string, userId: string, error: Option<string>) returns (r: Single<Rating>)
      ensures error.Some? ==> r == QueryFailed(error.value)
      ensures error.None? && |RatingsBy(ratings, noteId, userId)| == 1 ==> r == One(RatingsBy(ratings, noteId, userId)[0])
      ensures error.None? && |RatingsBy(ratings, noteId, userId)| != 1 ==> r == NoneOrMany
    {
      var found := RatingsBy(ratings, noteId, userId);
      if error.Some? {
        r := QueryFailed(error.value);
      } else if |found| == 1 {
        r := One(found[0]);
      } else {
        r := NoneOrMany;
      }
    }

    method UpdateRating(noteId: string, userId: string, value: int, error: Option<string>) returns (err: Option<string>)
      modifies this
      ensures err == error
      ensures ratings == if error.None? then SetRatingValue(old(ratings), noteId, userId, value) else old(ratings)
      ensures notes == old(notes) && profiles == old(profiles) && orders == old(orders)
    {
      err := error;
      if error.None? {
        ratings := SetRatingValue(ratings, noteId, userId, value);
      }
    }

    method InsertRating(row: Rating, error: Option<string>) returns (err: Option<string>)
      modifies this
      ensures err == error
      ensures ratings == if error.None? then old(ratings) + [row] else old(ratings)
      ensures notes == old(notes) && profiles == old(profiles) && orders == old(orders)
    {
      err := error;
      if error.None? {
        ratings := ratings + [row];
      }
    }
  }
}
