/** Question-and-answer threads under a note (src/components/CommentThread.tsx): building the
    two-level thread list from the fetched comments, posting and deleting, and the role badge. */
module Comments {
  import opened Wrappers
  import opened JsText

  /** A fetched comment; a NULL parent_id is None. */
  datatype Comment = Comment(id: string, content: string, userId: string, parentId: Option<string>)

  /** A top-level comment with its replies. */
  datatype Thread = Thread(root: Comment, replies: seq<Comment>)

  /** The key under which the reduce collects top-level comments, in the same record that holds
      the reply buckets keyed by parent id. */
  const RootKey := "root"

  const SellerLabel := "出品者"
  const QuestionerLabel := "質問者"

  /** `!comment.parent_id`: NULL and the empty string both make a top-level comment. */
  predicate IsRoot(c: Comment) {
    c.parentId.None? || c.parentId == Some("")
  }

  /** The accumulator key the reduce pushes the comment under. */
  function BucketKey(c: Comment): string {
    if IsRoot(c) then RootKey else c.parentId.value
  }

  /** The bucket the reduce builds under the key: the comments pushed there, in fetch order. */
  function Bucket(data: seq<Comment>, key: string): (r: seq<Comment>)
    ensures forall k :: 0 <= k < |r| ==> BucketKey(r[k]) == key
  {
    if |data| == 0 then []
    else Bucket(data[..|data| - 1], key) + (if BucketKey(data[|data| - 1]) == key then [data[|data| - 1]] else [])
  }

  /** A bucket holds fetched comments only, and every fetched comment with its key. */
  lemma {:induction false} BucketMembers(data: seq<Comment>, key: string)
    ensures forall k :: 0 <= k < |Bucket(data, key)| ==> Bucket(data, key)[k] in data
    ensures forall i :: 0 <= i < |data| && BucketKey(data[i]) == key ==> data[i] in Bucket(data, key)
  {
    if |data| > 0 {
      var prefix := data[..|data| - 1];
      BucketMembers(prefix, key);
      assert forall i :: 0 <= i < |prefix| ==> data[i] == prefix[i];
    }
  }

  /** The thread list the component shows: the top-level bucket, each with the bucket of its id. */
  function Threads(data: seq<Comment>): (ts: seq<Thread>)
    ensures |ts| == |Bucket(data, RootKey)|
    ensures forall k :: 0 <= k < |ts| ==> ts[k].root == Bucket(data, RootKey)[k] && ts[k].replies == Bucket(data, ts[k].root.id)
  {
    var roots := Bucket(data, RootKey);
    seq(|roots|, k requires 0 <= k < |roots| => Thread(roots[k], Bucket(data, roots[k].id)))
  }

  lemma BucketStep(data: seq<Comment>, i: nat, key: string)
    requires i < |data|
    ensures Bucket(data[..i + 1], key) == Bucket(data[..i], key) + (if BucketKey(data[i]) == key then [data[i]] else [])
  {
    assert data[..i + 1][..i] == data[..i];
  }

  /** `acc[key] || []`: the bucket stored under the key, or none yet. */
  function Lookup(buckets: map<string, seq<Comment>>, key: string): seq<Comment> {
    if key in buckets then buckets[key] else []
  }

  /** The reduce: each comment pushed onto the bucket of its key, created on first use. */
  method CollectBuckets(data: seq<Comment>) returns (buckets: map<string, seq<Comment>>)
    ensures forall key :: Lookup(buckets, key) == Bucket(data, key)
  {
    buckets := map[];
    var i := 0;
    while i < |data|
      invariant 0 <= i <= |data|
      invariant forall key :: Lookup(buckets, key) == Bucket(data[..i], key)
    {
      var c := data[i];
      var key := if c.parentId.None? || c.parentId == Some("") then RootKey else c.parentId.value;
      var bucket := if key in buckets then buckets[key] else [];
      buckets := buckets[key := bucket + [c]];
      forall k
        ensures Lookup(buckets, k) == Bucket(data[..i + 1], k)
      {
        BucketStep(data, i, k);
      }
      i := i + 1;
    }
    assert data[..i] == data;
  }

  /** The reduce into buckets followed by the forEach that attaches each root's replies. */
  method BuildThreads(data: seq<Comment>) returns (threads: seq<Thread>)
    ensures threads == Threads(data)
  {
    var buckets := CollectBuckets(data);
    var roots := Lookup(buckets, RootKey);
    threads := [];
    var j := 0;
    while j < |roots|
      invariant 0 <= j <= |roots|
      invariant |threads| == j
      invariant forall k :: 0 <= k < j ==> threads[k] == Thread(roots[k], Lookup(buckets, roots[k].id))
    {
      var replies := Lookup(buckets, roots[j].id);
      threads := threads + [Thread(roots[j], replies)];
      j := j + 1;
    }
  }

  /** No fetched comment uses the reduce's reserved key as its id or parent (ids are UUIDs). */
  predicate NoReservedIds(data: seq<Comment>) {
    forall i :: 0 <= i < |data| ==> data[i].id != RootKey && data[i].parentId != Some(RootKey)
  }

  /** The thread roots are exactly the top-level comments, and each root's replies are exactly the
      comments whose parent is that root, in fetch order. */
  lemma ThreadsAreParentless(data: seq<Comment>)
    requires NoReservedIds(data)
    ensures forall k :: 0 <= k < |Threads(data)| ==> IsRoot(Threads(data)[k].root) && Threads(data)[k].root in data
    ensures forall i :: 0 <= i < |data| && IsRoot(data[i]) ==>
      exists k :: 0 <= k < |Threads(data)| && Threads(data)[k].root == data[i]
    ensures forall k, m :: 0 <= k < |Threads(data)| && 0 <= m < |Threads(data)[k].replies| ==>
      Threads(data)[k].replies[m].parentId == Some(Threads(data)[k].root.id) && Threads(data)[k].replies[m] in data
  {
    var roots := Bucket(data, RootKey);
    BucketMembers(data, RootKey);
    forall i | 0 <= i < |data| && IsRoot(data[i])
      ensures exists k :: 0 <= k < |Threads(data)| && Threads(data)[k].root == data[i]
    {
      var k :| 0 <= k < |roots| && roots[k] == data[i];
      assert Threads(data)[k].root == data[i];
    }
    forall k, m | 0 <= k < |Threads(data)| && 0 <= m < |Threads(data)[k].replies|
      ensures Threads(data)[k].replies[m].parentId == Some(Threads(data)[k].root.id)
      ensures Threads(data)[k].replies[m] in data
    {
      BucketMembers(data, Threads(data)[k].root.id);
      var r := Threads(data)[k].replies[m];
      assert BucketKey(r) == Threads(data)[k].root.id;
      var i :| 0 <= i < |data| && data[i] == r;
      assert !IsRoot(r);
    }
  }

  /** A reply whose parent is not among the thread roots appears nowhere in the threads. */
  lemma OrphansDropped(data: seq<Comment>, c: Comment)
    requires !IsRoot(c) && c.parentId.value != RootKey
    requires forall k :: 0 <= k < |Threads(data)| ==> Threads(data)[k].root.id != c.parentId.value
    ensures forall k :: 0 <= k < |Threads(data)| ==> Threads(data)[k].root != c && c !in Threads(data)[k].replies
  {
    forall k | 0 <= k < |Threads(data)|
      ensures Threads(data)[k].root != c && c !in Threads(data)[k].replies
    {
      assert BucketKey(Threads(data)[k].root) == RootKey;
    }
  }

  /** A new top-level comment is appended with no replies. */
  function AddRoot(threads: seq<Thread>, c: Comment): (r: seq<Thread>)
    ensures |r| == |threads| + 1 && r[..|threads|] == threads && r[|threads|] == Thread(c, [])
  {
    threads + [Thread(c, [])]
  }

  /** A new reply goes to the end of its parent's replies; every other thread is unchanged. */
  function AddReply(threads: seq<Thread>, parentId: string, c: Comment): (r: seq<Thread>)
    ensures |r| == |threads|
    ensures forall k :: 0 <= k < |threads| ==>
      && r[k].root == threads[k].root
      && (threads[k].root.id == parentId ==> r[k].replies == threads[k].replies + [c])
      && (threads[k].root.id != parentId ==> r[k] == threads[k])
  {
    seq(|threads|, k requires 0 <= k < |threads| =>
      if threads[k].root.id == parentId then threads[k].(replies := threads[k].replies + [c]) else threads[k])
  }

  function WithoutComment(cs: seq<Comment>, id: string): (r: seq<Comment>)
    ensures |r| <= |cs|
    ensures forall k :: 0 <= k < |r| ==> r[k].id != id && r[k] in cs
    ensures forall i :: 0 <= i < |cs| && cs[i].id != id ==> cs[i] in r
  {
    if |cs| == 0 then []
    else (if cs[0].id == id then [] else [cs[0]]) + WithoutComment(cs[1..], id)
  }

  /** Deleting a top-level comment drops exactly the threads with that root id. */
  function DeleteRoot(threads: seq<Thread>, id: string): (r: seq<Thread>)
    ensures |r| <= |threads|
    ensures forall k :: 0 <= k < |r| ==> r[k].root.id != id && r[k] in threads
    ensures forall i :: 0 <= i < |threads| && threads[i].root.id != id ==> threads[i] in r
  {
    if |threads| == 0 then []
    else (if threads[0].root.id == id then [] else [threads[0]]) + DeleteRoot(threads[1..], id)
  }

  /** The comment filter works comment by comment: filtering two parts gives the two results one
      after the other (so order and repeats are kept), and a single comment is kept exactly when
      its id differs. */
  lemma {:induction false} WithoutCommentConcat(a: seq<Comment>, b: seq<Comment>, id: string)
    ensures WithoutComment(a + b, id) == WithoutComment(a, id) + WithoutComment(b, id)
    ensures |a| == 1 ==> WithoutComment(a, id) == if a[0].id == id then [] else a
  {
    if |a| > 0 {
      assert (a + b)[0] == a[0];
      assert (a + b)[1..] == a[1..] + b;
      WithoutCommentConcat(a[1..], b, id);
      var head := if a[0].id == id then [] else [a[0]];
      assert WithoutComment(a, id) == head + WithoutComment(a[1..], id);
      assert WithoutComment(a + b, id) == head + WithoutComment(a[1..] + b, id);
    } else {
      assert a + b == b;
    }
    if |a| == 1 {
      assert a[1..] == [];
      assert [a[0]] + [] == a;
    }
  }

  /** The thread filter works thread by thread in the same way. */
  lemma {:induction false} DeleteRootConcat(a: seq<Thread>, b: seq<Thread>, id: string)
    ensures DeleteRoot(a + b, id) == DeleteRoot(a, id) + DeleteRoot(b, id)
    ensures |a| == 1 ==> DeleteRoot(a, id) == if a[0].root.id == id then [] else a
  {
    if |a| > 0 {
      assert (a + b)[0] == a[0];
      assert (a + b)[1..] == a[1..] + b;
      DeleteRootConcat(a[1..], b, id);
      var head := if a[0].root.id == id then [] else [a[0]];
      assert DeleteRoot(a, id) == head + DeleteRoot(a[1..], id);
      assert DeleteRoot(a + b, id) == head + DeleteRoot(a[1..] + b, id);
    } else {
      assert a + b == b;
    }
    if |a| == 1 {
      assert a[1..] == [];
      assert [a[0]] + [] == a;
    }
  }

  /** Deleting a reply removes it from its parent's replies only. */
  function DeleteReply(threads: seq<Thread>, parentId: string, id: string): (r: seq<Thread>)
    ensures |r| == |threads|
    ensures forall k :: 0 <= k < |threads| ==>
      && r[k].root == threads[k].root
      && (threads[k].root.id == parentId ==> r[k].replies == WithoutComment(threads[k].replies, id))
      && (threads[k].root.id != parentId ==> r[k] == threads[k])
  {
    seq(|threads|, k requires 0 <= k < |threads| =>
      if threads[k].root.id == parentId then threads[k].(replies := WithoutComment(threads[k].replies, id)) else threads[k])
  }

  lemma {:induction false} WithoutAbsentComment(cs: seq<Comment>, id: string)
    requires forall i :: 0 <= i < |cs| ==> cs[i].id != id
    ensures WithoutComment(cs, id) == cs
  {
    if |cs| > 0 {
      WithoutAbsentComment(cs[1..], id);
      assert [cs[0]] + cs[1..] == cs;
    }
  }

  lemma {:induction false} WithoutAppendedComment(cs: seq<Comment>, c: Comment)
    ensures WithoutComment(cs + [c], c.id) == WithoutComment(cs, c.id)
  {
    if |cs| == 0 {
      assert [] + [c] == [c];
      assert [c][1..] == [];
    } else {
      assert (cs + [c])[1..] == cs[1..] + [c];
      WithoutAppendedComment(cs[1..], c);
    }
  }

  lemma {:induction false} DeleteAbsentRoot(threads: seq<Thread>, id: string)
    requires forall i :: 0 <= i < |threads| ==> threads[i].root.id != id
    ensures DeleteRoot(threads, id) == threads
  {
    if |threads| > 0 {
      DeleteAbsentRoot(threads[1..], id);
      assert [threads[0]] + threads[1..] == threads;
    }
  }

  lemma {:induction false} DeleteAppendedRoot(threads: seq<Thread>, t: Thread)
    ensures DeleteRoot(threads + [t], t.root.id) == DeleteRoot(threads, t.root.id)
  {
    if |threads| == 0 {
      assert [] + [t] == [t];
      assert [t][1..] == [];
    } else {
      assert (threads + [t])[1..] == threads[1..] + [t];
      DeleteAppendedRoot(threads[1..], t);
    }
  }

  /** Posting a top-level comment with a new id and then deleting it restores the threads. */
  lemma AddThenDeleteRoot(threads: seq<Thread>, c: Comment)
    requires forall i :: 0 <= i < |threads| ==> threads[i].root.id != c.id
    ensures DeleteRoot(AddRoot(threads, c), c.id) == threads
  {
    DeleteAppendedRoot(threads, Thread(c, []));
    DeleteAbsentRoot(threads, c.id);
  }

  /** Posting a reply with a new id and then deleting it restores the threads. */
  lemma AddThenDeleteReply(threads: seq<Thread>, parentId: string, c: Comment)
    requires forall k, m :: 0 <= k < |threads| && 0 <= m < |threads[k].replies| ==> threads[k].replies[m].id != c.id
    ensures DeleteReply(AddReply(threads, parentId, c), parentId, c.id) == threads
  {
    var r := DeleteReply(AddReply(threads, parentId, c), parentId, c.id);
    forall k | 0 <= k < |threads|
      ensures r[k] == threads[k]
    {
      if threads[k].root.id == parentId {
        WithoutAppendedComment(threads[k].replies, c);
        WithoutAbsentComment(threads[k].replies, c.id);
      }
    }
  }

  lemma {:induction false} BucketAppend(data: seq<Comment>, c: Comment, key: string)
    ensures Bucket(data + [c], key) == Bucket(data, key) + (if BucketKey(c) == key then [c] else [])
  {
    assert (data + [c])[..|data|] == data;
  }

  lemma {:induction false} EmptyBucket(data: seq<Comment>, key: string)
    requires forall i :: 0 <= i < |data| ==> BucketKey(data[i]) != key
    ensures Bucket(data, key) == []
  {
    if |data| > 0 {
      EmptyBucket(data[..|data| - 1], key);
    }
  }

  /** The page's local update after posting a top-level comment agrees with fetching the
      comments again: the new comment, last by created_at, becomes the last thread. */
  lemma AddRootMatchesRefetch(data: seq<Comment>, c: Comment)
    requires NoReservedIds(data) && c.id != RootKey && IsRoot(c)
    requires forall i :: 0 <= i < |data| ==> data[i].parentId != Some(c.id)
    ensures Threads(data + [c]) == AddRoot(Threads(data), c)
  {
    var roots := Bucket(data, RootKey);
    BucketAppend(data, c, RootKey);
    assert Bucket(data + [c], RootKey) == roots + [c];
    var ts, rs := Threads(data + [c]), AddRoot(Threads(data), c);
    assert |ts| == |rs|;
    BucketMembers(data, RootKey);
    forall k | 0 <= k < |roots|
      ensures ts[k] == rs[k]
    {
      assert roots[k] in data;
      BucketAppend(data, c, roots[k].id);
    }
    BucketAppend(data, c, c.id);
    EmptyBucket(data, c.id);
    assert ts[|roots|] == rs[|roots|];
  }

  /** Likewise for a reply: it lands at the end of its parent's replies. */
  lemma AddReplyMatchesRefetch(data: seq<Comment>, parentId: string, c: Comment)
    requires c.parentId == Some(parentId) && parentId != "" && parentId != RootKey
    ensures Threads(data + [c]) == AddReply(Threads(data), parentId, c)
  {
    var roots := Bucket(data, RootKey);
    BucketAppend(data, c, RootKey);
    assert Bucket(data + [c], RootKey) == roots;
    var ts, rs := Threads(data + [c]), AddReply(Threads(data), parentId, c);
    forall k | 0 <= k < |roots|
      ensures ts[k] == rs[k]
    {
      BucketAppend(data, c, roots[k].id);
    }
  }

  /** handleSubmit's `if (parentId)`: an empty parent id counts as none. */
  predicate ParentGiven(parentId: Option<string>) {
    parentId.Some? && parentId.value != ""
  }

  /** The component state handleSubmit and handleDelete read and write. */
  datatype CommentView = CommentView(threads: seq<Thread>, draft: string, replyTo: Option<string>)

  /** handleSubmit: a blank draft or a post in flight does nothing; signed out or a failed insert
      keeps the view; otherwise the trimmed draft is inserted (the database assigns `newId`), shown
      locally, and the draft and reply target are cleared. */
  function SubmitComment(view: CommentView, loading: bool, user: Option<string>, parentId: Option<string>,
                         inserted: Result<string>): (r: CommentView)
    ensures Blank(view.draft) || loading ==> r == view
    ensures !Blank(view.draft) && !loading && (user.None? || inserted.Err?) ==> r == view
    ensures !Blank(view.draft) && !loading && user.Some? && inserted.Ok? ==>
      var posted := Comment(inserted.value, Trim(view.draft), user.value, parentId);
      && posted.content != [] && r.draft == "" && r.replyTo.None?
      && (ParentGiven(parentId) ==> r.threads == AddReply(view.threads, parentId.value, posted))
      && (!ParentGiven(parentId) ==> r.threads == AddRoot(view.threads, posted))
  {
    if Trim(view.draft) == [] || loading then view
    else if user.None? || inserted.Err? then view
    else
      var posted := Comment(inserted.value, Trim(view.draft), user.value, parentId);
      var threads := if ParentGiven(parentId) then AddReply(view.threads, parentId.value, posted)
                     else AddRoot(view.threads, posted);
      CommentView(threads, "", None)
  }

  /** handleDelete: a failed delete keeps the threads. */
  function DeleteComment(threads: seq<Thread>, commentId: string, parentId: Option<string>,
                         deleteError: Option<string>): (r: seq<Thread>)
    ensures deleteError.Some? ==> r == threads
    ensures deleteError.None? && ParentGiven(parentId) ==> r == DeleteReply(threads, parentId.value, commentId)
    ensures deleteError.None? && !ParentGiven(parentId) ==> r == DeleteRoot(threads, commentId)
  {
    if deleteError.Some? then threads
    else if ParentGiven(parentId) then DeleteReply(threads, parentId.value, commentId)
    else DeleteRoot(threads, commentId)
  }

  /** getUserRole: the seller's badge exactly for the note's seller (before the seller id has
      loaded, everyone is a questioner). */
  function UserRole(userId: string, sellerId: Option<string>): (role: string)
    ensures role == SellerLabel <==> sellerId == Some(userId)
    ensures role == QuestionerLabel <==> sellerId != Some(userId)
  {
    if sellerId == Some(userId) then SellerLabel else QuestionerLabel
  }
}
