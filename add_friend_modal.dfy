/**
 * The add-friend dialog of src/components/friends/AddFriendModal.tsx: a
 * search of user profiles that never lists the current user, and a send
 * that looks for a row of the pair in either direction and inserts a
 * pending request only when there is none.
 *
 * The backend answers are inputs: the search reply, whether the lookup
 * failed, and the insert's error message if it had one. The inserted row's
 * id and time stamps are the database defaults, given as `newId` and `now`.
 */
module AddFriendModal {
  import opened Optional
  import opened Types
  import opened Seqs
  import opened Friends

  const SentMessage: string := "Friend request sent!"

  /** The reply of `rpc('search_users', …)`: an error with its message, or
      data that may be null. */
  datatype SearchReply = SearchFailed(message: string) | SearchData(data: Option<seq<UserHit>>)

  function HasOtherUserId(id: string): UserHit -> bool
  {
    (u: UserHit) => u.id != id
  }

  /** `hits.filter(u => u.id !== id)`: no hit has the id, and every other
      hit is kept. */
  function WithoutId(hits: seq<UserHit>, id: string): (r: seq<UserHit>)
    ensures forall k :: 0 <= k < |r| ==> r[k].id != id && r[k] in hits
    ensures forall k :: 0 <= k < |hits| && hits[k].id != id ==> hits[k] in r
  {
    FilterSpec(hits, HasOtherUserId(id));
    Filter(hits, HasOtherUserId(id))
  }

  /** The message set when a row of the pair already exists. A rejected
      request sets none, yet still blocks a new one. */
  function ExistingMessage(status: Status): (r: Option<string>)
    ensures r.None? <==> status == Rejected
    ensures status == Accepted ==> r == Some("Already friends!")
    ensures status == Pending ==> r == Some("Friend request already pending")
  {
    match status
    case Accepted => Some("Already friends!")
    case Pending => Some("Friend request already pending")
    case Rejected => None
  }

  /** The `existing` row: the lookup's data, which is null when the lookup
      failed, whatever the table holds. */
  function Existing(rows: seq<Friend>, me: string, target: string, lookupFailed: bool): (r: Option<Friend>)
    ensures r.Some? ==> !lookupFailed && r.value in rows && Links(r.value, me, target)
  {
    if lookupFailed then None else Single(rows, me, target)
  }

  /** The table after `sendFriendRequest`: the new row is appended unless a
      row of the pair was found or the insert failed. */
  function SendRows(rows: seq<Friend>, me: string, target: string, lookupFailed: bool,
                    insertFailed: bool, row: Friend): (r: seq<Friend>)
    ensures r == rows || r == rows + [row]
    ensures r == rows + [row] <==> Existing(rows, me, target, lookupFailed).None? && !insertFailed
  {
    if Existing(rows, me, target, lookupFailed).Some? || insertFailed then rows else rows + [row]
  }

  /** With the lookup answering, a send inserts exactly when no row joins
      the two users, and the table then still has one row per pair. */
  lemma SendKeepsPairsUnique(rows: seq<Friend>, me: string, target: string,
                             insertFailed: bool, row: Friend)
    requires PairUnique(rows)
    requires row.userId == me && row.friendId == target
    ensures var r := SendRows(rows, me, target, false, insertFailed, row);
      && PairUnique(r)
      && (r == rows + [row] <==> !insertFailed && forall x :: x in rows ==> !Links(x, me, target))
  {
    SingleFindsPair(rows, me, target);
    if Single(rows, me, target).None? && !insertFailed {
      AppendKeepsUnique(rows, row);
    }
  }

  /** When the lookup fails its data is null, so the insert goes ahead
      even for a pair that already has a row, and the table then holds two
      rows for it. */
  lemma LookupFailureDuplicates(rows: seq<Friend>, me: string, target: string, row: Friend, k: nat)
    requires k < |rows| && Links(rows[k], me, target)
    requires row.userId == me && row.friendId == target
    ensures !PairUnique(SendRows(rows, me, target, true, false, row))
  {
    var r := rows + [row];
    if PairUnique(r) {
      PrefixUnique(r, k);
      var t := r[k..];
      assert t[0] == rows[k];
      assert t[1..] == r[k + 1..];
      assert t[1..][|rows| - k - 1] == row;
      assert row in t[1..] && Links(row, t[0].userId, t[0].friendId);
    }
  }

  /** Every suffix of a table with one row per pair has one row per pair. */
  lemma {:induction false} PrefixUnique(rows: seq<Friend>, k: nat)
    requires k <= |rows| && PairUnique(rows)
    ensures PairUnique(rows[k..])
    decreases k
  {
    if k > 0 {
      PrefixUnique(rows[1..], k - 1);
      assert rows[1..][k - 1..] == rows[k..];
    }
  }

  class AddFriendModal {
    const currentUserId: string
    var query: string
    var results: seq<UserHit>
    var loading: bool
    var sending: Option<string>
    var error: Option<string>
    var success: Option<string>

    /** The results never list the current user. */
    ghost predicate Valid()
      reads this
    {
      forall k :: 0 <= k < |results| ==> results[k].id != currentUserId
    }

    constructor(me: string)
      ensures currentUserId == me && Valid()
      ensures query == "" && results == [] && !loading
      ensures sending == None && error == None && success == None
    {
      currentUserId := me;
      query := "";
      results := [];
      loading := false;
      sending := None;
      error := None;
      success := None;
    }

    method SetQuery(q: string)
      requires Valid()
      modifies this
      ensures Valid()
      ensures query == q
      ensures results == old(results) && loading == old(loading) && sending == old(sending)
      ensures error == old(error) && success == old(success)
    {
      query := q;
    }

    /** `handleSearch`: a query shorter than 2 characters does nothing;
        otherwise an error keeps the old results and shows its message,
        and data (null read as none) replaces the results without the
        current user. */
    method Search(reply: SearchReply)
      requires Valid()
      modifies this
      ensures Valid()
      ensures |old(query)| < 2 ==>
        && results == old(results) && loading == old(loading) && error == old(error)
      ensures |old(query)| >= 2 && reply.SearchFailed? ==>
        results == old(results) && error == Some(reply.message) && !loading
      ensures |old(query)| >= 2 && reply.SearchData? ==>
        results == WithoutId(reply.data.GetOr([]), currentUserId) && error == None && !loading
      ensures query == old(query) && sending == old(sending) && success == old(success)
    {
      if |query| < 2 {
        return;
      }
      loading := true;
      error := None;
      if reply.SearchFailed? {
        error := Some(reply.message);
      } else {
        results := WithoutId(reply.data.GetOr([]), currentUserId);
      }
      loading := false;
    }

    /** `sendFriendRequest(friendId)`: returns whether `onRequestSent` was
        called. A row of the pair found by the lookup sets its status's
        message and inserts nothing; otherwise one pending row from me to
        the target is inserted, and on success the target leaves the
        results. `sending` ends null on every path. */
    method Send(friendId: string, table: FriendsTable, lookupFailed: bool,
                insertError: Option<string>, newId: string, now: string)
      returns (requestSent: bool)
      requires Valid()
      modifies this, table
      ensures Valid()
      ensures var existing := Existing(old(table.rows), currentUserId, friendId, lookupFailed);
        && table.rows == SendRows(old(table.rows), currentUserId, friendId, lookupFailed, insertError.Some?,
                                  Friend(newId, currentUserId, friendId, Pending, now, now))
        && requestSent == (existing.None? && insertError.None?)
        && error == (if existing.Some? then ExistingMessage(existing.value.status) else insertError)
        && success == (if requestSent then Some(SentMessage) else old(success))
        && results == (if requestSent then WithoutId(old(results), friendId) else old(results))
      ensures sending == None && query == old(query) && loading == old(loading)
    {
      sending := Some(friendId);
      error := None;
      var existing := Existing(table.rows, currentUserId, friendId, lookupFailed);
      if existing.Some? {
        error := ExistingMessage(existing.value.status);
        sending := None;
        return false;
      }
      table.Insert(Friend(newId, currentUserId, friendId, Pending, now, now), insertError.Some?);
      if insertError.Some? {
        error := insertError;
        requestSent := false;
      } else {
        success := Some(SentMessage);
        requestSent := true;
        results := WithoutId(results, friendId);
      }
      sending := None;
    }

    /** The effect run when the dialog closes: query, results and both
        messages are cleared. */
    method Close()
      requires Valid()
      modifies this
      ensures Valid()
      ensures query == "" && results == [] && error == None && success == None
      ensures loading == old(loading) && sending == old(sending)
    {
      query := "";
      results := [];
      error := None;
      success := None;
    }
  }
}
