/**
 * One incoming request, src/components/friends/FriendRequestCard.tsx:
 * accepting or rejecting writes the new status and the time of the
 * answer to the request's row, and the parent is told only when the write
 * went through.
 */
module FriendRequestCard {
  import opened Optional
  import opened Types
  import opened JsStrings
  import opened Friends

  class FriendRequestCard {
    const request: Friend
    /** `request.sender`; `None` is the empty profile of a failed join. */
    const sender: Option<Profile>
    var loading: bool

    constructor(r: Friend, s: Option<Profile>)
      ensures request == r && sender == s && !loading
    {
      request := r;
      sender := s;
      loading := false;
    }

    /** `handleResponse(status)`: only 'accepted' or 'rejected' is written,
        to the row with the request's id; returns whether `onRespond` was
        called, which is when the update reported no error. */
    method Respond(status: Status, table: FriendsTable, now: string, failed: bool)
      returns (responded: bool)
      requires status != Pending
      modifies this, table
      ensures table.rows == if failed then old(table.rows)
                            else SetStatusById(old(table.rows), request.id, status, now)
      ensures responded == !failed
      ensures !loading
    {
      loading := true;
      table.SetStatus(request.id, status, now, failed);
      responded := !failed;
      loading := false;
    }

    /** The letter in the avatar: the first letter of the shown name,
        uppercased, never missing. */
    function Avatar(): (r: string)
      ensures |r| == 1 && r[0] == UpperChar(DisplayName(sender)[0])
    {
      AvatarOfDisplayName(sender);
      AvatarLetter(DisplayName(sender))
    }
  }

  /** An answer touches only the rows with the request's id, and leaves
      every row's pair of users as it was. */
  lemma RespondTouchesOneRow(rows: seq<Friend>, request: Friend, status: Status, now: string)
    requires PairUnique(rows)
    ensures var r := SetStatusById(rows, request.id, status, now);
      && PairUnique(r)
      && (forall k :: 0 <= k < |rows| && rows[k].id != request.id ==> r[k] == rows[k])
      && (forall k :: 0 <= k < |rows| && rows[k].id == request.id ==> r[k].status == status)
  {
    SetStatusKeepsUnique(rows, request.id, status, now);
  }
}
