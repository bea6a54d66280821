/**
 * One friend, src/components/friends/FriendCard.tsx: the unfriend button
 * first shows a confirmation, and confirming deletes the friendship's row;
 * the parent is told only when the delete went through.
 */
module FriendCard {
  import opened Optional
  import opened Types
  import opened JsStrings
  import opened Friends

  class FriendCard {
    const friend: Option<Profile>
    const friendshipId: string
    var loading: bool
    var showConfirm: bool

    constructor(f: Option<Profile>, id: string)
      ensures friend == f && friendshipId == id && !loading && !showConfirm
    {
      friend := f;
      friendshipId := id;
      loading := false;
      showConfirm := false;
    }

    /** The ✕ button. */
    method AskToConfirm()
      modifies this
      ensures showConfirm && loading == old(loading)
    {
      showConfirm := true;
    }

    /** The Cancel button. */
    method Cancel()
      modifies this
      ensures !showConfirm && loading == old(loading)
    {
      showConfirm := false;
    }

    /** `handleUnfriend`, reachable only through the Confirm button, which
        is shown while `showConfirm` holds and disabled while loading;
        returns whether `onUnfriend` was called. */
    method Unfriend(table: FriendsTable, failed: bool) returns (unfriended: bool)
      requires showConfirm && !loading
      modifies this, table
      ensures table.rows == if failed then old(table.rows) else DeleteRowById(old(table.rows), friendshipId)
      ensures unfriended == !failed
      ensures !loading && !showConfirm
    {
      loading := true;
      table.Delete(friendshipId, failed);
      unfriended := !failed;
      loading := false;
      showConfirm := false;
    }

    /** The letter in the avatar: the first letter of the shown name,
        uppercased, never missing. */
    function Avatar(): (r: string)
      ensures |r| == 1 && r[0] == UpperChar(DisplayName(friend)[0])
    {
      AvatarOfDisplayName(friend);
      AvatarLetter(DisplayName(friend))
    }
  }

  /** Unfriending removes exactly the friendship's row: no row with its id
      is left, every other row stays, and the table keeps one row per pair. */
  lemma UnfriendRemovesOneRow(rows: seq<Friend>, friendshipId: string)
    requires PairUnique(rows)
    ensures var r := DeleteRowById(rows, friendshipId);
      && PairUnique(r)
      && (forall k :: 0 <= k < |r| ==> r[k].id != friendshipId && r[k] in rows)
      && (forall k :: 0 <= k < |rows| && rows[k].id != friendshipId ==> rows[k] in r)
  {
    DeleteRowByIdSpec(rows, friendshipId);
    DeleteKeepsUnique(rows, friendshipId);
  }
}
