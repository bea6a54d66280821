/**
 * The friends' activity feed, src/components/friends/ActivityFeed.tsx:
 * find my accepted friendships, fetch my friends' entries, and attach to
 * each entry the profile of its owner.
 *
 * The `friends` table is read as it stands (its query may fail, making
 * the data null); the entries and profiles answers are inputs, including
 * the server-side ordering and limit of the entries query.
 */
module ActivityFeed {
  import opened Optional
  import opened Types
  import opened Seqs
  import opened Friends

  function Owner(e: Entry): string
  {
    e.userId
  }

  /** The feed a run ends with: empty when I have no accepted friendship
      or my friends have no entries; otherwise one item per entry, in
      order, with the profile whose id is the entry's owner, if any. */
  function FeedOf(me: string, rows: seq<Friend>, friendsFailed: bool,
                  entries: Option<seq<Entry>>, profiles: Option<seq<Profile>>): (r: seq<Joined<Entry>>)
    ensures friendsFailed || AcceptedRows(rows, me) == [] ==> r == []
    ensures entries.None? || entries.value == [] ==> r == []
    ensures !friendsFailed && AcceptedRows(rows, me) != [] && entries.Some? ==>
      && |r| == |entries.value|
      && (forall k :: 0 <= k < |r| ==> r[k].item == entries.value[k])
      && (forall k :: 0 <= k < |r| && r[k].profile.Some? ==> r[k].profile.value.id == entries.value[k].userId)
      && (forall k :: 0 <= k < |r| ==>
            (r[k].profile.None? <==> profiles.None? || forall p :: p in profiles.value ==> p.id != entries.value[k].userId))
  {
    if friendsFailed || AcceptedRows(rows, me) == [] then []
    else if entries.None? || entries.value == [] then []
    else
      AttachSpec(entries.value, Owner, profiles);
      Attach(entries.value, Owner, profiles)
  }

  class ActivityFeed {
    var feed: seq<Joined<Entry>>
    var loading: bool

    constructor()
      ensures feed == [] && loading
    {
      feed := [];
      loading := true;
    }

    /** `loadFeed()`: nothing happens without a user; otherwise the feed
        is replaced and `loading` ends false on every path. `friendIds`
        only feeds the two backend queries, whose answers are inputs. */
    method LoadFeed(currentUser: Option<string>, rows: seq<Friend>, friendsFailed: bool,
                    entries: Option<seq<Entry>>, profiles: Option<seq<Profile>>)
      modifies this
      ensures currentUser.None? ==> feed == old(feed) && loading == old(loading)
      ensures currentUser.Some? ==>
        feed == FeedOf(currentUser.value, rows, friendsFailed, entries, profiles) && !loading
    {
      if currentUser.None? {
        return;
      }
      var me := currentUser.value;
      var friends: Option<seq<Friend>> := if friendsFailed then None else Some(AcceptedRows(rows, me));
      if friends.None? || |friends.value| == 0 {
        feed := [];
        loading := false;
        return;
      }
      var friendIds := FriendIds(friends.value, me);
      if entries.None? || |entries.value| == 0 {
        feed := [];
        loading := false;
        return;
      }
      feed := Attach(entries.value, Owner, profiles);
      loading := false;
    }
  }
}
