/**
 * The friends page, src/app/friends/page.tsx: loading the accepted
 * friends, the incoming and the outgoing requests from the `friends`
 * table, each joined to the profiles of the other users, and the choice of
 * the page's wording by theme (src/lib/constants.ts).
 *
 * The table is read as it stands; each query may fail, which makes its
 * data null. The answers of the three profile queries are inputs.
 */
module FriendsPage {
  import opened Optional
  import opened JsStrings
  import opened Types
  import opened Seqs
  import opened Friends
  import ThemeSelector

  /** One entry of `THEME_CONTENT`. */
  datatype ThemeContent = ThemeContent(
    appTitle: string,
    appSubtitle: string,
    newEntry: string,
    categoryLabel: string,
    platformLabel: string,
    ratingLabel: string,
    dateLabel: string,
    submitText: string,
    submitIcon: string,
    itemStatus: string,
    statsTitle: string,
    filterLabel: string,
    footerText: string)

  /** `THEME_CONTENT` */
  const ThemeTable: map<string, ThemeContent> := map[
    "cosmos" := ThemeContent(
      "WATCHLOG",
      "Flight Log System v1.0",
      "New Mission Entry",
      "Mission Type",
      "Launch Platform",
      "Mission Rating",
      "Completion Date",
      "LOG MISSION",
      ">",
      "COMPLETE",
      "Mission Statistics",
      "Sector",
      "Every film is a flight. Every series is a mission. Log them all."),
    "art-deco" := ThemeContent(
      "THE PICTURE HOUSE",
      "Film Registry",
      "New Feature Entry",
      "Category",
      "Venue",
      "Rating",
      "Date Viewed",
      "ADD TO COLLECTION",
      "+",
      "SCREENED",
      "Collection Statistics",
      "Filter",
      "Where every picture tells a story worth preserving."),
    "sakura" := ThemeContent(
      "HANAMI",
      "Viewing Record",
      "New Entry",
      "Type",
      "Platform",
      "Rating",
      "Date",
      "RECORD",
      "*",
      "VIEWED",
      "Collection",
      "Filter",
      "To view the fleeting beauty of each story."),
    "neural" := ThemeContent(
      "NEURAL",
      "Sync Protocol v3.1",
      "New Data Entry",
      "Format",
      "Source",
      "Score",
      "Timestamp",
      "UPLOAD",
      "^",
      "SYNCED",
      "Analytics",
      "Query",
      "Every stream leaves a trace in the network.")
  ]

  const DefaultTheme: string := "cosmos"

  /** `localStorage.getItem('watchlog-theme') || 'cosmos'` */
  function SavedTheme(stored: Option<string>): (r: string)
    ensures r != ""
    ensures r == DefaultTheme || stored == Some(r)
    ensures stored.Some? && stored.value != "" ==> r == stored.value
    ensures stored.None? || stored.value == "" ==> r == DefaultTheme
  {
    OrElse(stored, DefaultTheme)
  }

  /** `THEME_CONTENT[currentTheme] || THEME_CONTENT['cosmos']` */
  function ContentFor(theme: string): (r: ThemeContent)
    ensures r in ThemeTable.Values
  {
    if theme in ThemeTable then ThemeTable[theme] else ThemeTable[DefaultTheme]
  }

  /** A key of the table selects its own wording, and any other theme the
      wording of 'cosmos'. */
  lemma ContentFallback(theme: string)
    ensures theme in ThemeTable ==> ContentFor(theme) == ThemeTable[theme]
    ensures theme !in ThemeTable ==> ContentFor(theme) == ContentFor(DefaultTheme)
    ensures ContentFor(theme).appTitle == "WATCHLOG" <==> theme !in ThemeTable || theme == DefaultTheme
  {
  }

  /** The theme picker offers 'art_deco', but the table's key is
      'art-deco': that theme gets the wording of 'cosmos'. Every other id
      the picker offers has its own wording. */
  lemma PickerIdsAgainstTable()
    ensures ThemeSelector.Themes[1].id == "art_deco"
    ensures ContentFor("art_deco") == ContentFor(DefaultTheme) != ThemeTable["art-deco"]
    ensures forall i :: 0 <= i < |ThemeSelector.Themes| && i != 1 ==> ThemeSelector.Themes[i].id in ThemeTable
  {
    assert "art_deco" !in ThemeTable;
  }

  /** `.eq('friend_id', me).eq('status', 'pending')` */
  function PendingTo(me: string): Friend -> bool
  {
    (row: Friend) => row.friendId == me && row.status == Pending
  }

  /** `.eq('user_id', me).eq('status', 'pending')` */
  function PendingFrom(me: string): Friend -> bool
  {
    (row: Friend) => row.userId == me && row.status == Pending
  }

  function Sender(row: Friend): string
  {
    row.userId
  }

  function Recipient(row: Friend): string
  {
    row.friendId
  }

  /** `requests.map(r => r.user_id)` */
  function SenderIds(requests: seq<Friend>): (r: seq<string>)
    ensures |r| == |requests| && forall k :: 0 <= k < |r| ==> r[k] == requests[k].userId
  {
    seq(|requests|, k requires 0 <= k < |requests| => requests[k].userId)
  }

  /** `requests.map(r => r.friend_id)` */
  function RecipientIds(requests: seq<Friend>): (r: seq<string>)
    ensures |r| == |requests| && forall k :: 0 <= k < |r| ==> r[k] == requests[k].friendId
  {
    seq(|requests|, k requires 0 <= k < |requests| => requests[k].friendId)
  }

  /** Incoming requests are the pending rows addressed to me, all of them;
      outgoing ones are the pending rows I sent, all of them. */
  lemma RequestsSpec(rows: seq<Friend>, me: string)
    ensures var r := Filter(rows, PendingTo(me));
      && (forall k :: 0 <= k < |r| ==> r[k] in rows && r[k].friendId == me && r[k].status == Pending)
      && (forall k :: 0 <= k < |rows| && rows[k].friendId == me && rows[k].status == Pending ==> rows[k] in r)
    ensures var r := Filter(rows, PendingFrom(me));
      && (forall k :: 0 <= k < |r| ==> r[k] in rows && r[k].userId == me && r[k].status == Pending)
      && (forall k :: 0 <= k < |rows| && rows[k].userId == me && rows[k].status == Pending ==> rows[k] in r)
  {
    FilterSpec(rows, PendingTo(me));
    FilterSpec(rows, PendingFrom(me));
  }

  /** `friendsWithProfiles` gives each accepted row, in order, the profile
      of the friend on its other side, or none when no profile has that id. */
  lemma FriendsGetFriendProfiles(rows: seq<Friend>, me: string, profiles: Option<seq<Profile>>, k: nat, x: string)
    requires var acc := AcceptedRows(rows, me); k < |acc| && Links(acc[k], me, x)
    ensures var j := Attach(AcceptedRows(rows, me), OtherPartyKey(me), profiles);
      && j[k].item == AcceptedRows(rows, me)[k]
      && (j[k].profile.Some? ==> j[k].profile.value.id == x)
      && (j[k].profile.None? <==> profiles.None? || forall p :: p in profiles.value ==> p.id != x)
  {
    OtherPartyOfLink(AcceptedRows(rows, me)[k], me, x);
    AttachSpec(AcceptedRows(rows, me), OtherPartyKey(me), profiles);
  }

  class FriendsPage {
    var friends: seq<Joined<Friend>>
    var incomingRequests: seq<Joined<Friend>>
    var outgoingRequests: seq<Joined<Friend>>
    var loading: bool
    var currentTheme: string

    constructor()
      ensures friends == [] && incomingRequests == [] && outgoingRequests == []
      ensures loading && currentTheme == DefaultTheme
    {
      friends := [];
      incomingRequests := [];
      outgoingRequests := [];
      loading := true;
      currentTheme := DefaultTheme;
    }

    /** The first effect: the stored theme, or 'cosmos'. */
    method LoadTheme(stored: Option<string>)
      modifies this
      ensures currentTheme == SavedTheme(stored)
      ensures friends == old(friends) && incomingRequests == old(incomingRequests)
      ensures outgoingRequests == old(outgoingRequests) && loading == old(loading)
    {
      currentTheme := SavedTheme(stored);
    }

    /** The wording shown: the current theme's own, or that of 'cosmos'
        when the table has no such key. */
    function Content(): (r: ThemeContent)
      reads this
      ensures currentTheme in ThemeTable ==> r == ThemeTable[currentTheme]
      ensures currentTheme !in ThemeTable ==> r == ThemeTable[DefaultTheme]
    {
      ContentFor(currentTheme)
    }

    /** `loadFriendsData(me)`. Each list is replaced only when its query
        answered and its id list is non-empty; otherwise it keeps its old
        value. `loading` ends false. */
    method LoadFriendsData(me: string, rows: seq<Friend>,
                           friendsFailed: bool, friendProfiles: Option<seq<Profile>>,
                           incomingFailed: bool, senderProfiles: Option<seq<Profile>>,
                           outgoingFailed: bool, recipientProfiles: Option<seq<Profile>>)
      modifies this
      ensures var acc := AcceptedRows(rows, me);
        friends == if !friendsFailed && acc != [] then Attach(acc, OtherPartyKey(me), friendProfiles)
                   else old(friends)
      ensures var inc := Filter(rows, PendingTo(me));
        incomingRequests == if !incomingFailed && inc != [] then Attach(inc, Sender, senderProfiles)
                            else old(incomingRequests)
      ensures var out := Filter(rows, PendingFrom(me));
        outgoingRequests == if !outgoingFailed && out != [] then Attach(out, Recipient, recipientProfiles)
                            else old(outgoingRequests)
      ensures !loading && currentTheme == old(currentTheme)
    {
      loading := true;
      if !friendsFailed {
        var friendships := AcceptedRows(rows, me);
        var friendIds := FriendIds(friendships, me);
        if |friendIds| > 0 {
          friends := Attach(friendships, OtherPartyKey(me), friendProfiles);
        }
      }
      if !incomingFailed {
        var incoming := Filter(rows, PendingTo(me));
        var senderIds := SenderIds(incoming);
        if |senderIds| > 0 {
          incomingRequests := Attach(incoming, Sender, senderProfiles);
        }
      }
      if !outgoingFailed {
        var outgoing := Filter(rows, PendingFrom(me));
        var recipientIds := RecipientIds(outgoing);
        if |recipientIds| > 0 {
          outgoingRequests := Attach(outgoing, Recipient, recipientProfiles);
        }
      }
      loading := false;
    }
  }
}
