/**
 * The `friends` table shared by the friendship components, and the pure
 * pieces they have in common: who the other party of a row is, the lookup
 * of a profile by id, the join of rows to profiles, and the name a card
 * shows for a profile.
 *
 * The table is a sequence of rows whose order stands for whatever order
 * the backend returns them in. Each write is a method that may fail, and
 * a failed write leaves the table as it was.
 */
module Friends {
  import opened Optional
  import opened JsStrings
  import opened Types
  import opened Seqs

  /** Whether a row joins users `a` and `b`, in either direction. */
  predicate Links(row: Friend, a: string, b: string)
  {
    (row.userId == a && row.friendId == b) || (row.userId == b && row.friendId == a)
  }

  /** At most one row per unordered pair of users: no later row joins the
      pair of an earlier one. */
  ghost predicate PairUnique(rows: seq<Friend>)
    decreases |rows|
  {
    rows == [] ||
    ((forall r :: r in rows[1..] ==> !Links(r, rows[0].userId, rows[0].friendId))
     && PairUnique(rows[1..]))
  }

  /** `.update({ status, updated_at }).eq('id', id)` */
  function SetStatusById(rows: seq<Friend>, id: string, status: Status, now: string): (r: seq<Friend>)
    ensures |r| == |rows|
    ensures forall k :: 0 <= k < |rows| && rows[k].id != id ==> r[k] == rows[k]
    ensures forall k :: 0 <= k < |rows| && rows[k].id == id ==>
      r[k] == rows[k].(status := status, updatedAt := now)
  {
    seq(|rows|, k requires 0 <= k < |rows| =>
      if rows[k].id == id then rows[k].(status := status, updatedAt := now) else rows[k])
  }

  function HasOtherRowId(id: string): Friend -> bool
  {
    (row: Friend) => row.id != id
  }

  /** `.delete().eq('id', id)` */
  function DeleteRowById(rows: seq<Friend>, id: string): seq<Friend>
  {
    Filter(rows, HasOtherRowId(id))
  }

  /** The delete removes every row with the id and keeps every other row. */
  lemma DeleteRowByIdSpec(rows: seq<Friend>, id: string)
    ensures var r := DeleteRowById(rows, id);
      && (forall k :: 0 <= k < |r| ==> r[k].id != id && r[k] in rows)
      && (forall k :: 0 <= k < |rows| && rows[k].id != id ==> rows[k] in r)
  {
    FilterSpec(rows, HasOtherRowId(id));
  }

  /** Rows with the same pairs, index by index, are unique together. */
  lemma {:induction false} SamePairsKeepUnique(a: seq<Friend>, b: seq<Friend>)
    requires |a| == |b|
    requires forall k :: 0 <= k < |a| ==> a[k].userId == b[k].userId && a[k].friendId == b[k].friendId
    requires PairUnique(a)
    ensures PairUnique(b)
    decreases |a|
  {
    if b != [] {
      SamePairsKeepUnique(a[1..], b[1..]);
      forall r | r in b[1..] ensures !Links(r, b[0].userId, b[0].friendId) {
        var k :| 0 <= k < |b[1..]| && b[1..][k] == r;
        assert a[1..][k] in a[1..];
      }
    }
  }

  /** A status change keeps at most one row per pair. */
  lemma SetStatusKeepsUnique(rows: seq<Friend>, id: string, status: Status, now: string)
    requires PairUnique(rows)
    ensures PairUnique(SetStatusById(rows, id, status, now))
  {
    SamePairsKeepUnique(rows, SetStatusById(rows, id, status, now));
  }

  /** Keeping only some rows keeps at most one row per pair. */
  lemma {:induction false} FilterKeepsUnique(rows: seq<Friend>, p: Friend -> bool)
    requires PairUnique(rows)
    ensures PairUnique(Filter(rows, p))
    decreases |rows|
  {
    if rows != [] {
      var t := Filter(rows[1..], p);
      FilterKeepsUnique(rows[1..], p);
      FilterSpec(rows[1..], p);
      if p(rows[0]) {
        forall r | r in t ensures !Links(r, rows[0].userId, rows[0].friendId) {
          var k :| 0 <= k < |t| && t[k] == r;
        }
        assert ([rows[0]] + t)[1..] == t;
        assert Filter(rows, p) == [rows[0]] + t;
      } else {
        assert Filter(rows, p) == t;
      }
    }
  }

  /** A delete keeps at most one row per pair. */
  lemma DeleteKeepsUnique(rows: seq<Friend>, id: string)
    requires PairUnique(rows)
    ensures PairUnique(DeleteRowById(rows, id))
  {
    FilterKeepsUnique(rows, HasOtherRowId(id));
  }

  /** Appending a row whose pair has no row yet keeps at most one row per pair. */
  lemma {:induction false} AppendKeepsUnique(rows: seq<Friend>, x: Friend)
    requires PairUnique(rows)
    requires forall r :: r in rows ==> !Links(r, x.userId, x.friendId)
    ensures PairUnique(rows + [x])
    decreases |rows|
  {
    if rows == [] {
      assert ([x])[1..] == [];
    } else {
      assert (rows + [x])[1..] == rows[1..] + [x];
      AppendKeepsUnique(rows[1..], x);
      assert !Links(rows[0], x.userId, x.friendId);
    }
  }

  function OnPair(a: string, b: string): Friend -> bool
  {
    (row: Friend) => Links(row, a, b)
  }

  /** Under pair-uniqueness at most one row joins a given pair. */
  lemma {:induction false} AtMostOneOnPair(rows: seq<Friend>, a: string, b: string)
    requires PairUnique(rows)
    ensures |Filter(rows, OnPair(a, b))| <= 1
    decreases |rows|
  {
    if rows != [] {
      AtMostOneOnPair(rows[1..], a, b);
      if Links(rows[0], a, b) {
        forall k | 0 <= k < |rows[1..]| ensures !OnPair(a, b)(rows[1..][k]) {
          assert rows[1..][k] in rows[1..];
        }
        FilterNone(rows[1..], OnPair(a, b));
      }
    }
  }

  /** `.or(and(user_id.eq.a, friend_id.eq.b), and(user_id.eq.b, friend_id.eq.a)).single()`:
      the matching row when exactly one row matches; no match and several
      matches are both errors, whose data is null. */
  function Single(rows: seq<Friend>, a: string, b: string): (r: Option<Friend>)
    ensures r.Some? ==> r.value in rows && Links(r.value, a, b)
  {
    var m := Filter(rows, OnPair(a, b));
    FilterSpec(rows, OnPair(a, b));
    if |m| == 1 then Some(m[0]) else None
  }

  /** When the table keeps one row per pair, the lookup finds a row exactly
      when one joins the pair. */
  lemma SingleFindsPair(rows: seq<Friend>, a: string, b: string)
    requires PairUnique(rows)
    ensures Single(rows, a, b).None? <==> forall r :: r in rows ==> !Links(r, a, b)
  {
    var m := Filter(rows, OnPair(a, b));
    FilterSpec(rows, OnPair(a, b));
    AtMostOneOnPair(rows, a, b);
    if Single(rows, a, b).None? {
      assert |m| == 0;
      forall r | r in rows ensures !Links(r, a, b) {
        var k :| 0 <= k < |rows| && rows[k] == r;
      }
    }
  }

  /** `f.user_id === me ? f.friend_id : f.user_id`: the user on the other
      side of a row. */
  function OtherParty(row: Friend, me: string): (r: string)
    ensures r == row.userId || r == row.friendId
    ensures row.userId == me ==> r == row.friendId
  {
    if row.userId == me then row.friendId else row.userId
  }

  /** Of a row joining me and x, the other party is x. */
  lemma OtherPartyOfLink(row: Friend, me: string, x: string)
    requires Links(row, me, x)
    ensures OtherParty(row, me) == x
  {
  }

  function OtherPartyKey(me: string): Friend -> string
  {
    (row: Friend) => OtherParty(row, me)
  }

  /** `friendships.map(f => f.user_id === me ? f.friend_id : f.user_id)` */
  function FriendIds(rows: seq<Friend>, me: string): (r: seq<string>)
    ensures |r| == |rows|
    ensures forall k :: 0 <= k < |rows| ==> r[k] == OtherParty(rows[k], me)
  {
    seq(|rows|, k requires 0 <= k < |rows| => OtherParty(rows[k], me))
  }

  /** Each friend id of a row that joins me and someone is that someone. */
  lemma FriendIdsAreOthers(rows: seq<Friend>, me: string, k: nat, x: string)
    requires k < |rows| && Links(rows[k], me, x)
    ensures FriendIds(rows, me)[k] == x
  {
    OtherPartyOfLink(rows[k], me, x);
  }

  /** `.eq('status', 'accepted').or(user_id.eq.me, friend_id.eq.me)` */
  function AcceptedWith(me: string): Friend -> bool
  {
    (row: Friend) => row.status == Accepted && (row.userId == me || row.friendId == me)
  }

  /** The rows of my accepted friendships, in table order. */
  function AcceptedRows(rows: seq<Friend>, me: string): seq<Friend>
  {
    Filter(rows, AcceptedWith(me))
  }

  /** The accepted rows are those of my friendships, and every one of them. */
  lemma AcceptedRowsSpec(rows: seq<Friend>, me: string)
    ensures var r := AcceptedRows(rows, me);
      && (forall k :: 0 <= k < |r| ==>
            r[k] in rows && r[k].status == Accepted && Links(r[k], me, OtherParty(r[k], me)))
      && (forall k :: 0 <= k < |rows| ==>
            (rows[k].status == Accepted && (rows[k].userId == me || rows[k].friendId == me)) ==> rows[k] in r)
  {
    FilterSpec(rows, AcceptedWith(me));
  }

  /** `profiles?.find(p => p.id === id)`: the first profile with the id;
      `None` stands for `undefined`, which `|| {}` turns into an empty
      profile. A null answer finds nothing. */
  function FindProfile(profiles: Option<seq<Profile>>, id: string): (r: Option<Profile>)
    ensures r.None? <==> profiles.None? || forall p :: p in profiles.value ==> p.id != id
    ensures r.Some? ==> r.value in profiles.value && r.value.id == id
    ensures r.Some? ==> exists k :: 0 <= k < |profiles.value| && profiles.value[k] == r.value
                                 && forall j :: 0 <= j < k ==> profiles.value[j].id != id
    decreases if profiles.Some? then |profiles.value| else 0
  {
    if profiles.None? || profiles.value == [] then None
    else if profiles.value[0].id == id then Some(profiles.value[0])
    else
      var rest := profiles.value[1..];
      var r := FindProfile(Some(rest), id);
      assert forall p :: p in profiles.value ==> p == profiles.value[0] || p in rest;
      assert forall k :: 1 <= k < |profiles.value| ==> profiles.value[k] == rest[k - 1];
      assert r.Some? ==> exists k :: 0 <= k < |rest| && rest[k] == r.value && profiles.value[k + 1] == r.value
                                    && forall j :: 0 <= j < k + 1 ==> profiles.value[j].id != id;
      r
  }

  /** A row or entry with the profile attached: `{ ...item, profile }`. */
  datatype Joined<T> = Joined(item: T, profile: Option<Profile>)

  /** `items.map(x => ({ ...x, profile: profiles?.find(p => p.id === key(x)) || {} }))` */
  function Attach<T>(items: seq<T>, key: T -> string, profiles: Option<seq<Profile>>): seq<Joined<T>>
  {
    seq(|items|, k requires 0 <= k < |items| => Joined(items[k], FindProfile(profiles, key(items[k]))))
  }

  /** One result per item, in order, each with a profile whose id is the
      item's key, and no profile exactly when none has that id. */
  lemma AttachSpec<T>(items: seq<T>, key: T -> string, profiles: Option<seq<Profile>>)
    ensures var r := Attach(items, key, profiles);
      && |r| == |items|
      && (forall k :: 0 <= k < |items| ==> r[k].item == items[k])
      && (forall k :: 0 <= k < |items| && r[k].profile.Some? ==>
            profiles.Some? && r[k].profile.value.id == key(items[k]) && r[k].profile.value in profiles.value)
      && (forall k :: 0 <= k < |items| ==>
            (r[k].profile.None? <==> profiles.None? || forall p :: p in profiles.value ==> p.id != key(items[k])))
  {
  }

  /** `display_name || username || 'Unknown User'`, where an empty profile
      (`None`) has neither. */
  function DisplayName(p: Option<Profile>): (r: string)
    ensures r != ""
    ensures p.Some? && p.value.displayName.Some? && p.value.displayName.value != "" ==>
      r == p.value.displayName.value
    ensures p.Some? && (p.value.displayName == None || p.value.displayName == Some(""))
            && p.value.username.Some? && p.value.username.value != "" ==>
      r == p.value.username.value
    ensures r == "Unknown User" <==>
      p.None? ||
      ((p.value.displayName == None || p.value.displayName == Some("") || p.value.displayName == Some("Unknown User"))
       && (p.value.username == None || p.value.username == Some("") || p.value.username == Some("Unknown User")
           || (p.value.displayName.Some? && p.value.displayName.value != "")))
  {
    if p.None? then "Unknown User"
    else OrElse(p.value.displayName, OrElse(p.value.username, "Unknown User"))
  }

  /** `name.charAt(0).toUpperCase()`: the first character uppercased, or
      nothing for an empty name. */
  function AvatarLetter(name: string): (r: string)
    ensures |r| <= 1
    ensures name != "" <==> |r| == 1
    ensures name != "" ==> r[0] == UpperChar(name[0])
  {
    if name == "" then "" else [UpperChar(name[0])]
  }

  /** A card's avatar always has exactly one letter, since the display
      name is never empty. */
  lemma AvatarOfDisplayName(p: Option<Profile>)
    ensures |AvatarLetter(DisplayName(p))| == 1
  {
  }

  /** The shared `friends` table. */
  class FriendsTable {
    var rows: seq<Friend>

    constructor(initial: seq<Friend>)
      ensures rows == initial
    {
      rows := initial;
    }

    /** `insert(row)`: the row is added unless the backend reports an error. */
    method Insert(row: Friend, failed: bool)
      modifies this
      ensures rows == if failed then old(rows) else old(rows) + [row]
    {
      if !failed {
        rows := rows + [row];
      }
    }

    /** `update({ status, updated_at: now }).eq('id', id)` */
    method SetStatus(id: string, status: Status, now: string, failed: bool)
      modifies this
      ensures rows == if failed then old(rows) else SetStatusById(old(rows), id, status, now)
    {
      if !failed {
        rows := SetStatusById(rows, id, status, now);
      }
    }

    /** `delete().eq('id', id)` */
    method Delete(id: string, failed: bool)
      modifies this
      ensures rows == if failed then old(rows) else DeleteRowById(old(rows), id)
    {
      if !failed {
        rows := DeleteRowById(rows, id);
      }
    }
  }
}
