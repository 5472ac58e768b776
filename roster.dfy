/**
 * The member roster `db`: chat id (as text) -> user id (as text) ->
 * `{"username": ..., "name": ...}`. Each chat's table keeps Python's dict
 * order: a new user goes to the end, and rewriting a user keeps the user's
 * place. That order is the order of the mentions in a broadcast.
 */
module Roster {
  import opened Wrappers
  import opened IntText

  /** One member's record. It is always written as a whole. */
  datatype Info = Info(username: Option<string>, name: string)

  datatype Entry = Entry(uid: string, info: Info)

  /** One chat's table, in insertion order. */
  type Table = seq<Entry>

  /** A member as the chat platform reports one: id, username (maybe none) and full name. */
  datatype User = User(id: int, username: Option<string>, fullName: string)

  function Keys(t: Table): (ks: seq<string>)
    ensures |ks| == |t|
    ensures forall i :: 0 <= i < |t| ==> ks[i] == t[i].uid
  {
    if t == [] then [] else [t[0].uid] + Keys(t[1..])
  }

  predicate UniqueKeys(t: Table) {
    forall i, j :: 0 <= i < j < |t| ==> t[i].uid != t[j].uid
  }

  /** Every key is `str` of an integer, so that `int(uid)` gives that integer back. */
  predicate CanonicalKeys(t: Table) {
    forall i :: 0 <= i < |t| ==> IsCanonical(t[i].uid)
  }

  /** `table.get(k)`. */
  function Lookup(t: Table, k: string): Option<Info> {
    if t == [] then None
    else if t[0].uid == k then Some(t[0].info)
    else Lookup(t[1..], k)
  }

  /** `table[k] = v`: overwrite in place when `k` is present, else append. */
  function Put(t: Table, k: string, v: Info): (r: Table)
    ensures |t| <= |r| <= |t| + 1
    ensures Lookup(r, k) == Some(v)
  {
    if t == [] then [Entry(k, v)]
    else if t[0].uid == k then [Entry(k, v)] + t[1..]
    else [t[0]] + Put(t[1..], k, v)
  }

  /** After `table[k] = v`, `k` holds `v` and every other key holds what it held. */
  lemma {:induction false} PutLookup(t: Table, k: string, v: Info, other: string)
    ensures Lookup(Put(t, k, v), other) == if other == k then Some(v) else Lookup(t, other)
    decreases |t|
  {
    if t != [] && t[0].uid != k {
      assert Put(t, k, v)[1..] == Put(t[1..], k, v);
      PutLookup(t[1..], k, v, other);
    }
  }

  /** A present key keeps its place; a new key goes at the end. */
  lemma {:induction false} PutKeys(t: Table, k: string, v: Info)
    ensures Keys(Put(t, k, v)) == if k in Keys(t) then Keys(t) else Keys(t) + [k]
    decreases |t|
  {
    if t != [] {
      if t[0].uid == k {
        assert Keys(Put(t, k, v)) == Keys(t);
      } else {
        PutKeys(t[1..], k, v);
        assert Keys(t) == [t[0].uid] + Keys(t[1..]);
        assert Keys(Put(t, k, v)) == [t[0].uid] + Keys(Put(t[1..], k, v));
        assert k in Keys(t) <==> k in Keys(t[1..]);
      }
    }
  }

  /** Writing the same key twice is the second write alone; writing the same record twice is writing it once. */
  lemma {:induction false} PutOverwrite(t: Table, k: string, v1: Info, v2: Info)
    ensures Put(Put(t, k, v1), k, v2) == Put(t, k, v2)
    decreases |t|
  {
    if t != [] && t[0].uid != k {
      assert Put(t, k, v1)[1..] == Put(t[1..], k, v1);
      PutOverwrite(t[1..], k, v1, v2);
    }
  }

  /** `Put` keeps every key in its place and adds at most `k`, at the end, when it was missing. */
  lemma {:induction false} PutPlaces(t: Table, k: string, v: Info)
    ensures var p := Put(t, k, v);
      && |t| <= |p| <= |t| + 1
      && (forall i :: 0 <= i < |t| ==> p[i].uid == t[i].uid)
      && (|p| == |t| + 1 ==> p[|t|].uid == k && k !in Keys(t))
  {
    PutKeys(t, k, v);
    var p := Put(t, k, v);
    assert forall i :: 0 <= i < |p| ==> Keys(p)[i] == p[i].uid;
    assert forall i :: 0 <= i < |t| ==> Keys(t)[i] == t[i].uid;
  }

  /** A table without repeated keys stays so. */
  lemma PutKeepsUnique(t: Table, k: string, v: Info)
    requires UniqueKeys(t)
    ensures UniqueKeys(Put(t, k, v))
  {
    PutPlaces(t, k, v);
    var p := Put(t, k, v);
    forall i, j | 0 <= i < j < |p|
      ensures p[i].uid != p[j].uid
    {
      if j == |t| {
        assert Keys(t)[i] == t[i].uid;
      }
    }
  }

  /** Any property that every key and `k` have, every key of `Put(t, k, v)` has. */
  lemma PutKeepsKeyProperty(t: Table, k: string, v: Info, good: string -> bool)
    requires forall i :: 0 <= i < |t| ==> good(t[i].uid)
    requires good(k)
    ensures forall i :: 0 <= i < |Put(t, k, v)| ==> good(Put(t, k, v)[i].uid)
  {
    PutPlaces(t, k, v);
  }

  /** Canonical keys stay canonical when the written key is. */
  lemma PutKeepsCanonical(t: Table, k: string, v: Info)
    requires CanonicalKeys(t) && IsCanonical(k)
    ensures CanonicalKeys(Put(t, k, v))
  {
    PutKeepsKeyProperty(t, k, v, IsCanonical);
  }

  /** A key that `Lookup` finds sits at some place of the table with that record. */
  lemma {:induction false} LookupFound(t: Table, k: string)
    requires Lookup(t, k).Some?
    ensures exists j :: 0 <= j < |t| && t[j].uid == k && t[j].info == Lookup(t, k).value
    decreases |t|
  {
    if t[0].uid != k {
      LookupFound(t[1..], k);
      var j :| 0 <= j < |t| - 1 && t[1..][j].uid == k && t[1..][j].info == Lookup(t, k).value;
      assert t[j + 1] == t[1..][j];
    }
  }

  /** `db.get(cid, {})`. */
  function TableOf(db: map<string, Table>, cid: string): Table {
    if cid in db then db[cid] else []
  }

  /** `upsert_member`: create the chat's table when missing, then write the user's whole record. */
  function UpsertDb(db: map<string, Table>, chatId: int, userId: int, username: Option<string>, name: string)
    : (r: map<string, Table>)
    ensures r.Keys == db.Keys + {Str(chatId)}
    ensures Lookup(r[Str(chatId)], Str(userId)) == Some(Info(username, name))
  {
    var cid := Str(chatId);
    db[cid := Put(TableOf(db, cid), Str(userId), Info(username, name))]
  }

  /** Every chat's table has unique, canonical keys. */
  predicate WellFormed(db: map<string, Table>) {
    forall cid :: cid in db ==> UniqueKeys(db[cid]) && CanonicalKeys(db[cid])
  }

  /**
   * After an upsert the user's record is exactly the one written; no other
   * user of that chat and no other chat changes; a chat that was missing
   * now holds that user alone; and the user keeps an existing place or is
   * added last.
   */
  lemma UpsertSpec(db: map<string, Table>, chatId: int, userId: int, username: Option<string>, name: string)
    ensures var db' := UpsertDb(db, chatId, userId, username, name);
      var cid, uid := Str(chatId), Str(userId);
      && cid in db'
      && Lookup(db'[cid], uid) == Some(Info(username, name))
      && (forall other :: other != uid ==> Lookup(db'[cid], other) == Lookup(TableOf(db, cid), other))
      && (forall c :: c != cid ==> (c in db' <==> c in db) && TableOf(db', c) == TableOf(db, c))
      && (cid !in db ==> db'[cid] == [Entry(uid, Info(username, name))])
      && Keys(db'[cid]) == if uid in Keys(TableOf(db, cid)) then Keys(TableOf(db, cid))
                           else Keys(TableOf(db, cid)) + [uid]
  {
    var cid, uid := Str(chatId), Str(userId);
    var t := TableOf(db, cid);
    var v := Info(username, name);
    forall other
      ensures Lookup(Put(t, uid, v), other) == if other == uid then Some(v) else Lookup(t, other)
    {
      PutLookup(t, uid, v, other);
    }
    PutKeys(t, uid, v);
  }

  lemma UpsertKeepsWellFormed(db: map<string, Table>, chatId: int, userId: int, username: Option<string>, name: string)
    requires WellFormed(db)
    ensures WellFormed(UpsertDb(db, chatId, userId, username, name))
  {
    StrIsCanonical(userId);
    var t := TableOf(db, Str(chatId));
    PutKeepsUnique(t, Str(userId), Info(username, name));
    PutKeepsCanonical(t, Str(userId), Info(username, name));
  }

  /** One upsert per user, in list order, into one chat. */
  function UpsertAll(db: map<string, Table>, chatId: int, users: seq<User>): (r: map<string, Table>)
    ensures r.Keys == if users == [] then db.Keys else db.Keys + {Str(chatId)}
    decreases |users|
  {
    if users == [] then db
    else
      var u := users[|users| - 1];
      UpsertDb(UpsertAll(db, chatId, users[..|users| - 1]), chatId, u.id, u.username, u.fullName)
  }

  /** The record of the last user in `users` whose id is `userId`, if any. */
  function LastRecord(users: seq<User>, userId: int): Option<Info>
    decreases |users|
  {
    if users == [] then None
    else if users[|users| - 1].id == userId then
      var u := users[|users| - 1];
      Some(Info(u.username, u.fullName))
    else LastRecord(users[..|users| - 1], userId)
  }

  /**
   * Last write wins: after a run of upserts into one chat, each user holds
   * the record of the last upsert for that user, and a user not in the run
   * holds what it held before. Other chats do not change.
   */
  lemma {:induction false} UpsertAllLookup(db: map<string, Table>, chatId: int, users: seq<User>, userId: int)
    ensures var db' := UpsertAll(db, chatId, users);
      && Lookup(TableOf(db', Str(chatId)), Str(userId))
         == (if LastRecord(users, userId).Some? then LastRecord(users, userId)
             else Lookup(TableOf(db, Str(chatId)), Str(userId)))
      && (forall c :: c != Str(chatId) ==> (c in db' <==> c in db) && TableOf(db', c) == TableOf(db, c))
    decreases |users|
  {
    if users != [] {
      var prefix := users[..|users| - 1];
      var u := users[|users| - 1];
      var mid := UpsertAll(db, chatId, prefix);
      UpsertAllLookup(db, chatId, prefix, userId);
      UpsertSpec(mid, chatId, u.id, u.username, u.fullName);
      StrInjective(u.id, userId);
    }
  }

  lemma {:induction false} UpsertAllKeepsWellFormed(db: map<string, Table>, chatId: int, users: seq<User>)
    requires WellFormed(db)
    ensures WellFormed(UpsertAll(db, chatId, users))
    decreases |users|
  {
    if users != [] {
      var u := users[|users| - 1];
      UpsertAllKeepsWellFormed(db, chatId, users[..|users| - 1]);
      UpsertKeepsWellFormed(UpsertAll(db, chatId, users[..|users| - 1]), chatId, u.id, u.username, u.fullName);
    }
  }

  /** The reply of `/sync`: the number of admins written, or the failure of the admin query. */
  datatype SyncReply = Synced(count: nat) | SyncFailed

  /** The process-wide roster, updated in place by the handlers. */
  class RosterDb {
    var chats: map<string, Table>

    ghost predicate Valid()
      reads this
    {
      WellFormed(chats)
    }

    /** `load_db` with no readable file: an empty roster. */
    constructor ()
      ensures Valid()
      ensures chats == map[]
    {
      chats := map[];
    }

    /** `upsert_member`; saving the file afterwards changes nothing in memory. */
    method Upsert(chatId: int, userId: int, username: Option<string>, name: string)
      modifies this
      ensures chats == UpsertDb(old(chats), chatId, userId, username, name)
      ensures old(Valid()) ==> Valid()
    {
      var cid := Str(chatId);
      if cid !in chats {
        chats := chats[cid := []];
      }
      chats := chats[cid := Put(chats[cid], Str(userId), Info(username, name))];
      if old(Valid()) {
        UpsertKeepsWellFormed(old(chats), chatId, userId, username, name);
      }
    }

    /** Upserts each user of `users` into `chatId`, in order. */
    method UpsertEach(chatId: int, users: seq<User>)
      modifies this
      ensures chats == UpsertAll(old(chats), chatId, users)
      ensures old(Valid()) ==> Valid()
    {
      var i := 0;
      while i < |users|
        invariant 0 <= i <= |users|
        invariant chats == UpsertAll(old(chats), chatId, users[..i])
      {
        assert users[..i + 1][..i] == users[..i];
        Upsert(chatId, users[i].id, users[i].username, users[i].fullName);
        i := i + 1;
      }
      assert users[..i] == users;
      if old(Valid()) {
        UpsertAllKeepsWellFormed(old(chats), chatId, users);
      }
    }

    /**
     * `/sync`: when the admin list can be fetched, upsert every admin and
     * report how many; when it cannot, report the failure and change nothing.
     */
    method Sync(chatId: int, admins: Option<seq<User>>) returns (reply: SyncReply)
      modifies this
      ensures admins.None? ==> reply == SyncFailed && chats == old(chats)
      ensures admins.Some? ==> reply == Synced(|admins.value|) && chats == UpsertAll(old(chats), chatId, admins.value)
      ensures old(Valid()) ==> Valid()
    {
      match admins
      case None =>
        reply := SyncFailed;
      case Some(list) =>
        UpsertEach(chatId, list);
        reply := Synced(|list|);
    }

    /** `track_message`: record the sender, unless the update has no chat or no user. */
    method TrackMessage(chatId: Option<int>, user: Option<User>)
      modifies this
      ensures chatId.None? || user.None? ==> chats == old(chats)
      ensures chatId.Some? && user.Some? ==>
        chats == UpsertDb(old(chats), chatId.value, user.value.id, user.value.username, user.value.fullName)
      ensures old(Valid()) ==> Valid()
    {
      if chatId.Some? && user.Some? {
        Upsert(chatId.value, user.value.id, user.value.username, user.value.fullName);
      }
    }

    /** `track_new_members`: record each member who joined, in order. */
    method TrackNewMembers(chatId: int, members: seq<User>)
      modifies this
      ensures chats == UpsertAll(old(chats), chatId, members)
      ensures old(Valid()) ==> Valid()
    {
      UpsertEach(chatId, members);
    }
  }
}
