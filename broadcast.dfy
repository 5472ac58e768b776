/**
 * `/all`: an admin asks the bot to tag every member it has recorded for the
 * chat. Non-admins are refused, an empty roster gets a notice, and
 * otherwise the mentions, in roster order, go out 20 to a message, each
 * message headed with its page number and the page count.
 */
module Broadcast {
  import opened Wrappers
  import opened IntText
  import opened Mention
  import opened Roster
  import opened Paging

  const ChunkSize: nat := 20

  /** `any(a.user.id == user_id for a in admins)`: true exactly when some admin has the id. */
  function AnyIs(admins: seq<User>, userId: int): (r: bool)
    ensures r <==> exists a :: a in admins && a.id == userId
  {
    if admins == [] then false
    else
      assert admins == [admins[0]] + admins[1..];
      admins[0].id == userId || AnyIs(admins[1..], userId)
  }

  /**
   * `is_admin`: the admin list's ids, or `None` when fetching it failed. A
   * user is an admin exactly when the list was fetched and holds the id.
   */
  function IsAdmin(admins: Option<seq<User>>, userId: int): (r: bool)
    ensures r <==> admins.Some? && exists a :: a in admins.value && a.id == userId
  {
    admins.Some? && AnyIs(admins.value, userId)
  }

  /** Every key of the table is an optional sign and ASCII digits, so `int(uid)` raises nowhere. */
  predicate NumericKeys(t: Table) {
    forall j :: 0 <= j < |t| ==> ParseInt(t[j].uid).Some?
  }

  /** The mention of each member, in roster order. */
  function MentionsOf(t: Table): (ms: seq<string>)
    requires NumericKeys(t)
    ensures |ms| == |t|
  {
    seq(|t|, j requires 0 <= j < |t| =>
      FormatMention(ParseInt(t[j].uid).value, t[j].info.username, t[j].info.name))
  }

  const HeaderLead: string := "\U{1F514} Tag All (ph\U{1EA7}n "
  const HeaderTail: string := "):\n"

  /** `"🔔 Tag All (phần {}/{}):\n".format(i, k)`: the mentions start on the line after it. */
  function Header(i: int, k: int): (r: string)
    ensures HeaderLead <= r
    ensures r[|r| - 1] == '\n'
  {
    HeaderLead + Str(i) + "/" + Str(k) + HeaderTail
  }

  /** Reads the page number and the page count back from a header. */
  function ParseHeader(h: string): Option<(int, int)> {
    if !(HeaderLead <= h) || |h| < |HeaderLead| + |HeaderTail| then None
    else
      var rest := h[|HeaderLead|..|h| - |HeaderTail|];
      var q := IndexOf(rest, '/');
      if q == |rest| then None
      else match (ParseInt(rest[..q]), ParseInt(rest[q + 1..]))
        case (Some(i), Some(k)) => Some((i, k))
        case _ => None
  }

  /** The header of message i of k states exactly i and k. */
  lemma HeaderRoundTrip(i: int, k: int)
    ensures ParseHeader(Header(i, k)) == Some((i, k))
  {
    var h := Header(i, k);
    var a, b := Str(i), Str(k);
    var rest := a + "/" + b;
    assert h == HeaderLead + rest + HeaderTail;
    assert h[|HeaderLead|..|h| - |HeaderTail|] == rest;
    assert forall j :: 0 <= j < |a| ==> rest[j] == a[j] && a[j] != '/';
    assert rest[|a|] == '/';
    assert IndexOf(rest, '/') == |a|;
    assert rest[..|a|] == a;
    assert rest[|a| + 1..] == b;
    ParseStr(i);
    ParseStr(k);
  }

  /** The text of every message, in sending order. */
  function Messages(mentions: seq<string>): (texts: seq<string>)
    ensures |texts| == |Chunks(mentions, ChunkSize)|
    ensures forall i :: 0 <= i < |texts| ==> Header(i + 1, |texts|) <= texts[i]
  {
    var chunks := Chunks(mentions, ChunkSize);
    seq(|chunks|, i requires 0 <= i < |chunks| => Header(i + 1, |chunks|) + Join(" ", chunks[i]))
  }

  /**
   * What `/all` does: a denial, the empty-roster notice, a `ValueError`
   * raised while reading a key back (before anything is sent), or the
   * messages it sends.
   */
  datatype AllReply = NotAdmin | EmptyRoster | Crashed | Broadcast(messages: seq<string>)

  /**
   * The denial goes exactly to users not on a fetched admin list; the
   * notice exactly to an admin of a chat with no recorded member; the
   * `ValueError` exactly when some key of a non-empty roster is not an
   * optional sign followed by ASCII digits; and a broadcast sends at least one message.
   */
  function AllOutcome(db: map<string, Table>, chatId: int, userId: int, admins: Option<seq<User>>): (r: AllReply)
    ensures r == NotAdmin <==> !(admins.Some? && exists a :: a in admins.value && a.id == userId)
    ensures r == EmptyRoster <==>
      (admins.Some? && exists a :: a in admins.value && a.id == userId) && TableOf(db, Str(chatId)) == []
    ensures r == Crashed <==>
      (admins.Some? && exists a :: a in admins.value && a.id == userId)
      && TableOf(db, Str(chatId)) != [] && !NumericKeys(TableOf(db, Str(chatId)))
    ensures r.Broadcast? ==> r.messages != []
  {
    if !IsAdmin(admins, userId) then NotAdmin
    else
      var t := TableOf(db, Str(chatId));
      if t == [] then EmptyRoster
      else if !NumericKeys(t) then Crashed
      else Broadcast(Messages(MentionsOf(t)))
  }

  /** The mention loop of `cmd_all`: `None` when some `int(uid)` raises. */
  method BuildMentions(t: Table) returns (mentions: Option<seq<string>>)
    ensures mentions.Some? <==> NumericKeys(t)
    ensures mentions.Some? ==> mentions.value == MentionsOf(t)
  {
    var built: seq<string> := [];
    var j := 0;
    while j < |t|
      invariant 0 <= j <= |t|
      invariant NumericKeys(t[..j])
      invariant built == MentionsOf(t[..j])
    {
      var id := ParseInt(t[j].uid);
      if id.None? {
        assert !NumericKeys(t) by { assert ParseInt(t[j].uid).None?; }
        return None;
      }
      MentionsOfSnoc(t, j);
      built := built + [FormatMention(id.value, t[j].info.username, t[j].info.name)];
      j := j + 1;
    }
    assert t[..j] == t;
    mentions := Some(built);
  }

  /** One more member read back adds that member's mention at the end. */
  lemma MentionsOfSnoc(t: Table, j: int)
    requires 0 <= j < |t|
    requires NumericKeys(t[..j]) && ParseInt(t[j].uid).Some?
    ensures NumericKeys(t[..j + 1])
    ensures MentionsOf(t[..j + 1])
      == MentionsOf(t[..j]) + [FormatMention(ParseInt(t[j].uid).value, t[j].info.username, t[j].info.name)]
  {
    var a, b := t[..j], t[..j + 1];
    assert forall k :: 0 <= k < j ==> b[k] == a[k];
    assert b[j] == t[j];
  }

  /** The send loop of `cmd_all`: one message per chunk, in order. */
  method SendChunks(mentions: seq<string>) returns (sent: seq<string>)
    ensures sent == Messages(mentions)
  {
    var chunks := Chunks(mentions, ChunkSize);
    ghost var all := Messages(mentions);
    sent := [];
    var idx := 0;
    while idx < |chunks|
      invariant 0 <= idx <= |chunks| == |all|
      invariant sent == all[..idx]
    {
      assert all[idx] == Header(idx + 1, |chunks|) + Join(" ", chunks[idx]);
      assert all[..idx + 1] == all[..idx] + [all[idx]];
      sent := sent + [Header(idx + 1, |chunks|) + Join(" ", chunks[idx])];
      idx := idx + 1;
    }
    assert all[..idx] == all;
  }

  /** `cmd_all`: the admin guard, the empty-roster guard, then the two loops. */
  method AllCommand(db: map<string, Table>, chatId: int, userId: int, admins: Option<seq<User>>)
    returns (reply: AllReply)
    ensures reply == AllOutcome(db, chatId, userId, admins)
  {
    if !IsAdmin(admins, userId) {
      return NotAdmin;
    }
    var t := TableOf(db, Str(chatId));
    if t == [] {
      return EmptyRoster;
    }
    var mentions := BuildMentions(t);
    if mentions.None? {
      return Crashed;
    }
    var sent := SendChunks(mentions.value);
    reply := Broadcast(sent);
  }

  /** A roster built by upserts has canonical keys, so `/all` never raises on it. */
  lemma WellFormedNeverCrashes(db: map<string, Table>, chatId: int, userId: int, admins: Option<seq<User>>)
    requires WellFormed(db)
    ensures AllOutcome(db, chatId, userId, admins) != Crashed
  {
  }

  /** `/all` on the process-wide roster: its invariant rules out the `ValueError`. */
  method AllOnRoster(roster: RosterDb, chatId: int, userId: int, admins: Option<seq<User>>)
    returns (reply: AllReply)
    requires roster.Valid()
    ensures reply == AllOutcome(roster.chats, chatId, userId, admins)
    ensures reply != Crashed
  {
    reply := AllCommand(roster.chats, chatId, userId, admins);
    WellFormedNeverCrashes(roster.chats, chatId, userId, admins);
  }

  /**
   * The messages for n mentions: ceil(n / 20) of them, one per chunk of
   * `Paging.Chunks` (whose sizes `Paging.ChunkSizes` states), and the
   * chunks in order are the mentions.
   */
  lemma MessagesShape(mentions: seq<string>)
    ensures var ms := Messages(mentions);
      var chunks := Chunks(mentions, ChunkSize);
      && |ms| == |chunks| == (|mentions| + ChunkSize - 1) / ChunkSize
      && Flatten(chunks) == mentions
  {
    ChunkCount(mentions);
    FlattenChunks(mentions, ChunkSize);
  }

  /** The number of chunks of n mentions is ceil(n / 20). */
  lemma ChunkCount(mentions: seq<string>)
    ensures |Chunks(mentions, ChunkSize)| == (|mentions| + ChunkSize - 1) / ChunkSize
  {
    ChunkSizes(mentions, ChunkSize);
  }

  /** Each message carries 1 to 20 mentions, and every message but the last exactly 20. */
  lemma MessageChunkSizes(mentions: seq<string>)
    ensures var chunks := Chunks(mentions, ChunkSize);
      && (forall i :: 0 <= i < |chunks| ==> 0 < |chunks[i]| <= ChunkSize)
      && (forall i :: 0 <= i < |chunks| - 1 ==> |chunks[i]| == ChunkSize)
  {
    ChunkSizes(mentions, ChunkSize);
  }

  /**
   * A broadcast sends the messages for the roster's mentions, in roster
   * order: ceil(n / 20) messages for n members, at least one.
   */
  lemma BroadcastShape(db: map<string, Table>, chatId: int, userId: int, admins: Option<seq<User>>)
    requires AllOutcome(db, chatId, userId, admins).Broadcast?
    ensures var t := TableOf(db, Str(chatId));
      && NumericKeys(t)
      && AllOutcome(db, chatId, userId, admins).messages == Messages(MentionsOf(t))
      && |AllOutcome(db, chatId, userId, admins).messages| == (|t| + ChunkSize - 1) / ChunkSize > 0
  {
    var t := TableOf(db, Str(chatId));
    MessagesShape(MentionsOf(t));
  }

  /**
   * The member just upserted is tagged in `/all`, at the member's place in
   * the roster, by the id that was upserted (or by username).
   */
  lemma UpsertedMemberIsTagged(db: map<string, Table>, chatId: int, userId: int,
                               username: Option<string>, name: string)
    requires WellFormed(db)
    ensures var t := TableOf(UpsertDb(db, chatId, userId, username, name), Str(chatId));
      && NumericKeys(t)
      && exists j :: 0 <= j < |t| && t[j].uid == Str(userId)
                     && MentionsOf(t)[j] == FormatMention(userId, username, name)
  {
    var db' := UpsertDb(db, chatId, userId, username, name);
    UpsertKeepsWellFormed(db, chatId, userId, username, name);
    UpsertSpec(db, chatId, userId, username, name);
    var t := TableOf(db', Str(chatId));
    LookupFound(t, Str(userId));
    var j :| 0 <= j < |t| && t[j].uid == Str(userId) && t[j].info == Info(username, name);
    ParseStr(userId);
  }

  /** A chat of 73 members gets four messages: three of 20 mentions and one of 13. */
  lemma SeventyThreeMembers(mentions: seq<string>)
    requires |mentions| == 73
    ensures var chunks := Chunks(mentions, ChunkSize);
      |chunks| == 4 && |chunks[0]| == |chunks[1]| == |chunks[2]| == 20 && |chunks[3]| == 13
  {
    ChunkSizes(mentions, ChunkSize);
    ChunkAt(mentions, ChunkSize, 3);
  }

  /** Member 7 of chat 100 upserted with username `alice` is tagged `@alice`. */
  lemma AliceIsTagged()
    ensures var t := TableOf(UpsertDb(map[], 100, 7, Some("alice"), "Alice A"), Str(100));
      NumericKeys(t) && MentionsOf(t) == ["@alice"]
  {
    var t := TableOf(UpsertDb(map[], 100, 7, Some("alice"), "Alice A"), Str(100));
    assert t == [Entry(Str(7), Info(Some("alice"), "Alice A"))];
    ParseStr(7);
    assert MentionsOf(t)[0] == "@alice";
  }
}
