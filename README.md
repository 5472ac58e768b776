# tele-bot roster and `/all` broadcast, in Dafny

A model of the logic in `main.py` of a small Telegram group bot. The bot
records the members it sees in each chat and lets an admin tag all of them
with `/all`. It has three parts:

- **The roster** (`db`, `upsert_member`). It is a table from chat id (as
  text) to user id (as text) to `{"username", "name"}`. Each chat's table
  keeps Python's dict order, so a new member is appended and a rewritten
  member keeps their place. `Roster.Put` writes one key of an ordered table.
  `Roster.UpsertDb` is `upsert_member` on the whole roster. `Roster.UpsertAll`
  is a run of upserts, as `/sync` and the member trackers do.
  `Roster.RosterDb` is the roster as one object whose handlers update it in
  place.
- **The mention formatter** (`format_mention`). It gives `@username`, or an
  HTML link to `tg://user?id=<id>` showing `html.escape(name or "user")`.
  `Html.Escape` is the escape one character at a time. `Html.EscapeByReplace`
  is the standard library's five `str.replace` passes, and they are proved
  equal. `Html.Unescape` and `Mention.ParseMention` read text back. They exist
  only to state round trips: the shown name and the user id can be recovered
  from a mention.
- **The broadcast** (`cmd_all`). A user who is not an admin gets a denial.
  An empty roster gets a notice. Otherwise the bot builds one mention per
  member in roster order and splits them into chunks of 20 (`Paging.Chunks`).
  Each chunk goes out as a message headed `🔔 Tag All (phần i/k):`, with the
  mentions joined by spaces (`Paging.Join`). `Broadcast.AllOutcome` states the
  result and `Broadcast.AllCommand` computes it with the source's two loops
  (`Broadcast.BuildMentions` and `Broadcast.SendChunks`).

Integer keys are `IntText.Str` (Python's `str` on an `int`), and
`IntText.ParseInt` reads them back (the sign-and-ASCII-digits subset of Python's `int`). Inputs that come from
the chat platform are parameters. The admin list is `Option<seq<User>>` for
both `/all` and `/sync`, where `None` means the query
raised. The text of each message the bot sends is in the result value.

Facts about the code that the model keeps:
- `/all` is limited to admins (main.py:92-94); `/sync` has no admin check
  (main.py:75-84).
- The chunk size is the constant 20 (main.py:108).
- An empty roster is caught before chunking (main.py:98-100).

## Model

| member | source | states |
|---|---|---|
| IntText.Str | main.py:38-39 | `str(n)` is non-empty, starts with `-` exactly when n is negative, is digits after that sign, and has no leading zero for n other than 0 |
| IntText.ParseInt | main.py:105 | `int(s)` succeeds only on text that ends in a digit; `ParseStr` and `StrInjective` carry its round trip with `str` |
| IntText.ParseStr | main.py:105 | `int(str(n)) == n`: reading a key back gives the id that was stored |
| IntText.StrInjective | main.py:38-39 | two ids have the same key exactly when they are equal |
| Html.ReplaceChar | main.py:51 | `s.replace(c, rep)` for one character: never shorter when `rep` is non-empty, leaves no `c` when `rep` holds none, and brings in no character absent from `s` and `rep`; `ReplaceCharAppend` and `ReplaceCharAbsent` state the rest |
| Html.EscapeByReplace | main.py:51 | `html.escape`'s five passes give text with no raw `<`, `>`, `"` or `'`, never shorter than the input; `EscapeIsReplaceChain` proves it equal to `Escape` |
| Html.Escape | main.py:51 | the escaped name holds no raw `<`, `>`, `"` or `'` and is never shorter than the name |
| Html.EscapeIsReplaceChain | main.py:51 | the per-character escape equals `html.escape`'s five replace passes with `&` first, for every string |
| Html.UnescapeEscape | main.py:51 | escaping loses nothing: decoding the five character references gives back the name |
| Html.EscapePlain | main.py:51 | a name with none of `&<>"'` is shown unchanged |
| Mention.HasUsername | main.py:49 | Python truthiness of `username` in `if username:`: neither `None` nor the empty string; `FormatMention` states which branch it selects |
| Mention.LinkText | main.py:51 | `name or "user"` is never empty and is the name whenever the name is non-empty |
| Mention.FormatMention | main.py:48-52 | the mention is non-empty; it starts with `@` exactly when the username is non-empty, and is otherwise a `tg://user?id=` link; `MentionRoundTrip` states what it reads back as |
| Mention.MentionRoundTrip | main.py:48-52 | a non-empty username gives a mention that reads back as exactly that username, whatever the name; otherwise the link reads back as exactly the given user id and the name (or `user` for an empty name) |
| Paging.Chunks | main.py:109 | no chunks exactly for no items, at most one chunk per item, each chunk of 1 to size items; `FlattenChunks`, `ChunkSizes` and `ChunkAt` state the rest |
| Paging.Join | main.py:112 | `sep.join(xs)` is never shorter than the pieces together, and is the piece itself for one piece; `JoinAppend` and `JoinLength` state the rest |
| Paging.FlattenChunks | main.py:108-109 | concatenating the chunks in order gives the mention list back exactly |
| Paging.ChunkSizes | main.py:108-109 | there are ceil(n/size) chunks, each of 1 to size items, all but the last of exactly size |
| Paging.ChunkAt | main.py:109 | chunk i is the slice `xs[i*size : i*size+size]` that the comprehension takes |
| Paging.JoinAppend | main.py:112 | joining two non-empty lists is joining each and putting the separator between them |
| Paging.JoinLength | main.py:112 | the joined text is as long as the pieces plus one separator between each neighbouring pair |
| Roster.Put | main.py:42-45 | `table[k] = v` grows the table by at most one entry and afterwards `k` holds `v`; `PutLookup`, `PutKeys` and `PutPlaces` state the rest |
| Roster.PutLookup | main.py:42-45 | after `table[k] = v`, `k` holds exactly `v` (the whole record) and every other key holds what it held |
| Roster.PutKeys | main.py:42-45 | a key already present keeps its position; a new key is appended at the end |
| Roster.PutOverwrite | main.py:42-45 | two writes to one key are the second write alone (last write wins; repeating a write is idempotent) |
| Roster.PutPlaces | main.py:42-45 | a write keeps every existing key at its position and adds at most the written key, at the end, only when it was missing |
| Roster.PutKeepsUnique | main.py:42-45 | a write keeps the keys of a table unique |
| Roster.PutKeepsCanonical | main.py:38-45 | a write keeps every key `str` of an integer when the written key is |
| Roster.TableOf | main.py:97 | `db.get(cid, {})`: the chat's table, or the empty table for a chat never seen; `AllOutcome` states that the empty table gets the notice |
| Roster.LookupFound | main.py:104 | a key that the table finds sits at some position of the table with that record |
| Roster.UpsertDb | main.py:37-45 | `upsert_member` adds the chat's key when missing and no other chat key, and afterwards the user's record is exactly `{username, name}`; `UpsertSpec` states what stays unchanged |
| Roster.UpsertAll | main.py:79-81 | a run of upserts into one chat adds that chat's key only when the run is non-empty; `UpsertAllLookup` states the records |
| Roster.UpsertSpec | main.py:37-45 | after an upsert, the user's record is exactly `{username, name}`; other users and other chats are unchanged; a missing chat gets a table holding that user only; the user keeps an existing place or goes last |
| Roster.UpsertKeepsWellFormed | main.py:37-45 | an upsert keeps every chat's keys unique and canonical |
| Roster.UpsertAllLookup | main.py:79-81 | after a run of upserts into one chat, each user holds the record of the last upsert for that user; users not in the run and other chats are unchanged |
| Roster.UpsertAllKeepsWellFormed | main.py:132-133 | a run of upserts keeps every table's keys unique and canonical |
| Roster.RosterDb.constructor | main.py:21-29 | with no readable file, the roster starts empty |
| Roster.RosterDb.Upsert | main.py:37-46 | the in-memory roster becomes `UpsertDb` of the old one; its invariant is kept |
| Roster.RosterDb.UpsertEach | main.py:132-133 | upserting each user in order leaves the roster at `UpsertAll` of the old one |
| Roster.RosterDb.Sync | main.py:75-84 | a failed admin query changes nothing and reports failure; otherwise every admin is upserted in order and the count is reported |
| Roster.RosterDb.TrackMessage | main.py:121-126 | the sender is upserted unless the update has no chat or no user, when nothing changes |
| Roster.RosterDb.TrackNewMembers | main.py:129-133 | every new member is upserted in order |
| Broadcast.AnyIs | main.py:57 | `any(a.user.id == user_id ...)` holds exactly when some admin in the list has the id |
| Broadcast.IsAdmin | main.py:54-59 | a user is an admin exactly when the admin list could be fetched and some admin in it has the user's id (a failed fetch denies) |
| Broadcast.MentionsOf | main.py:103-105 | one mention per member of the chat's table, in roster order; `UpsertedMemberIsTagged` states whose mention sits where |
| Broadcast.Header | main.py:112 | the header starts with `🔔 Tag All (phần ` and ends with a newline, so the mentions start on the next line; `HeaderRoundTrip` states what it carries |
| Broadcast.HeaderRoundTrip | main.py:112 | the header of message i of k reads back as exactly i and k |
| Broadcast.Messages | main.py:108-112 | one message per chunk, each starting with the header `i/k` for its place i among k; `MessagesShape` states how many and that the chunks are the mentions |
| Broadcast.AllOutcome | main.py:86-118 | the denial goes exactly to users not on a fetched admin list; the empty notice exactly to an admin of a chat with no member; `int(uid)` raises exactly when some key of a non-empty roster is not a sign followed by ASCII digits; a broadcast sends at least one message |
| Broadcast.BuildMentions | main.py:103-105 | the mention loop finishes exactly when every key is a sign followed by ASCII digits, and then builds `MentionsOf` the table |
| Broadcast.SendChunks | main.py:111-118 | the send loop sends exactly `Messages` of the mentions, in order |
| Broadcast.AllCommand | main.py:86-118 | the mention loop and the send loop produce exactly `AllOutcome`: denial, empty notice, or the messages in order |
| Broadcast.WellFormedNeverCrashes | main.py:104-105 | `int(uid)` never raises on a roster built by upserts |
| Broadcast.AllOnRoster | main.py:86-118 | `/all` on the bot's roster object gives `AllOutcome` of its contents and never raises from `int(uid)` |
| Broadcast.MessagesShape | main.py:108-112 | n mentions give ceil(n/20) messages, one per chunk, and the chunks in order are the mentions |
| Broadcast.MessageChunkSizes | main.py:108-109 | each message carries 1 to 20 mentions, and all but the last exactly 20 |
| Broadcast.BroadcastShape | main.py:103-112 | a broadcast happens only when every key is a sign followed by ASCII digits; it sends `Messages` of the roster's mentions in roster order, ceil(n/20) >= 1 of them for n members |
| Broadcast.UpsertedMemberIsTagged | main.py:103-105 | after an upsert, `/all` tags that member at the member's place with the mention of the id and names that were upserted |
| Broadcast.SeventyThreeMembers | main.py:108-109 | 73 mentions go out as 4 messages of 20, 20, 20 and 13 |
| Broadcast.AliceIsTagged | main.py:48-50 | member 7 of chat 100, upserted with username `alice`, is tagged `@alice` |

## Left out

- Persistence: `load_db` and `save_db` (main.py:21-35) read and write a JSON file and swallow every error. The constructor is `load_db` with no readable file, which gives an empty roster. `save_db` leaves the in-memory roster as it is, so `Upsert` does not model it. A roster loaded from an existing file is not modelled.
- Telegram API calls are I/O. `get_chat_administrators` becomes an input list, or `None` when the call raises. The texts passed to `send_message` and `reply_text` are result values. `run_polling` and handler registration are not modelled.
- A `send_message` that raises partway through `/all` is not modelled, so the model always sends every chunk.
- `async`/`await`: handlers run one at a time, one after another.
- `/ping`, `/help` and the wording of the denial, empty-roster and sync replies (main.py:61-73, 82-84, 93, 99) are fixed text. They appear only as the reply's constructor.
- IntText.ParseInt accepts an optional sign followed by ASCII digits only. Python's `int` also accepts surrounding whitespace, `_` between digits and any Unicode decimal digit (`int("٣") == 3`), so on a roster loaded from a hand-edited file holding such a key the model reports the `ValueError` where the bot would broadcast. Keys always come from `str`, so these forms never reach it in the modelled states.
- IntText.Str and IntText.ParseInt: Python raises `ValueError` when `str` or `int` meets more than 4300 digits (`sys.int_info.default_max_str_digits`); the model has no such limit, since Telegram ids are far shorter.
- The order of chats in the outer dict is not modelled, because nothing reads it. The order of users within a chat is modelled.
- A stored record whose `"name"` is missing (`info.get("name")` returning `None`) can only come from a file edited by hand, so it is not modelled.
- Polls, scheduled weekday triggers, topics and the keep-alive endpoint are not part of `main.py`.
