/**
 * `format_mention`: how one roster member is tagged in a broadcast. A
 * member with a username is tagged `@username`; any other member gets an
 * HTML link to `tg://user?id=<id>` whose text is the escaped display name,
 * or `user` when the name is empty.
 */
module Mention {
  import opened Wrappers
  import opened IntText
  import opened Html

  const LinkOpen: string := "<a href=\"tg://user?id="
  const LinkMid: string := "\">"
  const LinkClose: string := "</a>"

  /** Python's truthiness of `username`: neither `None` nor empty. */
  predicate HasUsername(username: Option<string>) {
    username.Some? && username.value != ""
  }

  /** `name or "user"`. */
  function LinkText(name: string): (r: string)
    ensures r != []
    ensures name != [] ==> r == name
  {
    if name == "" then "user" else name
  }

  /** A username mention starts with `@`, a link with the link's opening text. */
  function FormatMention(userId: int, username: Option<string>, name: string): (r: string)
    ensures |r| > 0
    ensures HasUsername(username) <==> r[0] == '@'
    ensures !HasUsername(username) ==> LinkOpen <= r
  {
    if HasUsername(username) then "@" + username.value
    else LinkOpen + Str(userId) + LinkMid + Escape(LinkText(name)) + LinkClose
  }

  /** Whom a mention tags: a username, or a user id with the text shown for it. */
  datatype Target = Handle(username: string) | Link(userId: int, text: string)

  /** The index of the first `c` in `s`, or `|s|` when there is none. */
  function IndexOf(s: string, c: char): (k: nat)
    ensures k <= |s|
    ensures k < |s| ==> s[k] == c
    ensures forall i :: 0 <= i < k ==> s[i] != c
  {
    if s == [] then 0 else if s[0] == c then 0 else 1 + IndexOf(s[1..], c)
  }

  /** Reads a mention back: a handle after `@`, or the id and the unescaped text of a link. */
  function ParseMention(m: string): Option<Target> {
    if |m| > 0 && m[0] == '@' then Some(Handle(m[1..]))
    else if !(LinkOpen <= m) then None
    else
      var rest := m[|LinkOpen|..];
      var q := IndexOf(rest, '"');
      if q + |LinkMid| + |LinkClose| > |rest| then None
      else if rest[q..q + |LinkMid|] != LinkMid || rest[|rest| - |LinkClose|..] != LinkClose then None
      else match ParseInt(rest[..q])
        case None => None
        case Some(id) => Some(Link(id, Unescape(rest[q + |LinkMid|..|rest| - |LinkClose|])))
  }

  /** The pieces of a link around a user id text `d` with no `"` in it. */
  lemma LinkParts(d: string, e: string)
    requires '"' !in d
    ensures var rest := d + LinkMid + e + LinkClose;
      && IndexOf(rest, '"') == |d|
      && rest[..|d|] == d
      && rest[|d|..|d| + |LinkMid|] == LinkMid
      && rest[|rest| - |LinkClose|..] == LinkClose
      && rest[|d| + |LinkMid|..|rest| - |LinkClose|] == e
  {
    var rest := d + LinkMid + e + LinkClose;
    assert rest[|d|] == '"';
    assert forall i :: 0 <= i < |d| ==> rest[i] == d[i];
  }

  /** A link around the text `d` of an id reads back as that id and the unescaped text. */
  lemma ParseLink(d: string, e: string, id: int)
    requires ParseInt(d) == Some(id)
    requires '"' !in d
    ensures ParseMention(LinkOpen + d + LinkMid + e + LinkClose) == Some(Link(id, Unescape(e)))
  {
    var rest := d + LinkMid + e + LinkClose;
    var m := LinkOpen + d + LinkMid + e + LinkClose;
    assert m == LinkOpen + rest;
    assert m[0] == '<';
    assert LinkOpen <= m;
    assert m[|LinkOpen|..] == rest;
    LinkParts(d, e);
  }

  /**
   * A mention names whom it should: the username when there is one, and
   * otherwise exactly the user id it was built from, shown as the name (or
   * `user`).
   */
  lemma MentionRoundTrip(userId: int, username: Option<string>, name: string)
    ensures ParseMention(FormatMention(userId, username, name))
         == Some(if HasUsername(username) then Handle(username.value) else Link(userId, LinkText(name)))
  {
    if HasUsername(username) {
      var m := FormatMention(userId, username, name);
      assert m[1..] == username.value;
    } else {
      var d := Str(userId);
      assert forall i :: 0 <= i < |d| ==> d[i] != '"';
      ParseStr(userId);
      ParseLink(d, Escape(LinkText(name)), userId);
      UnescapeEscape(LinkText(name));
    }
  }
}
