/**
 * The `promote` command plugin (also `admin` and `toadmin`): in a group,
 * with both the bot and the sender being admins, it promotes the mentioned
 * users, the quoted participant, or the number in the text.  The group
 * metadata (`None` when fetching it failed), the contact book (a user
 * missing from it is one whose lookup failed) and whether the promotion
 * succeeded are inputs.
 */
module PromoteCommand {
  import opened Wrappers
  import opened JsString
  import opened Command
  import BlockCommand

  const ValidCommands: seq<Str> := ["promote", "admin", "toadmin"]

  const JidSuffix: Str := BlockCommand.JidSuffix

  /** A group participant; `admin` is "" when the participant is not an admin. */
  datatype Participant = Participant(id: Str, admin: Str)

  datatype Group = Group(subject: Str, participants: seq<Participant>)

  /** What `getContact` returns; "" for a missing name. */
  datatype Contact = Contact(notify: Str, pushname: Str)

  datatype PromoteOutcome =
    | Ignored
    | NotGroup
    | BotNotAdmin
    | SenderNotAdmin
    | AskForUser
    | Promoted(users: seq<Str>, names: Str, subject: Str)
    | PromoteFailed(users: seq<Str>)
    | Error

  /** `participants.find(p => p.id === id)?.admin`, "" when there is no such participant. */
  function AdminOf(ps: seq<Participant>, id: Str): (a: Str)
    ensures a != "" ==> exists i :: 0 <= i < |ps| && ps[i].id == id && ps[i].admin == a
                                    && forall j :: 0 <= j < i ==> ps[j].id != id
    ensures (forall i :: 0 <= i < |ps| ==> ps[i].id != id) ==> a == ""
    ensures forall i :: 0 <= i < |ps| && ps[i].id == id && (forall j :: 0 <= j < i ==> ps[j].id != id) ==> a == ps[i].admin
  {
    if ps == [] then ""
    else if ps[0].id == id then ps[0].admin
    else
      var a := AdminOf(ps[1..], id);
      assert a != "" ==> exists i :: 1 <= i < |ps| && ps[i].id == id && ps[i].admin == a
                                    && forall j :: 0 <= j < i ==> ps[j].id != id by {
        if a != "" {
          var i :| 0 <= i < |ps[1..]| && ps[1..][i].id == id && ps[1..][i].admin == a
                   && forall j :: 0 <= j < i ==> ps[1..][j].id != id;
          assert ps[i + 1] == ps[1..][i];
          forall j | 0 <= j < i + 1 ensures ps[j].id != id {
            if j > 0 { assert ps[j] == ps[1..][j - 1]; }
          }
        }
      }
      a
  }

  /** `m.mentionedJid` after `if (!m.mentionedJid) m.mentionedJid = []` and the push of a quoted participant. */
  function WithQuoted(mentioned: Option<seq<Str>>, quoted: Option<Quoted>): seq<Str> {
    (if mentioned.Some? then mentioned.value else [])
    + (if quoted.Some? && quoted.value.participant != "" then [quoted.value.participant] else [])
  }

  /**
   * `users`: the mention list when it is not empty; otherwise the number in
   * the text as a WhatsApp identifier when the text holds digits; otherwise
   * nobody.
   */
  function Users(mentions: seq<Str>, text: Str): (r: seq<Str>)
    ensures |mentions| > 0 ==> r == mentions
    ensures |mentions| == 0 ==> (r == [] <==> forall k :: 0 <= k < |text| ==> !IsDigit(text[k]))
    ensures |mentions| == 0 && r != [] ==> r == [Digits(text) + JidSuffix]
  {
    DigitsEmpty(text);
    if |mentions| > 0 then mentions
    else if |Digits(text)| > 0 then [Digits(text) + JidSuffix]
    else []
  }

  /** `users.filter(Boolean)`: the non-empty identifiers, in order. */
  function ValidUsers(users: seq<Str>): (r: seq<Str>)
    ensures |r| <= |users|
    ensures forall u :: u in r <==> u in users && u != ""
    ensures (forall i :: 0 <= i < |users| ==> users[i] != "") ==> r == users
  {
    if users == [] then []
    else (if users[0] != "" then [users[0]] else []) + ValidUsers(users[1..])
  }

  /** The filter of one identifier keeps it exactly when it is not empty. */
  lemma ValidUsersOne(u: Str)
    ensures ValidUsers([u]) == if u != "" then [u] else []
  {
    assert [u][1..] == [];
  }

  /** Filtering two lists one after the other is filtering their concatenation: order and repeats are kept. */
  lemma {:induction false} ValidUsersAppend(a: seq<Str>, b: seq<Str>)
    ensures ValidUsers(a + b) == ValidUsers(a) + ValidUsers(b)
  {
    if a == [] {
      assert a + b == b;
    } else {
      assert (a + b)[0] == a[0];
      assert (a + b)[1..] == a[1..] + b;
      ValidUsersAppend(a[1..], b);
    }
  }

  /** `contact.notify || contact.pushname || user.split('@')[0]`, the last also when the lookup fails. */
  function DisplayName(user: Str, contacts: map<Str, Contact>): (r: Str)
    ensures user in contacts && contacts[user].notify != "" ==> r == contacts[user].notify
    ensures user in contacts && contacts[user].notify == "" && contacts[user].pushname != "" ==>
      r == contacts[user].pushname
    ensures user !in contacts || (contacts[user].notify == "" && contacts[user].pushname == "") ==>
      r == BlockCommand.UserPart(user)
  {
    if user in contacts && contacts[user].notify != "" then contacts[user].notify
    else if user in contacts && contacts[user].pushname != "" then contacts[user].pushname
    else BlockCommand.UserPart(user)
  }

  /** `usernames.map(username => '@' + username)` */
  function Handles(users: seq<Str>, contacts: map<Str, Contact>): (r: seq<Str>)
    ensures |r| == |users|
    ensures forall i :: 0 <= i < |users| ==> r[i] == "@" + DisplayName(users[i], contacts)
  {
    if users == [] then [] else ["@" + DisplayName(users[0], contacts)] + Handles(users[1..], contacts)
  }

  /** A user without a usable contact name is shown by the user part of the identifier. */
  lemma FallbackName(user: Str, contacts: map<Str, Contact>)
    requires user !in contacts || (contacts[user].notify == "" && contacts[user].pushname == "")
    ensures DisplayName(user, contacts) <= user
    ensures forall k :: 0 <= k < |DisplayName(user, contacts)| ==> DisplayName(user, contacts)[k] != '@'
    ensures DisplayName(user, contacts) == user || user[|DisplayName(user, contacts)|] == '@'
  {
    BlockCommand.UserPartIsPrefix(user);
  }

  /**
   * After the gates: nobody to promote asks for a user; otherwise the
   * non-empty identifiers are promoted and the reply names each of them,
   * in order, as `@name`, separated by ", ".
   */
  function Finish(users: seq<Str>, subject: Str, contacts: map<Str, Contact>, updateOk: bool): (o: PromoteOutcome)
    ensures o == AskForUser <==> users == []
    ensures o.Promoted? <==> users != [] && updateOk
    ensures o.Promoted? ==>
      o.users == ValidUsers(users) && o.subject == subject && o.names == Join(Handles(ValidUsers(users), contacts), ", ")
    ensures o.PromoteFailed? ==> o.users == ValidUsers(users)
    ensures users != [] && !updateOk ==> o == PromoteFailed(ValidUsers(users))
  {
    if users == [] then AskForUser
    else
      var validUsers := ValidUsers(users);
      if updateOk then Promoted(validUsers, Join(Handles(validUsers, contacts), ", "), subject)
      else PromoteFailed(validUsers)
  }

  /** `if (!m.mentionedJid) m.mentionedJid = []; if (m.quoted?.participant) m.mentionedJid.push(...)` */
  method AddQuotedMention(m: Message)
    modifies m
    ensures m.mentionedJid == Some(WithQuoted(old(m.mentionedJid), m.quoted))
  {
    if m.mentionedJid.None? {
      m.mentionedJid := Some([]);
    }
    assert m.mentionedJid.value == if old(m.mentionedJid).Some? then old(m.mentionedJid).value else [];
    if m.quoted.Some? && m.quoted.value.participant != "" {
      m.mentionedJid := Some(m.mentionedJid.value + [m.quoted.value.participant]);
    } else {
      assert m.mentionedJid.value + [] == m.mentionedJid.value;
    }
  }

  /** The checks run in the source's order, the first failing one deciding the reply. */
  predicate PassesGates(cmd: Str, isGroup: bool, group: Option<Group>, botJid: Str, sender: Str) {
    cmd in ValidCommands && isGroup && group.Some?
    && AdminOf(group.value.participants, botJid) != "" && AdminOf(group.value.participants, sender) != ""
  }

  /**
   * The plugin.  It changes the message in place: once past the gates,
   * `m.mentionedJid` is created if missing and the quoted participant is
   * appended to it.
   */
  method Promote(m: Message, prefix: Str, botJid: Str, group: Option<Group>,
                 contacts: map<Str, Contact>, updateOk: bool) returns (o: PromoteOutcome)
    modifies m
    ensures var cmd := Cmd(m.body, prefix);
      if cmd !in ValidCommands then o == Ignored
      else if !m.isGroup then o == NotGroup
      else if group.None? then o == Error
      else if AdminOf(group.value.participants, botJid) == "" then o == BotNotAdmin
      else if AdminOf(group.value.participants, m.sender) == "" then o == SenderNotAdmin
      else o == Finish(Users(WithQuoted(old(m.mentionedJid), m.quoted), Rest(m.body, prefix)),
                       group.value.subject, contacts, updateOk)
    ensures PassesGates(Cmd(m.body, prefix), m.isGroup, group, botJid, m.sender) ==>
      m.mentionedJid == Some(WithQuoted(old(m.mentionedJid), m.quoted))
    ensures !PassesGates(Cmd(m.body, prefix), m.isGroup, group, botJid, m.sender) ==>
      m.mentionedJid == old(m.mentionedJid)
  {
    var cmd := Cmd(m.body, prefix);
    var text := Rest(m.body, prefix);
    if cmd !in ValidCommands {
      return Ignored;
    }
    if !m.isGroup {
      return NotGroup;
    }
    if group.None? {
      return Error;
    }
    var participants := group.value.participants;
    var botAdmin := AdminOf(participants, botJid);
    var senderAdmin := AdminOf(participants, m.sender);
    if botAdmin == "" {
      return BotNotAdmin;
    }
    if senderAdmin == "" {
      return SenderNotAdmin;
    }
    AddQuotedMention(m);
    var users := Users(m.mentionedJid.value, text);
    o := Finish(users, group.value.subject, contacts, updateOk);
  }
}
