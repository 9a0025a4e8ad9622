/**
 * The `block` command plugin: only the bot itself or an owner may use it;
 * the target is the first mention, else the quoted sender, else the phone
 * number in the arguments; the bot and the owners cannot be blocked.
 * `botJid` is the decoded bot identity and `blockOk` whether
 * `updateBlockStatus` succeeded.
 */
module BlockCommand {
  import opened Wrappers
  import opened JsString
  import opened Command

  const JidSuffix: Str := "@s.whatsapp.net"

  /** The shortest phone number accepted from the arguments. */
  const MinDigits: nat := 10

  datatype BlockOutcome =
    | Ignored
    | NotOwner
    | AskForTarget
    | InvalidNumber
    | Protected(target: Str)
    | Blocked(target: Str, shown: Str)
    | BlockFailed(target: Str)

  /** The target chosen, or the reply that ends the command before one is known. */
  datatype Selection = Target(jid: Str) | Refused(reply: BlockOutcome)

  /** `jid.split('@')[0]` */
  function UserPart(jid: Str): Str {
    Split(jid, "@")[0]
  }

  /**
   * The user part is the whole text before the first '@': a prefix of the
   * identifier that holds no '@' and is followed by '@' or is all of it.
   */
  lemma UserPartIsPrefix(jid: Str)
    ensures UserPart(jid) <= jid
    ensures forall k :: 0 <= k < |UserPart(jid)| ==> UserPart(jid)[k] != '@'
    ensures UserPart(jid) == jid || jid[|UserPart(jid)|] == '@'
  {
    FirstPiece(jid, "@");
    var u := UserPart(jid);
    if u != jid {
      assert OccursAt(jid, "@", |u|);
      assert jid[|u|..|u| + 1] == "@";
    }
    forall k | 0 <= k < |u| ensures u[k] != '@' {
      assert !OccursAt(jid, "@", k);
      assert jid[k..k + 1] == [u[k]];
    }
  }

  /** Digits followed by the WhatsApp suffix have those digits as user part. */
  lemma UserPartOfNumber(d: Str)
    requires forall k :: 0 <= k < |d| ==> IsDigit(d[k])
    ensures UserPart(d + JidSuffix) == d
  {
    var jid := d + JidSuffix;
    assert OccursAt(jid, "@", |d|) by { assert jid[|d|..|d| + 1] == [JidSuffix[0]]; }
    forall j | 0 <= j < |d| ensures !OccursAt(jid, "@", j) {
      assert jid[j..j + 1] == [d[j]];
    }
    assert IndexOf(jid, "@") == Some(|d|);
    assert Split(jid, "@")[0] == jid[..|d|];
  }

  /** `OWNER_NUMBER.split(',').map(v => v.replace(/[^0-9]/g, '') + '@s.whatsapp.net')` */
  function OwnerJids(ownerNumber: Str): (r: seq<Str>)
    ensures |r| == |Split(ownerNumber, ",")|
    ensures forall i :: 0 <= i < |r| ==> UserPart(r[i]) == Digits(Split(ownerNumber, ",")[i])
    ensures forall i :: 0 <= i < |r| ==> r[i] == UserPart(r[i]) + JidSuffix
  {
    var parts := Split(ownerNumber, ",");
    var r := seq(|parts|, i requires 0 <= i < |parts| => Digits(parts[i]) + JidSuffix);
    assert forall i :: 0 <= i < |r| ==> UserPart(r[i]) == Digits(parts[i]) by {
      forall i | 0 <= i < |r| ensures UserPart(r[i]) == Digits(parts[i]) {
        UserPartOfNumber(Digits(parts[i]));
      }
    }
    r
  }

  /** `[botNumber, ...ownerJids].includes(m.sender)` */
  predicate IsCreator(sender: Str, botJid: Str, ownerNumber: Str): (b: bool)
    ensures b <==> (sender == botJid
      || exists i :: 0 <= i < |Split(ownerNumber, ",")| && sender == Digits(Split(ownerNumber, ",")[i]) + JidSuffix)
  {
    InOwnerJids(sender, ownerNumber);
    sender in [botJid] + OwnerJids(ownerNumber)
  }

  /** Being one of the owner identifiers is being the digits of one comma-separated entry plus the suffix. */
  lemma InOwnerJids(sender: Str, ownerNumber: Str)
    ensures sender in OwnerJids(ownerNumber) <==>
      exists i :: 0 <= i < |Split(ownerNumber, ",")| && sender == Digits(Split(ownerNumber, ",")[i]) + JidSuffix
  {
    var parts := Split(ownerNumber, ",");
    var owners := OwnerJids(ownerNumber);
    forall i | 0 <= i < |owners| ensures owners[i] == Digits(parts[i]) + JidSuffix {
      assert owners[i] == UserPart(owners[i]) + JidSuffix;
    }
  }

  /** `body.slice(prefix.length + 'block'.length).trim()` */
  function BlockArgs(body: Str, prefix: Str): Str {
    Trim(Slice(body, |prefix| + |"block"|))
  }

  /**
   * The target: the first mention if it is set, then the quoted sender,
   * then the digits of the arguments (at least ten of them) as a WhatsApp
   * identifier; with none of these the user is asked for a target.
   */
  function SelectTarget(mentioned: Option<seq<Str>>, quoted: Option<Quoted>, args: Str): (r: Selection)
    ensures mentioned.Some? && |mentioned.value| > 0 && mentioned.value[0] != "" ==> r == Target(mentioned.value[0])
    ensures !(mentioned.Some? && |mentioned.value| > 0 && mentioned.value[0] != "") && quoted.Some? ==>
      r == Target(quoted.value.sender)
    ensures !(mentioned.Some? && |mentioned.value| > 0 && mentioned.value[0] != "") && quoted.None? ==>
      (r == Refused(AskForTarget) <==> args == [])
      && (r == Refused(InvalidNumber) <==> args != [] && |Digits(args)| < MinDigits)
      && (r.Target? ==> |UserPart(r.jid)| >= MinDigits && UserPart(r.jid) == Digits(args)
                        && r.jid == UserPart(r.jid) + JidSuffix)
      && (args != [] && |Digits(args)| >= MinDigits ==> r == Target(Digits(args) + JidSuffix))
  {
    if mentioned.Some? && |mentioned.value| > 0 && mentioned.value[0] != "" then Target(mentioned.value[0])
    else if quoted.Some? then Target(quoted.value.sender)
    else if args != [] then
      var number := Digits(args);
      if |number| < MinDigits then Refused(InvalidNumber)
      else
        UserPartOfNumber(number);
        Target(number + JidSuffix)
    else Refused(AskForTarget)
  }

  /** The whole command for one message. */
  function Block(body: Str, sender: Str, mentioned: Option<seq<Str>>, quoted: Option<Quoted>,
                 prefix: Str, ownerNumber: Str, botJid: Str, blockOk: bool): (r: BlockOutcome)
    ensures r != Ignored <==> StartsWith(Lower(body), prefix + "block")
    ensures r == NotOwner <==> StartsWith(Lower(body), prefix + "block") && !IsCreator(sender, botJid, ownerNumber)
    ensures r.Protected? || r.Blocked? || r.BlockFailed? ==>
      IsCreator(sender, botJid, ownerNumber)
      && SelectTarget(mentioned, quoted, BlockArgs(body, prefix)) == Target(r.target)
    ensures r.Protected? ==> r.target == botJid || r.target in OwnerJids(ownerNumber)
    ensures StartsWith(Lower(body), prefix + "block") && IsCreator(sender, botJid, ownerNumber) ==>
      match SelectTarget(mentioned, quoted, BlockArgs(body, prefix))
      case Refused(reply) => r == reply
      case Target(t) =>
        ((t == botJid || t in OwnerJids(ownerNumber)) ==> r == Protected(t))
        && (!(t == botJid || t in OwnerJids(ownerNumber)) ==>
              r == (if blockOk then Blocked(t, UserPart(t)) else BlockFailed(t)))
    ensures r.Blocked? || r.BlockFailed? ==> r.target != botJid && r.target !in OwnerJids(ownerNumber)
    ensures r.Blocked? ==> blockOk && r.shown == UserPart(r.target)
  {
    if !StartsWith(Lower(body), prefix + "block") then Ignored
    else if !IsCreator(sender, botJid, ownerNumber) then NotOwner
    else
      var owners := OwnerJids(ownerNumber);
      match SelectTarget(mentioned, quoted, BlockArgs(body, prefix))
      case Refused(reply) => reply
      case Target(users) =>
        if users == botJid || users in owners then Protected(users)
        else if blockOk then Blocked(users, UserPart(users))
        else BlockFailed(users)
  }

  /** An owner's own number typed as the argument is refused like the owner's identifier. */
  lemma OwnerNumberIsProtected(body: Str, sender: Str, prefix: Str, ownerNumber: Str, botJid: Str, blockOk: bool, i: nat)
    ensures StartsWith(Lower(body), prefix + "block") && IsCreator(sender, botJid, ownerNumber)
      && i < |Split(ownerNumber, ",")|
      && Digits(BlockArgs(body, prefix)) == Digits(Split(ownerNumber, ",")[i])
      && |Digits(BlockArgs(body, prefix))| >= MinDigits
      ==> Block(body, sender, None, None, prefix, ownerNumber, botJid, blockOk) == Protected(OwnerJids(ownerNumber)[i])
  {
    if i < |Split(ownerNumber, ",")| && Digits(BlockArgs(body, prefix)) == Digits(Split(ownerNumber, ",")[i])
      && |Digits(BlockArgs(body, prefix))| >= MinDigits {
      OwnerNumberTarget(BlockArgs(body, prefix), ownerNumber, i);
    }
  }

  /** Arguments whose digits are an owner's entry select exactly that owner's identifier. */
  lemma OwnerNumberTarget(args: Str, ownerNumber: Str, i: nat)
    requires i < |Split(ownerNumber, ",")| && Digits(args) == Digits(Split(ownerNumber, ",")[i])
    requires |Digits(args)| >= MinDigits
    ensures i < |OwnerJids(ownerNumber)| && SelectTarget(None, None, args) == Target(OwnerJids(ownerNumber)[i])
  {
    var owners := OwnerJids(ownerNumber);
    assert owners[i] == UserPart(owners[i]) + JidSuffix;
  }
}
