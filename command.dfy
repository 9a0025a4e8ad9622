/**
 * What the command plugins share: the incoming message, and the extraction
 * of the command word and its argument text from the message body.
 */
module Command {
  import opened Wrappers
  import opened JsString

  /** `m.quoted`: the quoted message's sender and, in groups, its participant. */
  datatype Quoted = Quoted(sender: Str, participant: Str)

  /**
   * The message object every plugin receives.  Only `mentionedJid` is ever
   * changed in place (by the promote plugin); the rest is fixed.
   */
  class Message {
    const body: Str
    const sender: Str
    const from: Str
    const isGroup: bool
    const quoted: Option<Quoted>
    var mentionedJid: Option<seq<Str>>

    constructor (body: Str, sender: Str, from: Str, isGroup: bool, quoted: Option<Quoted>, mentionedJid: Option<seq<Str>>)
      ensures this.body == body && this.sender == sender && this.from == from && this.isGroup == isGroup
      ensures this.quoted == quoted && this.mentionedJid == mentionedJid
    {
      this.body := body;
      this.sender := sender;
      this.from := from;
      this.isGroup := isGroup;
      this.quoted := quoted;
      this.mentionedJid := mentionedJid;
    }
  }

  /**
   * `body.startsWith(prefix) ? body.slice(prefix.length).split(" ")[0].toLowerCase() : ""`:
   * "" without the prefix; otherwise a word without spaces that fits after the prefix.
   */
  function Cmd(body: Str, prefix: Str): (r: Str)
    ensures !StartsWith(body, prefix) ==> r == []
    ensures StartsWith(body, prefix) ==> |prefix| + |r| <= |body|
    ensures forall k :: 0 <= k < |r| ==> r[k] != ' '
  {
    if StartsWith(body, prefix) then
      var t := Slice(body, |prefix|);
      var w := Split(t, " ")[0];
      FirstPiece(t, " ");
      assert forall k :: 0 <= k < |w| ==> w[k] != ' ' by {
        forall k | 0 <= k < |w| ensures w[k] != ' ' {
          assert !OccursAt(t, " ", k);
          assert t[k..k + 1] == [w[k]];
        }
      }
      Lower(w)
    else ""
  }

  /**
   * `body.slice(prefix.length + cmd.length).trim()`: text of the body that
   * neither starts nor ends with white space.
   */
  function Rest(body: Str, prefix: Str): (r: Str)
    ensures |r| <= |body|
    ensures r == [] || (!IsSpace(r[0]) && !IsSpace(r[|r| - 1]))
  {
    Trim(Slice(body, |prefix| + |Cmd(body, prefix)|))
  }

  /**
   * `body.slice(prefix.length + cmd.length).trim().split(" ")`: never empty,
   * and joining it with spaces gives the argument text back.
   */
  function Args(body: Str, prefix: Str): (r: seq<Str>)
    ensures |r| >= 1
    ensures Join(r, " ") == Rest(body, prefix)
  {
    JoinSplit(Rest(body, prefix), " ");
    Split(Rest(body, prefix), " ")
  }

  /**
   * After the prefix, the command is the first word of the body, lowered:
   * it runs up to the first space or the end, and the argument text is the
   * remainder, trimmed.  Without the prefix the command is "".
   */
  lemma CommandIsFirstWord(body: Str, prefix: Str)
    ensures !StartsWith(body, prefix) ==> Cmd(body, prefix) == []
    ensures StartsWith(body, prefix) ==>
      var e := |prefix| + |Cmd(body, prefix)|;
      e <= |body|
      && (forall k :: |prefix| <= k < e ==> body[k] != ' ')
      && Lower(body[|prefix|..e]) == Cmd(body, prefix)
      && (e == |body| || body[e] == ' ')
      && Rest(body, prefix) == Trim(body[e..])
  {
    if StartsWith(body, prefix) {
      var t := body[|prefix|..];
      FirstPiece(t, " ");
      var w := Split(t, " ")[0];
      var e := |prefix| + |w|;
      assert w == t[..|w|];
      assert body[|prefix|..e] == w;
      forall k | |prefix| <= k < e ensures body[k] != ' ' {
        assert !OccursAt(t, " ", k - |prefix|);
        assert t[k - |prefix|..k - |prefix| + 1] == [body[k]];
      }
      if w != t {
        assert OccursAt(t, " ", |w|);
        assert t[|w|..|w| + 1] == [body[e]];
      }
    }
  }
}
