/**
 * The `tiktok`/`tt` command plugin: checks that the argument is a TikTok
 * address, asks the download service for it, and sends the video (and the
 * audio when there is one) with the description cut to 100 characters.
 * The service's answer is an input.
 */
module TikTokCommand {
  import opened Wrappers
  import opened JsString
  import opened Command

  const Commands: seq<Str> := ["tiktok", "tt"]

  /** The longest description shown before it is cut and "..." appended. */
  const MaxDescription: nat := 100

  /**
   * The parts of the service's `result` the plugin decides on: "" for a
   * missing `type`, `video` or `music`; `desc` is `None` when it is missing or not a string,
   * and `hasAuthor`/`hasStatistics` say whether those objects are present.
   */
  datatype TikTokResult = TikTokResult(kind: Str, video: Str, music: Str, desc: Option<Str>,
                                       hasAuthor: bool, hasStatistics: bool)

  /** `response.data`: its `success` flag and its `result`. */
  datatype ApiData = ApiData(success: bool, result: Option<TikTokResult>)

  /** The request either failed (the source's catch) or returned `data`, possibly none. */
  datatype ApiResponse = RequestFailed | Response(data: Option<ApiData>)

  /**
   * `SentThenError`: the video went out, then sending the audio failed and
   * the source's catch answered with its error reply.
   */
  datatype Download =
    | FetchFailed
    | NoVideo
    | Sent(video: Str, description: Str, audio: Option<Str>)
    | SentThenError(video: Str, description: Str)
    | DownloadError

  /** `Requested` is the only outcome in which the service is asked, for `url`. */
  datatype TikTokOutcome = Ignored | AskForUrl | InvalidUrl | Requested(url: Str, download: Download)

  /** `s.startsWith(a + b)` splits into a prefix `a` followed by `b`. */
  lemma StartsWithConcat(s: Str, a: Str, b: Str)
    ensures StartsWith(s, a + b) <==> StartsWith(s, a) && StartsWith(s[|a|..], b)
  {
    if StartsWith(s, a) && StartsWith(s[|a|..], b) {
      assert s[..|a| + |b|] == s[..|a|] + s[|a|..][..|b|];
    }
    if StartsWith(s, a + b) {
      assert s[..|a|] == (a + b)[..|a|];
      assert s[|a|..][..|b|] == (a + b)[|a|..];
    }
  }

  /** `url` without a leading `http://` or `https://`. */
  function AfterScheme(url: Str): Str {
    if StartsWith(url, "https://") then url[8..]
    else if StartsWith(url, "http://") then url[7..]
    else url
  }

  /** `url` without a leading `www.`. */
  function AfterWww(url: Str): Str {
    if StartsWith(url, "www.") then url[4..] else url
  }

  /** `/^(https?:\/\/)?(www\.)?(tiktok\.com|vm\.tiktok\.com)/`, read left to right. */
  predicate IsTikTokUrl(url: Str) {
    var host := AfterWww(AfterScheme(url));
    StartsWith(host, "tiktok.com") || StartsWith(host, "vm.tiktok.com")
  }

  /** The pattern's three parts: optional scheme, optional `www.`, one of two hosts. */
  const Schemes: seq<Str> := ["", "http://", "https://"]
  const Wwws: seq<Str> := ["", "www."]
  const Hosts: seq<Str> := ["tiktok.com", "vm.tiktok.com"]

  /** A start of `url` that the pattern matches: a choice for each of its parts. */
  predicate MatchesWith(url: Str, i: nat, j: nat, k: nat)
    requires i < |Schemes| && j < |Wwws| && k < |Hosts|
  {
    StartsWith(url, Schemes[i] + Wwws[j] + Hosts[k])
  }

  /** An address that starts with a scheme choice and then a non-'h' part loses exactly that scheme. */
  lemma SchemeOf(url: Str, i: nat, tail: Str)
    requires i < |Schemes| && StartsWith(url, Schemes[i] + tail) && |tail| > 0 && tail[0] != 'h'
    ensures AfterScheme(url) == url[|Schemes[i]|..] && StartsWith(AfterScheme(url), tail)
  {
    StartsWithConcat(url, Schemes[i], tail);
    if i == 0 {
      assert url[0] == tail[0];
    } else if i == 1 {
      assert url[4] == ':';
    }
  }

  /** An address part that starts with a `www.` choice and a host loses exactly that choice. */
  lemma WwwOf(rest: Str, j: nat, k: nat)
    requires j < |Wwws| && k < |Hosts| && StartsWith(rest, Wwws[j] + Hosts[k])
    ensures AfterWww(rest) == rest[|Wwws[j]|..] && StartsWith(AfterWww(rest), Hosts[k])
  {
    StartsWithConcat(rest, Wwws[j], Hosts[k]);
    if j == 0 {
      assert rest[0] == Hosts[k][0];
    }
  }

  /** The scheme choice the left-to-right reading strips. */
  lemma SchemeChoice(url: Str) returns (i: nat)
    ensures i < |Schemes| && url == Schemes[i] + AfterScheme(url)
  {
    if StartsWith(url, "https://") {
      i := 2;
      assert url == url[..8] + url[8..];
    } else if StartsWith(url, "http://") {
      i := 1;
      assert url == url[..7] + url[7..];
    } else {
      i := 0;
      assert url == [] + url;
    }
  }

  /** The `www.` choice the left-to-right reading strips. */
  lemma WwwChoice(rest: Str) returns (j: nat)
    ensures j < |Wwws| && rest == Wwws[j] + AfterWww(rest)
  {
    if StartsWith(rest, "www.") {
      j := 1;
      assert rest == rest[..4] + rest[4..];
    } else {
      j := 0;
      assert rest == [] + rest;
    }
  }

  /** A prefix `c` of the rest after `a` and `b` makes `a + b + c` a prefix of the whole. */
  lemma Compose(url: Str, a: Str, b: Str, c: Str, rest: Str, host: Str)
    requires url == a + rest && rest == b + host && StartsWith(host, c)
    ensures StartsWith(url, a + b + c)
  {
    assert url == (a + b) + host;
    assert url[..|a + b| + |c|] == (a + b) + host[..|c|];
  }

  /** The host choice the left-to-right reading found. */
  lemma HostChoice(host: Str) returns (k: nat)
    requires StartsWith(host, "tiktok.com") || StartsWith(host, "vm.tiktok.com")
    ensures k < |Hosts| && StartsWith(host, Hosts[k])
  {
    k := if StartsWith(host, "tiktok.com") then 0 else 1;
  }

  /** Whatever the left-to-right reading accepts, the pattern matches with the choices it made. */
  lemma UrlAcceptedMatches(url: Str)
    requires IsTikTokUrl(url)
    ensures exists i, j, k :: 0 <= i < 3 && 0 <= j < 2 && 0 <= k < 2 && MatchesWith(url, i, j, k)
  {
    var i := SchemeChoice(url);
    var rest := AfterScheme(url);
    var j := WwwChoice(rest);
    var host := AfterWww(rest);
    var k := HostChoice(host);
    Compose(url, Schemes[i], Wwws[j], Hosts[k], rest, host);
    assert MatchesWith(url, i, j, k);
  }

  /** Whatever the pattern matches, the left-to-right reading accepts. */
  lemma UrlMatchAccepted(url: Str, i: nat, j: nat, k: nat)
    requires 0 <= i < 3 && 0 <= j < 2 && 0 <= k < 2 && MatchesWith(url, i, j, k)
    ensures IsTikTokUrl(url)
  {
    var tail := Wwws[j] + Hosts[k];
    assert Schemes[i] + Wwws[j] + Hosts[k] == Schemes[i] + tail;
    assert tail[0] != 'h';
    SchemeOf(url, i, tail);
    WwwOf(AfterScheme(url), j, k);
  }

  /** The left-to-right reading accepts exactly the addresses the pattern matches. */
  lemma UrlMatchesPattern(url: Str)
    ensures IsTikTokUrl(url) <==> exists i, j, k :: 0 <= i < 3 && 0 <= j < 2 && 0 <= k < 2 && MatchesWith(url, i, j, k)
  {
    if IsTikTokUrl(url) {
      UrlAcceptedMatches(url);
    }
    forall i, j, k | 0 <= i < 3 && 0 <= j < 2 && 0 <= k < 2 && MatchesWith(url, i, j, k)
      ensures IsTikTokUrl(url)
    {
      UrlMatchAccepted(url, i, j, k);
    }
  }

  /** `desc.substring(0, 100) + (desc.length > 100 ? '...' : '')` */
  function ShownDescription(desc: Str): (r: Str)
    ensures |desc| <= MaxDescription ==> r == desc
    ensures |desc| > MaxDescription ==> |r| == MaxDescription + 3 && r == desc[..MaxDescription] + "..."
  {
    var cut := if |desc| < MaxDescription then |desc| else MaxDescription;
    desc[..cut] + (if |desc| > MaxDescription then "..." else "")
  }

  /** A successful answer whose result is a video with an address. */
  predicate HasVideo(response: ApiResponse) {
    response.Response? && response.data.Some? && response.data.value.success
    && response.data.value.result.Some? && response.data.value.result.value.kind == "video"
    && response.data.value.result.value.video != ""
  }

  /** The caption reads `author.nickname`, `statistics.*` and `desc.substring`; a missing one throws. */
  predicate CaptionOk(result: TikTokResult) {
    result.hasAuthor && result.hasStatistics && result.desc.Some?
  }

  /**
   * What happens once the service is asked: no data, `success` false or no
   * `result` is a failed fetch; a result that is not a video or has no video
   * address is refused; a caption that cannot be built or a video that
   * cannot be sent ends in the error reply; otherwise the video is sent,
   * then the audio when there is a `music` address.  `videoSent` and
   * `audioSent` are whether those two sends succeeded.
   */
  function Fetch(response: ApiResponse, videoSent: bool, audioSent: bool): (d: Download)
    ensures d == FetchFailed <==> (response.Response? &&
      (response.data.None? || !response.data.value.success || response.data.value.result.None?))
    ensures d == NoVideo <==> (response.Response? && response.data.Some? && response.data.value.success
      && response.data.value.result.Some? && !HasVideo(response))
    ensures d == DownloadError <==> (response == RequestFailed
      || (HasVideo(response) && !(CaptionOk(response.data.value.result.value) && videoSent)))
    ensures d.Sent? <==> (HasVideo(response) && CaptionOk(response.data.value.result.value) && videoSent
      && (response.data.value.result.value.music == "" || audioSent))
    ensures d.SentThenError? <==> (HasVideo(response) && CaptionOk(response.data.value.result.value) && videoSent
      && response.data.value.result.value.music != "" && !audioSent)
    ensures d.Sent? || d.SentThenError? ==> var result := response.data.value.result.value;
      d.video == result.video && d.description == ShownDescription(result.desc.value)
    ensures d.Sent? ==> var result := response.data.value.result.value;
      (d.audio.Some? <==> result.music != "") && (d.audio.Some? ==> d.audio.value == result.music)
  {
    match response
    case RequestFailed => DownloadError
    case Response(data) =>
      if data.None? || !data.value.success || data.value.result.None? then FetchFailed
      else
        var result := data.value.result.value;
        if result.kind != "video" || result.video == "" then NoVideo
        else if !CaptionOk(result) || !videoSent then DownloadError
        else
          var description := ShownDescription(result.desc.value);
          if result.music == "" then Sent(result.video, description, None)
          else if audioSent then Sent(result.video, description, Some(result.music))
          else SentThenError(result.video, description)
  }

  /** The command words the plugin answers to. */
  lemma CommandsAre(c: Str)
    ensures c in Commands <==> c == "tiktok" || c == "tt"
  {
  }

  /** How the gates before the request end: with a reply, or with the address to ask for. */
  datatype Gate = Stop(outcome: TikTokOutcome) | Proceed(url: Str)

  /** The gates before the request: the command word, a non-empty argument text, the address check. */
  function Check(body: Str, prefix: Str): (g: Gate)
    ensures g == Stop(Ignored) <==> Cmd(body, prefix) !in Commands
    ensures g == Stop(AskForUrl) <==> Cmd(body, prefix) in Commands && Rest(body, prefix) == []
    ensures g == Stop(InvalidUrl) <==> Cmd(body, prefix) in Commands && Rest(body, prefix) != [] && !IsTikTokUrl(Rest(body, prefix))
    ensures g.Stop? ==> g.outcome in {Ignored, AskForUrl, InvalidUrl}
    ensures g.Proceed? ==> g.url == Rest(body, prefix) && IsTikTokUrl(g.url)
  {
    var cmd := Cmd(body, prefix);
    var args := Args(body, prefix);
    CommandsAre(cmd);
    if cmd == "tiktok" || cmd == "tt" then
      if |args| == 0 || Join(args, " ") == [] then Stop(AskForUrl)
      else
        var url := Join(args, " ");
        if !IsTikTokUrl(url) then Stop(InvalidUrl)
        else Proceed(url)
    else Stop(Ignored)
  }

  /** The plugin for one message. */
  function TikTok(body: Str, prefix: Str, response: ApiResponse, videoSent: bool, audioSent: bool): (o: TikTokOutcome)
    ensures o == Ignored <==> Cmd(body, prefix) !in Commands
    ensures o == AskForUrl <==> Cmd(body, prefix) in Commands && Rest(body, prefix) == []
    ensures o == InvalidUrl <==> Cmd(body, prefix) in Commands && Rest(body, prefix) != [] && !IsTikTokUrl(Rest(body, prefix))
    ensures o.Requested? ==> o.url == Rest(body, prefix) && IsTikTokUrl(o.url) && o.download == Fetch(response, videoSent, audioSent)
  {
    match Check(body, prefix)
    case Stop(outcome) => outcome
    case Proceed(url) => Requested(url, Fetch(response, videoSent, audioSent))
  }
}
