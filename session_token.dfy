/**
 * The session-token envelope read by `downloadSessionData`: a token is either
 * the session data itself or an `http…` address from which it is fetched;
 * the data must start with the marker `EF-PRIME;;;`, and the credential
 * payload is the piece after that marker, trimmed.  The fetch is an input
 * (what the address returned, or `None` when the request failed) and the
 * base64 decode and the file write happen in the caller.
 */
module SessionToken {
  import opened Wrappers
  import opened JsString

  const Marker: Str := "EF-PRIME;;;"

  /** How an import ends: `Payload` is the base64 text whose decoding is written to `creds.json`. */
  datatype ImportResult = FetchFailed | InvalidFormat | Payload(base64: Str)

  /** A token that names an address rather than carrying the data. */
  predicate IsAddress(token: Str) {
    StartsWith(token, "http")
  }

  /** The session data: what the address returned, or the token verbatim. */
  function SessionData(token: Str, fetched: Option<Str>): (d: Option<Str>)
    ensures !IsAddress(token) ==> d == Some(token)
    ensures IsAddress(token) ==> d == fetched
  {
    if IsAddress(token) then fetched else Some(token)
  }

  /** `downloadSessionData` up to the write: the outcome of reading a token. */
  function Import(token: Str, fetched: Option<Str>): (r: ImportResult)
    ensures r == FetchFailed <==> IsAddress(token) && fetched.None?
    ensures r == InvalidFormat <==> SessionData(token, fetched).Some? && !StartsWith(SessionData(token, fetched).value, Marker)
    ensures r.Payload? ==> StartsWith(SessionData(token, fetched).value, Marker)
  {
    match SessionData(token, fetched)
    case None => FetchFailed
    case Some(data) =>
      if !StartsWith(data, Marker) then InvalidFormat
      else
        SplitAfterLeading(data, Marker);
        Payload(Trim(Split(data, Marker)[1]))
  }

  /**
   * The payload is the text between the leading marker and the next
   * occurrence of the marker (or the end of the data), trimmed.
   */
  lemma PayloadIsNextSegment(token: Str, fetched: Option<Str>, data: Str)
    requires SessionData(token, fetched) == Some(data) && StartsWith(data, Marker)
    ensures exists j :: (|Marker| <= j <= |data|
      && (j == |data| || OccursAt(data, Marker, j))
      && (forall k :: |Marker| <= k < j ==> !OccursAt(data, Marker, k))
      && Import(token, fetched) == Payload(Trim(data[|Marker|..j])))
  {
    var j := SecondPiece(data, Marker);
  }

  /** The characters of standard base64 text, padding included. */
  predicate IsBase64Char(c: char) {
    ('A' <= c <= 'Z') || ('a' <= c <= 'z') || ('0' <= c <= '9') || c == '+' || c == '/' || c == '='
  }

  /** The marker holds a '-', which base64 text never does, so it cannot occur in it. */
  lemma NoMarkerInBase64(b: Str)
    requires forall k :: 0 <= k < |b| ==> IsBase64Char(b[k])
    ensures IndexOf(b, Marker).None?
  {
    assert Marker[2] == '-';
    forall j | 0 <= j <= |b| ensures !OccursAt(b, Marker, j) {
      if j + |Marker| <= |b| {
        assert b[j..j + |Marker|][2] == b[j + 2];
        assert IsBase64Char(b[j + 2]);
      }
    }
  }

  /** Wrapping base64 text in the envelope and importing it gives the text back. */
  lemma EnvelopeRoundTrip(b: Str, fetched: Option<Str>)
    requires forall k :: 0 <= k < |b| ==> IsBase64Char(b[k])
    ensures Import(Marker + b, fetched) == Payload(b)
  {
    var data := Marker + b;
    assert !IsAddress(data) by { assert data[0] == 'E'; }
    assert data[..|Marker|] == Marker;
    NoMarkerInBase64(b);
    SplitEnvelope(Marker, b);
    TrimNoSpaces(b);
  }
}
