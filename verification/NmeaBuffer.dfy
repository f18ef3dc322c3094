/** How loc_eng_nmea.cpp builds a sentence piece by piece in a fixed buffer and sends it. */
module NmeaBuffer {
  import opened NmeaChecksum

  const NMEA_SENTENCE_MAX_LENGTH := 200

  /** What the NMEA callback is given: the C string in the buffer, and a length. */
  datatype Message = Message(text: string, length: nat)

  /** What is sent for a text: as much of its complete sentence as the buffer has room for. */
  function Transmitted(body: string): Message
    requires body != ""
  {
    Message(Sentence(body)[..Min(|body| + 5, NMEA_SENTENCE_MAX_LENGTH - 1)], |body| + 4)
  }

  lemma TransmittedWhole(body: string)
    requires body != "" && |body| + 5 < NMEA_SENTENCE_MAX_LENGTH
    ensures Transmitted(body).text == Sentence(body)
  {
    assert Sentence(body)[..|body| + 5] == Sentence(body);
  }

  /** The text of a sentence before its checksum. */
  type Text = s: string | s != "" witness "$"

  /** The messages for the first k of some texts. */
  function Messages(bodies: seq<Text>, k: nat): seq<Message>
    requires k <= |bodies|
  {
    seq(k, i requires 0 <= i < k => Transmitted(bodies[i]))
  }

  /** How many texts there are, from text k on, before one that does not fit into the buffer. */
  function Fitting(bodies: seq<Text>, k: nat): (n: nat)
    requires k <= |bodies|
    ensures k <= n <= |bodies|
    decreases |bodies| - k
  {
    if k < |bodies| && |bodies[k]| < NMEA_SENTENCE_MAX_LENGTH then Fitting(bodies, k + 1) else k
  }

  lemma {:induction false} AllFit(bodies: seq<Text>, k: nat)
    requires k <= |bodies| && forall i :: k <= i < |bodies| ==> |bodies[i]| < NMEA_SENTENCE_MAX_LENGTH
    ensures Fitting(bodies, k) == |bodies|
    decreases |bodies| - k
  {
    if k < |bodies| {
      AllFit(bodies, k + 1);
    }
  }

  /** The buffer holds a text as a C string. */
  predicate Holds(s: string, body: string) {
    |body| < |s| && s[..|body|] == body && s[|body|] == '\0'
  }

  /** One snprintf at the marker, and the check that follows it. */
  method Append(buf: array<char>, pMarker: nat, lengthRemaining: nat, text: string,
                ghost body: string, ghost next: string)
    returns (fits: bool, marker: nat, remaining: nat)
    requires pMarker == |body| && pMarker + lengthRemaining == buf.Length && 0 < lengthRemaining
    requires buf[..pMarker] == body && next == body + text
    modifies buf
    ensures fits <==> |next| < buf.Length
    ensures fits ==> Holds(buf[..], next) && marker == |next| && marker + remaining == buf.Length
  {
    marker, remaining := pMarker, lengthRemaining;
    var length := Snprintf(buf, pMarker, lengthRemaining, text);
    fits := length < lengthRemaining;
    if fits {
      assert text[..|text|] == text;
      marker, remaining := pMarker + length, lengthRemaining - length;
    }
  }

  /** strlcpy of a text into the empty buffer. */
  method Put(buf: array<char>, text: string)
    requires |text| < buf.Length
    modifies buf
    ensures Holds(buf[..], text)
  {
    var _ := Snprintf(buf, 0, buf.Length, text);
    assert text[..|text|] == text;
  }

  /** The C string in the buffer, as the callback's receiver takes it. */
  method CString(buf: array<char>, ghost n: nat) returns (s: string)
    requires EndsAt(buf[..], n)
    ensures s == buf[..n]
  {
    var i := 0;
    while buf[i] != '\0'
      invariant i <= n
      decreases n - i
    {
      i := i + 1;
    }
    s := buf[..i];
  }

  /** loc_eng_nmea_put_checksum, then loc_eng_nmea_send. */
  method Send(buf: array<char>, ghost body: string) returns (m: Message)
    requires buf.Length == NMEA_SENTENCE_MAX_LENGTH
    requires Holds(buf[..], body) && body != "" && '\0' !in body
    modifies buf
    ensures m == Transmitted(body)
  {
    ghost var before, n := buf[..], |body|;
    assert before[..n] == body;
    var length := PutChecksum(buf, n);
    BufferHoldsSentence(before, buf[..], n);
    var text := CString(buf, if n + 5 < buf.Length then n + 5 else buf.Length - 1);
    m := Message(text, length);
  }

  /** The text that was to be built in the buffer is sent, unless it did not fit. */
  method SendIf(fits: bool, buf: array<char>, ghost bodies: seq<Text>, ghost k: nat) returns (m: Message)
    requires buf.Length == NMEA_SENTENCE_MAX_LENGTH && k < |bodies| && '\0' !in bodies[k]
    requires fits <==> |bodies[k]| < NMEA_SENTENCE_MAX_LENGTH
    requires fits ==> Holds(buf[..], bodies[k])
    modifies buf
    ensures fits ==> Messages(bodies, k + 1) == Messages(bodies, k) + [m]
    ensures Fitting(bodies, k) == if fits then Fitting(bodies, k + 1) else k
  {
    m := Message("", 0);
    if fits {
      m := Send(buf, bodies[k]);
    }
  }

  /** strlcpy of a text into the buffer, its checksum, and the send. */
  method SendText(buf: array<char>, text: string) returns (m: Message)
    requires buf.Length == NMEA_SENTENCE_MAX_LENGTH && 0 < |text| < NMEA_SENTENCE_MAX_LENGTH && '\0' !in text
    modifies buf
    ensures m == Transmitted(text)
  {
    Put(buf, text);
    m := Send(buf, text);
  }
}
