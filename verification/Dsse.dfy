/** The pre-authentication encoding of DSSE: what is signed is the type and the payload, framed by their lengths. */
module Dsse {
  import opened Rollout
  import opened Decimal

  // Bytes as the characters they print as.
  type byte = c: char | c as int < 256 witness '0'
  type Bytes = seq<byte>

  const HEADER := "DSSEv1 "

  function Framed(s: string, rest: string): string {
    Render(|s|) + ([' '] + (s + rest))
  }

  function Pae(payloadType: Bytes, payload: Bytes): string {
    HEADER + Framed(payloadType, [' '] + Framed(payload, []))
  }

  /** The encoding as the DSSE protocol writes it out. */
  lemma PaeIsProtocol(payloadType: Bytes, payload: Bytes)
    ensures Pae(payloadType, payload) ==
            "DSSEv1 " + (Render(|payloadType|) + (" " + (payloadType + (" " + (Render(|payload|) + (" " + payload))))))
  {
    assert payload + [] == payload;
  }

  // ---------- reading it back ----------

  /** A length, a space, that many characters, and what follows; the length has no leading zeros. */
  function Unframe(s: string): Option<(string, string)> {
    var n := Leading(s);
    if n == 0 || n == |s| || s[n] != ' ' then None
    else
      var len := Number(s[..n]);
      var body := s[n + 1..];
      if Render(len) != s[..n] || len > |body| then None else Some((body[..len], body[len..]))
  }

  function Decode(s: string): Option<(string, string)> {
    if !(HEADER <= s) then None
    else
      match Unframe(s[|HEADER|..])
      case None => None
      case Some((payloadType, rest)) =>
        if rest == [] || rest[0] != ' ' then None
        else
          match Unframe(rest[1..])
          case None => None
          case Some((payload, end)) => if end != [] then None else Some((payloadType, payload))
  }

  lemma UnframeOfFramed(s: string, rest: string)
    ensures Unframe(Framed(s, rest)) == Some((s, rest))
  {
    var tail := [' '] + (s + rest);
    LeadingOf(Render(|s|), tail);
    NumberOfRender(|s|);
    assert Framed(s, rest)[|Render(|s|)|..][1..] == s + rest;
  }

  lemma FramedOfUnframe(text: string, s: string, rest: string)
    requires Unframe(text) == Some((s, rest))
    ensures text == Framed(s, rest)
  {
    var n := Leading(text);
    assert text == text[..n] + ([text[n]] + text[n + 1..]);
    assert text[n + 1..] == s + rest;
  }

  /** Decoding undoes encoding. */
  lemma DecodeOfPae(payloadType: Bytes, payload: Bytes)
    ensures Decode(Pae(payloadType, payload)) == Some((payloadType, payload))
  {
    var second := [' '] + Framed(payload, []);
    UnframeOfFramed(payloadType, second);
    UnframeOfFramed(payload, []);
    assert Pae(payloadType, payload)[|HEADER|..] == Framed(payloadType, second);
    assert second[1..] == Framed(payload, []);
  }

  /** Nothing else decodes: a text that decodes is the encoding of what it decodes to. */
  lemma PaeOfDecode(text: string, payloadType: Bytes, payload: Bytes)
    requires Decode(text) == Some((payloadType, payload))
    ensures text == Pae(payloadType, payload)
  {
    var first := text[|HEADER|..];
    var rest := Unframe(first).value.1;
    FramedOfUnframe(first, payloadType, rest);
    FramedOfUnframe(rest[1..], payload, []);
    assert rest == [' '] + rest[1..];
    assert text == HEADER + first;
  }

  /** Two envelopes with the same signed text have the same type and the same payload. */
  lemma PaeIsInjective(t1: Bytes, p1: Bytes, t2: Bytes, p2: Bytes)
    requires Pae(t1, p1) == Pae(t2, p2)
    ensures t1 == t2 && p1 == p2
  {
    DecodeOfPae(t1, p1);
    DecodeOfPae(t2, p2);
  }
}
