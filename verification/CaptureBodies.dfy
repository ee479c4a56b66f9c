/**
  Captured bodies of internal/plugin/traffic_capture.go: at most two mebibytes of each are
  kept, whole or as a prefix, whether they arrive at once or chunk by chunk.
 */
module CaptureBodies {

  type Bytes = seq<bv8>

  const MAX_BODY_BYTES := 2 * 1024 * 1024

  /** The longest rune of UTF-8. */
  const UTF_MAX := 4

  datatype Body = Body(data: Bytes, size: nat, truncated: bool, binary: bool)

  const NO_BODY := Body([], 0, false, false)

  /** trimUTF8Tail: drops a rune split by the limit, never more than one; which bytes are valid UTF-8 is left open. */
  function TrimTail(raw: Bytes, valid: Bytes -> bool, cut: nat): (r: Bytes)
    requires cut <= UTF_MAX
    ensures r <= raw && |raw| - |r| < UTF_MAX
    ensures valid(r) || r == raw
    decreases UTF_MAX - cut
  {
    if cut >= UTF_MAX || cut >= |raw| then raw
    else if valid(raw[..|raw| - cut]) then raw[..|raw| - cut]
    else TrimTail(raw, valid, cut + 1)
  }

  /** captureBodyOf. */
  function BodyOf(raw: Bytes, valid: Bytes -> bool): (b: Body)
    ensures b.size == |raw| && b.data <= raw && |b.data| <= MAX_BODY_BYTES
    ensures b.binary ==> b.data == []
    ensures !b.binary && raw != [] ==> valid(b.data) && |raw| - |b.data| < UTF_MAX + if b.truncated then |raw| - MAX_BODY_BYTES else 0
    ensures b.truncated <==> |raw| > MAX_BODY_BYTES
  {
    if raw == [] then NO_BODY else
    var truncated := |raw| > MAX_BODY_BYTES;
    var cut := if truncated then TrimTail(raw[..MAX_BODY_BYTES], valid, 0) else raw;
    if valid(cut) then Body(cut, |raw|, truncated, false) else Body([], |raw|, truncated, true)
  }

  /** appendCaptureBody: the body with one more chunk, and by how much it grew. */
  function Appended(b: Body, chunk: Bytes): (r: Body)
    ensures |b.data| <= MAX_BODY_BYTES ==> |r.data| <= MAX_BODY_BYTES
    ensures b.data <= r.data && r.size == b.size + |chunk| && |r.data| - |b.data| <= |chunk|
  {
    var sized := b.(size := b.size + |chunk|);
    if b.truncated || b.binary then sized
    else
      var room := MAX_BODY_BYTES - |b.data|;
      if |chunk| > room then sized.(truncated := true, data := b.data + chunk[..if room > 0 then room else 0])
      else sized.(data := b.data + chunk)
  }

  method AppendBody(b: Body, chunk: Bytes) returns (r: Body, grown: nat)
    ensures r == Appended(b, chunk) && grown == |r.data| - |b.data|
  {
    r := b.(size := b.size + |chunk|);
    if b.truncated || b.binary { return r, 0; }
    var kept, room := chunk, MAX_BODY_BYTES - |b.data|;
    if |chunk| > room {
      r := r.(truncated := true);
      kept := chunk[..if room > 0 then room else 0];
    }
    r := r.(data := r.data + kept);
    return r, |kept|;
  }

  function Joined(chunks: seq<Bytes>): Bytes {
    if chunks == [] then [] else Joined(chunks[..|chunks| - 1]) + chunks[|chunks| - 1]
  }

  function Streamed(chunks: seq<Bytes>): (b: Body)
    ensures |b.data| <= MAX_BODY_BYTES
  {
    if chunks == [] then NO_BODY else Appended(Streamed(chunks[..|chunks| - 1]), chunks[|chunks| - 1])
  }

  /** However a response is cut into chunks, what is kept is the beginning of the whole, up to the limit. */
  lemma {:induction false} StreamingKeepsThePrefix(chunks: seq<Bytes>)
    ensures var all, b := Joined(chunks), Streamed(chunks);
            && b.size == |all| && !b.binary && (b.truncated <==> |all| > 2 * 1024 * 1024)
            && b.data == if b.truncated then all[..2 * 1024 * 1024] else all
  {
    if chunks != [] {
      StreamingKeepsThePrefix(chunks[..|chunks| - 1]);
    }
  }
}
