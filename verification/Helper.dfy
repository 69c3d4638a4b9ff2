/**
 The helper's reply on its standard output (crates/fastbrowse-browser/src/helper.rs): what `serve` writes, and what the
 parent reads back after whatever the host printed first.
 */
module Helper {
  import opened Common

  newtype byte = b: int | 0 <= b < 256

  const MAGIC: seq<byte> := [0] + MAGIC_NAME + [0]

  /** "fastbrowse-helper-reply" in ASCII. */
  const MAGIC_NAME: seq<byte> :=
    [102, 97, 115, 116, 98, 114, 111, 119, 115, 101, 45, 104, 101, 108, 112, 101, 114, 45, 114, 101, 112, 108, 121]

  const USIZE_LIMIT: nat := 0x1_0000_0000_0000_0000

  datatype Reply = Text | Failed | Unsupported

  function Code(reply: Reply): byte {
    match reply
    case Text => 0
    case Failed => 1
    case Unsupported => 2
  }

  function FromByte(b: byte): Option<Reply> {
    if b == Code(Text) then Some(Text)
    else if b == Code(Failed) then Some(Failed)
    else if b == Code(Unsupported) then Some(Unsupported)
    else None
  }

  // ---------------------------------------------------------------------------------------------------------------
  // Little-endian lengths
  // ---------------------------------------------------------------------------------------------------------------

  function Pow256(width: nat): (p: nat)
    ensures p >= 1
  {
    if width == 0 then 1 else 256 * Pow256(width - 1)
  }

  function ToLe(n: nat, width: nat): (bytes: seq<byte>)
    ensures |bytes| == width
  {
    if width == 0 then [] else [(n % 256) as byte] + ToLe(n / 256, width - 1)
  }

  function FromLe(bytes: seq<byte>): nat {
    if bytes == [] then 0 else bytes[0] as nat + 256 * FromLe(bytes[1..])
  }

  lemma {:induction false} LeRoundTrip(n: nat, width: nat)
    requires n < Pow256(width)
    ensures FromLe(ToLe(n, width)) == n
  {
    if width > 0 {
      LeRoundTrip(n / 256, width - 1);
      assert ToLe(n, width)[1..] == ToLe(n / 256, width - 1);
    }
  }

  lemma EightBytes()
    ensures Pow256(8) == USIZE_LIMIT
  {
  }

  /** A length as eight bytes, the lowest first. */
  function LengthBytes(n: nat): (bytes: seq<byte>)
    requires n < USIZE_LIMIT
    ensures |bytes| == 8 && FromLe(bytes) == n
  {
    EightBytes();
    LeRoundTrip(n, 8);
    ToLe(n, 8)
  }

  // ---------------------------------------------------------------------------------------------------------------
  // Writing
  // ---------------------------------------------------------------------------------------------------------------

  function Frame(reply: Reply, body: seq<byte>): seq<byte>
    requires |body| < USIZE_LIMIT
  {
    MAGIC + [Code(reply)] + LengthBytes(|body|) + body
  }

  /** What a stream with room for `room` more bytes keeps of a write. */
  function Taken(bytes: seq<byte>, room: nat): seq<byte> {
    if |bytes| <= room then bytes else bytes[..room]
  }

  /**
   A buffered stream. Its other side takes `room` more bytes and then none. A write leaves some of what is in the buffer
   there; how many of so many is up to `held`.
   */
  class Stream {
    var written: seq<byte>
    var buffer: seq<byte>
    var room: nat
    const held: nat -> nat

    /** Puts the first `n` bytes of the buffer out, as far as there is room. */
    method Drain(n: nat) returns (ok: bool)
      requires n <= |buffer|
      modifies this
      ensures ok == (n <= old(room))
      ensures var out := if ok then n else old(room);
              && written == old(written) + old(buffer)[..out] && buffer == old(buffer)[out..]
              && room == old(room) - out
    {
      ok := n <= room;
      var out := if ok then n else room;
      written, buffer, room := written + buffer[..out], buffer[out..], room - out;
    }

    method WriteAll(bytes: seq<byte>) returns (ok: bool)
      modifies this
      ensures Moves(old(written), old(buffer) + bytes, old(room), ok)
    {
      buffer := buffer + bytes;
      var stays := held(|buffer|);
      ok := Drain(if stays <= |buffer| then |buffer| - stays else 0);
    }

    method Flush() returns (ok: bool)
      modifies this
      ensures Moves(old(written), old(buffer), old(room), ok) && (ok ==> buffer == [])
    {
      ok := Drain(|buffer|);
    }

    /** Of the bytes to put out, the first are out and the others in the buffer, or those there was room for are out. */
    ghost predicate Moves(before: seq<byte>, bytes: seq<byte>, space: nat, ok: bool)
      reads this
    {
      if ok then
        written + buffer == before + bytes && |written| >= |before| && room == space - (|written| - |before|)
      else |bytes| > space && written == before + bytes[..space]
    }

    /** The next write of a chain that stops at its first failure. */
    method AndThen(done: bool, bytes: seq<byte>, ghost before: seq<byte>, ghost space: nat, ghost sent: seq<byte>)
      returns (ok: bool)
      requires Moves(before, sent, space, done)
      modifies this
      ensures Moves(before, sent + bytes, space, ok)
    {
      ok := false;
      if done {
        ghost var out := |written| - |before|;
        assert buffer == (written + buffer)[|written|..] == (before + sent)[|written|..] == sent[out..];
        assert written == (written + buffer)[..|written|] == (before + sent)[..|written|] == before + sent[..out];
        ok := WriteAll(bytes);
        assert sent[..out] + (sent[out..] + bytes) == sent + bytes;
        assert !ok ==> (sent + bytes)[..space] == sent[..out] + (sent[out..] + bytes)[..space - out];
      } else {
        assert (sent + bytes)[..space] == sent[..space];
      }
    }

    /** The flush that ends such a chain: everything is out, or what there was room for. */
    method FlushAfter(done: bool, ghost before: seq<byte>, ghost space: nat, ghost sent: seq<byte>) returns (ok: bool)
      requires Moves(before, sent, space, done)
      modifies this
      ensures ok == (|sent| <= space) && written == before + Taken(sent, space)
    {
      ok := false;
      if done {
        ghost var out := |written| - |before|;
        assert buffer == (written + buffer)[|written|..] == (before + sent)[|written|..] == sent[out..];
        assert written == (written + buffer)[..|written|] == (before + sent)[..|written|] == before + sent[..out];
        ok := Flush();
        assert !ok ==> sent[..space] == sent[..out] + sent[out..][..space - out];
      }
    }
  }

  /**
   The reply as `serve` writes it, behind whatever the host left in the buffer: four writes and a flush that stop at the
   first failure; the result is the exit code.
   */
  method WriteReply(out: Stream, reply: Reply, body: seq<byte>) returns (code: int)
    requires |body| < USIZE_LIMIT
    modifies out
    ensures out.written == old(out.written) + Taken(old(out.buffer) + Frame(reply, body), old(out.room))
    ensures code == if |old(out.buffer) + Frame(reply, body)| <= old(out.room) then Code(reply) as int else 1
  {
    ghost var before, room, host := out.written, out.room, out.buffer;
    var length := LengthBytes(|body|);
    var ok := out.AndThen(true, MAGIC, before, room, host);
    ok := out.AndThen(ok, [Code(reply)], before, room, host + MAGIC);
    ok := out.AndThen(ok, length, before, room, host + MAGIC + [Code(reply)]);
    ok := out.AndThen(ok, body, before, room, host + MAGIC + [Code(reply)] + length);
    assert host + MAGIC + [Code(reply)] + length + body == host + Frame(reply, body);
    ok := out.FlushAfter(ok, before, room, host + Frame(reply, body));
    code := if ok then Code(reply) as int else 1;
  }

  /** Eight bytes as a number, the lowest first. */
  lemma EightDigits(b: seq<byte>)
    requires |b| == 8
    ensures FromLe(b) == b[0] as nat + 0x100 * b[1] as nat + 0x1_0000 * b[2] as nat + 0x100_0000 * b[3] as nat
                         + 0x1_0000_0000 * b[4] as nat + 0x100_0000_0000 * b[5] as nat
                         + 0x1_0000_0000_0000 * b[6] as nat + 0x100_0000_0000_0000 * b[7] as nat
  {
    forall k | 0 <= k < 8 ensures FromLe(b[k..]) == b[k] as nat + 256 * FromLe(b[k + 1..]) {
      assert b[k..][1..] == b[k + 1..];
    }
    assert b[0..] == b && FromLe(b[8..]) == 0;
  }

  /** The frame, byte by byte: the name between two NULs, the kind, the length from its lowest byte on, and the body. */
  lemma FrameIs(reply: Reply, body: seq<byte>)
    requires |body| < USIZE_LIMIT
    ensures var frame := Frame(reply, body);
            && |frame| == 34 + |body| && frame[34..] == body && frame[0] == 0 && frame[24] == 0
            && (forall i :: 0 <= i < 23 ==> frame[1 + i] as char == "fastbrowse-helper-reply"[i])
            && frame[25] == (match reply case Text => 0 case Failed => 1 case Unsupported => 2)
            && FromLe(frame[26..34]) == |body|
  {
    var frame := Frame(reply, body);
    EightBytes();
    LeRoundTrip(|body|, 8);
    assert frame[26..34] == LengthBytes(|body|);
    assert frame[..25] == MAGIC;
    forall i | 0 <= i < 23 ensures frame[1 + i] as char == "fastbrowse-helper-reply"[i] {
      assert frame[1 + i] == frame[..25][1 + i] == MAGIC_NAME[i];
    }
  }

  // ---------------------------------------------------------------------------------------------------------------
  // Reading
  // ---------------------------------------------------------------------------------------------------------------

  predicate MagicAt(bytes: seq<byte>, at: nat) {
    at + |MAGIC| <= |bytes| && bytes[at..at + |MAGIC|] == MAGIC
  }

  /** The first window of `bytes`, from `from` on, that is the marker. */
  function Position(bytes: seq<byte>, from: nat): (at: Option<nat>)
    ensures at.Some? ==> from <= at.value && MagicAt(bytes, at.value)
    ensures forall i: nat :: from <= i && MagicAt(bytes, i) ==> at.Some? && at.value <= i
    decreases |bytes| - from
  {
    if from + |MAGIC| > |bytes| then None
    else if MagicAt(bytes, from) then Some(from)
    else Position(bytes, from + 1)
  }

  /** What follows the marker: a kind byte, eight bytes of length and that much body. */
  function ParseAfter(rest: seq<byte>): Option<(Reply, seq<byte>)> {
    if |rest| < 9 then None
    else
      var length := FromLe(rest[1..9]);
      if |rest| - 9 < length then None
      else match FromByte(rest[0])
        case Some(reply) => Some((reply, rest[9..9 + length]))
        case None => None
  }

  function ParseReply(stdout: seq<byte>): Option<(Reply, seq<byte>)> {
    match Position(stdout, 0)
    case Some(at) => ParseAfter(stdout[at + |MAGIC|..])
    case None => None
  }

  /** No window starting inside `host` is the marker, even one that runs on into the marker the helper writes. */
  predicate Unmarked(host: seq<byte>) {
    forall i: nat :: i < |host| ==> !MagicAt(host + MAGIC, i)
  }

  /** Whether a window is the marker does not depend on what comes after it. */
  lemma SameWindow(short: seq<byte>, long: seq<byte>, at: nat)
    requires short <= long && at + |MAGIC| <= |short|
    ensures MagicAt(short, at) == MagicAt(long, at)
  {
  }

  lemma NulFreeIsUnmarked(host: seq<byte>)
    requires 0 !in host
    ensures Unmarked(host)
  {
    forall i: nat | i < |host| ensures !MagicAt(host + MAGIC, i) {
      var window := (host + MAGIC)[i..i + |MAGIC|];
      assert window[0] == host[i] && host[i] in host;
    }
  }

  /** The marker the helper wrote is the one found exactly when the host's own output completes none before it. */
  lemma FoundIffUnmarked(host: seq<byte>, rest: seq<byte>)
    ensures Position(host + MAGIC + rest, 0) == Some(|host|) <==> Unmarked(host)
  {
    var all := host + MAGIC + rest;
    assert all[|host|..|host| + |MAGIC|] == MAGIC;
    assert MagicAt(all, |host|);
    forall i: nat | i < |host| ensures MagicAt(all, i) == MagicAt(host + MAGIC, i) {
      SameWindow(host + MAGIC, all, i);
    }
  }

  lemma ParseWhole(reply: Reply, length: seq<byte>, body: seq<byte>)
    requires |length| == 8 && FromLe(length) == |body|
    ensures ParseAfter([Code(reply)] + length + body) == Some((reply, body))
  {
    var rest := [Code(reply)] + length + body;
    assert rest[1..9] == length;
    assert rest[9..9 + |body|] == body;
  }

  lemma ParseCut(reply: Reply, length: seq<byte>, body: seq<byte>, cut: nat)
    requires |length| == 8 && FromLe(length) == |body|
    requires cut < 9 + |body|
    ensures ParseAfter(([Code(reply)] + length + body)[..cut]) == None
  {
    var rest := ([Code(reply)] + length + body)[..cut];
    if cut >= 9 {
      assert rest == [Code(reply)] + length + body[..cut - 9];
      assert rest[1..9] == length;
    }
  }

  /** Whatever the host printed, as long as it is unmarked, the parent reads back the kind and the body. */
  lemma RoundTrip(host: seq<byte>, reply: Reply, body: seq<byte>)
    requires Unmarked(host) && |body| < USIZE_LIMIT
    ensures ParseReply(host + Frame(reply, body)) == Some((reply, body))
  {
    var length := LengthBytes(|body|);
    var rest := [Code(reply)] + length + body;
    var all := host + Frame(reply, body);
    assert all == host + MAGIC + rest;
    FoundIffUnmarked(host, rest);
    assert all[|host| + |MAGIC|..] == rest;
    ParseWhole(reply, length, body);
  }

  /** A helper that died before its whole reply was out is read as no reply. */
  lemma CutIsNoReply(host: seq<byte>, reply: Reply, body: seq<byte>, cut: nat)
    requires Unmarked(host) && |body| < USIZE_LIMIT
    requires cut < |host + Frame(reply, body)|
    ensures ParseReply((host + Frame(reply, body))[..cut]) == None
  {
    var length := LengthBytes(|body|);
    var rest := [Code(reply)] + length + body;
    var all := host + Frame(reply, body);
    var got, start := all[..cut], |host| + |MAGIC|;
    assert all == (host + MAGIC) + rest;
    if cut < start {
      forall i: nat ensures !MagicAt(got, i) {
        if MagicAt(got, i) {
          SameWindow(got, host + MAGIC, i);
        }
      }
    } else {
      var tail := rest[..cut - start];
      assert got == host + MAGIC + tail;
      FoundIffUnmarked(host, tail);
      assert got[start..] == tail;
      ParseCut(reply, length, body, cut - start);
    }
  }

  lemma WholeIsRead(before: seq<byte>, host: seq<byte>, reply: Reply, body: seq<byte>, room: nat)
    requires Unmarked(before + host) && |body| < USIZE_LIMIT && |host + Frame(reply, body)| <= room
    ensures ParseReply(before + Taken(host + Frame(reply, body), room)) == Some((reply, body))
  {
    var frame := Frame(reply, body);
    assert before + (host + frame) == (before + host) + frame;
    RoundTrip(before + host, reply, body);
  }

  lemma CutAfter(a: seq<byte>, b: seq<byte>, cut: nat)
    requires cut <= |b|
    ensures a + b[..cut] == (a + b)[..|a| + cut]
  {
  }

  lemma CutIsNotRead(before: seq<byte>, host: seq<byte>, reply: Reply, body: seq<byte>, room: nat)
    requires Unmarked(before + host) && |body| < USIZE_LIMIT && |host + Frame(reply, body)| > room
    ensures ParseReply(before + Taken(host + Frame(reply, body), room)) == None
  {
    var frame := Frame(reply, body);
    CutAfter(before, host + frame, room);
    assert before + (host + frame) == (before + host) + frame;
    CutIsNoReply(before + host, reply, body, |before| + room);
  }

  /**
   What the parent reads of a helper whose stdout broke after `room` more bytes, with `before` already out and `host` in
   the buffer: the whole reply, or none.
   */
  lemma ReadsWholeOrNothing(before: seq<byte>, host: seq<byte>, reply: Reply, body: seq<byte>, room: nat)
    requires Unmarked(before + host) && |body| < USIZE_LIMIT
    ensures ParseReply(before + Taken(host + Frame(reply, body), room))
         == if |host + Frame(reply, body)| <= room then Some((reply, body)) else None
  {
    if |host + Frame(reply, body)| <= room {
      WholeIsRead(before, host, reply, body, room);
    } else {
      CutIsNotRead(before, host, reply, body, room);
    }
  }

  /**
   The marker starts and ends with the same byte, so host output that ends in a marker short of its last byte is
   completed by the helper's own marker: the parent then reads from inside it and loses the reply.
   */
  lemma SharedEndLosesTheReply(body: seq<byte>)
    requires |body| < USIZE_LIMIT
    ensures var host := [0] + MAGIC_NAME;
            !Unmarked(host) && ParseReply(host + Frame(Text, body)) != Some((Text, body))
  {
    var host := [0] + MAGIC_NAME;
    var all := host + Frame(Text, body);
    assert all[0..|MAGIC|] == MAGIC;
    assert (host + MAGIC)[0..|MAGIC|] == MAGIC;
    assert MagicAt(host + MAGIC, 0) && MagicAt(all, 0);
    var rest := all[|MAGIC|..];
    assert rest[0] == MAGIC_NAME[0] == 102;
  }
}
