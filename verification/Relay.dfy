/** Relaying a backend's bytes: framed until ReadyForQuery with keys rewritten, then copied raw. */
module Relay {
  import opened Bytes
  import opened Streams
  import opened Protocol
  import opened Framing
  import opened Registry
  import opened Cancel

  // ---- What rewriting does to a run of frames ----

  predicate IsKey(m: Message) { m.kind == MSG_BACKEND_KEY_DATA }
  predicate IsReady(m: Message) { m.kind == MSG_READY_FOR_QUERY }

  /** Frames the loop passes over: no ReadyForQuery, and every BackendKeyData well-sized. */
  predicate Relayable(ms: seq<Message>) {
    forall i :: 0 <= i < |ms| ==>
      Framing.Encodable(ms[i]) && !IsReady(ms[i]) && (IsKey(ms[i]) ==> |ms[i].body| == 8)
  }

  /** The backend's own keys, in the order they arrived. */
  function BackendKeys(ms: seq<Message>): seq<CancelKey>
    requires Relayable(ms)
  {
    if ms == [] then []
    else
      var n := |ms| - 1;
      BackendKeys(ms[..n]) + if IsKey(ms[n]) then [DecodeKey(ms[n].body)] else []
  }

  /** The frames as the client receives them, its keys taken from `issued` in order. */
  function Rewritten(ms: seq<Message>, issued: seq<CancelKey>): Str
    requires Relayable(ms) && |issued| == |BackendKeys(ms)|
  {
    if ms == [] then []
    else
      var n, k := |ms| - 1, |issued| - 1;
      if IsKey(ms[n]) then Rewritten(ms[..n], issued[..k]) + EncodeBackendKeyData(issued[k])
      else Rewritten(ms[..n], issued) + EncodeMessage(ms[n])
  }

  function Offset(ms: seq<Message>, j: nat): nat
    requires AllEncodable(ms) && j <= |ms|
  {
    |EncodeAll(ms[..j])|
  }

  /** Position i of the stream holds one of the eight key bytes of some BackendKeyData. */
  ghost predicate InKeyBytes(ms: seq<Message>, i: int)
    requires AllEncodable(ms)
  {
    exists j :: 0 <= j < |ms| && IsKey(ms[j]) && Offset(ms, j) + 5 <= i < Offset(ms, j) + 13
  }

  lemma {:induction false} EncodeAllSnoc(ms: seq<Message>, m: Message, all: seq<Message>)
    requires AllEncodable(ms) && Framing.Encodable(m) && all == ms + [m]
    ensures AllEncodable(all) && EncodeAll(all) == EncodeAll(ms) + EncodeMessage(m)
  {
    if ms != [] {
      EncodeAllSnoc(ms[1..], m, all[1..]);
      assert EncodeMessage(ms[0]) + (EncodeAll(ms[1..]) + EncodeMessage(m))
          == EncodeMessage(ms[0]) + EncodeAll(ms[1..]) + EncodeMessage(m);
    } else {
      assert all[1..] == [];
    }
  }

  /** A rewritten BackendKeyData keeps its type byte and its length word. */
  lemma KeyFrameHeader(m: Message, k: CancelKey)
    requires IsKey(m) && |m.body| == 8
    ensures |EncodeBackendKeyData(k)| == |EncodeMessage(m)| == 13
    ensures forall i :: 0 <= i < 5 ==> EncodeBackendKeyData(k)[i] == EncodeMessage(m)[i]
  {}

  /** Rewriting preserves length, and every byte outside the key bytes. */
  lemma {:induction false} RewritingIsLocal(ms: seq<Message>, issued: seq<CancelKey>)
    requires Relayable(ms) && |issued| == |BackendKeys(ms)|
    ensures AllEncodable(ms) && |Rewritten(ms, issued)| == |EncodeAll(ms)|
    ensures forall i :: 0 <= i < |EncodeAll(ms)| && !InKeyBytes(ms, i) ==> Rewritten(ms, issued)[i] == EncodeAll(ms)[i]
  {
    if ms != [] {
      var n, k := |ms| - 1, |issued| - 1;
      EncodeAllSnoc(ms[..n], ms[n], ms);
      var before := if IsKey(ms[n]) then issued[..k] else issued;
      RewritingIsLocal(ms[..n], before);
      var cut := |EncodeAll(ms[..n])|;
      var frame := if IsKey(ms[n]) then EncodeBackendKeyData(issued[k]) else EncodeMessage(ms[n]);
      assert Rewritten(ms, issued) == Rewritten(ms[..n], before) + frame;
      if IsKey(ms[n]) { KeyFrameHeader(ms[n], issued[k]); }
      forall i | 0 <= i < |EncodeAll(ms)| && !InKeyBytes(ms, i) ensures Rewritten(ms, issued)[i] == EncodeAll(ms)[i] {
        if i < cut {
          KeyBytesOfPrefix(ms, n, i);
        } else if IsKey(ms[n]) {
          assert Offset(ms, n) == cut;
          assert i - cut < 5;
        }
      }
    }
  }

  lemma KeyBytesOfPrefix(ms: seq<Message>, n: nat, i: int)
    requires AllEncodable(ms) && n <= |ms|
    ensures InKeyBytes(ms[..n], i) ==> InKeyBytes(ms, i)
  {
    if InKeyBytes(ms[..n], i) {
      var j :| 0 <= j < n && IsKey(ms[..n][j]) && Offset(ms[..n], j) + 5 <= i < Offset(ms[..n], j) + 13;
      assert ms[..n][..j] == ms[..j];
      assert Offset(ms, j) == Offset(ms[..n], j);
    }
  }

  // ---- The relay loop ----

  datatype Ending =
    | Spliced                    // ReadyForQuery seen; the rest copied raw
    | FramingEnded(e: FrameError) // the stream ended or broke inside the startup phase
    | BadKeyData                 // a BackendKeyData of the wrong size
    | ClientGone                 // a write to the client failed

  /** Where a session's cancel requests have to go. */
  datatype Destination = Destination(addr: Str, tls: TLSConfig)

  /** The registry after recording `issued` against the backend keys, in order. */
  function Recorded(entries: map<CancelKey, Entry>, issued: seq<CancelKey>, backend: seq<CancelKey>, dest: Destination)
    : map<CancelKey, Entry>
    requires |issued| <= |backend|
  {
    if issued == [] then entries
    else
      var n := |issued| - 1;
      Recorded(entries, issued[..n], backend, dest)[issued[n] := Entry(dest.addr, backend[n], dest.tls)]
  }

  /** All but the last key: what the deferred release of `issued` leaves behind. */
  function Superseded(issued: seq<CancelKey>): seq<CancelKey> {
    if issued == [] then [] else issued[..|issued| - 1]
  }

  lemma {:induction false} RecordedPrefix(entries: map<CancelKey, Entry>, issued: seq<CancelKey>,
      b: seq<CancelKey>, b': seq<CancelKey>, dest: Destination)
    requires |issued| <= |b| <= |b'| && b == b'[..|b|]
    ensures Recorded(entries, issued, b, dest) == Recorded(entries, issued, b', dest)
  {
    if issued != [] { RecordedPrefix(entries, issued[..|issued| - 1], b, b', dest); }
  }

  ghost predicate AllFresh(issued: seq<CancelKey>, entries: map<CancelKey, Entry>) {
    && (forall i :: 0 <= i < |issued| ==> issued[i] !in entries && issued[i].pid >= 0)
    && (forall i, j :: 0 <= i < j < |issued| ==> issued[i] != issued[j])
  }

  lemma {:induction false} RecordedKeys(entries: map<CancelKey, Entry>, issued: seq<CancelKey>, b: seq<CancelKey>,
      dest: Destination)
    requires |issued| <= |b|
    ensures forall k :: k in Recorded(entries, issued, b, dest) <==> k in entries || k in issued
    ensures |Recorded(entries, issued, b, dest)| <= |entries| + |issued|
  {
    if issued != [] {
      var n := |issued| - 1;
      RecordedKeys(entries, issued[..n], b, dest);
      assert issued == issued[..n] + [issued[n]];
      var before := Recorded(entries, issued[..n], b, dest);
      assert Recorded(entries, issued, b, dest).Keys == before.Keys + {issued[n]};
    }
  }

  /** Releasing the last key leaves exactly the superseded ones. */
  lemma ReleaseLast(entries: map<CancelKey, Entry>, issued: seq<CancelKey>, b: seq<CancelKey>, dest: Destination)
    requires 0 < |issued| <= |b| && AllFresh(issued, entries)
    ensures Recorded(entries, issued, b, dest) - {issued[|issued| - 1]} ==
      Recorded(entries, Superseded(issued), b, dest)
  {
    RecordedKeys(entries, Superseded(issued), b, dest);
  }

  /** The stream goes on with a ReadyForQuery. */
  predicate ReadyAt(rest: Str) { NextMessage(rest).0.Ok? && IsReady(NextMessage(rest).0.value) }

  /** The stream goes on with a BackendKeyData of the wrong size. */
  predicate BadKeyAt(rest: Str) {
    NextMessage(rest).0.Ok? && IsKey(NextMessage(rest).0.value) && |NextMessage(rest).0.value.body| != 8
  }

  /** What the backend's stream was made of, and what the client got for it, when the relay ends. */
  ghost predicate Relayed(input: Str, before: Str, written: Str,
      frames: seq<Message>, issued: seq<CancelKey>, rest: Str, ending: Ending)
    requires Relayable(frames) && |issued| == |BackendKeys(frames)|
  {
    && AllEncodable(frames)
    && input == EncodeAll(frames) + rest
    && match ending
      case Spliced =>
        ReadyAt(rest) && written == before + Rewritten(frames, issued) + rest
      case FramingEnded(e) => NextMessage(rest).0 == Err(e) && written == before + Rewritten(frames, issued)
      case BadKeyData => BadKeyAt(rest) && written == before + Rewritten(frames, issued)
      case ClientGone =>
        var sent := before + Rewritten(frames, issued);
        before <= written && (written < sent || (ReadyAt(rest) && written < sent + rest))
  }

  /** Where the loop stands: frames passed over, what the client got for them, what is unread. */
  ghost predicate Along(input: Str, sent: Str, frames: seq<Message>, issued: seq<CancelKey>, rest: Str) {
    && Relayable(frames) && |issued| == |BackendKeys(frames)| && AllEncodable(frames)
    && input == EncodeAll(frames) + rest
    && sent == Rewritten(frames, issued)
  }

  /** The registry holds every key issued so far on top of what it held before. */
  ghost predicate Held(before: map<CancelKey, Entry>, entries: map<CancelKey, Entry>,
      backend: seq<CancelKey>, issued: seq<CancelKey>, dest: Destination)
  {
    |issued| == |backend| && AllFresh(issued, before) && entries == Recorded(before, issued, backend, dest)
  }

  function Frame(m: Message, key: Option<CancelKey>): Str
    requires Framing.Encodable(m)
  {
    if key.Some? then EncodeBackendKeyData(key.value) else EncodeMessage(m)
  }

  function Extend(issued: seq<CancelKey>, key: Option<CancelKey>): seq<CancelKey> {
    if key.Some? then issued + [key.value] else issued
  }

  lemma AddFrame(input: Str, sent: Str, frames: seq<Message>, issued: seq<CancelKey>, rest: Str, key: Option<CancelKey>)
    requires Along(input, sent, frames, issued, rest)
    requires NextMessage(rest).0.Ok? && !IsReady(NextMessage(rest).0.value)
    requires var m := NextMessage(rest).0.value; (IsKey(m) <==> key.Some?) && (IsKey(m) ==> |m.body| == 8)
    ensures var (m, rest') := NextMessage(rest);
      && Along(input, sent + Frame(m.value, key), frames + [m.value], Extend(issued, key), rest')
      && BackendKeys(frames + [m.value]) ==
          if key.Some? then BackendKeys(frames) + [DecodeKey(m.value.body)] else BackendKeys(frames)
  {
    ConsumeFrame(input, frames, rest);
    RewriteNext(frames, issued, NextMessage(rest).0.value, key);
  }

  lemma RewriteNext(frames: seq<Message>, issued: seq<CancelKey>, m: Message, key: Option<CancelKey>)
    requires Relayable(frames) && |issued| == |BackendKeys(frames)|
    requires Framing.Encodable(m) && !IsReady(m) && (IsKey(m) <==> key.Some?) && (IsKey(m) ==> |m.body| == 8)
    ensures var frames', issued' := frames + [m], Extend(issued, key);
      && Relayable(frames')
      && BackendKeys(frames') == (if key.Some? then BackendKeys(frames) + [DecodeKey(m.body)] else BackendKeys(frames))
      && Rewritten(frames', issued') == Rewritten(frames, issued) + Frame(m, key)
  {
    var frames', issued' := frames + [m], Extend(issued, key);
    assert frames'[..|frames|] == frames && frames'[|frames|] == m;
    assert key.Some? ==> issued'[..|issued|] == issued;
  }

  lemma AppendFrame(input: Str, frames: seq<Message>, m: Message, rest: Str, rest': Str)
    requires AllEncodable(frames) && Framing.Encodable(m) && input == EncodeAll(frames) + rest
    requires rest == EncodeMessage(m) + rest'
    ensures AllEncodable(frames + [m]) && input == EncodeAll(frames + [m]) + rest'
  {
    EncodeAllSnoc(frames, m, frames + [m]);
    Regroup(EncodeAll(frames), EncodeMessage(m), rest', rest);
  }

  lemma ConsumeFrame(input: Str, frames: seq<Message>, rest: Str)
    requires AllEncodable(frames) && input == EncodeAll(frames) + rest && NextMessage(rest).0.Ok?
    ensures var (m, rest') := NextMessage(rest);
      AllEncodable(frames + [m.value]) && input == EncodeAll(frames + [m.value]) + rest'
  {
    NextConsumesItsEncoding(rest);
    AppendFrame(input, frames, NextMessage(rest).0.value, rest, NextMessage(rest).1);
  }

  lemma HoldNext(before: map<CancelKey, Entry>, entries: map<CancelKey, Entry>,
      backend: seq<CancelKey>, issued: seq<CancelKey>, dest: Destination, key: CancelKey, backendKey: CancelKey)
    requires Held(before, entries, backend, issued, dest) && key !in entries && key.pid >= 0
    ensures Held(before, entries[key := Entry(dest.addr, backendKey, dest.tls)],
      backend + [backendKey], issued + [key], dest)
  {
    RecordedKeys(before, issued, backend, dest);
    assert AllFresh(issued + [key], before);
    RecordNext(before, issued, backend, dest, key, backendKey);
  }

  lemma RecordNext(before: map<CancelKey, Entry>, issued: seq<CancelKey>, backend: seq<CancelKey>,
      dest: Destination, key: CancelKey, backendKey: CancelKey)
    requires |issued| == |backend|
    ensures Recorded(before, issued + [key], backend + [backendKey], dest) ==
      Recorded(before, issued, backend, dest)[key := Entry(dest.addr, backendKey, dest.tls)]
  {
    var n, issued', backend' := |issued|, issued + [key], backend + [backendKey];
    assert issued'[..n] == issued && issued'[n] == key && backend'[n] == backendKey;
    RecordedPrefix(before, issued, backend, backend', dest);
  }

  lemma SplicedEnding(input: Str, before: Str, sent: Str, frames: seq<Message>, issued: seq<CancelKey>, rest: Str,
      written: Str, ok: bool)
    requires Along(input, sent, frames, issued, rest)
    requires NextMessage(rest).0.Ok? && IsReady(NextMessage(rest).0.value)
    requires var (z, tail) := NextMessage(rest);
      && before + sent <= written
      && (ok ==> written == before + sent + EncodeMessage(z.value) + tail)
      && (!ok ==> written < before + sent + EncodeMessage(z.value) + tail)
    ensures Relayed(input, before, written, frames, issued, rest, if ok then Spliced else ClientGone)
  {
    NextConsumesItsEncoding(rest);
    var (z, tail) := NextMessage(rest);
    Regroup(before + sent, EncodeMessage(z.value), tail, rest);
  }

  lemma Regroup(a: Str, b: Str, c: Str, bc: Str)
    requires bc == b + c
    ensures a + b + c == a + bc
  {}

  // ---- Where and how the relay has to end ----

  /** The loop goes no further here: a framing error, a ReadyForQuery, or a malformed key. */
  predicate Stops(rest: Str) { NextMessage(rest).0.Err? || ReadyAt(rest) || BadKeyAt(rest) }

  /** The frames before the first stopping point of a stream, and what is left there. */
  function Stop(input: Str): (r: (seq<Message>, Str))
    ensures Relayable(r.0) && Stops(r.1)
    decreases |input|
  {
    if Stops(input) then ([], input)
    else
      var (m, rest) := NextMessage(input);
      var (ms, end) := Stop(rest);
      ([m.value] + ms, end)
  }

  function EndingAt(rest: Str): Ending
    requires Stops(rest)
  {
    match NextMessage(rest).0
    case Err(e) => FramingEnded(e)
    case Ok(m) => if IsReady(m) then Spliced else BadKeyData
  }

  /** The bytes the client has to take for the relay to get to its stopping point and, if ready, past it. */
  function Needed(input: Str): nat {
    var (ms, rest) := Stop(input);
    |EncodeAll(ms)| + if ReadyAt(rest) then |rest| else 0
  }

  /** How the relay of a stream ends, when the client takes `room` more bytes. */
  function EndingOf(input: Str, room: nat): Ending {
    if room < Needed(input) then ClientGone else EndingAt(Stop(input).1)
  }

  lemma StopStep(input: Str, m: Message, rest: Str)
    requires NextMessage(input) == (Ok(m), rest) && !IsReady(m) && (IsKey(m) ==> |m.body| == 8)
    ensures Stop(input) == ([m] + Stop(rest).0, Stop(rest).1)
  {}

  /** However far the loop got over a stream, it went over the frames before the stopping point. */
  lemma {:induction false} FramesLeadToStop(input: Str, frames: seq<Message>, rest: Str, ms: seq<Message>, end: Str)
    requires Relayable(frames) && AllEncodable(frames) && input == EncodeAll(frames) + rest && Stop(rest) == (ms, end)
    ensures Stop(input) == (frames + ms, end)
    decreases |frames|
  {
    if frames == [] {
      assert input == rest && frames + ms == ms;
    } else {
      var next := EncodeAll(frames[1..]) + rest;
      FramesLeadToStop(next, frames[1..], rest, ms, end);
      FirstFrame(frames, rest);
      StopStep(input, frames[0], next);
      Prepend(frames, ms);
    }
  }

  lemma Prepend(frames: seq<Message>, ms: seq<Message>)
    requires frames != []
    ensures [frames[0]] + (frames[1..] + ms) == frames + ms
  {}

  lemma {:induction false} EncodeAllSplit(a: seq<Message>, b: seq<Message>)
    requires AllEncodable(a) && AllEncodable(b)
    ensures AllEncodable(a + b) && |EncodeAll(a + b)| == |EncodeAll(a)| + |EncodeAll(b)|
    decreases |a|
  {
    if a == [] {
      assert a + b == b;
    } else {
      EncodeAllSplit(a[1..], b);
      assert (a + b)[1..] == a[1..] + b;
    }
  }

  /** The relay's account of itself leaves no choice of the ending, nor of where it stopped. */
  lemma EndingIsFixed(input: Str, before: Str, written: Str, capacity: nat,
      frames: seq<Message>, issued: seq<CancelKey>, rest: Str, ending: Ending)
    requires Relayable(frames) && |issued| == |BackendKeys(frames)| && |before| <= |written| <= capacity
    requires Relayed(input, before, written, frames, issued, rest, ending)
    requires ending == ClientGone ==> |written| == capacity
    ensures ending == EndingOf(input, capacity - |before|)
    ensures ending != ClientGone ==> (frames, rest) == Stop(input)
  {
    RewritingIsLocal(frames, issued);
    FramesLeadToStop(input, frames, rest, Stop(rest).0, Stop(rest).1);
    EncodeAllSplit(frames, Stop(rest).0);
    if ending != ClientGone {
      assert Stops(rest) && frames + [] == frames;
    }
  }

  /** What one message becomes on its way to the client; None for a key message of the wrong size. */
  method Outgoing(msg: Message, cancels: CancelRegistry, rng: Entropy, dest: Destination)
    returns (out: Option<Str>, key: Option<CancelKey>)
    requires Framing.Encodable(msg) && Fair(rng.draws) && |cancels.entries| < KEY_SPACE
    modifies cancels, rng
    ensures out.None? <==> IsKey(msg) && |msg.body| != 8
    ensures key.Some? <==> IsKey(msg) && |msg.body| == 8
    ensures out.Some? ==> out.value == Frame(msg, key)
    ensures key.None? ==> cancels.entries == old(cancels.entries)
    ensures key.Some? ==> key.value !in old(cancels.entries) && key.value.pid >= 0
    ensures key.Some? ==>
      cancels.entries == old(cancels.entries)[key.value := Entry(dest.addr, DecodeKey(msg.body), dest.tls)]
  {
    out, key := Some(EncodeMessage(msg)), None;
    if msg.kind == MSG_BACKEND_KEY_DATA {
      var backendKey := DecodeBackendKeyData(msg.body);
      if backendKey.None? { return None, None; }
      var issued := cancels.Issue(Entry(dest.addr, backendKey.value, dest.tls), rng);
      out, key := Some(EncodeBackendKeyData(issued)), Some(issued);
    }
  }

  lemma GoneEnding(input: Str, before: Str, sent: Str, out: Str, frames: seq<Message>, issued: seq<CancelKey>,
      rest: Str,
      written: Str)
    requires Along(input, sent + out, frames, issued, rest)
    requires before + sent <= written < before + sent + out
    ensures Relayed(input, before, written, frames, issued, rest, ClientGone)
  {
    assert before + sent + out == before + (sent + out);
    assert before == written[..|before|];
  }

  /** The first ReadyForQuery goes out as it is, and everything behind it follows unread. */
  method DeliverReady(client: Sink, backend: Stream, msg: Message,
      ghost input: Str, ghost before: Str, ghost sent: Str, ghost frames: seq<Message>, ghost issued: seq<CancelKey>,
      ghost rest: Str)
    returns (ending: Ending)
    requires client.Valid() && Along(input, sent, frames, issued, rest) && client.written == before + sent
    requires NextMessage(rest) == (Ok(msg), backend.rest) && IsReady(msg)
    modifies client, backend
    ensures client.Valid() && Relayed(input, before, client.written, frames, issued, rest, ending)
    ensures ending == ClientGone ==> |client.written| == client.capacity
  {
    var ok := client.Write(EncodeMessage(msg));
    ok := Splice(client, backend, ok);
    SplicedEnding(input, before, sent, frames, issued, rest, client.written, ok);
    ending := if ok then Spliced else ClientGone;
  }

  /** Writes one translated message; the client going away ends the relay. */
  method DeliverFrame(client: Sink, out: Str, ghost input: Str, ghost before: Str, ghost sent: Str,
      ghost frames: seq<Message>, ghost issued: seq<CancelKey>, ghost rest: Str)
    returns (ending: Option<Ending>)
    requires client.Valid() && Along(input, sent + out, frames, issued, rest) && client.written == before + sent
    modifies client
    ensures client.Valid()
    ensures ending.Some? ==> Relayed(input, before, client.written, frames, issued, rest, ending.value)
    ensures ending.None? ==> client.written == before + (sent + out)
    ensures ending == Some(ClientGone) ==> |client.written| == client.capacity
  {
    Regroup(before, sent, out, sent + out);
    var ok := client.Write(out);
    if ok { return None; }
    GoneEnding(input, before, sent, out, frames, issued, rest, client.written);
    ending := Some(ClientGone);
  }

  /** Writes one translated message, and after ReadyForQuery the rest of the stream. */
  method Deliver(client: Sink, backend: Stream, msg: Message, out: Str, ghost key: Option<CancelKey>,
      ghost input: Str, ghost before: Str, ghost sent: Str, ghost frames: seq<Message>, ghost issued: seq<CancelKey>,
      ghost rest: Str)
    returns (ending: Option<Ending>, ghost frames': seq<Message>, ghost rest': Str)
    requires client.Valid() && Along(input, sent, frames, issued, rest) && client.written == before + sent
    requires NextMessage(rest) == (Ok(msg), backend.rest) && (IsKey(msg) <==> key.Some?)
    requires (IsKey(msg) ==> |msg.body| == 8) && out == Frame(msg, key)
    modifies client, backend
    ensures client.Valid() && Relayable(frames')
    ensures BackendKeys(frames') ==
      if key.Some? then BackendKeys(frames) + [DecodeKey(msg.body)] else BackendKeys(frames)
    ensures ending.Some? ==> Relayed(input, before, client.written, frames', Extend(issued, key), rest', ending.value)
    ensures ending.None? ==>
      && backend.rest == rest' == old(backend.rest)
      && Along(input, sent + out, frames', Extend(issued, key), rest') && client.written == before + (sent + out)
    ensures ending == Some(ClientGone) ==> |client.written| == client.capacity
  {
    if IsReady(msg) {
      var e := DeliverReady(client, backend, msg, input, before, sent, frames, issued, rest);
      return Some(e), frames, rest;
    }
    AddFrame(input, sent, frames, issued, rest, key);
    frames', rest' := frames + [msg], backend.rest;
    ending := DeliverFrame(client, out, input, before, sent, frames', Extend(issued, key), rest');
  }

  /** What the loop does with the message it framed off rest. */
  method Translate(client: Sink, backend: Stream, msg: Message, cancels: CancelRegistry, rng: Entropy,
      dest: Destination,
      ghost input: Str, ghost before: Str, ghost sent: Str, ghost frames: seq<Message>, ghost issued: seq<CancelKey>,
      ghost held: map<CancelKey, Entry>, ghost rest: Str)
    returns (ending: Option<Ending>, key: Option<CancelKey>,
      ghost sent': Str, ghost frames': seq<Message>, ghost issued': seq<CancelKey>, ghost rest': Str)
    requires client.Valid() && Fair(rng.draws) && Framing.Encodable(msg)
    requires NextMessage(rest) == (Ok(msg), backend.rest)
    requires Along(input, sent, frames, issued, rest) && client.written == before + sent
    requires Held(held, cancels.entries, BackendKeys(frames), issued, dest) && |cancels.entries| < KEY_SPACE
    modifies client, backend, cancels, rng
    ensures client.Valid() && issued' == Extend(issued, key)
    ensures |cancels.entries| <= |old(cancels.entries)| + 1
    ensures Relayable(frames') && Held(held, cancels.entries, BackendKeys(frames'), issued', dest)
    ensures ending.Some? ==> Relayed(input, before, client.written, frames', issued', rest', ending.value)
    ensures ending.None? ==>
      && backend.rest == rest' == old(backend.rest)
      && Along(input, sent', frames', issued', rest') && client.written == before + sent'
    ensures ending == Some(ClientGone) ==> |client.written| == client.capacity
  {
    sent', frames', issued', rest' := sent, frames, issued, rest;
    ghost var entries := cancels.entries;
    var out;
    out, key := Outgoing(msg, cancels, rng, dest);
    if out.None? { return Some(BadKeyData), None, sent', frames', issued', rest'; }
    if key.Some? { HoldNext(held, entries, BackendKeys(frames), issued, dest, key.value, DecodeKey(msg.body)); }
    sent', issued' := sent + out.value, Extend(issued, key);
    ending, frames', rest' := Deliver(client, backend, msg, out.value, key, input, before, sent, frames, issued, rest);
  }

  /** One turn of the loop of relayFromBackend: None to go round again. */
  method RelayMessage(client: Sink, reader: MessageReader, cancels: CancelRegistry, rng: Entropy, dest: Destination,
      ghost input: Str, ghost before: Str, ghost sent: Str, ghost frames: seq<Message>, ghost issued: seq<CancelKey>,
      ghost held: map<CancelKey, Entry>)
    returns (ending: Option<Ending>, key: Option<CancelKey>,
      ghost sent': Str, ghost frames': seq<Message>, ghost issued': seq<CancelKey>, ghost rest': Str)
    requires client.Valid() && reader.Valid() && Fair(rng.draws)
    requires Along(input, sent, frames, issued, reader.input.rest) && client.written == before + sent
    requires Held(held, cancels.entries, BackendKeys(frames), issued, dest) && |cancels.entries| < KEY_SPACE
    modifies client, reader, reader.input, reader.buf, cancels, rng
    ensures reader.Valid() && client.Valid() && (reader.buf == old(reader.buf) || fresh(reader.buf))
    ensures issued' == Extend(issued, key)
    ensures |cancels.entries| <= |old(cancels.entries)| + 1
    ensures Relayable(frames') && Held(held, cancels.entries, BackendKeys(frames'), issued', dest)
    ensures ending.Some? ==> Relayed(input, before, client.written, frames', issued', rest', ending.value)
    ensures ending.None? ==>
      && rest' == reader.input.rest && |rest'| < |old(reader.input.rest)|
      && Along(input, sent', frames', issued', rest') && client.written == before + sent'
    ensures ending == Some(ClientGone) ==> |client.written| == client.capacity
  {
    ghost var rest := reader.input.rest;
    sent', frames', issued', rest' := sent, frames, issued, rest;
    var kind := reader.Next();
    if kind.Err? { return Some(FramingEnded(kind.error)), None, sent', frames', issued', rest'; }
    var msg := reader.Current(kind.value);
    ending, key, sent', frames', issued', rest' :=
      Translate(client, reader.input, msg, cancels, rng, dest, input, before, sent, frames, issued, held, rest);
  }

  /** The loop, up to the return whose deferred call releases the last key issued. */
  method RelayFrames(client: Sink, reader: MessageReader, cancels: CancelRegistry, rng: Entropy, dest: Destination)
    returns (ending: Ending, last: Option<CancelKey>,
      ghost frames: seq<Message>, ghost issued: seq<CancelKey>, ghost rest: Str)
    requires client.Valid() && reader.Valid() && Fair(rng.draws)
    requires |cancels.entries| + |reader.input.rest| < KEY_SPACE
    modifies client, reader, reader.input, reader.buf, cancels, rng
    ensures client.Valid() && Relayable(frames)
    ensures Held(old(cancels.entries), cancels.entries, BackendKeys(frames), issued, dest)
    ensures Relayed(old(reader.input.rest), old(client.written), client.written, frames, issued, rest, ending)
    ensures ending == ClientGone ==> |client.written| == client.capacity
    ensures last == if issued == [] then None else Some(issued[|issued| - 1])
  {
    frames, issued, rest := [], [], reader.input.rest;
    ghost var input, sent := rest, [];
    var outcome: Option<Ending> := None;
    last := None;
    while outcome.None?
      invariant reader.Valid() && client.Valid() && (reader.buf == old(reader.buf) || fresh(reader.buf))
      invariant Relayable(frames) && Held(old(cancels.entries), cancels.entries, BackendKeys(frames), issued, dest)
      invariant outcome.Some? ==>
        Relayed(input, old(client.written), client.written, frames, issued, rest, outcome.value)
      invariant outcome == Some(ClientGone) ==> |client.written| == client.capacity
      invariant outcome.None? ==>
        && rest == reader.input.rest && |cancels.entries| + |rest| < KEY_SPACE
        && Along(input, sent, frames, issued, rest) && client.written == old(client.written) + sent
      invariant last == if issued == [] then None else Some(issued[|issued| - 1])
      decreases if outcome.None? then |rest| + 1 else 0
    {
      var key;
      outcome, key, sent, frames, issued, rest := RelayMessage(client, reader, cancels, rng, dest,
        input, old(client.written), sent, frames, issued, old(cancels.entries));
      if key.Some? { last := key; }
    }
    ending := outcome.value;
  }

  /**
   * relayFromBackend. How it ends is fixed by the backend's stream and the room the client has left.
   * The client sees the backend's frames with only their keys replaced, then everything from
   * ReadyForQuery on unchanged; the registry keeps of this session exactly the keys that a later
   * BackendKeyData superseded.
   */
  method RelayFromBackend(client: Sink, reader: MessageReader, cancels: CancelRegistry, rng: Entropy, dest: Destination)
    returns (ending: Ending, ghost frames: seq<Message>, ghost issued: seq<CancelKey>, ghost rest: Str)
    requires client.Valid() && reader.Valid() && Fair(rng.draws)
    requires |cancels.entries| + |reader.input.rest| < KEY_SPACE
    modifies client, reader, reader.input, reader.buf, cancels, rng
    ensures Relayable(frames) && |issued| == |BackendKeys(frames)| && AllFresh(issued, old(cancels.entries))
    ensures client.Valid()
    ensures Relayed(old(reader.input.rest), old(client.written), client.written, frames, issued, rest, ending)
    ensures ending == EndingOf(old(reader.input.rest), client.capacity - |old(client.written)|)
    ensures ending == ClientGone ==> |client.written| == client.capacity
    ensures ending != ClientGone ==> (frames, rest) == Stop(old(reader.input.rest))
    ensures cancels.entries == Recorded(old(cancels.entries), Superseded(issued), BackendKeys(frames), dest)
    ensures |issued| <= 1 ==> cancels.entries == old(cancels.entries)
  {
    ghost var input, before, entries := reader.input.rest, client.written, cancels.entries;
    var last;
    ending, last, frames, issued, rest := RelayFrames(client, reader, cancels, rng, dest);
    EndingIsFixed(input, before, client.written, client.capacity, frames, issued, rest, ending);
    if last.Some? {
      ReleaseLast(entries, issued, BackendKeys(frames), dest);
      cancels.Release(last.value);
    }
  }

  /** spliceToClient, reached only when the ReadyForQuery itself got through. */
  method Splice(client: Sink, backend: Stream, delivered: bool) returns (ok: bool)
    requires client.Valid()
    modifies client, backend
    ensures client.Valid()
    ensures ok <==> delivered && |old(client.written)| + |old(backend.rest)| <= client.capacity
    ensures ok ==> client.written == old(client.written) + old(backend.rest)
    ensures !ok ==> old(client.written) <= client.written <= old(client.written) + old(backend.rest)
    ensures delivered && !ok ==> |client.written| == client.capacity
    ensures !delivered ==> client.written == old(client.written)
  {
    if !delivered { return false; }
    var tail := backend.ReadFull(|backend.rest|);
    ok := client.Write(tail.value);
  }

  // ---- Transparency ----

  /** As many bytes as came in went out, the same ones except inside the key bytes of these frames. */
  ghost predicate SameButKeys(frames: seq<Message>, input: Str, before: Str, after: Str) {
    && AllEncodable(frames) && |after| == |before| + |input|
    && forall i :: 0 <= i < |input| && !InKeyBytes(frames, i) ==> after[|before| + i] == input[i]
  }

  /**
   * A session that reaches ReadyForQuery sees as many bytes as the backend sent, all of them the
   * backend's own except inside the key bytes of BackendKeyData frames before that ReadyForQuery.
   */
  lemma RelayIsTransparent(input: Str, before: Str, written: Str,
      frames: seq<Message>, issued: seq<CancelKey>, rest: Str)
    requires Relayable(frames) && |issued| == |BackendKeys(frames)|
    requires Relayed(input, before, written, frames, issued, rest, Spliced)
    ensures SameButKeys(frames, input, before, written)
    ensures forall i :: |EncodeAll(frames)| <= i < |input| ==> written[|before| + i] == input[i]
  {
    RewritingIsLocal(frames, issued);
    var sent, frame := Rewritten(frames, issued), EncodeAll(frames);
    forall i | 0 <= i < |input| && (i >= |frame| || !InKeyBytes(frames, i))
      ensures written[|before| + i] == input[i]
    {
      SameAt(before, sent, frame, rest, i);
    }
  }

  lemma SameAt(before: Str, sent: Str, frame: Str, rest: Str, i: nat)
    requires |sent| == |frame| && i < |frame + rest| && (i < |frame| ==> sent[i] == frame[i])
    ensures (before + sent + rest)[|before| + i] == (frame + rest)[i]
  {}

  /** The stream consists of these frames, followed by a point where the loop goes no further. */
  predicate SplitsAt(input: Str, frames: seq<Message>, rest: Str) {
    Relayable(frames) && AllEncodable(frames) && input == EncodeAll(frames) + rest && Stops(rest)
  }

  /** Where the loop stops is fixed by the stream, whatever follows it. */
  lemma SplitAtStopIsUnique(input: Str, frames: seq<Message>, rest: Str)
    ensures SplitsAt(input, frames, rest) <==> Stop(input) == (frames, rest)
  {
    StopSplits(input);
    if SplitsAt(input, frames, rest) {
      FramesLeadToStop(input, frames, rest, [], rest);
      assert frames + [] == frames;
    }
  }

  lemma ReadyIsSpliced(input: Str, room: nat)
    requires ReadyAt(Stop(input).1)
    ensures EndingOf(input, room) == if |input| <= room then Spliced else ClientGone
  {
    StopSplits(input);
  }

  /**
   * A backend that gets as far as ReadyForQuery is relayed in full to every client that can take its
   * bytes, whatever follows looks like, and no other combination of stream and room ends that way.
   */
  lemma SplicedExactly(input: Str, room: nat)
    ensures EndingOf(input, room) == Spliced <==>
      |input| <= room && exists frames, rest :: SplitsAt(input, frames, rest) && ReadyAt(rest)
  {
    var (ms, end) := Stop(input);
    if ReadyAt(end) { ReadyIsSpliced(input, room); }
    SplitAtStopIsUnique(input, ms, end);
    if frames, rest :| SplitsAt(input, frames, rest) && ReadyAt(rest) { SplitAtStopIsUnique(input, frames, rest); }
  }

  lemma {:induction false} StopSplits(input: Str)
    ensures AllEncodable(Stop(input).0) && input == EncodeAll(Stop(input).0) + Stop(input).1
    decreases |input|
  {
    if Stops(input) {
      assert [] + input == input;
    } else {
      var (m, rest) := NextMessage(input);
      NextConsumesItsEncoding(input);
      StopSplits(rest);
      var (ms, end) := Stop(rest);
      assert ([m.value] + ms)[1..] == ms;
      Regroup(EncodeMessage(m.value), EncodeAll(ms), end, rest);
    }
  }

  lemma FirstFrame(ms: seq<Message>, rest: Str)
    requires AllEncodable(ms)
    ensures NextMessage(EncodeAll(ms) + rest) ==
      if ms == [] then NextMessage(rest) else (Ok(ms[0]), EncodeAll(ms[1..]) + rest)
  {
    if ms == [] {
      assert EncodeAll(ms) + rest == rest;
    } else {
      var more := EncodeAll(ms[1..]);
      NextOfEncoding(ms[0], more + rest);
      Regroup(EncodeMessage(ms[0]), more, rest, more + rest);
    }
  }

  // ---- Forwarding a cancellation ----

  datatype CancelOutcome = UnknownKey | BackendUnreachable | TLSFailed | WriteFailed | Forwarded

  /** Which addresses accept a connection, and which destinations then complete the TLS upgrade they ask for. */
  datatype Network = Network(dials: Str -> bool, upgrades: Destination -> bool) {
    predicate Reaches(dest: Destination) { dials(dest.addr) && (dest.tls.Enabled() ==> upgrades(dest)) }
  }

  function DestinationOfEntry(e: Entry): Destination { Destination(e.backendAddr, e.tls) }

  /** A cancellation for this key gets through to its backend, which takes `room` more bytes. */
  predicate Deliverable(entries: map<CancelKey, Entry>, request: CancelKey, net: Network, room: nat) {
    request in entries && net.Reaches(DestinationOfEntry(entries[request])) && 16 <= room
  }

  /** Dials the session's backend as the session did, and delivers the key the backend issued. */
  method ForwardCancel(cancels: CancelRegistry, request: CancelKey, net: Network, conn: Sink)
    returns (outcome: CancelOutcome, dialled: Option<Destination>)
    requires conn.Valid()
    modifies conn
    ensures conn.Valid()
    ensures outcome == UnknownKey <==> request !in cancels.entries
    ensures dialled == if request in cancels.entries then Some(DestinationOfEntry(cancels.entries[request])) else None
    ensures outcome == Forwarded <==>
      Deliverable(cancels.entries, request, net, conn.capacity - |old(conn.written)|)
    ensures conn.written ==
      if dialled.Some? && net.Reaches(dialled.value)
      then Appended(old(conn.written), EncodeCancelRequest(cancels.entries[request].backendKey), conn.capacity)
      else old(conn.written)
    ensures outcome == BackendUnreachable <==> dialled.Some? && !net.dials(dialled.value.addr)
    ensures outcome == TLSFailed <==>
      dialled.Some? && net.dials(dialled.value.addr) && !net.Reaches(dialled.value)
  {
    var entry := cancels.Lookup(request);
    if entry.None? { return UnknownKey, None; }
    var dest := DestinationOfEntry(entry.value);
    dialled := Some(dest);
    if !net.dials(dest.addr) { return BackendUnreachable, dialled; }
    if dest.tls.Enabled() && !net.upgrades(dest) { return TLSFailed, dialled; }
    var ok := conn.Write(EncodeCancelRequest(entry.value.backendKey));
    outcome := if ok then Forwarded else WriteFailed;
  }

  /**
   * The key's round trip: read by the client off its rewritten BackendKeyData, sent back in a
   * CancelRequest, found under the same registry key, and delivered as the very bytes the backend
   * sent in its own message m.
   */
  lemma KeySurvivesEveryHop(m: Message, issued: CancelKey, tail: Str)
    requires IsKey(m) && |m.body| == 8
    ensures var seen := NextMessage(EncodeBackendKeyData(issued) + tail);
      && seen.0.Ok? && IsKey(seen.0.value) && seen.1 == tail
      && DecodeBackendKeyData(seen.0.value.body) == Some(issued)
    ensures DecodeStartup(EncodeCancelRequest(issued)) == (Ok(Packet(CANCEL_REQUEST_CODE, [], issued)), [])
    ensures var delivered := EncodeCancelRequest(DecodeKey(m.body));
      && delivered[8..] == m.body
      && DecodeStartup(delivered) == (Ok(Packet(CANCEL_REQUEST_CODE, [], DecodeKey(m.body))), [])
  {
    ClientReadsIssued(issued, tail);
    CancelIsRead(issued);
    CancelIsRead(DecodeKey(m.body));
    KeyBytesRoundTrip(m.body);
  }

  lemma ClientReadsIssued(issued: CancelKey, tail: Str)
    ensures NextMessage(EncodeBackendKeyData(issued) + tail) ==
      (Ok(Message(MSG_BACKEND_KEY_DATA, KeyBytes(issued))), tail)
    ensures DecodeBackendKeyData(KeyBytes(issued)) == Some(issued)
  {
    var sent := Message(MSG_BACKEND_KEY_DATA, KeyBytes(issued));
    NextOfEncoding(sent, tail);
    assert EncodeMessage(sent) == EncodeBackendKeyData(issued);
    KeyRoundTrip(issued);
  }

  lemma CancelIsRead(k: CancelKey)
    ensures DecodeStartup(EncodeCancelRequest(k)) == (Ok(Packet(CANCEL_REQUEST_CODE, [], k)), [])
  {
    CancelKeyRoundTrip(k, []);
    assert EncodeCancelRequest(k) + [] == EncodeCancelRequest(k);
  }
}
