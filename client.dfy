/** One frame of the UDP client's main loop: fold the polled input events
    into a movement delta, pack that delta into the outgoing packet, then
    drain the inbound packets, taking each correctly sized one as the new
    snapshot of both players. Events and packets are abstract values; a
    packet buffer is viewed as a sequence of ints. */
module Client {
  import opened Wrappers

  /** The distance one arrow key moves along its axis. */
  const Speed := 5

  /** `sizeof(int)` on the platforms the program targets. */
  const IntBytes := 4

  /** `sizeof(Player)`: three ints. */
  const PlayerBytes := 3 * IntBytes

  /** `sizeof(players)`: the two records of a snapshot. */
  const SnapshotBytes := 2 * PlayerBytes

  /** A packet buffer holds 512 bytes, that is this many ints. */
  const PacketInts := 512 / IntBytes

  /** One player record, laid out as the server lays it out. */
  datatype Player = Player(id: int, x: int, y: int)

  datatype Key = Up | Down | Left | Right | OtherKey(sym: int)

  /** A polled event: a quit request, a key press, or anything else. */
  datatype Event = Quit | KeyDown(key: Key) | OtherEvent(kind: int)

  datatype Delta = Delta(dx: int, dy: int)

  // ---------------------------------------------------------------------
  // Input fold
  // ---------------------------------------------------------------------

  /** The effect of one event on the delta being built: each arrow key sets
      its own axis; everything else leaves the delta as it is. */
  function StepEvent(d: Delta, e: Event): (r: Delta)
    ensures r.dx == if Sets(e, Horizontal) then KeyValue(e.key) else d.dx
    ensures r.dy == if Sets(e, Vertical) then KeyValue(e.key) else d.dy
  {
    match e
    case KeyDown(Up) => d.(dy := -Speed)
    case KeyDown(Down) => d.(dy := Speed)
    case KeyDown(Left) => d.(dx := -Speed)
    case KeyDown(Right) => d.(dx := Speed)
    case _ => d
  }

  /** The delta after the events of one frame, starting from (0, 0). */
  function Fold(events: seq<Event>): Delta
  {
    if events == [] then Delta(0, 0) else StepEvent(Fold(events[..|events| - 1]), events[|events| - 1])
  }

  /** The two axes, and which keys act on which, as data: the reference
      against which the fold is proved. */
  datatype Axis = Horizontal | Vertical

  function Component(d: Delta, a: Axis): int
  {
    if a == Horizontal then d.dx else d.dy
  }

  /** Whether `e` is a press of a key that acts on axis `a`. */
  predicate Sets(e: Event, a: Axis)
  {
    match e
    case KeyDown(k) =>
      if a == Vertical then k == Up || k == Down else k == Left || k == Right
    case _ => false
  }

  /** The value a key gives its axis: towards the origin is negative. */
  function KeyValue(k: Key): int
  {
    if k == Up || k == Left then -Speed
    else if k == Down || k == Right then Speed
    else 0
  }

  lemma StepComponent(d: Delta, e: Event, a: Axis)
    ensures Component(StepEvent(d, e), a) == if Sets(e, a) then KeyValue(e.key) else Component(d, a)
  {
  }

  /** Each axis holds the value set by the last key acting on it. */
  lemma {:induction false} FoldLastKey(events: seq<Event>, a: Axis, k: int)
    requires 0 <= k < |events| && Sets(events[k], a)
    requires forall j :: k < j < |events| ==> !Sets(events[j], a)
    ensures Component(Fold(events), a) == KeyValue(events[k].key)
  {
    var n := |events| - 1;
    StepComponent(Fold(events[..n]), events[n], a);
    if k < n {
      var init := events[..n];
      forall j | k < j < |init| ensures !Sets(init[j], a) {
        assert init[j] == events[j];
      }
      FoldLastKey(init, a, k);
    }
  }

  /** An axis no key acted on stays 0: no events means no movement. */
  lemma {:induction false} FoldNoKey(events: seq<Event>, a: Axis)
    requires forall j :: 0 <= j < |events| ==> !Sets(events[j], a)
    ensures Component(Fold(events), a) == 0
  {
    if events != [] {
      var n := |events| - 1;
      StepComponent(Fold(events[..n]), events[n], a);
      var init := events[..n];
      forall j | 0 <= j < |init| ensures !Sets(init[j], a) {
        assert init[j] == events[j];
      }
      FoldNoKey(init, a);
    }
  }

  /** After any frame both components are -5, 0 or 5. */
  lemma {:induction false} FoldRange(events: seq<Event>)
    ensures Fold(events).dx in {-Speed, 0, Speed}
    ensures Fold(events).dy in {-Speed, 0, Speed}
  {
    if events != [] {
      FoldRange(events[..|events| - 1]);
    }
  }

  /** An event that does not act on axis `a` can be removed from the frame
      without changing that axis: vertical keys never change dx, horizontal
      keys never change dy. */
  lemma {:induction false} InertEventIgnored(before: seq<Event>, e: Event, after: seq<Event>, a: Axis)
    requires !Sets(e, a)
    ensures Component(Fold(before + [e] + after), a) == Component(Fold(before + after), a)
  {
    if after == [] {
      assert before + [e] + after == before + [e];
      assert (before + [e])[..|before|] == before;
      assert before + after == before;
      StepComponent(Fold(before), e, a);
    } else {
      var n := |after| - 1;
      var with := before + [e] + after;
      var without := before + after;
      assert with[..|with| - 1] == before + [e] + after[..n];
      assert without[..|without| - 1] == before + after[..n];
      assert with[|with| - 1] == after[n] == without[|without| - 1];
      InertEventIgnored(before, e, after[..n], a);
      StepComponent(Fold(with[..|with| - 1]), after[n], a);
      StepComponent(Fold(without[..|without| - 1]), after[n], a);
    }
  }

  /** A quit request does not stop the rest of the poll from being folded:
      the frame's delta is the one without the quit event. */
  lemma QuitDoesNotStopFold(before: seq<Event>, after: seq<Event>)
    ensures Fold(before + [Quit] + after) == Fold(before + after)
  {
    InertEventIgnored(before, Quit, after, Horizontal);
    InertEventIgnored(before, Quit, after, Vertical);
  }

  /** The event loop of one frame: dx and dy restart at 0, each event is
      folded in, and a quit request clears `running`. */
  method PollInput(events: seq<Event>, running: bool) returns (dx: int, dy: int, stillRunning: bool)
    ensures Delta(dx, dy) == Fold(events)
    ensures stillRunning == (running && Quit !in events)
  {
    dx, dy := 0, 0;
    stillRunning := running;
    var i := 0;
    while i < |events|
      invariant 0 <= i <= |events|
      invariant Delta(dx, dy) == Fold(events[..i])
      invariant stillRunning == (running && Quit !in events[..i])
    {
      var event := events[i];
      if event == Quit {
        stillRunning := false;
      } else if event.KeyDown? {
        match event.key
        case Up => dy := -Speed;
        case Down => dy := Speed;
        case Left => dx := -Speed;
        case Right => dx := Speed;
        case OtherKey(_) =>
      }
      assert events[..i + 1][..i] == events[..i];
      assert events[..i + 1] == events[..i] + [event];
      i := i + 1;
    }
    assert events[..i] == events;
  }

  // ---------------------------------------------------------------------
  // Outgoing packet
  // ---------------------------------------------------------------------

  /** This model's own reader of a movement packet, the partner of
      `EncodeMove`: two ints, dx then dy, and nothing unless the packet is
      exactly that long. The TCP server of this program reads its two ints
      with two separate receives in the same order (server.c:69-70); no
      reader of the UDP movement packet is part of this model. */
  function ReadMove(data: seq<int>, len: int): Option<Delta>
  {
    if len == 2 * IntBytes && |data| >= 2 then Some(Delta(data[0], data[1])) else None
  }

  /** Packing the delta into the outgoing buffer: dx first, dy second,
      length two ints; the rest of the buffer is left alone. */
  method EncodeMove(data: array<int>, dx: int, dy: int) returns (len: int)
    requires 2 <= data.Length
    modifies data
    ensures data[0] == dx && data[1] == dy
    ensures forall k :: 2 <= k < data.Length ==> data[k] == old(data[k])
    ensures len == 2 * IntBytes
    ensures ReadMove(data[..], len) == Some(Delta(dx, dy))
  {
    data[0] := dx;
    data[1] := dy;
    len := 2 * IntBytes;
  }

  // ---------------------------------------------------------------------
  // Inbound snapshots
  // ---------------------------------------------------------------------

  /** A received packet: the number of bytes received, and the buffer. */
  datatype InPacket = InPacket(len: int, data: seq<int>)

  /** The packet buffer is always the full allocated size. */
  predicate Fits(p: InPacket)
  {
    |p.data| == PacketInts
  }

  /** A packet is taken as a snapshot exactly when it is `sizeof(players)` long. */
  predicate IsSnapshot(p: InPacket)
  {
    p.len == SnapshotBytes
  }

  /** The two records at the start of a buffer. */
  function Unpack(data: seq<int>): (r: seq<Player>)
    requires |data| >= 6
    ensures |r| == 2
  {
    [Player(data[0], data[1], data[2]), Player(data[3], data[4], data[5])]
  }

  /** The in-memory layout of records: id, x, y for each, in order. */
  function Pack(ps: seq<Player>): (r: seq<int>)
    ensures |r| == 3 * |ps|
  {
    if ps == [] then [] else [ps[0].id, ps[0].x, ps[0].y] + Pack(ps[1..])
  }

  /** Unpacking a buffer that starts with two packed records gives them back. */
  lemma UnpackPack(ps: seq<Player>, rest: seq<int>)
    requires |ps| == 2
    ensures Unpack(Pack(ps) + rest) == ps
  {
    assert Pack(ps) == [ps[0].id, ps[0].x, ps[0].y, ps[1].id, ps[1].x, ps[1].y];
  }

  /** The records after one inbound packet. */
  function AfterPacket(ps: seq<Player>, p: InPacket): seq<Player>
    requires Fits(p)
  {
    if IsSnapshot(p) then Unpack(p.data) else ps
  }

  /** The records after draining `packets` in arrival order. */
  function Drained(ps: seq<Player>, packets: seq<InPacket>): seq<Player>
    requires forall j :: 0 <= j < |packets| ==> Fits(packets[j])
  {
    if packets == [] then ps
    else AfterPacket(Drained(ps, packets[..|packets| - 1]), packets[|packets| - 1])
  }

  /** The last correctly sized packet of a frame determines the records. */
  lemma {:induction false} DrainedLast(ps: seq<Player>, packets: seq<InPacket>, k: int)
    requires forall j :: 0 <= j < |packets| ==> Fits(packets[j])
    requires 0 <= k < |packets| && IsSnapshot(packets[k])
    requires forall j :: k < j < |packets| ==> !IsSnapshot(packets[j])
    ensures Drained(ps, packets) == Unpack(packets[k].data)
  {
    var n := |packets| - 1;
    if k < n {
      var init := packets[..n];
      forall j | 0 <= j < |init| ensures Fits(init[j]) && (k < j ==> !IsSnapshot(init[j])) {
        assert init[j] == packets[j];
      }
      DrainedLast(ps, init, k);
    }
  }

  /** Without a correctly sized packet the records are unchanged. */
  lemma {:induction false} DrainedNone(ps: seq<Player>, packets: seq<InPacket>)
    requires forall j :: 0 <= j < |packets| ==> Fits(packets[j])
    requires forall j :: 0 <= j < |packets| ==> !IsSnapshot(packets[j])
    ensures Drained(ps, packets) == ps
  {
    if packets != [] {
      var init := packets[..|packets| - 1];
      forall j | 0 <= j < |init| ensures Fits(init[j]) && !IsSnapshot(init[j]) {
        assert init[j] == packets[j];
      }
      DrainedNone(ps, init);
    }
  }

  /** The records the client draws before any snapshot has arrived. */
  method NewPlayers() returns (players: array<Player>)
    ensures fresh(players)
    ensures players[..] == [Player(0, 0, 0), Player(0, 0, 0)]
  {
    players := new Player[2](_ => Player(0, 0, 0));
  }

  /** The receive-drain loop: every correctly sized packet overwrites both
      records in place; any other packet is ignored. */
  method DrainInbound(players: array<Player>, packets: seq<InPacket>)
    requires players.Length == 2
    requires forall j :: 0 <= j < |packets| ==> Fits(packets[j])
    modifies players
    ensures players[..] == Drained(old(players[..]), packets)
  {
    var i := 0;
    while i < |packets|
      invariant 0 <= i <= |packets|
      invariant players[..] == Drained(old(players[..]), packets[..i])
    {
      var p := packets[i];
      if p.len == SnapshotBytes {
        players[0] := Player(p.data[0], p.data[1], p.data[2]);
        players[1] := Player(p.data[3], p.data[4], p.data[5]);
      }
      assert packets[..i + 1][..i] == packets[..i];
      i := i + 1;
    }
    assert packets[..i] == packets;
  }

  /** One iteration of the main loop, without the rendering: poll, send,
      then drain. */
  method RunFrame(players: array<Player>, out: array<int>, running: bool,
                  events: seq<Event>, packets: seq<InPacket>)
    returns (outLen: int, stillRunning: bool)
    requires players.Length == 2 && 2 <= out.Length
    requires forall j :: 0 <= j < |packets| ==> Fits(packets[j])
    modifies players, out
    ensures Delta(out[0], out[1]) == Fold(events) && outLen == 2 * IntBytes
    ensures forall k :: 2 <= k < out.Length ==> out[k] == old(out[k])
    ensures ReadMove(out[..], outLen) == Some(Fold(events))
    ensures stillRunning == (running && Quit !in events)
    ensures players[..] == Drained(old(players[..]), packets)
  {
    var dx, dy;
    dx, dy, stillRunning := PollInput(events, running);
    outLen := EncodeMove(out, dx, dy);
    DrainInbound(players, packets);
  }
}
