/** The TCP game server: admits up to `MaxPlayers` clients, then, every tick,
    applies each connected client's movement delta to its player record and
    sends every record to every connected client. Sockets are abstract:
    an accept is an `Option<Client>`, a receive is a `Received` value and a
    send is an element of the returned sequence of `Send`s. */
module Server {
  import opened Wrappers

  const MaxPlayers := 2

  /** One player record: the slot id and the position. */
  datatype Player = Player(id: int, x: int, y: int)

  /** An opaque accepted-client socket handle. */
  datatype Client = Client(handle: nat)

  /** The id message a freshly admitted client is sent. */
  datatype Greeting = Greeting(to: Client, id: int)

  /** One `sizeof(Player)` send of a record to a client. */
  datatype Send = Send(to: Client, record: Player)

  /** The outcome of one receive of one int: the status it returned and the
      value it delivered into the destination variable. */
  datatype Received = Received(status: int, value: int)

  /** The two receives done for one slot in one tick, first `dx`, then `dy`. */
  datatype SlotInput = SlotInput(dx: Received, dy: Received)

  /** The records the server starts with. */
  function InitialPlayers(): seq<Player>
  {
    [Player(0, 100, 250), Player(1, 200, 250)]
  }

  // ---------------------------------------------------------------------
  // Admission
  // ---------------------------------------------------------------------

  /** The clients of a sequence of accept results, in acceptance order. */
  function Accepted(accepts: seq<Option<Client>>): (r: seq<Client>)
    ensures |r| <= |accepts|
  {
    if accepts == [] then []
    else if accepts[0].Some? then [accepts[0].value] + Accepted(accepts[1..])
    else Accepted(accepts[1..])
  }

  /** The slot table after running the admission loop from `slots` over the
      accept results `accepts`: one accept per iteration, while there is room. */
  function Admission(slots: seq<Client>, accepts: seq<Option<Client>>): seq<Client>
    decreases accepts
  {
    if |slots| >= MaxPlayers || accepts == [] then slots
    else if accepts[0].Some? then Admission(slots + [accepts[0].value], accepts[1..])
    else Admission(slots, accepts[1..])
  }

  function Min(a: int, b: int): int { if a <= b then a else b }

  /** The admission loop fills the free slots, in order, with the first
      accepted clients and never grows the table past capacity. */
  lemma {:induction false} AdmissionTakesFirstAccepted(slots: seq<Client>, accepts: seq<Option<Client>>)
    requires |slots| <= MaxPlayers
    decreases accepts
    ensures Admission(slots, accepts)
         == slots + Accepted(accepts)[..Min(MaxPlayers - |slots|, |Accepted(accepts)|)]
    ensures |Admission(slots, accepts)| <= MaxPlayers
  {
    if |slots| >= MaxPlayers || accepts == [] {
      assert Accepted(accepts)[..Min(MaxPlayers - |slots|, |Accepted(accepts)|)] == [];
    } else if accepts[0].Some? {
      var c := accepts[0].value;
      AdmissionTakesFirstAccepted(slots + [c], accepts[1..]);
      var rest := Accepted(accepts[1..]);
      assert Accepted(accepts) == [c] + rest;
      var n := Min(MaxPlayers - |slots| - 1, |rest|);
      assert ([c] + rest)[..n + 1] == [c] + rest[..n];
    } else {
      AdmissionTakesFirstAccepted(slots, accepts[1..]);
    }
  }

  /** One iteration of the admission loop, as a fact about `Admission`. */
  lemma AdmissionStep(slots: seq<Client>, accepts: seq<Option<Client>>)
    requires |slots| < MaxPlayers && accepts != []
    ensures Admission(slots, accepts)
         == Admission(if accepts[0].Some? then slots + [accepts[0].value] else slots, accepts[1..])
  {
  }

  /** Once enough clients have been accepted the table is full. */
  lemma AdmissionFills(slots: seq<Client>, accepts: seq<Option<Client>>)
    requires |slots| <= MaxPlayers
    requires |Accepted(accepts)| >= MaxPlayers - |slots|
    ensures |Admission(slots, accepts)| == MaxPlayers
  {
    AdmissionTakesFirstAccepted(slots, accepts);
  }

  /** The ids told to the clients occupying slots `base`, `base + 1`, ... */
  function Greetings(base: int, clients: seq<Client>): (r: seq<Greeting>)
    ensures |r| == |clients|
    ensures forall k :: 0 <= k < |r| ==> r[k] == Greeting(clients[k], base + k)
  {
    if clients == [] then []
    else Greetings(base, clients[..|clients| - 1]) + [Greeting(clients[|clients| - 1], base + |clients| - 1)]
  }

  // ---------------------------------------------------------------------
  // Tick
  // ---------------------------------------------------------------------

  /** What a receive leaves in its destination variable, which starts at 0:
      the delivered value when the receive returned a positive status. */
  function Landed(r: Received): (v: int)
    ensures r.status <= 0 ==> v == 0
    ensures r.status > 0 ==> v == r.value
  {
    if r.status > 0 then r.value else 0
  }

  /** One slot's update: the delta is added when the SUM of the two receive
      statuses is positive; there is no clamping. */
  function Moved(p: Player, s: SlotInput): (q: Player)
    ensures q.id == p.id
    ensures s.dx.status + s.dy.status > 0 ==>
      q.x - p.x == Landed(s.dx) && q.y - p.y == Landed(s.dy)
    ensures s.dx.status + s.dy.status <= 0 ==> q == p
  {
    if s.dx.status + s.dy.status > 0
    then p.(x := p.x + Landed(s.dx), y := p.y + Landed(s.dy))
    else p
  }

  /** Processing slot `i` alone. */
  function ApplySlot(ps: seq<Player>, i: nat, s: SlotInput): (r: seq<Player>)
    requires i < |ps|
    ensures |r| == |ps|
    ensures r[i] == Moved(ps[i], s)
    ensures forall k :: 0 <= k < |ps| && k != i ==> r[k] == ps[k]
  {
    ps[i := Moved(ps[i], s)]
  }

  /** The records after processing slots 0, 1, ..., |ins| - 1 in order. */
  function Ticked(ps: seq<Player>, ins: seq<SlotInput>): (r: seq<Player>)
    requires |ins| <= |ps|
    ensures |r| == |ps|
  {
    if ins == [] then ps
    else ApplySlot(Ticked(ps, ins[..|ins| - 1]), |ins| - 1, ins[|ins| - 1])
  }

  /** After a tick, each connected slot holds its own moved record, and every
      other record is as before. */
  lemma {:induction false} TickedAt(ps: seq<Player>, ins: seq<SlotInput>)
    requires |ins| <= |ps|
    ensures |Ticked(ps, ins)| == |ps|
    ensures forall k :: 0 <= k < |ins| ==> Ticked(ps, ins)[k] == Moved(ps[k], ins[k])
    ensures forall k :: |ins| <= k < |ps| ==> Ticked(ps, ins)[k] == ps[k]
  {
    if ins != [] {
      var init := ins[..|ins| - 1];
      TickedAt(ps, init);
      forall k | 0 <= k < |init| ensures init[k] == ins[k] { }
    }
  }

  /** The update is gated on the sum of the statuses, not on both receives
      succeeding, and a receive that failed contributes its variable's
      initial 0. Stated for every class of statuses, on the raw values. */
  lemma GateIsSum(p: Player, s: SlotInput)
    ensures s.dx.status + s.dy.status <= 0 ==> Moved(p, s) == p
    ensures s.dx.status > 0 && s.dy.status > 0 ==>
      Moved(p, s) == Player(p.id, p.x + s.dx.value, p.y + s.dy.value)
    ensures s.dx.status <= 0 < s.dx.status + s.dy.status ==>
      Moved(p, s) == p.(y := p.y + s.dy.value)
    ensures s.dy.status <= 0 < s.dx.status + s.dy.status ==>
      Moved(p, s) == p.(x := p.x + s.dx.value)
  {
  }

  /** Instances of the gate: a full `dx` and a closed `dy` still move along
      x; a failed `dx` and a one-byte `dy` sum to 0 and move nothing. */
  lemma GateExamples(p: Player, dx: int, dy: int)
    ensures Moved(p, SlotInput(Received(4, dx), Received(0, dy))) == p.(x := p.x + dx)
    ensures Moved(p, SlotInput(Received(-1, dx), Received(1, dy))) == p
    ensures Moved(p, SlotInput(Received(-1, dx), Received(-1, dy))) == p
  {
  }

  /** A tick never changes a record's id. */
  lemma TickedKeepsIds(ps: seq<Player>, ins: seq<SlotInput>)
    requires |ins| <= |ps|
    ensures |Ticked(ps, ins)| == |ps|
    ensures forall k :: 0 <= k < |ps| ==> Ticked(ps, ins)[k].id == ps[k].id
  {
    TickedAt(ps, ins);
  }

  // ---------------------------------------------------------------------
  // Broadcast
  // ---------------------------------------------------------------------

  /** Sending every record, in index order, to one client. */
  function RecordsTo(c: Client, ps: seq<Player>): seq<Send>
  {
    if ps == [] then [] else RecordsTo(c, ps[..|ps| - 1]) + [Send(c, ps[|ps| - 1])]
  }

  /** The sends of one broadcast: for each client in slot order, every record. */
  function Broadcast(cs: seq<Client>, ps: seq<Player>): seq<Send>
  {
    if cs == [] then [] else Broadcast(cs[..|cs| - 1], ps) + RecordsTo(cs[|cs| - 1], ps)
  }

  lemma {:induction false} RecordsToAt(c: Client, ps: seq<Player>)
    ensures |RecordsTo(c, ps)| == |ps|
    ensures forall j :: 0 <= j < |ps| ==> RecordsTo(c, ps)[j] == Send(c, ps[j])
  {
    if ps != [] {
      var init := ps[..|ps| - 1];
      RecordsToAt(c, init);
      forall j | 0 <= j < |init| ensures init[j] == ps[j] { }
    }
  }

  lemma MulSucc(n: int, m: int)
    ensures (n + 1) * m == n * m + m
  {
  }

  lemma MulSplit(a: int, b: int, n: int, m: int)
    requires n == a + 1 + b
    ensures n * m == a * m + m + b * m
  {
  }

  /** Broadcasting to two groups of clients is broadcasting to each in turn. */
  lemma {:induction false} BroadcastAppend(a: seq<Client>, b: seq<Client>, ps: seq<Player>)
    ensures Broadcast(a + b, ps) == Broadcast(a, ps) + Broadcast(b, ps)
  {
    if b == [] {
      assert a + b == a;
    } else {
      var ab, init, last := a + b, b[..|b| - 1], b[|b| - 1];
      assert ab[..|ab| - 1] == a + init;
      assert ab[|ab| - 1] == last;
      calc {
        Broadcast(ab, ps);
        Broadcast(a + init, ps) + RecordsTo(last, ps);
        { BroadcastAppend(a, init, ps); }
        Broadcast(a, ps) + Broadcast(init, ps) + RecordsTo(last, ps);
        Broadcast(a, ps) + (Broadcast(init, ps) + RecordsTo(last, ps));
        Broadcast(a, ps) + Broadcast(b, ps);
      }
    }
  }

  /** The sends to client i sit between those to the clients before it and
      those to the clients after it. */
  lemma BroadcastSplit(cs: seq<Client>, ps: seq<Player>, i: int)
    requires 0 <= i < |cs|
    ensures Broadcast(cs, ps)
         == Broadcast(cs[..i], ps) + RecordsTo(cs[i], ps) + Broadcast(cs[i + 1..], ps)
  {
    var before, here, after := cs[..i], [cs[i]], cs[i + 1..];
    assert cs == before + here + after;
    assert here[..0] == [];
    BroadcastAppend(before + here, after, ps);
    BroadcastAppend(before, here, ps);
  }

  /** A broadcast is exactly |cs| * |ps| sends, and send number i * |ps| + j
      carries record j to client i. */
  lemma BroadcastAt(cs: seq<Client>, ps: seq<Player>, i: int, j: int)
    requires 0 <= i < |cs| && 0 <= j < |ps|
    ensures |Broadcast(cs, ps)| == |cs| * |ps|
    ensures i * |ps| + j < |Broadcast(cs, ps)|
    ensures Broadcast(cs, ps)[i * |ps| + j] == Send(cs[i], ps[j])
  {
    BroadcastSplit(cs, ps, i);
    var head, mid, tail := Broadcast(cs[..i], ps), RecordsTo(cs[i], ps), Broadcast(cs[i + 1..], ps);
    RecordsToAt(cs[i], ps);
    BroadcastLength(cs[..i], ps);
    BroadcastLength(cs[i + 1..], ps);
    MulSplit(i, |cs| - i - 1, |cs|, |ps|);
    SeqAt3(head, mid, tail, j);
  }

  lemma SeqAt3<T>(head: seq<T>, mid: seq<T>, tail: seq<T>, j: int)
    requires 0 <= j < |mid|
    ensures (head + mid + tail)[|head| + j] == mid[j]
  {
  }

  lemma {:induction false} BroadcastLength(cs: seq<Client>, ps: seq<Player>)
    ensures |Broadcast(cs, ps)| == |cs| * |ps|
  {
    if cs != [] {
      BroadcastLength(cs[..|cs| - 1], ps);
      RecordsToAt(cs[|cs| - 1], ps);
      MulSucc(|cs| - 1, |ps|);
    }
  }

  // ---------------------------------------------------------------------
  // The server's global state
  // ---------------------------------------------------------------------

  /** The globals `players`, `clientSockets` and `connectedPlayers`. */
  class GameServer {
    var players: array<Player>
    var clientSockets: array<Option<Client>>
    var connectedPlayers: int

    /** Both tables have `MaxPlayers` entries, the count is within capacity,
        the occupied slots are exactly 0 .. connectedPlayers - 1, and record
        k carries id k. */
    ghost predicate Valid()
      reads this, players, clientSockets
    {
      players.Length == MaxPlayers && clientSockets.Length == MaxPlayers &&
      0 <= connectedPlayers <= MaxPlayers &&
      (forall k :: 0 <= k < MaxPlayers ==> (clientSockets[k].Some? <==> k < connectedPlayers)) &&
      (forall k :: 0 <= k < MaxPlayers ==> players[k].id == k)
    }

    /** The connected clients in slot order. */
    ghost function Slots(): (s: seq<Client>)
      reads this, players, clientSockets
      requires Valid()
      ensures |s| == connectedPlayers
      ensures forall k :: 0 <= k < |s| ==> clientSockets[k] == Some(s[k])
    {
      seq(connectedPlayers, k requires 0 <= k < connectedPlayers reads this, clientSockets =>
        if k < clientSockets.Length && clientSockets[k].Some? then clientSockets[k].value else Client(0))
    }

    /** The state once the globals are in place and the positions are set. */
    constructor ()
      ensures Valid() && fresh(players) && fresh(clientSockets)
      ensures players[..] == InitialPlayers()
      ensures connectedPlayers == 0 && Slots() == []
    {
      players := new Player[MaxPlayers](_ => Player(0, 0, 0));
      clientSockets := new Option<Client>[MaxPlayers](_ => None);
      connectedPlayers := 0;
      new;
      players[0] := Player(0, 100, 250);
      players[1] := Player(1, 200, 250);
    }

    /** One iteration of the admission loop: an accepted client takes slot
        `connectedPlayers`, is told that index as its id, and only then is the
        count incremented; a failed accept changes nothing. */
    method Admit(accepted: Option<Client>) returns (greeting: Option<Greeting>)
      requires Valid() && connectedPlayers < MaxPlayers
      modifies this`connectedPlayers, clientSockets
      ensures Valid()
      ensures accepted.None? ==> greeting.None? && unchanged(this, clientSockets)
      ensures accepted.Some? ==>
        && connectedPlayers == old(connectedPlayers) + 1
        && Slots() == old(Slots()) + [accepted.value]
        && greeting == Some(Greeting(accepted.value, old(connectedPlayers)))
    {
      greeting := None;
      if accepted.Some? {
        clientSockets[connectedPlayers] := accepted;
        greeting := Some(Greeting(accepted.value, connectedPlayers));
        connectedPlayers := connectedPlayers + 1;
        assert Slots() == old(Slots()) + [accepted.value];
      }
    }

    /** The admission loop over a finite sequence of accept results: it stops
        when the table is full or the accept results run out. */
    method AdmitAll(accepts: seq<Option<Client>>) returns (greetings: seq<Greeting>)
      requires Valid()
      modifies this`connectedPlayers, clientSockets
      ensures Valid()
      ensures Slots() == Admission(old(Slots()), accepts)
      ensures |old(Slots())| <= |Slots()|
      ensures greetings == Greetings(old(connectedPlayers), Slots()[old(connectedPlayers)..])
    {
      ghost var start := Slots();
      var i := 0;
      greetings := [];
      while connectedPlayers < MaxPlayers && i < |accepts|
        invariant Valid()
        invariant 0 <= i <= |accepts|
        invariant |start| <= |Slots()| && Slots()[..|start|] == start
        invariant Admission(Slots(), accepts[i..]) == Admission(start, accepts)
        invariant greetings == Greetings(|start|, Slots()[|start|..])
      {
        ghost var before := Slots();
        AdmissionStep(before, accepts[i..]);
        assert accepts[i..][1..] == accepts[i + 1..];
        var g := Admit(accepts[i]);
        if g.Some? {
          ghost var c := accepts[i].value;
          assert Slots() == before + [c];
          assert (before + [c])[..|start|] == before[..|start|];
          assert (before + [c])[|start|..] == before[|start|..] + [c];
          greetings := greetings + [g.value];
        }
        i := i + 1;
      }
      assert Slots()[..|start|] == start;
    }

    /** The per-tick loop: slot i's receives move record i and no other. */
    method ApplyDeltas(inbound: seq<SlotInput>)
      requires Valid() && |inbound| == connectedPlayers
      modifies players
      ensures Valid()
      ensures players[..] == Ticked(old(players[..]), inbound)
    {
      var i := 0;
      while i < connectedPlayers
        invariant Valid()
        invariant 0 <= i <= connectedPlayers
        invariant players[..] == Ticked(old(players[..]), inbound[..i])
      {
        ghost var before := players[..];
        players[i] := Moved(players[i], inbound[i]);
        assert inbound[..i + 1][..i] == inbound[..i];
        assert players[..] == ApplySlot(before, i, inbound[i]);
        TickedKeepsIds(old(players[..]), inbound[..i]);
        i := i + 1;
      }
      assert inbound[..i] == inbound;
    }

    /** The broadcast: every record, in index order, to each connected client
        in slot order. */
    method SendPlayerPositions() returns (sends: seq<Send>)
      requires Valid()
      ensures sends == Broadcast(Slots(), players[..])
    {
      ghost var cs := Slots();
      sends := [];
      var i := 0;
      while i < connectedPlayers
        invariant 0 <= i <= connectedPlayers
        invariant sends == Broadcast(cs[..i], players[..])
      {
        var c := clientSockets[i].value;
        var j := 0;
        while j < MaxPlayers
          invariant 0 <= j <= MaxPlayers
          invariant sends == Broadcast(cs[..i], players[..]) + RecordsTo(c, players[..j])
        {
          sends := sends + [Send(c, players[j])];
          assert players[..j + 1][..j] == players[..j];
          j := j + 1;
        }
        assert cs[..i + 1][..i] == cs[..i];
        assert players[..j] == players[..];
        i := i + 1;
      }
      assert cs[..i] == cs;
    }

    /** One tick of the serve loop: all deltas first, then the broadcast of
        the resulting records. */
    method Tick(inbound: seq<SlotInput>) returns (sends: seq<Send>)
      requires Valid() && |inbound| == connectedPlayers
      modifies players
      ensures Valid()
      ensures players[..] == Ticked(old(players[..]), inbound)
      ensures sends == Broadcast(Slots(), players[..])
    {
      ApplyDeltas(inbound);
      sends := SendPlayerPositions();
    }
  }
}
