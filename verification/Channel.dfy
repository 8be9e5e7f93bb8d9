/** The two ends of the runtime channel (MyCrypter.h with `set_post` and `set` of MachineTime.cpp on the
    server, MyCripter.java with `send` of MachineTimeForwarder.java on the client), and both together. */
module Channel {
  import opened Generator
  import opened Packing
  import opened Cipher

  // ---------------------------------------------------------------------------------------------
  // One end
  // ---------------------------------------------------------------------------------------------

  /** What both ends are configured with: the four key words and the two static keys. */
  datatype Config = Config(keys: Keys, request: seq<bv8>, response: seq<bv8>)

  /** `"Invalid data size"`. */
  function InvalidSize(): seq<bv8> {
    [73, 110, 118, 97, 108, 105, 100, 32, 100, 97, 116, 97, 32, 115, 105, 122, 101]
  }

  /** The static response is a text, not too long for the server's 16-bit counts, and not the refusal. */
  predicate Usable(c: Config) {
    && c.response != [] && |c.response| <= 98300
    && (forall i: nat :: i < |c.response| ==> c.response[i] != 0)
    && c.response != InvalidSize()
  }

  datatype End = End(gen: Gen, connected: bool)

  datatype Spoken = Spoken(end: End, wire: seq<bv8>)

  /** `encrypt` of the client: disconnected, it sends a new seed under the static key and reseeds itself
      with it. */
  function ClientEncrypt(c: Config, e: End, seed: seq<bv8>, data: seq<bv8>): Spoken {
    if e.connected then
      var coded := Code(Client, e.gen, data);
      Spoken(e.(gen := coded.gen), coded.wire)
    else
      Spoken(End(Reseeded(c.keys, seed), false), Code(Client, Reseeded(c.keys, c.request), seed).wire)
  }

  datatype Heard = Heard(end: End, message: seq<bv8>)

  /** The message, or nothing where the source returns an empty vector. */
  function MessageOf(r: Reading): seq<bv8> {
    if r.Accepted? then r.message else []
  }

  /** The generator the server opens a request with. */
  function ServerOpens(c: Config, e: End): Gen {
    if e.connected then e.gen else Reseeded(c.keys, c.request)
  }

  /** `decrypt` of the server: a first good message is a seed; a bad one disconnects. */
  function ServerDecrypt(c: Config, e: End, wire: seq<bv8>): Heard {
    var d := Decode(Server, ServerOpens(c, e), wire);
    var m := MessageOf(d.reading);
    if m == [] then Heard(End(d.gen, false), [])
    else if e.connected then Heard(End(d.gen, true), m)
    else Heard(End(Reseeded(c.keys, m), true), m)
  }

  function ServerEncrypt(e: End, text: seq<bv8>): Spoken {
    Spoken(e.(gen := Code(Server, e.gen, text).gen), Code(Server, e.gen, text).wire)
  }

  /** The reply to a handshake, and to data of the one length that is right. */
  function Reply(c: Config, put: bool, m: seq<bv8>): seq<bv8> {
    if (put && |m| == 80) || (!put && m != []) then c.response else InvalidSize()
  }

  /** `validationResponse`: the buffer up to its first zero is the static response. */
  predicate Validates(c: Config, r: Reading) {
    r.Accepted? && UpToZero(r.message) == c.response
  }

  function UpToZero(m: seq<bv8>): seq<bv8> {
    if m == [] || m[0] == 0 then [] else [m[0]] + UpToZero(m[1..])
  }

  function ClientDecrypt(c: Config, e: End, wire: seq<bv8>): End {
    var d := Decode(Client, e.gen, wire);
    End(d.gen, Validates(c, d.reading))
  }

  // ---------------------------------------------------------------------------------------------
  // Both ends
  // ---------------------------------------------------------------------------------------------

  datatype World = World(client: End, server: End)

  datatype Fate = RequestLost | ReplyLost | Whole

  datatype Event =
    | Exchange(seed: seq<bv8>, data: seq<bv8>, fate: Fate)
    | ServerRestart(gen: Gen)

  /** The seed has 64 bytes and the data 80. */
  predicate Shaped(e: Event) {
    e.Exchange? ==> |e.seed| == 64 && |e.data| == 80
  }

  function Asked(c: Config, w: World, e: Event): Spoken
    requires e.Exchange?
  {
    ClientEncrypt(c, w.client, e.seed, e.data)
  }

  function Taken(c: Config, w: World, e: Event): Heard
    requires e.Exchange?
  {
    ServerDecrypt(c, w.server, Asked(c, w, e).wire)
  }

  function Answered(c: Config, w: World, e: Event): Spoken
    requires e.Exchange?
  {
    ServerEncrypt(Taken(c, w, e).end, Reply(c, w.client.connected, Taken(c, w, e).message))
  }

  function Happen(c: Config, w: World, e: Event): World {
    match e
    case ServerRestart(gen) => w.(server := End(gen, false))
    case Exchange(_, _, fate) =>
      var asked := Asked(c, w, e);
      if fate.RequestLost? then w.(client := asked.end.(connected := false))
      else if fate.ReplyLost? then World(asked.end.(connected := false), Answered(c, w, e).end)
      else World(ClientDecrypt(c, asked.end, Answered(c, w, e).wire), Answered(c, w, e).end)
  }

  /** The generator the client masks its request with. */
  function ClientUses(c: Config, e: End): Gen {
    if e.connected then e.gen else Reseeded(c.keys, c.request)
  }

  /** No checksum matches by chance: a message is refused by an end that opens it with another generator
      than it was masked with, and a handshake by a server that takes it for data, or data by one that
      takes it for a handshake. */
  predicate NoChance(c: Config, w: World, e: Event) {
    e.Exchange? ==>
      && (w.client.connected != w.server.connected || ClientUses(c, w.client) != ServerOpens(c, w.server) ==>
            Taken(c, w, e).message == [])
      && (Asked(c, w, e).end.gen != Taken(c, w, e).end.gen ==>
            !ClientDecrypt(c, Asked(c, w, e).end, Answered(c, w, e).wire).connected)
  }

  /** Ends that both think they are connected have the same generator. */
  predicate InStep(w: World) {
    w.client.connected && w.server.connected ==> w.client.gen == w.server.gen
  }

  predicate Synchronised(w: World) {
    w.client.connected && w.server.connected && w.client.gen == w.server.gen
  }

  // ---------------------------------------------------------------------------------------------
  // Single exchanges
  // ---------------------------------------------------------------------------------------------

  lemma {:induction false} UpToZeroWhole(m: seq<bv8>)
    requires forall i: nat :: i < |m| ==> m[i] != 0
    ensures UpToZero(m) == m
  {
    if m != [] {
      UpToZeroWhole(m[1..]);
    }
  }

  lemma TextPlain(c: Config, text: seq<bv8>)
    requires Usable(c) && (text == c.response || text == InvalidSize())
    ensures text != [] && |text| <= 98300 && UpToZero(text) == text
  {
    if text == InvalidSize() {
      InvalidSizePlain();
    }
    UpToZeroWhole(text);
  }

  lemma InvalidSizePlain()
    ensures forall i: nat :: i < |InvalidSize()| ==> InvalidSize()[i] != 0
  {
  }

  /** A reply masked with the client's own generator reaches it, and leaves both in the same state; it
      connects the client exactly when it is the static response. */
  lemma ReplyHeard(c: Config, client: End, server: End, text: seq<bv8>)
    requires Usable(c) && client.gen == server.gen && (text == c.response || text == InvalidSize())
    ensures
      var spoken := ServerEncrypt(server, text);
      ClientDecrypt(c, client, spoken.wire) == End(spoken.end.gen, text == c.response)
  {
    RoundTrip(Server, Client, server.gen, text);
    TextPlain(c, text);
  }

  /** A request masked with the generator the server opens it with is taken as it was sent. */
  lemma RequestTaken(c: Config, w: World, e: Event)
    requires e.Exchange? && Shaped(e)
    requires w.client.connected == w.server.connected && ClientUses(c, w.client) == ServerOpens(c, w.server)
    ensures Taken(c, w, e) == Heard(End(Asked(c, w, e).end.gen, true), if w.client.connected then e.data else e.seed)
  {
    RoundTrip(Client, Server, ClientUses(c, w.client), if w.client.connected then e.data else e.seed);
  }

  /** If the server took the request and both generators agree, a whole exchange synchronises the ends. */
  lemma TakenSynchronises(c: Config, w: World, e: Event)
    requires Usable(c) && e.Exchange? && e.fate.Whole?
    requires Taken(c, w, e).end == End(Asked(c, w, e).end.gen, true)
    requires Reply(c, w.client.connected, Taken(c, w, e).message) == c.response
    ensures Synchronised(Happen(c, w, e))
  {
    ReplyEnds(c, w, e, Asked(c, w, e).end, Taken(c, w, e).end, c.response);
  }

  /** A whole exchange ends with the client hearing the reply. */
  lemma ReplyEnds(c: Config, w: World, e: Event, client: End, server: End, text: seq<bv8>)
    requires Usable(c) && e.Exchange? && e.fate.Whole? && client == Asked(c, w, e).end && server == Taken(c, w, e).end
    requires client.gen == server.gen && (text == c.response || text == InvalidSize())
    requires text == Reply(c, w.client.connected, Taken(c, w, e).message)
    ensures
      var spoken := ServerEncrypt(server, text);
      Happen(c, w, e) == World(End(spoken.end.gen, text == c.response), spoken.end)
  {
    WholeExchange(c, w, e);
    assert Answered(c, w, e) == ServerEncrypt(server, text);
    ReplyHeard(c, client, server, text);
  }

  lemma WholeExchange(c: Config, w: World, e: Event)
    requires e.Exchange? && e.fate.Whole?
    ensures Happen(c, w, e) == World(ClientDecrypt(c, Asked(c, w, e).end, Answered(c, w, e).wire), Answered(c, w, e).end)
  {
  }

  /** From any two generators, one handshake with a disconnected server synchronises both ends. */
  lemma HandshakeSynchronises(c: Config, w: World, e: Event)
    requires Usable(c) && e.Exchange? && Shaped(e) && e.fate.Whole?
    requires !w.client.connected && !w.server.connected
    ensures Synchronised(Happen(c, w, e)) && Taken(c, w, e).message == e.seed
  {
    RequestTaken(c, w, e);
    TakenSynchronises(c, w, e);
  }

  /** Synchronised ends stay so through a whole exchange, and the server gets exactly the data. */
  lemma DataDelivered(c: Config, w: World, e: Event)
    requires Usable(c) && e.Exchange? && Shaped(e) && e.fate.Whole? && Synchronised(w)
    ensures Synchronised(Happen(c, w, e)) && Taken(c, w, e).message == e.data
  {
    RequestTaken(c, w, e);
    TakenSynchronises(c, w, e);
  }

  // ---------------------------------------------------------------------------------------------
  // Whole runs
  // ---------------------------------------------------------------------------------------------

  /** Whatever happens, a client that comes out of an exchange connected is in step with a connected
      server. */
  lemma ConnectedInStep(c: Config, w: World, e: Event)
    requires Usable(c) && e.Exchange? && NoChance(c, w, e) && Happen(c, w, e).client.connected
    ensures Synchronised(Happen(c, w, e))
  {
    var text := Reply(c, w.client.connected, Taken(c, w, e).message);
    ReplyEnds(c, w, e, Asked(c, w, e).end, Taken(c, w, e).end, text);
    assert text == c.response;
  }

  lemma InStepKept(c: Config, w: World, e: Event)
    requires Usable(c) && InStep(w) && NoChance(c, w, e)
    ensures InStep(Happen(c, w, e))
  {
    if e.Exchange? && Happen(c, w, e).client.connected {
      ConnectedInStep(c, w, e);
    }
  }

  /** The server never takes anything but what the client sent, as what the client sent it. */
  lemma TakenIsSent(c: Config, w: World, e: Event)
    requires e.Exchange? && Shaped(e) && NoChance(c, w, e)
    ensures Taken(c, w, e).message == []
         || (w.client.connected && w.server.connected && Taken(c, w, e).message == e.data)
         || (!w.client.connected && !w.server.connected && Taken(c, w, e).message == e.seed)
  {
    if Taken(c, w, e).message != [] {
      RequestTaken(c, w, e);
    }
  }

  function Run(c: Config, w: World, events: seq<Event>): World
    decreases events
  {
    if events == [] then w else Run(c, Happen(c, w, events[0]), events[1..])
  }

  predicate AllNoChance(c: Config, w: World, events: seq<Event>)
    decreases events
  {
    events != [] ==> NoChance(c, w, events[0]) && AllNoChance(c, Happen(c, w, events[0]), events[1..])
  }

  /** Over any run of exchanges, losses and server restarts, ends that are both connected are in step. */
  lemma {:induction false} LockStep(c: Config, w: World, events: seq<Event>)
    requires Usable(c) && InStep(w) && AllNoChance(c, w, events)
    ensures InStep(Run(c, w, events))
    decreases events
  {
    if events != [] {
      InStepKept(c, w, events[0]);
      LockStep(c, Happen(c, w, events[0]), events[1..]);
    }
  }

  /** An exchange that does not find the ends in step leaves both disconnected. */
  lemma RejectedDisconnects(c: Config, w: World, e: Event)
    requires Usable(c) && e.Exchange? && e.fate.Whole? && NoChance(c, w, e) && Taken(c, w, e).message == []
    ensures !Happen(c, w, e).client.connected && !Happen(c, w, e).server.connected
  {
    if Asked(c, w, e).end.gen == Taken(c, w, e).end.gen {
      ReplyEnds(c, w, e, Asked(c, w, e).end, Taken(c, w, e).end, InvalidSize());
    }
  }

  /** From any state of both ends, two whole exchanges synchronise them: a handshake that a connected
      server refuses, or data that a restarted one does, makes the next handshake succeed. */
  lemma Recovers(c: Config, w: World, e: Event, e': Event)
    requires Usable(c) && Shaped(e) && Shaped(e')
    requires e.Exchange? && e'.Exchange? && e.fate.Whole? && e'.fate.Whole? && NoChance(c, w, e)
    ensures Synchronised(Happen(c, Happen(c, w, e), e'))
  {
    var w' := Happen(c, w, e);
    if Taken(c, w, e).message == [] {
      RejectedDisconnects(c, w, e);
      HandshakeSynchronises(c, w', e');
    } else {
      if w.client.connected {
        DataDelivered(c, w, e);
      } else {
        HandshakeSynchronises(c, w, e);
      }
      DataDelivered(c, w', e');
    }
  }
}
