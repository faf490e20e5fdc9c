/**
 * The packets of the prepared-statement commands against the session: which command of module Session
 * a packet is, and what the statement's parameters in module LongDataRuns then are.
 */
module PreparedPackets {
  import opened Wrappers
  import opened Bytes
  import opened LengthEncoding
  import opened Session
  import A = Arguments
  import E = Execute
  import L = LongDataRuns

  datatype Packet =
    | QueryPacket(query: string)
    | PreparePacket(query: string)
    | ExecutePacket(payload: bytes)
    | LongDataPacket(payload: bytes)
    | ResetPacket(payload: bytes)
    | ClosePacket(payload: bytes)
    | PingPacket
    | InitDbPacket(name: string)
    | QuitPacket
    | UnknownPacket

  function IdOf(payload: bytes): uint32
    requires |payload| >= 5
  {
    Widths();
    LEOfFromLE(payload[1..5]);
    FromLE(payload[1..5])
  }

  function ChunkOf(payload: bytes): L.Chunk
    requires |payload| >= 7
  {
    Widths();
    LEOfFromLE(payload[5..7]);
    L.Chunk(FromLE(payload[5..7]), payload[7..])
  }

  /** The handle whose parameters a packet is for, if the packet is long enough to name one. */
  function Target(p: Packet): Option<uint32> {
    match p
    case ExecutePacket(payload) => if |payload| < 10 then None else Some(IdOf(payload))
    case LongDataPacket(payload) => if |payload| < 7 then None else Some(IdOf(payload))
    case ResetPacket(payload) => if |payload| < 5 then None else Some(IdOf(payload))
    case _ => None
  }

  function EventOf(p: Packet): L.Event
    requires Target(p).Some?
  {
    match p
    case ExecutePacket(payload) => L.Run(payload)
    case LongDataPacket(payload) => L.SendChunk(ChunkOf(payload))
    case ResetPacket(_) => L.Reset
  }

  // ---------------------------------------------------------------- what the client meant

  /** The handle a client names: four bytes behind the command byte, least significant first. */
  function Named(payload: bytes): nat
    requires |payload| >= 5
  {
    payload[1] as nat + 0x100 * (payload[2] as nat) + 0x1_0000 * (payload[3] as nat) + 0x100_0000 * (payload[4] as nat)
  }

  /** What a client says to one handle with a packet. */
  datatype Saying = Saying(handle: nat, event: L.Event)

  function Said(p: Packet): Option<Saying> {
    match p
    case ExecutePacket(payload) => if |payload| < 10 then None else Some(Saying(Named(payload), L.Run(payload)))
    case LongDataPacket(payload) =>
      if |payload| < 7 then None
      else Some(Saying(Named(payload), L.SendChunk(L.Chunk(payload[5] + 0x100 * (payload[6] as nat), payload[7..]))))
    case ResetPacket(payload) => if |payload| < 5 then None else Some(Saying(Named(payload), L.Reset))
    case _ => None
  }

  lemma TwoBytes(s: bytes)
    requires |s| == 2
    ensures FromLE(s) == s[0] as nat + 0x100 * (s[1] as nat)
  {
    assert s[1..] == [s[1]] && FromLE([s[1]]) == s[1];
  }

  lemma FourBytes(s: bytes)
    requires |s| == 4
    ensures FromLE(s) == s[0] as nat + 0x100 * (s[1] as nat) + 0x1_0000 * (s[2] as nat) + 0x100_0000 * (s[3] as nat)
  {
    assert s[1..][1..] == s[2..];
    TwoBytes(s[2..]);
    assert FromLE(s[1..]) == s[1] as nat + 0x100 * FromLE(s[2..]);
  }

  /** The gateway takes every packet for the handle and the event the client meant. */
  lemma Understood(p: Packet)
    ensures Target(p).Some? <==> Said(p).Some?
    ensures Said(p).Some? ==> Target(p).value == Said(p).value.handle && EventOf(p) == Said(p).value.event
  {
    hide FromLE;
    match p
    case ExecutePacket(payload) => if |payload| >= 10 { FourBytes(payload[1..5]); }
    case LongDataPacket(payload) => if |payload| >= 7 { FourBytes(payload[1..5]); TwoBytes(payload[5..7]); }
    case ResetPacket(payload) => if |payload| >= 5 { FourBytes(payload[1..5]); }
    case _ =>
  }

  type Table = map<uint32, L.Parameters>

  /** The session's command for a packet. Handle ids are never zero. */
  function CommandFor(table: Table, p: Packet): Command {
    var id := Target(p);
    match p
    case QueryPacket(query) => Query(Classify.ClassifySQL(query))
    case PreparePacket(query) => Prepare(Classify.ClassifySQL(query))
    case ExecutePacket(payload) =>
      if id.None? then OtherCommand
      else
        var outcome := if id.value in table then L.Execution(table[id.value], payload).1 else L.Refused;
        Execute(id.value, if outcome.Ran? then Some(outcome.arguments) else None)
    case LongDataPacket(payload) =>
      SendLongData(id.Some? && id.value in table && ChunkOf(payload).parameter < |table[id.value].types|)
    case ResetPacket(_) => if id.None? then OtherCommand else ResetStmt(id.value)
    case ClosePacket(payload) => CloseStmt(if |payload| < 5 then 0 else IdOf(payload))
    case PingPacket => Ping
    case InitDbPacket(name) => InitDb(name)
    case QuitPacket => Quit
    case UnknownPacket => OtherCommand
  }

  /** `countPreparedParameters` of the SQL a prepare stores. */
  function Count(p: Packet): nat {
    if p.PreparePacket? then var sql := Classify.ClassifySQL(p.query).sql; |Classify.Placeholders(sql, |sql|)| else 0
  }

  /** The parameters of the handles live after a packet: the addressed one moved, a new one fresh. */
  function TableAfter(table: Table, p: Packet, s: Session): Table {
    var moved := if Target(p).Some? && Target(p).value in table
                 then table[Target(p).value := L.After(table[Target(p).value], EventOf(p))] else table;
    map id | id in s.prepared :: if id in moved then moved[id] else L.Prepared(Count(p))
  }

  /** What the client sent for one handle since it was prepared. */
  datatype History = History(count: nat, events: seq<L.Event>)

  function HistoriesAfter(sent: map<uint32, History>, p: Packet, s: Session): map<uint32, History> {
    var said := Said(p);
    var moved := if said.Some? && said.value.handle in sent
                 then var h := sent[said.value.handle]; sent[said.value.handle := h.(events := h.events + [said.value.event])] else sent;
    map id | id in s.prepared :: if id in moved then moved[id] else History(Count(p), [])
  }

  /** A session with its statements' parameters, what was sent for each, and the commands it came to. */
  datatype Joint = Joint(w: World, open: bool, table: Table, sent: map<uint32, History>, turns: seq<Turn>)

  function Serve(j: Joint, p: Packet, e: Env): Joint {
    if !j.open then j else
    var t := Turn(CommandFor(j.table, p), e);
    var o := Dispatch(j.w, t.command, e);
    var w := if o.alive then o.w else Close(o.w, e);
    Joint(w, o.alive, TableAfter(j.table, p, w.s), HistoriesAfter(j.sent, p, w.s), j.turns + [t])
  }

  function ServeAll(w: World, packets: seq<(Packet, Env)>): Joint {
    if packets == [] then Joint(w, true, map[], map[], [])
    else
      var last := packets[|packets| - 1];
      Serve(ServeAll(w, packets[..|packets| - 1]), last.0, last.1)
  }

  /** Each live handle's parameters are what its own packets made of them. */
  ghost predicate Joined(table: Table, sent: map<uint32, History>, s: Session) {
    && table.Keys == sent.Keys == s.prepared.Keys
    && forall id | id in table :: table[id] == L.AfterAll(L.Prepared(sent[id].count), sent[id].events)
  }

  lemma EventAppends(count: nat, events: seq<L.Event>, e: L.Event)
    ensures L.AfterAll(L.Prepared(count), events + [e]) == L.After(L.AfterAll(L.Prepared(count), events), e)
  {
    hide L.After;
    assert (events + [e])[..|events|] == events;
  }

  lemma ServeJoins(table: Table, sent: map<uint32, History>, p: Packet, before: Session, s: Session)
    requires Joined(table, sent, before)
    ensures Joined(TableAfter(table, p, s), HistoriesAfter(sent, p, s), s)
  {
    hide L.After, L.AfterAll, L.Prepared, EventOf, Target, Said;
    Understood(p);
    var after, histories := TableAfter(table, p, s), HistoriesAfter(sent, p, s);
    forall id | id in after
      ensures after[id] == L.AfterAll(L.Prepared(histories[id].count), histories[id].events)
    {
      if id !in table {
        NothingSent(Count(p));
      } else if Target(p) == Some(id) {
        EventAppends(sent[id].count, sent[id].events, EventOf(p));
      }
    }
  }

  lemma NothingSent(count: nat)
    ensures L.AfterAll(L.Prepared(count), []) == L.Prepared(count)
  {
  }

  /**
   * Over every run of packets the session takes exactly the run of the commands they stand for, so every
   * run theorem holds of it, and each live handle's parameters are those its own packets lead to.
   */
  lemma {:induction false} PacketsJoin(w: World, packets: seq<(Packet, Env)>)
    requires w.s.prepared == map[]
    ensures var j := ServeAll(w, packets);
            (j.w, j.open) == RunTurns(w, j.turns) && Joined(j.table, j.sent, j.w.s)
  {
    hide Dispatch, Close, L.After, L.AfterAll, TableAfter, HistoriesAfter, CommandFor, Joined;
    if packets == [] {
      EmptyJoined(w.s);
    } else {
      var n := |packets| - 1;
      PacketsJoin(w, packets[..n]);
      var j, k := ServeAll(w, packets[..n]), ServeAll(w, packets);
      if j.open {
        var t := Turn(CommandFor(j.table, packets[n].0), packets[n].1);
        assert k.turns == j.turns + [t] && k.turns[..|j.turns|] == j.turns;
        ServeJoins(j.table, j.sent, packets[n].0, j.w.s, k.w.s);
      }
    }
  }

  lemma EmptyJoined(s: Session)
    requires s.prepared == map[]
    ensures Joined(map[], map[], s)
  {
  }

  // ---------------------------------------------------------------- what the client is told and what runs

  /**
   * An execute packet on any state of any run reaches upstream exactly when it is long enough, names a
   * live handle, and that handle's own packets and this one decode; otherwise it is refused and
   * nothing but the parameters changes.
   */
  lemma ExecuteRefusedIff(w: World, packets: seq<(Packet, Env)>, payload: bytes, e: Env)
    requires w.s.prepared == map[] && e.write
    ensures var j := ServeAll(w, packets);
            var o := Dispatch(j.w, CommandFor(j.table, ExecutePacket(payload)), e);
            && (o.reply.Refused? <==>
                  || |payload| < 10
                  || Named(payload) !in j.sent
                  || L.Execution(L.AfterAll(L.Prepared(j.sent[Named(payload)].count), j.sent[Named(payload)].events), payload).1.Refused?)
            && (o.reply.Refused? ==> o.w == j.w && o.alive)
  {
    hide ServeAll, L.Execution, L.AfterAll, EnsureImplicit, StatementForExecution, ExecutionOf, RunTurns, IdOf, Named;
    PacketsJoin(w, packets);
    Understood(ExecutePacket(payload));
  }

  /**
   * A well-formed execute packet runs its statement with exactly the meanings of its arguments, streamed
   * ones being the join of the chunks sent for this handle since its long data was last cleared,
   * if and only if those chunks kept to the limit and the types needed are known.
   */
  lemma ExecuteRuns(w: World, packets: seq<(Packet, Env)>, header: bytes, arguments: seq<A.Argument>, types: seq<E.ParameterType>, announce: bool)
    requires w.s.prepared == map[] && |header| == 10 && header[5] == 0
    requires var j := ServeAll(w, packets);
             && Named(header) in j.sent
             && var h := j.sent[Named(header)];
             var long := L.Gathered(L.Since(h.count, h.events));
             && |types| == h.count && A.Suit(arguments, types, long)
             && (announce || L.Remembered(h.count, h.events) == types)
             && |A.Packet(header, arguments, types, long, announce)| <= MaxLength
    ensures var j := ServeAll(w, packets);
            var h := j.sent[Named(header)];
            var chunks := L.Since(h.count, h.events);
            var long := L.Gathered(chunks);
            var payload := A.Packet(header, arguments, types, long, announce);
            var runs := L.Total(chunks) <= 0x100_0000 && (announce || A.Announced(types));
            && CommandFor(j.table, ExecutePacket(payload)) == Execute(Named(header), if runs then Some(A.Meanings(arguments, types, long, 0)) else None)
  {
    hide ServeAll, L.Execution, L.AfterAll, RunTurns, L.Since, L.Gathered, L.Total, L.Remembered, A.Suit, A.Packet, A.Announced, A.Meanings, IdOf, Named;
    PacketsJoin(w, packets);
    var j := ServeAll(w, packets);
    var h := j.sent[Named(header)];
    var long := L.Gathered(L.Since(h.count, h.events));
    L.ExecutionAfterEveryRun(h.count, h.events, header, arguments, types, announce);
    IdStands(header, arguments, types, long, announce);
    Understood(ExecutePacket(A.Packet(header, arguments, types, long, announce)));
  }

  lemma IdStands(header: bytes, arguments: seq<A.Argument>, types: seq<E.ParameterType>, long: A.LongData, announce: bool)
    requires |header| == 10 && A.Suit(arguments, types, long)
    ensures var payload := A.Packet(header, arguments, types, long, announce); |payload| >= 10 && Named(payload) == Named(header)
  {
    hide A.Suit, A.ValuesWire, A.Bitmap, A.TypesWire;
    var payload := A.Packet(header, arguments, types, long, announce);
    assert forall k | 1 <= k < 5 :: payload[k] == header[k];
  }

  /** A long-data packet is answered only when it is refused: too short, no live handle, or no such parameter. */
  lemma LongDataAnswered(w: World, packets: seq<(Packet, Env)>, payload: bytes, e: Env)
    requires w.s.prepared == map[] && e.write
    ensures var j := ServeAll(w, packets);
            var o := Dispatch(j.w, CommandFor(j.table, LongDataPacket(payload)), e);
            && o.w == j.w && o.alive
            && o.reply == if |payload| < 7 || Named(payload) !in j.sent || payload[5] as nat + 0x100 * (payload[6] as nat) >= j.sent[Named(payload)].count
                          then Refused else Silent
  {
    hide ServeAll, L.AfterAll, RunTurns, L.Since, IdOf, Named;
    PacketsJoin(w, packets);
    Understood(LongDataPacket(payload));
    var j := ServeAll(w, packets);
    if |payload| >= 7 && Named(payload) in j.sent {
      var h := j.sent[Named(payload)];
      L.InvOverEveryRun(h.count, h.events);
      L.InvLength(j.table[Named(payload)], h.count, L.Since(h.count, h.events));
    }
  }
}
