/**
 * Commands in flight and what settling them does to the reservations they ride on, as values;
 * reservations and pending creates always correspond one to one.
 */
module Commands {
  import opened Prelude
  import opened Utf8
  import opened FleetTypes
  import opened Reservations

  datatype Op = Create(roomId: Text, roomType: Text) | Destroy(destroyId: Text) | Drain | Undrain

  /** A command awaiting its ack; creates carry a capacity token and a room-id reservation. */
  datatype Pending = Pending(op: Op, reservation: Option<Reservation>, roomId: Option<Text>)

  type InFlight = map<nat, Pending>

  /** How a command's promise settles. */
  datatype Outcome = Fulfilled | Busied | Failed | RoomExists | TimedOut | Disconnected

  datatype Commands = Commands(pending: map<InstanceId, InFlight>, cmdSeq: nat, settled: map<nat, Outcome>)

  /** The command engine together with the reservations it disposes of. */
  datatype Desk = Desk(holds: Holds, commands: Commands)

  const IDLE: Commands := Commands(map[], 0, map[])
  const MAX_INFLIGHT: nat := 32

  datatype SendResult = Busy | Unsent | Underway

  function FlightOf(c: Commands, i: InstanceId): InFlight {
    if i in c.pending then c.pending[i] else map[]
  }

  // ----- what becomes of a settled command's reservations -----

  function ReleaseBoth(h: Holds, p: Pending): Holds {
    var released := if p.reservation.Some? then Release(h, p.reservation.value) else h;
    if p.roomId.Some? then ReleaseId(released, p.roomId.value) else released
  }

  function HoldOrRelease(h: Holds, p: Pending): Holds {
    if p.reservation.Some? && p.roomId.Some? then HoldUntilVisible(h, p.roomId.value, p.reservation.value)
    else ReleaseBoth(h, p)
  }

  // ----- the operations -----

  function Without(d: Desk, i: InstanceId, cmdId: nat): Commands
    requires cmdId in FlightOf(d.commands, i)
  {
    d.commands.(pending := d.commands.pending[i := d.commands.pending[i] - {cmdId}])
  }

  function Settle(c: Commands, cmdId: nat, outcome: Outcome): Commands {
    c.(settled := c.settled[cmdId := outcome])
  }

  /** Nothing more than the bookkeeping of a command whose frame was handed to the link. */
  function Sent(d: Desk, i: InstanceId, cmdId: nat, p: Pending, sends: bool): (Desk, SendResult) {
    var flight := FlightOf(d.commands, i);
    if |flight| >= MAX_INFLIGHT then
      (Desk(ReleaseBoth(d.holds, p), Settle(d.commands.(pending := d.commands.pending[i := flight]), cmdId, Busied)),
        Busy)
    else if sends then
      (d.(commands := d.commands.(pending := d.commands.pending[i := flight[cmdId := p]])), Underway)
    else
      (Desk(ReleaseBoth(d.holds, p), Settle(d.commands.(pending := d.commands.pending[i := flight - {cmdId}]), cmdId,
        Disconnected)), Unsent)
  }

  function Acked(d: Desk, i: InstanceId, cmdId: nat, ok: bool, already: bool): (Desk, bool) {
    if cmdId !in FlightOf(d.commands, i) then (d, false)
    else
      var p := FlightOf(d.commands, i)[cmdId];
      var outcome := if ok then Fulfilled else if already then RoomExists else Failed;
      (Desk(if ok then HoldOrRelease(d.holds, p) else ReleaseBoth(d.holds, p),
        Settle(Without(d, i, cmdId), cmdId, outcome)), true)
  }

  function Expired(d: Desk, i: InstanceId, cmdId: nat): Desk {
    if cmdId !in FlightOf(d.commands, i) then d
    else Desk(HoldOrRelease(d.holds, FlightOf(d.commands, i)[cmdId]), Settle(Without(d, i, cmdId), cmdId, TimedOut))
  }

  lemma {:induction false} LeastExists(s: set<nat>, x: nat)
    requires x in s
    ensures exists k :: k in s && forall j :: j in s ==> k <= j
    decreases x
  {
    if y :| y in s && y < x {
      LeastExists(s, y);
    }
  }

  /** Ids are handed out in increasing order, so the smallest is the first inserted. */
  function Least(s: set<nat>): (k: nat)
    requires s != {}
    ensures k in s && forall j :: j in s ==> k <= j
  {
    LeastExists(s, var x :| x in s; x);
    var k :| k in s && forall j :: j in s ==> k <= j;
    k
  }

  function ReleaseAll(h: Holds, flight: InFlight): Holds
    decreases |flight|
  {
    if flight == map[] then h
    else
      var first := Least(flight.Keys);
      Smaller(flight, first);
      ReleaseAll(ReleaseBoth(h, flight[first]), flight - {first})
  }

  lemma Smaller(flight: InFlight, k: nat)
    requires k in flight
    ensures |flight - {k}| < |flight|
  {
    assert flight.Keys == (flight - {k}).Keys + {k};
    assert |flight.Keys| == |(flight - {k}).Keys| + 1;
  }

  function RejectedAll(d: Desk, i: InstanceId): Desk {
    Desk(ReleaseAll(d.holds, FlightOf(d.commands, i)),
         d.commands.(pending := d.commands.pending - {i},
                     settled := d.commands.settled + map k | k in FlightOf(d.commands, i) :: Disconnected))
  }

  // ----- reservations and pending creates correspond -----

  /** A pending create with what it rides on. */
  datatype Claim = Claim(instance: InstanceId, cmd: nat, token: nat, room: Text)

  ghost predicate IsClaim(c: Commands, x: Claim) {
    && x.cmd in FlightOf(c, x.instance)
    && var p := FlightOf(c, x.instance)[x.cmd];
      && p.reservation == Some(Reservation(x.token, x.instance))
      && p.roomId == Some(x.room)
  }

  /** Creates ride on both reservations and name the reserved id; other commands ride on none. */
  ghost predicate WellFormed(p: Pending, i: InstanceId) {
    if p.op.Create? then p.roomId == Some(p.op.roomId) && p.reservation.Some? && p.reservation.value.instanceId == i
    else p.reservation.None? && p.roomId.None?
  }

  ghost predicate AllWellFormed(c: Commands) {
    forall i, k :: k in FlightOf(c, i) ==> WellFormed(FlightOf(c, i)[k], i) && 1 <= k <= c.cmdSeq
  }

  ghost function Claims(c: Commands): iset<Claim> {
    iset x | IsClaim(c, x)
  }

  /** Each claim has its own token and its own id, and no token or id is left over. */
  ghost predicate Matched(tokens: map<nat, InstanceId>, reserved: set<Text>, claims: iset<Claim>) {
    && (forall x | x in claims :: x.token in tokens && tokens[x.token] == x.instance && x.room in reserved)
    && (forall x, y | x in claims && y in claims && x != y :: x.token != y.token && x.room != y.room)
    && (forall t | t in tokens :: exists x :: x in claims && x.token == t)
    && (forall r | r in reserved :: exists x :: x in claims && x.room == r)
  }

  /** No command id is in flight twice. */
  ghost predicate OneFlight(c: Commands) {
    forall i, j, k :: k in FlightOf(c, i) && k in FlightOf(c, j) ==> i == j
  }

  ghost predicate Conserved(d: Desk) {
    && Valid(d.holds)
    && AllWellFormed(d.commands)
    && OneFlight(d.commands)
    && Matched(d.holds.tokens, d.holds.reserved, Claims(d.commands))
  }

  /** A create as the control surface issues it: id and slot reserved, the next command id, the frame sent. */
  function CreateSent(d: Desk, i: InstanceId, id: Text, roomType: Text, sends: bool): (Desk, SendResult) {
    SentNext(d.(holds := HeldFor(d.holds, i, id)), i, CreatePending(d.holds, i, id, roomType), sends)
  }

  /** A command under the next id. */
  function SentNext(d: Desk, i: InstanceId, p: Pending, sends: bool): (Desk, SendResult) {
    Sent(Numbered(d), i, Numbered(d).commands.cmdSeq, p, sends)
  }

  function Numbered(d: Desk): Desk {
    d.(commands := d.commands.(cmdSeq := d.commands.cmdSeq + 1))
  }

  function HeldFor(h: Holds, i: InstanceId, id: Text): Holds {
    Reserve(ReserveId(h, id), i)
  }

  function CreatePending(h: Holds, i: InstanceId, id: Text, roomType: Text): Pending {
    Pending(Create(id, roomType), Some(Reservation(h.tokenSeq + 1, i)), Some(id))
  }

  function PlainSent(d: Desk, i: InstanceId, op: Op, sends: bool): (Desk, SendResult) {
    SentNext(d, i, Pending(op, None, None), sends)
  }

  lemma MatchedLess(tokens: map<nat, InstanceId>, reserved: set<Text>, claims: iset<Claim>, gone: Claim)
    requires Matched(tokens, reserved, claims) && gone in claims
    ensures Matched(tokens - {gone.token}, reserved - {gone.room}, claims - iset{gone})
  {
    var left := claims - iset{gone};
    forall t | t in tokens - {gone.token}
      ensures exists x :: x in left && x.token == t
    {
      var x :| x in claims && x.token == t;
      assert x in left;
    }
    forall r | r in reserved - {gone.room}
      ensures exists x :: x in left && x.room == r
    {
      var x :| x in claims && x.room == r;
      assert x in left;
    }
  }

  lemma MatchedMore(tokens: map<nat, InstanceId>, reserved: set<Text>, claims: iset<Claim>, more: Claim)
    requires Matched(tokens, reserved, claims) && more.token !in tokens && more.room !in reserved
    ensures Matched(tokens[more.token := more.instance], reserved + {more.room}, claims + iset{more})
  {
    var all, tokens' := claims + iset{more}, tokens[more.token := more.instance];
    assert more in all;
    forall t | t in tokens'
      ensures exists x :: x in all && x.token == t
    {
      if t != more.token {
        var x :| x in claims && x.token == t;
        assert x in all;
      }
    }
    forall r | r in reserved + {more.room}
      ensures exists x :: x in all && x.room == r
    {
      if r != more.room {
        var x :| x in claims && x.room == r;
        assert x in all;
      }
    }
  }

  // ----- one command more, one command less -----

  lemma FlightAfter(c: Commands, i: InstanceId, flight: InFlight, j: InstanceId)
    ensures FlightOf(c.(pending := c.pending[i := flight]), j) == if i == j then flight else FlightOf(c, j)
  {
  }

  /** Entries without a flight and entries with an empty one are alike. */
  lemma SameFlights(h: Holds, c: Commands, c': Commands)
    requires Conserved(Desk(h, c)) && c.cmdSeq <= c'.cmdSeq
    requires forall j :: FlightOf(c', j) == FlightOf(c, j)
    ensures Conserved(Desk(h, c'))
  {
    assert Claims(c') == Claims(c);
  }

  /** The claim of a pending create. */
  function ClaimOf(i: InstanceId, cmdId: nat, p: Pending): Claim
    requires p.op.Create? && WellFormed(p, i)
  {
    Claim(i, cmdId, p.reservation.value.id, p.op.roomId)
  }

  lemma ClaimsLess(c: Commands, i: InstanceId, k: nat)
    requires k in FlightOf(c, i) && WellFormed(FlightOf(c, i)[k], i)
    ensures var c' := c.(pending := c.pending[i := c.pending[i] - {k}]);
      var p := FlightOf(c, i)[k];
      Claims(c') == if p.op.Create? then Claims(c) - iset{ClaimOf(i, k, p)} else Claims(c)
  {
    var c', p := c.(pending := c.pending[i := c.pending[i] - {k}]), FlightOf(c, i)[k];
    forall x
      ensures IsClaim(c', x) <==> IsClaim(c, x) && !(x.instance == i && x.cmd == k)
    {
    }
  }

  lemma ClaimsMore(c: Commands, i: InstanceId, k: nat, p: Pending)
    requires k !in FlightOf(c, i) && WellFormed(p, i)
    ensures var c' := c.(pending := c.pending[i := FlightOf(c, i)[k := p]]);
      Claims(c') == if p.op.Create? then Claims(c) + iset{ClaimOf(i, k, p)} else Claims(c)
  {
    var c' := c.(pending := c.pending[i := FlightOf(c, i)[k := p]]);
    forall x
      ensures IsClaim(c', x) <==> IsClaim(c, x) || (p.op.Create? && x == ClaimOf(i, k, p))
    {
    }
  }

  lemma FlightsLess(c: Commands, i: InstanceId, k: nat)
    requires AllWellFormed(c) && OneFlight(c) && k in FlightOf(c, i)
    ensures var c' := c.(pending := c.pending[i := c.pending[i] - {k}]); AllWellFormed(c') && OneFlight(c')
  {
    var c' := c.(pending := c.pending[i := c.pending[i] - {k}]);
    forall j
      ensures FlightOf(c', j) == if i == j then FlightOf(c, i) - {k} else FlightOf(c, j)
    {
      FlightAfter(c, i, c.pending[i] - {k}, j);
    }
  }

  lemma FlightsMore(c: Commands, i: InstanceId, p: Pending)
    requires AllWellFormed(c) && OneFlight(c) && WellFormed(p, i)
    ensures var k := c.cmdSeq + 1;
      var c' := c.(pending := c.pending[i := FlightOf(c, i)[k := p]], cmdSeq := k);
      AllWellFormed(c') && OneFlight(c') && k !in FlightOf(c, i)
  {
    var k := c.cmdSeq + 1;
    var c' := c.(pending := c.pending[i := FlightOf(c, i)[k := p]], cmdSeq := k);
    forall j
      ensures FlightOf(c', j) == if i == j then FlightOf(c, i)[k := p] else FlightOf(c, j)
      ensures k !in FlightOf(c, j)
    {
    }
  }

  // ----- settling -----

  /** A settled create gives back its own token and its own id, and nothing else. */
  lemma ReleaseConserves(d: Desk, i: InstanceId, k: nat)
    requires Conserved(d) && k in FlightOf(d.commands, i)
    ensures Conserved(Desk(ReleaseBoth(d.holds, FlightOf(d.commands, i)[k]), Without(d, i, k)))
  {
    var c, p := d.commands, FlightOf(d.commands, i)[k];
    FlightsLess(c, i, k);
    ClaimsLess(c, i, k);
    if p.op.Create? {
      var x := ClaimOf(i, k, p);
      assert x in Claims(c);
      ReleaseValid(d.holds, p.reservation.value);
      MatchedLess(d.holds.tokens, d.holds.reserved, Claims(c), x);
    }
  }

  lemma HoldConserves(d: Desk, i: InstanceId, k: nat)
    requires Conserved(d) && k in FlightOf(d.commands, i)
    ensures Conserved(Desk(HoldOrRelease(d.holds, FlightOf(d.commands, i)[k]), Without(d, i, k)))
  {
    var c, p := d.commands, FlightOf(d.commands, i)[k];
    if p.op.Create? {
      FlightsLess(c, i, k);
      ClaimsLess(c, i, k);
      var x := ClaimOf(i, k, p);
      assert x in Claims(c);
      HoldValid(d.holds, p.op.roomId, p.reservation.value);
      MatchedLess(d.holds.tokens, d.holds.reserved, Claims(c), x);
    } else {
      ReleaseConserves(d, i, k);
    }
  }

  /** Outcomes are a record only. */
  lemma SettledAside(d: Desk, settled: map<nat, Outcome>)
    requires Conserved(d)
    ensures Conserved(d.(commands := d.commands.(settled := settled)))
  {
    SameFlights(d.holds, d.commands, d.commands.(settled := settled));
  }

  lemma AckConserves(d: Desk, i: InstanceId, cmdId: nat, ok: bool, already: bool)
    requires Conserved(d)
    ensures Conserved(Acked(d, i, cmdId, ok, already).0)
  {
    if cmdId in FlightOf(d.commands, i) {
      var p := FlightOf(d.commands, i)[cmdId];
      var settled := Acked(d, i, cmdId, ok, already).0.commands.settled;
      if ok {
        HoldConserves(d, i, cmdId);
        SettledAside(Desk(HoldOrRelease(d.holds, p), Without(d, i, cmdId)), settled);
      } else {
        ReleaseConserves(d, i, cmdId);
        SettledAside(Desk(ReleaseBoth(d.holds, p), Without(d, i, cmdId)), settled);
      }
    }
  }

  lemma ExpiryConserves(d: Desk, i: InstanceId, cmdId: nat)
    requires Conserved(d)
    ensures Conserved(Expired(d, i, cmdId))
  {
    if cmdId in FlightOf(d.commands, i) {
      HoldConserves(d, i, cmdId);
      SettledAside(Desk(HoldOrRelease(d.holds, FlightOf(d.commands, i)[cmdId]), Without(d, i, cmdId)),
                   Expired(d, i, cmdId).commands.settled);
    }
  }

  // ----- issuing -----

  lemma CreateConserves(d: Desk, i: InstanceId, id: Text, roomType: Text, sends: bool)
    requires Conserved(d) && id !in d.holds.reserved && id !in d.holds.pending
    ensures Conserved(CreateSent(d, i, id, roomType, sends).0)
    ensures CreateSent(d, i, id, roomType, sends).1 != Underway ==>
      CreateSent(d, i, id, roomType, sends).0.holds == d.holds.(tokenSeq := d.holds.tokenSeq + 1)
  {
    if |FlightOf(d.commands, i)| < MAX_INFLIGHT && sends {
      SentOn(d.(holds := HeldFor(d.holds, i, id)), i, CreatePending(d.holds, i, id, roomType), sends);
      CreateUnderway(d, i, id, roomType);
    } else {
      NextIdIsNew(d.commands, i);
      ReservedAndReleased(d.holds, i, id, roomType);
      TurnedBackIs(d, i, id, roomType, sends);
      TurnedBackConserves(d, i, BackOutcome(CreateSent(d, i, id, roomType, sends).1));
    }
  }

  lemma NextIdIsNew(c: Commands, i: InstanceId)
    requires AllWellFormed(c)
    ensures c.cmdSeq + 1 !in FlightOf(c, i)
  {
    var k := c.cmdSeq + 1;
    assert k in FlightOf(c, i) ==> k <= c.cmdSeq;
  }

  /** The commands after the latest one never left. */
  function TurnedBack(c: Commands, i: InstanceId, outcome: Outcome): Commands {
    Settle(c.(pending := c.pending[i := FlightOf(c, i)]), c.cmdSeq, outcome)
  }

  function BackOutcome(r: SendResult): Outcome {
    if r == Busy then Busied else Disconnected
  }

  lemma SentOn(d: Desk, i: InstanceId, p: Pending, sends: bool)
    ensures var k := d.commands.cmdSeq + 1;
      var (d', r) := SentNext(d, i, p, sends);
      && (r == Underway <==> |FlightOf(d.commands, i)| < MAX_INFLIGHT && sends)
      && (r == Underway ==>
            d' == Desk(d.holds, d.commands.(pending := d.commands.pending[i := FlightOf(d.commands, i)[k := p]],
              cmdSeq := k)))
  {
    assert FlightOf(d.commands.(cmdSeq := d.commands.cmdSeq + 1), i) == FlightOf(d.commands, i);
  }

  lemma SentBack(d: Desk, i: InstanceId, p: Pending, sends: bool)
    requires d.commands.cmdSeq + 1 !in FlightOf(d.commands, i)
    ensures var (d', r) := SentNext(d, i, p, sends);
      r != Underway ==>
        && d'.holds == ReleaseBoth(d.holds, p)
        && d'.commands == TurnedBack(Numbered(d).commands, i, BackOutcome(r))
  {
    SameFlight(d.commands, d.commands.cmdSeq + 1, i);
    var flight := FlightOf(Numbered(d).commands, i);
    assert flight - {Numbered(d).commands.cmdSeq} == flight;
  }

  lemma SameFlight(c: Commands, n: nat, i: InstanceId)
    ensures FlightOf(c.(cmdSeq := n), i) == FlightOf(c, i)
  {
  }

  /** A create that never left gives everything back. */
  lemma TurnedBackIs(d: Desk, i: InstanceId, id: Text, roomType: Text, sends: bool)
    requires ReleaseBoth(HeldFor(d.holds, i, id), CreatePending(d.holds, i, id, roomType))
      == d.holds.(tokenSeq := d.holds.tokenSeq + 1)
    requires d.commands.cmdSeq + 1 !in FlightOf(d.commands, i)
    ensures var (d', r) := CreateSent(d, i, id, roomType, sends);
      r != Underway ==>
        && d'.holds == d.holds.(tokenSeq := d.holds.tokenSeq + 1)
        && d'.commands == TurnedBack(Numbered(d).commands, i, BackOutcome(r))
  {
    hide HeldFor, ReleaseBoth, CreatePending, SentNext;
    var held, p := d.(holds := HeldFor(d.holds, i, id)), CreatePending(d.holds, i, id, roomType);
    SentBack(held, i, p, sends);
    assert CreateSent(d, i, id, roomType, sends) == SentNext(held, i, p, sends);
    assert Numbered(held).commands == Numbered(d).commands;
  }

  lemma TurnedBackConserves(d: Desk, i: InstanceId, outcome: Outcome)
    requires Conserved(d)
    ensures Conserved(Desk(d.holds.(tokenSeq := d.holds.tokenSeq + 1), TurnedBack(Numbered(d).commands, i, outcome)))
  {
    TokenSeqMoves(d);
    EmptyFlightStored(d.(holds := d.holds.(tokenSeq := d.holds.tokenSeq + 1)), i, outcome);
  }

  lemma TokenSeqMoves(d: Desk)
    requires Conserved(d)
    ensures Conserved(d.(holds := d.holds.(tokenSeq := d.holds.tokenSeq + 1)))
  {
  }

  lemma EmptyFlightStored(d: Desk, i: InstanceId, outcome: Outcome)
    requires Conserved(d)
    ensures Conserved(d.(commands := TurnedBack(Numbered(d).commands, i, outcome)))
  {
    var c' := TurnedBack(Numbered(d).commands, i, outcome);
    forall j
      ensures FlightOf(c', j) == FlightOf(d.commands, j)
    {
    }
    SameFlights(d.holds, d.commands, c');
  }

  lemma PlainConserves(d: Desk, i: InstanceId, op: Op, sends: bool)
    requires Conserved(d) && !op.Create?
    ensures Conserved(PlainSent(d, i, op, sends).0) && PlainSent(d, i, op, sends).0.holds == d.holds
  {
    NextIdIsNew(d.commands, i);
    if PlainSent(d, i, op, sends).1 == Underway {
      SentOn(d, i, Pending(op, None, None), sends);
      PlainUnderway(d, i, op);
    } else {
      SentBack(d, i, Pending(op, None, None), sends);
      EmptyFlightStored(d, i, BackOutcome(PlainSent(d, i, op, sends).1));
    }
  }

  lemma PlainUnderway(d: Desk, i: InstanceId, op: Op)
    requires Conserved(d) && !op.Create?
    ensures var k := d.commands.cmdSeq + 1;
      Conserved(Desk(d.holds, d.commands.(pending :=
        d.commands.pending[i := FlightOf(d.commands, i)[k := Pending(op, None, None)]], cmdSeq := k)))
  {
    var c, k, p := d.commands, d.commands.cmdSeq + 1, Pending(op, None, None);
    FlightsMore(c, i, p);
    ClaimsMore(c, i, k, p);
    SameClaims(c.(pending := c.pending[i := FlightOf(c, i)[k := p]]), k);
  }

  lemma ReservedAndReleased(h: Holds, i: InstanceId, id: Text, roomType: Text)
    requires Valid(h) && id !in h.reserved
    ensures ReleaseBoth(HeldFor(h, i, id), CreatePending(h, i, id, roomType)) == h.(tokenSeq := h.tokenSeq + 1)
  {
    var token := h.tokenSeq + 1;
    assert token !in h.tokens;
    assert h.tokens[token := i] - {token} == h.tokens;
    assert h.reserved + {id} - {id} == h.reserved;
    assert Lowered(h.tokenCount[i := Get(h.tokenCount, i) + 1], i) == h.tokenCount;
  }

  lemma HeldIs(h: Holds, i: InstanceId, id: Text)
    requires Valid(h) && id !in h.pending
    ensures var held := HeldFor(h, i, id);
      && Valid(held) && held.tokens == h.tokens[h.tokenSeq + 1 := i] && held.reserved == h.reserved + {id}
      && h.tokenSeq + 1 !in h.tokens
  {
    ReserveValid(ReserveId(h, id), i);
  }

  lemma PendingIs(h: Holds, i: InstanceId, id: Text, roomType: Text, k: nat)
    ensures var p := CreatePending(h, i, id, roomType);
      p.op.Create? && WellFormed(p, i) && ClaimOf(i, k, p) == Claim(i, k, h.tokenSeq + 1, id)
  {
  }

  lemma CreateUnderway(d: Desk, i: InstanceId, id: Text, roomType: Text)
    requires Conserved(d) && id !in d.holds.reserved && id !in d.holds.pending
    ensures var k := d.commands.cmdSeq + 1;
      Conserved(Desk(HeldFor(d.holds, i, id),
              d.commands.(pending := d.commands.pending[i :=
                FlightOf(d.commands, i)[k := CreatePending(d.holds, i, id, roomType)]], cmdSeq := k)))
  {
    hide CreatePending, WellFormed, HeldFor, Matched, Valid, AllWellFormed, OneFlight, Claims, ClaimOf;
    var h, c := d.holds, d.commands;
    var k, p := c.cmdSeq + 1, CreatePending(d.holds, i, id, roomType);
    PendingIs(h, i, id, roomType, k);
    FlightsMore(c, i, p);
    HeldIs(h, i, id);
    ClaimsMore(c, i, k, p);
    var c' := c.(pending := c.pending[i := FlightOf(c, i)[k := p]], cmdSeq := k);
    SameClaims(c.(pending := c.pending[i := FlightOf(c, i)[k := p]]), k);
    assert Claims(c') == Claims(c) + iset{ClaimOf(i, k, p)};
    MatchedMore(h.tokens, h.reserved, Claims(c), ClaimOf(i, k, p));
    assert Matched(HeldFor(h, i, id).tokens, HeldFor(h, i, id).reserved, Claims(c'));
  }

  lemma SameClaims(c: Commands, n: nat)
    ensures Claims(c.(cmdSeq := n)) == Claims(c)
  {
    forall x
      ensures IsClaim(c.(cmdSeq := n), x) <==> IsClaim(c, x)
    {
      assert FlightOf(c.(cmdSeq := n), x.instance) == FlightOf(c, x.instance);
    }
  }

  // ----- an instance goes -----

  /** What is left after rejecting every command of an instance, one by one. */
  lemma {:induction false} RejectConserves(d: Desk, i: InstanceId)
    requires Conserved(d) && i in d.commands.pending
    ensures Conserved(Desk(ReleaseAll(d.holds, FlightOf(d.commands, i)),
      d.commands.(pending := d.commands.pending - {i})))
    decreases |FlightOf(d.commands, i)|
  {
    var flight := FlightOf(d.commands, i);
    if flight == map[] {
      EmptyFlightDropped(d.holds, d.commands, i);
    } else {
      var k := Least(flight.Keys);
      Smaller(flight, k);
      ReleaseConserves(d, i, k);
      var d' := Desk(ReleaseBoth(d.holds, flight[k]), Without(d, i, k));
      RejectConserves(d', i);
      assert d'.commands.pending - {i} == d.commands.pending - {i};
    }
  }

  lemma EmptyFlightDropped(h: Holds, c: Commands, i: InstanceId)
    requires Conserved(Desk(h, c)) && FlightOf(c, i) == map[]
    ensures Conserved(Desk(h, c.(pending := c.pending - {i})))
  {
    var c' := c.(pending := c.pending - {i});
    forall j
      ensures FlightOf(c', j) == FlightOf(c, j)
    {
    }
    SameFlights(h, c, c');
  }

  lemma {:induction false} ReleaseAllKeepsPending(h: Holds, flight: InFlight)
    ensures ReleaseAll(h, flight).pending == h.pending && ReleaseAll(h, flight).pendingCount == h.pendingCount
    decreases |flight|
  {
    if flight != map[] {
      var k := Least(flight.Keys);
      Smaller(flight, k);
      ReleaseAllKeepsPending(ReleaseBoth(h, flight[k]), flight - {k});
    }
  }

  /** Rejecting the commands of an instance and clearing its holds. */
  function TornDown(d: Desk, i: InstanceId): Desk {
    var r := RejectedAll(d, i);
    r.(holds := ClearPending(r.holds, i))
  }

  lemma RejectedConserves(d: Desk, i: InstanceId)
    requires Conserved(d)
    ensures Conserved(RejectedAll(d, i)) && i !in RejectedAll(d, i).commands.pending
  {
    var left := Desk(ReleaseAll(d.holds, FlightOf(d.commands, i)), d.commands.(pending := d.commands.pending - {i}));
    if i in d.commands.pending {
      RejectConserves(d, i);
    } else {
      assert d.commands.pending - {i} == d.commands.pending;
      assert left == d;
    }
    SettledAside(left, RejectedAll(d, i).commands.settled);
  }

  lemma TeardownConserves(d: Desk, i: InstanceId)
    requires Conserved(d)
    ensures Conserved(TornDown(d, i)) && i !in TornDown(d, i).commands.pending
    ensures Owned(TornDown(d, i).holds.pending, i) == {} && Get(TornDown(d, i).holds.pendingCount, i) == 0
  {
    RejectedConserves(d, i);
    ClearConserves(RejectedAll(d, i), i);
  }

  /** An instance without commands in flight has no token. */
  lemma NoFlightNoToken(d: Desk, i: InstanceId)
    requires Conserved(d) && FlightOf(d.commands, i) == map[]
    ensures Owned(d.holds.tokens, i) == {} && Get(d.holds.tokenCount, i) == 0
  {
    forall t | t in d.holds.tokens
      ensures d.holds.tokens[t] != i
    {
      var x :| x in Claims(d.commands) && x.token == t;
      assert x.cmd in FlightOf(d.commands, x.instance);
    }
    assert Owned(d.holds.tokens, i) == {};
    assert Get(d.holds.tokenCount, i) == |Owned(d.holds.tokens, i)|;
  }

  /** Teardown leaves no token, no hold and no command of the instance, and no other command is touched. */
  lemma TeardownLeavesNothing(d: Desk, i: InstanceId)
    requires Conserved(d)
    ensures var d' := TornDown(d, i);
      && Conserved(d') && i !in d'.commands.pending
      && Owned(d'.holds.tokens, i) == {} && Owned(d'.holds.pending, i) == {} && Occupied(d'.holds, i) == 0
      && forall j | j != i :: FlightOf(d'.commands, j) == FlightOf(d.commands, j)
  {
    TeardownConserves(d, i);
    NoFlightNoToken(TornDown(d, i), i);
  }

  lemma ClearConserves(d: Desk, i: InstanceId)
    requires Conserved(d)
    ensures Conserved(d.(holds := ClearPending(d.holds, i)))
    ensures Owned(ClearPending(d.holds, i).pending, i) == {} && Get(ClearPending(d.holds, i).pendingCount, i) == 0
  {
    ClearValid(d.holds, i);
  }
}
