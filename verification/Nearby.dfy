/**
 One rider's socket and its "cars near you" subscription: subscribe, unsubscribe and the recheck timer race with
 database lookups, guarded by a generation counter and a sliding-window limiter.
 */
module Nearby {
  import opened Options
  import opened NearbyCells
  import Spans

  const ASK_WINDOW_MS: int := 60000
  const ASKS_MAX: nat := 12

  type Ride = nat

  /** The pickup of a ride that is the rider's own and still searching. */
  datatype Pickup = Pickup(lat: real, lng: real)

  /** A lookup in flight: the generation it was issued in and the ride it asks about. */
  datatype Lookup = Subscribing(gen: nat, ride: Ride) | Rechecking(gen: nat, ride: Ride)

  /** The handler's variables and the rooms the socket is in; `accepted` (the times of all accepted asks) and
      `committed` (the pickup the rooms came from) are history. */
  datatype State = State(
    connected: bool, joined: set<string>,
    rooms: seq<string>, ride: Option<Ride>, timer: bool, gen: nat, asks: seq<int>,
    pending: map<nat, Lookup>, lookups: nat,
    accepted: seq<int>, committed: Option<Pickup>)

  /** `Subscribe` carries `None` when the payload has no valid ride id. A reply without a pickup says that the ride is
      not the rider's or is no longer searching. */
  datatype Event =
    | Subscribe(ride: Option<Ride>, now: int)
    | Unsubscribe
    | Tick
    | Reply(lookup: nat, row: Option<Pickup>)
    | LookupFails(lookup: nat)
    | Disconnect

  function RoomSet(rooms: seq<string>): set<string> { set r | r in rooms }

  function BlockOf(p: Pickup): seq<string> { RoomsAround(p.lat, p.lng, CELL_RING) }

  /** Asks that have left the window are dropped from the front. */
  function Trim(asks: seq<int>, now: int): seq<int> {
    if asks != [] && now - asks[0] > ASK_WINDOW_MS then Trim(asks[1..], now) else asks
  }

  function Leave(s: State): State {
    s.(gen := s.gen + 1, timer := false, ride := None, joined := s.joined - RoomSet(s.rooms), rooms := [],
       committed := None)
  }

  function Issue(s: State, l: Lookup): State {
    s.(pending := s.pending[s.lookups := l], lookups := s.lookups + 1)
  }

  /** A current subscription's pickup: leave the rooms that are not in the new block and join the block. */
  function Commit(s: State, ride: Ride, p: Pickup): State {
    var next := BlockOf(p);
    s.(joined := s.joined - (RoomSet(s.rooms) - RoomSet(next)) + RoomSet(next),
       rooms := next, ride := Some(ride), timer := true, committed := Some(p))
  }

  function Ask(s: State, ride: Ride, now: int): State {
    var trimmed := Trim(s.asks, now);
    if |trimmed| >= ASKS_MAX then s.(asks := trimmed)
    else
      Issue(s.(asks := trimmed + [now], gen := s.gen + 1, accepted := s.accepted + [now]),
            Subscribing(s.gen + 1, ride))
  }

  function Answer(s: State, l: Lookup, row: Option<Pickup>): State {
    if l.gen != s.gen then s
    else match (l, row)
      case (_, None) => Leave(s)
      case (Subscribing(_, ride), Some(p)) => Commit(s, ride, p)
      case (Rechecking(_, _), Some(_)) => s
  }

  function Step(s: State, e: Event): State {
    match e
    case Subscribe(ride, now) => if !s.connected || ride.None? then s else Ask(s, ride.value, now)
    case Unsubscribe => if s.connected then Leave(s) else s
    case Tick => if s.timer && s.ride.Some? then Issue(s, Rechecking(s.gen, s.ride.value)) else s
    case Reply(id, row) =>
      if id !in s.pending then s else Answer(s.(pending := s.pending - {id}), s.pending[id], row)
    case LookupFails(id) => s.(pending := s.pending - {id})
    case Disconnect => s.(connected := false, timer := false, joined := {})
  }

  function Run(s: State, events: seq<Event>): State
    decreases |events|
  {
    if events == [] then s else Run(Step(s, events[0]), events[1..])
  }

  const CONNECTED := State(true, {}, [], None, false, 0, [], map[], 0, [], None)

  // ----- The handlers, as they update their variables -----

  class NearbySocket {
    var joined: set<string>
    var nearbyRooms: seq<string>
    var nearbyRideId: Option<Ride>
    var timer: bool
    var nearbyGen: nat
    var nearbyAsks: seq<int>
    ghost var log: State

    ghost predicate Valid()
      reads this
    {
      && log.connected && joined == log.joined && nearbyRooms == log.rooms && nearbyRideId == log.ride
      && timer == log.timer && nearbyGen == log.gen && nearbyAsks == log.asks
    }

    constructor ()
      ensures Valid() && log == CONNECTED
    {
      joined, nearbyRooms, nearbyRideId, timer, nearbyGen, nearbyAsks := {}, [], None, false, 0, [];
      log := CONNECTED;
    }

    /** Leaves every current room that is not in `keep`. */
    method LeaveAllBut(keep: seq<string>)
      modifies this`joined
      ensures joined == old(joined) - (RoomSet(nearbyRooms) - RoomSet(keep))
    {
      for k := 0 to |nearbyRooms|
        invariant joined == old(joined) - (RoomSet(nearbyRooms[..k]) - RoomSet(keep))
      {
        if nearbyRooms[k] !in keep { joined := joined - {nearbyRooms[k]}; }
        assert nearbyRooms[..k + 1] == nearbyRooms[..k] + [nearbyRooms[k]];
      }
      assert nearbyRooms[..|nearbyRooms|] == nearbyRooms;
    }

    method JoinAll(next: seq<string>)
      modifies this`joined
      ensures joined == old(joined) + RoomSet(next)
    {
      for k := 0 to |next|
        invariant joined == old(joined) + RoomSet(next[..k])
      {
        joined := joined + {next[k]};
        assert next[..k + 1] == next[..k] + [next[k]];
      }
      assert next[..|next|] == next;
    }

    method LeaveNearby()
      requires Valid()
      modifies this
      ensures Valid() && log == Leave(old(log)) && joined == old(joined) - RoomSet(old(nearbyRooms))
    {
      nearbyGen := nearbyGen + 1;
      timer := false;
      nearbyRideId := None;
      LeaveAllBut([]);
      assert RoomSet(nearbyRooms) - RoomSet([]) == RoomSet(nearbyRooms);
      nearbyRooms := [];
      log := Leave(log);
    }

    /** The part of the subscribe handler before its lookup; `issued` tells whether there is one. */
    method OnSubscribe(ride: Option<Ride>, now: int) returns (issued: bool, gen: nat)
      requires Valid()
      modifies this
      ensures Valid() && log == Step(old(log), Subscribe(ride, now))
      ensures issued ==> gen == nearbyGen == old(nearbyGen) + 1 && log.lookups == old(log.lookups) + 1
      ensures !issued ==> nearbyGen == old(nearbyGen) && log.pending == old(log.pending)
    {
      issued, gen := false, 0;
      if ride.None? { return; }
      ghost var before := nearbyAsks;
      while |nearbyAsks| > 0 && now - nearbyAsks[0] > ASK_WINDOW_MS
        invariant Trim(nearbyAsks, now) == Trim(before, now)
        invariant joined == old(joined) && nearbyRooms == old(nearbyRooms) && nearbyRideId == old(nearbyRideId)
        invariant timer == old(timer) && nearbyGen == old(nearbyGen) && log == old(log)
        decreases |nearbyAsks|
      {
        nearbyAsks := nearbyAsks[1..];
      }
      log := Step(log, Subscribe(ride, now));
      if |nearbyAsks| >= ASKS_MAX { return; }
      nearbyAsks := nearbyAsks + [now];
      nearbyGen := nearbyGen + 1;
      issued, gen := true, nearbyGen;
    }

    /** The part of the subscribe handler after its lookup, which was issued for `ride` in generation `gen`. */
    method AfterLookup(lookup: nat, gen: nat, ride: Ride, row: Option<Pickup>)
      requires Valid() && lookup in log.pending && log.pending[lookup] == Subscribing(gen, ride)
      modifies this
      ensures Valid() && log == Step(old(log), Reply(lookup, row))
    {
      log := log.(pending := log.pending - {lookup});
      if gen != nearbyGen { return; }
      if row.None? { LeaveNearby(); return; }
      var next := CollectRoomsAround(row.value.lat, row.value.lng, CELL_RING);
      LeaveAllBut(next);
      JoinAll(next);
      nearbyRooms := next;
      nearbyRideId := Some(ride);
      timer := true;
      log := Commit(log, ride, row.value);
    }

    /** The timer fires: the ride and the generation of this instant go with the recheck's lookup. */
    method OnTick() returns (asked: Option<Ride>, gen: nat)
      requires Valid() && timer
      modifies this`log
      ensures Valid() && log == Step(old(log), Tick)
      ensures asked == nearbyRideId && gen == nearbyGen
      ensures asked.Some? ==> log.pending == old(log.pending)[old(log.lookups) := Rechecking(gen, asked.value)]
      ensures asked.None? ==> log == old(log)
    {
      asked, gen := nearbyRideId, nearbyGen;
      log := Step(log, Tick);
    }

    /** The reply to a recheck that asked about `ride`: only its generation is compared before leaving. */
    method AfterRecheck(lookup: nat, gen: nat, ride: Ride, row: Option<Pickup>)
      requires Valid() && lookup in log.pending && log.pending[lookup] == Rechecking(gen, ride)
      modifies this
      ensures Valid() && log == Step(old(log), Reply(lookup, row))
      ensures if gen == old(nearbyGen) && row.None? then nearbyRooms == [] && !timer && nearbyGen == gen + 1
              else joined == old(joined) && nearbyRooms == old(nearbyRooms) && nearbyRideId == old(nearbyRideId)
                   && timer == old(timer) && nearbyGen == old(nearbyGen) && nearbyAsks == old(nearbyAsks)
    {
      log := log.(pending := log.pending - {lookup});
      if gen == nearbyGen && row.None? { LeaveNearby(); }
    }
  }

  // ----- The rooms of every reachable state -----

  ghost predicate Inv(s: State) {
    && (s.joined == RoomSet(s.rooms) || (!s.connected && s.joined == {}))
    && (s.committed.None? ==> s.rooms == [] && s.ride.None?)
    && (s.committed.Some? ==> s.rooms == BlockOf(s.committed.value) && s.ride.Some?)
    && (s.timer ==> s.ride.Some?)
    && (s.connected && s.rooms != [] ==> s.timer)
    && (forall id :: id in s.pending ==> id < s.lookups && s.pending[id].gen <= s.gen)
  }

  lemma StepKeepsInv(s: State, e: Event)
    requires Inv(s)
    ensures Inv(Step(s, e)) && s.gen <= Step(s, e).gen
  {
    match e
    case Reply(id, row) =>
      if id in s.pending { AnswerKeepsInv(s.(pending := s.pending - {id}), s.pending[id], row); }
    case _ =>
  }

  lemma AnswerKeepsInv(s: State, l: Lookup, row: Option<Pickup>)
    requires Inv(s)
    ensures Inv(Answer(s, l, row)) && s.gen <= Answer(s, l, row).gen
  {
    if l.Subscribing? && row.Some? && l.gen == s.gen {
      var s' := Commit(s, l.ride, row.value);
      assert s'.joined == RoomSet(s'.rooms);
    }
  }

  lemma {:induction false} RunKeepsInv(s: State, events: seq<Event>)
    requires Inv(s)
    ensures Inv(Run(s, events)) && s.gen <= Run(s, events).gen
    decreases |events|
  {
    if events != [] {
      StepKeepsInv(s, events[0]);
      RunKeepsInv(Step(s, events[0]), events[1..]);
    }
  }

  /** In every reachable state the socket is in no nearby room, or in the whole block around the pickup its last
      committed lookup returned, and so hears every car within two cells of that pickup. While it is connected it is in
      that block whenever there is one. */
  lemma RoomsAreTheLastBlock(events: seq<Event>)
    ensures var s := Run(CONNECTED, events);
      && (s.committed.None? ==> s.joined == {})
      && (s.connected && s.committed.Some? ==> s.joined != {})
      && (s.joined != {} ==> s.committed.Some? && Hears(s, s.committed.value))
  {
    RunKeepsInv(CONNECTED, events);
    var s := Run(CONNECTED, events);
    if s.committed.Some? {
      var p := s.committed.value;
      NearCarsAreHeard(p.lat, p.lng, p.lat, p.lng);
      assert RoomOfPoint(p.lat, p.lng) in RoomSet(s.rooms);
      if s.joined != {} { BlockIsHeard(s, p); }
    }
  }

  /** In exactly the block around `p`, with the room of every car within two cells of it. */
  ghost predicate Hears(s: State, p: Pickup) {
    && s.joined == RoomSet(RoomsAround(p.lat, p.lng, CELL_RING))
    && forall lat, lng :: -0.04 <= lat - p.lat <= 0.04 && -0.04 <= lng - p.lng <= 0.04 ==>
         RoomOfPoint(lat, lng) in s.joined
  }

  lemma BlockIsHeard(s: State, p: Pickup)
    requires s.joined == RoomSet(BlockOf(p))
    ensures Hears(s, p)
  {
    forall lat, lng | -0.04 <= lat - p.lat <= 0.04 && -0.04 <= lng - p.lng <= 0.04
      ensures RoomOfPoint(lat, lng) in s.joined
    {
      NearCarsAreHeard(p.lat, p.lng, lat, lng);
    }
  }

  // ----- Stale lookups -----

  lemma StepKeepsPending(s: State, e: Event, id: nat)
    requires id < s.lookups
    ensures var s' := Step(s, e);
      id < s'.lookups && (id in s'.pending ==> id in s.pending && s'.pending[id] == s.pending[id])
  {
  }

  lemma {:induction false} PendingKeepsGen(s: State, events: seq<Event>, id: nat)
    requires Inv(s) && id < s.lookups
    ensures var s' := Run(s, events); id in s'.pending ==> id in s.pending && s'.pending[id] == s.pending[id]
    decreases |events|
  {
    if events != [] {
      StepKeepsInv(s, events[0]);
      StepKeepsPending(s, events[0], id);
      PendingKeepsGen(Step(s, events[0]), events[1..], id);
    }
  }

  /** A lookup of an older generation changes nothing whenever it answers. A recheck of the current generation may have
      asked about an older ride all the same: see `RecheckEndsOnlyItsRide`. */
  lemma StaleLookupIsIgnored(s: State, events: seq<Event>, id: nat, row: Option<Pickup>)
    requires Inv(s) && id in s.pending && s.pending[id].gen < s.gen
    ensures var s' := Run(s, events); Step(s', Reply(id, row)) == s'.(pending := s'.pending - {id})
  {
    RunKeepsInv(s, events);
    PendingKeepsGen(s, events, id);
    var s' := Run(s, events);
    if id !in s'.pending { assert s'.pending - {id} == s'.pending; }
  }

  /** An accepted subscribe overtakes every lookup issued before it, and so does leaving. */
  lemma NewerOvertakes(s: State, e: Event)
    requires Inv(s) && s.connected
    requires e.Unsubscribe? || (e.Subscribe? && e.ride.Some? && |Trim(s.asks, e.now)| < ASKS_MAX)
    ensures forall id :: id in s.pending ==> id in Step(s, e).pending && s.pending[id].gen < Step(s, e).gen
    ensures e.Subscribe? ==> Step(s, e).pending[s.lookups] == Subscribing(Step(s, e).gen, e.ride.value)
  {
  }

  /** A subscription's lookup that has not been overtaken moves the socket to exactly the block of its pickup. */
  lemma CurrentLookupCommits(s: State, id: nat, p: Pickup)
    requires Inv(s) && s.connected && id in s.pending && s.pending[id].Subscribing? && s.pending[id].gen == s.gen
    ensures var s' := Step(s, Reply(id, Some(p)));
      && s'.joined == RoomSet(BlockOf(p)) && s'.rooms == BlockOf(p) && s'.ride == Some(s.pending[id].ride)
      && s'.timer && s'.gen == s.gen && s'.connected && s'.pending == s.pending - {id}
  {
    var next := RoomSet(BlockOf(p));
    assert s.joined - (RoomSet(s.rooms) - next) + next == next;
  }

  /** Left, with every lookup in flight overtaken. */
  ghost predicate Quiet(s: State) {
    s.joined == {} && s.rooms == [] && !s.timer && forall id :: id in s.pending ==> s.pending[id].gen < s.gen
  }

  lemma {:induction false} QuietUntilSubscribe(s: State, events: seq<Event>)
    requires Quiet(s) && forall i :: 0 <= i < |events| ==> !events[i].Subscribe?
    ensures Quiet(Run(s, events))
    decreases |events|
  {
    if events != [] { QuietUntilSubscribe(Step(s, events[0]), events[1..]); }
  }

  /** After an unsubscribe the socket is in no nearby room until it subscribes again, whatever lookups were in
      flight. */
  lemma UnsubscribeIsFinal(before: seq<Event>, events: seq<Event>)
    requires Run(CONNECTED, before).connected
    requires forall i :: 0 <= i < |events| ==> !events[i].Subscribe?
    ensures var s := Step(Run(CONNECTED, before), Unsubscribe); Run(s, events).joined == {}
  {
    RunKeepsInv(CONNECTED, before);
    QuietUntilSubscribe(Step(Run(CONNECTED, before), Unsubscribe), events);
  }

  // ----- What leaves the rooms alone -----

  /** The answer that a ride is still searching, to a recheck of any generation, changes nothing. */
  lemma StillSearching(s: State, id: nat, p: Pickup)
    requires id in s.pending && s.pending[id].Rechecking?
    ensures Step(s, Reply(id, Some(p))) == s.(pending := s.pending - {id})
  {
  }

  /** An event that takes a socket out of its rooms. */
  ghost predicate TakesOut(s: State, e: Event) {
    || e.Unsubscribe?
    || e.Disconnect?
    || (e.Reply? && e.lookup in s.pending && s.pending[e.lookup].gen == s.gen && e.row.None?)
  }

  /** Rooms empty only by leaving, by a disconnect, or by a current lookup that finds no searching ride. */
  lemma RoomsEmptyExactly(s: State, e: Event)
    requires Inv(s) && s.connected && s.joined != {}
    ensures Step(s, e).joined == {} <==> TakesOut(s, e)
  {
    if e.Reply? && e.lookup in s.pending && e.row.Some? { BlockNotEmpty(e.row.value); }
  }

  lemma BlockNotEmpty(p: Pickup)
    ensures RoomSet(BlockOf(p)) != {}
  {
    NearCarsAreHeard(p.lat, p.lng, p.lat, p.lng);
    assert RoomOfPoint(p.lat, p.lng) in RoomSet(BlockOf(p));
  }

  /** No event of the run takes the socket out of its rooms. */
  ghost predicate Spared(s: State, events: seq<Event>)
    decreases |events|
  {
    events == [] || (!TakesOut(s, events[0]) && Spared(Step(s, events[0]), events[1..]))
  }

  /** A connected socket in rooms stays in rooms through every run without such an event, whatever is in flight. */
  lemma {:induction false} StaysInRooms(s: State, events: seq<Event>)
    requires Inv(s) && s.connected && s.joined != {} && Spared(s, events)
    ensures Run(s, events).connected && Run(s, events).joined != {}
    decreases |events|
  {
    if events != [] {
      StepKeepsInv(s, events[0]);
      RoomsEmptyExactly(s, events[0]);
      StaysInRooms(Step(s, events[0]), events[1..]);
    }
  }

  /** Subscribing, ticking and failed lookups move no room, ride or timer; a tick only asks, and only under a timer; a
      disconnect stops the timer and empties the rooms. */
  lemma OnlyAnswersMoveRooms(s: State, e: Event)
    requires Inv(s)
    ensures e.Subscribe? || e.Tick? || e.LookupFails? ==>
      var s' := Step(s, e);
      s' == s.(asks := s'.asks, accepted := s'.accepted, gen := s'.gen, pending := s'.pending, lookups := s'.lookups)
    ensures e.Tick? && !s.timer ==> Step(s, e) == s
    ensures e.Tick? && s.timer ==>
      Step(s, e) == s.(pending := s.pending[s.lookups := Rechecking(s.gen, s.ride.value)], lookups := s.lookups + 1)
    ensures e.LookupFails? ==> Step(s, e) == s.(pending := s.pending - {e.lookup})
    ensures e.Disconnect? ==> Step(s, e) == s.(connected := false, timer := false, joined := {})
    ensures e.Unsubscribe? && s.connected ==>
      Step(s, e) == s.(joined := {}, rooms := [], ride := None, timer := false, gen := s.gen + 1, committed := None)
  {
  }

  // ----- The recheck -----

  /** While the socket is in rooms its timer is armed, each tick asks about the ride it is subscribed to, and unless a
      subscribe or a leave comes first, the answer that the ride is no longer searching empties the rooms until the
      rider subscribes again. */
  lemma RecheckCutsOff(before: seq<Event>, events: seq<Event>, later: seq<Event>)
    requires var s := Run(CONNECTED, before); s.connected && s.joined != {}
    requires var s := Run(CONNECTED, before); var s1 := Run(Step(s, Tick), events);
      s.lookups in s1.pending && s1.gen == s.gen
    requires forall i :: 0 <= i < |later| ==> !later[i].Subscribe?
    ensures var s := Run(CONNECTED, before);
      && s.timer && s.ride.Some? && Step(s, Tick).pending[s.lookups] == Rechecking(s.gen, s.ride.value)
      && Run(Step(Run(Step(s, Tick), events), Reply(s.lookups, None)), later).joined == {}
  {
    RunKeepsInv(CONNECTED, before);
    var s := Run(CONNECTED, before);
    var s1 := Step(s, Tick);
    StepKeepsInv(s, Tick);
    RunKeepsInv(s1, events);
    PendingKeepsGen(s1, events, s.lookups);
    var s2 := Run(s1, events);
    LeaveIsQuiet(s2.(pending := s2.pending - {s.lookups}));
    QuietUntilSubscribe(Step(s2, Reply(s.lookups, None)), later);
  }

  lemma LeaveIsQuiet(s: State)
    requires Inv(s)
    ensures Quiet(Leave(s))
  {
  }

  /** A subscribe to another ride than `ride` is waiting for lookup `id`, and nothing has overtaken it. */
  ghost predicate AsksAnother(s: State, id: nat, ride: Ride) {
    id in s.pending && s.pending[id].Subscribing? && s.pending[id].gen == s.gen && s.pending[id].ride != ride
  }

  /** If lookup `id`, which asked about `ride`, answers "no longer searching", that ends a subscription to another
      ride. */
  ghost predicate EndsAnother(s: State, id: nat, ride: Ride) {
    s.ride.Some? && s.ride.value != ride && Step(s, Reply(id, None)).ride.None?
  }

  /** ... or throws away the lookup of a subscribe to another ride, which then never joins. */
  ghost predicate CancelsAnother(s: State, id: nat, ride: Ride) {
    exists j :: AsksAnother(s, j, ride) && s.pending[j].gen < Step(s, Reply(id, None)).gen
  }

  /** Lookup `id` is no subscribe's; while it can still act, the subscription is to `ride`, and so is any waiting. */
  ghost predicate Aimed(s: State, id: nat, ride: Ride) {
    && id < s.lookups
    && (id in s.pending ==> s.pending[id].Rechecking?)
    && (id in s.pending && s.pending[id].gen == s.gen ==> s.ride == Some(ride) && forall j :: !AsksAnother(s, j, ride))
  }

  lemma StepKeepsAim(s: State, e: Event, id: nat, ride: Ride)
    requires Inv(s) && Aimed(s, id, ride)
    ensures Aimed(Step(s, e), id, ride)
  {
    var s' := Step(s, e);
    StepKeepsPending(s, e, id);
    if id in s'.pending && s'.pending[id].gen == s'.gen {
      assert e.Reply? ==> !AsksAnother(s, e.lookup, ride);
      forall j ensures !AsksAnother(s', j, ride) { assert !AsksAnother(s, j, ride); }
    }
  }

  lemma {:induction false} RunKeepsAim(s: State, events: seq<Event>, id: nat, ride: Ride)
    requires Inv(s) && Aimed(s, id, ride)
    ensures var s' := Run(s, events); Aimed(s', id, ride) && !EndsAnother(s', id, ride) && !CancelsAnother(s', id, ride)
    decreases |events|
  {
    if events != [] {
      StepKeepsInv(s, events[0]);
      StepKeepsAim(s, events[0], id, ride);
      RunKeepsAim(Step(s, events[0]), events[1..], id, ride);
    }
  }

  /** Exactly when a recheck is harmless. The recheck issued now never ends a subscription to another ride, whatever
      happens before it answers, if and only if no subscribe to another ride is waiting for its lookup; and under the
      same condition it never throws such a lookup away. */
  lemma RecheckEndsOnlyItsRide(s: State)
    requires Inv(s) && s.timer
    ensures s.ride.Some?
    ensures (forall events :: !EndsAnother(Run(Step(s, Tick), events), s.lookups, s.ride.value))
       <==> (forall j :: !AsksAnother(s, j, s.ride.value))
    ensures (forall events :: !CancelsAnother(Run(Step(s, Tick), events), s.lookups, s.ride.value))
       <==> (forall j :: !AsksAnother(s, j, s.ride.value))
  {
    var id, ride, s1 := s.lookups, s.ride.value, Step(s, Tick);
    StepKeepsInv(s, Tick);
    if j :| AsksAnother(s, j, ride) {
      RecheckCanHit(s, j, Pickup(0.0, 0.0));
    } else {
      forall j ensures !AsksAnother(s1, j, ride) { assert !AsksAnother(s, j, ride); }
      forall events ensures !EndsAnother(Run(s1, events), id, ride) && !CancelsAnother(Run(s1, events), id, ride) {
        RunKeepsAim(s1, events, id, ride);
      }
    }
  }

  lemma RecheckCanHit(s: State, j: nat, p: Pickup)
    requires Inv(s) && s.timer && AsksAnother(s, j, s.ride.value)
    ensures exists events :: EndsAnother(Run(Step(s, Tick), events), s.lookups, s.ride.value)
    ensures exists events :: CancelsAnother(Run(Step(s, Tick), events), s.lookups, s.ride.value)
  {
    var s1 := Step(s, Tick);
    assert Run(s1, []) == s1 && AsksAnother(s1, j, s.ride.value);
    var commit := Reply(j, Some(p));
    var s2 := Step(s1, commit);
    assert s2.ride == Some(s.pending[j].ride) && s2.gen == s.gen;
    assert Run(s1, [commit]) == Run(s2, []) == s2;
    assert EndsAnother(Run(s1, [commit]), s.lookups, s.ride.value);
    assert CancelsAnother(Run(s1, []), s.lookups, s.ride.value);
  }

  /** Subscribed to ride 1, asking for ride 2, and the timer of ride 1 fires before the answer. */
  function ChangeOfRide(p: Pickup): seq<Event> {
    [Subscribe(Some(1), 0), Reply(0, Some(p)), Subscribe(Some(2), 20000), Tick]
  }

  /** A run in which the recheck of ride 1 ends the subscription to ride 2, and one in which ride 2 never joins. */
  lemma RecheckEndsAnotherRide(p: Pickup, q: Pickup)
    ensures var s := Run(CONNECTED, ChangeOfRide(p));
      && s.pending == map[1 := Subscribing(2, 2), 2 := Rechecking(2, 1)]
      && Step(s, Reply(1, Some(q))).ride == Some(2)
      && Step(s, Reply(1, Some(q))).joined == RoomSet(BlockOf(q))
      && Step(Step(s, Reply(1, Some(q))), Reply(2, None)).joined == {}
      && Step(Step(s, Reply(2, None)), Reply(1, Some(q))).joined == {}
  {
    var asked := Step(CONNECTED, Subscribe(Some(1), 0));
    assert asked.pending == map[0 := Subscribing(1, 1)];
    var first := Step(asked, Reply(0, Some(p)));
    assert first.joined == RoomSet(BlockOf(p)) && first.pending == map[];
    var again := Step(first, Subscribe(Some(2), 20000));
    var ticked := Step(again, Tick);
    FourSteps(CONNECTED, Subscribe(Some(1), 0), Reply(0, Some(p)), Subscribe(Some(2), 20000), Tick);
    CurrentLookupCommits(ticked, 1, q);
  }

  lemma FourSteps(s: State, a: Event, b: Event, c: Event, d: Event)
    ensures Run(s, [a, b, c, d]) == Step(Step(Step(Step(s, a), b), c), d)
  {
    assert Run(s, [a, b, c, d]) == Run(Step(s, a), [b, c, d]) == Run(Step(Step(s, a), b), [c, d]);
    assert Run(Step(Step(Step(s, a), b), c), [d]) == Run(Step(Step(Step(Step(s, a), b), c), d), []);
  }

  // ----- The limiter -----

  /** The instants of the subscribe events do not go back, and none is before `from`. */
  ghost predicate ClockForward(events: seq<Event>, from: int) {
    events != [] ==>
      if events[0].Subscribe? then from <= events[0].now && ClockForward(events[1..], events[0].now)
      else ClockForward(events[1..], from)
  }

  /** The queue is what is left of the accepted asks after those out of the window at `last`; asks twelve apart lie
      more than a window apart. */
  ghost predicate Spaced(accepted: seq<int>, asks: seq<int>, last: int) {
    && |asks| <= ASKS_MAX && |asks| <= |accepted|
    && asks == accepted[|accepted| - |asks|..]
    && (forall i, j :: 0 <= i <= j < |accepted| ==> accepted[i] <= accepted[j])
    && (forall i :: 0 <= i < |accepted| ==> accepted[i] <= last)
    && (forall i :: 0 <= i < |accepted| - |asks| ==> last - accepted[i] > ASK_WINDOW_MS)
    && (forall i, j :: 0 <= i && i + ASKS_MAX <= j < |accepted| ==> accepted[j] - accepted[i] > ASK_WINDOW_MS)
  }

  lemma {:induction false} TrimSpaced(accepted: seq<int>, asks: seq<int>, last: int, now: int)
    requires Spaced(accepted, asks, last) && last <= now
    ensures Spaced(accepted, Trim(asks, now), now)
    decreases |asks|
  {
    assert Spaced(accepted, asks, now);
    if asks != [] && now - asks[0] > ASK_WINDOW_MS {
      assert accepted[|accepted| - |asks|] == asks[0];
      assert Spaced(accepted, asks[1..], now);
      TrimSpaced(accepted, asks[1..], now, now);
    }
  }

  lemma PushSpaced(accepted: seq<int>, asks: seq<int>, now: int)
    requires Spaced(accepted, asks, now) && |asks| < ASKS_MAX
    ensures Spaced(accepted + [now], asks + [now], now)
  {
    var accepted' := accepted + [now];
    forall i, j | 0 <= i && i + ASKS_MAX <= j < |accepted'|
      ensures accepted'[j] - accepted'[i] > ASK_WINDOW_MS
    {
      if j < |accepted| { assert accepted[j] - accepted[i] > ASK_WINDOW_MS; }
    }
  }

  lemma AskSpaced(s: State, ride: Ride, now: int, last: int)
    requires Spaced(s.accepted, s.asks, last) && last <= now
    ensures var s' := Ask(s, ride, now); Spaced(s'.accepted, s'.asks, now)
  {
    TrimSpaced(s.accepted, s.asks, last, now);
    if |Trim(s.asks, now)| < ASKS_MAX { PushSpaced(s.accepted, Trim(s.asks, now), now); }
  }

  lemma Later(accepted: seq<int>, asks: seq<int>, last: int, now: int)
    requires Spaced(accepted, asks, last) && last <= now
    ensures Spaced(accepted, asks, now)
  {
  }

  lemma OnlySubscribeAsks(s: State, e: Event)
    requires !e.Subscribe?
    ensures Step(s, e).accepted == s.accepted && Step(s, e).asks == s.asks
  {
  }

  lemma StepSpaced(s: State, e: Event, last: int) returns (now: int)
    requires Spaced(s.accepted, s.asks, last) && (e.Subscribe? ==> last <= e.now)
    ensures var s' := Step(s, e); Spaced(s'.accepted, s'.asks, now)
    ensures now == if e.Subscribe? then e.now else last
  {
    if e.Subscribe? {
      now := e.now;
      if s.connected && e.ride.Some? {
        AskSpaced(s, e.ride.value, now, last);
      } else {
        Later(s.accepted, s.asks, last, now);
      }
    } else {
      now := last;
      OnlySubscribeAsks(s, e);
    }
  }

  /** The instant of the last subscribe event, or `from`. */
  ghost function LastInstant(events: seq<Event>, from: int): int
    decreases |events|
  {
    if events == [] then from else LastInstant(events[1..], if events[0].Subscribe? then events[0].now else from)
  }

  lemma {:induction false} RunSpaced(s: State, events: seq<Event>, last: int)
    requires Spaced(s.accepted, s.asks, last) && ClockForward(events, last)
    ensures var s' := Run(s, events); Spaced(s'.accepted, s'.asks, LastInstant(events, last))
    decreases |events|
  {
    if events != [] {
      var now := StepSpaced(s, events[0], last);
      RunSpaced(Step(s, events[0]), events[1..], now);
    }
  }

  /** The accepted asks in the closed window of 60 seconds from `t`. */
  ghost function AcceptedWithin(s: State, t: int): set<nat> {
    set i | 0 <= i < |s.accepted| && t <= s.accepted[i] <= t + 60000
  }

  /** With a clock that does not go back, no window of 60 seconds holds more than 12 accepted asks. */
  lemma AskRate(events: seq<Event>, from: int, t: int)
    requires ClockForward(events, from)
    ensures |AcceptedWithin(Run(CONNECTED, events), t)| <= 12
  {
    RunSpaced(CONNECTED, events, from);
    var s := Run(CONNECTED, events);
    var within := AcceptedWithin(s, t);
    if within != {} {
      var lo, hi := Spans.Span(within, |s.accepted|);
      FarApart(s.accepted, s.asks, LastInstant(events, from), lo, hi);
    }
  }

  lemma FarApart(accepted: seq<int>, asks: seq<int>, last: int, lo: nat, hi: nat)
    requires Spaced(accepted, asks, last) && lo <= hi < |accepted|
    ensures hi - lo >= ASKS_MAX ==> accepted[hi] - accepted[lo] > ASK_WINDOW_MS
  {
  }

  /** The accepted asks that are still in the window at `now`. */
  ghost function Recent(s: State, now: int): set<nat> {
    set i | 0 <= i < |s.accepted| && now - s.accepted[i] <= 60000
  }

  /** The rule as the rider meets it: with a clock that does not go back, a subscribe with a ride id is accepted, and
      its lookup issued, exactly when fewer than 12 accepted asks are in the window; otherwise it changes nothing but
      the trimmed queue. */
  lemma AcceptedExactly(events: seq<Event>, from: int, ride: Ride, now: int)
    requires ClockForward(events, from) && LastInstant(events, from) <= now && Run(CONNECTED, events).connected
    ensures var s := Run(CONNECTED, events);
      var s' := Step(s, Subscribe(Some(ride), now));
      if |Recent(s, now)| < 12 then
        s'.accepted == s.accepted + [now] && s.lookups in s'.pending
        && s'.pending[s.lookups] == Subscribing(s'.gen, ride) && s'.gen == s.gen + 1
      else s' == s.(asks := s'.asks)
  {
    RunSpaced(CONNECTED, events, from);
    var s := Run(CONNECTED, events);
    RecentSize(s, LastInstant(events, from), now);
  }

  lemma RecentSize(s: State, last: int, now: int)
    requires Spaced(s.accepted, s.asks, last) && last <= now
    ensures |Recent(s, now)| == |Trim(s.asks, now)|
  {
    var trimmed := Trim(s.asks, now);
    TrimSpaced(s.accepted, s.asks, last, now);
    TrimKeepsRecent(s.asks, now);
    RecentAreLast(s.accepted, trimmed, now);
    Spans.SpanSize(Recent(s, now), |s.accepted| - |trimmed|, |s.accepted|);
  }

  lemma {:induction false} TrimKeepsRecent(asks: seq<int>, now: int)
    ensures var trimmed := Trim(asks, now); trimmed == [] || now - trimmed[0] <= ASK_WINDOW_MS
    decreases |asks|
  {
    if asks != [] && now - asks[0] > ASK_WINDOW_MS { TrimKeepsRecent(asks[1..], now); }
  }

  lemma RecentAreLast(accepted: seq<int>, asks: seq<int>, now: int)
    requires Spaced(accepted, asks, now) && (asks == [] || now - asks[0] <= ASK_WINDOW_MS)
    ensures forall i :: 0 <= i < |accepted| ==> (now - accepted[i] <= ASK_WINDOW_MS <==> |accepted| - |asks| <= i)
  {
    if asks != [] { assert accepted[|accepted| - |asks|] == asks[0]; }
  }
}
