/** Desk assignment: zones, their desk pools, and the overflow scan. */
module Seating {
  import opened Text

  datatype Zone = Exec | Engineering | ProductDesign | MarketingGrowth | EditorialContent | OperationsAdmin
                | DataResearch | Web3 | ReservedMeeting | ReservedLobby

  datatype Area = HomeOffice | Lounge | CubiclePit | CubicleBack | OpenDesks | CenterBay | SideBay | FarRight
                | EntryRow | Basement | MeetingDesk | Boardroom | Lobby

  // "cubicle-pit-3" is Desk(CubiclePit, 3).
  datatype Desk = Desk(area: Area, number: nat)

  const CEO_DESK := Desk(HomeOffice, 1)

  function Row(area: Area, first: nat, last: nat): (r: seq<Desk>)
    requires first <= last + 1
    ensures |r| == last + 1 - first && forall i | 0 <= i < |r| :: r[i] == Desk(area, first + i)
  {
    seq(last + 1 - first, i requires 0 <= i => Desk(area, first + i))
  }

  function ZoneDesks(zone: Zone): seq<Desk> {
    match zone
    case Exec => [CEO_DESK] + Row(Lounge, 1, 3)
    case Engineering => Row(CubiclePit, 1, 4) + Row(CubicleBack, 1, 3)
    case Web3 => Row(CubicleBack, 4, 9)
    case DataResearch => Row(OpenDesks, 1, 4) + Row(CenterBay, 1, 2)
    case ProductDesign => Row(SideBay, 1, 3)
    case EditorialContent => Row(FarRight, 1, 2)
    case MarketingGrowth => Row(FarRight, 3, 5)
    case OperationsAdmin => Row(EntryRow, 1, 3) + Row(Basement, 1, 1)
    case ReservedMeeting => Row(MeetingDesk, 1, 2) + Row(Boardroom, 1, 7)
    case ReservedLobby => Row(Lobby, 1, 2)
  }

  const RESERVED: set<Zone> := {Exec, ReservedMeeting, ReservedLobby}
  const OVERFLOW: seq<Zone> :=
    [Engineering, DataResearch, OperationsAdmin, MarketingGrowth, EditorialContent, ProductDesign, Web3]

  // A desk somebody may sit at now.
  predicate Open(d: Desk, occupied: set<Desk>, isCeo: bool) {
    d !in occupied && (isCeo || d != CEO_DESK)
  }

  ghost predicate Full(zone: Zone, occupied: set<Desk>, isCeo: bool) {
    forall d | d in ZoneDesks(zone) :: !Open(d, occupied, isCeo)
  }

  ghost predicate FirstOpen(desks: seq<Desk>, d: Desk, occupied: set<Desk>, isCeo: bool) {
    exists i :: 0 <= i < |desks| && desks[i] == d && Open(d, occupied, isCeo)
                && forall k | 0 <= k < i :: !Open(desks[k], occupied, isCeo)
  }

  function FirstFree(desks: seq<Desk>, occupied: set<Desk>, isCeo: bool): (r: Option<Desk>)
    ensures r.Some? ==> FirstOpen(desks, r.value, occupied, isCeo)
    ensures r.None? <==> forall d | d in desks :: !Open(d, occupied, isCeo)
  {
    if desks == [] then None
    else if Open(desks[0], occupied, isCeo) then Some(desks[0])
    else
      var r := FirstFree(desks[1..], occupied, isCeo);
      assert r.Some? ==> FirstOpen(desks, r.value, occupied, isCeo) by {
        if r.Some? { FirstOpenLater(desks, r.value, occupied, isCeo); }
      }
      r
  }

  lemma FirstOpenLater(desks: seq<Desk>, d: Desk, occupied: set<Desk>, isCeo: bool)
    requires desks != [] && !Open(desks[0], occupied, isCeo) && FirstOpen(desks[1..], d, occupied, isCeo)
    ensures FirstOpen(desks, d, occupied, isCeo)
  {
    var i :| 0 <= i < |desks| - 1 && desks[1..][i] == d && Open(d, occupied, isCeo)
             && forall k | 0 <= k < i :: !Open(desks[1..][k], occupied, isCeo);
    forall k | 0 <= k < i + 1 ensures !Open(desks[k], occupied, isCeo) {
      if k > 0 { assert desks[k] == desks[1..][k - 1]; }
    }
    assert desks[i + 1] == d;
  }

  method PickFreeSeat(zone: Zone, occupied: set<Desk>, isCeo: bool) returns (r: Option<Desk>)
    ensures r == FirstFree(ZoneDesks(zone), occupied, isCeo)
    ensures r.Some? ==> FirstOpen(ZoneDesks(zone), r.value, occupied, isCeo)
    ensures r.None? <==> Full(zone, occupied, isCeo)
  {
    var desks := ZoneDesks(zone);
    hide ZoneDesks;
    for i := 0 to |desks|
      invariant FirstFree(desks, occupied, isCeo) == FirstFree(desks[i..], occupied, isCeo)
    {
      if desks[i] in occupied { continue; }
      if !isCeo && desks[i] == CEO_DESK { continue; }
      return Some(desks[i]);
    }
    r := None;
  }

  // The zones an assignment may fall back to, after those that come first in the order.
  ghost predicate FromOverflow(primary: Zone, d: Desk, occupied: set<Desk>, isCeo: bool) {
    exists z :: 0 <= z < |OVERFLOW| && FirstOpen(ZoneDesks(OVERFLOW[z]), d, occupied, isCeo)
                && Full(primary, occupied, isCeo) && forall k | 0 <= k < z :: Full(OVERFLOW[k], occupied, isCeo)
  }

  ghost predicate NoSeat(primary: Zone, occupied: set<Desk>, isCeo: bool) {
    && !(isCeo && CEO_DESK !in occupied)
    && Full(primary, occupied, isCeo)
    && forall k | 0 <= k < |OVERFLOW| :: Full(OVERFLOW[k], occupied, isCeo)
  }

  // The first overflow zone, from number k on, that has a desk; the own zone was looked at already.
  function Overflow(primary: Zone, k: nat, occupied: set<Desk>, isCeo: bool): Option<Desk>
    requires k <= |OVERFLOW|
    decreases |OVERFLOW| - k
  {
    if k == |OVERFLOW| then None
    else
      var r := FirstFree(ZoneDesks(OVERFLOW[k]), occupied, isCeo);
      if OVERFLOW[k] == primary || OVERFLOW[k] in RESERVED || r.None? then Overflow(primary, k + 1, occupied, isCeo) else r
  }

  // `primary` is the role's own zone, or operations for a role outside the catalog.
  function SeatFor(primary: Zone, isCeo: bool, occupied: set<Desk>): Option<Desk> {
    if isCeo && CEO_DESK !in occupied then Some(CEO_DESK)
    else
      var r := FirstFree(ZoneDesks(primary), occupied, isCeo);
      if r.Some? then r else Overflow(primary, 0, occupied, isCeo)
  }

  method AssignSeat(primary: Zone, isCeo: bool, occupied: set<Desk>) returns (r: Option<Desk>)
    ensures r == SeatFor(primary, isCeo, occupied)
  {
    hide ZoneDesks, Full;
    if isCeo && CEO_DESK !in occupied {
      return Some(CEO_DESK);
    }
    r := PickFreeSeat(primary, occupied, isCeo);
    if r.Some? {
      return;
    }
    for k := 0 to |OVERFLOW|
      invariant r == None && Overflow(primary, 0, occupied, isCeo) == Overflow(primary, k, occupied, isCeo)
    {
      var zone := OVERFLOW[k];
      if zone == primary { continue; }
      if zone in RESERVED { continue; }
      r := PickFreeSeat(zone, occupied, isCeo);
      if r.Some? {
        return;
      }
    }
  }

  lemma {:induction false} OverflowFinds(primary: Zone, k: nat, occupied: set<Desk>, isCeo: bool)
    requires k <= |OVERFLOW| && Full(primary, occupied, isCeo)
    requires forall j | 0 <= j < k :: Full(OVERFLOW[j], occupied, isCeo)
    ensures var r := Overflow(primary, k, occupied, isCeo);
            && (r.None? <==> forall j | 0 <= j < |OVERFLOW| :: Full(OVERFLOW[j], occupied, isCeo))
            && (r.Some? ==> FromOverflow(primary, r.value, occupied, isCeo))
    decreases |OVERFLOW| - k
  {
    hide ZoneDesks;
    if k < |OVERFLOW| {
      assert OVERFLOW[k] !in RESERVED by { NoReservedOverflow(k); }
      if Full(OVERFLOW[k], occupied, isCeo) {
        OverflowFinds(primary, k + 1, occupied, isCeo);
      }
    }
  }

  lemma NoReservedOverflow(k: nat)
    requires k < |OVERFLOW|
    ensures OVERFLOW[k] !in RESERVED
  {
  }

  /**
   The CEO gets a free CEO desk; anybody else the first permitted desk of the own zone, or of the first overflow zone
   that has one; nobody gets none unless all of these are full, and what is assigned is free and permitted.
   */
  lemma SeatIsRight(primary: Zone, isCeo: bool, occupied: set<Desk>)
    ensures var r := SeatFor(primary, isCeo, occupied);
            && (isCeo && CEO_DESK !in occupied ==> r == Some(CEO_DESK))
            && (r.Some? && !(isCeo && CEO_DESK !in occupied) ==>
                  FirstOpen(ZoneDesks(primary), r.value, occupied, isCeo) || FromOverflow(primary, r.value, occupied, isCeo))
            && (r.None? <==> NoSeat(primary, occupied, isCeo))
            && (r.Some? ==> Open(r.value, occupied, isCeo))
  {
    hide ZoneDesks;
    if Full(primary, occupied, isCeo) {
      OverflowFinds(primary, 0, occupied, isCeo);
    }
  }

  // ---- capacity ----------------------------------------------------------------

  lemma {:induction false} DistinctFit(desks: seq<Desk>, s: set<Desk>)
    requires forall j, k | 0 <= j < k < |desks| :: desks[j] != desks[k]
    requires forall d | d in desks :: d in s
    ensures |desks| <= |s|
  {
    if desks != [] {
      var n := |desks| - 1;
      DistinctFit(desks[..n], s - {desks[n]});
    }
  }

  function Elsewhere(s: set<Desk>, area: Area): set<Desk> {
    set d | d in s && d.area != area
  }

  // All desks of an area open to everybody are taken.
  ghost predicate Packed(s: set<Desk>, area: Area, n: nat) {
    forall k: nat | 1 <= k <= n :: Desk(area, k) in s
  }

  // An area with n desks taken accounts for n of them.
  lemma Peel(s: set<Desk>, area: Area, n: nat)
    requires Packed(s, area, n)
    ensures |s| >= n + |Elsewhere(s, area)|
  {
    var here := set d | d in s && d.area == area;
    DistinctFit(Row(area, 1, n), here);
    assert s == here + Elsewhere(s, area);
  }

  datatype Block = Block(area: Area, size: nat)

  // The desks open to everybody, by area.
  const BLOCKS: seq<Block> := [Block(CubiclePit, 4), Block(CubicleBack, 9), Block(OpenDesks, 4), Block(CenterBay, 2),
                               Block(SideBay, 3), Block(FarRight, 5), Block(EntryRow, 3), Block(Basement, 1)]

  function Capacity(blocks: seq<Block>): nat {
    if blocks == [] then 0 else blocks[0].size + Capacity(blocks[1..])
  }

  ghost predicate AllPacked(s: set<Desk>, blocks: seq<Block>) {
    forall k | 0 <= k < |blocks| :: Packed(s, blocks[k].area, blocks[k].size)
  }

  lemma {:induction false} PackedIsMany(s: set<Desk>, blocks: seq<Block>)
    requires forall j, k | 0 <= j < k < |blocks| :: blocks[j].area != blocks[k].area
    requires AllPacked(s, blocks)
    ensures |s| >= Capacity(blocks)
    decreases |blocks|
  {
    if blocks != [] {
      Peel(s, blocks[0].area, blocks[0].size);
      PackedIsMany(Elsewhere(s, blocks[0].area), blocks[1..]);
    }
  }

  lemma AllPackedIsMany(s: set<Desk>)
    requires AllPacked(s, BLOCKS)
    ensures |s| >= 31
  {
    PackedIsMany(s, BLOCKS);
    hide AllPacked;
    assert Capacity(BLOCKS[7..]) == 1 && Capacity(BLOCKS[6..]) == 4 && Capacity(BLOCKS[5..]) == 9 && Capacity(BLOCKS[4..]) == 12;
    assert Capacity(BLOCKS[3..]) == 14 && Capacity(BLOCKS[2..]) == 18 && Capacity(BLOCKS[1..]) == 27 && Capacity(BLOCKS) == 31;
  }

  // A zone without an open desk has all its desks taken, the CEO's apart.
  lemma FullIsTaken(zone: Zone, occupied: set<Desk>, isCeo: bool, i: nat)
    requires Full(zone, occupied, isCeo) && zone != Exec && i < |ZoneDesks(zone)|
    ensures ZoneDesks(zone)[i] in occupied
  {
    assert ZoneDesks(zone)[i] in ZoneDesks(zone);
  }

  lemma NoSeatIsPacked(primary: Zone, isCeo: bool, occupied: set<Desk>)
    requires NoSeat(primary, occupied, isCeo)
    ensures AllPacked(occupied, BLOCKS)
  {
    forall z, i: nat | 0 <= z < |OVERFLOW| && i < |ZoneDesks(OVERFLOW[z])| ensures ZoneDesks(OVERFLOW[z])[i] in occupied {
      FullIsTaken(OVERFLOW[z], occupied, isCeo, i);
    }
    forall zone, i: nat | zone !in RESERVED && i < |ZoneDesks(zone)| ensures ZoneDesks(zone)[i] in occupied {
      OverflowHasAll(zone);
    }
    hide Full;
    forall k: nat | 1 <= k <= 9 ensures Desk(CubicleBack, k) in occupied {
      if k <= 3 { assert ZoneDesks(Engineering)[3 + k] == Desk(CubicleBack, k); }
      else { assert ZoneDesks(Web3)[k - 4] == Desk(CubicleBack, k); }
    }
    forall k: nat | 1 <= k <= 5 ensures Desk(FarRight, k) in occupied {
      if k <= 2 { assert ZoneDesks(EditorialContent)[k - 1] == Desk(FarRight, k); }
      else { assert ZoneDesks(MarketingGrowth)[k - 3] == Desk(FarRight, k); }
    }
    forall k: nat | 1 <= k <= 4 ensures Desk(CubiclePit, k) in occupied && Desk(OpenDesks, k) in occupied {
      assert ZoneDesks(Engineering)[k - 1] == Desk(CubiclePit, k) && ZoneDesks(DataResearch)[k - 1] == Desk(OpenDesks, k);
    }
    forall k: nat | 1 <= k <= 3 ensures Desk(SideBay, k) in occupied && Desk(EntryRow, k) in occupied {
      assert ZoneDesks(ProductDesign)[k - 1] == Desk(SideBay, k) && ZoneDesks(OperationsAdmin)[k - 1] == Desk(EntryRow, k);
    }
    forall k: nat | 1 <= k <= 2 ensures Desk(CenterBay, k) in occupied {
      assert ZoneDesks(DataResearch)[3 + k] == Desk(CenterBay, k);
    }
    assert ZoneDesks(OperationsAdmin)[3] == Desk(Basement, 1);
  }

  lemma OverflowHasAll(zone: Zone)
    ensures zone !in RESERVED <==> exists z :: 0 <= z < |OVERFLOW| && OVERFLOW[z] == zone
  {
    assert OVERFLOW[0] == Engineering && OVERFLOW[1] == DataResearch && OVERFLOW[2] == OperationsAdmin
        && OVERFLOW[3] == MarketingGrowth && OVERFLOW[4] == EditorialContent && OVERFLOW[5] == ProductDesign && OVERFLOW[6] == Web3;
  }

  /** With fewer than 31 desks taken an assignment never fails, whatever the role. */
  lemma FewerThan31NeverFails(primary: Zone, isCeo: bool, occupied: set<Desk>)
    ensures |occupied| < 31 ==> !NoSeat(primary, occupied, isCeo)
  {
    if NoSeat(primary, occupied, isCeo) {
      NoSeatIsPacked(primary, isCeo, occupied);
      AllPackedIsMany(occupied);
    }
  }

  // The desks of the zones everybody may overflow to.
  function Everyones(): seq<Desk> {
    ZoneDesks(Engineering) + ZoneDesks(DataResearch) + ZoneDesks(OperationsAdmin) + ZoneDesks(MarketingGrowth)
    + ZoneDesks(EditorialContent) + ZoneDesks(ProductDesign) + ZoneDesks(Web3)
  }

  lemma {:induction false} SetOfSeq(s: seq<Desk>)
    ensures |set d | d in s| <= |s|
  {
    if s != [] {
      var n := |s| - 1;
      SetOfSeq(s[..n]);
      assert (set d | d in s) == (set d | d in s[..n]) + {s[n]};
    }
  }

  /** The bound is tight: once everybody's desks are taken, an engineer finds no seat. */
  lemma ThirtyOneCanFail()
    ensures var occupied := set d | d in Everyones(); |occupied| == 31 && NoSeat(Engineering, occupied, false)
  {
    var occupied := set d | d in Everyones();
    assert |Everyones()| == 31;
    assert NoSeat(Engineering, occupied, false) by {
      hide ZoneDesks;
      assert OVERFLOW[0] == Engineering && OVERFLOW[1] == DataResearch && OVERFLOW[2] == OperationsAdmin
          && OVERFLOW[3] == MarketingGrowth && OVERFLOW[4] == EditorialContent && OVERFLOW[5] == ProductDesign && OVERFLOW[6] == Web3;
    }
    SetOfSeq(Everyones());
    FewerThan31NeverFails(Engineering, false, occupied);
  }

  // ---- hiring ------------------------------------------------------------------

  type AgentId = string
  datatype Seat = Seat(desk: Desk, isCeo: bool)

  // A hire with the role's own zone, and a departure.
  datatype Event = Hire(agent: AgentId, primary: Zone, isCeo: bool) | Leave(agent: AgentId)

  function Taken(office: map<AgentId, Seat>): set<Desk> {
    set a | a in office :: office[a].desk
  }

  // A hire is seated where the assignment says, given the desks taken by then, or stays without a seat.
  function After(office: map<AgentId, Seat>, e: Event): map<AgentId, Seat> {
    match e
    case Hire(agent, primary, isCeo) =>
      var desk := SeatFor(primary, isCeo, Taken(office));
      if agent in office || desk.None? then office else office[agent := Seat(desk.value, isCeo)]
    case Leave(agent) => office - {agent}
  }

  function Office(events: seq<Event>): map<AgentId, Seat> {
    if events == [] then map[] else After(Office(events[..|events| - 1]), events[|events| - 1])
  }

  ghost predicate Apart(office: map<AgentId, Seat>) {
    && (forall a, b | a in office && b in office && a != b :: office[a].desk != office[b].desk)
    && (forall a | a in office && office[a].desk == CEO_DESK :: office[a].isCeo)
  }

  lemma AfterKeepsApart(office: map<AgentId, Seat>, e: Event)
    requires Apart(office)
    ensures Apart(After(office, e))
  {
    assert forall a | a in office :: office[a].desk in Taken(office);
    if e.Hire? {
      SeatIsRight(e.primary, e.isCeo, Taken(office));
    }
    hide SeatFor, FirstOpen, FromOverflow, NoSeat;
  }

  /** However agents are hired and leave, no two share a desk and only the CEO has the CEO's. */
  lemma {:induction false} NobodySharesADesk(events: seq<Event>)
    ensures Apart(Office(events))
  {
    if events != [] {
      NobodySharesADesk(events[..|events| - 1]);
      AfterKeepsApart(Office(events[..|events| - 1]), events[|events| - 1]);
    }
  }

  lemma {:induction false} DesksAreApart(names: set<AgentId>, office: map<AgentId, Seat>)
    requires Apart(office) && names <= office.Keys
    ensures |set a | a in names :: office[a].desk| == |names|
  {
    if names != {} {
      var a :| a in names;
      var rest := names - {a};
      DesksAreApart(rest, office);
      assert (set b | b in names :: office[b].desk) == (set b | b in rest :: office[b].desk) + {office[a].desk};
    }
  }

  lemma TakenIsEverybody(office: map<AgentId, Seat>)
    requires Apart(office)
    ensures |Taken(office)| == |office|
  {
    DesksAreApart(office.Keys, office);
    assert Taken(office) == set a | a in office.Keys :: office[a].desk;
  }

  /**
   In any sequence of hires and departures a hire of a newcomer goes without a seat exactly if the own zone and all
   overflow zones are full, and a free CEO desk does not wait for this CEO; so never while fewer than 31 sit.
   */
  lemma HireFailsIff(events: seq<Event>, agent: AgentId, primary: Zone, isCeo: bool)
    requires agent !in Office(events)
    ensures agent !in Office(events + [Hire(agent, primary, isCeo)]) <==> NoSeat(primary, Taken(Office(events)), isCeo)
    ensures agent !in Office(events + [Hire(agent, primary, isCeo)]) ==> |Office(events)| >= 31
  {
    var office := Office(events);
    assert (events + [Hire(agent, primary, isCeo)])[..|events|] == events;
    SeatIsRight(primary, isCeo, Taken(office));
    FewerThan31NeverFails(primary, isCeo, Taken(office));
    NobodySharesADesk(events);
    TakenIsEverybody(office);
    hide SeatFor, FirstOpen, FromOverflow, NoSeat, Apart, Taken;
  }
}
