/** The entity list: the 256 player slots (the local player in slot 255),
    which names are drawn in the normal and in the hovered pass, which
    target the player looks at, and whose shadows are drawn. Rendering
    itself is left out: a pass is modelled as the slots it draws, in the
    order it draws them. */
module EntityList {
  import opened Common

  const MaxCount := 256

  /** The slot of the local player, never picked as a target. */
  const LocalPlayerId := 255

  datatype NameMode = NoNames | HoveredOnly | All | AllAndHovered

  /** EntityShadow; NoShadow is the source's EntityShadow.None. */
  datatype EntityShadow = NoShadow | SnapToBlock | Circle | CircleAll

  /** A player entity; only its ID and name matter here. */
  datatype Player = Player(id: byte, name: string)

  /** The slots: null is None. */
  type Players = s: seq<Option<Player>> | |s| == MaxCount witness seq(MaxCount, _ => Option<Player>.None)

  /** The indexer's getter: an index outside the array throws. */
  function Get(players: Players, id: int): (r: Result<Option<Player>>)
    ensures r.Ok? <==> 0 <= id < MaxCount
    ensures r.Ok? ==> r.value == players[id]
  {
    if 0 <= id < MaxCount then Ok(players[id]) else Err(IndexOutOfRange)
  }

  /** The indexer's setter: stores the player, whose ID becomes the slot. */
  function Set(players: Players, id: int, value: Option<Player>): (r: Result<Players>)
    ensures r.Ok? <==> 0 <= id < MaxCount
    ensures r.Ok? ==> r.value[id] == (if value.Some? then Some(value.value.(id := id)) else None)
    ensures r.Ok? ==> forall j :: 0 <= j < MaxCount && j != id ==> r.value[j] == players[j]
  {
    if 0 <= id < MaxCount then
      var stored := if value.Some? then Some(value.value.(id := id as byte)) else None;
      Ok(players[id := stored])
    else Err(IndexOutOfRange)
  }

  /** Reading back a slot just written gives the player, renumbered to the
      slot, and the setter's result is the list read through the getter. */
  lemma SetThenGet(players: Players, id: int, value: Option<Player>, other: int)
    requires 0 <= id < MaxCount
    ensures Get(Set(players, id, value).value, id).value.Some? <==> value.Some?
    ensures value.Some? ==> Get(Set(players, id, value).value, id).value.value.id == id
    ensures value.Some? ==> Get(Set(players, id, value).value, id).value.value.name == value.value.name
    ensures other != id ==> Get(Set(players, id, value).value, other) == Get(players, other)
  {
  }

  // ---------------------------------------------------------------------
  // Target choice

  /** The ray test: hit[i] is Some(t0) when the view ray meets player i's
      rotated bounding box, t0 being the distance to the entry point. */
  type RayHits = s: seq<Option<real>> | |s| == MaxCount witness seq(MaxCount, _ => Option<real>.None)

  /** Slot i is a candidate target: a player that the ray meets. */
  predicate Candidate(players: Players, hit: RayHits, i: int)
  {
    0 <= i < LocalPlayerId && players[i].Some? && hit[i].Some?
  }

  /** GetClosetPlayer: the candidate with the smallest t0, the lowest slot
      on ties; 255 when the ray meets nobody. */
  method GetClosestPlayer(players: Players, hit: RayHits) returns (targetId: byte)
    ensures targetId == LocalPlayerId <==> forall i :: 0 <= i < LocalPlayerId ==> !Candidate(players, hit, i)
    ensures targetId != LocalPlayerId ==> Candidate(players, hit, targetId)
    ensures targetId != LocalPlayerId ==>
              forall i :: 0 <= i < targetId && Candidate(players, hit, i) ==> hit[i].value > hit[targetId].value
    ensures targetId != LocalPlayerId ==>
              forall i :: targetId < i < LocalPlayerId && Candidate(players, hit, i) ==> hit[i].value >= hit[targetId].value
  {
    // None stands for float.PositiveInfinity.
    var closestDist: Option<real> := Option<real>.None;
    targetId := LocalPlayerId;
    var i := 0;
    while i < MaxCount - 1
      invariant 0 <= i <= LocalPlayerId
      invariant closestDist.None? <==> targetId == LocalPlayerId
      invariant targetId == LocalPlayerId <==> forall k :: 0 <= k < i ==> !Candidate(players, hit, k)
      invariant targetId != LocalPlayerId ==>
                  targetId < i && Candidate(players, hit, targetId) && closestDist == hit[targetId]
      invariant targetId != LocalPlayerId ==>
                  forall k :: 0 <= k < targetId && Candidate(players, hit, k) ==> hit[k].value > hit[targetId].value
      invariant targetId != LocalPlayerId ==>
                  forall k :: targetId < k < i && Candidate(players, hit, k) ==> hit[k].value >= hit[targetId].value
    {
      assert Candidate(players, hit, i) <==> players[i].Some? && hit[i].Some?;
      if players[i].Some? && hit[i].Some? && (closestDist.None? || hit[i].value < closestDist.value) {
        closestDist := hit[i];
        targetId := i;
      }
      i := i + 1;
    }
  }

  // ---------------------------------------------------------------------
  // Name passes

  /** The slots below n satisfying p, in ascending order. */
  function Slots(n: nat, p: nat -> bool): (r: seq<nat>)
    ensures forall i: nat :: i in r <==> i < n && p(i)
    ensures forall k :: 0 <= k < |r| ==> r[k] < n
    ensures forall a, b :: 0 <= a < b < |r| ==> r[a] < r[b]
  {
    if n == 0 then [] else Slots(n - 1, p) + (if p(n - 1) then [n - 1] else [])
  }

  /** A condition that holds for one slot at most selects one slot at most. */
  lemma {:induction false} SlotsAtMostOne(n: nat, p: nat -> bool, x: nat)
    requires forall i :: p(i) ==> i == x
    ensures |Slots(n, p)| <= 1
  {
    if n > 0 {
      if n - 1 == x {
        SlotsNone(n - 1, p);
      } else {
        SlotsAtMostOne(n - 1, p, x);
      }
    }
  }

  /** A condition that holds for slot x alone selects x, if x is below n. */
  lemma {:induction false} SlotsOne(n: nat, p: nat -> bool, x: nat)
    requires forall i :: p(i) ==> i == x
    ensures Slots(n, p) == (if x < n && p(x) then [x] else [])
  {
    if n > 0 {
      SlotsOne(n - 1, p, x);
    }
  }

  /** A condition no slot below n meets selects nothing. */
  lemma {:induction false} SlotsNone(n: nat, p: nat -> bool)
    requires forall i: nat :: i < n ==> !p(i)
    ensures Slots(n, p) == []
  {
    if n > 0 {
      SlotsNone(n - 1, p);
    }
  }

  /** The closest id remembered between the two passes. */
  datatype NamePass = NamePass(closestId: byte, drawn: seq<nat>)

  /** RenderNames: the slots whose names the normal pass draws, and the
      closest id it leaves for the hovered pass. `closest` is what
      GetClosetPlayer returns this frame. */
  function RenderNames(mode: NameMode, canSeeAllNames: bool, previousClosest: byte,
                       players: Players, closest: byte): (r: NamePass)
    ensures mode == NoNames ==> r == NamePass(previousClosest, [])
    ensures mode == All ==> r.closestId == LocalPlayerId
    ensures mode != NoNames && mode != All ==> r.closestId == closest
    ensures (mode == HoveredOnly || !canSeeAllNames) ==> r.drawn == []
    ensures forall i :: i in r.drawn ==> i < MaxCount && players[i].Some?
  {
    if mode == NoNames then NamePass(previousClosest, [])
    else
      var closestId := if mode != All then closest else LocalPlayerId;
      if mode == HoveredOnly || !canSeeAllNames then NamePass(closestId, [])
      else NamePass(closestId, Slots(MaxCount, (i: nat) => i < |players| && players[i].Some?
                                                   && (i != closestId || i == LocalPlayerId)))
  }

  /** RenderHoveredNames: the name drawn without depth test, at most the
      remembered closest slot. */
  function RenderHoveredNames(mode: NameMode, closestId: byte, players: Players): (r: seq<nat>)
    ensures |r| <= 1
    ensures forall i :: i in r ==> i == closestId && i != LocalPlayerId && players[i].Some?
    ensures closestId in r <==> mode != NoNames && mode != All && closestId != LocalPlayerId && players[closestId].Some?
    ensures r == [] || r == [closestId]
  {
    if mode == NoNames || mode == All then []
    else
      var p := (i: nat) => i < |players| && players[i].Some? && i == closestId && i != LocalPlayerId;
      SlotsOne(MaxCount, p, closestId);
      Slots(MaxCount, p)
  }

  /** With names off neither pass draws. */
  lemma NoNamesDrawsNothing(canSeeAllNames: bool, previousClosest: byte, players: Players, closest: byte)
    ensures RenderNames(NoNames, canSeeAllNames, previousClosest, players, closest).drawn == []
    ensures RenderHoveredNames(NoNames, RenderNames(NoNames, canSeeAllNames, previousClosest, players, closest).closestId, players) == []
  {
  }

  /** In All mode with names visible, the normal pass draws every player and
      the hovered pass draws none. */
  lemma AllDrawsEveryName(players: Players, previousClosest: byte, closest: byte)
    ensures var r := RenderNames(All, true, previousClosest, players, closest);
            && (forall i :: 0 <= i < MaxCount ==> (i in r.drawn <==> players[i].Some?))
            && RenderHoveredNames(All, r.closestId, players) == []
  {
  }

  /** In AllAndHovered mode with names visible, every other player's name is
      drawn in exactly one pass: the hovered pass for the target, the normal
      pass for everyone else. The local player's name is always in the
      normal pass. */
  lemma AllAndHoveredDrawsEachOnce(players: Players, previousClosest: byte, closest: byte)
    ensures var r := RenderNames(AllAndHovered, true, previousClosest, players, closest);
            var hovered := RenderHoveredNames(AllAndHovered, r.closestId, players);
            && (forall i :: 0 <= i < LocalPlayerId && players[i].Some? ==>
                  (i in r.drawn <==> i != closest) && (i in hovered <==> i == closest))
            && (players[LocalPlayerId].Some? ==> LocalPlayerId in r.drawn && LocalPlayerId !in hovered)
  {
  }

  // ---------------------------------------------------------------------
  // Shadows

  /** DrawShadows: the slots whose shadows are drawn, in order. The local
      player's slot is dereferenced unconditionally. */
  function DrawShadows(mode: EntityShadow, players: Players): (r: Result<seq<nat>>)
    ensures mode == NoShadow ==> r == Ok([])
    ensures mode != NoShadow ==> (r.Ok? <==> players[LocalPlayerId].Some?)
    ensures r.Ok? && mode != NoShadow ==> |r.value| >= 1 && r.value[0] == LocalPlayerId
    ensures r.Ok? ==> forall i :: 0 <= i < LocalPlayerId ==>
                        (i in r.value <==> mode == CircleAll && players[i].Some?)
  {
    if mode == NoShadow then Ok([])
    else if players[LocalPlayerId].None? then Err(NullReference)
    else Ok([LocalPlayerId] + OtherShadows(mode, players))
  }

  /** The slots below the local player's whose shadows are drawn: all
      players in CircleAll mode, none otherwise. */
  function OtherShadows(mode: EntityShadow, players: Players): (r: seq<nat>)
    ensures forall i: nat :: i in r <==> i < LocalPlayerId && mode == CircleAll && players[i].Some?
    ensures forall k :: 0 <= k < |r| ==> r[k] < LocalPlayerId
    ensures forall a, b :: 0 <= a < b < |r| ==> r[a] < r[b]
  {
    if mode == CircleAll then Slots(LocalPlayerId, (i: nat) => i < |players| && players[i].Some?) else []
  }

  /** Each shadow is drawn once. */
  lemma ShadowsDrawnOnce(mode: EntityShadow, players: Players)
    requires DrawShadows(mode, players).Ok?
    ensures forall a, b :: 0 <= a < b < |DrawShadows(mode, players).value| ==>
              DrawShadows(mode, players).value[a] != DrawShadows(mode, players).value[b]
  {
    var r := DrawShadows(mode, players).value;
    if mode != NoShadow {
      var others := r[1..];
      assert forall k :: 0 <= k < |others| ==> others[k] < LocalPlayerId;
      assert forall a, b :: 0 <= a < b < |others| ==> others[a] < others[b];
    }
  }

  // ---------------------------------------------------------------------
  // Options

  datatype Modes = Modes(names: NameMode, shadows: EntityShadow)

  /** The constructor: the configured modes, overridden in classic mode. */
  function InitialModes(namesOption: NameMode, shadowOption: EntityShadow, classicMode: bool): (m: Modes)
    ensures classicMode ==> m == Modes(HoveredOnly, NoShadow)
    ensures !classicMode ==> m == Modes(namesOption, shadowOption)
  {
    Modes(if classicMode then HoveredOnly else namesOption, if classicMode then NoShadow else shadowOption)
  }

  /** In classic mode only the hovered player's name is drawn, and it is
      drawn whenever the player looks at someone; no shadows at all. */
  lemma ClassicModeHidesOthers(namesOption: NameMode, shadowOption: EntityShadow, canSeeAllNames: bool,
                                previousClosest: byte, players: Players, closest: byte)
    ensures var m := InitialModes(namesOption, shadowOption, true);
            && RenderNames(m.names, canSeeAllNames, previousClosest, players, closest).drawn == []
            && RenderHoveredNames(m.names, closest, players) ==
                 (if closest != LocalPlayerId && players[closest].Some? then [closest] else [])
            && DrawShadows(m.shadows, players) == Ok([])
  {
  }
}
