/**
 * Role assignment on the server: one counter per configured role, and a map from each
 * joining player to the role they were given. A player gets Security while Security has
 * places left, and Assistant otherwise.
 */
module Roles {
  import opened Wrappers

  datatype Player = Player(id: nat)

  /** A role's data; only its name is read by the assignment rule. */
  datatype RoleData = RoleData(name: string)

  /** One configured role: its data and how many players may hold it. */
  datatype RolesData = RolesData(data: RoleData, availableRoles: int)

  /** A role counter: the role, its number of places and the players holding it. */
  datatype RoleCounter = RoleCounter(role: RoleData, availableRoles: int, players: seq<Player>) {
    function CurrentRoles(): int {
      |players|
    }

    /** The counter with `player` added. */
    function AddPlayer(player: Player): (r: RoleCounter)
      ensures r.role == role && r.availableRoles == availableRoles
      ensures r.CurrentRoles() == CurrentRoles() + 1
    {
      this.(players := players + [player])
    }

    /** The counter with the first occurrence of `player` removed, if there is one. */
    function RemovePlayer(player: Player): (r: RoleCounter)
      ensures r.role == role && r.availableRoles == availableRoles
      ensures r.CurrentRoles() == if player in players then CurrentRoles() - 1 else CurrentRoles()
    {
      this.(players := RemoveFirst(players, player))
    }
  }

  /** `List.Remove`: drops the first occurrence of `x`, if any. */
  function RemoveFirst<T(==)>(s: seq<T>, x: T): (r: seq<T>)
    ensures |r| == if x in s then |s| - 1 else |s|
    ensures forall y :: y in r ==> y in s
  {
    if s == [] then []
    else if s[0] == x then s[1..]
    else [s[0]] + RemoveFirst(s[1..], x)
  }

  /** The counters set up from the configured roles, in configuration order, all empty. */
  function CountersFor(roles: seq<RolesData>): seq<RoleCounter> {
    seq(|roles|, i requires 0 <= i < |roles| => RoleCounter(roles[i].data, roles[i].availableRoles, []))
  }

  /** The index of the first counter whose role has the given name (`FirstOrDefault`). */
  function FirstNamed(counters: seq<RoleCounter>, name: string): (r: Option<nat>)
    ensures r.Some? ==> r.value < |counters| && counters[r.value].role.name == name
    ensures r.Some? ==> forall j :: 0 <= j < r.value ==> counters[j].role.name != name
    ensures r.None? ==> forall j :: 0 <= j < |counters| ==> counters[j].role.name != name
  {
    if counters == [] then None
    else if counters[0].role.name == name then Some(0)
    else match FirstNamed(counters[1..], name)
      case None => None
      case Some(k) => Some(k + 1)
  }

  /** The index of the first counter for exactly this role (`First`), if any. */
  function FirstFor(counters: seq<RoleCounter>, role: RoleData): (r: Option<nat>)
    ensures r.Some? ==> r.value < |counters| && counters[r.value].role == role
    ensures r.Some? ==> forall j :: 0 <= j < r.value ==> counters[j].role != role
    ensures r.None? ==> forall j :: 0 <= j < |counters| ==> counters[j].role != role
  {
    if counters == [] then None
    else if counters[0].role == role then Some(0)
    else match FirstFor(counters[1..], role)
      case None => None
      case Some(k) => Some(k + 1)
  }

  /** The exceptions the role operations can raise. */
  datatype RoleError =
    | NoRolesConfigured     // the available-roles asset is missing
    | NoAssistantCounter    // Assistant is due but there is no Assistant counter
    | PlayerAlreadyMapped   // the player already has a role in the map
    | NoMatchingCounter     // no counter has the player's recorded role

  /** The subsystem's state: the counters and the player-to-role map. */
  datatype RoleState = RoleState(counters: seq<RoleCounter>, rolePlayers: map<Player, RoleData>)

  /** The state after a step, and the exception it raised if any. */
  datatype RoleStep = RoleStep(state: RoleState, error: Option<RoleError>)

  /** Security is due when a Security counter exists and still has a place. */
  function SecurityHasPlace(counters: seq<RoleCounter>): bool {
    var security := FirstNamed(counters, "Security");
    security.Some? && counters[security.value].CurrentRoles() != counters[security.value].availableRoles
  }

  /**
   * Adds `player` to the Security counter if it has a place, else to the Assistant counter,
   * then records the counter's role for the player. The counter is updated before the map
   * rejects a player already in it.
   */
  function AssignRole(st: RoleState, player: Player): (r: RoleStep)
    ensures r.error.None? ==> player !in st.rolePlayers && player in r.state.rolePlayers
  {
    var target := if SecurityHasPlace(st.counters) then FirstNamed(st.counters, "Security")
                  else FirstNamed(st.counters, "Assistant");
    match target
    case None => RoleStep(st, Some(NoAssistantCounter))
    case Some(k) =>
      var counters := st.counters[k := st.counters[k].AddPlayer(player)];
      if player in st.rolePlayers then RoleStep(RoleState(counters, st.rolePlayers), Some(PlayerAlreadyMapped))
      else RoleStep(RoleState(counters, st.rolePlayers[player := st.counters[k].role]), None)
  }

  /**
   * Removal as written: the map lookup always yields a pair, the default one (with no role)
   * for a player who is not in the map, and no counter has "no role", so that player makes
   * the counter lookup throw.
   */
  function RemoveFromCountersAsWritten(st: RoleState, player: Player): (r: RoleStep)
    ensures player !in st.rolePlayers ==> r == RoleStep(st, Some(NoMatchingCounter))
    ensures r.state.rolePlayers == st.rolePlayers
  {
    if player !in st.rolePlayers then RoleStep(st, Some(NoMatchingCounter))
    else RemoveRecorded(st, player)
  }

  /** Removal as intended: a player with no recorded role leaves everything as it is. */
  function RemoveFromCounters(st: RoleState, player: Player): (r: RoleStep)
    ensures r.state.rolePlayers == st.rolePlayers
    ensures player !in st.rolePlayers ==> r == RoleStep(st, None)
  {
    if player !in st.rolePlayers then RoleStep(st, None)
    else RemoveRecorded(st, player)
  }

  /** Removes a mapped player from the first counter of their recorded role; the map keeps the entry. */
  function RemoveRecorded(st: RoleState, player: Player): (r: RoleStep)
    requires player in st.rolePlayers
    ensures r.state.rolePlayers == st.rolePlayers
  {
    match FirstFor(st.counters, st.rolePlayers[player])
    case None => RoleStep(st, Some(NoMatchingCounter))
    case Some(k) => RoleStep(RoleState(st.counters[k := st.counters[k].RemovePlayer(player)], st.rolePlayers), None)
  }

  /** The kinds of change to the online players. */
  datatype ChangeType = Addition | Removal | OtherChange

  /** A change to the online players, and whether it is seen as the server. */
  datatype OnlinePlayersChanged = OnlinePlayersChanged(asServer: bool, changeType: ChangeType, changedPlayer: Player)

  /** The event handler: only server-side additions and removals do anything. */
  function HandleChange(st: RoleState, e: OnlinePlayersChanged): RoleStep {
    if !e.asServer then RoleStep(st, None)
    else if e.changeType == Addition then AssignRole(st, e.changedPlayer)
    else if e.changeType == Removal then RemoveFromCounters(st, e.changedPlayer)
    else RoleStep(st, None)
  }

  /** The state after a sequence of events; an exception leaves the state it reached. */
  function HandleAll(st: RoleState, events: seq<OnlinePlayersChanged>): RoleState
    decreases |events|
  {
    if events == [] then st else HandleAll(HandleChange(st, events[0]).state, events[1..])
  }

  /** The event handler as written, with the removal that throws for a player with no role. */
  function HandleChangeAsWritten(st: RoleState, e: OnlinePlayersChanged): RoleStep {
    if !e.asServer then RoleStep(st, None)
    else if e.changeType == Addition then AssignRole(st, e.changedPlayer)
    else if e.changeType == Removal then RemoveFromCountersAsWritten(st, e.changedPlayer)
    else RoleStep(st, None)
  }

  /** `HandleAll` with the handler as written. */
  function HandleAllAsWritten(st: RoleState, events: seq<OnlinePlayersChanged>): RoleState
    decreases |events|
  {
    if events == [] then st else HandleAllAsWritten(HandleChangeAsWritten(st, events[0]).state, events[1..])
  }

  /** The Security counter never holds more players than it has places. */
  predicate SecurityWithinPlaces(counters: seq<RoleCounter>) {
    var security := FirstNamed(counters, "Security");
    security.Some? ==> 0 <= counters[security.value].CurrentRoles() <= counters[security.value].availableRoles
  }

  // ---------------------------------------------------------------------------
  // Properties
  // ---------------------------------------------------------------------------

  /** One counter per configured role, in order, with its role and places copied and nobody in it. */
  lemma CountersFollowConfiguration(roles: seq<RolesData>)
    ensures |CountersFor(roles)| == |roles|
    ensures forall i :: 0 <= i < |roles| ==>
      CountersFor(roles)[i].role == roles[i].data && CountersFor(roles)[i].availableRoles == roles[i].availableRoles
      && CountersFor(roles)[i].CurrentRoles() == 0
  {
  }

  /** Fresh counters keep Security within its places when no role has a negative number of places. */
  lemma FreshCountersWithinPlaces(roles: seq<RolesData>)
    requires forall i :: 0 <= i < |roles| ==> roles[i].availableRoles >= 0
    ensures SecurityWithinPlaces(CountersFor(roles))
  {
  }

  /**
   * A joining player gets Assistant when there is no Security counter or it is full, and
   * Security otherwise; on success the map gains exactly that player with that counter's
   * role, that counter gains the player, and no other counter changes.
   */
  lemma AssignRoleChoosesCounter(st: RoleState, player: Player)
    requires player !in st.rolePlayers
    ensures var r := AssignRole(st, player);
      var k := if SecurityHasPlace(st.counters) then FirstNamed(st.counters, "Security")
               else FirstNamed(st.counters, "Assistant");
      && (k.None? <==> r.error == Some(NoAssistantCounter))
      && (k.Some? ==>
            && r.error.None?
            && st.counters[k.value].role.name == (if SecurityHasPlace(st.counters) then "Security" else "Assistant")
            && r.state.rolePlayers == st.rolePlayers[player := st.counters[k.value].role]
            && |r.state.counters| == |st.counters|
            && r.state.counters[k.value].players == st.counters[k.value].players + [player]
            && forall j :: 0 <= j < |st.counters| && j != k.value ==> r.state.counters[j] == st.counters[j])
  {
  }

  /** A player already in the map is refused, after being added to a counter. */
  lemma AssignMappedPlayerFails(st: RoleState, player: Player)
    requires player in st.rolePlayers
    requires SecurityHasPlace(st.counters) || FirstNamed(st.counters, "Assistant").Some?
    ensures AssignRole(st, player).error == Some(PlayerAlreadyMapped)
    ensures AssignRole(st, player).state.rolePlayers == st.rolePlayers
  {
  }

  /** Assignment never takes the Security counter past its places. */
  lemma {:induction false} AssignKeepsSecurityWithinPlaces(st: RoleState, player: Player)
    requires SecurityWithinPlaces(st.counters)
    ensures SecurityWithinPlaces(AssignRole(st, player).state.counters)
  {
    var r := AssignRole(st, player);
    var s := FirstNamed(st.counters, "Security");
    var k := if SecurityHasPlace(st.counters) then s else FirstNamed(st.counters, "Assistant");
    if k.Some? {
      SameNamesAfterUpdate(st.counters, k.value, st.counters[k.value].AddPlayer(player), "Security");
    }
  }

  /** Removal never takes the Security counter past its places. */
  lemma {:induction false} RemoveKeepsSecurityWithinPlaces(st: RoleState, player: Player)
    requires SecurityWithinPlaces(st.counters)
    ensures SecurityWithinPlaces(RemoveFromCounters(st, player).state.counters)
  {
    if player in st.rolePlayers {
      var k := FirstFor(st.counters, st.rolePlayers[player]);
      if k.Some? {
        var c := st.counters[k.value];
        SameNamesAfterUpdate(st.counters, k.value, c.RemovePlayer(player), "Security");
      }
    }
  }

  /** Replacing a counter by one for the same role keeps which counter is first with a name. */
  lemma {:induction false} SameNamesAfterUpdate(counters: seq<RoleCounter>, k: nat, c: RoleCounter, name: string)
    requires k < |counters| && c.role == counters[k].role
    ensures FirstNamed(counters[k := c], name) == FirstNamed(counters, name)
    decreases |counters|
  {
    if k > 0 {
      assert counters[k := c][1..] == counters[1..][k - 1 := c];
      SameNamesAfterUpdate(counters[1..], k - 1, c, name);
    }
  }

  /** Whatever the events, Security stays within its places. */
  lemma {:induction false} EventsKeepSecurityWithinPlaces(st: RoleState, events: seq<OnlinePlayersChanged>)
    requires SecurityWithinPlaces(st.counters)
    ensures SecurityWithinPlaces(HandleAll(st, events).counters)
    decreases |events|
  {
    if events != [] {
      var e := events[0];
      if e.asServer && e.changeType == Addition {
        AssignKeepsSecurityWithinPlaces(st, e.changedPlayer);
      } else if e.asServer && e.changeType == Removal {
        RemoveKeepsSecurityWithinPlaces(st, e.changedPlayer);
      }
      EventsKeepSecurityWithinPlaces(HandleChange(st, e).state, events[1..]);
    }
  }

  /** Roles are never taken back: every mapped player stays mapped to the same role. */
  lemma {:induction false} EventsNeverUnmap(st: RoleState, events: seq<OnlinePlayersChanged>)
    ensures forall p :: p in st.rolePlayers ==>
      p in HandleAll(st, events).rolePlayers && HandleAll(st, events).rolePlayers[p] == st.rolePlayers[p]
    decreases |events|
  {
    if events != [] {
      EventsNeverUnmap(HandleChange(st, events[0]).state, events[1..]);
    }
  }

  /** As written, a player with no recorded role makes removal throw. */
  lemma RemoveUnmappedPlayerThrows(st: RoleState, player: Player)
    requires player !in st.rolePlayers
    ensures RemoveFromCountersAsWritten(st, player).error == Some(NoMatchingCounter)
  {
  }

  /** A concrete case: the first player of a fresh server leaves before any role was given. */
  lemma RemoveUnmappedPlayerExample()
    ensures var st := RoleState(CountersFor([RolesData(RoleData("Assistant"), 10)]), map[]);
      && RemoveFromCountersAsWritten(st, Player(0)).error == Some(NoMatchingCounter)
      && RemoveFromCounters(st, Player(0)) == RoleStep(st, None)
  {
  }

  /**
   * Removing a mapped player takes them out of the first counter for their recorded role
   * and changes no other counter; with no such counter the lookup throws and nothing changes.
   */
  lemma RemoveTakesPlayerOutOfTheirCounter(st: RoleState, player: Player)
    requires player in st.rolePlayers
    ensures var r := RemoveFromCounters(st, player);
      var k := FirstFor(st.counters, st.rolePlayers[player]);
      && (k.None? <==> r.error == Some(NoMatchingCounter))
      && (k.None? ==> r.state == st)
      && (k.Some? ==>
            && r.error.None?
            && |r.state.counters| == |st.counters|
            && r.state.counters[k.value].role == st.rolePlayers[player]
            && r.state.counters[k.value].players == RemoveFirst(st.counters[k.value].players, player)
            && forall j :: 0 <= j < |st.counters| && j != k.value ==> r.state.counters[j] == st.counters[j])
  {
  }

  /** The two removals differ only in the exception: they leave the same state. */
  lemma RemovalsLeaveSameState(st: RoleState, player: Player)
    ensures RemoveFromCountersAsWritten(st, player).state == RemoveFromCounters(st, player).state
  {
  }

  /**
   * Since an exception leaves the state it reached, the handler as written reaches the same
   * state as the corrected one over any events, so the event lemmas hold of it too.
   */
  lemma {:induction false} AsWrittenEventsReachSameState(st: RoleState, events: seq<OnlinePlayersChanged>)
    ensures HandleAllAsWritten(st, events) == HandleAll(st, events)
    decreases |events|
  {
    if events != [] {
      RemovalsLeaveSameState(st, events[0].changedPlayer);
      assert HandleChangeAsWritten(st, events[0]).state == HandleChange(st, events[0]).state;
      AsWrittenEventsReachSameState(HandleChange(st, events[0]).state, events[1..]);
    }
  }

  /** Both removals agree on every player who has a recorded role. */
  lemma RemovalsAgreeOnMappedPlayers(st: RoleState, player: Player)
    requires player in st.rolePlayers
    ensures RemoveFromCountersAsWritten(st, player) == RemoveFromCounters(st, player)
  {
  }

  class RoleSubSystem {
    /** The configured roles; `None` when the asset is missing. */
    const rolesAvailable: Option<seq<RolesData>>
    var roleCounters: seq<RoleCounter>
    var rolePlayers: map<Player, RoleData>

    function State(): RoleState
      reads this
    {
      RoleState(roleCounters, rolePlayers)
    }

    constructor (rolesAvailable: Option<seq<RolesData>>)
      ensures this.rolesAvailable == rolesAvailable && roleCounters == [] && rolePlayers == map[]
    {
      this.rolesAvailable := rolesAvailable;
      roleCounters := [];
      rolePlayers := map[];
    }

    /** Appends one empty counter per configured role; with no configuration it fails and changes nothing. */
    method GetAvailableRoles() returns (error: Option<RoleError>)
      modifies this`roleCounters
      ensures rolesAvailable.None? ==> error == Some(NoRolesConfigured) && roleCounters == old(roleCounters)
      ensures rolesAvailable.Some? ==> error.None? && roleCounters == old(roleCounters) + CountersFor(rolesAvailable.value)
    {
      if rolesAvailable.None? {
        return Some(NoRolesConfigured);
      }
      var roles := rolesAvailable.value;
      ghost var before := roleCounters;
      for i := 0 to |roles|
        invariant roleCounters == before + CountersFor(roles[..i])
      {
        var roleCounter := RoleCounter(roles[i].data, roles[i].availableRoles, []);
        assert CountersFor(roles[..i + 1]) == CountersFor(roles[..i]) + [roleCounter];
        roleCounters := roleCounters + [roleCounter];
      }
      assert roles[..|roles|] == roles;
      error := None;
    }

    /** Gives `player` a role (Security while it has places, else Assistant) and records it. */
    method AssignPlayerRole(player: Player) returns (error: Option<RoleError>)
      modifies this`roleCounters, this`rolePlayers
      ensures RoleStep(State(), error) == AssignRole(old(State()), player)
    {
      var assistantRole := FirstNamed(roleCounters, "Assistant");
      var securityRole := FirstNamed(roleCounters, "Security");
      var k: nat;
      if securityRole.None? || roleCounters[securityRole.value].CurrentRoles() == roleCounters[securityRole.value].availableRoles {
        if assistantRole.None? {
          return Some(NoAssistantCounter);
        }
        k := assistantRole.value;
      } else {
        k := securityRole.value;
      }
      var counter := roleCounters[k];
      roleCounters := roleCounters[k := counter.AddPlayer(player)];
      if player in rolePlayers {
        return Some(PlayerAlreadyMapped);
      }
      rolePlayers := rolePlayers[player := counter.role];
      error := None;
    }

    /** Takes `player` out of the counter of their recorded role; a player with no role is left alone. */
    method RemovePlayerFromCounters(player: Player) returns (error: Option<RoleError>)
      modifies this`roleCounters
      ensures RoleStep(State(), error) == RemoveFromCounters(old(State()), player)
    {
      if player !in rolePlayers {
        return None;
      }
      var roleData := rolePlayers[player];
      var k := FirstFor(roleCounters, roleData);
      if k.None? {
        return Some(NoMatchingCounter);
      }
      roleCounters := roleCounters[k.value := roleCounters[k.value].RemovePlayer(player)];
      error := None;
    }

    /** Reacts to a change of the online players. */
    method HandleOnlinePlayersChanged(e: OnlinePlayersChanged) returns (error: Option<RoleError>)
      modifies this`roleCounters, this`rolePlayers
      ensures RoleStep(State(), error) == HandleChange(old(State()), e)
    {
      if !e.asServer {
        return None;
      }
      if e.changeType == Addition {
        error := AssignPlayerRole(e.changedPlayer);
      } else if e.changeType == Removal {
        error := RemovePlayerFromCounters(e.changedPlayer);
      } else {
        error := None;
      }
    }
  }
}
