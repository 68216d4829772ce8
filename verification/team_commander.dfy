/**
 A model of the team commander: an AI controller that remembers, per enemy team, the
 entities it has seen spawn, and hands them out as targets.

 The commander's state is a list indexed by team id. Entry t is a LIFO stack of weak
 references to entities of team t; the top of the stack is the LAST element of the sequence.
 A weak reference is modelled by the entity it points to; whether it has expired is asked of a
 liveness oracle, the set `live` of ids of entities that still exist at the time of the call.
 */
module TeamCommander {
  import opened Wrappers
  import opened Native

  type EntityId = nat
  type TeamId = nat

  /** A spawned world entity as the commander sees it: its identity and, when the entity has a
      team component, the team recorded there. */
  datatype Entity = Entity(id: EntityId, team: Option<TeamId>)

  /** `cachedTeamId` is the commander's own team as it remembers it; `componentTeam` is the team
      stored in the commander's own team component. The constructor sets both. */
  datatype Commander = Commander(cachedTeamId: TeamId, componentTeam: TeamId, pending: seq<seq<Entity>>)

  /** The stack of team t, where a team beyond the end of the list has an empty stack. */
  function StackOf(pending: seq<seq<Entity>>, t: TeamId): seq<Entity> {
    if t < |pending| then pending[t] else []
  }

  function Max(a: nat, b: nat): nat {
    if a < b then b else a
  }

  /** Every entity in the stack of team t was on team t when it was pushed. */
  predicate StacksHoldTheirTeam(pending: seq<seq<Entity>>) {
    forall t, k :: 0 <= t < |pending| && 0 <= k < |pending[t]| ==> pending[t][k].team == Some(t)
  }

  /** The commander invariant: its two records of its own team agree, its own team's stack is
      empty, and every stack holds only entities of its own index. */
  predicate Valid(c: Commander) {
    && c.cachedTeamId == c.componentTeam
    && StackOf(c.pending, c.cachedTeamId) == []
    && StacksHoldTheirTeam(c.pending)
  }

  /** No entity of s is alive. */
  predicate AllExpired(s: seq<Entity>, live: set<EntityId>) {
    forall k :: 0 <= k < |s| ==> s[k].id !in live
  }

  /** The constructor: the team component and the cached id both receive `team`. */
  function Create(team: TeamId): (c: Commander)
    ensures Valid(c)
    ensures c.cachedTeamId == team && c.componentTeam == team
    ensures forall t: TeamId :: StackOf(c.pending, t) == []
  {
    Commander(team, team, [])
  }

  /** Whether a spawn notification is recorded: the entity has a team component and its team
      differs from the team in the commander's own component. */
  predicate Accepts(c: Commander, e: Entity) {
    e.team.Some? && e.team.value != c.componentTeam
  }

  /** `resize(size)` when the list is shorter than `size`: new entries are empty stacks. */
  function Grow(pending: seq<seq<Entity>>, size: nat): (r: seq<seq<Entity>>)
    ensures |r| == Max(|pending|, size)
    ensures forall t: TeamId :: StackOf(r, t) == StackOf(pending, t)
  {
    if |pending| < size then pending + seq(size - |pending|, _ => []) else pending
  }

  /** handleEntitySpawned: push an accepted entity on the stack of its team, growing the list
      when the team id is beyond its end. */
  function HandleEntitySpawned(c: Commander, e: Entity): (r: Commander)
    ensures r.cachedTeamId == c.cachedTeamId && r.componentTeam == c.componentTeam
    ensures !Accepts(c, e) ==> r == c
    ensures Accepts(c, e) ==> |r.pending| == Max(|c.pending|, e.team.value + 1)
    ensures Accepts(c, e) ==>
              forall t: TeamId :: StackOf(r.pending, t) ==
                          if t == e.team.value then StackOf(c.pending, t) + [e] else StackOf(c.pending, t)
    ensures Valid(c) ==> Valid(r)
  {
    if Accepts(c, e) then
      var t := e.team.value;
      var grown := Grow(c.pending, t + 1);
      assert StackOf(grown, t) == grown[t];
      c.(pending := grown[t := grown[t] + [e]])
    else
      c
  }

  /** The loop of getTargetOnTeam: pop the top of the stack until an entity that is still alive
      has been popped or the stack is empty. Returns that entity, if any, and what is left. */
  function PopToLive(s: seq<Entity>, live: set<EntityId>): (r: (Option<Entity>, seq<Entity>))
    ensures |r.1| <= |s| && r.1 == s[..|r.1|]
    ensures r.0.Some? ==> |r.1| < |s| && s[|r.1|] == r.0.value && r.0.value.id in live
    ensures r.0.Some? ==> AllExpired(s[|r.1| + 1..], live)
    ensures r.0.None? ==> r.1 == [] && AllExpired(s, live)
    decreases |s|
  {
    if s == [] then (None, [])
    else
      var top := s[|s| - 1];
      if top.id in live then (Some(top), s[..|s| - 1])
      else PopToLive(s[..|s| - 1], live)
  }

  /** getTargetOnTeam(team): a team beyond the end of the list yields no target and changes
      nothing; otherwise the stack of that team is popped as PopToLive describes. */
  function GetTargetOnTeam(c: Commander, team: TeamId, live: set<EntityId>): (r: (Option<Entity>, Commander))
    ensures team >= |c.pending| ==> r == (None, c)
    ensures r.1.cachedTeamId == c.cachedTeamId && r.1.componentTeam == c.componentTeam
    ensures |r.1.pending| == |c.pending|
    ensures forall t: TeamId :: t != team ==> StackOf(r.1.pending, t) == StackOf(c.pending, t)
    ensures (r.0, StackOf(r.1.pending, team)) == PopToLive(StackOf(c.pending, team), live)
    ensures r.0.Some? ==> r.0.value.id in live && r.0.value in StackOf(c.pending, team)
    ensures r.0.None? ==> StackOf(r.1.pending, team) == []
    ensures Valid(c) ==> Valid(r.1)
    ensures Valid(c) && r.0.Some? ==> r.0.value.team == Some(team) && team != c.cachedTeamId
  {
    if team < |c.pending| then
      var popped := PopToLive(c.pending[team], live);
      var r := (popped.0, c.(pending := c.pending[team := popped.1]));
      assert StackOf(r.1.pending, team) == popped.1;
      assert popped.0.Some? ==> popped.0.value == c.pending[team][|popped.1|];
      r
    else
      (None, c)
  }

  /** Team u was scanned and gave nothing: it held no live entity and is now empty. */
  ghost predicate Drained(c: Commander, c': Commander, u: TeamId, live: set<EntityId>) {
    StackOf(c'.pending, u) == [] && AllExpired(StackOf(c.pending, u), live)
  }

  /** `e` was found on team t by the ascending scan: every other team below t was drained, t was
      popped as PopToLive describes, and no team above t was touched. */
  ghost predicate FirstHit(c: Commander, c': Commander, t: TeamId, live: set<EntityId>, e: Entity) {
    && PopToLive(StackOf(c.pending, t), live) == (Some(e), StackOf(c'.pending, t))
    && (forall u: TeamId :: u < t && u != c.cachedTeamId ==> Drained(c, c', u, live))
    && (forall u: TeamId :: t < u ==> StackOf(c'.pending, u) == StackOf(c.pending, u))
  }

  /** getTarget: scan team ids upwards, skip the commander's own team, return the first target. */
  method GetTarget(c: Commander, live: set<EntityId>) returns (target: Option<Entity>, c': Commander)
    ensures c'.cachedTeamId == c.cachedTeamId && c'.componentTeam == c.componentTeam
    ensures |c'.pending| == |c.pending|
    ensures StackOf(c'.pending, c.cachedTeamId) == StackOf(c.pending, c.cachedTeamId)
    ensures target.Some? ==> target.value.id in live
    ensures target.Some? ==>
              exists t: TeamId :: t < |c.pending| && t != c.cachedTeamId && FirstHit(c, c', t, live, target.value)
    ensures target.None? ==> forall u: TeamId :: u != c.cachedTeamId ==> Drained(c, c', u, live)
    ensures Valid(c) ==> Valid(c')
    ensures Valid(c) && target.Some? ==> target.value.team.Some? && target.value.team.value != c.cachedTeamId
  {
    c' := c;
    var teamId := 0;
    while teamId < |c'.pending|
      invariant teamId <= |c'.pending| == |c.pending|
      invariant c'.cachedTeamId == c.cachedTeamId && c'.componentTeam == c.componentTeam
      invariant forall u: TeamId :: teamId <= u ==> StackOf(c'.pending, u) == StackOf(c.pending, u)
      invariant forall u: TeamId :: u < teamId && u != c.cachedTeamId ==> Drained(c, c', u, live)
      invariant StackOf(c'.pending, c.cachedTeamId) == StackOf(c.pending, c.cachedTeamId)
      invariant Valid(c) ==> Valid(c')
    {
      if teamId != c.cachedTeamId {
        var found := GetTargetOnTeam(c', teamId, live);
        forall u: TeamId | u < teamId && u != c.cachedTeamId
          ensures Drained(c, found.1, u, live)
        {
          assert Drained(c, c', u, live);
        }
        if found.0.Some? {
          target := found.0;
          c' := found.1;
          assert FirstHit(c, c', teamId, live, target.value);
          return;
        }
        assert Drained(c, found.1, teamId, live);
        c' := found.1;
      }
      teamId := teamId + 1;
    }
    target := None;
  }

  /** postConstruct's replay: every entity already in the level goes through
      handleEntitySpawned, in the level's order. */
  function Replay(c: Commander, spawned: seq<Entity>): (r: Commander)
    ensures r.cachedTeamId == c.cachedTeamId && r.componentTeam == c.componentTeam
    ensures |r.pending| >= |c.pending|
    ensures Valid(c) ==> Valid(r)
    decreases |spawned|
  {
    if spawned == [] then c else Replay(HandleEntitySpawned(c, spawned[0]), spawned[1..])
  }

  /** postConstruct: when the current level is a space level (`Some` of its world entities) the
      commander replays them; otherwise nothing happens. The subscription to later spawns is the
      caller's business: each later notification is one HandleEntitySpawned. */
  function PostConstruct(c: Commander, spaceLevelEntities: Option<seq<Entity>>): (r: Commander)
    ensures spaceLevelEntities.None? ==> r == c
    ensures r.cachedTeamId == c.cachedTeamId && r.componentTeam == c.componentTeam
    ensures |r.pending| >= |c.pending|
    ensures forall t: TeamId :: spaceLevelEntities.Some? && t != c.componentTeam ==>
              StackOf(r.pending, t) == StackOf(c.pending, t) + OnTeam(spaceLevelEntities.value, t)
    ensures forall t: TeamId :: t == c.componentTeam ==> StackOf(r.pending, t) == StackOf(c.pending, t)
    ensures Valid(c) ==> Valid(r)
  {
    match spaceLevelEntities
    case None => c
    case Some(es) =>
      forall t ensures StackOf(Replay(c, es).pending, t) ==
                       StackOf(c.pending, t) + (if t == c.componentTeam then [] else OnTeam(es, t)) {
        ReplayStacks(c, es, t);
      }
      Replay(c, es)
  }

  /** The entities of `spawned` on team t, in spawn order: an independent description of what
      replaying `spawned` pushes on the stack of t. */
  function OnTeam(spawned: seq<Entity>, t: TeamId): (r: seq<Entity>)
    ensures |r| <= |spawned|
    ensures forall k :: 0 <= k < |r| ==> r[k].team == Some(t) && r[k] in spawned
    decreases |spawned|
  {
    if spawned == [] then []
    else (if spawned[0].team == Some(t) then [spawned[0]] else []) + OnTeam(spawned[1..], t)
  }

  /** One spawn notification adds the entity on top of the stack of its team, when accepted,
      and leaves the stack of every other team as it was. */
  lemma SpawnPushesOnItsTeam(c: Commander, e: Entity, t: TeamId)
    ensures StackOf(HandleEntitySpawned(c, e).pending, t) ==
            StackOf(c.pending, t) + (if e.team == Some(t) && t != c.componentTeam then [e] else [])
  {
  }

  /** Replaying a list of spawns pushes, on the stack of every team other than the commander's
      own, exactly the entities of that team in spawn order, and nothing on its own team. */
  lemma {:induction false} ReplayStacks(c: Commander, spawned: seq<Entity>, t: TeamId)
    ensures StackOf(Replay(c, spawned).pending, t) ==
            StackOf(c.pending, t) + (if t == c.componentTeam then [] else OnTeam(spawned, t))
    decreases |spawned|
  {
    if spawned != [] {
      var c1 := HandleEntitySpawned(c, spawned[0]);
      assert Replay(c, spawned) == Replay(c1, spawned[1..]);
      assert c1.componentTeam == c.componentTeam;
      ReplayStacks(c1, spawned[1..], t);
      SpawnPushesOnItsTeam(c, spawned[0], t);
      var before := StackOf(c.pending, t);
      var rest := if t == c.componentTeam then [] else OnTeam(spawned[1..], t);
      var head := if spawned[0].team == Some(t) && t != c.componentTeam then [spawned[0]] else [];
      assert (if t == c.componentTeam then [] else OnTeam(spawned, t)) == head + rest;
      assert before + head + rest == before + (head + rest);
    }
  }

  /** A spawn followed by a target request for that team, with nothing newer on the stack:
      the entity just pushed is the one handed out when it is still alive. */
  lemma SpawnThenTargetOnTeam(c: Commander, e: Entity, live: set<EntityId>)
    requires Accepts(c, e) && e.id in live
    ensures GetTargetOnTeam(HandleEntitySpawned(c, e), e.team.value, live).0 == Some(e)
    ensures StackOf(GetTargetOnTeam(HandleEntitySpawned(c, e), e.team.value, live).1.pending, e.team.value)
         == StackOf(c.pending, e.team.value)
  {
    var s := StackOf(HandleEntitySpawned(c, e).pending, e.team.value);
    assert s[..|s| - 1] == StackOf(c.pending, e.team.value);
  }

  /** On a valid commander no target ever comes from the commander's own team, whichever team
      is asked. */
  lemma NeverOwnTeam(c: Commander, team: TeamId, live: set<EntityId>)
    requires Valid(c)
    ensures GetTargetOnTeam(c, c.cachedTeamId, live) == (None, c)
    ensures GetTargetOnTeam(c, team, live).0.Some? ==>
              GetTargetOnTeam(c, team, live).0.value.team != Some(c.cachedTeamId)
  {
    var s := StackOf(c.pending, c.cachedTeamId);
    assert s == [];
    if c.cachedTeamId < |c.pending| {
      assert c.pending[c.cachedTeamId := []] == c.pending;
    }
  }

  // ---------------------------------------------------------------------------------------
  // size_t arithmetic in the two range tests. Team ids are size_t in the source, and both
  // `pendingTargetsByTeam.size() >= team + 1` and `... < spawnedTeam + 1` compute `team + 1`
  // modulo 2^64. The model above uses the intended tests `team < size` and
  // `size < team + 1` on unbounded naturals.
  // ---------------------------------------------------------------------------------------

  /** getTargetOnTeam's range test as written, in size_t arithmetic. */
  predicate InRangeAsWritten(size: nat, team: nat)
    requires team < SizeTModulus
  {
    size >= (team + 1) % SizeTModulus
  }

  /** handleEntitySpawned's growth test as written, in size_t arithmetic. */
  predicate GrowsAsWritten(size: nat, team: nat)
    requires team < SizeTModulus
  {
    size < (team + 1) % SizeTModulus
  }

  /** For team SIZE_MAX on an empty list both written tests disagree with the intended ones:
      the range test admits the team and the growth test does not grow the list, so both
      functions then index past the end of the list. */
  lemma SizeTMaxTeamIndexesPastEnd()
    ensures InRangeAsWritten(0, SizeTMax) && !(SizeTMax < 0)
    ensures !GrowsAsWritten(0, SizeTMax) && 0 < SizeTMax + 1
  {
  }

  /** For every team id below SIZE_MAX the written tests agree with the intended ones, which
      are the tests GetTargetOnTeam and HandleEntitySpawned use. */
  lemma WrittenTestsAgreeBelowSizeTMax(size: nat, team: nat)
    requires team < SizeTMax
    ensures InRangeAsWritten(size, team) <==> team < size
    ensures GrowsAsWritten(size, team) <==> size < team + 1
  {
  }
}
