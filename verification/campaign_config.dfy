/**
 A model of the campaign configuration: an ordered list of levels forming a directed graph
 (each level lists the positions of the levels it leads to), written to and read from a JSON
 tree, plus the file name under which a campaign is stored.
 */
module CampaignConfig {
  import opened Wrappers
  import opened Json
  import Decimal
  import opened Native


  /** The embedded space-level configuration, kept opaque: it is represented by the object
      members it writes into, and reads from, its level's JSON object. */
  datatype SpaceLevelConfig = SpaceLevelConfig(members: map<string, Json>)

  /** One level of the campaign. `outgoing` holds positions in the campaign's level list. */
  datatype LevelData = LevelData(
    name: string,
    tier: int,
    defaultPlanetIdx: int,
    planetSizeFactor: Float,
    outgoing: seq<SizeT>,
    spaceLevelConfig: Option<SpaceLevelConfig>)

  /** `fileName` is the key deserialisation looks under; `name` is the configuration's name,
      the key serialisation writes under. */
  datatype Config = Config(
    name: string,
    fileName: string,
    owningModDir: string,
    campaignIndex: SizeT,
    userFacingName: string,
    levels: seq<LevelData>)

  // The JSON keys: each is the spelling of the C++ expression whose value is stored under it.
  const UserFacingNameKey: string := "userFacingName"
  const LevelsKey: string := "levels"
  const NameKey: string := "level.name"
  const TierKey: string := "level.tier"
  const PlanetIdxKey: string := "level.optional_defaultPlanetIdx"
  const SizeFactorKey: string := "level.optional_ui_planetSizeFactor"
  const OutgoingKey: string := "level.outGoingPathIndices"

  /** The keys a level's own fields are stored under. */
  const LevelKeys: set<string> := {NameKey, TierKey, PlanetIdxKey, SizeFactorKey, OutgoingKey}

  /** The name postConstruct gives every campaign configuration as its file name. */
  const ConfigFileName: string := "CampaignConfig"

  /** A value-initialised `LevelData{}`: empty name, zero numbers, no paths, no space config. */
  const DefaultLevel: LevelData := LevelData("", 0, 0, Float(0), [], None)

  /** The level serialisation adds to an empty campaign: a fresh space config and a single path
      leading back to itself. */
  const TemplateLevel: LevelData :=
    DefaultLevel.(spaceLevelConfig := Some(SpaceLevelConfig(map[])), outgoing := [0])

  /** postConstruct: fixes the file name, nothing else. */
  function PostConstruct(c: Config): (r: Config)
    ensures r.fileName == ConfigFileName
    ensures r.(fileName := c.fileName) == c
  {
    c.(fileName := ConfigFileName)
  }

  // ------------------------------------------------------------------------------------------
  // The level graph
  // ------------------------------------------------------------------------------------------

  /** Every outgoing path of every level names a position in the list. Neither serialisation
      nor deserialisation checks this. */
  predicate WellFormedGraph(levels: seq<LevelData>) {
    forall l, k :: 0 <= l < |levels| && 0 <= k < |levels[l].outgoing| ==> levels[l].outgoing[k] < |levels|
  }

  // ------------------------------------------------------------------------------------------
  // Serialisation
  // ------------------------------------------------------------------------------------------

  /** The outgoing path list: `json{}` (null) followed by one push_back per index. */
  function EncodeIndices(xs: seq<SizeT>): (r: Json)
    ensures xs == [] <==> r.JNull?
    ensures xs != [] ==> r.JArray? && |r.items| == |xs|
    ensures xs != [] ==> forall k :: 0 <= k < |xs| ==> r.items[k] == JInt(xs[k])
  {
    PushAll(JNull, seq(|xs|, k requires 0 <= k < |xs| => JInt(xs[k])))
  }

  /** The JSON object of one level: its five fields, then whatever its space config writes,
      which may overwrite them. */
  function EncodeLevel(level: LevelData): (r: Json)
    ensures r.JObject? && LevelKeys <= r.members.Keys
    ensures level.spaceLevelConfig.None? || level.spaceLevelConfig.value.members.Keys !! LevelKeys ==>
      && r.members[NameKey] == JString(level.name)
      && r.members[TierKey] == JInt(level.tier)
      && r.members[PlanetIdxKey] == JInt(level.defaultPlanetIdx)
      && r.members[SizeFactorKey] == JFloat(level.planetSizeFactor)
      && r.members[OutgoingKey] == EncodeIndices(level.outgoing)
  {
    var own := map[
      NameKey := JString(level.name),
      TierKey := JInt(level.tier),
      PlanetIdxKey := JInt(level.defaultPlanetIdx),
      SizeFactorKey := JFloat(level.planetSizeFactor),
      OutgoingKey := EncodeIndices(level.outgoing)];
    match level.spaceLevelConfig
    case None => JObject(own)
    case Some(config) => JObject(own + config.members)
  }

  /** The levels array: one push_back per level, in list order. */
  function EncodeLevels(levels: seq<LevelData>): (r: Json)
    ensures levels == [] <==> r.JNull?
    ensures levels != [] ==> r.JArray? && |r.items| == |levels|
    ensures levels != [] ==> forall l :: 0 <= l < |levels| ==> r.items[l] == EncodeLevel(levels[l])
  {
    PushAll(JNull, seq(|levels|, l requires 0 <= l < |levels| => EncodeLevel(levels[l])))
  }

  /** Writing into a value that is not null, an object or an array throws. */
  datatype WriteError = NotAContainer(target: Json)

  /** The two-element array `[key, value]` the brace list `{key, value}` becomes when it is not
      taken as an object member. */
  function Pair(key: string, value: Json): Json {
    JArray([JString(key), value])
  }

  /** `outData.push_back({key, value})`. Only an object takes the brace list as a member, and
      keeps an existing member of that name as it was. Null and an array take it as the array
      `[key, value]`: null becomes a one-element array holding it, an array gets it appended. */
  function InsertMember(out: Json, key: string, value: Json): (r: Result<Json, WriteError>)
    ensures r.Success? <==> out.JNull? || out.JObject? || out.JArray?
    ensures r.Success? && out.JObject? ==>
              r.value.JObject? && Member(r.value, key) == Some(if Has(out, key) then out.members[key] else value)
    ensures r.Success? && out.JObject? ==> r.value.members.Keys == out.members.Keys + {key}
    ensures r.Success? && out.JObject? ==> forall k :: k in out.members ==> r.value.members[k] == out.members[k]
    ensures r.Success? && !out.JObject? ==>
              r.value.JArray? && r.value.items == (if out.JArray? then out.items else []) + [Pair(key, value)]
    ensures r.Success? && !out.JObject? ==> !Has(r.value, key)
  {
    match out
    case JNull | JArray(_) => Success(PushBack(out, Pair(key, value)))
    case JObject(m) => Success(if key in m then out else JObject(m[key := value]))
    case _ => Failure(NotAContainer(out))
  }

  /** onSerialize: an empty campaign first receives the template level (so the configuration
      itself changes); then the campaign object is written under the configuration's name. */
  function Serialize(c: Config, out: Json): (r: (Config, Result<Json, WriteError>))
    ensures |r.0.levels| >= 1
    ensures c.levels == [] ==> r.0.levels == [TemplateLevel]
    ensures c.levels != [] ==> r.0 == c
    ensures r.0.(levels := c.levels) == c
    ensures r.1.Success? <==> out.JNull? || out.JObject? || out.JArray?
    ensures r.1.Success? && out.JObject? && !Has(out, c.name) ==>
              Member(r.1.value, c.name) == Some(CampaignJson(r.0))
    ensures out.JNull? ==> r.1 == Success(JArray([Pair(c.name, CampaignJson(r.0))]))
    ensures r.1 == InsertMember(out, c.name, CampaignJson(r.0))
  {
    var c' := if c.levels == [] then c.(levels := [TemplateLevel]) else c;
    (c', InsertMember(out, c.name, CampaignJson(c')))
  }

  /** The campaign object: the user-facing name and the levels array. */
  function CampaignJson(c: Config): (r: Json)
    ensures r.JObject? && r.members.Keys == {UserFacingNameKey, LevelsKey}
    ensures r.members[UserFacingNameKey] == JString(c.userFacingName)
    ensures r.members[LevelsKey] == EncodeLevels(c.levels)
  {
    JObject(map[UserFacingNameKey := JString(c.userFacingName), LevelsKey := EncodeLevels(c.levels)])
  }

  // ------------------------------------------------------------------------------------------
  // Deserialisation
  // ------------------------------------------------------------------------------------------

  /** READ_JSON_STRING: a string member replaces the current value; otherwise it stays. */
  function ReadString(j: Json, key: string, current: string): (r: string)
    ensures Member(j, key).Some? && Member(j, key).value.JString? ==> r == Member(j, key).value.s
    ensures !(Member(j, key).Some? && Member(j, key).value.JString?) ==> r == current
  {
    match Member(j, key)
    case Some(JString(s)) => s
    case _ => current
  }

  /** READ_JSON_INT and READ_JSON_INT_OPTIONAL: an integer member replaces the current value. */
  function ReadInt(j: Json, key: string, current: int): (r: int)
    ensures Member(j, key).Some? && Member(j, key).value.JInt? ==> r == Member(j, key).value.i
    ensures !(Member(j, key).Some? && Member(j, key).value.JInt?) ==> r == current
  {
    match Member(j, key)
    case Some(JInt(i)) => i
    case _ => current
  }

  /** READ_JSON_FLOAT_OPTIONAL: a floating-point member replaces the current value. */
  function ReadFloat(j: Json, key: string, current: Float): (r: Float)
    ensures Member(j, key).Some? && Member(j, key).value.JFloat? ==> r == Member(j, key).value.f
    ensures !(Member(j, key).Some? && Member(j, key).value.JFloat?) ==> r == current
  {
    match Member(j, key)
    case Some(JFloat(f)) => f
    case _ => current
  }

  /** Converting an element of the outgoing array to size_t throws unless it is a number or
      a boolean. `level` is the level's position and `path` the position of an element that
      does not convert: the last such element, where the program stops at the first. */
  datatype ReadError = NotAnIndex(level: nat, path: nat)

  /** `size_t(json)`: integers wrap modulo 2^64, booleans become 0 or 1. */
  function ToSizeT(j: Json): (r: Option<SizeT>)
    ensures r.Some? <==> j.JInt? || j.JBool?
    ensures j.JInt? && 0 <= j.i < SizeTModulus ==> r == Some(j.i)
    ensures j.JInt? ==> r.Some? && r.value == j.i % SizeTModulus && (r.value - j.i) % SizeTModulus == 0
    ensures j.JBool? ==> r == Some(if j.b then 1 else 0)
  {
    match j
    case JInt(i) => Some(i % SizeTModulus)
    case JBool(b) => Some(if b then 1 else 0)
    case _ => None
  }

  /** The outgoing indices of the level at position `level`, in array order. */
  function DecodeIndices(items: seq<Json>, level: nat): (r: Result<seq<SizeT>, ReadError>)
    ensures r.Success? <==> forall k :: 0 <= k < |items| ==> ToSizeT(items[k]).Some?
    ensures r.Success? ==> |r.value| == |items|
    ensures r.Success? ==> forall k :: 0 <= k < |items| ==> ToSizeT(items[k]) == Some(r.value[k])
    decreases |items|
  {
    if items == [] then Success([])
    else
      match ToSizeT(items[|items| - 1])
      case None => Failure(NotAnIndex(level, |items| - 1))
      case Some(x) =>
        match DecodeIndices(items[..|items| - 1], level)
        case Failure(e) => Failure(e)
        case Success(xs) => Success(xs + [x])
  }

  /** One level read from its JSON object into a fresh `LevelData{}`. The space config is
      created anew and reads the same object. Without an outgoing array the level has no paths;
      no index is compared with the number of levels. */
  function DecodeLevel(j: Json, level: nat): (r: Result<LevelData, ReadError>)
    ensures r.Success? ==> r.value.spaceLevelConfig == Some(SpaceLevelConfig(MembersOf(j)))
    ensures r.Success? ==> r.value.name == ReadString(j, NameKey, DefaultLevel.name)
    ensures r.Success? ==> r.value.tier == ReadInt(j, TierKey, DefaultLevel.tier)
    ensures r.Success? ==> r.value.defaultPlanetIdx == ReadInt(j, PlanetIdxKey, DefaultLevel.defaultPlanetIdx)
    ensures r.Success? ==> r.value.planetSizeFactor == ReadFloat(j, SizeFactorKey, DefaultLevel.planetSizeFactor)
    ensures !HasArray(j, OutgoingKey) ==> r.Success? && r.value.outgoing == []
    ensures HasArray(j, OutgoingKey) ==>
              (r.Success? <==> DecodeIndices(Member(j, OutgoingKey).value.items, level).Success?)
    ensures HasArray(j, OutgoingKey) && r.Success? ==>
              r.value.outgoing == DecodeIndices(Member(j, OutgoingKey).value.items, level).value
  {
    var outgoing :=
      if HasArray(j, OutgoingKey) then DecodeIndices(Member(j, OutgoingKey).value.items, level)
      else Success([]);
    match outgoing
    case Failure(e) => Failure(e)
    case Success(paths) => Success(LevelData(
      ReadString(j, NameKey, DefaultLevel.name),
      ReadInt(j, TierKey, DefaultLevel.tier),
      ReadInt(j, PlanetIdxKey, DefaultLevel.defaultPlanetIdx),
      ReadFloat(j, SizeFactorKey, DefaultLevel.planetSizeFactor),
      paths,
      Some(SpaceLevelConfig(MembersOf(j)))))
  }

  /** Every element of the levels array becomes one level, in array order. */
  function DecodeLevels(items: seq<Json>): (r: Result<seq<LevelData>, ReadError>)
    ensures r.Success? ==> |r.value| == |items|
    ensures r.Success? ==> forall l :: 0 <= l < |items| ==> DecodeLevel(items[l], l) == Success(r.value[l])
    ensures r.Success? <==> forall l :: 0 <= l < |items| ==> DecodeLevel(items[l], l).Success?
    decreases |items|
  {
    if items == [] then Success([])
    else
      var l := |items| - 1;
      match DecodeLevels(items[..l])
      case Failure(e) => Failure(e)
      case Success(front) =>
        match DecodeLevel(items[l], l)
        case Failure(e) => Failure(e)
        case Success(level) => Success(front + [level])
  }

  /** onDeserialize: read the campaign object stored under the file name. A missing or null
      object changes nothing; otherwise the user-facing name is read and, when a levels array
      is present, the old levels are replaced by the ones read from it. */
  function Deserialize(c: Config, input: Json): (r: Result<Config, ReadError>)
    ensures !Has(input, c.fileName) || Member(input, c.fileName).value.JNull? ==> r == Success(c)
    ensures r.Success? ==> r.value.(userFacingName := c.userFacingName, levels := c.levels) == c
    ensures r.Success? && Has(input, c.fileName) && !Member(input, c.fileName).value.JNull? ==>
              r.value.userFacingName == ReadString(Member(input, c.fileName).value, UserFacingNameKey, c.userFacingName)
    ensures !HasArray(Member(input, c.fileName).GetOr(JNull), LevelsKey) ==> r.Success? && r.value.levels == c.levels
    ensures HasArray(Member(input, c.fileName).GetOr(JNull), LevelsKey) ==>
              var items := Member(Member(input, c.fileName).value, LevelsKey).value.items;
              (r.Success? <==> DecodeLevels(items).Success?) &&
              (r.Success? ==> r.value.levels == DecodeLevels(items).value && |r.value.levels| == |items|)
  {
    match Member(input, c.fileName)
    case None => Success(c)
    case Some(campaign) =>
      if campaign.JNull? then Success(c)
      else
        var c' := c.(userFacingName := ReadString(campaign, UserFacingNameKey, c.userFacingName));
        if HasArray(campaign, LevelsKey) then
          match DecodeLevels(Member(campaign, LevelsKey).value.items)
          case Failure(e) => Failure(e)
          case Success(levels) => Success(c'.(levels := levels))
        else
          Success(c')
  }

  // ------------------------------------------------------------------------------------------
  // Round trip
  // ------------------------------------------------------------------------------------------

  /** A level without its opaque space config: the fields the round trip reproduces. */
  function Fields(level: LevelData): LevelData {
    level.(spaceLevelConfig := None)
  }

  /** No level's space config writes over one of the level's own keys. */
  predicate ConfigsKeepOffLevelKeys(levels: seq<LevelData>) {
    forall l :: 0 <= l < |levels| && levels[l].spaceLevelConfig.Some? ==>
      levels[l].spaceLevelConfig.value.members.Keys !! LevelKeys
  }

  /** A non-empty outgoing list reads back as written; an empty one is written as null and
      reads back as no paths (LevelRoundTrip). */
  lemma {:induction false} IndicesRoundTrip(xs: seq<SizeT>, level: nat)
    requires xs != []
    ensures DecodeIndices(EncodeIndices(xs).items, level) == Success(xs)
  {
    var items := EncodeIndices(xs).items;
    forall k | 0 <= k < |items|
      ensures ToSizeT(items[k]) == Some(xs[k])
    {
      assert items[k] == JInt(xs[k]);
    }
    var r := DecodeIndices(items, level);
    assert r.Success?;
    forall k | 0 <= k < |xs|
      ensures r.value[k] == xs[k]
    {
      assert ToSizeT(items[k]) == Some(r.value[k]);
    }
    assert r.value == xs;
  }

  /** A level reads back with the fields it was written with. */
  lemma LevelRoundTrip(level: LevelData, l: nat)
    requires level.spaceLevelConfig.None? || level.spaceLevelConfig.value.members.Keys !! LevelKeys
    ensures DecodeLevel(EncodeLevel(level), l).Success?
    ensures Fields(DecodeLevel(EncodeLevel(level), l).value) == Fields(level)
  {
    if level.outgoing != [] {
      IndicesRoundTrip(level.outgoing, l);
    }
  }

  /** The levels array reads back as one level per element, each with the fields it was
      written with. */
  lemma {:induction false} LevelsRoundTrip(levels: seq<LevelData>)
    requires levels != []
    requires ConfigsKeepOffLevelKeys(levels)
    ensures DecodeLevels(EncodeLevels(levels).items).Success?
    ensures |DecodeLevels(EncodeLevels(levels).items).value| == |levels|
    ensures forall l :: 0 <= l < |levels| ==>
              Fields(DecodeLevels(EncodeLevels(levels).items).value[l]) == Fields(levels[l])
  {
    var items := EncodeLevels(levels).items;
    forall l | 0 <= l < |items|
      ensures DecodeLevel(items[l], l).Success?
      ensures Fields(DecodeLevel(items[l], l).value) == Fields(levels[l])
    {
      LevelRoundTrip(levels[l], l);
    }
  }

  /** What deserialisation makes of a campaign object with a readable levels array. */
  lemma ReadsCampaignObject(target: Config, input: Json, campaign: Json)
    requires Member(input, target.fileName) == Some(campaign) && campaign.JObject?
    requires HasArray(campaign, LevelsKey)
    requires DecodeLevels(Member(campaign, LevelsKey).value.items).Success?
    ensures Deserialize(target, input) == Success(target.(
              userFacingName := ReadString(campaign, UserFacingNameKey, target.userFacingName),
              levels := DecodeLevels(Member(campaign, LevelsKey).value.items).value))
  {
  }

  /** Deserialising a value that holds a written campaign object under the file name reads
      back its user-facing name and the fields of its levels. */
  lemma {:induction false} ReadsWrittenCampaign(target: Config, input: Json, written: Config)
    requires Member(input, target.fileName) == Some(CampaignJson(written))
    requires written.levels != []
    requires ConfigsKeepOffLevelKeys(written.levels)
    ensures Deserialize(target, input).Success?
    ensures Deserialize(target, input).value.userFacingName == written.userFacingName
    ensures |Deserialize(target, input).value.levels| == |written.levels|
    ensures forall l :: 0 <= l < |written.levels| ==>
              Fields(Deserialize(target, input).value.levels[l]) == Fields(written.levels[l])
  {
    LevelsRoundTrip(written.levels);
    var campaign := CampaignJson(written);
    var items := EncodeLevels(written.levels).items;
    assert Member(campaign, LevelsKey) == Some(JArray(items));
    assert ReadString(campaign, UserFacingNameKey, target.userFacingName) == written.userFacingName;
    ReadsCampaignObject(target, input, campaign);
  }

  /** Serialising and then deserialising, into a configuration whose file name is the name the
      campaign was written under, reproduces the user-facing name and the levels in order, each
      with its name, tier, planet index, size factor and outgoing paths. */
  lemma {:induction false} SerializeDeserializeRoundTrip(c: Config, out: Json, target: Config)
    requires out.JObject? && c.name !in out.members
    requires target.fileName == c.name
    requires ConfigsKeepOffLevelKeys(c.levels)
    ensures Serialize(c, out).1.Success?
    ensures Deserialize(target, Serialize(c, out).1.value).Success?
    ensures var read := Deserialize(target, Serialize(c, out).1.value).value;
            var written := Serialize(c, out).0;
            && read.userFacingName == c.userFacingName
            && |read.levels| == |written.levels|
            && forall l :: 0 <= l < |written.levels| ==> Fields(read.levels[l]) == Fields(written.levels[l])
  {
    var written := Serialize(c, out).0;
    assert ConfigsKeepOffLevelKeys(written.levels);
    ReadsWrittenCampaign(target, Serialize(c, out).1.value, written);
  }

  /** When the write key and the read key differ, what was written is not found: the
      deserialised configuration is the one deserialisation started from. */
  lemma MismatchedKeyReadsNothing(c: Config, out: Json, target: Config)
    requires target.fileName != c.name && !Has(out, target.fileName)
    ensures Serialize(c, out).1.Success? ==> Deserialize(target, Serialize(c, out).1.value) == Success(target)
  {
  }

  /** Serialising into null produces an array, which has no members: deserialising it reads
      nothing back, whatever the read key. */
  lemma NullOutputReadsNothing(c: Config, target: Config)
    ensures Serialize(c, JNull).1.Success?
    ensures Serialize(c, JNull).1.value.JArray?
    ensures Deserialize(target, Serialize(c, JNull).1.value) == Success(target)
  {
  }

  /** An empty campaign serialises as one level whose only path leads to itself, and that
      level graph is well formed. */
  lemma TemplateIsSelfLoop(c: Config)
    requires c.levels == []
    ensures Serialize(c, JNull).0.levels == [TemplateLevel]
    ensures TemplateLevel.outgoing == [0]
    ensures WellFormedGraph(Serialize(c, JNull).0.levels)
    ensures EncodeLevels(Serialize(c, JNull).0.levels).JArray?
    ensures |EncodeLevels(Serialize(c, JNull).0.levels).items| == 1
  {
  }

  /** Deserialisation accepts a one-level campaign whose only path leads past the last level:
      the level graph it produces is not well formed. */
  lemma DeserializeAcceptsDanglingPath(c: Config, path: SizeT)
    requires path >= 1
    ensures var level := JObject(map[OutgoingKey := JArray([JInt(path)])]);
            var input := JObject(map[c.fileName := JObject(map[LevelsKey := JArray([level])])]);
            && Deserialize(c, input).Success?
            && |Deserialize(c, input).value.levels| == 1
            && Deserialize(c, input).value.levels[0].outgoing == [path]
            && !WellFormedGraph(Deserialize(c, input).value.levels)
  {
  }

  // ------------------------------------------------------------------------------------------
  // File naming
  // ------------------------------------------------------------------------------------------

  const IndexedNamePrefix: string := "CampaignConfig_"
  const CampaignsDir: string := "Assets/Campaigns/"
  const JsonExtension: string := ".json"

  /** getIndexedName: the prefix followed by the decimal index, which reads back as the index. */
  function IndexedName(c: Config): (r: string)
    ensures |r| > |IndexedNamePrefix| && r[..|IndexedNamePrefix|] == IndexedNamePrefix
    ensures Decimal.AllDigits(r[|IndexedNamePrefix|..])
    ensures Decimal.Value(r[|IndexedNamePrefix|..]) == c.campaignIndex
    ensures r[|IndexedNamePrefix|] == '0' ==> |r| == |IndexedNamePrefix| + 1
  {
    var digits := Decimal.FromNat(c.campaignIndex);
    Decimal.ValueOfFromNat(c.campaignIndex);
    var r := IndexedNamePrefix + digits;
    assert r[|IndexedNamePrefix|..] == digits;
    r
  }

  /** getRepresentativeFilePath: the mod directory, the campaigns folder, the indexed name and
      the extension, in that order. */
  function RepresentativeFilePath(c: Config): (r: string)
    ensures |r| == |c.owningModDir| + |CampaignsDir| + |IndexedName(c)| + |JsonExtension|
    ensures r[..|c.owningModDir|] == c.owningModDir
    ensures r[|c.owningModDir|..|c.owningModDir| + |CampaignsDir|] == CampaignsDir
    ensures r[|c.owningModDir| + |CampaignsDir|..|r| - |JsonExtension|] == IndexedName(c)
    ensures r[|r| - |JsonExtension|..] == JsonExtension
  {
    c.owningModDir + CampaignsDir + IndexedName(c) + JsonExtension
  }

  /** Two campaigns of the same mod with different indices are stored in different files. */
  lemma FilePathDeterminesIndex(c: Config, d: Config)
    requires c.owningModDir == d.owningModDir
    ensures RepresentativeFilePath(c) == RepresentativeFilePath(d) ==> c.campaignIndex == d.campaignIndex
  {
    var p, q := RepresentativeFilePath(c), RepresentativeFilePath(d);
    if p == q {
      var lo := |c.owningModDir| + |CampaignsDir|;
      assert IndexedName(c) == p[lo..|p| - |JsonExtension|] == IndexedName(d);
    }
  }

  /** setCampaignIndex: only the index changes, and the indexed name follows it. */
  function SetCampaignIndex(c: Config, newIndex: SizeT): (r: Config)
    ensures r.campaignIndex == newIndex
    ensures r.(campaignIndex := c.campaignIndex) == c
    ensures Decimal.Value(IndexedName(r)[|IndexedNamePrefix|..]) == newIndex
  {
    c.(campaignIndex := newIndex)
  }
}
