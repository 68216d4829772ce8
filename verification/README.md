# Space arcade core logic in Dafny

This project models three self-contained pieces of logic from a prototype OpenGL space-combat game, and proves properties about them:

- **Team commander targeting** (`team_commander.dfy`). A commander keeps, for each team id, a LIFO stack of weak references to entities of that team that it saw spawn. It pushes only entities whose team differs from its own. `getTargetOnTeam` pops expired references until it pops a live one. `getTarget` asks every other team in ascending id order and returns the first live hit. Weak-reference expiry is an oracle: the set `live` of ids that still exist.
- **Campaign level graph serialisation** (`campaign_config.dfy`, with `json.dfy` and `decimal.dfy`). A campaign is an ordered list of levels. Each level names, by position, the levels it leads to. The list is written into and read from an abstract JSON tree. The file name of a campaign is built from its index.
- **Texture loading** (`texture_subsystem.dfy`). A decoded image's channel count and the gamma flag decide the OpenGL formats, or failure. The subsystem tracks the ids it loaded and deletes them at shutdown. Image decoding and `glGenTextures` are oracles given as parameters: an optional `(width, height, channels)` and a name the driver does not hold yet.

Everything is immutable datatypes and pure functions. The two loops that hand out or release resources (`GetTarget`, `Shutdown`) are methods with loop invariants.

Modelling choices that matter when reading the contracts:

- A commander stack stores the entity together with the team it had when it was pushed. The commander keeps both `cachedTeamId` and the team in its own team component. Spawn filtering compares against the component, `getTarget` skips the cached id, and `Valid` states that the two agree.
- JSON objects are maps: the JSON library's default object type is an ordered map. `json{}` is null, so a level with no outgoing paths is written with a null `level.outGoingPathIndices`. That null reads back as no paths.
- `outData.push_back({getName(), campaign})` adds a member only when `outData` is an object, and then it keeps an existing member of that name. On null or an array, the JSON library takes the brace list as the array `[name, campaign]`: null becomes `[[name, campaign]]` and an array gets the pair appended. Neither has members, so deserialising it reads nothing (`NullOutputReadsNothing`). The round trip is proved for an object `outData`.
- Serialisation writes under the configuration's name (`getName()`); deserialisation reads under `fileName`, which postConstruct sets to `"CampaignConfig"`. The round trip is proved for a configuration whose file name equals the name written under. `MismatchedKeyReadsNothing` shows that otherwise nothing is read.
- The level graph is well formed when every outgoing index is below the number of levels. The comment at CampaignConfig.cpp:52 relies on the array order because levels hold indices into it, but the code checks the indices on neither path. `DeserializeAcceptsDanglingPath` gives an input it accepts with a dangling path.

## Model

| member | source | states |
|---|---|---|
| TeamCommander.Create | LearningOpenGL_CoreProfile/LearningOpenGL_CoreProfile/new_src/Prototypes/SpaceArcade/Game/Team/Commanders.cpp:9-20 | the constructor gives the cached id and the team component the same team, and every stack starts empty, so the commander invariant holds |
| TeamCommander.HandleEntitySpawned | LearningOpenGL_CoreProfile/LearningOpenGL_CoreProfile/new_src/Prototypes/SpaceArcade/Game/Team/Commanders.cpp:78-95 | a spawn without a team component, or on the commander's own team, changes nothing. Otherwise the list grows to at least team+1, the entity is on top of its team's stack, every other stack is unchanged (new ones empty), and the invariant is kept |
| TeamCommander.PopToLive | LearningOpenGL_CoreProfile/LearningOpenGL_CoreProfile/new_src/Prototypes/SpaceArcade/Game/Team/Commanders.cpp:28-33 | the pop loop returns a live entity or nothing. What remains is a prefix of the stack. Everything above the returned entity was expired, and the entity itself is removed. With no result, the stack held only expired entries and is empty |
| TeamCommander.GetTargetOnTeam | LearningOpenGL_CoreProfile/LearningOpenGL_CoreProfile/new_src/Prototypes/SpaceArcade/Game/Team/Commanders.cpp:22-42 | a team beyond the list yields no target and changes nothing. Otherwise only that team's stack changes, as the pop loop describes. A returned entity is live, comes from that stack, and on a valid commander belongs to that team and not to the commander's own. The invariant is kept |
| TeamCommander.GetTarget | LearningOpenGL_CoreProfile/LearningOpenGL_CoreProfile/new_src/Prototypes/SpaceArcade/Game/Team/Commanders.cpp:44-57 | the own team's stack is never touched. A target comes from the lowest other team that has a live entity: every lower other team is drained to empty with nothing live in it, and higher teams are untouched. No target means every other team is drained. The target is live and, on a valid commander, never of its own team |
| TeamCommander.Replay | LearningOpenGL_CoreProfile/LearningOpenGL_CoreProfile/new_src/Prototypes/SpaceArcade/Game/Team/Commanders.cpp:70-74 | replaying the level's existing entities keeps the commander's team ids and its invariant, and never shrinks the list of stacks |
| TeamCommander.PostConstruct | LearningOpenGL_CoreProfile/LearningOpenGL_CoreProfile/new_src/Prototypes/SpaceArcade/Game/Team/Commanders.cpp:59-76 | outside a space level nothing changes. In one, the commander keeps its cached id and its team component, the list of stacks does not shrink, every other team's stack gains exactly that team's entities in level order, and the own team's stack gains nothing |
| TeamCommander.ReplayStacks | LearningOpenGL_CoreProfile/LearningOpenGL_CoreProfile/new_src/Prototypes/SpaceArcade/Game/Team/Commanders.cpp:80-92 | for any list of spawns, each stack ends as before followed by that team's entities in spawn order, or unchanged for the own team |
| TeamCommander.SpawnThenTargetOnTeam | LearningOpenGL_CoreProfile/LearningOpenGL_CoreProfile/new_src/Prototypes/SpaceArcade/Game/Team/Commanders.cpp:28-38 | a live entity just pushed is the next one handed out for its team, and the stack goes back to what it was |
| TeamCommander.NeverOwnTeam | LearningOpenGL_CoreProfile/LearningOpenGL_CoreProfile/new_src/Prototypes/SpaceArcade/Game/Team/Commanders.cpp:80-84 | on a valid commander, asking its own team yields nothing and changes nothing, and no team yields an entity of the commander's team |
| TeamCommander.SizeTMaxTeamIndexesPastEnd | LearningOpenGL_CoreProfile/LearningOpenGL_CoreProfile/new_src/Prototypes/SpaceArcade/Game/Team/Commanders.cpp:24 | the size_t range test as written passes for team 2^64-1 on an empty list, and the growth test as written does not grow the list for it |
| TeamCommander.WrittenTestsAgreeBelowSizeTMax | LearningOpenGL_CoreProfile/LearningOpenGL_CoreProfile/new_src/Prototypes/SpaceArcade/Game/Team/Commanders.cpp:86-88 | below 2^64-1 both size_t tests as written agree with the unbounded tests the model uses |
| CampaignConfig.PostConstruct | LearningOpenGL_CoreProfile/LearningOpenGL_CoreProfile/new_src/Prototypes/SpaceArcade/Game/AssetConfigs/CampaignConfig.cpp:8-12 | the file name becomes "CampaignConfig" and no other field is changed by this override; the base call is left out |
| CampaignConfig.EncodeIndices | LearningOpenGL_CoreProfile/LearningOpenGL_CoreProfile/new_src/Prototypes/SpaceArcade/Game/AssetConfigs/CampaignConfig.cpp:44-48 | an empty path list is written as null; otherwise as an array holding the indices in the same order |
| CampaignConfig.EncodeLevel | LearningOpenGL_CoreProfile/LearningOpenGL_CoreProfile/new_src/Prototypes/SpaceArcade/Game/AssetConfigs/CampaignConfig.cpp:35-50 | a level object has all five level keys. When its space config writes none of them, they hold the name, tier, planet index, size factor and path list |
| CampaignConfig.EncodeLevels | LearningOpenGL_CoreProfile/LearningOpenGL_CoreProfile/new_src/Prototypes/SpaceArcade/Game/AssetConfigs/CampaignConfig.cpp:32-54 | the levels array has exactly one object per level, in list order |
| CampaignConfig.InsertMember | LearningOpenGL_CoreProfile/LearningOpenGL_CoreProfile/new_src/Prototypes/SpaceArcade/Game/AssetConfigs/CampaignConfig.cpp:62 | pushing the named campaign works on null, an object or an array and fails otherwise. On an object it adds the key, keeps an existing member of that name and keeps every other member. On null or an array the pair `[key, value]` is appended as an element, so the result is an array and has no member of that name |
| CampaignConfig.CampaignJson | LearningOpenGL_CoreProfile/LearningOpenGL_CoreProfile/new_src/Prototypes/SpaceArcade/Game/AssetConfigs/CampaignConfig.cpp:56-60 | the campaign object holds exactly the user-facing name and the levels array |
| CampaignConfig.Serialize | LearningOpenGL_CoreProfile/LearningOpenGL_CoreProfile/new_src/Prototypes/SpaceArcade/Game/AssetConfigs/CampaignConfig.cpp:14-63 | serialisation always leaves at least one level. An empty campaign is given the template level; otherwise the configuration is unchanged. Into an object without that name, the campaign object is written under the configuration's name. Into null, the result is a one-element array holding the pair of name and campaign object. The result is what pushing the member gives in every case: an object keeps its other members and an existing member of that name, an array gets the pair appended |
| CampaignConfig.TemplateIsSelfLoop | LearningOpenGL_CoreProfile/LearningOpenGL_CoreProfile/new_src/Prototypes/SpaceArcade/Game/AssetConfigs/CampaignConfig.cpp:24-30 | an empty campaign is serialised as one level whose only path is [0], a well-formed one-level graph |
| CampaignConfig.ToSizeT | LearningOpenGL_CoreProfile/LearningOpenGL_CoreProfile/new_src/Prototypes/SpaceArcade/Game/AssetConfigs/CampaignConfig.cpp:106 | integers and booleans convert to size_t: an integer to itself modulo 2^64, so an in-range one to itself and a negative one wrapped; a boolean to 1 or 0. Anything else is an error |
| CampaignConfig.DecodeIndices | LearningOpenGL_CoreProfile/LearningOpenGL_CoreProfile/new_src/Prototypes/SpaceArcade/Game/AssetConfigs/CampaignConfig.cpp:100-108 | the path array reads as one index per element, in order, and succeeds exactly when every element converts. No index is compared with the number of levels |
| CampaignConfig.DecodeLevel | LearningOpenGL_CoreProfile/LearningOpenGL_CoreProfile/new_src/Prototypes/SpaceArcade/Game/AssetConfigs/CampaignConfig.cpp:82-108 | a level starts from the defaults and reads its name, tier, planet index and size factor. A fresh space config reads the same object. Without a path array it has no paths. With one, it succeeds exactly when every element converts, and then its paths are those elements in order |
| CampaignConfig.DecodeLevels | LearningOpenGL_CoreProfile/LearningOpenGL_CoreProfile/new_src/Prototypes/SpaceArcade/Game/AssetConfigs/CampaignConfig.cpp:76-87 | the result has exactly one level per array element, in array order, each read from its element |
| CampaignConfig.Deserialize | LearningOpenGL_CoreProfile/LearningOpenGL_CoreProfile/new_src/Prototypes/SpaceArcade/Game/AssetConfigs/CampaignConfig.cpp:65-113 | a missing or null campaign changes nothing, and only the user-facing name and the levels can change. A campaign object that is present sets the user-facing name from its string member, if it has one. Without a levels array deserialisation succeeds and the levels stay. With one, the old levels are replaced by exactly the array's levels, in order |
| CampaignConfig.IndicesRoundTrip | LearningOpenGL_CoreProfile/LearningOpenGL_CoreProfile/new_src/Prototypes/SpaceArcade/Game/AssetConfigs/CampaignConfig.cpp:100-108 | a written non-empty path list reads back unchanged |
| CampaignConfig.LevelRoundTrip | LearningOpenGL_CoreProfile/LearningOpenGL_CoreProfile/new_src/Prototypes/SpaceArcade/Game/AssetConfigs/CampaignConfig.cpp:35-48 | a written level reads back with the same name, tier, planet index, size factor and paths, provided its space config writes none of the level keys |
| CampaignConfig.LevelsRoundTrip | LearningOpenGL_CoreProfile/LearningOpenGL_CoreProfile/new_src/Prototypes/SpaceArcade/Game/AssetConfigs/CampaignConfig.cpp:52-53 | a written levels array reads back as the same number of levels, each with its fields, in order |
| CampaignConfig.ReadsWrittenCampaign | LearningOpenGL_CoreProfile/LearningOpenGL_CoreProfile/new_src/Prototypes/SpaceArcade/Game/AssetConfigs/CampaignConfig.cpp:67-83 | a campaign object found under the file name reads back its user-facing name and its levels' fields, in order |
| CampaignConfig.SerializeDeserializeRoundTrip | LearningOpenGL_CoreProfile/LearningOpenGL_CoreProfile/new_src/Prototypes/SpaceArcade/Game/AssetConfigs/CampaignConfig.cpp:62-69 | serialising into an object that lacks the name, with the read key equal to the write key, and then deserialising reproduces the user-facing name. It also reproduces the level order and each level's name, tier, planet index, size factor and paths |
| CampaignConfig.MismatchedKeyReadsNothing | LearningOpenGL_CoreProfile/LearningOpenGL_CoreProfile/new_src/Prototypes/SpaceArcade/Game/AssetConfigs/CampaignConfig.cpp:62-66 | when the read key differs from the write key and the output did not already hold the read key, deserialising what was written changes nothing |
| CampaignConfig.NullOutputReadsNothing | LearningOpenGL_CoreProfile/LearningOpenGL_CoreProfile/new_src/Prototypes/SpaceArcade/Game/AssetConfigs/CampaignConfig.cpp:62-66 | serialising into null gives an array, and deserialising that reads nothing back, whatever the read key |
| CampaignConfig.DeserializeAcceptsDanglingPath | LearningOpenGL_CoreProfile/LearningOpenGL_CoreProfile/new_src/Prototypes/SpaceArcade/Game/AssetConfigs/CampaignConfig.cpp:104-107 | a one-level campaign whose only path points at any index from 1 upwards is accepted; its level graph is not well formed |
| CampaignConfig.IndexedName | LearningOpenGL_CoreProfile/LearningOpenGL_CoreProfile/new_src/Prototypes/SpaceArcade/Game/AssetConfigs/CampaignConfig.cpp:120-123 | the indexed name is "CampaignConfig_" followed by digits that read back as the campaign index, with no leading zero |
| CampaignConfig.RepresentativeFilePath | LearningOpenGL_CoreProfile/LearningOpenGL_CoreProfile/new_src/Prototypes/SpaceArcade/Game/AssetConfigs/CampaignConfig.cpp:115-118 | the path is the mod directory, then "Assets/Campaigns/", then the indexed name, then ".json" |
| CampaignConfig.FilePathDeterminesIndex | LearningOpenGL_CoreProfile/LearningOpenGL_CoreProfile/new_src/Prototypes/SpaceArcade/Game/AssetConfigs/CampaignConfig.cpp:115-123 | two campaigns of one mod share a file path only if they have the same index |
| CampaignConfig.SetCampaignIndex | LearningOpenGL_CoreProfile/LearningOpenGL_CoreProfile/new_src/Prototypes/SpaceArcade/Game/AssetConfigs/CampaignConfig.cpp:125-129 | only the index changes, and the indexed name reads back as the new index |
| Decimal.FromNat | LearningOpenGL_CoreProfile/LearningOpenGL_CoreProfile/new_src/Prototypes/SpaceArcade/Game/AssetConfigs/CampaignConfig.cpp:122 | `to_string` of an index is a non-empty digit string with no leading zero, and "0" only for zero |
| Decimal.ValueOfFromNat | LearningOpenGL_CoreProfile/LearningOpenGL_CoreProfile/new_src/Prototypes/SpaceArcade/Game/AssetConfigs/CampaignConfig.cpp:122 | reading the decimal spelling of n back gives n |
| Decimal.FromNatInjective | LearningOpenGL_CoreProfile/LearningOpenGL_CoreProfile/new_src/Prototypes/SpaceArcade/Game/AssetConfigs/CampaignConfig.cpp:122 | different indices have different decimal spellings |
| TextureSubsystem.SelectFormats | LearningOpenGL_CoreProfile/LearningOpenGL_CoreProfile/new_src/Prototypes/SpaceArcade/GameFramework/SATextureSubsystem.cpp:37-60 | formats exist exactly for 1, 3 and 4 channels, and both have that many components. The internal format is sRGB exactly when gamma is on and the image has colour. The data format is never sRGB |
| TextureSubsystem.FormatsDetermined | LearningOpenGL_CoreProfile/LearningOpenGL_CoreProfile/new_src/Prototypes/SpaceArcade/GameFramework/SATextureSubsystem.cpp:39-53 | those properties pin the formats down: 3 gives SRGB or RGB with RGB, 4 gives SRGB_ALPHA or RGBA with RGBA, 1 gives RED with RED |
| TextureSubsystem.LoadTexture | LearningOpenGL_CoreProfile/LearningOpenGL_CoreProfile/new_src/Prototypes/SpaceArcade/GameFramework/SATextureSubsystem.cpp:17-76 | decode failure returns false and changes nothing. An unsupported channel count returns false and deletes the generated name; the tracked set and outTexId are unchanged. Success tracks the generated id, stores it in outTexId, uploads with the selected formats and returns true. Tracked ids stay names the driver holds |
| TextureSubsystem.LoadGrowsTrackedSet | LearningOpenGL_CoreProfile/LearningOpenGL_CoreProfile/new_src/Prototypes/SpaceArcade/GameFramework/SATextureSubsystem.cpp:72-75 | a successful load tracks one id more than before, the one it returned |
| TextureSubsystem.Shutdown | LearningOpenGL_CoreProfile/LearningOpenGL_CoreProfile/new_src/Prototypes/SpaceArcade/GameFramework/SATextureSubsystem.cpp:8-15 | shutdown deletes exactly the tracked textures from the driver and leaves the tracked set empty |

## Findings

| source | as written | input that shows it | evidently intended | confidence | as-written member | corrected member |
|---|---|---|---|---|---|---|
| LearningOpenGL_CoreProfile/LearningOpenGL_CoreProfile/new_src/Prototypes/SpaceArcade/Game/Team/Commanders.cpp:24 | `pendingTargetsByTeam.size() >= team + 1` in size_t | team = 2^64-1 on an empty list: `team + 1` wraps to 0, the test passes and `pendingTargetsByTeam[team]` reads past the end | the test `team < size()` | low, not executed; needs a team id of 2^64-1 | TeamCommander.SizeTMaxTeamIndexesPastEnd | TeamCommander.GetTargetOnTeam |
| LearningOpenGL_CoreProfile/LearningOpenGL_CoreProfile/new_src/Prototypes/SpaceArcade/Game/Team/Commanders.cpp:86 | `pendingTargetsByTeam.size() < spawnedTeam + 1` in size_t | a spawn on team 2^64-1: `spawnedTeam + 1` wraps to 0, the list is not grown and line 91 indexes past its end | grow the list whenever `spawnedTeam >= size()` | low, not executed; needs a team id of 2^64-1 | TeamCommander.SizeTMaxTeamIndexesPastEnd | TeamCommander.HandleEntitySpawned |

`WrittenTestsAgreeBelowSizeTMax` shows that the tests as written and the intended ones agree for every other team id.

## Left out

- Commander subscription to later spawn broadcasts (`addWeakObj`): each later broadcast is one `HandleEntitySpawned`. The delegate machinery is not part of this model.
- Weak references: `lock()` is modelled as succeeding whenever the liveness oracle says the entity exists. The game is single-threaded, so nothing can expire between the check and the lock.
- An entity's team is the one its team component held when it spawned. Later `setTeam` calls on the entity, or on the commander's own component, are not modelled. `Valid` assumes the commander's component keeps the team it was given.
- `SpaceLevelConfig::onSerialize`/`onDeserialize` are not part of this model. The config is carried as the object members it writes. When read, it is the members of its level's object. The round trip excludes it, and it assumes the config writes none of the level's five keys.
- ReadString: the READ_JSON_* macros are not part of this model. A member of the wrong type is treated like an absent one, whereas the library may throw on it.
- ReadInt: `tier` and the planet index are unbounded integers; a value outside the C++ field's range is not truncated.
- ToSizeT: a floating-point element of a path array is reported as `NotAnIndex`, whereas the library truncates it to an integer. Floats are opaque here.
- The default values of `LevelData{}` come from a header that is not part of this model. `DefaultLevel` assumes value-initialisation: empty name, zero numbers, no paths, no space config.
- PostConstruct: the call to the base class's `postConstruct()` (CampaignConfig.cpp:10) is not modelled, because the base class is not part of this model. Its effect is unknown; if it sets the configuration's name, that changes the key serialisation writes under and so whether the round trip's condition that the name equals the file name holds.
- `getName()` is a field of the configuration (`name`); the base class that defines it is not part of this model.
- When an exception leaves `onDeserialize` half-way, the partly rebuilt level list is not modelled: the model reports the error (`Failure`) and no state.
- `requestSave`/`save` and all file I/O are not part of this model. Which JSON value `save` hands to `onSerialize` is therefore unknown. The round trip is proved only for an object; on null, what is written cannot be read back (`NullOutputReadsNothing`).
- TemplateLevel: the fresh `SpaceLevelConfig` that line 28 creates to serialise as an example is modelled as writing no members. Its real members are unknown, and the proofs only need it to keep off the level's five keys.
- DecodeIndices: with several elements that do not convert, `NotAnIndex` names the last one, whereas the program throws at the first.
- LoadTexture: the file path is not a parameter, since it only reaches the decoder (an oracle) and the error log. Logging, `glBindTexture`, `glTexParameteri`, `glGenerateMipmap` and `stbi_image_free` are not modelled. The texture unit is recorded as the active unit, unchanged from the caller.
- The windowing layer, level rendering, stars, ship placements, spawn configs and the level subsystem's load broadcasts are outside this model. Their logic is UI and rendering glue, or declarations whose bodies are not available.
