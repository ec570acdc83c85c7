# Redis key patterns: a verified model

This project models the caching core of a pair of ASP.NET services that
experiment with Redis key patterns:

- `RemoteDataService` is a cache-aside service. The first query about a
  tenant whose `tenant:{id}` marker is missing fetches the whole dataset
  (segments, segment updates, inspections) from an upstream `api/data`
  endpoint. It then writes every entity under its own string key and every
  relation, in both directions, under set-valued index keys
  (`tenant:{t}:segments`, `segment:{s}:updates`, `update:{u}:segments`, …).
  The six queries read an index set, fetch the values it names with one MGET
  and deserialise them.
- `DistributedCacheWrapper` is the thin layer over the Redis commands these
  services use: strings, hashes, sets and sorted sets. Its
  `SortedSetIntersect` materialises a ZINTERSTORE under a `temp:{guid}` key
  with a one-hour time to live.
- The weather API's `DataService` generates ten segments and ten updates from
  a `Random(0)` stream. It caches them in an `IDistributedCache` under
  `segment:{id}` / `update:{id}`. A later instance finds them again by
  replaying the same seed.
- `RemoteWeatherServiceProxy` is cache-aside over the remote weather API.
  `GetWeather` keys on `weather:{date.Date.Second}`, which is always
  `weather:0`. `GetWeather6Days` keys each of the five upcoming days on
  `weather:{Year + Month + Day}`.

Modules, one concept each:

| module | file | what it holds |
|---|---|---|
| `Wrappers` | wrappers.dfy | `Option`, `Result`, `Outcome` |
| `Text` | text.dfy | colon-free ids, `IsNullOrEmpty` / `IsNullOrWhiteSpace`, decimal formatting, ':' splitting, ordinal string order |
| `Seqs` | seqs.dfy | `Distinct`, set enumeration, `Reverse` |
| `Entities` | entities.dfy | the DTOs |
| `Serialization` | serialization.dfy | a self-delimiting text encoding standing in for JSON, with round trips |
| `Decoding` | decoding.dfy | deserialising a sequence of cache replies, raising on the first nil or malformed one |
| `KeyScheme` | key_scheme.dfy | the twelve key templates and their injectivity |
| `CacheWrapper` | cache_wrapper.dfy | the Redis database as values, and the `DistributedCacheWrapper` class over it |
| `DistributedCaches` | distributed_cache.dfy | `IDistributedCache` as a string map |
| `StoreWrites` | store_writes.dfy | write lists, their in-order effect, and their net effect |
| `Populate` | populate.dfy | the writes `UpdateCache` issues, and what the store holds afterwards |
| `Queries` | queries.dfy | what each query answers on a populated store |
| `RemoteData` | remote_data_service.dfy | the `RemoteDataService` class and the cache-aside lemmas |
| `Calendar` | calendar.dfy | the Gregorian arithmetic `AddDays` needs |
| `WeatherData` | data_service.dfy | the weather API's `DataService` |
| `WeatherProxy` | weather_proxy.dfy | `RemoteWeatherServiceProxy` |

Inputs from the outside world are parameters:

- the upstream dataset, or its absence;
- the weather API's response to each request, `None` where it throws;
- the Guids a `Random(0)` yields;
- `DateTime.Now`, read once for all five days of `GetWeather6Days`;
- the `Guid.NewGuid()` of a sorted-set intersection.

The statements that matter, in the system's own terms:

- **Populating the cache.** After `UpdateCache`, every fetched segment, every
  linked update and every linked inspection reads back from its key. Each
  of the eight index sets gains exactly the fetched relation: no more, no
  less.
- **Answering queries.** On a store populated from empty, each query
  returns every related entity exactly once, whatever order the set reply
  comes in.
  `GetSegmentUpdatesByTenant` also drops the repeat copies: an update is
  stored once per linked segment.
- **Refreshing.** Refreshing twice with the same data changes nothing.
- **Interrupted refresh.** The code writes `tenant:{t}` first in every
  segment's iteration. A refresh cut short after that write therefore
  leaves a tenant that counts as cached but has no data, and it is never
  refetched.
- **Weather `DataService`.** A miss followed by a fresh instance's hit reads
  back exactly the generated data. The generated segment-to-update link is
  one-to-one.
- **`GetWeather`.** It serves one cached forecast for every date.
- **`GetWeather6Days`.** Its five keys never collide within one call, since
  days fewer than 27 apart have different day sums. They do collide across
  calls: 2020-01-05 and 2020-02-04 both key `weather:2026`. A later call then
  serves the earlier call's forecast.

Three places where the code does what a reader might not expect; the model
follows the code:

- The code writes the tenant marker before the segment's data.
- `SegmentUpdate.cs` declares no `InspectionId`, but the populator reads and
  indexes one. The model gives updates that field.
- The method named `GetWeather6Days` serves five days, `AddDays(1)` to
  `AddDays(5)`.

## Model

| member | source | states |
|---|---|---|
| KeyScheme.KeyStringInjective | research_redis_key_pattern_api/Services/RemoteDataService.cs:50-65 | for colon-free ids two keys render to the same string only if they are the same key, so no entity key collides with an index key and the update record key differs per linked segment |
| KeyScheme.SplitKeyString | research_redis_key_pattern_api/Services/RemoteDataService.cs:50-65 | splitting a rendered key on ':' recovers exactly the template's fields |
| KeyScheme.KeyString | research_redis_key_pattern_api/Services/RemoteDataService.cs:50-65 | renders each of the twelve key templates; its meaning is stated by `KeyStringInjective` and `SplitKeyString` |
| Text.NatToString | research_redis_key_pattern_api/Services/RemoteWeatherServiceProxy.cs:61 | invariant-culture formatting of an integer is a non-empty string of decimal digits, with two or more digits from 10 on |
| Text.NatToStringValue | research_redis_key_pattern_api/Services/RemoteWeatherServiceProxy.cs:61 | the decimal digits written denote the integer formatted |
| Text.NatToStringInjective | research_redis_key_pattern_api/Services/RemoteWeatherServiceProxy.cs:61 | distinct integers are formatted as distinct strings |
| Text.IsNullOrEmpty | research_redis_key_pattern_api/Services/RemoteDataService.cs:161 | `string.IsNullOrEmpty`, null or the empty string; `RemoteData.Warm` and the `CheckCache` contract state what it decides |
| Text.IsWhiteSpace | research_redis_key_pattern_api/Services/RemoteWeatherServiceProxy.cs:66 | `char.IsWhiteSpace`: the Unicode separators and the control characters U+0009 to U+000D and U+0085 |
| Text.IsNullOrWhiteSpace | research_redis_key_pattern_api/Services/RemoteWeatherServiceProxy.cs:44 | `string.IsNullOrWhiteSpace`, the hit-or-miss test; `ForecastServedForEveryDate` and `BlankForecastRefetched` state what it decides |
| Seqs.Distinct | research_redis_key_pattern_api/Services/RemoteDataService.cs:127 | `Distinct` keeps every element, adds none, and leaves no element twice |
| Seqs.DistinctOfRepeat | remote_weather_api/Services/DataService.cs:109-116 | ten appends of one id followed by `Distinct` leave that id once |
| Seqs.Enumerate | research_redis_key_pattern_api/Services/DistributedCacheWrapper.cs:104-107 | a set reply lists every member exactly once, in some order |
| Seqs.EnumerationSize | research_redis_key_pattern_api/Services/DistributedCacheWrapper.cs:104-107 | a set reply has exactly as many entries as the set has members |
| Seqs.Reverse | research_redis_key_pattern_api/Services/DistributedCacheWrapper.cs:123 | the reverse of a sequence has its elements in the opposite order |
| Serialization.TextRoundTrip | research_redis_key_pattern_api/Services/RemoteDataService.cs:190 | a text field read back from its encoding, followed by anything, is the field and that remainder |
| Serialization.ListRoundTrip | research_redis_key_pattern_api/Services/RemoteDataService.cs:205 | a list of ids read back from its encoding is the list and the remainder |
| Serialization.SegmentRoundTrip | research_redis_key_pattern_api/Services/RemoteDataService.cs:190 | deserialising a serialised segment gives back the same segment |
| Serialization.EncodeSegment | research_redis_key_pattern_api/Services/RemoteDataService.cs:190 | `SerializeObject` of a segment; `SegmentRoundTrip` and `SegmentEncodingInjective` state its meaning |
| Serialization.DecodeSegment | research_redis_key_pattern_api/Services/RemoteDataService.cs:96 | `DeserializeObject<Segment>`, `None` for a malformed value; `SegmentRoundTrip` states its meaning |
| Serialization.EncodeUpdate | research_redis_key_pattern_api/Services/RemoteDataService.cs:204 | `SerializeObject` of an update; `UpdateRoundTrip` and `UpdateEncodingInjective` state its meaning |
| Serialization.DecodeUpdate | research_redis_key_pattern_api/Services/RemoteDataService.cs:116 | `DeserializeObject<SegmentUpdate>`, `None` for a malformed value; `UpdateRoundTrip` states its meaning |
| Serialization.EncodeInspection | research_redis_key_pattern_api/Services/RemoteDataService.cs:221 | `SerializeObject` of an inspection; `InspectionRoundTrip` and `InspectionEncodingInjective` state its meaning |
| Serialization.DecodeInspection | research_redis_key_pattern_api/Services/RemoteDataService.cs:141 | `DeserializeObject<Inspection>`, `None` for a malformed value; `InspectionRoundTrip` states its meaning |
| Serialization.UpdateRoundTrip | research_redis_key_pattern_api/Services/RemoteDataService.cs:204 | deserialising a serialised update gives back the same update |
| Serialization.InspectionRoundTrip | research_redis_key_pattern_api/Services/RemoteDataService.cs:221 | deserialising a serialised inspection gives back the same inspection |
| Serialization.SegmentEncodingInjective | research_redis_key_pattern_api/Services/RemoteDataService.cs:190 | distinct segments serialise to distinct strings |
| Serialization.UpdateEncodingInjective | research_redis_key_pattern_api/Services/RemoteDataService.cs:127-128 | distinct updates serialise to distinct strings, so `Distinct` on serialised values drops exactly the repeated updates |
| Serialization.InspectionEncodingInjective | research_redis_key_pattern_api/Services/RemoteDataService.cs:221 | distinct inspections serialise to distinct strings |
| Decoding.DecodeEach | research_redis_key_pattern_api/Services/RemoteDataService.cs:95-96 | deserialising the replies succeeds exactly when every reply is present and well formed, giving one entity per reply in order; otherwise it raises on the first nil or malformed reply |
| Decoding.DecodeEachStops | remote_weather_api/Services/DataService.cs:54-58 | deserialising one reply at a time stops at the first nil or malformed reply with that fault |
| Decoding.DecodeEachExtends | remote_weather_api/Services/DataService.cs:54-58 | a well-formed reply extends the deserialised prefix by its entity |
| Decoding.DecodeEachAll | remote_weather_api/Services/DataService.cs:54-63 | replies that all hold entities deserialise to exactly those entities |
| CacheWrapper.Get | research_redis_key_pattern_api/Services/DistributedCacheWrapper.cs:56-59 | GET returns the stored value, or nil exactly when the key holds none |
| CacheWrapper.AddMembers | research_redis_key_pattern_api/Services/DistributedCacheWrapper.cs:99-102 | SADD leaves the old members plus the added ones under the key, changes no other key, and creates the key only when something is added |
| CacheWrapper.AddExistingMembers | research_redis_key_pattern_api/Services/DistributedCacheWrapper.cs:99-102 | SADD of members already present changes nothing |
| CacheWrapper.WithFields | research_redis_key_pattern_api/Services/DistributedCacheWrapper.cs:87-90 | after HSET the hash has its old fields plus the written ones, and the last written field holds its value |
| CacheWrapper.WithFieldsValues | research_redis_key_pattern_api/Services/DistributedCacheWrapper.cs:87-90 | after HSET every written field holds the value of its last write, and every field not written keeps its old value |
| CacheWrapper.AddScores | research_redis_key_pattern_api/Services/DistributedCacheWrapper.cs:116-119 | ZADD with no members changes nothing; otherwise it scores each added member with the score function, keeps the other members' scores, and changes no other key |
| CacheWrapper.Intersection | research_redis_key_pattern_api/Services/DistributedCacheWrapper.cs:132 | ZINTERSTORE keeps exactly the members in both sets, each scored with the sum of its two scores |
| CacheWrapper.RanksBeforeTransitive | research_redis_key_pattern_api/Services/DistributedCacheWrapper.cs:121-125 | rank order (by score, then by member) is transitive |
| CacheWrapper.RanksBefore | research_redis_key_pattern_api/Services/DistributedCacheWrapper.cs:121-125 | the ZRANGE order, by score and then by member; `RanksBeforeTransitive`, `RanksBeforeTotal` and `RankAscending` state its properties |
| CacheWrapper.TempKey | research_redis_key_pattern_api/Services/DistributedCacheWrapper.cs:129 | the `temp:{0}` key of an intersection; the `StoreIntersection` and `SortedSetIntersect` contracts state its use |
| CacheWrapper.RanksBeforeTotal | research_redis_key_pattern_api/Services/DistributedCacheWrapper.cs:121-125 | any two distinct members of a sorted set are ordered by rank |
| CacheWrapper.FirstByRankExists | research_redis_key_pattern_api/Services/DistributedCacheWrapper.cs:121-125 | every non-empty set of members has a first member by rank |
| CacheWrapper.RankAscending | research_redis_key_pattern_api/Services/DistributedCacheWrapper.cs:121-125 | the ascending range lists every member once, each strictly before the members that outrank it |
| CacheWrapper.ReverseTwice | research_redis_key_pattern_api/Services/DistributedCacheWrapper.cs:123 | the descending range reversed is the ascending range |
| CacheWrapper.DistributedCacheWrapper.constructor | research_redis_key_pattern_api/Services/DistributedCacheWrapper.cs:27-30 | a new wrapper talks to the database as it already is, whatever Redis holds |
| CacheWrapper.DistributedCacheWrapper.StringGet | research_redis_key_pattern_api/Services/DistributedCacheWrapper.cs:56-59 | returns the key's string, or nil |
| CacheWrapper.DistributedCacheWrapper.StringGetMany | research_redis_key_pattern_api/Services/DistributedCacheWrapper.cs:44-47 | MGET returns one reply per key, in the order of the keys |
| CacheWrapper.DistributedCacheWrapper.StringSet | research_redis_key_pattern_api/Services/DistributedCacheWrapper.cs:74-77 | SET replaces the key's string, drops its time to live, and changes nothing else |
| CacheWrapper.DistributedCacheWrapper.StringSetWithExpiry | research_redis_key_pattern_api/Services/DistributedCacheWrapper.cs:80-83 | SET with an expiry replaces the string and records the time to live |
| CacheWrapper.DistributedCacheWrapper.HashSet | research_redis_key_pattern_api/Services/DistributedCacheWrapper.cs:87-90 | HSET writes the fields into the key's hash as `WithFields` and `WithFieldsValues` state, and changes nothing else |
| CacheWrapper.DistributedCacheWrapper.HashGet | research_redis_key_pattern_api/Services/DistributedCacheWrapper.cs:92-95 | HGETALL lists every field and value of the hash once |
| CacheWrapper.DistributedCacheWrapper.SetAdd | research_redis_key_pattern_api/Services/DistributedCacheWrapper.cs:99-102 | SADD changes the key's set as `AddMembers` states and nothing else |
| CacheWrapper.DistributedCacheWrapper.SetGet | research_redis_key_pattern_api/Services/DistributedCacheWrapper.cs:104-107 | SMEMBERS lists every member once; a missing key is empty |
| CacheWrapper.DistributedCacheWrapper.SetIntersect | research_redis_key_pattern_api/Services/DistributedCacheWrapper.cs:109-112 | SINTER lists every member common to both sets once |
| CacheWrapper.DistributedCacheWrapper.SortedSetAdd | research_redis_key_pattern_api/Services/DistributedCacheWrapper.cs:116-119 | ZADD changes the key's sorted set as `AddScores` states and nothing else |
| CacheWrapper.DistributedCacheWrapper.SortedSetGet | research_redis_key_pattern_api/Services/DistributedCacheWrapper.cs:121-125 | ZRANGE lists every member once, in ascending rank order or its reverse |
| CacheWrapper.DistributedCacheWrapper.SortedSetCombineAndStore | research_redis_key_pattern_api/Services/DistributedCacheWrapper.cs:132 | ZINTERSTORE stores the intersection under the destination, or deletes the destination when it is empty, and clears its time to live |
| CacheWrapper.DistributedCacheWrapper.KeyExpire | research_redis_key_pattern_api/Services/DistributedCacheWrapper.cs:133 | EXPIRE records the time to live exactly when the key exists |
| CacheWrapper.DistributedCacheWrapper.KeyExists | research_redis_key_pattern_api/Services/DistributedCacheWrapper.cs:130 | EXISTS over every value type; the `KeyExpire` and `SortedSetIntersect` contracts state what it decides |
| CacheWrapper.DistributedCacheWrapper.StoreIntersection | research_redis_key_pattern_api/Services/DistributedCacheWrapper.cs:130-134 | on an absent temp key: stores the intersection under it with a one-hour time to live, or leaves no key when the intersection is empty |
| CacheWrapper.DistributedCacheWrapper.SortedSetIntersect | research_redis_key_pattern_api/Services/DistributedCacheWrapper.cs:127-136 | with a new temp key, the result is the intersection in the requested order, and it stays stored for an hour; with an existing temp key nothing is recomputed and its old content is returned |
| DistributedCaches.DistributedCache.constructor | research_redis_key_pattern_api/Services/RemoteWeatherServiceProxy.cs:31 | the cache starts with the given entries |
| DistributedCaches.DistributedCache.GetString | research_redis_key_pattern_api/Services/RemoteWeatherServiceProxy.cs:43 | returns the cached string, null exactly when the key holds none |
| DistributedCaches.DistributedCache.SetString | research_redis_key_pattern_api/Services/RemoteWeatherServiceProxy.cs:49 | replaces the key's value and leaves every other key as it was |
| StoreWrites.ApplyAppend | research_redis_key_pattern_api/Services/RemoteDataService.cs:176-226 | issuing two write lists in turn is issuing their concatenation |
| StoreWrites.Step | research_redis_key_pattern_api/Services/DistributedCacheWrapper.cs:74-77 | the effect of one awaited SET or SADD, the same as the wrapper method it stands for; `StringAfter` and `MembersAfter` state the effect of a list of them |
| StoreWrites.Apply | research_redis_key_pattern_api/Services/RemoteDataService.cs:176-226 | the awaited writes applied in order; `ApplyAppend`, `ApplyIsOverlay`, `StringAfter` and `MembersAfter` state its meaning |
| StoreWrites.Merge | research_redis_key_pattern_api/Services/RemoteDataService.cs:191-224 | merged set maps hold both sides' members under every key |
| StoreWrites.ApplyIsOverlay | research_redis_key_pattern_api/Services/RemoteDataService.cs:189-224 | issuing writes in order lays their net effect over the store: the last value written per string key, the union of members added per set key |
| StoreWrites.OverlayTwice | research_redis_key_pattern_api/Services/RemoteDataService.cs:189-224 | laying the same net effect over a store twice is laying it once |
| StoreWrites.ApplyTwice | research_redis_key_pattern_api/Services/RemoteDataService.cs:172-229 | issuing the same writes a second time changes nothing |
| StoreWrites.WrittenKeys | research_redis_key_pattern_api/Services/RemoteDataService.cs:189-221 | a string key is set exactly when some write sets it |
| StoreWrites.WrittenValue | research_redis_key_pattern_api/Services/RemoteDataService.cs:189-221 | when all writes to a key agree, that value is what the key ends up holding |
| StoreWrites.AddedMembers | research_redis_key_pattern_api/Services/RemoteDataService.cs:191-224 | a member is added under a set key exactly when some write adds it there |
| StoreWrites.StringAfter | research_redis_key_pattern_api/Services/RemoteDataService.cs:189-221 | after the writes a string key holds its last written value, or its old value if nothing wrote it |
| StoreWrites.MembersAfter | research_redis_key_pattern_api/Services/RemoteDataService.cs:191-224 | after the writes a set holds its old members plus exactly those some write added |
| Populate.HeadWrites | research_redis_key_pattern_api/Services/RemoteDataService.cs:189-191 | the three head writes of a segment iteration, as values; what they leave is stated by `PopulatedSegment` and `PresenceWrittenFirst` |
| Populate.UpdateWrites | research_redis_key_pattern_api/Services/RemoteDataService.cs:195-208 | the five writes for a linked update; what they leave is stated by `PopulatedUpdate` and the update index lemmas |
| Populate.InspectionWrites | research_redis_key_pattern_api/Services/RemoteDataService.cs:213-224 | the four writes for a linked inspection; what they leave is stated by `PopulatedInspection` and the inspection index lemmas |
| Populate.PopulateWrites | research_redis_key_pattern_api/Services/RemoteDataService.cs:176-226 | every write of `UpdateCache`, in order; `Origin` and `Issued` state which writes it holds |
| Populate.UpdatesWrites | research_redis_key_pattern_api/Services/RemoteDataService.cs:193-209 | the update loop over the linked updates, in order; `UpdatesWritesOrigin` and `UpdatesWritesInclude` state which writes it holds |
| Populate.InspectionsWrites | research_redis_key_pattern_api/Services/RemoteDataService.cs:211-225 | the inspection loop over the linked inspections, in order; `InspectionsWritesOrigin` and `InspectionsWritesInclude` state which writes it holds |
| Populate.SegmentWrites | research_redis_key_pattern_api/Services/RemoteDataService.cs:178-225 | one iteration of the segment loop: head, then the update loop, then the inspection loop; `WriteSegment` is proved against it |
| Populate.SegmentsWrites | research_redis_key_pattern_api/Services/RemoteDataService.cs:176-226 | the segment loop; `SegmentsWritesOrigin`, `SegmentsWritesInclude` and `SegmentsWritesPrefix` state which writes it holds |
| Populate.UpdatesWritesOrigin | research_redis_key_pattern_api/Services/RemoteDataService.cs:193-209 | every write of the update loop belongs to an update linked to the segment |
| Populate.UpdatesWritesInclude | research_redis_key_pattern_api/Services/RemoteDataService.cs:193-209 | every linked update's writes are issued by the update loop |
| Populate.InspectionsWritesOrigin | research_redis_key_pattern_api/Services/RemoteDataService.cs:211-225 | every write of the inspection loop belongs to an inspection linked to the segment |
| Populate.InspectionsWritesInclude | research_redis_key_pattern_api/Services/RemoteDataService.cs:211-225 | every linked inspection's writes are issued by the inspection loop |
| Populate.SegmentsWritesOrigin | research_redis_key_pattern_api/Services/RemoteDataService.cs:176-226 | every write of the segment loop belongs to one segment's iteration |
| Populate.SegmentsWritesInclude | research_redis_key_pattern_api/Services/RemoteDataService.cs:176-226 | every segment's iteration is issued by the segment loop |
| Populate.Origin | research_redis_key_pattern_api/Services/RemoteDataService.cs:176-226 | every write `UpdateCache` issues belongs to a fetched segment's head, or to one of its linked updates or inspections |
| Populate.Issued | research_redis_key_pattern_api/Services/RemoteDataService.cs:176-226 | every such write is issued |
| Populate.IssuedKeyWellFormed | research_redis_key_pattern_api/Services/RemoteDataService.cs:178-215 | every key written is built from colon-free ids |
| Populate.SameKey | research_redis_key_pattern_api/Services/RemoteDataService.cs:178-215 | a written key that renders like a given key is that key |
| Populate.StringWriteShape | research_redis_key_pattern_api/Services/RemoteDataService.cs:189-221 | string writes go only to string keys: the tenant marker holds the tenant id and each entity key holds its entity's encoding |
| Populate.StringWritesAgree | research_redis_key_pattern_api/Services/RemoteDataService.cs:189-221 | with unique ids, all writes to one string key store the same value, so segment order does not decide what a key holds |
| Populate.StoredValue | research_redis_key_pattern_api/Services/RemoteDataService.cs:189-221 | after `UpdateCache` every string key holds the value its writes store |
| Populate.AddedAfter | research_redis_key_pattern_api/Services/RemoteDataService.cs:191-224 | after `UpdateCache` every member a set-add issued is in its set |
| Populate.PopulatedSegment | research_redis_key_pattern_api/Services/RemoteDataService.cs:189-191 | every fetched segment is stored under `segment:{id}`, its tenant marker holds the tenant id, and the id is in `tenant:{t}:segments` |
| Populate.PopulatedUpdate | research_redis_key_pattern_api/Services/RemoteDataService.cs:195-208 | a linked update is stored under `segment:{s}:update:{u}`; that key is indexed under the segment and the tenant, and the update is indexed with its segments and its inspection |
| Populate.PopulatedInspection | research_redis_key_pattern_api/Services/RemoteDataService.cs:213-224 | a linked inspection is stored under `inspection:{i}`, lists its segments, and is indexed under the segment and the tenant |
| Populate.TenantSegmentsIndexSound | research_redis_key_pattern_api/Services/RemoteDataService.cs:191 | a member added to `tenant:{t}:segments` is the id of a fetched segment of `t` |
| Populate.TenantSegmentsIndex | research_redis_key_pattern_api/Services/RemoteDataService.cs:191 | `tenant:{t}:segments` gains exactly the ids of the fetched segments of `t` |
| Populate.SegmentUpdatesIndexSound | research_redis_key_pattern_api/Services/RemoteDataService.cs:207 | a member added to `segment:{s}:updates` is the record key of an update linked to a fetched segment `s` |
| Populate.SegmentUpdatesIndex | research_redis_key_pattern_api/Services/RemoteDataService.cs:207 | `segment:{s}:updates` gains exactly the record keys of the updates linked to a fetched segment `s` |
| Populate.TenantUpdatesIndexSound | research_redis_key_pattern_api/Services/RemoteDataService.cs:206 | a member added to `tenant:{t}:updates` is the record key of an update linked to a fetched segment of `t` |
| Populate.TenantUpdatesIndex | research_redis_key_pattern_api/Services/RemoteDataService.cs:206 | `tenant:{t}:updates` gains exactly those record keys |
| Populate.SegmentInspectionsIndexSound | research_redis_key_pattern_api/Services/RemoteDataService.cs:224 | a member added to `segment:{s}:inspections` is the id of an inspection linked to a fetched segment `s` |
| Populate.SegmentInspectionsIndex | research_redis_key_pattern_api/Services/RemoteDataService.cs:224 | `segment:{s}:inspections` gains exactly those ids |
| Populate.TenantInspectionsIndexSound | research_redis_key_pattern_api/Services/RemoteDataService.cs:223 | a member added to `tenant:{t}:inspections` is the id of an inspection linked to a fetched segment of `t` |
| Populate.TenantInspectionsIndex | research_redis_key_pattern_api/Services/RemoteDataService.cs:223 | `tenant:{t}:inspections` gains exactly those ids |
| Populate.UpdateSegmentsIndexSound | research_redis_key_pattern_api/Services/RemoteDataService.cs:205 | a member added to `update:{u}:segments` is a segment id listed by an update `u` linked to a fetched segment |
| Populate.UpdateSegmentsIndex | research_redis_key_pattern_api/Services/RemoteDataService.cs:205 | `update:{u}:segments` gains exactly the segment ids listed by the updates `u` that a fetched segment links to |
| Populate.UpdateInspectionsIndexSound | research_redis_key_pattern_api/Services/RemoteDataService.cs:208 | a member added to `update:{u}:inspections` is the inspection id of an update `u` linked to a fetched segment |
| Populate.UpdateInspectionsIndex | research_redis_key_pattern_api/Services/RemoteDataService.cs:208 | `update:{u}:inspections` gains exactly the inspection ids of the updates `u` that a fetched segment links to |
| Populate.InspectionSegmentsIndexSound | research_redis_key_pattern_api/Services/RemoteDataService.cs:222 | a member added to `inspection:{i}:segments` is a segment id listed by an inspection `i` linked to a fetched segment |
| Populate.InspectionSegmentsIndex | research_redis_key_pattern_api/Services/RemoteDataService.cs:222 | `inspection:{i}:segments` gains exactly the segment ids listed by the inspections `i` that a fetched segment links to |
| Populate.UpdateRecordWritten | research_redis_key_pattern_api/Services/RemoteDataService.cs:195-204 | `segment:{s}:update:{u}` is written exactly when update `u` is linked to a fetched segment `s`, so an update is stored once per linked segment |
| Populate.SegmentRecordWritten | research_redis_key_pattern_api/Services/RemoteDataService.cs:178-190 | `segment:{s}` is written exactly when a fetched segment has id `s` |
| Populate.SegmentsWritesPrefix | research_redis_key_pattern_api/Services/RemoteDataService.cs:176-226 | the writes of the first k+1 segments are those of the first k followed by segment k's |
| Populate.PresenceWrittenFirst | research_redis_key_pattern_api/Services/RemoteDataService.cs:189-191 | each segment's iteration writes the tenant marker first, then the segment, then the tenant's segment index |
| Populate.InterruptedAfterPresence | research_redis_key_pattern_api/Services/RemoteDataService.cs:189-191 | after only the first write the first tenant is marked present while its segment and segment index are absent |
| Queries.StoredSegment | research_redis_key_pattern_api/Services/RemoteDataService.cs:105 | a fetched segment reads back from its key |
| Queries.TenantSegmentMember | research_redis_key_pattern_api/Services/RemoteDataService.cs:91-94 | a member of `tenant:{t}:segments` is the id of a fetched segment of `t` |
| Queries.LinkedSegmentsDecode | research_redis_key_pattern_api/Services/RemoteDataService.cs:95-96 | replies that hold one related segment per listed id, covering every related segment, deserialise to each related segment exactly once |
| Queries.SegmentsByTenantAnswer | research_redis_key_pattern_api/Services/RemoteDataService.cs:87-97 | on a populated store `GetSegmentsByTenant` returns every fetched segment of the tenant exactly once and nothing else |
| Queries.ReadSegmentsByTenant | research_redis_key_pattern_api/Services/RemoteDataService.cs:94-96 | MGET and deserialise: succeeds exactly when every `segment:{id}` holds a serialised segment, giving one segment per id in order |
| Queries.SegmentKeys | research_redis_key_pattern_api/Services/RemoteDataService.cs:93 | one `segment:{id}` key per id, in order |
| Queries.InspectionKeys | research_redis_key_pattern_api/Services/RemoteDataService.cs:138 | one `inspection:{id}` key per id, in order |
| Queries.Lookup | research_redis_key_pattern_api/Services/RemoteDataService.cs:95 | MGET: one reply per key, in key order, nil where the key holds no string |
| Queries.ReadSegment | research_redis_key_pattern_api/Services/RemoteDataService.cs:100-106 | `GetSegment` returns the stored segment, raises on a nil reply and on a malformed one |
| Queries.SegmentAnswer | research_redis_key_pattern_api/Services/RemoteDataService.cs:100-106 | on a populated store `GetSegment` returns the fetched segment with that id, whichever tenant it belongs to, and raises when there is none |
| Queries.SegmentUpdateMember | research_redis_key_pattern_api/Services/RemoteDataService.cs:112-114 | a member of `segment:{s}:updates` is the record key of a linked update and holds that update |
| Queries.LinkedUpdatesDecode | research_redis_key_pattern_api/Services/RemoteDataService.cs:115-116 | replies that hold one related update per listed key, covering every related update, deserialise to each related update exactly once |
| Queries.ReadUpdatesBySegment | research_redis_key_pattern_api/Services/RemoteDataService.cs:114-116 | MGET and deserialise: succeeds exactly when every record key holds a serialised update, giving one update per key in order |
| Queries.UpdatesBySegmentAnswer | research_redis_key_pattern_api/Services/RemoteDataService.cs:109-117 | on a populated store `GetSegmentUpdatesBySegment` returns every update linked to the segment exactly once, provided the segment was fetched |
| Queries.StoredUpdate | research_redis_key_pattern_api/Services/RemoteDataService.cs:204 | a linked update reads back from its segment-scoped key |
| Queries.TenantUpdateMember | research_redis_key_pattern_api/Services/RemoteDataService.cs:124-126 | a member of `tenant:{t}:updates` holds an update linked to a segment of `t` |
| Queries.TenantUpdateValues | research_redis_key_pattern_api/Services/RemoteDataService.cs:124-126 | every reply for `tenant:{t}:updates` is a serialised update linked to a segment of `t` |
| Queries.TenantUpdateListed | research_redis_key_pattern_api/Services/RemoteDataService.cs:124-126 | every update linked to a segment of `t` is among those replies |
| Queries.ReadUpdatesByTenant | research_redis_key_pattern_api/Services/RemoteDataService.cs:126-128 | MGET, `Distinct`, deserialise: succeeds exactly when every record key holds a serialised update, with at most one update per key |
| Queries.DistinctUpdatesDecodeEach | research_redis_key_pattern_api/Services/RemoteDataService.cs:126-128 | after `Distinct`, each reply deserialises to a related update it encodes |
| Queries.DistinctUpdatesDecode | research_redis_key_pattern_api/Services/RemoteDataService.cs:126-128 | after `Distinct`, the replies deserialise to every related update exactly once |
| Queries.UpdatesByTenantAnswer | research_redis_key_pattern_api/Services/RemoteDataService.cs:120-129 | on a populated store `GetSegmentUpdatesByTenant` returns every update linked to a segment of the tenant exactly once, although such an update is indexed once per linked segment |
| Queries.StoredInspection | research_redis_key_pattern_api/Services/RemoteDataService.cs:221 | a linked inspection reads back from its key |
| Queries.SegmentInspectionMember | research_redis_key_pattern_api/Services/RemoteDataService.cs:136-139 | a member of `segment:{s}:inspections` is the id of an inspection linked to that segment |
| Queries.TenantInspectionMember | research_redis_key_pattern_api/Services/RemoteDataService.cs:149-152 | a member of `tenant:{t}:inspections` is the id of an inspection linked to a segment of `t` |
| Queries.LinkedInspectionsDecode | research_redis_key_pattern_api/Services/RemoteDataService.cs:140-141 | replies that hold one related inspection per listed id, covering every related inspection, deserialise to each related inspection exactly once |
| Queries.ReadInspections | research_redis_key_pattern_api/Services/RemoteDataService.cs:139-141 | MGET and deserialise: succeeds exactly when every `inspection:{id}` holds a serialised inspection, giving one inspection per id in order |
| Queries.InspectionsBySegmentAnswer | research_redis_key_pattern_api/Services/RemoteDataService.cs:132-142 | on a populated store `GetInspectionsBySegment` returns every inspection linked to the segment exactly once |
| Queries.InspectionsByTenantAnswer | research_redis_key_pattern_api/Services/RemoteDataService.cs:145-155 | on a populated store `GetInspectionsByTenant` returns every inspection linked to a segment of the tenant exactly once |
| RemoteData.DataApi.constructor | research_redis_key_pattern_api/Services/HttpClientWrapper.cs:45-72 | the upstream yields the given dataset, or nothing, and has had no requests |
| RemoteData.DataApi.GetAllData | research_redis_key_pattern_api/Services/HttpClientWrapper.cs:45-72 | one request, answered with the dataset or with nothing when the response fails or the request throws |
| RemoteData.RemoteDataService.constructor | research_redis_key_pattern_api/Services/RemoteDataService.cs:78-84 | the service holds its store wrapper and upstream |
| RemoteData.RemoteDataService.WriteHead | research_redis_key_pattern_api/Services/RemoteDataService.cs:189-191 | the tenant marker, the segment and the tenant's segment index are written in that order |
| RemoteData.RemoteDataService.WriteUpdate | research_redis_key_pattern_api/Services/RemoteDataService.cs:195-208 | the five writes for a linked update are issued in order |
| RemoteData.RemoteDataService.WriteInspection | research_redis_key_pattern_api/Services/RemoteDataService.cs:213-224 | the four writes for a linked inspection are issued in order |
| RemoteData.RemoteDataService.WriteLinkedUpdates | research_redis_key_pattern_api/Services/RemoteDataService.cs:193-209 | the update loop issues the writes of each linked update, in order, and skips the others |
| RemoteData.RemoteDataService.WriteLinkedInspections | research_redis_key_pattern_api/Services/RemoteDataService.cs:211-225 | the inspection loop issues the writes of each linked inspection, in order, and skips the others |
| RemoteData.RemoteDataService.WriteSegment | research_redis_key_pattern_api/Services/RemoteDataService.cs:176-226 | one segment iteration issues its head, then its update loop, then its inspection loop |
| RemoteData.RemoteDataService.UpdateCache | research_redis_key_pattern_api/Services/RemoteDataService.cs:172-229 | one upstream request; with a dataset the store becomes the issued writes applied in order, without one it raises and writes nothing |
| RemoteData.RemoteDataService.CheckCache | research_redis_key_pattern_api/Services/RemoteDataService.cs:157-170 | a nil or empty tenant marker triggers `UpdateCache`, which is the only upstream request; a present marker leaves the store untouched; it raises exactly when the refresh has no dataset |
| RemoteData.RemoteDataService.GetSegmentsByTenant | research_redis_key_pattern_api/Services/RemoteDataService.cs:87-97 | after `CheckCache`, the answer deserialises the segments named by some enumeration of `tenant:{t}:segments` |
| RemoteData.RemoteDataService.GetSegment | research_redis_key_pattern_api/Services/RemoteDataService.cs:100-106 | after `CheckCache`, reads `segment:{id}` whatever tenant is asked for |
| RemoteData.RemoteDataService.GetSegmentUpdatesBySegment | research_redis_key_pattern_api/Services/RemoteDataService.cs:109-117 | after `CheckCache`, the answer deserialises the values under the record keys in `segment:{s}:updates` |
| RemoteData.RemoteDataService.GetSegmentUpdatesByTenant | research_redis_key_pattern_api/Services/RemoteDataService.cs:120-129 | after `CheckCache`, the answer deserialises the distinct values under the record keys in `tenant:{t}:updates` |
| RemoteData.RemoteDataService.GetInspectionsBySegment | research_redis_key_pattern_api/Services/RemoteDataService.cs:132-142 | after `CheckCache`, the answer deserialises the inspections named in `segment:{s}:inspections` |
| RemoteData.RemoteDataService.GetInspectionsByTenant | research_redis_key_pattern_api/Services/RemoteDataService.cs:145-155 | after `CheckCache`, the answer deserialises the inspections named in `tenant:{t}:inspections` |
| RemoteData.Warm | research_redis_key_pattern_api/Services/RemoteDataService.cs:159-161 | a tenant counts as cached when `tenant:{t}` is neither nil nor empty; `PopulatedTenantIsWarm` and `InterruptedRefreshIsNeverRepaired` state when that holds |
| RemoteData.Refreshed | research_redis_key_pattern_api/Services/RemoteDataService.cs:157-170 | the store `CheckCache` leaves; `RefreshIdempotent` and `ColdStart` state its properties |
| RemoteData.RefreshFails | research_redis_key_pattern_api/Services/RemoteDataService.cs:174-176 | `CheckCache` raises exactly when the tenant is not cached and the fetch yields null; the query contracts state that outcome |
| RemoteData.Fetches | research_redis_key_pattern_api/Services/RemoteDataService.cs:161-165 | `CheckCache` requests the upstream once when the tenant is not cached and never otherwise; the query contracts state that count |
| RemoteData.PopulatedTenantIsWarm | research_redis_key_pattern_api/Services/RemoteDataService.cs:159-161 | once populated, every tenant of a fetched segment counts as cached and its queries fetch nothing |
| RemoteData.RefreshIdempotent | research_redis_key_pattern_api/Services/RemoteDataService.cs:157-165 | a second refresh with the same data, for any tenant, leaves the store as the first left it |
| RemoteData.InterruptedRefreshIsNeverRepaired | research_redis_key_pattern_api/Services/RemoteDataService.cs:159-164 | a refresh cut short after its first write leaves a tenant that is never refetched and whose `GetSegment` raises |
| RemoteData.ColdStart | research_redis_key_pattern_api/Services/RemoteDataService.cs:157-165 | on an empty store the first query fetches once and populates the store, whichever tenant it names |
| Calendar.DaysInMonth | research_redis_key_pattern_api/Services/RemoteWeatherServiceProxy.cs:59 | a month has 28 to 31 days |
| Calendar.Date | research_redis_key_pattern_api/Services/RemoteWeatherServiceProxy.cs:39 | `.Date` keeps the day and sets the time to midnight |
| Calendar.NextDay | research_redis_key_pattern_api/Services/RemoteWeatherServiceProxy.cs:59 | the next day is a valid date, and it is absent exactly after 9999-12-31 |
| Calendar.AddDays | research_redis_key_pattern_api/Services/RemoteWeatherServiceProxy.cs:59 | `AddDays` gives a valid date or fails past 9999-12-31 |
| Calendar.NextDaySum | research_redis_key_pattern_api/Services/RemoteWeatherServiceProxy.cs:61 | moving to the next day either adds one to the day sum or starts a new month with a smaller sum |
| Calendar.DaySum | research_redis_key_pattern_api/Services/RemoteWeatherServiceProxy.cs:61 | the integer `Year + Month + Day` of a day key; `NextDaySum`, `RunSum`, `ConsecutiveSumsDiffer` and `DayKeyShared` state its properties |
| Calendar.RunSum | research_redis_key_pattern_api/Services/RemoteWeatherServiceProxy.cs:61 | over fewer than 28 consecutive days the day sum grows by the distance, or the run crosses a month end |
| Calendar.ConsecutiveSumsDiffer | research_redis_key_pattern_api/Services/RemoteWeatherServiceProxy.cs:61 | two consecutive-run days fewer than 27 apart have different day sums |
| WeatherData.DataKeysInjective | remote_weather_api/Services/DataService.cs:19-20 | `segment:{id}` and `update:{id}` determine their id, and a segment key is never an update key |
| WeatherData.SegmentKey | remote_weather_api/Services/DataService.cs:19 | the `segment:{0}` template; `DataKeysInjective` states its meaning |
| WeatherData.UpdateKey | remote_weather_api/Services/DataService.cs:20 | the `update:{0}` template; `DataKeysInjective` states its meaning |
| WeatherData.Random.constructor | remote_weather_api/Services/DataService.cs:28 | `new Random(0)` starts at the first draw of the seed's stream |
| WeatherData.GetGuid | remote_weather_api/Services/DataService.cs:122-127 | returns the next draw of the stream and advances it by one |
| WeatherData.GenSegment | remote_weather_api/Services/DataService.cs:93-98 | segment i of a generation: its id, tenant and link are draws i, 20 + i and 10 + i; `GeneratedLinks` states the links |
| WeatherData.GenUpdate | remote_weather_api/Services/DataService.cs:100-105 | update i of a generation, linked to segment i alone; `GeneratedUpdatesOfSegment` states it |
| WeatherData.GenSegments | remote_weather_api/Services/DataService.cs:93-98 | ten generated segments, segment i at index i |
| WeatherData.GenUpdates | remote_weather_api/Services/DataService.cs:100-105 | ten generated updates, update i at index i |
| WeatherData.Link | remote_weather_api/Services/DataService.cs:109-116 | one linking round gives the segment a tenant draw and the update's id once, and the update the segment's id once |
| WeatherData.NewSegments | remote_weather_api/Services/DataService.cs:93-98 | ten draws become ten unlinked segments named `segment#{idx}` |
| WeatherData.NewUpdates | remote_weather_api/Services/DataService.cs:100-105 | ten draws become ten unlinked updates named `segmentUpdate#{idx}` |
| WeatherData.LinkAt | remote_weather_api/Services/DataService.cs:107-117 | round i turns segment i and update i into their linked selves and leaves the rest |
| WeatherData.GenData | remote_weather_api/Services/DataService.cs:91-120 | `GenData` consumes thirty draws and yields exactly the generated segments and updates |
| WeatherData.UpdatesOf | remote_weather_api/Services/DataService.cs:42-44 | the filter keeps exactly the updates that list the segment |
| WeatherData.UpdatesOfAppend | remote_weather_api/Services/DataService.cs:42-44 | the filter keeps the original order |
| WeatherData.StoreAllKeeps | remote_weather_api/Services/DataService.cs:70-79 | the write loops leave every other key as it was |
| WeatherData.StoreAll | remote_weather_api/Services/DataService.cs:70-79 | a `foreach` of SetString over items; `StoreAllKeeps` and `StoreAllStores` state its meaning, and `WriteEach` is proved against it |
| WeatherData.Stored | remote_weather_api/Services/DataService.cs:69-80 | the store after the miss branch, segments and then updates; `StoredSegmentAt` and `StoredUpdateAt` state what it holds |
| WeatherData.StoreAllStores | remote_weather_api/Services/DataService.cs:70-79 | an item's key holds its serialised value when no later item shares the key |
| WeatherData.ValuesAt | remote_weather_api/Services/DataService.cs:52-63 | the hit branch reads the key of each of ten consecutive draws |
| WeatherData.ReadBack | remote_weather_api/Services/DataService.cs:49-64 | what the hit branch returns; `StoredReadsBack` and `MissThenHit` state that it is the generated data |
| WeatherData.FetchResult | remote_weather_api/Services/DataService.cs:47-82 | what `FetchData` returns on a hit or a miss; the `FetchData` method is proved against it |
| WeatherData.IsDataCached | remote_weather_api/Services/DataService.cs:84-89 | the data counts as cached exactly when the first draw of a fresh seed names a cached segment |
| WeatherData.DataCached | remote_weather_api/Services/DataService.cs:84-89 | `segment:{first seed-0 draw}` is present; the `IsDataCached` contract and `MissThenHit` state what it decides |
| WeatherData.FetchStore | remote_weather_api/Services/DataService.cs:47-82 | the store `FetchData` leaves: untouched on a hit, `Stored` on a miss; the `FetchData` method is proved against it |
| WeatherData.DataService.constructor | remote_weather_api/Services/DataService.cs:26-31 | each instance owns a fresh `Random(0)` at its first draw |
| WeatherData.DataService.ReadEach | remote_weather_api/Services/DataService.cs:52-63 | ten draws, each read and deserialised in turn, raising at the first nil or malformed value |
| WeatherData.DataService.ReadCached | remote_weather_api/Services/DataService.cs:49-64 | the hit branch returns the segments cached under the next ten draws and the updates cached under the ten after |
| WeatherData.DataService.WriteEach | remote_weather_api/Services/DataService.cs:70-79 | a write loop caches every item under its key, in order |
| WeatherData.DataService.GenerateAndStore | remote_weather_api/Services/DataService.cs:66-80 | the miss branch generates the data and caches every segment, then every update |
| WeatherData.DataService.FetchData | remote_weather_api/Services/DataService.cs:47-82 | a hit reads back and writes nothing; a miss generates, caches and returns the generated data |
| WeatherData.DataService.GetSegments | remote_weather_api/Services/DataService.cs:33-37 | the segments `FetchData` returns, or its fault |
| WeatherData.DataService.GetSegmentUpdate | remote_weather_api/Services/DataService.cs:39-45 | the fetched updates that list the segment, in order, or the fault of `FetchData` |
| WeatherData.Draws | remote_weather_api/Services/DataService.cs:52-53 | the ten Guids drawn from a position on |
| WeatherData.GeneratedLinks | remote_weather_api/Services/DataService.cs:107-117 | segment i lists update j, and update j lists segment i, exactly when i = j |
| WeatherData.GeneratedUpdatesOfSegment | remote_weather_api/Services/DataService.cs:39-45 | on generated data, the updates of segment i are update i alone |
| WeatherData.StoredSegmentAt | remote_weather_api/Services/DataService.cs:70-74 | after the miss branch, segment i is cached under its key |
| WeatherData.StoredUpdateAt | remote_weather_api/Services/DataService.cs:75-79 | after the miss branch, update i is cached under its key |
| WeatherData.SegmentsReadBack | remote_weather_api/Services/DataService.cs:54-58 | ten cached segments read back as those segments |
| WeatherData.UpdatesReadBack | remote_weather_api/Services/DataService.cs:59-63 | ten cached updates read back as those updates |
| WeatherData.StoredSegmentsReadBack | remote_weather_api/Services/DataService.cs:52-58 | after the miss branch, the ten segment draws read back the generated segments |
| WeatherData.StoredUpdatesReadBack | remote_weather_api/Services/DataService.cs:53-63 | after the miss branch, the ten update draws read back the generated updates |
| WeatherData.StoredReadsBack | remote_weather_api/Services/DataService.cs:47-82 | after the miss branch, replaying the same draws reads back exactly what was generated |
| WeatherData.MissThenHit | remote_weather_api/Services/DataService.cs:84-89 | after a fresh instance's miss, the data counts as cached and the next fresh instance reads back exactly the generated data |
| WeatherProxy.WeatherApi.constructor | research_redis_key_pattern_api/Services/RemoteWeatherServiceProxy.cs:32 | the client answers each request with its given body and has had no requests |
| WeatherProxy.WeatherApi.GetString | research_redis_key_pattern_api/Services/RemoteWeatherServiceProxy.cs:48 | returns the body for the request, `None` where it throws, and logs the request |
| WeatherProxy.WeatherKey | research_redis_key_pattern_api/Services/RemoteWeatherServiceProxy.cs:39-41 | the key of `GetWeather` is `weather:0` for every date |
| WeatherProxy.DayKey | research_redis_key_pattern_api/Services/RemoteWeatherServiceProxy.cs:61 | the key of one of the five days; `DayKeyShared`, `UpcomingKeysDistinct` and `KeysCollideAcrossCalls` state when two of them coincide |
| WeatherProxy.DayKeyShared | research_redis_key_pattern_api/Services/RemoteWeatherServiceProxy.cs:61 | two days share a key exactly when their year + month + day sums are equal |
| WeatherProxy.FormatDay | research_redis_key_pattern_api/Services/RemoteWeatherServiceProxy.cs:69 | the `yyyy-MM-dd` request date of a day, built from zero-padded fields |
| WeatherProxy.ServeWeather | research_redis_key_pattern_api/Services/RemoteWeatherServiceProxy.cs:37-55 | what one `GetWeather` call leaves, serves and requests; `ForecastServedForEveryDate` and `BlankForecastRefetched` state its properties |
| WeatherProxy.Padded | research_redis_key_pattern_api/Services/RemoteWeatherServiceProxy.cs:22 | a zero-padded number is at least as wide as asked |
| WeatherProxy.ForecastServedForEveryDate | research_redis_key_pattern_api/Services/RemoteWeatherServiceProxy.cs:39-54 | once any date's forecast is cached, every other date is served that forecast without a request |
| WeatherProxy.BlankForecastRefetched | research_redis_key_pattern_api/Services/RemoteWeatherServiceProxy.cs:43-51 | a blank forecast is cached as fetched yet reads as a miss, so every later call fetches again |
| WeatherProxy.NextDayOfDate | research_redis_key_pattern_api/Services/RemoteWeatherServiceProxy.cs:59 | the next day and `.Date` commute |
| WeatherProxy.AddDaysFewer | research_redis_key_pattern_api/Services/RemoteWeatherServiceProxy.cs:59 | a date reachable in n days is reachable in fewer |
| WeatherProxy.DateAfterDate | research_redis_key_pattern_api/Services/RemoteWeatherServiceProxy.cs:59 | the dates of now plus n and plus n + 1 days are one day apart |
| WeatherProxy.Upcoming | research_redis_key_pattern_api/Services/RemoteWeatherServiceProxy.cs:59 | the five dates after one clock reading, or none past 9999-12-31; `UpcomingDays` states their order |
| WeatherProxy.UpcomingDays | research_redis_key_pattern_api/Services/RemoteWeatherServiceProxy.cs:59 | the five days are the days after today, one after another, and exist exactly when the fifth does |
| WeatherProxy.UpcomingKeysDistinct | research_redis_key_pattern_api/Services/RemoteWeatherServiceProxy.cs:59-61 | within one call the five keys are pairwise distinct |
| WeatherProxy.Lookups | research_redis_key_pattern_api/Services/RemoteWeatherServiceProxy.cs:62 | one lookup per day, of that day's key, all against the cache as it was before the loop |
| WeatherProxy.Step | research_redis_key_pattern_api/Services/RemoteWeatherServiceProxy.cs:64-79 | one pass yields at most one forecast, and a pass that completes yields exactly one |
| WeatherProxy.ServeLooked | research_redis_key_pattern_api/Services/RemoteWeatherServiceProxy.cs:63-80 | the loop yields at most one forecast per day, one for every day when no fetch throws |
| WeatherProxy.ServeLookedYields | research_redis_key_pattern_api/Services/RemoteWeatherServiceProxy.cs:63-80 | forecasts come one per day in order, each the cached value when it is not blank and the fetched body otherwise; an interrupted loop stops at the day whose fetch threw |
| WeatherProxy.StepYields | research_redis_key_pattern_api/Services/RemoteWeatherServiceProxy.cs:64-79 | one more pass keeps forecasts one per day and names the day whose fetch threw |
| WeatherProxy.ServeLookedKeeps | research_redis_key_pattern_api/Services/RemoteWeatherServiceProxy.cs:71 | the loop writes only under its days' keys |
| WeatherProxy.ServeLookedCaches | research_redis_key_pattern_api/Services/RemoteWeatherServiceProxy.cs:66-79 | with distinct keys, every day served is left holding the forecast yielded for it |
| WeatherProxy.ServeLookedStops | research_redis_key_pattern_api/Services/RemoteWeatherServiceProxy.cs:70 | once a fetch throws, the later days change nothing |
| WeatherProxy.ServeLookedNext | research_redis_key_pattern_api/Services/RemoteWeatherServiceProxy.cs:63-80 | the loop over k + 1 days is the loop over k days followed by one pass |
| WeatherProxy.RemoteWeatherServiceProxy.constructor | research_redis_key_pattern_api/Services/RemoteWeatherServiceProxy.cs:29-35 | the proxy holds its cache and its client |
| WeatherProxy.RemoteWeatherServiceProxy.GetWeather | research_redis_key_pattern_api/Services/RemoteWeatherServiceProxy.cs:37-55 | a non-blank cached value is served without a request; otherwise the forecast for the date is fetched, cached as fetched and served; a fetch that throws leaves the cache as it was |
| WeatherProxy.RemoteWeatherServiceProxy.LookUpAll | research_redis_key_pattern_api/Services/RemoteWeatherServiceProxy.cs:62 | the five lookups read the cache before any write |
| WeatherProxy.RemoteWeatherServiceProxy.ServeDay | research_redis_key_pattern_api/Services/RemoteWeatherServiceProxy.cs:65-79 | one loop pass has the effect `Step` describes |
| WeatherProxy.RemoteWeatherServiceProxy.ServeAll | research_redis_key_pattern_api/Services/RemoteWeatherServiceProxy.cs:63-80 | the loop yields, caches and requests what `ServeLooked` describes |
| WeatherProxy.RemoteWeatherServiceProxy.GetWeather6Days | research_redis_key_pattern_api/Services/RemoteWeatherServiceProxy.cs:57-82 | computes the five days, looks all of them up, then serves them in order; it does nothing when a day would pass 9999-12-31 |
| WeatherProxy.SixDaysCached | research_redis_key_pattern_api/Services/RemoteWeatherServiceProxy.cs:57-82 | a completed call yields five forecasts, each the day's cached value or fetched body, and each left cached under its own day's key |
| WeatherProxy.CallOnNewYearsEve | research_redis_key_pattern_api/Services/RemoteWeatherServiceProxy.cs:59 | the last day of a call made on 2019-12-31 is 2020-01-05 |
| WeatherProxy.CallOnJanuaryThirtieth | research_redis_key_pattern_api/Services/RemoteWeatherServiceProxy.cs:59 | the last day of a call made on 2020-01-30 is 2020-02-04 |
| WeatherProxy.SharedKeyServesEarlierForecast | research_redis_key_pattern_api/Services/RemoteWeatherServiceProxy.cs:61-66 | a later call serves the forecast an earlier call cached for any day whose key it shares |
| WeatherProxy.KeysCollideAcrossCalls | research_redis_key_pattern_api/Services/RemoteWeatherServiceProxy.cs:61 | 2020-01-05 and 2020-02-04, days of two calls a month apart, both key `weather:2026` |
| WeatherProxy.KeyOf2026 | research_redis_key_pattern_api/Services/RemoteWeatherServiceProxy.cs:61 | `weather:{2020 + 1 + 5}` and `weather:{2020 + 2 + 4}` are both `weather:2026` |

## Left out

- HTTP transport, the `HttpClient` factory and the upstream's own code are not modelled. Each client is a response function or a fixed dataset.
- JSON (Newtonsoft) is not modelled. A self-delimiting text encoding with proved round trips and injectivity stands in for `SerializeObject`/`DeserializeObject`.
- Async/await, `Task.WhenAll` interleaving, concurrent callers and the resulting thundering herd of refreshes are left out. Every operation runs to completion, one at a time.
- Time to live is recorded, never expired. No clock is modelled.
- `CacheWrapper.RanksBefore` breaks score ties by the ordinal order of characters; Redis compares the bytes of the members' encodings.
- Sorted-set scores are `double` in the source and unbounded integers here. Floating-point rounding of the ZINTERSTORE sum is not modelled.
- Redis keeps one keyspace for all value types. The model keeps one map per type and does not raise WRONGTYPE. `KeyScheme.KeyStringInjective` shows the populator never writes one key with two types.
- `IDistributedCache`'s own Redis layout (a hash per key with sliding-expiry fields) is not modelled. It is a string map.
- The `Random` byte stream and the construction of a Guid from sixteen bytes are left out. A draw is an abstract Guid.
- `WeatherData.DistinctDraws`: the proofs about generated data assume the draws are distinct, which nothing in the source checks.
- Logging, the `StringBuilder` trace of `UpdateCache`, the controllers, the middleware, `Util`, `WeatherService` and the DI registrations are not part of this model.
- `IRemoteDataService` and the controllers' signatures are not modelled. Only the service's own methods are.
- `WeatherProxy.RemoteWeatherServiceProxy.GetWeather`: returns the forecast text, not a deserialised `WeatherForecast`. The `ToString()` of the date in the request is kept symbolic (culture-dependent).
- `WeatherProxy.RemoteWeatherServiceProxy.GetWeather6Days`: returns the forecast texts of the days yielded before any fetch threw, not deserialised `WeatherForecast` values.
- `WeatherProxy.RemoteWeatherServiceProxy.GetWeather6Days`: the five dates come from one `DateTime.Now` reading, while the source reads the clock once per date. A call that straddles midnight can skip a day there; `UpcomingDays` does not describe that case.
- `WeatherData.DataService.ReadEach`: on a failure it bounds the number of draws consumed instead of stating the exact count.
- `WeatherData.DataService.ReadCached`: on a failure it bounds the number of draws consumed instead of stating the exact count.
- `WeatherData.DataService.FetchData`: on a failed cache hit it bounds the number of draws consumed instead of stating the exact count.
- `Queries.SegmentsByTenantAnswer`, `SegmentAnswer`, `UpdatesBySegmentAnswer`, `UpdatesByTenantAnswer`, `InspectionsBySegmentAnswer` and `InspectionsByTenantAnswer` state the answers only for a store populated from empty. On a store that already held other content, a leftover index member whose entity key is absent makes a query raise, and a leftover entity is returned with the fetched ones.
- `RemoteData.RemoteDataService.GetSegmentsByTenant` and the other five queries state their answer for some enumeration of the index set. Redis's actual reply order is not modelled.
- `CacheWrapper.DistributedCacheWrapper.SortedSetIntersect`: the `Guid.NewGuid()` of the temp key is a parameter. With a fresh Guid the existing-key branch never runs.
