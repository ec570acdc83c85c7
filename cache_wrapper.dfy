/** `DistributedCacheWrapper`: the string, hash, set and sorted-set commands
    the services issue against Redis, over an explicit model of the
    database's content. */
module CacheWrapper {
  import opened Wrappers
  import opened Text
  import opened Seqs

  datatype ScoreSortOrder = Ascending | Descending

  /** `temp:{0}`, the key a sorted-set intersection is materialised under. */
  function TempKey(guid: string): string {
    "temp:" + guid
  }

  /** `new TimeSpan(1, 0, 0)` in seconds: the lifetime given to a temp key. */
  const TempKeyTtlSeconds: nat := 3600

  /** The content of the Redis database: one map per value type, and the
      time to live recorded for each key that has one (recorded only; expiry
      is not modelled). */
  datatype Db = Db(
    strings: map<string, string>,
    hashes: map<string, map<string, string>>,
    sets: map<string, set<string>>,
    sortedSets: map<string, map<string, int>>,
    ttl: map<string, nat>)

  const EmptyDb := Db(map[], map[], map[], map[], map[])

  /** GET: the value, or nil. */
  function Get(strings: map<string, string>, key: string): (v: Option<string>)
    ensures v.Some? <==> key in strings
    ensures v.Some? ==> v.value == strings[key]
  {
    if key in strings then Some(strings[key]) else None
  }

  /** SMEMBERS: a missing key reads as the empty set. */
  function Members(sets: map<string, set<string>>, key: string): set<string> {
    if key in sets then sets[key] else {}
  }

  function SetOf(values: seq<string>): (s: set<string>)
    ensures forall v :: v in s <==> v in values
  {
    set v | v in values
  }

  /** SADD key values...: the members afterwards are the old ones and the
      added ones; with no values the client sends nothing. */
  function AddMembers(sets: map<string, set<string>>, key: string, values: seq<string>)
    : (r: map<string, set<string>>)
    ensures Members(r, key) == Members(sets, key) + SetOf(values)
    ensures forall k :: k != key ==> Members(r, k) == Members(sets, k)
    ensures forall k :: k in r <==> k in sets || (k == key && |values| > 0)
  {
    if |values| == 0 then sets else sets[key := Members(sets, key) + SetOf(values)]
  }

  /** Adding members that are already present leaves every set as it was. */
  lemma AddExistingMembers(sets: map<string, set<string>>, key: string, values: seq<string>)
    requires SetOf(values) <= Members(sets, key)
    ensures AddMembers(sets, key, values) == sets
  {
    if |values| > 0 {
      assert values[0] in Members(sets, key);
      assert Members(sets, key) + SetOf(values) == sets[key];
    }
  }

  /** A hash after HSET of `fields`, written in order (a later duplicate
      field wins). */
  function WithFields(hash: map<string, string>, fields: seq<(string, string)>)
    : (r: map<string, string>)
    ensures forall f :: f in r <==> f in hash || exists i :: 0 <= i < |fields| && fields[i].0 == f
    ensures |fields| > 0 ==> r[fields[|fields| - 1].0] == fields[|fields| - 1].1
    decreases |fields|
  {
    if fields == [] then hash
    else WithFields(hash, fields[..|fields| - 1])[fields[|fields| - 1].0 := fields[|fields| - 1].1]
  }

  /** After HSET every written field holds the value of its last write,
      and every field not written keeps its old value. */
  lemma {:induction false} WithFieldsValues(hash: map<string, string>, fields: seq<(string, string)>)
    ensures forall i :: 0 <= i < |fields| && (forall j :: i < j < |fields| ==> fields[j].0 != fields[i].0) ==>
      WithFields(hash, fields)[fields[i].0] == fields[i].1
    ensures forall f :: f in hash && (forall i :: 0 <= i < |fields| ==> fields[i].0 != f) ==>
      WithFields(hash, fields)[f] == hash[f]
    decreases |fields|
  {
    if fields != [] {
      var front := fields[..|fields| - 1];
      WithFieldsValues(hash, front);
      assert forall i :: 0 <= i < |front| ==> front[i] == fields[i];
    }
  }

  function HashOf(hashes: map<string, map<string, string>>, key: string): map<string, string> {
    if key in hashes then hashes[key] else map[]
  }

  /** ZADD key score(v) v ...: members are added or re-scored. */
  function AddScores(sortedSets: map<string, map<string, int>>, key: string,
                     score: string -> int, values: seq<string>)
    : (r: map<string, map<string, int>>)
    ensures forall k :: k != key ==> (k in r <==> k in sortedSets) && (k in r ==> r[k] == sortedSets[k])
    ensures |values| == 0 ==> r == sortedSets
    ensures |values| > 0 ==>
      (&& key in r
       && r[key].Keys == ScoresOf(sortedSets, key).Keys + SetOf(values)
       && (forall v :: v in values ==> r[key][v] == score(v))
       && (forall v :: v in ScoresOf(sortedSets, key) && v !in values ==> r[key][v] == ScoresOf(sortedSets, key)[v]))
  {
    if |values| == 0 then sortedSets
    else sortedSets[key := ScoresOf(sortedSets, key) + map v | v in values :: score(v)]
  }

  function ScoresOf(sortedSets: map<string, map<string, int>>, key: string): map<string, int> {
    if key in sortedSets then sortedSets[key] else map[]
  }

  /** ZINTERSTORE with the default SUM aggregate: the members present in
      both sorted sets, each scored with the sum of its two scores. */
  function Intersection(z1: map<string, int>, z2: map<string, int>): (z: map<string, int>)
    ensures forall m :: m in z <==> m in z1 && m in z2
    ensures forall m :: m in z ==> z[m] == z1[m] + z2[m]
  {
    map m | m in z1 && m in z2 :: z1[m] + z2[m]
  }

  // ---------------------------------------------------------------------
  // Rank order of a sorted set

  /** Redis orders sorted-set members by score, and equal scores by the
      members' ordinal order (characters here, bytes in Redis). */
  predicate RanksBefore(z: map<string, int>, a: string, b: string) {
    a in z && b in z && (z[a] < z[b] || (z[a] == z[b] && StrLess(a, b)))
  }

  lemma RanksBeforeTransitive(z: map<string, int>, a: string, b: string, c: string)
    requires RanksBefore(z, a, b) && RanksBefore(z, b, c)
    ensures RanksBefore(z, a, c)
  {
    if z[a] == z[b] == z[c] {
      StrLessTransitive(a, b, c);
    }
  }

  lemma RanksBeforeTotal(z: map<string, int>, a: string, b: string)
    requires a in z && b in z && a != b
    ensures RanksBefore(z, a, b) || RanksBefore(z, b, a)
  {
    StrLessTotal(a, b);
  }

  /** `m` ranks before every other member of `s`. */
  predicate FirstByRank(z: map<string, int>, s: set<string>, m: string) {
    m in s && forall x :: x in s && x != m ==> RanksBefore(z, m, x)
  }

  /** Every finite non-empty set of members has a first member by rank. */
  lemma {:induction false} FirstByRankExists(z: map<string, int>, s: set<string>)
    requires s != {} && s <= z.Keys
    ensures exists m :: FirstByRank(z, s, m)
    decreases |s|
  {
    var y :| y in s;
    var rest := s - {y};
    if rest == {} {
      assert s == {y};
      assert FirstByRank(z, s, y);
    } else {
      FirstByRankExists(z, rest);
      var m :| FirstByRank(z, rest, m);
      RanksBeforeTotal(z, m, y);
      if RanksBefore(z, y, m) {
        forall x | x in s && x != y
          ensures RanksBefore(z, y, x)
        {
          if x != m {
            RanksBeforeTransitive(z, y, m, x);
          }
        }
        assert FirstByRank(z, s, y);
      } else {
        assert FirstByRank(z, s, m);
      }
    }
  }

  /** `r` lists the members of `z` in ascending rank order. */
  predicate InRankOrder(r: seq<string>, z: map<string, int>) {
    IsEnumeration(r, z.Keys) && forall i, j :: 0 <= i < j < |r| ==> RanksBefore(z, r[i], r[j])
  }

  /** ZRANGE key 0 -1 [REV]: all members, by ascending rank or, for
      `Descending`, by descending rank. */
  predicate IsRange(r: seq<string>, z: map<string, int>, order: ScoreSortOrder) {
    match order
    case Ascending => InRankOrder(r, z)
    case Descending => InRankOrder(Reverse(r), z)
  }

  /** Lists the members of a sorted set in ascending rank order, taking the
      first-ranked remaining member each time. */
  method RankAscending(z: map<string, int>) returns (r: seq<string>)
    ensures InRankOrder(r, z)
  {
    r := [];
    var rest := z.Keys;
    while rest != {}
      invariant rest <= z.Keys
      invariant IsEnumeration(r, z.Keys - rest)
      invariant forall i, j :: 0 <= i < j < |r| ==> RanksBefore(z, r[i], r[j])
      invariant forall i, m :: 0 <= i < |r| && m in rest ==> RanksBefore(z, r[i], m)
      decreases rest
    {
      FirstByRankExists(z, rest);
      var m :| FirstByRank(z, rest, m);
      assert m !in r;
      r := r + [m];
      rest := rest - {m};
    }
  }

  lemma ReverseTwice(s: seq<string>)
    ensures Reverse(Reverse(s)) == s
  {
  }

  // ---------------------------------------------------------------------

  /** The wrapper together with the database it talks to. */
  class DistributedCacheWrapper {
    var strings: map<string, string>
    var hashes: map<string, map<string, string>>
    var sets: map<string, set<string>>
    var sortedSets: map<string, map<string, int>>
    var ttl: map<string, nat>

    function State(): Db
      reads this
    {
      Db(strings, hashes, sets, sortedSets, ttl)
    }

    /** EXISTS key, over all value types. */
    predicate KeyExists(key: string)
      reads this
    {
      key in strings || key in hashes || key in sets || key in sortedSets
    }

    /** The wrapper only keeps a connection; the database holds whatever
        Redis already holds. */
    constructor (db: Db)
      ensures State() == db
    {
      strings, hashes, sets, sortedSets, ttl := db.strings, db.hashes, db.sets, db.sortedSets, db.ttl;
    }

    // --- strings

    method StringGet(key: string) returns (value: Option<string>)
      ensures value == Get(strings, key)
    {
      value := Get(strings, key);
    }

    /** MGET: one reply per key, in the order of the keys, nil for a
        missing key. */
    method StringGetMany(keys: seq<string>) returns (values: seq<Option<string>>)
      ensures |values| == |keys|
      ensures forall i :: 0 <= i < |keys| ==> values[i] == Get(strings, keys[i])
    {
      var current := strings;
      values := seq(|keys|, i requires 0 <= i < |keys| => Get(current, keys[i]));
    }

    /** SET key value: overwrites the value and drops any time to live. */
    method StringSet(key: string, value: string)
      modifies this
      ensures strings == old(strings)[key := value]
      ensures ttl == old(ttl) - {key}
      ensures hashes == old(hashes) && sets == old(sets) && sortedSets == old(sortedSets)
    {
      strings := strings[key := value];
      ttl := ttl - {key};
    }

    /** SET key value EX seconds. */
    method StringSetWithExpiry(key: string, value: string, expirySeconds: nat)
      modifies this
      ensures strings == old(strings)[key := value]
      ensures ttl == old(ttl)[key := expirySeconds]
      ensures hashes == old(hashes) && sets == old(sets) && sortedSets == old(sortedSets)
    {
      strings := strings[key := value];
      ttl := ttl[key := expirySeconds];
    }

    // --- hashes

    /** HSET key field value ... */
    method HashSet(key: string, fields: seq<(string, string)>)
      modifies this
      ensures hashes == if |fields| == 0 then old(hashes)
                        else old(hashes)[key := WithFields(HashOf(old(hashes), key), fields)]
      ensures strings == old(strings) && sets == old(sets)
      ensures sortedSets == old(sortedSets) && ttl == old(ttl)
    {
      if |fields| > 0 {
        hashes := hashes[key := WithFields(HashOf(hashes, key), fields)];
      }
    }

    /** HGETALL key: every field and its value, in an unspecified order. */
    method HashGet(key: string) returns (fields: seq<(string, string)>)
      ensures IsEnumeration(fields, HashOf(hashes, key).Items)
    {
      fields := Enumerate(HashOf(hashes, key).Items);
    }

    // --- sets

    method SetAdd(key: string, values: seq<string>)
      modifies this
      ensures sets == AddMembers(old(sets), key, values)
      ensures strings == old(strings) && hashes == old(hashes)
      ensures sortedSets == old(sortedSets) && ttl == old(ttl)
    {
      sets := AddMembers(sets, key, values);
    }

    /** SMEMBERS key, in an unspecified order. */
    method SetGet(key: string) returns (members: seq<string>)
      ensures IsEnumeration(members, Members(sets, key))
    {
      members := Enumerate(Members(sets, key));
    }

    /** SINTER key1 key2. */
    method SetIntersect(key1: string, key2: string) returns (members: seq<string>)
      ensures IsEnumeration(members, Members(sets, key1) * Members(sets, key2))
    {
      members := Enumerate(Members(sets, key1) * Members(sets, key2));
    }

    // --- sorted sets

    method SortedSetAdd(key: string, score: string -> int, values: seq<string>)
      modifies this
      ensures sortedSets == AddScores(old(sortedSets), key, score, values)
      ensures strings == old(strings) && hashes == old(hashes)
      ensures sets == old(sets) && ttl == old(ttl)
    {
      sortedSets := AddScores(sortedSets, key, score, values);
    }

    method SortedSetGet(key: string, order: ScoreSortOrder) returns (members: seq<string>)
      ensures IsRange(members, ScoresOf(sortedSets, key), order)
    {
      var ascending := RankAscending(ScoresOf(sortedSets, key));
      if order == Ascending {
        members := ascending;
      } else {
        members := Reverse(ascending);
        ReverseTwice(ascending);
      }
    }

    /** ZINTERSTORE destination 2 key1 key2: an empty result leaves no key. */
    method SortedSetCombineAndStore(destination: string, key1: string, key2: string)
      modifies this
      ensures var z := Intersection(ScoresOf(old(sortedSets), key1), ScoresOf(old(sortedSets), key2));
        sortedSets == if z == map[] then old(sortedSets) - {destination}
                      else old(sortedSets)[destination := z]
      ensures ttl == old(ttl) - {destination}
      ensures strings == old(strings) && hashes == old(hashes) && sets == old(sets)
    {
      var z := Intersection(ScoresOf(sortedSets, key1), ScoresOf(sortedSets, key2));
      sortedSets := if z == map[] then sortedSets - {destination} else sortedSets[destination := z];
      ttl := ttl - {destination};
    }

    /** EXPIRE key seconds: recorded only when the key exists. */
    method KeyExpire(key: string, seconds: nat) returns (applied: bool)
      modifies this
      ensures applied == old(KeyExists(key))
      ensures ttl == if applied then old(ttl)[key := seconds] else old(ttl)
      ensures strings == old(strings) && hashes == old(hashes)
      ensures sets == old(sets) && sortedSets == old(sortedSets)
    {
      applied := KeyExists(key);
      if applied {
        ttl := ttl[key := seconds];
      }
    }

    /** The first-caller branch of `SortedSetIntersect`: stores the
        intersection under the absent key `temp` and gives it a one-hour
        time to live; an empty intersection leaves no key behind. */
    method StoreIntersection(temp: string, key1: string, key2: string)
      requires !KeyExists(temp)
      modifies this
      ensures var z := Intersection(ScoresOf(old(sortedSets), key1), ScoresOf(old(sortedSets), key2));
        && sortedSets == (if z == map[] then old(sortedSets) else old(sortedSets)[temp := z])
        && ttl == (if z == map[] then old(ttl) - {temp} else old(ttl)[temp := TempKeyTtlSeconds])
        && ScoresOf(sortedSets, temp) == z
      ensures strings == old(strings) && hashes == old(hashes) && sets == old(sets)
    {
      ghost var z := Intersection(ScoresOf(sortedSets, key1), ScoresOf(sortedSets, key2));
      ghost var before := ttl;
      SortedSetCombineAndStore(temp, key1, key2);
      if z == map[] {
        assert sortedSets == old(sortedSets) - {temp} == old(sortedSets);
        assert !KeyExists(temp);
      } else {
        assert sortedSets == old(sortedSets)[temp := z];
        assert KeyExists(temp);
      }
      var _ := KeyExpire(temp, TempKeyTtlSeconds);
      assert z != map[] ==> ttl == (before - {temp})[temp := TempKeyTtlSeconds] == before[temp := TempKeyTtlSeconds];
    }

    /** Intersects two sorted sets through the temp key `temp:{guid}`: the
        intersection is computed and stored, with a one-hour time to live,
        only when that key does not exist yet; the result is read back from
        it in the requested order. `guid` is the `Guid.NewGuid()` of the
        call. */
    method SortedSetIntersect(key1: string, key2: string, order: ScoreSortOrder, guid: string)
      returns (members: seq<string>)
      modifies this
      ensures old(KeyExists(TempKey(guid))) ==>
        && sortedSets == old(sortedSets) && ttl == old(ttl)
        && IsRange(members, ScoresOf(old(sortedSets), TempKey(guid)), order)
      ensures var z := Intersection(ScoresOf(old(sortedSets), key1), ScoresOf(old(sortedSets), key2));
        !old(KeyExists(TempKey(guid))) ==>
        && sortedSets == (if z == map[] then old(sortedSets) else old(sortedSets)[TempKey(guid) := z])
        && ttl == (if z == map[] then old(ttl) - {TempKey(guid)} else old(ttl)[TempKey(guid) := TempKeyTtlSeconds])
        && IsRange(members, z, order)
      ensures strings == old(strings) && hashes == old(hashes) && sets == old(sets)
    {
      var temp := TempKey(guid);
      var present := KeyExists(temp);
      if !present {
        StoreIntersection(temp, key1, key2);
      }
      members := SortedSetGet(temp, order);
    }
  }
}
