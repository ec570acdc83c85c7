/** The store writes `UpdateCache` issues, as values, and their effect on
    the database: a write list is applied in order, and its net effect is an
    overlay of the last value written under each string key and of the
    members added under each set key. */
module StoreWrites {
  import opened Wrappers
  import opened KeyScheme
  import opened CacheWrapper

  /** `StringSetAsync(key, value)` or `SetAdd(key, members...)`. */
  datatype Write =
    | StringSet(key: Key, value: string)
    | SetAdd(key: Key, members: seq<string>)

  /** The effect of one write: the same as the wrapper method it stands for. */
  function Step(db: Db, w: Write): Db {
    match w
    case StringSet(k, v) =>
      db.(strings := db.strings[KeyString(k) := v], ttl := db.ttl - {KeyString(k)})
    case SetAdd(k, vs) =>
      db.(sets := AddMembers(db.sets, KeyString(k), vs))
  }

  /** The writes applied one after the other, first to last. */
  function Apply(db: Db, ws: seq<Write>): Db
    decreases |ws|
  {
    if ws == [] then db else Step(Apply(db, ws[..|ws| - 1]), ws[|ws| - 1])
  }

  lemma ApplySnoc(db: Db, ws: seq<Write>, w: Write)
    ensures Apply(db, ws + [w]) == Step(Apply(db, ws), w)
  {
    assert (ws + [w])[..|ws|] == ws;
  }

  /** Applying one more write of a list. */
  lemma ApplyPrefix(db: Db, ws: seq<Write>, n: nat)
    requires n < |ws|
    ensures Apply(db, ws[..n + 1]) == Step(Apply(db, ws[..n]), ws[n])
  {
    assert ws[..n + 1][..n] == ws[..n];
  }

  /** Applying two write lists in turn is applying their concatenation. */
  lemma {:induction false} ApplyAppend(db: Db, a: seq<Write>, b: seq<Write>)
    ensures Apply(db, a + b) == Apply(Apply(db, a), b)
    decreases |b|
  {
    if b == [] {
      assert a + b == a;
    } else {
      var front := b[..|b| - 1];
      var w := b[|b| - 1];
      assert a + b == (a + front) + [w];
      assert b == front + [w];
      ApplySnoc(db, a + front, w);
      ApplyAppend(db, a, front);
      ApplySnoc(Apply(db, a), front, w);
    }
  }

  /** The string keys a write list sets, with the value of the last write
      to each. */
  function Written(ws: seq<Write>): map<string, string>
    decreases |ws|
  {
    if ws == [] then map[]
    else
      var w := ws[|ws| - 1];
      var m := Written(ws[..|ws| - 1]);
      if w.StringSet? then m[KeyString(w.key) := w.value] else m
  }

  /** The members a write list adds, per set key. */
  function Added(ws: seq<Write>): map<string, set<string>>
    decreases |ws|
  {
    if ws == [] then map[]
    else
      var w := ws[|ws| - 1];
      var a := Added(ws[..|ws| - 1]);
      if w.SetAdd? then AddMembers(a, KeyString(w.key), w.members) else a
  }

  /** Both sides' members under every key. */
  function Merge(a: map<string, set<string>>, b: map<string, set<string>>)
    : (r: map<string, set<string>>)
    ensures forall k :: k in r <==> k in a || k in b
    ensures forall k :: Members(r, k) == Members(a, k) + Members(b, k)
  {
    map k | k in a.Keys + b.Keys :: Members(a, k) + Members(b, k)
  }

  /** `db` with the net effect of `ws` laid over it. */
  function Overlay(db: Db, ws: seq<Write>): Db {
    db.(strings := db.strings + Written(ws),
        sets := Merge(db.sets, Added(ws)),
        ttl := db.ttl - Written(ws).Keys)
  }

  /** Two set maps with the same keys and the same members under each key
      are equal. */
  lemma SameMembers(l: map<string, set<string>>, r: map<string, set<string>>)
    requires forall k :: k in l <==> k in r
    requires forall k :: Members(l, k) == Members(r, k)
    ensures l == r
  {
    forall k | k in l
      ensures l[k] == r[k]
    {
      assert Members(l, k) == Members(r, k);
    }
  }

  lemma MergeAddMembers(a: map<string, set<string>>, b: map<string, set<string>>,
                        key: string, values: seq<string>)
    ensures Merge(a, AddMembers(b, key, values)) == AddMembers(Merge(a, b), key, values)
  {
    var l := Merge(a, AddMembers(b, key, values));
    var r := AddMembers(Merge(a, b), key, values);
    forall k
      ensures Members(l, k) == Members(r, k)
    {
      if k == key {
        assert Members(l, k) == Members(a, k) + Members(b, k) + SetOf(values) == Members(r, k);
      }
    }
    SameMembers(l, r);
  }

  lemma OverlayNothing(db: Db)
    ensures Overlay(db, []) == db
  {
    var m := Merge(db.sets, map[]);
    assert forall k :: Members(m, k) == Members(db.sets, k) + Members(map[], k);
    SameMembers(m, db.sets);
    assert db.strings + map[] == db.strings;
  }

  lemma OverlaySnoc(db: Db, ws: seq<Write>, w: Write)
    ensures Step(Overlay(db, ws), w) == Overlay(db, ws + [w])
  {
    var all := ws + [w];
    assert all[..|all| - 1] == ws;
    if w.SetAdd? {
      assert Written(all) == Written(ws);
      assert Added(all) == AddMembers(Added(ws), KeyString(w.key), w.members);
      MergeAddMembers(db.sets, Added(ws), KeyString(w.key), w.members);
    } else {
      assert Written(all) == Written(ws)[KeyString(w.key) := w.value];
      assert Added(all) == Added(ws);
      OverlaySet(db, ws, KeyString(w.key), w.value);
    }
  }

  /** Setting a string over an overlay is overlaying that string too. */
  lemma OverlaySet(db: Db, ws: seq<Write>, k: string, v: string)
    ensures Overlay(db, ws).strings[k := v] == db.strings + Written(ws)[k := v]
    ensures Overlay(db, ws).ttl - {k} == db.ttl - Written(ws)[k := v].Keys
  {
  }

  /** Applying a write list lays its net effect over the database. */
  lemma {:induction false} ApplyIsOverlay(db: Db, ws: seq<Write>)
    ensures Apply(db, ws) == Overlay(db, ws)
    decreases |ws|
  {
    if ws == [] {
      OverlayNothing(db);
    } else {
      var front := ws[..|ws| - 1];
      assert ws == front + [ws[|ws| - 1]];
      ApplyIsOverlay(db, front);
      OverlaySnoc(db, front, ws[|ws| - 1]);
    }
  }

  /** Laying the same net effect over a database twice is laying it once. */
  lemma OverlayTwice(db: Db, ws: seq<Write>)
    ensures Overlay(Overlay(db, ws), ws) == Overlay(db, ws)
  {
    var once := Overlay(db, ws);
    var twice := Overlay(once, ws);
    assert twice.strings == once.strings;
    assert twice.ttl == once.ttl;
    SameMembers(twice.sets, once.sets);
  }

  /** Issuing the same writes a second time changes nothing: every string is
      overwritten with the value it already holds and every member added is
      already present. */
  lemma ApplyTwice(db: Db, ws: seq<Write>)
    ensures Apply(Apply(db, ws), ws) == Apply(db, ws)
  {
    ApplyIsOverlay(db, ws);
    ApplyIsOverlay(Apply(db, ws), ws);
    OverlayTwice(db, ws);
  }

  /** A key a write list sets is one it writes, and its final value is the
      value of its last write. */
  lemma {:induction false} WrittenKeys(ws: seq<Write>, key: string)
    ensures key in Written(ws) <==>
      exists j :: 0 <= j < |ws| && ws[j].StringSet? && KeyString(ws[j].key) == key
    decreases |ws|
  {
    if ws != [] {
      var front := ws[..|ws| - 1];
      WrittenKeys(front, key);
      if key in Written(front) {
        var j :| 0 <= j < |front| && front[j].StringSet? && KeyString(front[j].key) == key;
        assert ws[j] == front[j];
      }
      if exists j :: 0 <= j < |ws| && ws[j].StringSet? && KeyString(ws[j].key) == key {
        var j :| 0 <= j < |ws| && ws[j].StringSet? && KeyString(ws[j].key) == key;
        if j < |front| {
          assert front[j] == ws[j];
        }
      }
    }
  }

  /** When every write to a string key agrees on its value, that value is
      the one the key ends up holding. */
  lemma {:induction false} WrittenValue(ws: seq<Write>, j: nat)
    requires j < |ws| && ws[j].StringSet?
    requires forall i :: 0 <= i < |ws| && ws[i].StringSet? && KeyString(ws[i].key) == KeyString(ws[j].key)
               ==> ws[i].value == ws[j].value
    ensures KeyString(ws[j].key) in Written(ws)
    ensures Written(ws)[KeyString(ws[j].key)] == ws[j].value
    decreases |ws|
  {
    var front := ws[..|ws| - 1];
    var last := ws[|ws| - 1];
    if !(last.StringSet? && KeyString(last.key) == KeyString(ws[j].key)) {
      assert j < |front|;
      WrittenValue(front, j);
    }
  }

  /** A member is added under a set key exactly when some write adds it
      there. */
  lemma {:induction false} AddedMembers(ws: seq<Write>, key: string, x: string)
    ensures x in Members(Added(ws), key) <==>
      exists j :: 0 <= j < |ws| && ws[j].SetAdd? && KeyString(ws[j].key) == key && x in ws[j].members
    decreases |ws|
  {
    if ws != [] {
      var front := ws[..|ws| - 1];
      AddedMembers(front, key, x);
      if x in Members(Added(front), key) {
        var j :| 0 <= j < |front| && front[j].SetAdd? && KeyString(front[j].key) == key && x in front[j].members;
        assert ws[j] == front[j];
      }
      if exists j :: 0 <= j < |ws| && ws[j].SetAdd? && KeyString(ws[j].key) == key && x in ws[j].members {
        var j :| 0 <= j < |ws| && ws[j].SetAdd? && KeyString(ws[j].key) == key && x in ws[j].members;
        if j < |front| {
          assert front[j] == ws[j];
        }
      }
    }
  }

  /** What a string key holds after a write list: its last write's value if
      it is written, its old value otherwise. */
  lemma StringAfter(db: Db, ws: seq<Write>, key: string)
    ensures key in Written(ws) ==> Get(Apply(db, ws).strings, key) == Some(Written(ws)[key])
    ensures key !in Written(ws) ==> Get(Apply(db, ws).strings, key) == Get(db.strings, key)
  {
    ApplyIsOverlay(db, ws);
  }

  /** The members a set key has after a write list: its old members and the
      members any write adds under it. */
  lemma MembersAfter(db: Db, ws: seq<Write>, key: string, x: string)
    ensures x in Members(Apply(db, ws).sets, key) <==>
      || x in Members(db.sets, key)
      || exists j :: 0 <= j < |ws| && ws[j].SetAdd? && KeyString(ws[j].key) == key && x in ws[j].members
  {
    ApplyIsOverlay(db, ws);
    AddedMembers(ws, key, x);
  }
}
