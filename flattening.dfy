/** Flattening a parsed JSON source into normalised key/value entries (`#jsonToMap`). */
module Flattening {
  import opened Wrappers
  import opened JsonValues
  import opened Keys

  /** The number a string of decimal digits spells. */
  function DigitsValue(s: string): int {
    if s == [] then 0 else DigitsValue(s[..|s| - 1]) * 10 + (s[|s| - 1] as int - '0' as int)
  }

  /** Decimal text of an array or string index, as `for...in` yields it: the digits spell the
      index, with no leading zero. */
  function IndexName(n: nat): (r: string)
    ensures r != []
    ensures forall i :: 0 <= i < |r| ==> '0' <= r[i] <= '9'
    ensures DigitsValue(r) == n
    ensures r[0] == '0' <==> n == 0
  {
    var digit := ['0' + (n % 10) as char];
    if n < 10 then digit
    else
      var front := IndexName(n / 10);
      assert (front + digit)[..|front|] == front;
      front + digit
  }

  /** Distinct indices get distinct keys. */
  lemma IndexNameInjective(m: nat, n: nat)
    requires IndexName(m) == IndexName(n)
    ensures m == n
  {
  }

  /** The value `for...in` walks: `undefined` enumerates like `null`, that is, not at all. */
  function Subject(obj: Option<Json>): Json {
    match obj
    case None => Null
    case Some(v) => v
  }

  /** True when `#jsonToMap` recurses into the value: an object that is neither `null` nor an array. */
  predicate IsNested(v: Json) {
    v.Obj?
  }

  /** The `(key, jsonObj[key])` pairs that `for (let key in jsonObj)` visits, in order:
      an object's members, an array's or a string's indices, and nothing for
      `undefined`, `null`, numbers and booleans. */
  function Members(obj: Option<Json>): (ms: seq<(string, Json)>)
    ensures forall i :: 0 <= i < |ms| && IsNested(ms[i].1) ==> ms[i].1 < Subject(obj)
    ensures Subject(obj).Obj? ==> ms == Subject(obj).fields
    ensures Subject(obj).Arr? ==>
              |ms| == |Subject(obj).items| &&
              forall i :: 0 <= i < |ms| ==> ms[i] == (IndexName(i), Subject(obj).items[i])
    ensures Subject(obj).Str? ==>
              |ms| == |Subject(obj).s| &&
              forall i :: 0 <= i < |ms| ==> ms[i] == (IndexName(i), Str([Subject(obj).s[i]]))
    ensures !(Subject(obj).Obj? || Subject(obj).Arr? || Subject(obj).Str?) ==> ms == []
  {
    match Subject(obj)
    case Obj(fields) =>
      assert forall i :: 0 <= i < |fields| ==> fields[i] in fields;
      fields
    case Arr(items) =>
      assert forall i :: 0 <= i < |items| ==> items[i] in items;
      seq(|items|, i requires 0 <= i < |items| => (IndexName(i), items[i]))
    case Str(s) =>
      seq(|s|, i requires 0 <= i < |s| => (IndexName(i), Str([s[i]])))
    case _ => []
  }

  /** `${parentKey}${parentKey ? "." : ""}${key}`. */
  function Join(parentKey: string, key: string): string {
    if parentKey != "" then parentKey + "." + key else key
  }

  /** Every key a join produces normalises to the normalised parent followed by the normalised key. */
  lemma NormalizeJoin(parentKey: string, key: string)
    ensures Normalize(Join(parentKey, key)) == Normalize(parentKey) + Normalize(key)
  {
    if parentKey != "" {
      NormalizeSeparated(parentKey, '.', key);
      assert parentKey + "." + key == parentKey + ['.'] + key;
    } else {
      assert Normalize(parentKey) == [];
    }
  }

  /** Every nested object among `members` is a proper part of `owner`: the measure on which
      flattening terminates. */
  ghost predicate PartsOf(members: seq<(string, Json)>, owner: Json) {
    forall i :: 0 <= i < |members| && IsNested(members[i].1) ==> members[i].1 < owner
  }

  /** The map `#jsonToMap(obj, parentKey)` returns. Every key in it is normalised. */
  function Flatten(obj: Option<Json>, parentKey: string): (m: map<string, Json>)
    ensures forall k :: k in m ==> IsNormalized(k)
    decreases Subject(obj), 1
  {
    FlattenMembers(Members(obj), parentKey, Subject(obj))
  }

  /** The map after the loop has visited `members` in order: each member's entries override
      those written before. */
  function FlattenMembers(members: seq<(string, Json)>, parentKey: string, ghost owner: Json)
    : (m: map<string, Json>)
    requires PartsOf(members, owner)
    ensures forall k :: k in m ==> IsNormalized(k)
    decreases owner, 0, |members|
  {
    if members == [] then map[]
    else
      var n := |members| - 1;
      assert forall i :: 0 <= i < n ==> members[..n][i] == members[i];
      FlattenMembers(members[..n], parentKey, owner) + MemberEntries(members[n], parentKey, owner)
  }

  /** What one iteration writes for the member `(key, value)`: the nested map for an object,
      one entry under the normalised path for every other value. */
  function MemberEntries(member: (string, Json), parentKey: string, ghost owner: Json)
    : (m: map<string, Json>)
    requires IsNested(member.1) ==> member.1 < owner
    ensures forall k :: k in m ==> IsNormalized(k)
    decreases owner, 0, 0
  {
    var path := Join(parentKey, member.0);
    if IsNested(member.1) then Flatten(Some(member.1), path)
    else map[Normalize(path) := member.1]
  }

  /** The inner `for (let [nestedKey, nestedVal] of nestedMap) map.set(nestedKey, nestedVal)`:
      afterwards the nested entries override the map's. */
  method CopyEntries(m: map<string, Json>, nestedMap: map<string, Json>) returns (r: map<string, Json>)
    ensures r.Keys == m.Keys + nestedMap.Keys
    ensures forall k :: k in r ==> r[k] == if k in nestedMap then nestedMap[k] else m[k]
  {
    r := m;
    var pending := nestedMap.Keys;
    while pending != {}
      invariant pending <= nestedMap.Keys
      invariant r == m + map k | k in nestedMap.Keys - pending :: nestedMap[k]
      decreases pending
    {
      var nestedKey :| nestedKey in pending;
      r := r[nestedKey := nestedMap[nestedKey]];
      pending := pending - {nestedKey};
    }
  }

  /** One more iteration of the loop adds the next member's entries over the map so far. */
  lemma FlattenMembersStep(members: seq<(string, Json)>, i: nat, parentKey: string, owner: Json)
    requires i < |members| && PartsOf(members, owner)
    ensures PartsOf(members[..i], owner) && PartsOf(members[..i + 1], owner)
    ensures IsNested(members[i].1) ==> members[i].1 < owner
    ensures FlattenMembers(members[..i + 1], parentKey, owner)
            == FlattenMembers(members[..i], parentKey, owner) + MemberEntries(members[i], parentKey, owner)
  {
    assert members[..i + 1][..i] == members[..i];
  }

  /** `#jsonToMap(jsonObj, parentKey)`: a `for...in` loop over the members that adds each
      member's entries to the map built so far (see `AddMember`). */
  method JsonToMap(obj: Option<Json>, parentKey: string) returns (m: map<string, Json>)
    ensures m == Flatten(obj, parentKey)
    decreases Subject(obj), 1
  {
    m := map[];
    var members := Members(obj);
    ghost var owner := Subject(obj);
    var i := 0;
    assert members[..0] == [];
    while i < |members|
      invariant i <= |members|
      invariant PartsOf(members, owner)
      invariant PartsOf(members[..i], owner) && m == FlattenMembers(members[..i], parentKey, owner)
    {
      FlattenMembersStep(members, i, parentKey, owner);
      m := AddMember(m, members[i], parentKey, owner);
      i := i + 1;
    }
    assert members[..i] == members;
  }

  /** The body of the `for...in` loop for one member: a nested object is flattened under the
      joined path and its entries are copied in; a leaf is written under the normalised path. */
  method AddMember(m: map<string, Json>, member: (string, Json), parentKey: string, ghost owner: Json)
    returns (r: map<string, Json>)
    requires IsNested(member.1) ==> member.1 < owner
    ensures r == m + MemberEntries(member, parentKey, owner)
    decreases owner, 0
  {
    var key, value := member.0, member.1;
    var newKey := Join(parentKey, key);
    if IsNested(value) {
      var nestedMap := JsonToMap(Some(value), newKey);
      r := CopyEntries(m, nestedMap);
      assert r == m + nestedMap;
    } else {
      newKey := RemoveAll(newKey, '.');
      newKey := RemoveAll(newKey, '_');
      newKey := ToLower(newKey);
      r := m[newKey := value];
    }
  }

  /** Every key of a nested map starts with the normalised path of the object it came from. */
  lemma {:induction false} FlattenKeysPrefixed(obj: Option<Json>, parentKey: string)
    ensures forall k :: k in Flatten(obj, parentKey) ==> Normalize(parentKey) <= k
    decreases Subject(obj), 1
  {
    FlattenMembersKeysPrefixed(Members(obj), parentKey, Subject(obj));
  }

  lemma {:induction false} FlattenMembersKeysPrefixed(members: seq<(string, Json)>, parentKey: string, owner: Json)
    requires PartsOf(members, owner)
    ensures forall k :: k in FlattenMembers(members, parentKey, owner) ==> Normalize(parentKey) <= k
    decreases owner, 0, |members|
  {
    if members != [] {
      var n := |members| - 1;
      assert forall i :: 0 <= i < n ==> members[..n][i] == members[i];
      FlattenMembersKeysPrefixed(members[..n], parentKey, owner);
      MemberEntriesKeysPrefixed(members[n], parentKey, owner);
    }
  }

  lemma {:induction false} MemberEntriesKeysPrefixed(member: (string, Json), parentKey: string, owner: Json)
    requires IsNested(member.1) ==> member.1 < owner
    ensures forall k :: k in MemberEntries(member, parentKey, owner) ==> Normalize(parentKey) <= k
    decreases owner, 0, 0
  {
    NormalizeJoin(parentKey, member.0);
    if IsNested(member.1) {
      FlattenKeysPrefixed(Some(member.1), Join(parentKey, member.0));
    }
  }

  /** A key that some member writes is in the flattened map. */
  lemma {:induction false} WrittenKeyPresent(members: seq<(string, Json)>, parentKey: string, owner: Json, i: nat, k: string)
    requires PartsOf(members, owner)
    requires i < |members| && k in MemberEntries(members[i], parentKey, owner)
    ensures k in FlattenMembers(members, parentKey, owner)
  {
    var n := |members| - 1;
    if i < n {
      var earlier := members[..n];
      assert earlier[i] == members[i];
      assert PartsOf(earlier, owner) by {
        assert forall l :: 0 <= l < n ==> earlier[l] == members[l];
      }
      WrittenKeyPresent(earlier, parentKey, owner, i, k);
    }
  }

  /** Every key in the flattened map was written by some member, which is returned. */
  lemma {:induction false} PresentKeyWritten(members: seq<(string, Json)>, parentKey: string, owner: Json, k: string)
    returns (i: nat)
    requires PartsOf(members, owner)
    requires k in FlattenMembers(members, parentKey, owner)
    ensures i < |members| && k in MemberEntries(members[i], parentKey, owner)
  {
    var n := |members| - 1;
    if k in MemberEntries(members[n], parentKey, owner) {
      i := n;
    } else {
      var earlier := members[..n];
      assert PartsOf(earlier, owner) by {
        assert forall l :: 0 <= l < n ==> earlier[l] == members[l];
      }
      i := PresentKeyWritten(earlier, parentKey, owner, k);
      assert earlier[i] == members[i];
    }
  }

  /** A key is in the flattened map exactly when some member wrote it. */
  lemma FlattenMembersDomain(members: seq<(string, Json)>, parentKey: string, owner: Json, k: string)
    requires PartsOf(members, owner)
    ensures k in FlattenMembers(members, parentKey, owner) <==>
            exists i :: 0 <= i < |members| && k in MemberEntries(members[i], parentKey, owner)
  {
    if k in FlattenMembers(members, parentKey, owner) {
      var i := PresentKeyWritten(members, parentKey, owner, k);
    }
    if exists i :: 0 <= i < |members| && k in MemberEntries(members[i], parentKey, owner) {
      var i :| 0 <= i < |members| && k in MemberEntries(members[i], parentKey, owner);
      WrittenKeyPresent(members, parentKey, owner, i, k);
    }
  }

  /** A key holds the value written by the last member that wrote it: later entries overwrite
      earlier ones within one source. */
  lemma {:induction false} LastWriterWins(members: seq<(string, Json)>, parentKey: string, owner: Json, j: nat, k: string)
    requires PartsOf(members, owner)
    requires j < |members|
    requires k in MemberEntries(members[j], parentKey, owner)
    requires forall i :: j < i < |members| ==> k !in MemberEntries(members[i], parentKey, owner)
    ensures k in FlattenMembers(members, parentKey, owner)
    ensures FlattenMembers(members, parentKey, owner)[k] == MemberEntries(members[j], parentKey, owner)[k]
  {
    var n := |members| - 1;
    var earlier := members[..n];
    FlattenMembersLast(members, parentKey, owner);
    if n > j {
      assert forall i :: j <= i < n ==> earlier[i] == members[i];
      LastWriterWins(earlier, parentKey, owner, j, k);
    }
  }

  /** The flattened map of a non-empty member list is that of all but the last member, with
      the last member's entries written over it. */
  lemma FlattenMembersLast(members: seq<(string, Json)>, parentKey: string, owner: Json)
    requires |members| > 0 && PartsOf(members, owner)
    ensures PartsOf(members[..|members| - 1], owner)
    ensures FlattenMembers(members, parentKey, owner)
            == FlattenMembers(members[..|members| - 1], parentKey, owner)
               + MemberEntries(members[|members| - 1], parentKey, owner)
  {
    var n := |members| - 1;
    assert forall i :: 0 <= i < n ==> members[..n][i] == members[i];
  }

  /** Two leaf members whose paths normalise to the same key: the one enumerated later wins,
      unless a still later member writes that key again. */
  lemma CollidingLeavesLaterWins(fields: seq<(string, Json)>, parentKey: string, i: nat, j: nat)
    requires i < j < |fields|
    requires !IsNested(fields[i].1) && !IsNested(fields[j].1)
    requires Normalize(Join(parentKey, fields[i].0)) == Normalize(Join(parentKey, fields[j].0))
    requires forall l :: j < l < |fields| ==>
               Normalize(Join(parentKey, fields[j].0)) !in MemberEntries(fields[l], parentKey, Obj(fields))
    ensures Normalize(Join(parentKey, fields[i].0)) in Flatten(Some(Obj(fields)), parentKey)
    ensures Flatten(Some(Obj(fields)), parentKey)[Normalize(Join(parentKey, fields[i].0))] == fields[j].1
  {
    var obj := Some(Obj(fields));
    assert Members(obj) == fields;
    LastWriterWins(fields, parentKey, Obj(fields), j, Normalize(Join(parentKey, fields[j].0)));
  }

  /** A leaf (scalar, `null` or array) yields exactly one entry: its value under the
      normalised path. */
  lemma LeafYieldsOneEntry(key: string, value: Json, parentKey: string)
    requires !IsNested(value)
    ensures Flatten(Some(Obj([(key, value)])), parentKey) == map[Normalize(Join(parentKey, key)) := value]
  {
    var members := [(key, value)];
    assert Members(Some(Obj(members))) == members;
    assert members[..1] == members && members[..0] == [];
    FlattenMembersStep(members, 0, parentKey, Obj(members));
  }

  /** An empty nested object contributes no entry at all. */
  lemma EmptyObjectYieldsNothing(key: string, parentKey: string)
    ensures Flatten(Some(Obj([(key, Obj([]))])), parentKey) == map[]
  {
    var members := [(key, Obj([]))];
    assert Members(Some(Obj(members))) == members;
    assert Members(Some(Obj([]))) == [];
    assert members[..1] == members && members[..0] == [];
    FlattenMembersStep(members, 0, parentKey, Obj(members));
  }

  /** A missing source (`undefined`), `null`, a number or a boolean flattens to the empty map. */
  lemma NothingToEnumerate(obj: Option<Json>, parentKey: string)
    requires obj.None? || obj == Some(Null) || (obj.Some? && (obj.value.Num? || obj.value.Bool?))
    ensures Flatten(obj, parentKey) == map[]
  {
  }

  /** Joining two normalised parts and normalising gives their plain concatenation. */
  lemma JoinNormalized(parentKey: string, key: string)
    requires IsNormalized(parentKey) && IsNormalized(key)
    ensures Normalize(Join(parentKey, key)) == parentKey + key
  {
    NormalizeJoin(parentKey, key);
    NormalizeFixedPoint(parentKey);
    NormalizeFixedPoint(key);
  }

  /** Spelling facts about the keys of the running example. */
  lemma DbLiterals()
    ensures "db" + "host" == "dbhost" && "db" + "port" == "dbport"
    ensures "db" + "." + "host" == "db.host"
    ensures IsNormalized("db") && IsNormalized("host") && IsNormalized("port")
  {
  }

  /** The path of `db.host` and the key it is stored under. */
  lemma DbHostPath()
    ensures Join("db", "host") == "db.host"
    ensures Normalize(Join("db", "host")) == "dbhost"
  {
    DbLiterals();
    JoinNormalized("db", "host");
  }

  /** The key `db.port` is stored under. */
  lemma DbPortPath()
    ensures Normalize(Join("db", "port")) == "dbport"
  {
    DbLiterals();
    JoinNormalized("db", "port");
  }

  /** Two leaves yield two writes, in enumeration order. */
  lemma TwoLeaves(key1: string, value1: Json, key2: string, value2: Json, parentKey: string)
    requires !IsNested(value1) && !IsNested(value2)
    ensures Flatten(Some(Obj([(key1, value1), (key2, value2)])), parentKey)
            == map[Normalize(Join(parentKey, key1)) := value1][Normalize(Join(parentKey, key2)) := value2]
  {
    var members := [(key1, value1), (key2, value2)];
    var owner := Obj(members);
    assert Members(Some(owner)) == members;
    FlattenMembersLast(members, parentKey, owner);
    assert members[..1] == [(key1, value1)];
    LeafYieldsOneEntry(key1, value1, parentKey);
    assert FlattenMembers(members[..1], parentKey, owner) == FlattenMembers([(key1, value1)], parentKey, Obj([(key1, value1)]));
  }

  /** The inner object `{host: "x", port: 5432}` flattened under the parent key `db`. */
  lemma InnerObjectExample()
    ensures Flatten(Some(Obj([("host", Str("x")), ("port", Num(5432.0))])), "db")
            == map["dbhost" := Str("x"), "dbport" := Num(5432.0)]
  {
    DbHostPath();
    DbPortPath();
    TwoLeaves("host", Str("x"), "port", Num(5432.0), "db");
  }

  /** `{db: {host: "x", port: 5432}}` flattens to `dbhost -> "x"` and `dbport -> 5432`. */
  lemma NestedObjectExample()
    ensures Flatten(Some(Obj([("db", Obj([("host", Str("x")), ("port", Num(5432.0))]))])), "")
            == map["dbhost" := Str("x"), "dbport" := Num(5432.0)]
  {
    var inner := Obj([("host", Str("x")), ("port", Num(5432.0))]);
    var members := [("db", inner)];
    InnerObjectExample();
    assert Members(Some(Obj(members))) == members;
    assert members[..0] == [];
    assert MemberEntries(members[0], "", Obj(members)) == Flatten(Some(inner), "db");
  }

  /** `{tags: ["a", "b"]}` yields the single entry `tags -> ["a", "b"]`: arrays are leaves. */
  lemma ArrayLeafExample()
    ensures Flatten(Some(Obj([("tags", Arr([Str("a"), Str("b")]))])), "")
            == map["tags" := Arr([Str("a"), Str("b")])]
  {
    LeafYieldsOneEntry("tags", Arr([Str("a"), Str("b")]), "");
    NormalizeFixedPoint("tags");
  }

  /** A source that is itself an array of leaves is enumerated by index: its map holds exactly
      the index names. */
  lemma ArrayOfLeavesKeys(items: seq<Json>, k: string)
    requires forall j :: 0 <= j < |items| ==> !IsNested(items[j])
    ensures k in Flatten(Some(Arr(items)), "") <==> exists i :: 0 <= i < |items| && k == IndexName(i)
  {
    if k in Flatten(Some(Arr(items)), "") {
      var i := ArrayKeyIndex(items, k);
    }
    if exists i :: 0 <= i < |items| && k == IndexName(i) {
      var i :| 0 <= i < |items| && k == IndexName(i);
      ArrayOfLeavesValues(items, i);
    }
  }

  /** Every key in the map of an array of leaves is the name of some index, which is returned. */
  lemma ArrayKeyIndex(items: seq<Json>, k: string) returns (i: nat)
    requires forall j :: 0 <= j < |items| ==> !IsNested(items[j])
    requires k in Flatten(Some(Arr(items)), "")
    ensures i < |items| && k == IndexName(i)
  {
    var owner := Arr(items);
    var members := Members(Some(owner));
    assert Flatten(Some(owner), "") == FlattenMembers(members, "", owner);
    i := PresentKeyWritten(members, "", owner, k);
    IndexEntry(items, i);
  }

  /** In the map of an array of leaves, each index name holds the element at that index. */
  lemma ArrayOfLeavesValues(items: seq<Json>, i: nat)
    requires forall j :: 0 <= j < |items| ==> !IsNested(items[j])
    requires i < |items|
    ensures IndexName(i) in Flatten(Some(Arr(items)), "")
    ensures Flatten(Some(Arr(items)), "")[IndexName(i)] == items[i]
  {
    var owner := Arr(items);
    var members := Members(Some(owner));
    var k := IndexName(i);
    assert Flatten(Some(owner), "") == FlattenMembers(members, "", owner);
    IndexEntry(items, i);
    forall j | i < j < |items|
      ensures k !in MemberEntries(members[j], "", owner)
    {
      LaterIndexMisses(items, i, j);
    }
    LastWriterWins(members, "", owner, i, k);
  }

  /** A later index of an array of leaves never writes an earlier index's key. */
  lemma LaterIndexMisses(items: seq<Json>, i: nat, j: nat)
    requires forall l :: 0 <= l < |items| ==> !IsNested(items[l])
    requires i < j < |items|
    ensures IndexName(i) !in MemberEntries(Members(Some(Arr(items)))[j], "", Arr(items))
  {
    IndexEntry(items, j);
    if IndexName(i) == IndexName(j) {
      IndexNameInjective(i, j);
    }
  }

  /** The index `j` of an array of leaves writes one entry, under its own index name. */
  lemma IndexEntry(items: seq<Json>, j: nat)
    requires j < |items| && !IsNested(items[j])
    ensures MemberEntries(Members(Some(Arr(items)))[j], "", Arr(items)) == map[IndexName(j) := items[j]]
  {
    var name := IndexName(j);
    assert IsNormalized(name);
    NormalizeFixedPoint(name);
  }
}
