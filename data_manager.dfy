/** `InMemoryDataManager` (beyond-black-box-benchmarking/core/src/example.py):
    a two-level store, artifact class name -> artifact id -> artifact.

    The inner dictionary is a Python `dict`, whose `values()` come in insertion
    order and whose key assignment replaces a value where it stands. It is
    modelled as a `Bucket`: a sequence of artifacts with distinct ids, in that
    order. The outer dictionary is a Dafny `map` (its order is never observed). */
module DataManager {
  import opened Common

  /** The attribute values an artifact carries and a query compares against. */
  datatype Field = NoneValue | Text(s: string) | Number(n: int) | Flag(b: bool)

  /** A stored artifact: the name of its class, the two fields every artifact
      has, and every other attribute of its class by name. */
  datatype Artifact = Artifact(className: string, artifactId: string,
                               parentId: Option<string>, fields: map<string, Field>)

  /** `getattr(artifact, key, None)`: the two common fields by their own names,
      any other attribute from `fields`, and `None` for an attribute the
      artifact does not have. */
  function GetAttr(a: Artifact, key: string): (f: Field)
    ensures key == "artifact_id" ==> f == Text(a.artifactId)
    ensures key == "parent_id" ==> (f == NoneValue <==> a.parentId.None?)
    ensures key == "parent_id" && a.parentId.Some? ==> f == Text(a.parentId.value)
    ensures key != "artifact_id" && key != "parent_id" && key !in a.fields ==> f == NoneValue
  {
    if key == "artifact_id" then Text(a.artifactId)
    else if key == "parent_id" then
      (match a.parentId case Some(p) => Text(p) case None => NoneValue)
    else if key in a.fields then a.fields[key]
    else NoneValue
  }

  // ---------------------------------------------------------------------------
  // The inner dictionary: artifact id -> artifact, in insertion order

  type Bucket = seq<Artifact>

  /** The keys of the inner dictionary, in order. */
  function Ids(b: Bucket): (ids: seq<string>)
    ensures |ids| == |b|
    ensures forall i :: 0 <= i < |b| ==> ids[i] == b[i].artifactId
  {
    if b == [] then [] else [b[0].artifactId] + Ids(b[1..])
  }

  predicate DistinctIds(b: Bucket) {
    forall i, j :: 0 <= i < j < |b| ==> b[i].artifactId != b[j].artifactId
  }

  /** `bucket.get(id)`. */
  function Get(b: Bucket, id: string): (r: Option<Artifact>)
    ensures r.Some? <==> id in Ids(b)
    ensures r.Some? ==> r.value in b && r.value.artifactId == id
  {
    if b == [] then None
    else if b[0].artifactId == id then Some(b[0])
    else Get(b[1..], id)
  }

  /** `bucket[a.artifact_id] = a`: an existing entry with that id is replaced
      where it stands, otherwise the artifact is appended. */
  function Put(b: Bucket, a: Artifact): (r: Bucket)
    ensures a.artifactId in Ids(b) ==> |r| == |b|
    ensures a.artifactId !in Ids(b) ==> r == b + [a]
    ensures forall x :: x in r ==> x == a || x in b
  {
    if b == [] then [a]
    else if b[0].artifactId == a.artifactId then [a] + b[1..]
    else [b[0]] + Put(b[1..], a)
  }

  /** `bucket.pop(id, None)`: the entry with that id is removed, if any. */
  function Pop(b: Bucket, id: string): (r: Bucket)
    ensures id !in Ids(b) ==> r == b
    ensures forall x :: x in r ==> x in b && x.artifactId != id
    ensures forall x :: x in b && x.artifactId != id ==> x in r
  {
    if b == [] then []
    else if b[0].artifactId == id then Pop(b[1..], id)
    else [b[0]] + Pop(b[1..], id)
  }

  /** A stored artifact is found under its id, and every other id is
      unaffected. */
  lemma {:induction false} PutGet(b: Bucket, a: Artifact)
    ensures Get(Put(b, a), a.artifactId) == Some(a)
    ensures forall id :: id != a.artifactId ==> Get(Put(b, a), id) == Get(b, id)
  {
    if b != [] && b[0].artifactId != a.artifactId {
      PutGet(b[1..], a);
      assert Put(b, a) == [b[0]] + Put(b[1..], a);
    }
  }

  /** The keys keep their order; a new key goes last. */
  lemma {:induction false} PutIds(b: Bucket, a: Artifact)
    ensures a.artifactId in Ids(b) ==> Ids(Put(b, a)) == Ids(b)
    ensures a.artifactId !in Ids(b) ==> Ids(Put(b, a)) == Ids(b) + [a.artifactId]
  {
    if b != [] {
      assert Ids(b) == [b[0].artifactId] + Ids(b[1..]);
      if b[0].artifactId != a.artifactId {
        PutIds(b[1..], a);
        assert Put(b, a) == [b[0]] + Put(b[1..], a);
        assert Ids(Put(b, a)) == [b[0].artifactId] + Ids(Put(b[1..], a));
      } else {
        assert Ids(Put(b, a)) == [a.artifactId] + Ids(b[1..]);
      }
    }
  }

  /** `Put` keeps the ids distinct. */
  lemma PutKeepsDistinct(b: Bucket, a: Artifact)
    requires DistinctIds(b)
    ensures DistinctIds(Put(b, a))
  {
    PutIds(b, a);
    var r := Put(b, a);
    if a.artifactId in Ids(b) {
      forall i | 0 <= i < |r| ensures r[i].artifactId == b[i].artifactId {
        assert Ids(r)[i] == Ids(b)[i];
      }
    } else {
      forall i | 0 <= i < |b| ensures b[i].artifactId != a.artifactId {
        assert Ids(b)[i] == b[i].artifactId;
      }
    }
  }

  /** After the pop the id is gone and every other id is unaffected. */
  lemma {:induction false} PopGet(b: Bucket, id: string)
    ensures Get(Pop(b, id), id) == None
    ensures forall other :: other != id ==> Get(Pop(b, id), other) == Get(b, other)
  {
    if b != [] {
      PopGet(b[1..], id);
      if b[0].artifactId != id {
        assert Pop(b, id) == [b[0]] + Pop(b[1..], id);
      }
    }
  }

  /** `Pop` keeps the ids distinct. */
  lemma {:induction false} PopKeepsDistinct(b: Bucket, id: string)
    requires DistinctIds(b)
    ensures DistinctIds(Pop(b, id))
  {
    if b != [] {
      assert DistinctIds(b[1..]) by {
        forall i, j | 0 <= i < j < |b| - 1 ensures b[1..][i].artifactId != b[1..][j].artifactId {
          assert b[1..][i] == b[i + 1] && b[1..][j] == b[j + 1];
        }
      }
      PopKeepsDistinct(b[1..], id);
      if b[0].artifactId != id {
        var rest := Pop(b[1..], id);
        var r := [b[0]] + rest;
        assert Pop(b, id) == r;
        forall x | x in rest ensures x.artifactId != b[0].artifactId {
          var k :| 0 <= k < |b[1..]| && b[1..][k] == x;
          assert b[k + 1] == x;
        }
        forall i, j | 0 <= i < j < |r| ensures r[i].artifactId != r[j].artifactId {
          assert r[j] == rest[j - 1];
          if i > 0 {
            assert r[i] == rest[i - 1];
          } else {
            assert rest[j - 1] in rest;
          }
        }
      }
    }
  }

  // ---------------------------------------------------------------------------
  // The whole store: class name -> bucket

  type Storage = map<string, Bucket>

  /** What the store keeps true: each bucket has distinct ids and holds only
      artifacts of the class it is filed under. */
  predicate ValidStorage(s: Storage) {
    forall t :: t in s ==>
      DistinctIds(s[t]) && forall i :: 0 <= i < |s[t]| ==> s[t][i].className == t
  }

  /** The store after `store(a)`: a missing bucket is created first. */
  function StoreInto(s: Storage, a: Artifact): (r: Storage)
    ensures r.Keys == s.Keys + {a.className}
  {
    s[a.className := Put(if a.className in s then s[a.className] else [], a)]
  }

  /** The store after `delete(id, t)`: nothing happens for an unknown class;
      the bucket stays in place, possibly empty. */
  function DeleteFrom(s: Storage, id: string, t: string): (r: Storage)
    ensures r.Keys == s.Keys
  {
    if t in s then s[t := Pop(s[t], id)] else s
  }

  /** `get_by_id(id, t)`. */
  function ById(s: Storage, id: string, t: string): (r: Option<Artifact>)
    ensures t !in s ==> r == None
    ensures t in s ==> r == Get(s[t], id)
  {
    if t in s then Get(s[t], id) else None
  }

  /** `get_all(t)`: the bucket's values in insertion order. */
  function All(s: Storage, t: string): (r: seq<Artifact>)
    ensures t !in s ==> r == []
    ensures forall a :: a in r <==> t in s && a in s[t]
  {
    if t in s then s[t] else []
  }

  /** The comprehension of `get_children`: the artifacts whose parent is `p`,
      in bucket order. */
  function WithParent(b: Bucket, p: string): (r: seq<Artifact>)
    ensures |r| <= |b|
    ensures forall a :: a in r <==> a in b && a.parentId == Some(p)
  {
    if b == [] then []
    else (if b[0].parentId == Some(p) then [b[0]] else []) + WithParent(b[1..], p)
  }

  /** `get_children(p, t)`. */
  function Children(s: Storage, p: string, t: string): (r: seq<Artifact>)
    ensures t !in s ==> r == []
    ensures forall a :: a in r <==> t in s && a in s[t] && a.parentId == Some(p)
  {
    if t !in s then [] else WithParent(s[t], p)
  }

  /** Python's `==` between two field values: `None` equals only `None`,
      strings compare by content, and a `bool` is the integer 0 or 1, so
      `True == 1` and `False == 0` hold. */
  predicate PyEq(x: Field, y: Field) {
    match (x, y)
    case (NoneValue, NoneValue) => true
    case (Text(s), Text(t)) => s == t
    case (Number(m), Number(n)) => m == n
    case (Flag(b), Flag(c)) => b == c
    case (Flag(b), Number(n)) => n == (if b then 1 else 0)
    case (Number(m), Flag(c)) => m == (if c then 1 else 0)
    case _ => false
  }

  /** `PyEq` is an equivalence that coincides with equality of values except
      that it identifies `True` with 1 and `False` with 0. */
  lemma PyEqIsEquivalence(x: Field, y: Field, z: Field)
    ensures PyEq(x, x)
    ensures PyEq(x, y) ==> PyEq(y, x)
    ensures PyEq(x, y) && PyEq(y, z) ==> PyEq(x, z)
    ensures PyEq(x, y) <==> x == y || (x.Flag? && y == Number(if x.b then 1 else 0))
                                  || (y.Flag? && x == Number(if y.b then 1 else 0))
  {
  }

  /** `matches_query`: every query key is `==` to the attribute it names, an
      absent attribute reading as `None`. */
  predicate MatchesQuery(a: Artifact, query: map<string, Field>) {
    forall key :: key in query ==> PyEq(GetAttr(a, key), query[key])
  }

  /** The comprehension of `search`, in bucket order. */
  function Matching(b: Bucket, query: map<string, Field>): (r: seq<Artifact>)
    ensures |r| <= |b|
    ensures forall a :: a in r <==> a in b && MatchesQuery(a, query)
  {
    if b == [] then []
    else (if MatchesQuery(b[0], query) then [b[0]] else []) + Matching(b[1..], query)
  }

  /** `search(t, query)`. */
  function Search(s: Storage, t: string, query: map<string, Field>): (r: seq<Artifact>)
    ensures t !in s ==> r == []
    ensures forall a :: a in r <==> t in s && a in s[t] && MatchesQuery(a, query)
  {
    if t !in s then [] else Matching(s[t], query)
  }

  // ---------------------------------------------------------------------------
  // Properties of the operations

  /** After `store(a)`, `get_by_id(a.artifact_id, type(a))` returns `a`. */
  lemma StoreThenGet(s: Storage, a: Artifact)
    ensures ById(StoreInto(s, a), a.artifactId, a.className) == Some(a)
  {
    PutGet(if a.className in s then s[a.className] else [], a);
  }

  /** `store(a)` changes no other `(class, id)` entry and no other class. */
  lemma StoreChangesNothingElse(s: Storage, a: Artifact, id: string, t: string)
    requires t != a.className || id != a.artifactId
    ensures ById(StoreInto(s, a), id, t) == ById(s, id, t)
    ensures t != a.className ==> All(StoreInto(s, a), t) == All(s, t)
  {
    PutGet(if a.className in s then s[a.className] else [], a);
  }

  /** Storing an id that is already there replaces that entry in place: the
      bucket keeps its size and its order of ids. */
  lemma StoreReplacesInPlace(s: Storage, a: Artifact)
    requires a.className in s && a.artifactId in Ids(s[a.className])
    ensures |All(StoreInto(s, a), a.className)| == |All(s, a.className)|
    ensures Ids(All(StoreInto(s, a), a.className)) == Ids(All(s, a.className))
  {
    PutIds(s[a.className], a);
  }

  /** `store` keeps the store well formed. */
  lemma StoreKeepsValid(s: Storage, a: Artifact)
    requires ValidStorage(s)
    ensures ValidStorage(StoreInto(s, a))
  {
    var b := if a.className in s then s[a.className] else [];
    PutKeepsDistinct(b, a);
    var r := Put(b, a);
    forall i | 0 <= i < |r| ensures r[i].className == a.className {
      assert r[i] in r;
    }
  }

  /** `delete(id, t)` removes that entry and nothing else. */
  lemma DeleteRemovesOnly(s: Storage, id: string, t: string, id': string, t': string)
    requires t' != t || id' != id
    ensures ById(DeleteFrom(s, id, t), id, t) == None
    ensures ById(DeleteFrom(s, id, t), id', t') == ById(s, id', t')
  {
    if t in s {
      PopGet(s[t], id);
    }
  }

  /** Deleting an id or a class that is not there changes nothing. */
  lemma DeleteAbsentIsNoOp(s: Storage, id: string, t: string)
    requires ById(s, id, t) == None
    ensures DeleteFrom(s, id, t) == s
  {
    if t in s {
      assert Pop(s[t], id) == s[t];
    }
  }

  /** `delete` keeps the store well formed. */
  lemma DeleteKeepsValid(s: Storage, id: string, t: string)
    requires ValidStorage(s)
    ensures ValidStorage(DeleteFrom(s, id, t))
  {
    if t in s {
      PopKeepsDistinct(s[t], id);
      var r := Pop(s[t], id);
      forall i | 0 <= i < |r| ensures r[i].className == t {
        assert r[i] in r;
      }
    }
  }

  /** For a class never stored, every query is empty. */
  lemma UnknownClassIsEmpty(s: Storage, t: string, id: string, p: string, query: map<string, Field>)
    requires t !in s
    ensures ById(s, id, t) == None && Children(s, p, t) == [] && All(s, t) == []
    ensures Search(s, t, query) == []
  {
  }

  /** The comprehension keeps bucket order: matching a bucket split in two
      is matching each part, one after the other. */
  lemma {:induction false} MatchingAppend(b: Bucket, c: Bucket, query: map<string, Field>)
    ensures Matching(b + c, query) == Matching(b, query) + Matching(c, query)
  {
    if b != [] {
      assert (b + c)[1..] == b[1..] + c;
      MatchingAppend(b[1..], c, query);
    } else {
      assert b + c == c;
    }
  }

  /** Storing an artifact under a new id puts it last in the results of every
      search on its class that it matches, behind all earlier results. */
  lemma SearchAfterNewStore(s: Storage, a: Artifact, query: map<string, Field>)
    requires a.artifactId !in Ids(All(s, a.className))
    ensures Search(StoreInto(s, a), a.className, query)
            == Search(s, a.className, query) + (if MatchesQuery(a, query) then [a] else [])
  {
    var b := All(s, a.className);
    assert b == if a.className in s then s[a.className] else [];
    MatchingAppend(b, [a], query);
    assert Matching([a], query) == (if MatchesQuery(a, query) then [a] else []) + Matching([], query);
  }

  /** An empty query matches everything: `search(t, {})` is `get_all(t)`. */
  lemma {:induction false} SearchEmptyIsAll(s: Storage, t: string)
    ensures Search(s, t, map[]) == All(s, t)
  {
    if t in s {
      MatchingEverything(s[t]);
    }
  }

  lemma {:induction false} MatchingEverything(b: Bucket)
    ensures Matching(b, map[]) == b
  {
    if b != [] {
      MatchingEverything(b[1..]);
    }
  }

  /** `search(t, {"parent_id": p})` is `get_children(p, t)`, order included. */
  lemma SearchByParentIsChildren(s: Storage, t: string, p: string)
    ensures Search(s, t, map["parent_id" := Text(p)]) == Children(s, p, t)
  {
    if t in s {
      MatchingParent(s[t], p);
    }
  }

  lemma {:induction false} MatchingParent(b: Bucket, p: string)
    ensures Matching(b, map["parent_id" := Text(p)]) == WithParent(b, p)
  {
    if b != [] {
      MatchingParent(b[1..], p);
      assert MatchesQuery(b[0], map["parent_id" := Text(p)]) <==> b[0].parentId == Some(p) by {
        assert GetAttr(b[0], "parent_id") == Text(p) <==> b[0].parentId == Some(p);
      }
    }
  }

  // ---------------------------------------------------------------------------
  // The object

  class InMemoryDataManager {
    var storage: Storage

    ghost predicate Valid()
      reads this
    {
      ValidStorage(storage)
    }

    /** `__init__`: an empty store. */
    constructor()
      ensures storage == map[] && Valid()
    {
      storage := map[];
    }

    /** `store(artifact)`. */
    method Store(artifact: Artifact)
      requires Valid()
      modifies this
      ensures storage == StoreInto(old(storage), artifact)
      ensures Valid()
    {
      StoreKeepsValid(storage, artifact);
      if artifact.className !in storage {
        storage := storage[artifact.className := []];
      }
      storage := storage[artifact.className := Put(storage[artifact.className], artifact)];
    }

    /** `delete(artifact_id, artifact_type)`. */
    method Delete(artifactId: string, artifactType: string)
      requires Valid()
      modifies this
      ensures storage == DeleteFrom(old(storage), artifactId, artifactType)
      ensures Valid()
    {
      DeleteKeepsValid(storage, artifactId, artifactType);
      if artifactType in storage {
        storage := storage[artifactType := Pop(storage[artifactType], artifactId)];
      }
    }

    /** `get_by_id(artifact_id, artifact_type)`. */
    function GetById(artifactId: string, artifactType: string): Option<Artifact>
      reads this
    {
      ById(storage, artifactId, artifactType)
    }

    /** `get_children(parent_id, child_type)`. */
    function GetChildren(parentId: string, childType: string): seq<Artifact>
      reads this
    {
      Children(storage, parentId, childType)
    }

    /** `get_all(artifact_type)`. */
    function GetAll(artifactType: string): seq<Artifact>
      reads this
    {
      All(storage, artifactType)
    }

    /** `search(artifact_type, query)`. */
    function SearchFor(artifactType: string, query: map<string, Field>): seq<Artifact>
      reads this
    {
      Search(storage, artifactType, query)
    }
  }
}
