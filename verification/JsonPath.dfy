/** Path lookup and update, `JsonValue::getKeys` and `JsonValue::set`. */
module JsonPath {
  import opened Json

  datatype Key = Name(name: string) | Index(index: int)

  datatype Option<+T> = None | Some(value: T)

  /** `std::find` over the members: the first with the given key. */
  function Find(ms: seq<Member>, key: string): (i: int)
    ensures -1 <= i < |ms|
    ensures i >= 0 ==> ms[i].key == key && forall j :: 0 <= j < i ==> ms[j].key != key
    ensures i == -1 ==> forall m <- ms :: m.key != key
  {
    if ms == [] then -1
    else if ms[0].key == key then 0
    else var i := Find(ms[1..], key); if i == -1 then -1 else i + 1
  }

  function GetKey(v: Json, key: Key): Option<Json> {
    match key
    case Name(name) =>
      if !v.Hash? || Find(v.members, name) == -1 then None else Some(v.members[Find(v.members, name)].value)
    case Index(i) =>
      if v.Array? && 0 <= i < |v.elems| then Some(v.elems[i]) else None
  }

  function Get(v: Json, keys: seq<Key>): Option<Json> {
    if keys == [] then Some(v)
    else match GetKey(v, keys[0])
      case None => None
      case Some(w) => Get(w, keys[1..])
  }

  /** A key that is missing turns the node into an object with that one member. Here any tree may be set, where the
      source takes a number, a string or a boolean. */
  function Set(v: Json, val: Json, keys: seq<string>): Json
    decreases |keys|
  {
    if keys == [] then val
    else
      var i := if v.Hash? then Find(v.members, keys[0]) else -1;
      if i == -1 then Hash([Member(keys[0], Set(Null, val, keys[1..]))])
      else Hash(v.members[i := Member(keys[0], Set(v.members[i].value, val, keys[1..]))])
  }

  function Names(keys: seq<string>): (r: seq<Key>)
    ensures |r| == |keys| && forall i :: 0 <= i < |keys| ==> r[i] == Name(keys[i])
  {
    seq(|keys|, i requires 0 <= i < |keys| => Name(keys[i]))
  }

  /** How many of the keys, from the first, lead somewhere. */
  function Found(v: Json, keys: seq<string>): (d: nat)
    ensures d <= |keys|
    decreases |keys|
  {
    if keys == [] then 0
    else match GetKey(v, Name(keys[0]))
      case None => 0
      case Some(w) => 1 + Found(w, keys[1..])
  }

  lemma {:induction false} GetLast(v: Json, path: seq<Key>, key: Key)
    ensures Get(v, path + [key]) == match Get(v, path) case None => None case Some(w) => GetKey(w, key)
    decreases |path|
  {
    if path == [] {
      assert path + [key] == [key];
      assert GetKey(v, key).Some? ==> Get(GetKey(v, key).value, []) == GetKey(v, key);
    } else {
      assert (path + [key])[1..] == path[1..] + [key];
      if GetKey(v, path[0]).Some? {
        GetLast(GetKey(v, path[0]).value, path[1..], key);
      }
    }
  }

  /** An index leads on exactly from an array that is long enough, to the element at that place. */
  lemma GetByIndex(v: Json, path: seq<Key>, i: int)
    ensures Get(v, []) == Some(v)
    ensures match Get(v, path)
            case Some(Array(elems)) =>
              Get(v, path + [Index(i)]) == if 0 <= i < |elems| then Some(elems[i]) else None
            case _ => Get(v, path + [Index(i)]) == None
  {
    GetLast(v, path, Index(i));
  }

  ghost predicate IsFirst(ms: seq<Member>, k: nat, name: string) {
    k < |ms| && ms[k].key == name && forall j :: 0 <= j < k ==> ms[j].key != name
  }

  /** A name leads on exactly from an object that has a member of that name, to the value of the first. */
  lemma GetByName(v: Json, path: seq<Key>, name: string)
    ensures match Get(v, path)
            case Some(Hash(ms)) =>
              && (Get(v, path + [Name(name)]) == None <==> forall m <- ms :: m.key != name)
              && forall k: nat | IsFirst(ms, k, name) :: Get(v, path + [Name(name)]) == Some(ms[k].value)
            case _ => Get(v, path + [Name(name)]) == None
  {
    GetLast(v, path, Name(name));
    if Get(v, path).Some? && Get(v, path).value.Hash? {
      var ms := Get(v, path).value.members;
      forall k: nat | IsFirst(ms, k, name) ensures Find(ms, name) == k {
        assert ms[k] in ms;
      }
    }
  }

  /** An insert along at least one key leaves an object; every member but the first with that key stays as it is
      and where it is, and without such a member the new one is alone. */
  lemma SetMembers(v: Json, val: Json, keys: seq<string>)
    requires keys != []
    ensures Set(v, val, keys).Hash?
    ensures var ms := Set(v, val, keys).members;
            if v.Hash? && exists m <- v.members :: m.key == keys[0] then
              && |ms| == |v.members|
              && forall k | 0 <= k < |ms| ::
                   ms[k].key == v.members[k].key && (!IsFirst(v.members, k, keys[0]) ==> ms[k] == v.members[k])
            else |ms| == 1 && ms[0].key == keys[0]
  {
    var i := if v.Hash? then Find(v.members, keys[0]) else -1;
    assert i >= 0 ==> IsFirst(v.members, i, keys[0]);
  }

  /** Replacing the value of the first member with a key keeps every lookup by another key. */
  lemma {:induction false} FindAfterUpdate(ms: seq<Member>, i: nat, val: Json, key: string)
    requires i < |ms|
    ensures Find(ms[i := Member(ms[i].key, val)], key) == Find(ms, key)
  {
    var ms' := ms[i := Member(ms[i].key, val)];
    if i == 0 {
      assert ms'[1..] == ms[1..];
    } else {
      assert ms'[1..] == ms[1..][i - 1 := Member(ms[i].key, val)];
      FindAfterUpdate(ms[1..], i - 1, val, key);
    }
  }

  /** One level of `Set`: the child under the first key, and what became of every other child. */
  lemma SetLevel(v: Json, val: Json, keys: seq<string>, key: Key)
    requires keys != []
    ensures var child := match GetKey(v, Name(keys[0])) { case None => Null case Some(w) => w };
            GetKey(Set(v, val, keys), Name(keys[0])) == Some(Set(child, val, keys[1..]))
    ensures key != Name(keys[0]) ==>
              GetKey(Set(v, val, keys), key) == if GetKey(v, Name(keys[0])).None? then None else GetKey(v, key)
  {
    var i := if v.Hash? then Find(v.members, keys[0]) else -1;
    var w := Set(v, val, keys);
    if i == -1 {
      assert w.members[1..] == [];
    } else {
      var c := Set(v.members[i].value, val, keys[1..]);
      assert w.members == v.members[i := Member(v.members[i].key, c)];
      FindAfterUpdate(v.members, i, c, keys[0]);
      if key.Name? {
        FindAfterUpdate(v.members, i, c, key.name);
      }
    }
  }

  /** After an insert, a get along the same keys reaches the value. */
  lemma {:induction false} GetAfterSet(v: Json, val: Json, keys: seq<string>)
    ensures Get(Set(v, val, keys), Names(keys)) == Some(val)
    decreases |keys|
  {
    if keys != [] {
      SetLevel(v, val, keys, Name(keys[0]));
      assert Names(keys)[1..] == Names(keys[1..]);
      var child := match GetKey(v, Name(keys[0])) { case None => Null case Some(w) => w };
      GetAfterSet(child, val, keys[1..]);
    }
  }

  lemma NothingBelowNull(path: seq<Key>)
    ensures path != [] ==> Get(Null, path) == None
  {
  }

  /** What an insert does to any path that leaves the keys at position `j`: nothing, unless that is the
      very node where the first missing key was added. That node keeps no other child. */
  lemma {:induction false} SetElsewhere(v: Json, val: Json, keys: seq<string>, path: seq<Key>, j: nat)
    requires j < |keys| && j < |path|
    requires path[..j] == Names(keys)[..j] && path[j] != Name(keys[j])
    ensures Get(Set(v, val, keys), path) == if j == Found(v, keys) then None else Get(v, path)
    decreases |keys|
  {
    SetLevel(v, val, keys, path[0]);
    if j > 0 {
      assert path[0] == path[..j][0] == Name(keys[0]);
      assert path[1..][..j - 1] == path[..j][1..];
      assert Names(keys[1..])[..j - 1] == Names(keys)[..j][1..];
      var child := match GetKey(v, Name(keys[0])) { case None => Null case Some(w) => w };
      SetElsewhere(child, val, keys[1..], path[1..], j - 1);
      if GetKey(v, Name(keys[0])).None? {
        NothingBelowNull(path[1..]);
      }
    }
  }
}
