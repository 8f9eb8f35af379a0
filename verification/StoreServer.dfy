/** The OpenFGA server as far as stores themselves are concerned: it lists them page by page and
    creates, renames and deletes them. Calls take full effect or fail without effect. */
module StoreServer {
  import opened Paging
  import opened Wrappers

  datatype StoreInfo = StoreInfo(name: string, id: string)

  type StoreList = seq<StoreInfo>

  /** The first listed store of a name. */
  function FindFirst(stores: StoreList, name: string): Option<string> {
    if stores == [] then None
    else if stores[0].name == name then Some(stores[0].id)
    else FindFirst(stores[1..], name)
  }

  /** The last listed store of a name: what is found by walking all pages and keeping the latest. */
  function FindLast(stores: StoreList, name: string): Option<string> {
    if stores == [] then None
    else if stores[|stores| - 1].name == name then Some(stores[|stores| - 1].id)
    else FindLast(stores[..|stores| - 1], name)
  }

  predicate UniqueNames(stores: StoreList) {
    forall i, j :: 0 <= i < j < |stores| ==> stores[i].name != stores[j].name
  }

  predicate UniqueIds(stores: StoreList) {
    forall i, j :: 0 <= i < j < |stores| ==> stores[i].id != stores[j].id
  }

  predicate Named(stores: StoreList, name: string) {
    exists i :: 0 <= i < |stores| && stores[i].name == name
  }

  function NameOf(stores: StoreList, id: string): Option<string> {
    if stores == [] then None
    else if stores[0].id == id then Some(stores[0].name)
    else NameOf(stores[1..], id)
  }

  function Rename(stores: StoreList, id: string, name: string): (r: StoreList)
    ensures |r| == |stores|
    ensures forall i :: 0 <= i < |r| ==> r[i] == (if stores[i].id == id then StoreInfo(name, id) else stores[i])
  {
    seq(|stores|, i requires 0 <= i < |stores| => if stores[i].id == id then StoreInfo(name, id) else stores[i])
  }

  function Without(stores: StoreList, id: string): StoreList {
    if stores == [] then []
    else
      var last := stores[|stores| - 1];
      Without(stores[..|stores| - 1], id) + (if last.id == id then [] else [last])
  }

  lemma {:induction false} FindFirstIsListed(stores: StoreList, name: string)
    ensures FindFirst(stores, name).Some? ==> StoreInfo(name, FindFirst(stores, name).value) in stores
    ensures FindFirst(stores, name).None? ==> forall s :: s in stores ==> s.name != name
  {
    if stores != [] && stores[0].name != name {
      FindFirstIsListed(stores[1..], name);
      assert stores == [stores[0]] + stores[1..];
    }
  }

  lemma {:induction false} FindLastIsListed(stores: StoreList, name: string)
    ensures FindLast(stores, name).Some? ==> StoreInfo(name, FindLast(stores, name).value) in stores
    ensures FindLast(stores, name).None? ==> forall s :: s in stores ==> s.name != name
  {
    if stores != [] && stores[|stores| - 1].name != name {
      FindLastIsListed(stores[..|stores| - 1], name);
      assert stores == stores[..|stores| - 1] + [stores[|stores| - 1]];
    }
  }

  /** What is found first has no store of the name before it, and what is found last none after it. */
  lemma {:induction false} FindFirstIsFirst(stores: StoreList, name: string)
    ensures FindFirst(stores, name).Some? ==>
            exists i :: 0 <= i < |stores| && stores[i] == StoreInfo(name, FindFirst(stores, name).value)
                        && forall k :: 0 <= k < i ==> stores[k].name != name
  {
    if stores != [] && stores[0].name != name && FindFirst(stores, name).Some? {
      FindFirstIsFirst(stores[1..], name);
      var rest := stores[1..];
      var i :| 0 <= i < |rest| && rest[i] == StoreInfo(name, FindFirst(rest, name).value)
        && forall k :: 0 <= k < i ==> rest[k].name != name;
      assert stores[i + 1] == rest[i];
      assert forall k :: 0 < k < i + 1 ==> stores[k] == rest[k - 1];
    }
  }

  lemma {:induction false} FindLastIsLast(stores: StoreList, name: string)
    ensures FindLast(stores, name).Some? ==>
            exists i :: 0 <= i < |stores| && stores[i] == StoreInfo(name, FindLast(stores, name).value)
                        && forall k :: i < k < |stores| ==> stores[k].name != name
  {
    var n := |stores| - 1;
    if stores != [] && stores[n].name != name && FindLast(stores, name).Some? {
      FindLastIsLast(stores[..n], name);
      var rest := stores[..n];
      var i :| 0 <= i < |rest| && rest[i] == StoreInfo(name, FindLast(rest, name).value)
        && forall k :: i < k < |rest| ==> rest[k].name != name;
      assert stores[i] == rest[i];
      assert forall k :: i < k < n ==> stores[k] == rest[k];
    }
  }

  /** With unique names, the first and the last store of a name are the same one. */
  lemma UniqueLookup(stores: StoreList, name: string, id: string)
    requires UniqueNames(stores)
    requires StoreInfo(name, id) in stores
    ensures FindFirst(stores, name) == FindLast(stores, name) == Some(id)
  {
    FindFirstIsListed(stores, name);
    FindLastIsListed(stores, name);
  }

  lemma {:induction false} NameOfListed(stores: StoreList, id: string)
    ensures NameOf(stores, id).Some? ==> StoreInfo(NameOf(stores, id).value, id) in stores
    ensures NameOf(stores, id).None? ==> forall s :: s in stores ==> s.id != id
  {
    if stores != [] && stores[0].id != id {
      NameOfListed(stores[1..], id);
      assert stores == [stores[0]] + stores[1..];
    }
  }

  lemma {:induction false} WithoutMembers(stores: StoreList, id: string)
    ensures forall s :: s in Without(stores, id) <==> s in stores && s.id != id
  {
    if stores != [] {
      WithoutMembers(stores[..|stores| - 1], id);
      assert stores == stores[..|stores| - 1] + [stores[|stores| - 1]];
    }
  }

  lemma {:induction false} WithoutKeeps(stores: StoreList, id: string)
    ensures UniqueNames(stores) ==> UniqueNames(Without(stores, id))
    ensures UniqueIds(stores) ==> UniqueIds(Without(stores, id))
  {
    if stores != [] {
      var front, last := stores[..|stores| - 1], stores[|stores| - 1];
      WithoutKeeps(front, id);
      WithoutMembers(front, id);
      LastIsUnique(stores);
      if last.id != id {
        AppendUnique(Without(front, id), last);
      }
    }
  }

  lemma LastIsUnique(stores: StoreList)
    requires stores != []
    ensures var front, last := stores[..|stores| - 1], stores[|stores| - 1];
            && (UniqueNames(stores) ==> UniqueNames(front) && forall s :: s in front ==> s.name != last.name)
            && (UniqueIds(stores) ==> UniqueIds(front) && forall s :: s in front ==> s.id != last.id)
  {
  }

  lemma AppendUnique(stores: StoreList, last: StoreInfo)
    ensures UniqueNames(stores) && (forall s :: s in stores ==> s.name != last.name) ==> UniqueNames(stores + [last])
    ensures UniqueIds(stores) && (forall s :: s in stores ==> s.id != last.id) ==> UniqueIds(stores + [last])
  {
    assert forall i :: 0 <= i < |stores| ==> stores[i] in stores;
  }

  lemma LongerThanAll(ids: set<string>) returns (id: string)
    ensures forall other :: other in ids ==> |other| < |id|
    ensures id !in ids
  {
    if ids == {} {
      id := "x";
    } else {
      var one :| one in ids;
      var rest := LongerThanAll(ids - {one});
      id := rest + one + "x";
      assert forall other :: other in ids ==> other == one || other in ids - {one};
    }
  }

  class StoreServer {
    var stores: StoreList

    /** Every ID ever handed out. */
    var usedIds: set<string>

    const paging: StoreList -> Listing<StoreInfo>

    /** No call fails for reasons of its own. */
    const reliable: bool

    constructor (stores: StoreList, paging: StoreList -> Listing<StoreInfo>, reliable: bool)
      ensures this.stores == stores && this.paging == paging && this.reliable == reliable
      ensures usedIds == set s | s in stores :: s.id
    {
      this.stores, this.paging, this.reliable := stores, paging, reliable;
      usedIds := set s | s in stores :: s.id;
    }

    ghost predicate Complete() {
      forall answer: StoreList :: paging(answer).Valid() && Flatten(paging(answer).pages) == answer
    }

    method ListStores(token: string) returns (r: Result<Response<StoreInfo>>)
      requires Complete()
      ensures r.Ok? ==> var l := paging(stores);
                        exists i :: 0 <= i < |l.pages| && l.tokens[i] == token && r.value == l.Reply(i)
      ensures reliable && token in paging(stores).tokens ==> r.Ok?
    {
      var ok: bool := *;
      var l := paging(stores);
      var i := l.Find(token);
      r := if (reliable || ok) && i < |l.pages| then Ok(l.Reply(i)) else Err;
    }

    /** Creates a store under an ID never used before. */
    method CreateStore(name: string) returns (r: Result<string>)
      modifies this
      ensures r.Err? ==> stores == old(stores) && usedIds == old(usedIds)
      ensures r.Ok? ==>
                && r.value !in old(usedIds) && r.value != ""
                && usedIds == old(usedIds) + {r.value}
                && stores == old(stores) + [StoreInfo(name, r.value)]
      ensures reliable ==> r.Ok?
    {
      var ok: bool := *;
      if !(reliable || ok) {
        return Err;
      }
      ghost var unused := LongerThanAll(usedIds + {""});
      var id: string :| id !in usedIds && id != "";
      stores := stores + [StoreInfo(name, id)];
      usedIds := usedIds + {id};
      r := Ok(id);
    }

    method GetStore(id: string) returns (r: Result<string>)
      ensures r.Ok? ==> NameOf(stores, id) == Some(r.value)
      ensures reliable ==> (r.Ok? <==> NameOf(stores, id).Some?)
    {
      var ok: bool := *;
      var name := NameOf(stores, id);
      r := if (reliable || ok) && name.Some? then Ok(name.value) else Err;
    }

    method UpdateStore(id: string, name: string) returns (ok: bool)
      modifies this`stores
      ensures ok ==> NameOf(old(stores), id).Some? && stores == Rename(old(stores), id, name)
      ensures !ok ==> stores == old(stores)
      ensures reliable ==> (ok <==> NameOf(old(stores), id).Some?)
    {
      ok := *;
      ok := (reliable || ok) && NameOf(stores, id).Some?;
      if ok {
        stores := Rename(stores, id, name);
      }
    }

    /** A store that does not exist is reported as such, which is no failure of the call. */
    method DeleteStore(id: string) returns (r: Result<bool>)
      modifies this`stores
      ensures r.Err? ==> stores == old(stores)
      ensures r.Ok? ==> r.value == NameOf(old(stores), id).Some? && stores == Without(old(stores), id)
      ensures reliable ==> r.Ok?
    {
      var ok: bool := *;
      if !(reliable || ok) {
        return Err;
      }
      var existed := NameOf(stores, id).Some?;
      stores := Without(stores, id);
      r := Ok(existed);
    }
  }
}
