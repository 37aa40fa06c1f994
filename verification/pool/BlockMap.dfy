// The map from a key to the block or blocks cached under it. A single block is stored
// directly; two or more in an insertion-ordered dictionary by block id.
module BlockMap {
  import opened Seqs
  import opened BlockKeys
  import opened FreeQueue

  datatype Entry = One(block: KVCacheBlock) | Many(dict: seq<KVCacheBlock>) {
    function Members(): seq<KVCacheBlock> {
      match this
      case One(b) => [b]
      case Many(d) => d
    }
  }

  function Id(b: KVCacheBlock): nat {
    if b.blockId >= 0 then b.blockId else 0
  }

  function Ids(s: seq<KVCacheBlock>): seq<nat> {
    seq(|s|, i requires 0 <= i < |s| => Id(s[i]))
  }

  // The view with an id under a key: one already there keeps its place, a new one goes last.
  function Added(view: map<Key, seq<nat>>, key: Key, id: nat): map<Key, seq<nat>> {
    var ids := if key in view then view[key] else [];
    view[key := if id in ids then ids else ids + [id]]
  }

  // The view without an id under a key; no empty entry is kept.
  function Popped(view: map<Key, seq<nat>>, key: Key, id: nat): map<Key, seq<nat>> {
    if key !in view || id !in view[key] then view
    else
      var rest := Drop(view[key], {id});
      if rest == [] then view - {key} else view[key := rest]
  }

  class BlockHashToBlockMap {
    var cache: map<Key, Entry>
    // The blocks that may be cached here.
    ghost const owners: seq<KVCacheBlock>

    constructor (ghost owners: seq<KVCacheBlock>)
      ensures Valid() && View() == map[] && this.owners == owners
    {
      cache := map[];
      this.owners := owners;
    }

    ghost predicate Valid()
      reads this
    {
      forall k :: k in cache ==> EntryOk(cache[k]) && From(cache[k].Members())
    }

    static ghost predicate EntryOk(e: Entry) {
      && e.Members() != []
      && (forall b :: b in e.Members() ==> b.blockId >= 0)
      && Distinct(Ids(e.Members()))
    }

    // The ids cached under each key, oldest first.
    ghost function View(): map<Key, seq<nat>>
      reads this
    {
      map k | k in cache :: Ids(cache[k].Members())
    }

    ghost predicate From(members: seq<KVCacheBlock>) {
      forall b :: b in members ==> b in owners
    }

    method GetOneBlock(key: Key) returns (r: KVCacheBlock?)
      requires Valid()
      ensures r == null <==> key !in View()
      ensures r != null ==> r in owners && Id(r) == View()[key][0]
    {
      if key !in cache {
        return null;
      }
      assert From(cache[key].Members());
      match cache[key] {
        case One(b) => return b;
        case Many(d) => return d[0];
      }
    }

    method Contain(key: Key, id: nat) returns (r: bool)
      requires Valid()
      ensures r == (key in View() && id in View()[key])
    {
      if key !in cache {
        return false;
      }
      var members := cache[key].Members();
      match cache[key] {
        case One(b) =>
          assert Ids(members)[0] == b.blockId;
          return b.blockId == id;
        case Many(d) =>
          var i := Find(d, id);
          return i < |d|;
      }
    }

    // Position of the dictionary entry for id, or the length when there is none.
    static method Find(d: seq<KVCacheBlock>, id: nat) returns (i: nat)
      requires forall b :: b in d ==> b.blockId >= 0
      ensures i <= |d| && (i < |d| <==> id in Ids(d)) && (i < |d| ==> d[i].blockId == id)
    {
      i := 0;
      while i < |d| && d[i].blockId != id
        invariant i <= |d| && id !in Ids(d[..i])
      {
        assert Ids(d[..i + 1]) == Ids(d[..i]) + [Id(d[i])];
        i := i + 1;
      }
      if i < |d| {
        assert Ids(d)[i] == id;
      } else {
        assert d[..i] == d;
      }
    }

    // The dictionary with the block in it: a block already there keeps its place.
    static method Joined(entry: Entry, block: KVCacheBlock) returns (dict: seq<KVCacheBlock>)
      requires EntryOk(entry) && block.blockId >= 0
      ensures EntryOk(Many(dict))
      ensures var ids := Ids(entry.Members());
        Ids(dict) == if Id(block) in ids then ids else ids + [Id(block)]
      ensures forall b :: b in dict ==> b == block || b in entry.Members()
    {
      ghost var ids := Ids(entry.Members());
      match entry {
        case One(b) =>
          dict := if b.blockId == block.blockId then [block] else [b, block];
          assert ids == [Id(b)];
          assert Ids(dict) == if Id(b) == Id(block) then ids else ids + [Id(block)];
        case Many(d) =>
          var i := Find(d, block.blockId);
          dict := if i < |d| then d[i := block] else d + [block];
          assert Ids(dict) == if i < |d| then ids else ids + [Id(block)];
      }
    }

    method Insert(key: Key, block: KVCacheBlock)
      requires Valid() && block.blockId >= 0 && block in owners
      modifies this
      ensures Valid()
      ensures View() == Added(old(View()), key, Id(block))
    {
      var entry;
      if key !in cache {
        entry := One(block);
        assert Ids([block]) == [] + [Id(block)];
      } else {
        assert EntryOk(cache[key]) && From(cache[key].Members());
        var dict := Joined(cache[key], block);
        entry := Many(dict);
      }
      Put(key, entry);
    }

    // The block with the id, if any, and what is left of the entry.
    static method Without(entry: Entry, id: nat) returns (r: KVCacheBlock?, rest: seq<KVCacheBlock>)
      requires EntryOk(entry)
      ensures r != null <==> id in Ids(entry.Members())
      ensures r != null ==> r.blockId == id && r in entry.Members()
      ensures Ids(rest) == Drop(Ids(entry.Members()), {id}) && Distinct(Ids(rest))
      ensures r == null ==> rest == entry.Members()
      ensures forall b :: b in rest ==> b in entry.Members()
    {
      ghost var ids := Ids(entry.Members());
      DropDistinct(ids, {id});
      match entry {
        case One(b) =>
          assert ids == [Id(b)];
          if b.blockId == id {
            return b, [];
          }
          return null, [b];
        case Many(d) =>
          var i := Find(d, id);
          if i == |d| {
            DropNothing(ids, {id});
            return null, d;
          }
          DropAt(ids, i);
          assert Ids(d[..i] + d[i + 1..]) == ids[..i] + ids[i + 1..];
          return d[i], d[..i] + d[i + 1..];
      }
    }

    method Pop(key: Key, id: nat) returns (r: KVCacheBlock?)
      requires Valid()
      modifies this
      ensures Valid()
      ensures r != null <==> key in old(View()) && id in old(View())[key]
      ensures r != null ==> r.blockId == id
      ensures View() == Popped(old(View()), key, id)
    {
      if key !in cache {
        return null;
      }
      var entry := cache[key];
      assert EntryOk(entry) && From(entry.Members());
      var rest;
      r, rest := Without(entry, id);
      cache := cache - {key};
      ghost var view := View();
      assert view == old(View()) - {key};
      if r == null {
        Put(key, entry);
        assert view[key := old(View())[key]] == old(View());
      } else if |rest| > 0 {
        assert Ids(rest) != [];
        Put(key, Many(rest));
        assert view[key := Ids(rest)] == old(View())[key := Ids(rest)];
      } else {
        assert Ids(rest) == [];
      }
    }

    method Put(key: Key, entry: Entry)
      requires Valid() && EntryOk(entry) && From(entry.Members())
      modifies this
      ensures Valid() && View() == old(View())[key := Ids(entry.Members())]
    {
      cache := cache[key := entry];
    }
  }
}
