// The event log and what it says about each key.
module Events {
  import opened Wrappers
  import opened BlockKeys

  datatype Event =
    | BlockStored(hashes: seq<Bytes>, parent: Option<Bytes>, startToken: nat, endToken: nat, blockSize: nat, group: nat)
    | BlockRemoved(hash: Bytes, removedGroup: nat)
    | AllBlocksCleared

  // How often a stored event announces the key.
  function Announced(hashes: seq<Bytes>, group: nat, k: Key): nat
    requires group < GROUP_LIMIT
  {
    if hashes == [] then 0
    else Announced(hashes[..|hashes| - 1], group, k) + if MakeKey(hashes[|hashes| - 1], group) == k then 1 else 0
  }

  function Effect(e: Event, k: Key): int {
    match e
    case BlockStored(hashes, _, _, _, _, group) => if group < GROUP_LIMIT then Announced(hashes, group, k) else 0
    case BlockRemoved(hash, group) => if group < GROUP_LIMIT && MakeKey(hash, group) == k then -1 else 0
    case AllBlocksCleared => 0
  }

  // Announcements minus removals of the key since the last clear.
  function Net(log: seq<Event>, k: Key): int {
    if log == [] || log[|log| - 1].AllBlocksCleared? then 0
    else Net(log[..|log| - 1], k) + Effect(log[|log| - 1], k)
  }

  lemma NetSnoc(log: seq<Event>, e: Event, k: Key)
    ensures Net(log + [e], k) == if e.AllBlocksCleared? then 0 else Net(log, k) + Effect(e, k)
  {
    assert (log + [e])[..|log|] == log;
  }

  function RemovedEvent(key: Key): Event {
    BlockRemoved(GetBlockHash(key), GetGroupId(key))
  }

  lemma RemovedEffect(key: Key, k: Key)
    requires |key| >= 4
    ensures Effect(RemovedEvent(key), k) == if k == key then -1 else 0
  {
    KeyRepack(key);
  }

  lemma NetRemoved(log: seq<Event>, key: Key, k: Key)
    requires |key| >= 4
    ensures Net(log + [RemovedEvent(key)], k) == Net(log, k) - if k == key then 1 else 0
  {
    NetSnoc(log, RemovedEvent(key), k);
    RemovedEffect(key, k);
  }

  lemma NetStored(log: seq<Event>, e: Event, k: Key)
    requires e.BlockStored? && e.group < GROUP_LIMIT
    ensures Net(log + [e], k) == Net(log, k) + Announced(e.hashes, e.group, k)
  {
    NetSnoc(log, e, k);
  }

  lemma AnnouncedSnoc(hashes: seq<Bytes>, hash: Bytes, group: nat, k: Key)
    requires group < GROUP_LIMIT
    ensures Announced(hashes + [hash], group, k) ==
              Announced(hashes, group, k) + if MakeKey(hash, group) == k then 1 else 0
  {
    assert (hashes + [hash])[..|hashes|] == hashes;
  }
}
