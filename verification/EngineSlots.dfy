/** A native engine as the adapter may count on it: one record per slot, the slot chosen by a hash of the key, and any
  * slot may be emptied at any time. */
module EngineSlots {
  import opened Wrappers
  import opened Record

  type Key = seq<Byte>
  type Slots = map<int, seq<Byte>>

  /** What a lookup of p finds after the adapter's full-key check. */
  function Held(slots: Slots, hash: Key -> int, p: Key): Option<Entry> {
    if hash(p) !in slots then None
    else
      match DecodeRecord(slots[hash(p)])
      case Err(_) => None
      case Ok(e) => if e.key == p then Some(e) else None
  }

  predicate Damaged(slots: Slots, hash: Key -> int, p: Key) {
    hash(p) in slots && DecodeRecord(slots[hash(p)]).Err?
  }

  ghost predicate Genuine(data: seq<Byte>, t: int, hash: Key -> int, last: map<Key, Entry>, sequence: nat) {
    match DecodeRecord(data)
    case Err(_) => true
    case Ok(e) => hash(e.key) == t && e.key in last && last[e.key] == e && e.sequence <= sequence
  }

  /** Every record that can be read is the last one written for its own key; the others are damaged. */
  ghost predicate Sound(slots: Slots, hash: Key -> int, last: map<Key, Entry>, sequence: nat) {
    && (forall t :: t in slots ==> Genuine(slots[t], t, hash, last, sequence))
    && (forall p :: p in last ==> last[p].key == p && last[p].sequence <= sequence)
  }

  /** The entries of every pair but p are kept or lost, never replaced. */
  ghost predicate OthersSurvive(before: Slots, after: Slots, hash: Key -> int, p: Key) {
    forall q :: q != p ==> Held(after, hash, q) == Held(before, hash, q) || Held(after, hash, q) == None
  }

  /** Nothing but what the engine dropped on its own is missing. */
  ghost predicate OthersKept(before: Slots, after: Slots, hash: Key -> int, p: Key, dropped: set<int>) {
    forall q :: q != p && hash(q) !in dropped ==> Held(after, hash, q) == Held(before, hash, q)
  }

  lemma HeldIsLast(slots: Slots, hash: Key -> int, last: map<Key, Entry>, sequence: nat, p: Key)
    requires Sound(slots, hash, last, sequence)
    ensures Held(slots, hash, p).Some? ==> p in last && last[p] == Held(slots, hash, p).value
  {
    if hash(p) in slots {
      assert Genuine(slots[hash(p)], hash(p), hash, last, sequence);
    }
  }

  lemma LoseKeeps(slots: Slots, hash: Key -> int, last: map<Key, Entry>, sequence: nat, dropped: set<int>, p: Key)
    requires Sound(slots, hash, last, sequence)
    ensures Sound(slots - dropped, hash, last, sequence)
    ensures OthersSurvive(slots, slots - dropped, hash, p) && OthersKept(slots, slots - dropped, hash, p, dropped)
    ensures Held(slots - dropped, hash, p) == if hash(p) in dropped then None else Held(slots, hash, p)
  {
  }

  /** Storing a stamped record makes it the last one of its key; a colliding pair is lost. */
  lemma WriteKeeps(slots: Slots, hash: Key -> int, last: map<Key, Entry>, sequence: nat, e: Entry)
    requires Sound(slots, hash, last, sequence) && Storable(e) && e.sequence == sequence + 1
    ensures var after := slots[hash(e.key) := Bytes(e)];
            && Sound(after, hash, last[e.key := e], sequence + 1)
            && OthersSurvive(slots, after, hash, e.key)
            && Held(after, hash, e.key) == Some(e)
  {
    DecodeOfEncode(e);
    var after := slots[hash(e.key) := Bytes(e)];
    var newer := last[e.key := e];
    forall t | t in after ensures Genuine(after[t], t, hash, newer, sequence + 1) {
      if t != hash(e.key) {
        assert Genuine(slots[t], t, hash, last, sequence);
      }
    }
  }

  /** Deleting after the full-key check takes the pair's own record and nothing else. */
  lemma DeleteKeeps(slots: Slots, hash: Key -> int, last: map<Key, Entry>, sequence: nat, p: Key)
    requires Sound(slots, hash, last, sequence) && (Held(slots, hash, p).Some? || hash(p) !in slots)
    ensures var after := slots - {hash(p)};
            && Sound(after, hash, last - {p}, sequence)
            && hash(p) !in after && Held(after, hash, p) == None
            && OthersKept(slots, after, hash, p, {})
  {
    var after := slots - {hash(p)};
    forall t | t in after ensures Genuine(after[t], t, hash, last - {p}, sequence) {
      assert Genuine(slots[t], t, hash, last, sequence);
    }
  }

  /** When the slot holds another pair's record, the pair has none and may be forgotten. */
  lemma AbsentKeeps(slots: Slots, hash: Key -> int, last: map<Key, Entry>, sequence: nat, p: Key)
    requires Sound(slots, hash, last, sequence) && Held(slots, hash, p).None?
    ensures Sound(slots, hash, last - {p}, sequence)
  {
    forall t | t in slots ensures Genuine(slots[t], t, hash, last - {p}, sequence) {
      assert Genuine(slots[t], t, hash, last, sequence);
    }
  }

  /** No record already in the engine equals the one about to be written: an engine that finds it afterwards has taken
    * it. */
  lemma RecordIsNew(slots: Slots, hash: Key -> int, last: map<Key, Entry>, sequence: nat, e: Entry, t: int)
    requires Sound(slots, hash, last, sequence) && Storable(e) && e.sequence == sequence + 1 && t in slots
    ensures slots[t] != Bytes(e)
  {
    DecodeOfEncode(e);
    assert Genuine(slots[t], t, hash, last, sequence);
  }
}
