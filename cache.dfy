/**
 * Cache: the response cache, a hash from canonical question strings to
 * CacheData, with add, find (lazy expiry and fix-up) and delete.
 *
 * The store is modelled twice: as the class `Cache`, whose methods change
 * the hash and the CacheData objects in place as the source does, and as
 * the value `Store` (key to `Entry`), on which the state transitions are
 * functions and the properties that span several calls are lemmas. Each
 * method's postcondition ties the object state to the function.
 */
module DnsCache {
  import opened DnsMessage
  import opened CacheKeys
  import opened CacheEntry

  /**
   * A key of the hash. `add` and `find` index it by the key's string;
   * `delete` hands it the key object itself.
   */
  datatype HashKey = Text(text: string) | KeyObject(key: CacheKey)

  /** The hash's contents, each CacheData by its value. */
  type Store = map<HashKey, Entry>

  /** Key `k` is the string of the key of `e`'s first question. */
  predicate FiledUnder(r: Renderer, k: HashKey, e: Entry)
  {
    k.Text? && |e.stored.question| > 0 && k.text == AddKey(r, e.stored.question[0])
  }

  /** Every entry holds a message with a question (`add` indexed its first). */
  predicate Wellformed(s: Store)
  {
    forall k | k in s :: |s[k].stored.question| > 0
  }

  /**
   * `add`: a new entry for `m`, made at `now`, under the key of its first
   * question, replacing any earlier one; every other key is untouched.
   */
  function Added(s: Store, r: Renderer, m: Message, now: int): (s': Store)
    requires |m.question| > 0
    ensures Text(AddKey(r, m.question[0])) in s'
    ensures s'[Text(AddKey(r, m.question[0]))] == NewEntry(m, now)
    ensures forall k :: k != Text(AddKey(r, m.question[0])) ==> (k in s' <==> k in s)
    ensures forall k :: k != Text(AddKey(r, m.question[0])) && k in s ==> s'[k] == s[k]
  {
    s[Text(AddKey(r, m.question[0])) := NewEntry(m, now)]
  }

  /** The hash after a lookup, and the message returned (None for nil). */
  datatype Found = Found(store: Store, reply: Option<Message>)

  /**
   * `find` under `key` at `now`: a miss on an absent key; an entry with
   * expiration at or before `now` is removed and missed; a fresh entry has
   * its stored TTLs lowered in place and its fixed-up reply returned.
   */
  function Lookup(s: Store, key: string, now: int): Found
    requires Wellformed(s)
  {
    if Text(key) !in s then Found(s, None)
    else if s[Text(key)].expiration <= now then Found(s - {Text(key)}, None)
    else
      var e := Retrieved(s[Text(key)], now);
      Found(s[Text(key) := e], Some(ReplyOf(e.stored)))
  }

  /** A lookup of an absent key misses and changes nothing. */
  lemma FindAbsent(s: Store, key: string, now: int)
    requires Wellformed(s) && Text(key) !in s
    ensures Lookup(s, key, now) == Found(s, None)
  {
  }

  /** A lookup of an expired entry misses and removes exactly that key. */
  lemma FindExpired(s: Store, key: string, now: int)
    requires Wellformed(s) && Text(key) in s && s[Text(key)].expiration <= now
    ensures Lookup(s, key, now).reply == None
    ensures Lookup(s, key, now).store.Keys == s.Keys - {Text(key)}
    ensures forall k :: k in Lookup(s, key, now).store ==> Lookup(s, key, now).store[k] == s[k]
  {
  }

  /**
   * A lookup of a fresh entry returns the stored first question with AA
   * clear and, section by section, every stored record in the stored order
   * with its TTL lowered by the seconds since storing; the entry keeps its
   * times and its stored TTLs drop by the same amount.
   */
  lemma FindFresh(s: Store, key: string, now: int)
    requires Wellformed(s) && Text(key) in s && s[Text(key)].expiration > now
    ensures var e, f := s[Text(key)], Lookup(s, key, now);
      && f.reply.Some?
      && f.store.Keys == s.Keys
      && (forall k :: k in s && k != Text(key) ==> f.store[k] == s[k])
      && f.store[Text(key)].expiration == e.expiration
      && f.store[Text(key)].timeStored == e.timeStored
      && f.store[Text(key)].stored == Decrement(e.stored, now - e.timeStored)
      && f.reply.value.question == [e.stored.question[0]]
      && !f.reply.value.aa
      && |f.reply.value.sections| == |e.stored.sections|
      && forall i :: 0 <= i < |e.stored.sections| ==>
           Records(f.reply.value.sections[i]) == LoweredRecords(Records(e.stored.sections[i]), now - e.timeStored)
  {
    var e := s[Text(key)];
    ReplyContents(e.stored, now - e.timeStored);
  }

  /**
   * Two fresh lookups of the same entry lower the stored TTLs twice: the
   * second reply's TTLs are the stored ones less both elapsed times.
   */
  lemma RepeatedFindsAccumulate(s: Store, key: string, t1: int, t2: int)
    requires Wellformed(s) && Text(key) in s && s[Text(key)].expiration > t1
    requires s[Text(key)].expiration > t2
    ensures var e := s[Text(key)];
      var first := Lookup(s, key, t1);
      Wellformed(first.store) &&
      var second := Lookup(first.store, key, t2);
      var lowered := (t1 - e.timeStored) + (t2 - e.timeStored);
      && second.store[Text(key)].stored == Decrement(e.stored, lowered)
      && second.reply == Some(ReplyOf(Decrement(e.stored, lowered)))
      && forall i :: 0 <= i < |e.stored.sections| ==>
           Records(second.reply.value.sections[i]) == LoweredRecords(Records(e.stored.sections[i]), lowered)
  {
    var e := s[Text(key)];
    var lowered := (t1 - e.timeStored) + (t2 - e.timeStored);
    DecrementTwice(e.stored, t1 - e.timeStored, t2 - e.timeStored);
    ReplyContents(e.stored, lowered);
  }

  /**
   * Adding a message whose non-OPT TTLs are all positive, one of them below
   * the sentinel, and finding its question in the same second returns the
   * message's question and records with their TTLs unchanged.
   */
  lemma AddThenFind(s: Store, r: Renderer, m: Message, now: int)
    requires Wellformed(s) && |m.question| > 0 && HasShortTtl(m)
    requires forall i, j :: 0 <= i < |m.sections| && 0 <= j < |m.sections[i]| && !m.sections[i][j].isOpt ==>
      m.sections[i][j].ttl > 0
    ensures var q := m.question[0];
      var f := Lookup(Added(s, r, m, now), FindKey(r, q.qname, q.qtype, Some(q.qclass)), now);
      && f.reply == Some(ReplyOf(m))
      && f.store == Added(s, r, m, now)
      && f.reply.value.question == [q]
      && forall i :: 0 <= i < |m.sections| ==> Records(f.reply.value.sections[i]) == Records(m.sections[i])
  {
    var q := m.question[0];
    AddFindAgree(r, q);
    DecrementZero(m);
    ReplyContents(m, 0);
    NewEntryExpiry(m, now);
    forall i | 0 <= i < |m.sections| ensures LoweredRecords(Records(m.sections[i]), 0) == Records(m.sections[i]) {
    }
  }

  /**
   * An added message with some non-OPT TTL below the sentinel expires
   * exactly when the least non-OPT TTL has elapsed: until then a lookup
   * hits, from then on it misses and removes the entry.
   */
  lemma AddedFreshUntilMinTtl(s: Store, r: Renderer, m: Message, t: int, now: int)
    requires Wellformed(s) && |m.question| > 0 && HasShortTtl(m)
    ensures var q := m.question[0];
      var f := Lookup(Added(s, r, m, t), AddKey(r, q), now);
      (f.reply.Some? <==>
         forall i, j :: 0 <= i < |m.sections| && 0 <= j < |m.sections[i]| && !m.sections[i][j].isOpt ==>
           t + m.sections[i][j].ttl > now) &&
      (f.reply == None ==> Text(AddKey(r, q)) !in f.store)
  {
    ExpirationCases(m, t);
  }

  /**
   * A message with no TTL below the sentinel (no rrsets at all, for one)
   * gets expiration 0, so no lookup at a non-negative time returns it: the
   * first one removes it.
   */
  lemma NoShortTtlNeverReturned(s: Store, r: Renderer, m: Message, t: int, now: nat)
    requires Wellformed(s) && |m.question| > 0 && !HasShortTtl(m)
    ensures var key := AddKey(r, m.question[0]);
      var f := Lookup(Added(s, r, m, t), key, now);
      f.reply == None && Text(key) !in f.store
  {
    NewEntryExpiry(m, t);
  }

  /** Every entry sits under the key of its own first question. */
  predicate Filed(r: Renderer, s: Store)
  {
    forall k | k in s :: FiledUnder(r, k, s[k])
  }

  /**
   * `add` and `find` keep every entry under the key of its own first
   * question: one entry per canonical question string.
   */
  lemma FilingPreserved(s: Store, r: Renderer, m: Message, t: int, key: string, now: int)
    requires Filed(r, s) && |m.question| > 0
    ensures Filed(r, Added(s, r, m, t))
    ensures Wellformed(s) && Filed(r, Lookup(s, key, now).store)
  {
    assert Wellformed(s) by {
      forall k | k in s ensures |s[k].stored.question| > 0 {
        assert FiledUnder(r, k, s[k]);
      }
    }
  }

  /** A second add of the same question replaces the first: last write wins. */
  lemma LastWriteWins(s: Store, r: Renderer, m1: Message, t1: int, m2: Message, t2: int)
    requires |m1.question| > 0 && |m2.question| > 0
    requires AddKey(r, m1.question[0]) == AddKey(r, m2.question[0])
    ensures Added(Added(s, r, m1, t1), r, m2, t2) == Added(s, r, m2, t2)
    ensures Added(Added(s, r, m1, t1), r, m2, t2)[Text(AddKey(r, m1.question[0]))].expiration == ExpirationAt(m2, t2)
  {
  }

  /** After the intended delete, a lookup of the same question misses. */
  lemma DeletedThenMissed(s: Store, key: string, now: int)
    requires Wellformed(s)
    ensures Wellformed(s - {Text(key)})
    ensures Lookup(s - {Text(key)}, key, now) == Found(s - {Text(key)}, None)
  {
  }

  /** The value a map holds under `k`, if any. */
  function Get<K, V>(m: map<K, V>, k: K): Option<V>
  {
    if k in m then Some(m[k]) else None
  }

  /** The cache. The source keeps one hash for the whole process. */
  class Cache {
    const render: Renderer
    var entries: map<HashKey, CacheData>
    /** The hash's contents by value. */
    ghost var contents: Store

    /**
     * `contents` holds the value of each CacheData in the hash, and every
     * key is a string that its CacheData is filed as (so no two keys share
     * a CacheData).
     */
    ghost predicate Valid()
      reads this, entries.Values
    {
      && entries.Keys == contents.Keys
      && forall k | k in entries ::
           && entries[k].Value() == contents[k]
           && k == Text(entries[k].filedAs)
           && |contents[k].stored.question| > 0
    }

    constructor (render: Renderer)
      ensures Valid() && contents == map[] && this.render == render
    {
      this.render := render;
      entries := map[];
      contents := map[];
    }

    /** `Cache.add`: files a new CacheData for `m` under its first question's key. */
    method Add(m: Message, now: int)
      requires Valid() && |m.question| > 0
      modifies this
      ensures Valid()
      ensures contents == Added(old(contents), render, m, now)
      ensures forall o | o in entries.Values :: o in old(entries.Values) || fresh(o)
    {
      var q := m.question[0];
      var key := KeyText(render, NewKey(q.qname, q.qtype, Some(q.qclass)));
      var data := new CacheData(m, now);
      data.filedAs := key;
      entries := entries[Text(key) := data];
      contents := contents[Text(key) := data.Value()];
    }

    /** `Cache.find`: lazy expiry, then the fixed-up reply of a fresh entry. */
    method Find(qname: Name, qtype: RRType, qclass: Option<RRClass>, now: int) returns (reply: Option<Message>)
      requires Valid()
      modifies this, entries.Values
      ensures Valid()
      ensures Wellformed(old(contents))
      ensures Found(contents, reply) == Lookup(old(contents), FindKey(render, qname, qtype, qclass), now)
      ensures forall o | o in entries.Values :: o in old(entries.Values) || fresh(o)
    {
      var qn := Absolute(qname);
      var cls := if qclass.Some? then qclass.value else IN;
      var key := KeyText(render, NewKey(qn, qtype, Some(cls)));
      assert key == FindKey(render, qname, qtype, qclass);
      if Text(key) !in entries {
        return None;
      }
      var data := entries[Text(key)];
      if data.expiration <= now {
        entries := entries - {Text(key)};
        contents := contents - {Text(key)};
        return None;
      }
      var fixed := Retrieve(Text(key), now);
      return Some(fixed);
    }

    /** The hit branch of `find`: the entry's `message`, which rewrites its stored TTLs. */
    method Retrieve(k: HashKey, now: int) returns (reply: Message)
      requires Valid() && k in entries
      modifies this`contents, entries[k]
      ensures Valid()
      ensures contents == old(contents)[k := Retrieved(old(contents)[k], now)]
      ensures reply == ReplyOf(contents[k].stored)
    {
      var data := entries[k];
      ghost var e := contents[k];
      reply := data.FixedUpMessage(now);
      assert data.Value() == Retrieved(e, now);
      contents := contents[k := Retrieved(e, now)];
    }

    /**
     * `Cache.delete`: removes whatever the hash holds under the key object.
     * No key is an object, so nothing is ever removed.
     */
    method Delete(qname: Name, qtype: RRType, qclass: Option<RRClass>) returns (removed: Option<CacheData>)
      requires Valid()
      modifies this`entries
      ensures Valid()
      ensures removed == None
      ensures entries == old(entries) && contents == old(contents)
      ensures forall o | o in entries.Values :: o in old(entries.Values) || fresh(o)
    {
      var cls := if qclass.Some? then qclass.value else IN;
      var key := KeyObject(NewKey(qname, qtype, Some(cls)));
      removed := Get(entries, key);
      entries := entries - {key};
    }

    /**
     * `Cache.delete` as evidently intended: removes the entry under the key's
     * string, the one `find` looks up, if there is one.
     */
    method DeleteByText(qname: Name, qtype: RRType, qclass: Option<RRClass>) returns (removed: Option<CacheData>)
      requires Valid()
      modifies this
      ensures Valid()
      ensures var key := Text(FindKey(render, qname, qtype, qclass));
        && (removed.Some? <==> key in old(entries))
        && (removed.Some? ==> removed.value == old(entries)[key])
        && contents == old(contents) - {key}
      ensures forall o | o in entries.Values :: o in old(entries.Values) || fresh(o)
    {
      var cls := if qclass.Some? then qclass.value else IN;
      var key := Text(KeyText(render, NewKey(qname, qtype, Some(cls))));
      assert key == Text(FindKey(render, qname, qtype, qclass));
      removed := Get(entries, key);
      entries := entries - {key};
      contents := contents - {key};
    }
  }
}
