/**
 * CacheData: one cached answer, the time it was stored and the time it
 * expires, and the "fix-up" that turns the stored answer into the message
 * handed back on a cache hit.
 */
module CacheEntry {
  import opened DnsMessage

  /** The starting value of the minimum-TTL scan; it also means "no TTL seen". */
  const SENTINEL: int := 9999999

  // ---------------------------------------------------------------------
  // Expiration: the minimum TTL over the rrsets of every section
  // ---------------------------------------------------------------------

  /** The TTLs the expiration scan visits in one section: OPT is skipped. */
  function SectionTtls(rs: seq<RRset>): seq<int>
  {
    if rs == [] then []
    else SectionTtls(rs[..|rs| - 1]) + (if rs[|rs| - 1].isOpt then [] else [rs[|rs| - 1].ttl])
  }

  /** The TTLs the expiration scan visits, section after section. */
  function ScannedTtls(secs: seq<seq<RRset>>): seq<int>
  {
    if secs == [] then [] else ScannedTtls(secs[..|secs| - 1]) + SectionTtls(secs[|secs| - 1])
  }

  /** The scan's running value: it drops to each TTL lower than itself. */
  function RunningMin(ts: seq<int>, init: int): int
  {
    if ts == [] then init
    else
      var m := RunningMin(ts[..|ts| - 1], init);
      if ts[|ts| - 1] < m then ts[|ts| - 1] else m
  }

  /** The expiration stored for message `m` at time `now`. */
  function ExpirationAt(m: Message, now: int): int
  {
    var minTtl := RunningMin(ScannedTtls(m.sections), SENTINEL);
    if minTtl == SENTINEL then 0 else now + minTtl
  }

  /** Some rrset the scan visits has a TTL below the sentinel. */
  predicate HasShortTtl(m: Message)
  {
    exists i, j :: 0 <= i < |m.sections| && 0 <= j < |m.sections[i]| &&
      !m.sections[i][j].isOpt && m.sections[i][j].ttl < SENTINEL
  }

  lemma {:induction false} RunningMinAppend(a: seq<int>, b: seq<int>, init: int)
    ensures RunningMin(a + b, init) == RunningMin(b, RunningMin(a, init))
    decreases |b|
  {
    if b == [] {
      assert a + b == a;
    } else {
      assert (a + b)[..|a + b| - 1] == a + b[..|b| - 1];
      RunningMinAppend(a, b[..|b| - 1], init);
    }
  }

  /** The running value is the start value or one of the TTLs, and no TTL is below it. */
  lemma {:induction false} RunningMinBounds(ts: seq<int>, init: int)
    ensures RunningMin(ts, init) <= init
    ensures RunningMin(ts, init) == init || RunningMin(ts, init) in ts
    ensures forall k :: 0 <= k < |ts| ==> RunningMin(ts, init) <= ts[k]
  {
    if ts != [] {
      var p := ts[..|ts| - 1];
      RunningMinBounds(p, init);
      assert forall k :: 0 <= k < |p| ==> p[k] == ts[k];
    }
  }

  /** The scan visits the TTL of every rrset that is not OPT, in its section. */
  lemma {:induction false} SectionTtlsHas(rs: seq<RRset>, j: nat)
    requires j < |rs| && !rs[j].isOpt
    ensures rs[j].ttl in SectionTtls(rs)
  {
    if j < |rs| - 1 {
      var p := rs[..|rs| - 1];
      assert p[j] == rs[j];
      SectionTtlsHas(p, j);
    }
  }

  /** Every TTL the scan visits in a section is that of an rrset that is not OPT. */
  lemma {:induction false} SectionTtlsFrom(rs: seq<RRset>, t: int) returns (j: nat)
    requires t in SectionTtls(rs)
    ensures j < |rs| && !rs[j].isOpt && rs[j].ttl == t
  {
    var p := rs[..|rs| - 1];
    if t in SectionTtls(p) {
      j := SectionTtlsFrom(p, t);
      assert rs[j] == p[j];
    } else {
      j := |rs| - 1;
    }
  }

  /** The scan visits the TTL of every rrset that is not OPT. */
  lemma {:induction false} ScannedTtlsHas(secs: seq<seq<RRset>>, i: nat, j: nat)
    requires i < |secs| && j < |secs[i]| && !secs[i][j].isOpt
    ensures secs[i][j].ttl in ScannedTtls(secs)
  {
    var p := secs[..|secs| - 1];
    if i < |secs| - 1 {
      assert p[i] == secs[i];
      ScannedTtlsHas(p, i, j);
    } else {
      SectionTtlsHas(secs[i], j);
    }
  }

  /** Every TTL the scan visits is that of an rrset that is not OPT. */
  lemma {:induction false} ScannedTtlsFrom(secs: seq<seq<RRset>>, t: int) returns (i: nat, j: nat)
    requires t in ScannedTtls(secs)
    ensures i < |secs| && j < |secs[i]| && !secs[i][j].isOpt && secs[i][j].ttl == t
  {
    var p := secs[..|secs| - 1];
    if t in ScannedTtls(p) {
      i, j := ScannedTtlsFrom(p, t);
      assert secs[i] == p[i];
    } else {
      i := |secs| - 1;
      j := SectionTtlsFrom(secs[i], t);
    }
  }

  /**
   * When some visited TTL is below the sentinel, the expiration is `now` plus
   * the least visited TTL; otherwise (no rrsets, only OPT, or every TTL at or
   * above the sentinel) it is 0, not `now`.
   */
  lemma ExpirationCases(m: Message, now: int)
    ensures HasShortTtl(m) ==>
      (exists i, j :: 0 <= i < |m.sections| && 0 <= j < |m.sections[i]| &&
         !m.sections[i][j].isOpt && m.sections[i][j].ttl == ExpirationAt(m, now) - now) &&
      (forall i, j :: 0 <= i < |m.sections| && 0 <= j < |m.sections[i]| && !m.sections[i][j].isOpt ==>
         now + m.sections[i][j].ttl >= ExpirationAt(m, now))
    ensures !HasShortTtl(m) ==> ExpirationAt(m, now) == 0
  {
    var ts := ScannedTtls(m.sections);
    var r := RunningMin(ts, SENTINEL);
    RunningMinBounds(ts, SENTINEL);
    forall i, j | 0 <= i < |m.sections| && 0 <= j < |m.sections[i]| && !m.sections[i][j].isOpt
      ensures r <= m.sections[i][j].ttl
    {
      ScannedTtlsHas(m.sections, i, j);
    }
    if r != SENTINEL {
      var i, j := ScannedTtlsFrom(m.sections, r);
    }
  }

  /** `get_expiration`: the minimum-TTL scan over the non-OPT rrsets. */
  method GetExpiration(m: Message, now: int) returns (expiration: int)
    ensures expiration == ExpirationAt(m, now)
  {
    var minTtl := SENTINEL;
    var i := 0;
    while i < |m.sections|
      invariant 0 <= i <= |m.sections|
      invariant minTtl == RunningMin(ScannedTtls(m.sections[..i]), SENTINEL)
    {
      var rrsets := m.sections[i];
      ghost var before := minTtl;
      var j := 0;
      while j < |rrsets|
        invariant 0 <= j <= |rrsets|
        invariant minTtl == RunningMin(SectionTtls(rrsets[..j]), before)
      {
        assert rrsets[..j + 1][..j] == rrsets[..j];
        if !rrsets[j].isOpt && rrsets[j].ttl < minTtl {
          minTtl := rrsets[j].ttl;
        }
        RunningMinAppend(SectionTtls(rrsets[..j]), if rrsets[j].isOpt then [] else [rrsets[j].ttl], before);
        j := j + 1;
      }
      assert rrsets[..j] == rrsets;
      assert m.sections[..i + 1][..i] == m.sections[..i];
      RunningMinAppend(ScannedTtls(m.sections[..i]), SectionTtls(rrsets), SENTINEL);
      i := i + 1;
    }
    assert m.sections[..i] == m.sections;
    if minTtl == SENTINEL {
      return 0;
    }
    return now + minTtl;
  }

  // ---------------------------------------------------------------------
  // Fix-up: lowering every TTL by the elapsed time, and the reply message
  // ---------------------------------------------------------------------

  /** Every rrset of a section with its TTL lowered by `d`. */
  function DecRRsets(rs: seq<RRset>, d: int): (r: seq<RRset>)
    ensures |r| == |rs|
  {
    seq(|rs|, k requires 0 <= k < |rs| => rs[k].(ttl := rs[k].ttl - d))
  }

  /** A message with every rrset TTL of every section lowered by `d`, unclamped. */
  function Decrement(m: Message, d: int): (r: Message)
    ensures |r.sections| == |m.sections|
  {
    m.(sections := seq(|m.sections|, i requires 0 <= i < |m.sections| => DecRRsets(m.sections[i], d)))
  }

  /** The records of an rrset, each appended on its own, with the set's TTL. */
  function Singles(s: RRset): (r: seq<RRset>)
    ensures |r| == |s.rrs|
  {
    seq(|s.rrs|, k requires 0 <= k < |s.rrs| => RRset(s.ttl, [s.rrs[k]], s.isOpt))
  }

  /** A section of the reply: the records of each rrset, appended in order. */
  function Unpack(rs: seq<RRset>): seq<RRset>
  {
    if rs == [] then [] else Unpack(rs[..|rs| - 1]) + Singles(rs[|rs| - 1])
  }

  /**
   * The message `message` returns: a new message for the stored first
   * question, AA clear, carrying every record of the (already lowered)
   * stored sections.
   */
  function ReplyOf(m: Message): Message
    requires |m.question| > 0
  {
    var q := m.question[0];
    Message([Question(q.qname, q.qtype, q.qclass)], false,
            seq(|m.sections|, i requires 0 <= i < |m.sections| => Unpack(m.sections[i])))
  }

  /** Records with each TTL lowered by `d`. */
  function LoweredRecords(recs: seq<Record>, d: int): seq<Record>
  {
    seq(|recs|, k requires 0 <= k < |recs| => recs[k].(ttl := recs[k].ttl - d))
  }

  lemma {:induction false} SinglesRecords(s: RRset)
    ensures Records(Singles(s)) == RecordsOf(s)
    decreases |s.rrs|
  {
    var n := |s.rrs|;
    if n > 0 {
      var s' := s.(rrs := s.rrs[..n - 1]);
      assert Singles(s)[..n - 1] == Singles(s');
      SinglesRecords(s');
      assert RecordsOf(s) == RecordsOf(s') + [Record(s.rrs[n - 1], s.ttl, s.isOpt)];
    }
  }

  /** Appending each record on its own keeps every record, in order, and nothing else. */
  lemma {:induction false} UnpackRecords(rs: seq<RRset>)
    ensures Records(Unpack(rs)) == Records(rs)
    ensures forall k :: 0 <= k < |Unpack(rs)| ==> |Unpack(rs)[k].rrs| == 1
  {
    if rs != [] {
      var p, last := rs[..|rs| - 1], rs[|rs| - 1];
      UnpackRecords(p);
      RecordsAppend(Unpack(p), Singles(last));
      SinglesRecords(last);
    }
  }

  /** Lowering the rrsets' TTLs lowers every record's TTL and changes nothing else. */
  lemma {:induction false} DecRRsetsRecords(rs: seq<RRset>, d: int)
    ensures Records(DecRRsets(rs, d)) == LoweredRecords(Records(rs), d)
  {
    if rs != [] {
      var p := rs[..|rs| - 1];
      assert DecRRsets(rs, d)[..|rs| - 1] == DecRRsets(p, d);
      DecRRsetsRecords(p, d);
    }
  }

  /**
   * The reply to a retrieval that lowers by `d`: the stored first question,
   * AA clear, and in each section exactly the stored records, in the stored
   * rrset order, each with its TTL lowered by `d`, one record per rrset.
   */
  lemma ReplyContents(stored: Message, d: int)
    requires |stored.question| > 0
    ensures ReplyOf(Decrement(stored, d)).question == [stored.question[0]]
    ensures !ReplyOf(Decrement(stored, d)).aa
    ensures |ReplyOf(Decrement(stored, d)).sections| == |stored.sections|
    ensures forall i :: 0 <= i < |stored.sections| ==>
      Records(ReplyOf(Decrement(stored, d)).sections[i]) == LoweredRecords(Records(stored.sections[i]), d)
    ensures forall i, k :: 0 <= i < |stored.sections| && 0 <= k < |ReplyOf(Decrement(stored, d)).sections[i]| ==>
      |ReplyOf(Decrement(stored, d)).sections[i][k].rrs| == 1
  {
    var reply := ReplyOf(Decrement(stored, d));
    forall i | 0 <= i < |stored.sections|
      ensures Records(reply.sections[i]) == LoweredRecords(Records(stored.sections[i]), d)
      ensures forall k :: 0 <= k < |reply.sections[i]| ==> |reply.sections[i][k].rrs| == 1
    {
      UnpackRecords(DecRRsets(stored.sections[i], d));
      DecRRsetsRecords(stored.sections[i], d);
    }
  }

  /** Two retrievals lower the stored TTLs by the sum of their offsets. */
  lemma DecrementTwice(m: Message, d1: int, d2: int)
    ensures Decrement(Decrement(m, d1), d2) == Decrement(m, d1 + d2)
  {
    var a, b := Decrement(Decrement(m, d1), d2), Decrement(m, d1 + d2);
    forall i | 0 <= i < |m.sections| ensures a.sections[i] == b.sections[i] {
      assert a.sections[i] == DecRRsets(DecRRsets(m.sections[i], d1), d2);
    }
  }

  /** A retrieval at the second of storing leaves the stored message as it was. */
  lemma DecrementZero(m: Message)
    ensures Decrement(m, 0) == m
  {
    forall i | 0 <= i < |m.sections| ensures Decrement(m, 0).sections[i] == m.sections[i] {
    }
  }

  /** The innermost fix-up loop: appends each record of `rrset` on its own. */
  method AppendRecords(section: seq<RRset>, rrset: RRset) returns (r: seq<RRset>)
    ensures r == section + Singles(rrset)
  {
    r := section;
    var k := 0;
    while k < |rrset.rrs|
      invariant 0 <= k <= |rrset.rrs|
      invariant r == section + Singles(rrset)[..k]
    {
      assert Singles(rrset)[..k + 1] == Singles(rrset)[..k] + [RRset(rrset.ttl, [rrset.rrs[k]], rrset.isOpt)];
      r := r + [RRset(rrset.ttl, [rrset.rrs[k]], rrset.isOpt)];
      k := k + 1;
    }
    assert Singles(rrset)[..k] == Singles(rrset);
  }

  /**
   * The fix-up of one section: lowers the TTL of each rrset by `offset`
   * and appends its records to the reply's section.
   */
  method FixSection(section: seq<RRset>, offset: int) returns (newSection: seq<RRset>, replySection: seq<RRset>)
    ensures newSection == DecRRsets(section, offset)
    ensures replySection == Unpack(newSection)
  {
    newSection, replySection := [], [];
    var j := 0;
    while j < |section|
      invariant 0 <= j <= |section|
      invariant newSection == DecRRsets(section[..j], offset)
      invariant replySection == Unpack(newSection)
    {
      var rrset := section[j].(ttl := section[j].ttl - offset);
      replySection := AppendRecords(replySection, rrset);
      assert (newSection + [rrset])[..|newSection|] == newSection;
      newSection := newSection + [rrset];
      assert DecRRsets(section[..j + 1], offset) == DecRRsets(section[..j], offset) + [rrset];
      j := j + 1;
    }
    assert section[..j] == section;
  }

  /**
   * The fix-up loops of `message`: lowers every stored rrset TTL by `offset`
   * and appends each record of each rrset, section by section, to a new
   * message for the stored first question with AA clear.
   */
  method FixUp(stored: Message, offset: int) returns (updated: Message, reply: Message)
    requires |stored.question| > 0
    ensures updated == Decrement(stored, offset)
    ensures reply == ReplyOf(updated)
  {
    var q := stored.question[0];
    var newSections: seq<seq<RRset>> := [];
    var replySections: seq<seq<RRset>> := [];
    var i := 0;
    while i < |stored.sections|
      invariant 0 <= i <= |stored.sections|
      invariant |newSections| == i && |replySections| == i
      invariant forall s :: 0 <= s < i ==> newSections[s] == DecRRsets(stored.sections[s], offset)
      invariant forall s :: 0 <= s < i ==> replySections[s] == Unpack(newSections[s])
    {
      var newSection, replySection := FixSection(stored.sections[i], offset);
      newSections := newSections + [newSection];
      replySections := replySections + [replySection];
      i := i + 1;
    }
    updated := stored.(sections := newSections);
    reply := Message([Question(q.qname, q.qtype, q.qclass)], false, replySections);
  }

  // ---------------------------------------------------------------------
  // The cached entry
  // ---------------------------------------------------------------------

  /** The value of a CacheData: expiration, time stored and stored message. */
  datatype Entry = Entry(expiration: int, timeStored: int, stored: Message)

  /** A CacheData made from message `m` at time `now`. */
  function NewEntry(m: Message, now: int): Entry
  {
    Entry(ExpirationAt(m, now), now, m)
  }

  /**
   * A new entry is fresh at its store time exactly when every non-OPT
   * TTL is positive, provided one is below the sentinel; otherwise its
   * expiration is 0.
   */
  lemma NewEntryExpiry(m: Message, now: int)
    ensures HasShortTtl(m) ==> (NewEntry(m, now).expiration > now <==>
      forall i, j :: 0 <= i < |m.sections| && 0 <= j < |m.sections[i]| && !m.sections[i][j].isOpt ==>
        m.sections[i][j].ttl > 0)
    ensures !HasShortTtl(m) ==> NewEntry(m, now).expiration == 0
  {
    ExpirationCases(m, now);
  }

  /** The entry after a retrieval at `now`: its stored TTLs lowered by the time since storing. */
  function Retrieved(e: Entry, now: int): Entry
  {
    e.(stored := Decrement(e.stored, now - e.timeStored))
  }

  /** One cached answer. `message` rewrites the stored message in place. */
  class CacheData {
    var expiration: int
    var timeStored: int
    var stored: Message
    /** The key the cache files this object under; bookkeeping for the proofs only. */
    ghost var filedAs: string

    ghost function Value(): Entry
      reads this
    {
      Entry(expiration, timeStored, stored)
    }

    /** `initialize`: stores `m` at `now` and computes its expiration. */
    constructor (m: Message, now: int)
      ensures Value() == NewEntry(m, now)
    {
      expiration := 0;
      timeStored := now;
      stored := m;
      filedAs := [];
      new;
      SetMessage(m, now);
    }

    /** `message=`: replaces the stored message and recomputes the expiration. */
    method SetMessage(m: Message, now: int)
      modifies this`expiration, this`stored
      ensures expiration == ExpirationAt(m, now)
      ensures stored == m && timeStored == old(timeStored)
    {
      expiration := GetExpiration(m, now);
      stored := m;
    }

    /**
     * `message`: lowers the stored TTLs by the seconds since storing, in
     * place, and returns the fixed-up reply.
     */
    method FixedUpMessage(now: int) returns (reply: Message)
      requires |stored.question| > 0
      modifies this`stored
      ensures Value() == Retrieved(old(Value()), now)
      ensures reply == ReplyOf(stored)
    {
      var updated;
      updated, reply := FixUp(stored, now - timeStored);
      stored := updated;
    }
  }
}
