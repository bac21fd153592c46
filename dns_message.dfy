/**
 * The parts of a DNS message that the response cache reads and rewrites.
 *
 * The wire representation (header, the question and the answer, authority
 * and additional sections of section 4.1 of RFC 1035) belongs to the message
 * library, which is not part of this model. Only what the cache touches is
 * kept: the question entries, the AA header bit (section 4.1.1 of RFC 1035)
 * and, per section, the resource-record sets with their TTLs (section 3.2.1
 * of RFC 1035).
 */
module DnsMessage {

  datatype Option<T> = None | Some(value: T)

  /** A domain name: its labels as text, and whether it is fully qualified. */
  datatype Name = Name(text: string, absolute: bool)

  /** Resource-record type and class, by their numeric codes. */
  datatype RRType = RRType(code: nat)
  datatype RRClass = RRClass(code: nat)

  /** Class IN, the Internet (section 3.2.4 of RFC 1035). */
  const IN: RRClass := RRClass(1)

  datatype Question = Question(qname: Name, qtype: RRType, qclass: RRClass)

  /** One resource record, apart from its TTL, which its set carries. */
  datatype RR = RR(owner: Name, rrType: RRType, rrClass: RRClass, rdata: seq<int>)

  /**
   * A resource-record set: the records sharing owner, type and class, with
   * their common TTL. `isOpt` marks the EDNS0 OPT pseudo-record set
   * (section 6.1.2 of RFC 6891), which some section accessors leave out.
   */
  datatype RRset = RRset(ttl: int, rrs: seq<RR>, isOpt: bool)

  /** A message: its question entries, the AA bit and its sections of rrsets. */
  datatype Message = Message(question: seq<Question>, aa: bool, sections: seq<seq<RRset>>)

  /** One record as it appears in a section, with the TTL it carries there. */
  datatype Record = Record(rr: RR, ttl: int, isOpt: bool)

  /** The records of one rrset, in order. */
  function RecordsOf(s: RRset): seq<Record>
  {
    seq(|s.rrs|, k requires 0 <= k < |s.rrs| => Record(s.rrs[k], s.ttl, s.isOpt))
  }

  /** The records of a section, rrset after rrset. */
  function Records(rs: seq<RRset>): seq<Record>
  {
    if rs == [] then [] else Records(rs[..|rs| - 1]) + RecordsOf(rs[|rs| - 1])
  }

  lemma {:induction false} RecordsAppend(a: seq<RRset>, b: seq<RRset>)
    ensures Records(a + b) == Records(a) + Records(b)
    decreases |b|
  {
    if b == [] {
      assert a + b == a;
    } else {
      var b' := b[..|b| - 1];
      assert (a + b)[..|a + b| - 1] == a + b';
      assert (a + b)[|a + b| - 1] == b[|b| - 1];
      RecordsAppend(a, b');
    }
  }
}
