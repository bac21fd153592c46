/**
 * CacheKey: the canonical string a question (name, type, class) is filed
 * under in the response cache.
 *
 * Parsing and rendering names, types and classes belong to the name and
 * enumeration libraries, which are not part of this model; their text forms
 * are the fields of a `Renderer`, which the model never looks inside.
 */
module CacheKeys {
  import opened DnsMessage

  /** The text forms of a name (`inspect`), a class and a type (`to_s`). */
  datatype Renderer = Renderer(
    inspect: Name -> string,
    classText: RRClass -> string,
    typeText: RRType -> string)

  datatype CacheKey = CacheKey(qname: Name, qtype: RRType, qclass: RRClass)

  /** Setting a name's `absolute` flag. */
  function Absolute(n: Name): Name
  {
    n.(absolute := true)
  }

  /**
   * Building a key: the name is made absolute, and the class is IN unless
   * one is given.
   */
  function NewKey(qname: Name, qtype: RRType, qclass: Option<RRClass>): (k: CacheKey)
    ensures k.qname.absolute && k.qname.text == qname.text
    ensures k.qtype == qtype
    ensures qclass == None ==> k.qclass == IN
    ensures qclass.Some? ==> k.qclass == qclass.value
  {
    CacheKey(Absolute(qname), qtype, if qclass.Some? then qclass.value else IN)
  }

  /** The key's string: the rendered name, class and type, space separated. */
  function KeyText(r: Renderer, k: CacheKey): string
  {
    r.inspect(k.qname) + " " + r.classText(k.qclass) + " " + r.typeText(k.qtype)
  }

  /** The key `add` files a message under: built from its first question. */
  function AddKey(r: Renderer, q: Question): string
  {
    KeyText(r, NewKey(q.qname, q.qtype, Some(q.qclass)))
  }

  /**
   * The key `find` looks up: the name is made absolute first, and the class
   * defaults to IN.
   */
  function FindKey(r: Renderer, qname: Name, qtype: RRType, qclass: Option<RRClass>): string
  {
    var cls := if qclass.Some? then qclass.value else IN;
    KeyText(r, NewKey(Absolute(qname), qtype, Some(cls)))
  }

  /** `add` and `find` produce the same string for the same question. */
  lemma AddFindAgree(r: Renderer, q: Question)
    ensures AddKey(r, q) == FindKey(r, q.qname, q.qtype, Some(q.qclass))
    ensures q.qclass == IN ==> AddKey(r, q) == FindKey(r, q.qname, q.qtype, None)
  {
  }

  /**
   * The class and type renderings of a key contain no space. The name's
   * rendering may contain any text.
   */
  predicate SpaceFree(r: Renderer, k: CacheKey)
  {
    ' ' !in r.classText(k.qclass) && ' ' !in r.typeText(k.qtype)
  }

  /** The position of the last space in `s`. */
  function LastSpace(s: string): (i: nat)
    requires ' ' in s
    ensures i < |s| && s[i] == ' '
    ensures forall j :: i < j < |s| ==> s[j] != ' '
  {
    var n := |s| - 1;
    if s[n] == ' ' then n
    else
      assert ' ' in s[..n] by { var j :| 0 <= j < |s| && s[j] == ' '; assert s[..n][j] == ' '; }
      var i := LastSpace(s[..n]);
      assert forall j :: i < j < n ==> s[j] == s[..n][j];
      i
  }

  /**
   * Splitting a string into at most three fields at its last two spaces,
   * from the right.
   */
  function Fields(s: string): seq<string>
  {
    if ' ' !in s then [s]
    else
      var i := LastSpace(s);
      var head := s[..i];
      if ' ' !in head then [head, s[i + 1..]]
      else
        var j := LastSpace(head);
        [head[..j], head[j + 1..], s[i + 1..]]
  }

  /** The last space of `a + " " + t` is the one before `t` when `t` has none. */
  lemma LastSpaceBefore(a: string, t: string)
    requires ' ' !in t
    ensures LastSpace(a + " " + t) == |a|
    ensures (a + " " + t)[..|a|] == a && (a + " " + t)[|a| + 1..] == t
  {
    var s := a + " " + t;
    assert s[..|a|] == a;
    assert s[|a|] == ' ';
    assert s[|a| + 1..] == t;
    forall j | |a| < j < |s| ensures s[j] != ' ' {
      assert s[j] == t[j - |a| - 1];
    }
  }

  /**
   * A key's string splits back into the rendered name, class and type, the
   * name's rendering being whatever is left of the last two spaces.
   */
  lemma KeyFields(r: Renderer, k: CacheKey)
    requires SpaceFree(r, k)
    ensures Fields(KeyText(r, k)) == [r.inspect(k.qname), r.classText(k.qclass), r.typeText(k.qtype)]
  {
    var n, c, t := r.inspect(k.qname), r.classText(k.qclass), r.typeText(k.qtype);
    var head := n + " " + c;
    assert KeyText(r, k) == head + " " + t;
    LastSpaceBefore(head, t);
    LastSpaceBefore(n, c);
  }

  /**
   * Two keys share a string exactly when their names, classes and types
   * render the same.
   */
  lemma KeyTextInjective(r: Renderer, k1: CacheKey, k2: CacheKey)
    requires SpaceFree(r, k1) && SpaceFree(r, k2)
    ensures KeyText(r, k1) == KeyText(r, k2) <==>
              r.inspect(k1.qname) == r.inspect(k2.qname) &&
              r.classText(k1.qclass) == r.classText(k2.qclass) &&
              r.typeText(k1.qtype) == r.typeText(k2.qtype)
  {
    KeyFields(r, k1);
    KeyFields(r, k2);
  }
}
