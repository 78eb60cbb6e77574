/** What a management connection needs to know about a node or a driver
    (JPPFManagementInfo): host, port, id, type and secure flag, with its equality,
    hash code and ordering. */
module ManagementInfo {
  import opened JavaLang

  /** The type byte of a driver. */
  const DRIVER: int := 0
  /** The type byte of a node. */
  const NODE: int := 1

  /** The fields that take part in equality and ordering; the system information is
      not part of this model. */
  datatype Info = Info(host: Option<string>, port: int, id: Option<string>, kind: int, secure: bool)

  /** The five-argument constructor: the type is narrowed by the (byte) cast. */
  function NewInfo(host: Option<string>, port: int, id: Option<string>, kind: int, secure: bool): (i: Info)
    ensures i.host == host && i.port == port && i.id == id && i.secure == secure
    ensures -128 <= i.kind <= 127 && (i.kind - kind) % 256 == 0
  {
    Info(host, port, id, ToByte(kind), secure)
  }

  /** The three-argument constructor: a node, not secure. */
  function NewNodeInfo(host: Option<string>, port: int, id: Option<string>): (i: Info)
    ensures IsNode(i) && !IsDriver(i) && !i.secure
  {
    NewInfo(host, port, id, NODE, false)
  }

  predicate IsNode(i: Info) { i.kind == NODE }

  predicate IsDriver(i: Info) { i.kind == DRIVER }

  /** The type is the low byte of the int passed: 257 makes a node, 256 a driver. */
  lemma TypeIsLowByte()
    ensures IsNode(NewInfo(None, 0, None, 257, false))
    ensures IsDriver(NewInfo(None, 0, None, 256, false))
  {
  }

  /** equals: two infos are equal when both ids are null or both ids are equal
      strings; host, port, type and secure flag play no part. */
  predicate Equals(a: Info, b: Info) {
    if b.id.None? then a.id.None? else a.id.Some? && a.id.value == b.id.value
  }

  /** Equality is exactly equality of the ids, so it is an equivalence. */
  lemma EqualsIsIdEquality(a: Info, b: Info, c: Info)
    ensures Equals(a, b) <==> a.id == b.id
    ensures Equals(a, a)
    ensures Equals(a, b) ==> Equals(b, a)
    ensures Equals(a, b) && Equals(b, c) ==> Equals(a, c)
  {
  }

  /** hashCode: 0 for a null id, the id's String.hashCode otherwise. */
  function HashCode(i: Info): (h: int)
    ensures IsInt(h)
    ensures i.id.None? ==> h == 0
    ensures i.id.Some? ==> h == StringHash(i.id.value)
  {
    if i.id.None? then 0 else StringHash(i.id.value)
  }

  /** Equal infos have equal hash codes. */
  lemma HashCodeConsistent(a: Info, b: Info)
    requires Equals(a, b)
    ensures HashCode(a) == HashCode(b)
  {
    EqualsIsIdEquality(a, b, b);
  }

  /** The outcome of compareTo: a NullPointerException (a null host), or a result. */
  datatype Compared = NullHost | Result(r: int)

  /** compareTo: 1 against null, 0 against an equal info; otherwise the negated
      String.compareTo of the hosts and, on equal hosts, the ports in ascending
      order. */
  function CompareTo(a: Info, o: Option<Info>): (r: Compared)
    ensures o.None? ==> r == Result(1)
    ensures o.Some? && Equals(a, o.value) ==> r == Result(0)
    ensures o.Some? && !Equals(a, o.value) ==> (r.NullHost? <==> a.host.None? || o.value.host.None?)
  {
    if o.None? then Result(1)
    else
      var b := o.value;
      if Equals(a, b) then Result(0)
      else if a.host.None? || b.host.None? then NullHost
      else
        var n := -1 * StringCompare(a.host.value, b.host.value);
        if n != 0 then Result(n)
        else if a.port > b.port then Result(1)
        else if a.port < b.port then Result(-1)
        else Result(0)
  }

  /** Hosts are ordered in reverse alphabetical order (the negation of
      String.compareTo), ports in ascending order on equal hosts. */
  lemma CompareToOrder(a: Info, b: Info)
    requires !Equals(a, b) && a.host.Some? && b.host.Some?
    ensures a.host != b.host ==>
      && CompareTo(a, Some(b)).Result?
      && Sign(CompareTo(a, Some(b)).r) == -Sign(StringCompare(a.host.value, b.host.value)) != 0
    ensures a.host == b.host ==> CompareTo(a, Some(b)) == Result(Sign(a.port - b.port))
  {
    StringCompareZeroIff(a.host.value, b.host.value);
  }

  /** compareTo is not consistent with equals: two infos with different ids on the
      same host and port compare as 0. */
  lemma CompareToInconsistentWithEquals()
    ensures var a := NewNodeInfo(Some("h"), 11198, Some("x"));
      var b := NewNodeInfo(Some("h"), 11198, Some("y"));
      !Equals(a, b) && CompareTo(a, Some(b)) == Result(0)
  {
    var a := NewNodeInfo(Some("h"), 11198, Some("x"));
    var b := NewNodeInfo(Some("h"), 11198, Some("y"));
    assert a.id.value[0] != b.id.value[0];
    StringCompareZeroIff("h", "h");
  }
}
