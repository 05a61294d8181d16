/** What the platform neighbour-table readers share: the table they build
    and the `std::io::Error` values they return. */
module NeighModel {
  import opened Strings
  import opened NetTypes

  /** The neighbour (ARP/NDP) table: hardware address per IP address. */
  type NeighborMap = map<IpAddr, Mac>

  /** The `std::io::ErrorKind`s the readers produce. */
  datatype OsErrorKind = AlreadyExists | NotFound | OutOfMemory | InvalidData | Other

  datatype IoError = IoError(kind: OsErrorKind, message: string)

  datatype IoResult<T> = IoOk(value: T) | IoErr(error: IoError)

  /** `{}` of an `i32`: a minus sign for negative values, then the decimal
      digits of the magnitude. */
  function SignedDecimal(n: int): (s: string)
    ensures |s| >= 1 && (s[0] == '-' <==> n < 0)
  {
    if n < 0 then "-" + DecimalString(-n) else DecimalString(n)
  }

  /** The IPv4 address of four bytes in network order. */
  function Ipv4Of(b: seq<Byte>): (ip: IpAddr)
    requires |b| == 4
    ensures ip.V4? && [ip.a, ip.b, ip.c, ip.d] == b
  {
    V4(b[0], b[1], b[2], b[3])
  }

  /** The IPv6 address of sixteen bytes in network order. */
  function Ipv6Of(b: seq<Byte>): (ip: IpAddr)
    requires |b| == 16
    ensures ip.V6? && ip.octets == b
  {
    V6(b)
  }

  /** What one record, line or row read does to the table being built:
      nothing, an insertion, or a failure that ends the read. */
  datatype TableEffect = Ignored | Insert(ip: IpAddr, mac: Mac) | Failure(err: IoError)

  /** The table after the effects `es`, or the error of the first failure;
      a later insertion for an address replaces an earlier one. */
  function Fold(es: seq<TableEffect>): IoResult<NeighborMap>
  {
    if es == [] then IoOk(map[])
    else
      var r := Fold(es[..|es| - 1]);
      if r.IoErr? then r
      else match es[|es| - 1]
        case Ignored => r
        case Insert(ip, mac) => IoOk(r.value[ip := mac])
        case Failure(err) => IoErr(err)
  }

  lemma FoldStep(es: seq<TableEffect>, e: TableEffect)
    ensures Fold(es + [e])
            == if Fold(es).IoErr? then Fold(es)
               else match e
                 case Ignored => Fold(es)
                 case Insert(ip, mac) => IoOk(Fold(es).value[ip := mac])
                 case Failure(err) => IoErr(err)
  {
    assert (es + [e])[..|es|] == es;
  }

  /** The walk fails exactly when a record fails, with the first such
      record's error. */
  lemma {:induction false} FoldErr(es: seq<TableEffect>)
    ensures Fold(es).IoErr? <==> exists i :: 0 <= i < |es| && es[i].Failure?
    ensures Fold(es).IoErr? ==>
              exists i :: 0 <= i < |es| && es[i].Failure? && Fold(es).error == es[i].err
                          && forall j :: 0 <= j < i ==> !es[j].Failure?
  {
    if es != [] {
      var q := es[..|es| - 1];
      FoldErr(q);
      assert forall i :: 0 <= i < |q| ==> q[i] == es[i];
    }
  }

  /** Without a failure the table maps exactly the addresses some record
      inserts. */
  lemma {:induction false} FoldKeys(es: seq<TableEffect>)
    requires Fold(es).IoOk?
    ensures forall ip :: ip in Fold(es).value <==> exists i :: 0 <= i < |es| && es[i].Insert? && es[i].ip == ip
  {
    if es != [] {
      var q := es[..|es| - 1];
      FoldKeys(q);
      assert forall i :: 0 <= i < |q| ==> q[i] == es[i];
    }
  }

  /** Each address maps to the link-layer address of the last record
      inserting it. */
  lemma {:induction false} FoldLastWins(es: seq<TableEffect>, ip: IpAddr)
    requires Fold(es).IoOk? && ip in Fold(es).value
    ensures exists i :: 0 <= i < |es| && es[i] == Insert(ip, Fold(es).value[ip])
                        && forall j :: i < j < |es| ==> !(es[j].Insert? && es[j].ip == ip)
  {
    var q := es[..|es| - 1];
    var n := |es| - 1;
    assert forall i :: 0 <= i < |q| ==> q[i] == es[i];
    if es[n] == Insert(ip, Fold(es).value[ip]) {
    } else {
      assert !(es[n].Insert? && es[n].ip == ip);
      FoldLastWins(q, ip);
      var i :| 0 <= i < |q| && q[i] == Insert(ip, Fold(q).value[ip])
               && forall j :: i < j < |q| ==> !(q[j].Insert? && q[j].ip == ip);
      assert es[i] == Insert(ip, Fold(es).value[ip]);
    }
  }
}
