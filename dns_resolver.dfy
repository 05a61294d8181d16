/** DNS lookups: names are queried in fully qualified form, TXT texts are
    split into key and value, a failed lookup contributes an empty list, and
    `lookup_all` gathers the nine record types. The resolver library is an
    oracle: for each record type, what a query of a name gives, with its
    records already in the model's form. */
module DnsResolver {
  import opened Wrappers
  import opened NetTypes

  /** `get_resolver`: the system configuration is read by the library; only
      its failure message is the source's own. */
  function GetResolver(builder: Result<()>): (r: Result<()>)
    ensures r.Ok? <==> builder.Ok?
    ensures builder.Err? ==> r.error == "Failed to create TokioAsyncResolver: " + builder.error
  {
    match builder
    case Ok(_) => Ok(())
    case Err(e) => Err("Failed to create TokioAsyncResolver: " + e)
  }

  /** `fqdn`: the name with a trailing dot. */
  function Fqdn(name: string): (q: string)
    ensures |q| > 0 && q[|q| - 1] == '.'
    ensures |name| > 0 && name[|name| - 1] == '.' ==> q == name
    ensures (|name| == 0 || name[|name| - 1] != '.') ==> q == name + "."
  {
    if |name| > 0 && name[|name| - 1] == '.' then name else name + "."
  }

  /** Qualifying twice is qualifying once. */
  lemma FqdnIdempotent(name: string)
    ensures Fqdn(Fqdn(name)) == Fqdn(name)
  {
  }

  /** Records as the model keeps them. */
  datatype MxRecord = MxRecord(preference: U16, exchange: string)
  datatype SoaRecord = SoaRecord(mname: string, rname: string, serial: U32, refresh: int, retry: int,
                                 expire: int, minimum: U32)
  datatype SrvRecord = SrvRecord(priority: U16, weight: U16, port: U16, target: string)
  datatype TlsaRecord = TlsaRecord(certUsage: Byte, selector: Byte, matching: Byte, certDataBase64: string)
  datatype CertRecord = CertRecord(certType: U16, keyTag: U16, algorithm: Byte, certDataBase64: string)
  datatype TxtRecord = TxtRecord(key: string, value: string)

  /** What the resolver answers to a query of a (qualified) name, per record
      type: the records, or a failure. TXT records come as their texts. */
  datatype Resolver = Resolver(
    a: string -> Result<seq<Ipv4Addr>>,
    aaaa: string -> Result<seq<Ipv6Addr>>,
    mx: string -> Result<seq<MxRecord>>,
    ns: string -> Result<seq<string>>,
    soa: string -> Result<seq<SoaRecord>>,
    srv: string -> Result<seq<SrvRecord>>,
    tlsa: string -> Result<seq<TlsaRecord>>,
    txt: string -> Result<seq<string>>,
    cert: string -> Result<seq<CertRecord>>)

  /** `unwrap_or_default` on a lookup: a failure is an empty list. */
  function Records<T>(answer: Result<seq<T>>): (rs: seq<T>)
    ensures answer.Err? ==> rs == []
    ensures answer.Ok? ==> rs == answer.value
  {
    if answer.Ok? then answer.value else []
  }

  /** `split_once('=')`: the text before and after the first '='. */
  function SplitOnce(s: string, c: char): (r: Option<(string, string)>)
    ensures r.None? <==> c !in s
    ensures r.Some? ==> s == r.value.0 + [c] + r.value.1 && c !in r.value.0
  {
    if s == [] then None
    else if s[0] == c then Some(([], s[1..]))
    else match SplitOnce(s[1..], c)
      case None => None
      case Some((k, v)) => Some(([s[0]] + k, v))
  }

  /** One TXT text as a record: key and value around the first '='; the
      whole text as key, with an empty value, when there is none. */
  function TxtRecordOf(text: string): (r: TxtRecord)
    ensures '=' in text ==> text == r.key + "=" + r.value && '=' !in r.key
    ensures '=' !in text ==> r == TxtRecord(text, "")
  {
    match SplitOnce(text, '=')
    case Some((k, v)) => TxtRecord(k, v)
    case None => TxtRecord(text, "")
  }

  /** A key without '=' and any value, '=' included, come back as they were
      joined. */
  lemma TxtRecordRoundTrip(key: string, value: string)
    requires '=' !in key
    ensures TxtRecordOf(key + "=" + value) == TxtRecord(key, value)
  {
    SplitOnceFirst(key, '=', value);
  }

  lemma {:induction false} SplitOnceFirst(key: string, c: char, value: string)
    requires c !in key
    ensures SplitOnce(key + [c] + value, c) == Some((key, value))
  {
    var s := key + [c] + value;
    if key == [] {
      assert s[1..] == value;
    } else {
      assert s[1..] == key[1..] + [c] + value;
      SplitOnceFirst(key[1..], c, value);
      assert [key[0]] + key[1..] == key;
    }
  }

  /** One record per TXT text, in order. */
  function TxtRecords(texts: seq<string>): (rs: seq<TxtRecord>)
    ensures |rs| == |texts| && forall i :: 0 <= i < |texts| ==> rs[i] == TxtRecordOf(texts[i])
  {
    seq(|texts|, i requires 0 <= i < |texts| => TxtRecordOf(texts[i]))
  }

  /** `DomainLookupInfo` */
  datatype DomainLookupInfo = DomainLookupInfo(name: string, a: seq<Ipv4Addr>, aaaa: seq<Ipv6Addr>,
                                               mx: seq<MxRecord>, ns: seq<string>, soa: seq<SoaRecord>,
                                               srv: seq<SrvRecord>, tlsa: seq<TlsaRecord>, txt: seq<TxtRecord>,
                                               cert: seq<CertRecord>)

  /** `lookup_all`: every lookup queries the qualified name; the result is
      always Ok and carries the name as given. */
  function LookupAll(res: Resolver, name: string): (r: Result<DomainLookupInfo>)
    ensures r.Ok? && r.value.name == name
    ensures r.value.a == Records(res.a(Fqdn(name))) && r.value.aaaa == Records(res.aaaa(Fqdn(name)))
    ensures r.value.mx == Records(res.mx(Fqdn(name))) && r.value.ns == Records(res.ns(Fqdn(name)))
    ensures r.value.soa == Records(res.soa(Fqdn(name))) && r.value.srv == Records(res.srv(Fqdn(name)))
    ensures r.value.tlsa == Records(res.tlsa(Fqdn(name))) && r.value.cert == Records(res.cert(Fqdn(name)))
    ensures r.value.txt == TxtRecords(Records(res.txt(Fqdn(name))))
    ensures res.txt(Fqdn(name)).Ok? ==> |r.value.txt| == |res.txt(Fqdn(name)).value|
  {
    var q := Fqdn(name);
    Ok(DomainLookupInfo(name, Records(res.a(q)), Records(res.aaaa(q)), Records(res.mx(q)), Records(res.ns(q)),
                        Records(res.soa(q)), Records(res.srv(q)), Records(res.tlsa(q)),
                        TxtRecords(Records(res.txt(q))), Records(res.cert(q))))
  }

  /** A name and its qualified form give the same records: only the `name`
      field tells the two lookups apart. */
  lemma LookupAllQualified(res: Resolver, name: string)
    ensures LookupAll(res, Fqdn(name)).value == LookupAll(res, name).value.(name := Fqdn(name))
  {
    FqdnIdempotent(name);
  }

  /** With every lookup failing, all nine lists are empty. */
  lemma LookupAllFailures(res: Resolver, name: string)
    requires var q := Fqdn(name);
             res.a(q).Err? && res.aaaa(q).Err? && res.mx(q).Err? && res.ns(q).Err? && res.soa(q).Err?
             && res.srv(q).Err? && res.tlsa(q).Err? && res.txt(q).Err? && res.cert(q).Err?
    ensures LookupAll(res, name) == Ok(DomainLookupInfo(name, [], [], [], [], [], [], [], [], []))
  {
  }
}
