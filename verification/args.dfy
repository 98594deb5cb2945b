/**
  Proxy command-line argument builder. Each instance becomes one argument
  `<connection string>?<key>=<value>&<key>=<value>...`, keys in alphabetical order:
  `port` (or `unix-socket-path` for a socket instance) always, `auto-iam-authn` and
  `private-ip` when the instance sets them.
 */
module CliArgs {
  import opened Optional
  import opened Text
  import opened Sorting
  import opened Api
  import opened Ports

  datatype Param = Param(key: string, value: string)

  function Key(p: Param): string {
    p.key
  }

  const PortKey := "port"
  const SocketKey := "unix-socket-path"
  const IamKey := "auto-iam-authn"
  const PrivateIpKey := "private-ip"

  /** Go's `%t`. */
  function BoolText(b: bool): string {
    if b then "true" else "false"
  }

  /** Where the proxy listens: the socket path, or the assigned port. */
  function ListenParam(s: InstanceSpec, a: PortAssignment): Param {
    match a
    case Socket => Param(SocketKey, s.unixSocketPath)
    case Tcp(p, _) => Param(PortKey, Decimal(p))
  }

  function FlagParams(s: InstanceSpec): seq<Param> {
    (match s.autoIAMAuthN case Some(b) => [Param(IamKey, BoolText(b))] case None => [])
    + (match s.privateIP case Some(b) => [Param(PrivateIpKey, BoolText(b))] case None => [])
  }

  /** The instance's query parameters, before ordering. */
  function InstanceParams(s: InstanceSpec, a: PortAssignment): seq<Param> {
    [ListenParam(s, a)] + FlagParams(s)
  }

  function EncodeParam(p: Param): string {
    p.key + "=" + p.value
  }

  /** `k=v` pairs joined by `&`. */
  function Query(ps: seq<Param>): string {
    Join(seq(|ps|, i requires 0 <= i < |ps| => EncodeParam(ps[i])), '&')
  }

  /** The proxy argument for one instance. */
  function InstanceArg(s: InstanceSpec, a: PortAssignment): string {
    s.connectionString + "?" + Query(SortBy(InstanceParams(s, a), Key))
  }

  function DecodeParam(s: string): Param {
    match Cut(s, '=')
    case None => Param(s, "")
    case Some((k, v)) => Param(k, v)
  }

  /** Reads an argument back into its connection string and its parameters, in written order. */
  function ParseArg(arg: string): Option<(string, seq<Param>)> {
    match Cut(arg, '?')
    case None => None
    case Some((conn, query)) =>
      var pieces := Split(query, '&');
      Some((conn, seq(|pieces|, i requires 0 <= i < |pieces| => DecodeParam(pieces[i]))))
  }

  /** Keys never contain `=`, `&` or `?`. */
  predicate PlainKey(k: string) {
    '=' !in k && '&' !in k && '?' !in k
  }

  /** What the argument format needs of an instance to be read back unambiguously. */
  predicate Parseable(s: InstanceSpec) {
    '?' !in s.connectionString && '&' !in s.unixSocketPath
  }

  lemma DecimalHasNoAmpersand(n: int)
    ensures '&' !in Decimal(n)
  {
  }

  lemma KeysArePlain()
    ensures PlainKey(PortKey) && PlainKey(SocketKey) && PlainKey(IamKey) && PlainKey(PrivateIpKey)
  {
    LowerIsPlain(PortKey);
    LowerIsPlain(SocketKey);
    LowerIsPlain(IamKey);
    LowerIsPlain(PrivateIpKey);
  }

  /** A key spelt with lower-case letters and dashes only is plain. */
  lemma LowerIsPlain(k: string)
    requires forall i :: 0 <= i < |k| ==> 'a' <= k[i] <= 'z' || k[i] == '-'
    ensures PlainKey(k)
  {
  }

  /** Every parameter of a parseable instance has a plain key and a value without `&`. */
  lemma ParamsWellFormed(s: InstanceSpec, a: PortAssignment, p: Param)
    requires Parseable(s)
    requires p in InstanceParams(s, a)
    ensures PlainKey(p.key) && '&' !in p.value
  {
    KeysArePlain();
    if p == ListenParam(s, a) {
      match a {
        case Socket =>
        case Tcp(n, _) => DecimalHasNoAmpersand(n);
      }
    } else {
      assert p in FlagParams(s);
    }
  }

  /** Parameters whose encodings have no `&` and decode back are read back from an argument. */
  lemma {:induction false} ParseEncoded(conn: string, ps: seq<Param>)
    requires '?' !in conn && |ps| >= 1
    requires forall i :: 0 <= i < |ps| ==> '&' !in EncodeParam(ps[i]) && DecodeParam(EncodeParam(ps[i])) == ps[i]
    ensures ParseArg(conn + "?" + Query(ps)) == Some((conn, ps))
  {
    var encoded := seq(|ps|, i requires 0 <= i < |ps| => EncodeParam(ps[i]));
    SplitJoin(encoded, '&');
    var query := Query(ps);
    CutAfterFree(conn, '?', query);
    assert conn + "?" + query == conn + ['?'] + query;
    var pieces := Split(query, '&');
    assert pieces == encoded;
    assert seq(|pieces|, i requires 0 <= i < |pieces| => DecodeParam(pieces[i])) == ps;
  }

  /** One sorted parameter of a parseable instance encodes without `&` and decodes back. */
  lemma EncodedParamAt(s: InstanceSpec, a: PortAssignment, ps: seq<Param>, i: nat)
    requires Parseable(s) && ps == SortBy(InstanceParams(s, a), Key) && i < |ps|
    ensures '&' !in EncodeParam(ps[i]) && DecodeParam(EncodeParam(ps[i])) == ps[i]
  {
    assert ps[i] in multiset(ps);
    assert ps[i] in InstanceParams(s, a);
    ParamsWellFormed(s, a, ps[i]);
    CutAfterFree(ps[i].key, '=', ps[i].value);
    assert EncodeParam(ps[i]) == ps[i].key + ['='] + ps[i].value;
  }

  /**
    Round trip: parsing an instance argument gives back the connection string and the
    instance's parameters, sorted by key.
   */
  lemma ParseInstanceArg(s: InstanceSpec, a: PortAssignment)
    requires Parseable(s)
    ensures ParseArg(InstanceArg(s, a)) == Some((s.connectionString, SortBy(InstanceParams(s, a), Key)))
  {
    var ps := SortBy(InstanceParams(s, a), Key);
    forall i | 0 <= i < |ps|
      ensures '&' !in EncodeParam(ps[i]) && DecodeParam(EncodeParam(ps[i])) == ps[i]
    {
      EncodedParamAt(s, a, ps, i);
    }
    assert |ps| >= 1;
    InstanceArgOf(s, a, ps);
    ParseEncoded(s.connectionString, ps);
  }

  /** The parameters of an argument are alphabetically ordered and are exactly the instance's. */
  lemma InstanceArgParams(s: InstanceSpec, a: PortAssignment)
    requires Parseable(s)
    ensures ParseArg(InstanceArg(s, a)).Some?
    ensures var ps := ParseArg(InstanceArg(s, a)).value.1;
      SortedBy(ps, Key) && multiset(ps) == multiset(InstanceParams(s, a))
  {
    ParseInstanceArg(s, a);
  }

  // ---------------------------------------------------------------------------
  // The argument shapes of the common cases
  // ---------------------------------------------------------------------------

  lemma QueryOne(x: Param)
    ensures Query([x]) == x.key + "=" + x.value
  {
    assert seq(1, i requires 0 <= i < 1 => EncodeParam([x][i])) == [EncodeParam(x)];
  }

  lemma QueryTwo(x: Param, y: Param)
    ensures Query([x, y]) == x.key + "=" + x.value + "&" + y.key + "=" + y.value
  {
    var e := seq(2, i requires 0 <= i < 2 => EncodeParam([x, y][i]));
    assert e == [EncodeParam(x), EncodeParam(y)];
    assert e[1..] == [EncodeParam(y)];
    assert Join(e, '&') == EncodeParam(x) + ['&'] + EncodeParam(y);
  }

  /** A TCP instance without flags: `conn?port=P`. */
  lemma PlainTcpArg(s: InstanceSpec, p: int, conflict: bool)
    requires s.autoIAMAuthN.None? && s.privateIP.None?
    ensures InstanceArg(s, Tcp(p, conflict)) == s.connectionString + "?port=" + Decimal(p)
  {
    var x := Param(PortKey, Decimal(p));
    assert InstanceParams(s, Tcp(p, conflict)) == [x];
    SortByOne(x, Key);
    QueryOne(x);
    assert "?" + PortKey + "=" == "?port=";
  }

  /** A socket instance without flags: `conn?unix-socket-path=PATH`, with no port. */
  lemma PlainSocketArg(s: InstanceSpec)
    requires s.autoIAMAuthN.None? && s.privateIP.None?
    ensures InstanceArg(s, Socket) == s.connectionString + "?unix-socket-path=" + s.unixSocketPath
  {
    var x := Param(SocketKey, s.unixSocketPath);
    assert InstanceParams(s, Socket) == [x];
    SortByOne(x, Key);
    QueryOne(x);
    assert "?" + SocketKey + "=" == "?unix-socket-path=";
  }

  lemma IamParamsSorted(s: InstanceSpec, p: int, conflict: bool, b: bool)
    requires s.autoIAMAuthN == Some(b) && s.privateIP.None?
    ensures SortBy(InstanceParams(s, Tcp(p, conflict)), Key) == [Param(IamKey, BoolText(b)), Param(PortKey, Decimal(p))]
  {
    var x := Param(PortKey, Decimal(p));
    var y := Param(IamKey, BoolText(b));
    assert FlagParams(s) == [y];
    assert InstanceParams(s, Tcp(p, conflict)) == [x, y];
    assert PortKey[0] == 'p' && IamKey[0] == 'a';
    assert !LexLessEq(PortKey, IamKey);
    SortByTwo(x, y, Key);
  }

  lemma PrivateIpParamsSorted(s: InstanceSpec, p: int, conflict: bool, b: bool)
    requires s.autoIAMAuthN.None? && s.privateIP == Some(b)
    ensures SortBy(InstanceParams(s, Tcp(p, conflict)), Key) == [Param(PortKey, Decimal(p)), Param(PrivateIpKey, BoolText(b))]
  {
    var x := Param(PortKey, Decimal(p));
    var y := Param(PrivateIpKey, BoolText(b));
    assert FlagParams(s) == [y];
    assert InstanceParams(s, Tcp(p, conflict)) == [x, y];
    assert PortKey[1..] == "ort" && PrivateIpKey[1..] == "rivate-ip";
    assert LexLessEq(PortKey, PrivateIpKey);
    SortByTwo(x, y, Key);
  }

  /** `auto-iam-authn` sorts before `port`. */
  lemma IamTcpArg(s: InstanceSpec, p: int, conflict: bool, b: bool)
    requires s.autoIAMAuthN == Some(b) && s.privateIP.None?
    ensures InstanceArg(s, Tcp(p, conflict))
      == s.connectionString + "?auto-iam-authn=" + BoolText(b) + "&port=" + Decimal(p)
  {
    IamParamsSorted(s, p, conflict, b);
    InstanceArgOf(s, Tcp(p, conflict), [Param(IamKey, BoolText(b)), Param(PortKey, Decimal(p))]);
    SeparatorsSpelt();
    TwoParamArg(s.connectionString, IamKey, BoolText(b), PortKey, Decimal(p), "?auto-iam-authn=", "&port=");
  }

  /** `port` sorts before `private-ip`. */
  lemma PrivateIpTcpArg(s: InstanceSpec, p: int, conflict: bool, b: bool)
    requires s.autoIAMAuthN.None? && s.privateIP == Some(b)
    ensures InstanceArg(s, Tcp(p, conflict))
      == s.connectionString + "?port=" + Decimal(p) + "&private-ip=" + BoolText(b)
  {
    PrivateIpParamsSorted(s, p, conflict, b);
    InstanceArgOf(s, Tcp(p, conflict), [Param(PortKey, Decimal(p)), Param(PrivateIpKey, BoolText(b))]);
    SeparatorsSpelt();
    TwoParamArg(s.connectionString, PortKey, Decimal(p), PrivateIpKey, BoolText(b), "?port=", "&private-ip=");
  }

  /** An argument is its connection string followed by its sorted parameters. */
  lemma InstanceArgOf(s: InstanceSpec, a: PortAssignment, ps: seq<Param>)
    requires SortBy(InstanceParams(s, a), Key) == ps
    ensures InstanceArg(s, a) == s.connectionString + "?" + Query(ps)
  {
  }

  /** The separators of the two-parameter arguments, spelt out. */
  lemma SeparatorsSpelt()
    ensures "?auto-iam-authn=" == "?" + IamKey + "="
    ensures "&port=" == "&" + PortKey + "="
    ensures "?port=" == "?" + PortKey + "="
    ensures "&private-ip=" == "&" + PrivateIpKey + "="
  {
  }

  /** An argument with two parameters, written out. */
  lemma TwoParamArg(conn: string, k1: string, v1: string, k2: string, v2: string, sep1: string, sep2: string)
    requires sep1 == "?" + k1 + "=" && sep2 == "&" + k2 + "="
    ensures conn + "?" + Query([Param(k1, v1), Param(k2, v2)]) == conn + sep1 + v1 + sep2 + v2
  {
    QueryTwo(Param(k1, v1), Param(k2, v2));
  }
}
